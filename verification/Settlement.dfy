/** Publisher and sequencers together.  Announcements may reach a sequencer late, in any order, repeatedly or
    never, and so may proofs reach the publisher.  The question is which proof labels the publisher accepts. */
module Settlement {
  import opened Spec
  import PM = PublisherModel
  import PR = PublisherRuns
  import SM = SequencerModel

  /** A sequencer and the announcement its current period comes from, if it was a `StartPeriod`. */
  datatype Node = Node(q: SM.SequencerState, origin: Option<nat>)

  /** A proof sent to the publisher; `origin` is the `StartPeriod` that made the sequencer settle.  Its label is
      fixed when the settlement is triggered; the header read later does not matter here. */
  datatype Proof = Proof(chain: ChainId, period: nat, superblock: nat, origin: Option<nat>)

  datatype Net = Net(pub: PR.Sys, nodes: map<ChainId, Node>, proofs: seq<Proof>)

  datatype Label =
    | Publisher(step: PR.Label)
    | HearsPeriod(chain: ChainId, i: nat, proverOk: bool)
    | HearsRollback(chain: ChainId, i: nat)
    | BeginsBlock(chain: ChainId, number: nat)
    | StartsInstance(chain: ChainId, id: InstanceId, period: nat, seqNum: nat)
    | DecidesInstance(chain: ChainId, id: InstanceId)
    | EndsBlock(chain: ChainId, header: SM.BlockHeader, proverOk: bool)
    | Settles(chain: ChainId, settled: SM.SettledState)

  function Send(net: Net, chain: ChainId, node: Node, due: Option<SM.Due>, proverOk: bool): Net {
    net.(nodes := net.nodes[chain := node],
         proofs := if due.Some? && proverOk
                   then net.proofs + [Proof(chain, due.value.period, due.value.superblock, node.origin)]
                   else net.proofs)
  }

  function Step(sha: seq<Byte> -> InstanceId, net: Net, l: Label): Net {
    if l.Publisher? then net.(pub := PR.Step(sha, net.pub, l.step))
    else if l.chain !in net.nodes then net
    else
      var node := net.nodes[l.chain];
      match l
      case HearsPeriod(chain, i, proverOk) =>
        if i < |net.pub.announced| && net.pub.announced[i].Period? then
          var a := net.pub.announced[i];
          Send(net, chain, Node(SM.StartPeriod(node.q, a.period, a.superblock), Some(i)),
               SM.PeriodDue(node.q, a.period, a.superblock), proverOk)
        else net
      case HearsRollback(chain, i) =>
        if i < |net.pub.announced| && net.pub.announced[i].Rolled? then
          var a := net.pub.announced[i];
          var o := SM.Rollback(node.q, a.finalized, a.hash, a.period);
          if o.Done? then net.(nodes := net.nodes[chain := Node(o.next, None)]) else net
        else net
      case BeginsBlock(chain, number) =>
        net.(nodes := net.nodes[chain := node.(q := SM.After(node.q, SM.BeginBlock(node.q, number)))])
      case StartsInstance(chain, id, period, seqNum) =>
        net.(nodes := net.nodes[chain := node.(q := SM.After(node.q, SM.OnStartInstance(node.q, id, period, seqNum)))])
      case DecidesInstance(chain, id) =>
        net.(nodes := net.nodes[chain := node.(q := SM.After(node.q, SM.OnDecidedInstance(node.q, id)))])
      case EndsBlock(chain, header, proverOk) =>
        Send(net, chain, node.(q := SM.After(node.q, SM.EndBlock(node.q, header))),
             SM.DeferredDue(node.q, header), proverOk)
      case Settles(chain, settled) => net.(nodes := net.nodes[chain := node.(q := SM.AdvanceSettled(node.q, settled))])
  }

  function Begin(p: PM.PublisherState, nodes: map<ChainId, SM.SequencerState>): Net {
    Net(PR.Begin(p), map c | c in nodes :: Node(nodes[c], None), [])
  }

  function Run(sha: seq<Byte> -> InstanceId, p: PM.PublisherState, nodes: map<ChainId, SM.SequencerState>,
               labels: seq<Label>): Net
  {
    if labels == [] then Begin(p, nodes)
    else Step(sha, Run(sha, p, nodes, labels[..|labels| - 1]), labels[|labels| - 1])
  }

  /** Sequencers start without an open block, as `Sequencer::new` makes them. */
  ghost predicate Idle(nodes: map<ChainId, SM.SequencerState>) {
    forall c :: c in nodes ==> nodes[c].pending.None?
  }

  // ---- What the publisher announces ----

  datatype Pair = Pair(period: nat, superblock: nat)

  /** The (period, superblock) pair an announcement puts in force; a rollback restarts at the next superblock. */
  function PairOf(a: PR.Announcement): Pair {
    match a
    case Period(period, superblock) => Pair(period, superblock)
    case Rolled(period, finalized, _) => Pair(period, finalized + 1)
  }

  /** The pair in force before the i-th announcement; the initial pair before the first. */
  function InForce(initial: Pair, announced: seq<PR.Announcement>, i: nat): Pair
    requires i <= |announced|
  {
    if i == 0 then initial else PairOf(announced[i - 1])
  }

  /** Announcements continue one another: a period adds one to both numbers, a rollback keeps the period. */
  ghost predicate Chained(initial: Pair, announced: seq<PR.Announcement>) {
    forall i :: 0 <= i < |announced| ==> Continues(InForce(initial, announced, i), announced[i])
  }

  ghost predicate Continues(before: Pair, a: PR.Announcement) {
    match a
    case Period(period, superblock) => period == before.period + 1 && superblock == before.superblock + 1
    case Rolled(period, _, _) => period == before.period
  }

  /** No rollback was announced after the i-th announcement. */
  ghost predicate CurrentEra(announced: seq<PR.Announcement>, i: nat) {
    forall r :: i < r < |announced| ==> announced[r].Period?
  }

  /** The period expected for the superblock after the last finalized one. */
  function NextExpected(p: PM.PublisherState): int {
    p.period - p.target + p.finalized + 1
  }

  ghost predicate Monotone(s: PR.Sys) {
    && (forall r :: 0 <= r < |s.announced| ==> s.announced[r].period <= s.p.period)
    && (forall i, r :: 0 <= i < r < |s.announced| ==> s.announced[i].period <= s.announced[r].period)
  }

  /** Once a rollback was announced at a period, no earlier period is expected any more. */
  ghost predicate RollbackBound(s: PR.Sys) {
    forall r :: 0 <= r < |s.announced| && s.announced[r].Rolled? ==> NextExpected(s.p) >= s.announced[r].period
  }

  /** Since the last rollback period and superblock number have moved together. */
  ghost predicate InStep(s: PR.Sys) {
    forall i :: 0 <= i < |s.announced| && s.announced[i].Period? && CurrentEra(s.announced, i) ==>
      s.announced[i].period - s.announced[i].superblock == s.p.period - s.p.target
  }

  ghost predicate InForceNow(initial: Pair, s: PR.Sys) {
    InForce(initial, s.announced, |s.announced|) == Pair(s.p.period, s.p.target)
  }

  ghost predicate PublisherOk(initial: Pair, s: PR.Sys) {
    Chained(initial, s.announced) && InForceNow(initial, s) && Monotone(s) && RollbackBound(s) && InStep(s)
  }

  lemma EraOfPrefix(announced: seq<PR.Announcement>, a: PR.Announcement, i: nat)
    requires i < |announced|
    ensures CurrentEra(announced + [a], i) <==> CurrentEra(announced, i) && a.Period?
  {
    var all := announced + [a];
    assert all[|announced|] == a;
    assert forall r :: i < r < |announced| ==> all[r] == announced[r];
    if CurrentEra(all, i) {
      assert forall r :: i < r < |announced| ==> announced[r].Period?;
    }
  }

  /** `a` is what the publisher in state `p` announces next. */
  ghost predicate NextAnnouncement(p: PM.PublisherState, a: PR.Announcement) {
    match a
    case Period(period, superblock) => period == p.period + 1 && superblock == p.target + 1
    case Rolled(period, finalized, _) => period == p.period && finalized == p.finalized
  }

  lemma InForcePrefix(initial: Pair, announced: seq<PR.Announcement>, a: PR.Announcement, i: nat)
    requires i <= |announced|
    ensures InForce(initial, announced + [a], i) == InForce(initial, announced, i)
    ensures (announced + [a])[i] == if i < |announced| then announced[i] else a
  {
  }

  lemma AnnounceKeepsChained(initial: Pair, s: PR.Sys, s': PR.Sys, a: PR.Announcement)
    requires Chained(initial, s.announced) && InForceNow(initial, s) && NextAnnouncement(s.p, a)
    requires s'.announced == s.announced + [a]
    ensures Chained(initial, s'.announced)
  {
    forall i | 0 <= i <= |s.announced|
      ensures Continues(InForce(initial, s'.announced, i), s'.announced[i])
    {
      InForcePrefix(initial, s.announced, a, i);
    }
  }

  lemma AnnounceKeepsBounds(s: PR.Sys, s': PR.Sys, a: PR.Announcement)
    requires Monotone(s) && RollbackBound(s) && NextAnnouncement(s.p, a)
    requires s'.announced == s.announced + [a]
    requires PairOf(a) == Pair(s'.p.period, s'.p.target) && s'.p.finalized == s.p.finalized
    ensures Monotone(s') && RollbackBound(s')
  {
  }

  lemma AnnounceKeepsStep(s: PR.Sys, s': PR.Sys, a: PR.Announcement)
    requires InStep(s) && NextAnnouncement(s.p, a)
    requires s'.announced == s.announced + [a] && PairOf(a) == Pair(s'.p.period, s'.p.target)
    ensures InStep(s')
  {
    var n := |s.announced|;
    forall i | 0 <= i <= n && s'.announced[i].Period? && CurrentEra(s'.announced, i)
      ensures s'.announced[i].period - s'.announced[i].superblock == s'.p.period - s'.p.target
    {
      if i < n {
        EraOfPrefix(s.announced, a, i);
        assert s'.announced[i] == s.announced[i];
      }
    }
  }

  lemma QuietKeepsOk(initial: Pair, s: PR.Sys, s': PR.Sys)
    requires PublisherOk(initial, s) && s'.announced == s.announced
    requires s'.p.period == s.p.period && s'.p.target == s.p.target && s'.p.finalized >= s.p.finalized
    ensures PublisherOk(initial, s')
  {
  }

  /** Every publisher step either announces what follows, or changes neither period nor target. */
  lemma PublisherEffect(sha: seq<Byte> -> InstanceId, s: PR.Sys, l: PR.Label)
    ensures var s' := PR.Step(sha, s, l);
            if s'.announced == s.announced
            then s'.p.period == s.p.period && s'.p.target == s.p.target && s'.p.finalized >= s.p.finalized
            else
              && |s'.announced| > 0
              && var a := s'.announced[|s'.announced| - 1];
              && s'.announced == s.announced + [a] && NextAnnouncement(s.p, a)
              && PairOf(a) == Pair(s'.p.period, s'.p.target) && s'.p.finalized == s.p.finalized
  {
  }

  lemma PublisherKeepsOk(sha: seq<Byte> -> InstanceId, initial: Pair, s: PR.Sys, l: PR.Label)
    requires PublisherOk(initial, s)
    ensures PublisherOk(initial, PR.Step(sha, s, l))
  {
    var s' := PR.Step(sha, s, l);
    PublisherEffect(sha, s, l);
    if s'.announced == s.announced {
      QuietKeepsOk(initial, s, s');
    } else {
      var a := s'.announced[|s'.announced| - 1];
      AnnounceKeepsChained(initial, s, s', a);
      AnnounceKeepsBounds(s, s', a);
      AnnounceKeepsStep(s, s', a);
    }
  }

  // ---- Where labels come from ----

  /** A sequencer whose settlement is deferred owes it to the `StartPeriod` it remembers. */
  ghost predicate NodeOk(announced: seq<PR.Announcement>, node: Node) {
    match node.origin
    case Some(i) =>
      && i < |announced| && announced[i].Period?
      && node.q.period == announced[i].period && node.q.target == announced[i].superblock
    case None => node.q.pending.Some? ==> node.q.pending.value.period >= node.q.period
  }

  /** The proof answers a `StartPeriod` and is labelled with both of its numbers less one. */
  ghost predicate ProofOk(announced: seq<PR.Announcement>, m: Proof) {
    && m.origin.Some? && m.origin.value < |announced| && announced[m.origin.value].Period?
    && m.period == WrapSub(announced[m.origin.value].period, 1)
    && m.superblock == WrapSub(announced[m.origin.value].superblock, 1)
  }

  ghost predicate NodesOk(announced: seq<PR.Announcement>, nodes: map<ChainId, Node>, proofs: seq<Proof>) {
    && (forall c :: c in nodes ==> NodeOk(announced, nodes[c]))
    && (forall k :: 0 <= k < |proofs| ==> ProofOk(announced, proofs[k]))
  }

  ghost predicate NetOk(initial: Pair, net: Net) {
    PublisherOk(initial, net.pub) && NodesOk(net.pub.announced, net.nodes, net.proofs)
  }

  lemma MoreAnnounced(announced: seq<PR.Announcement>, announced': seq<PR.Announcement>, nodes: map<ChainId, Node>,
                      proofs: seq<Proof>)
    requires NodesOk(announced, nodes, proofs) && announced <= announced'
    ensures NodesOk(announced', nodes, proofs)
  {
  }

  lemma NodeStepNode(sha: seq<Byte> -> InstanceId, net: Net, l: Label)
    requires !l.Publisher? && l.chain in net.nodes && NodeOk(net.pub.announced, net.nodes[l.chain])
    ensures var net' := Step(sha, net, l);
            && net'.nodes.Keys == net.nodes.Keys && NodeOk(net.pub.announced, net'.nodes[l.chain])
            && (forall c :: c in net.nodes && c != l.chain ==> net'.nodes[c] == net.nodes[c])
  {
  }

  lemma NodeStepProof(sha: seq<Byte> -> InstanceId, net: Net, l: Label)
    requires !l.Publisher? && l.chain in net.nodes && NodeOk(net.pub.announced, net.nodes[l.chain])
    ensures var proofs, proofs' := net.proofs, Step(sha, net, l).proofs;
            proofs' == proofs ||
            (|proofs'| == |proofs| + 1 && proofs' == proofs + [proofs'[|proofs|]] &&
              ProofOk(net.pub.announced, proofs'[|proofs|]))
  {
  }

  lemma NodeStepKeepsOk(sha: seq<Byte> -> InstanceId, net: Net, l: Label)
    requires NodesOk(net.pub.announced, net.nodes, net.proofs) && !l.Publisher? && l.chain in net.nodes
    ensures NodesOk(net.pub.announced, Step(sha, net, l).nodes, Step(sha, net, l).proofs)
  {
    NodeStepNode(sha, net, l);
    NodeStepProof(sha, net, l);
  }

  lemma StepKeepsOk(sha: seq<Byte> -> InstanceId, initial: Pair, net: Net, l: Label)
    requires NetOk(initial, net)
    ensures NetOk(initial, Step(sha, net, l))
  {
    if l.Publisher? {
      PublisherKeepsOk(sha, initial, net.pub, l.step);
      PublisherEffect(sha, net.pub, l.step);
      MoreAnnounced(net.pub.announced, Step(sha, net, l).pub.announced, net.nodes, net.proofs);
    } else if l.chain in net.nodes {
      NodeStepKeepsOk(sha, net, l);
      assert Step(sha, net, l).pub == net.pub;
    }
  }

  lemma {:induction false} RunOk(sha: seq<Byte> -> InstanceId, p: PM.PublisherState,
                                 nodes: map<ChainId, SM.SequencerState>, labels: seq<Label>)
    requires Idle(nodes)
    ensures NetOk(Pair(p.period, p.target), Run(sha, p, nodes, labels))
  {
    if labels != [] {
      RunOk(sha, p, nodes, labels[..|labels| - 1]);
      StepKeepsOk(sha, Pair(p.period, p.target), Run(sha, p, nodes, labels[..|labels| - 1]), labels[|labels| - 1]);
    }
  }

  // ---- Main results ----

  /** Every proof a sequencer sends is labelled with a pair the publisher has announced: the pair in force
      when it announced the period that the sequencer answers. */
  lemma LabelsWereAnnounced(sha: seq<Byte> -> InstanceId, p: PM.PublisherState, nodes: map<ChainId, SM.SequencerState>,
                            labels: seq<Label>, k: nat)
    requires Idle(nodes) && k < |Run(sha, p, nodes, labels).proofs|
    ensures var net := Run(sha, p, nodes, labels); var m := net.proofs[k];
            && m.origin.Some? && m.origin.value < |net.pub.announced| && net.pub.announced[m.origin.value].Period?
            && Pair(m.period, m.superblock) == InForce(Pair(p.period, p.target), net.pub.announced, m.origin.value)
  {
    RunOk(sha, p, nodes, labels);
    var net := Run(sha, p, nodes, labels);
    assert ProofOk(net.pub.announced, net.proofs[k]);
  }

  lemma StaleLabelFails(s: PR.Sys, i: nat, r: nat, n: nat)
    requires Monotone(s) && RollbackBound(s) && i < r < |s.announced|
    requires s.announced[i].Period? && s.announced[i].period > 0 && s.announced[r].Rolled?
    ensures !PM.LabelPasses(s.p, s.announced[i].period - 1, n)
  {
  }

  /** A proof that answers an announcement made before some rollback is never stored after it, however late
      or reordered the messages are and whatever superblock it names.  (A prover call that is running when the
      rollback happens is another matter: see `ProverCalls`.) */
  lemma StaleProofsNeverStored(sha: seq<Byte> -> InstanceId, p: PM.PublisherState,
                               nodes: map<ChainId, SM.SequencerState>, labels: seq<Label>, k: nat, r: nat,
                               payload: seq<Byte>)
    requires Idle(nodes) && k < |Run(sha, p, nodes, labels).proofs|
    requires var net := Run(sha, p, nodes, labels); var m := net.proofs[k];
             && m.origin.Some? && m.origin.value < r < |net.pub.announced| && net.pub.announced[r].Rolled?
    ensures var net := Run(sha, p, nodes, labels); var m := net.proofs[k];
            && NextExpected(net.pub.p) >= net.pub.announced[r].period > m.period
            && PM.ReceiveProof(net.pub.p, m.period, m.superblock, payload, m.chain) == net.pub.p
  {
    RunOk(sha, p, nodes, labels);
    var net := Run(sha, p, nodes, labels);
    var m := net.proofs[k];
    var i := m.origin.value;
    assert ProofOk(net.pub.announced, m);
    AnnouncedPositive(Pair(p.period, p.target), net.pub.announced, i);
    StaleLabelFails(net.pub, i, r, m.superblock);
  }

  lemma AnnouncedPositive(initial: Pair, announced: seq<PR.Announcement>, i: nat)
    requires Chained(initial, announced) && i < |announced| && announced[i].Period?
    ensures announced[i].period > 0 && announced[i].superblock > 0
    ensures Pair(announced[i].period - 1, announced[i].superblock - 1) == InForce(initial, announced, i)
  {
  }

  /** The publisher's label checks accept a sequencer's proof exactly when the announcement it answers came
      after the last rollback and it names the superblock after the last finalized one. */
  lemma AcceptedExactlyWhenCurrent(sha: seq<Byte> -> InstanceId, p: PM.PublisherState,
                                   nodes: map<ChainId, SM.SequencerState>, labels: seq<Label>, k: nat)
    requires Idle(nodes) && k < |Run(sha, p, nodes, labels).proofs|
    ensures var net := Run(sha, p, nodes, labels); var m := net.proofs[k];
            PM.LabelPasses(net.pub.p, m.period, m.superblock) <==>
            m.origin.Some? && CurrentEra(net.pub.announced, m.origin.value) && m.superblock == net.pub.p.finalized + 1
  {
    RunOk(sha, p, nodes, labels);
    var net := Run(sha, p, nodes, labels);
    var m := net.proofs[k];
    assert ProofOk(net.pub.announced, m);
    CurrentLabel(Pair(p.period, p.target), net.pub, m.origin.value);
  }

  lemma CurrentLabel(initial: Pair, s: PR.Sys, i: nat)
    requires PublisherOk(initial, s) && i < |s.announced| && s.announced[i].Period?
    ensures s.announced[i].period > 0 && s.announced[i].superblock > 0
    ensures PM.LabelPasses(s.p, s.announced[i].period - 1, s.announced[i].superblock - 1) <==>
            CurrentEra(s.announced, i) && s.announced[i].superblock - 1 == s.p.finalized + 1
  {
    AnnouncedPositive(initial, s.announced, i);
    if CurrentEra(s.announced, i) {
      assert s.announced[i].period <= s.p.period;
    } else {
      var r :| i < r < |s.announced| && !s.announced[r].Period?;
      StaleLabelFails(s, i, r, s.announced[i].superblock - 1);
    }
  }

  // ---- Which rollbacks a sequencer accepts ----

  /** L1 gives one hash per superblock, the same to everyone. */
  ghost predicate OneHash(l1: nat -> seq<Byte>, labels: seq<Label>) {
    forall l :: l in labels ==> SaysHash(l1, l)
  }

  ghost predicate SaysHash(l1: nat -> seq<Byte>, l: Label) {
    && (l.Publisher? && l.step.L1Settles? ==> l.step.hash == l1(l.step.superblock))
    && (l.Settles? ==> l.settled.hash == l1(l.settled.superblock))
  }

  ghost predicate PublisherKnows(l1: nat -> seq<Byte>, s: PR.Sys) {
    && s.p.finalizedHash == l1(s.p.finalized)
    && forall a :: a in s.announced && a.Rolled? ==> a.hash == l1(a.finalized)
  }

  ghost predicate NodesKnow(l1: nat -> seq<Byte>, nodes: map<ChainId, Node>) {
    forall c :: c in nodes ==> nodes[c].q.settled.hash == l1(nodes[c].q.settled.superblock)
  }

  lemma PublisherStepKnows(sha: seq<Byte> -> InstanceId, l1: nat -> seq<Byte>, s: PR.Sys, l: PR.Label)
    requires PublisherKnows(l1, s) && (l.L1Settles? ==> l.hash == l1(l.superblock))
    ensures PublisherKnows(l1, PR.Step(sha, s, l))
  {
    var s' := PR.Step(sha, s, l);
    PR.StepFinalized(sha, s, l);
    forall a | a in s'.announced && a.Rolled?
      ensures a.hash == l1(a.finalized)
    {
      PR.StepRolls(sha, s, l, a);
    }
  }

  /** A sequencer's settled state changes only when L1 settles. */
  lemma NodeStepSettled(sha: seq<Byte> -> InstanceId, net: Net, l: Label, c: ChainId)
    requires !l.Publisher? && c in net.nodes
    ensures c in Step(sha, net, l).nodes
    ensures var q, q' := net.nodes[c].q, Step(sha, net, l).nodes[c].q;
            q'.settled == q.settled || (l.Settles? && l.chain == c && q'.settled == l.settled)
  {
  }

  lemma StepKnows(sha: seq<Byte> -> InstanceId, l1: nat -> seq<Byte>, net: Net, l: Label)
    requires PublisherKnows(l1, net.pub) && NodesKnow(l1, net.nodes) && SaysHash(l1, l)
    ensures PublisherKnows(l1, Step(sha, net, l).pub) && NodesKnow(l1, Step(sha, net, l).nodes)
    ensures Step(sha, net, l).nodes.Keys == net.nodes.Keys
  {
    if l.Publisher? {
      PublisherStepKnows(sha, l1, net.pub, l.step);
    } else {
      forall c | c in net.nodes
        ensures c in Step(sha, net, l).nodes
        ensures Step(sha, net, l).nodes[c].q.settled.hash == l1(Step(sha, net, l).nodes[c].q.settled.superblock)
      {
        NodeStepSettled(sha, net, l, c);
      }
    }
  }

  lemma {:induction false} RunKnows(sha: seq<Byte> -> InstanceId, l1: nat -> seq<Byte>, p: PM.PublisherState,
                                    nodes: map<ChainId, SM.SequencerState>, labels: seq<Label>)
    requires OneHash(l1, labels) && p.finalizedHash == l1(p.finalized) && NodesKnow(l1, Begin(p, nodes).nodes)
    ensures var net := Run(sha, p, nodes, labels);
            PublisherKnows(l1, net.pub) && NodesKnow(l1, net.nodes) && net.nodes.Keys == nodes.Keys
  {
    if labels != [] {
      var before := labels[..|labels| - 1];
      RunKnows(sha, l1, p, nodes, before);
      StepKnows(sha, l1, Run(sha, p, nodes, before), labels[|before|]);
    }
  }

  /** Where L1 gives everyone one hash per superblock, a sequencer accepts an announced rollback exactly when the
      superblock finalized for the publisher then is the one settled for the sequencer now. */
  lemma RollbackAcceptedExactly(sha: seq<Byte> -> InstanceId, l1: nat -> seq<Byte>, p: PM.PublisherState,
                                nodes: map<ChainId, SM.SequencerState>, labels: seq<Label>, c: ChainId, i: nat)
    requires OneHash(l1, labels) && p.finalizedHash == l1(p.finalized) && NodesKnow(l1, Begin(p, nodes).nodes)
    requires c in nodes
    requires i < |Run(sha, p, nodes, labels).pub.announced| && Run(sha, p, nodes, labels).pub.announced[i].Rolled?
    ensures var net := Run(sha, p, nodes, labels); var a := net.pub.announced[i];
            && c in net.nodes
            && var q := net.nodes[c].q;
               SM.Rollback(q, a.finalized, a.hash, a.period).Done? <==> a.finalized == q.settled.superblock
  {
    RunKnows(sha, l1, p, nodes, labels);
    var net := Run(sha, p, nodes, labels);
    assert net.pub.announced[i] in net.pub.announced;
  }
}
