/** Whole runs of the SBCP publisher.  The prover call is outside the lock, so its outcome is a step of its
    own that may come at any later time. */
module PublisherRuns {
  import opened Spec
  import opened InstanceIds
  import opened PublisherModel

  datatype Announcement =
    | Period(period: nat, superblock: nat)
    | Rolled(period: nat, finalized: nat, hash: seq<Byte>)

  /** What happened to the stored proofs. */
  datatype Happening = Stored(superblock: nat, chain: ChainId, proof: seq<Byte>) | Answered(superblock: nat) | Wiped

  /** A running prover call, and how much had happened and been announced when it was made. */
  datatype Call = Call(prover: ProverCall, at: nat, announced: nat)

  /** An instance and the number of rollbacks before its start. */
  datatype Issued = Issued(instance: Instance, rollbacks: nat)

  /** `calls` are the prover calls that are running, `published` the superblocks handed to L1. */
  datatype Sys = Sys(
    p: PublisherState,
    announced: seq<Announcement>,
    calls: seq<Call>,
    published: set<nat>,
    log: seq<Happening>,
    starts: seq<Issued>,
    rollbacks: nat)

  datatype Label =
    | PeriodStarts
    | ProofArrives(period: nat, superblock: nat, proof: seq<Byte>, chain: ChainId)
    | ProverAnswers(i: nat)
    | ProverFails(i: nat)
    | L1Settles(superblock: nat, hash: seq<Byte>)
    | TimesOut
    | InstanceStarts(request: XtRequest)
    | InstanceDecided(instance: Instance)

  function Begin(p: PublisherState): Sys {
    Sys(p, [], [], {}, [], [], 0)
  }

  function RollbackStep(s: Sys): Sys {
    s.(p := Rollback(s.p), announced := s.announced + [Rolled(s.p.period, s.p.finalized, s.p.finalizedHash)],
       log := s.log + [Wiped], rollbacks := s.rollbacks + 1)
  }

  function Step(sha: seq<Byte> -> InstanceId, s: Sys, l: Label): Sys {
    match l
    case PeriodStarts =>
      (match StartPeriod(s.p)
       case Err(_) => s
       case Ok(p) => s.(p := p, announced := s.announced + [Period(p.period, p.target)]))
    case ProofArrives(period, n, proof, chain) =>
      var v := Judge(s.p, period, n, proof, chain);
      s.(p := ReceiveProof(s.p, period, n, proof, chain),
         log := s.log + (if v.Waiting? || v.Complete? then [Stored(n, chain, proof)] else []),
         calls := s.calls + if v.Complete? then [Call(v.call, |s.log| + 1, |s.announced|)] else [])
    case ProverAnswers(i) =>
      if i >= |s.calls| then s
      else
        var n := s.calls[i].prover.superblock;
        s.(p := ProverSucceeded(s.p, n), calls := Without(s.calls, i), published := s.published + {n},
           log := s.log + [Answered(n)])
    case ProverFails(i) => if i >= |s.calls| then s else RollbackStep(s.(calls := Without(s.calls, i)))
    case L1Settles(n, hash) =>
      (match AdvanceSettled(s.p, n, hash)
       case Err(_) => s
       case Ok(p) => s.(p := p))
    case TimesOut => RollbackStep(s)
    case InstanceStarts(request) =>
      (match StartInstance(sha, s.p, request)
       case Err(_) => s
       case Ok(r) => s.(p := r.next, starts := s.starts + [Issued(r.instance, s.rollbacks)]))
    case InstanceDecided(instance) =>
      (match DecideInstance(s.p, instance)
       case Err(_) => s
       case Ok(p) => s.(p := p))
  }

  function Run(sha: seq<Byte> -> InstanceId, p: PublisherState, labels: seq<Label>): Sys {
    if labels == [] then Begin(p) else Step(sha, Run(sha, p, labels[..|labels| - 1]), labels[|labels| - 1])
  }

  // ---- Contiguous settlement ----

  /** L1 settles only what was published to it. */
  ghost predicate HonestL1(sha: seq<Byte> -> InstanceId, p: PublisherState, labels: seq<Label>) {
    forall i :: 0 <= i < |labels| && labels[i].L1Settles? ==> labels[i].superblock in Run(sha, p, labels[..i]).published
  }

  /** Whatever is being proved or published is at most the next superblock and within the target. */
  ghost predicate InReach(s: Sys) {
    && s.p.finalized <= s.p.target
    && (forall c :: c in s.calls ==> c.prover.superblock <= s.p.finalized + 1 && c.prover.superblock <= s.p.target)
    && (forall n :: n in s.published ==> n <= s.p.finalized + 1 && n <= s.p.target)
  }

  lemma ArrivalKeepsReach(sha: seq<Byte> -> InstanceId, s: Sys, l: Label)
    requires InReach(s) && l.ProofArrives?
    ensures InReach(Step(sha, s, l))
  {
    var v, s' := Judge(s.p, l.period, l.superblock, l.proof, l.chain), Step(sha, s, l);
    assert s'.p.finalized == s.p.finalized && s'.p.target == s.p.target && s'.published == s.published;
    forall c | c in s'.calls
      ensures c.prover.superblock <= s.p.finalized + 1 && c.prover.superblock <= s.p.target
    {
      assert c in s.calls || (v.Complete? && c.prover == v.call);
    }
  }

  lemma ReachWithoutCall(s: Sys, i: nat)
    requires InReach(s) && i < |s.calls|
    ensures InReach(s.(calls := Without(s.calls, i))) && s.calls[i] in s.calls
  {
    assert forall c :: c in Without(s.calls, i) ==> c in s.calls;
  }

  lemma AnswerKeepsReach(sha: seq<Byte> -> InstanceId, s: Sys, i: nat)
    requires InReach(s) && i < |s.calls|
    ensures InReach(Step(sha, s, ProverAnswers(i)))
  {
    ReachWithoutCall(s, i);
    var s' := Step(sha, s, ProverAnswers(i));
    assert s'.published == s.published + {s.calls[i].prover.superblock} && s'.calls == Without(s.calls, i);
  }

  lemma RollbackKeepsReach(s: Sys)
    requires InReach(s)
    ensures InReach(RollbackStep(s))
  {
    assert RollbackStep(s).p.target == s.p.finalized + 1;
  }

  lemma SettledKeepsReach(sha: seq<Byte> -> InstanceId, s: Sys, n: nat, hash: seq<Byte>)
    requires InReach(s) && n in s.published
    ensures InReach(Step(sha, s, L1Settles(n, hash)))
  {
  }

  lemma OthersKeepReach(sha: seq<Byte> -> InstanceId, s: Sys, l: Label)
    requires InReach(s) && (l.PeriodStarts? || l.InstanceStarts? || l.InstanceDecided?)
    ensures InReach(Step(sha, s, l))
  {
    var s' := Step(sha, s, l);
    assert s'.calls == s.calls && s'.published == s.published;
    assert s'.p.finalized == s.p.finalized && s'.p.target >= s.p.target;
  }

  lemma StepKeepsReach(sha: seq<Byte> -> InstanceId, s: Sys, l: Label)
    requires InReach(s) && (l.L1Settles? ==> l.superblock in s.published)
    ensures InReach(Step(sha, s, l))
  {
    match l
    case ProofArrives(period, n, proof, chain) => ArrivalKeepsReach(sha, s, l);
    case ProverAnswers(i) => if i < |s.calls| { AnswerKeepsReach(sha, s, i); }
    case ProverFails(i) =>
      if i < |s.calls| {
        ReachWithoutCall(s, i);
        RollbackKeepsReach(s.(calls := Without(s.calls, i)));
      }
    case L1Settles(n, hash) => SettledKeepsReach(sha, s, n, hash);
    case TimesOut => RollbackKeepsReach(s);
    case _ => OthersKeepReach(sha, s, l);
  }

  lemma RunPrefix(sha: seq<Byte> -> InstanceId, p: PublisherState, labels: seq<Label>, n: nat)
    requires n < |labels|
    ensures Run(sha, p, labels[..n + 1]) == Step(sha, Run(sha, p, labels[..n]), labels[n])
  {
    assert labels[..n + 1][..n] == labels[..n];
  }

  lemma {:induction false} RunInReach(sha: seq<Byte> -> InstanceId, p: PublisherState, labels: seq<Label>, n: nat)
    requires p.finalized <= p.target && HonestL1(sha, p, labels) && n <= |labels|
    ensures InReach(Run(sha, p, labels[..n]))
  {
    if n > 0 {
      RunInReach(sha, p, labels, n - 1);
      StepKeepsReach(sha, Run(sha, p, labels[..n - 1]), labels[n - 1]);
      RunPrefix(sha, p, labels, n - 1);
    }
  }

  /** Under every interleaving with prover calls and rollbacks, a settlement is accepted only for the
      superblock after the last finalized one, and finalization never passes the target. */
  lemma SettlementContiguous(sha: seq<Byte> -> InstanceId, p: PublisherState, labels: seq<Label>, n: nat,
                             hash: seq<Byte>)
    requires p.finalized <= p.target && HonestL1(sha, p, labels) && n in Run(sha, p, labels).published
    ensures var s := Run(sha, p, labels); var s' := Step(sha, s, L1Settles(n, hash));
            && s.p.finalized <= s.p.target && s'.p.finalized <= s'.p.target
            && (AdvanceSettled(s.p, n, hash).Ok? <==> n == s.p.finalized + 1)
            && s'.p.finalized == (if n == s.p.finalized + 1 then s.p.finalized + 1 else s.p.finalized)
  {
    RunInReach(sha, p, labels, |labels|);
    assert labels[..|labels|] == labels;
    StepKeepsReach(sha, Run(sha, p, labels), L1Settles(n, hash));
  }

  // ---- What is announced ----

  /** Without rollbacks the i-th announcement adds `i + 1` to both initial numbers. */
  ghost predicate AnnouncedInStep(p: PublisherState, s: Sys) {
    s.rollbacks == 0 ==>
      && s.p.period == p.period + |s.announced| && s.p.target == p.target + |s.announced|
      && forall i :: 0 <= i < |s.announced| ==> s.announced[i] == Period(p.period + 1 + i, p.target + 1 + i)
  }

  lemma PeriodKeepsStep(sha: seq<Byte> -> InstanceId, p: PublisherState, s: Sys)
    requires AnnouncedInStep(p, s)
    ensures AnnouncedInStep(p, Step(sha, s, PeriodStarts))
  {
  }

  lemma OthersAnnounceNothing(sha: seq<Byte> -> InstanceId, s: Sys, l: Label)
    requires !l.PeriodStarts?
    ensures var s' := Step(sha, s, l);
            s'.rollbacks > 0 || (s'.announced == s.announced && s'.p.period == s.p.period && s'.p.target == s.p.target)
  {
  }

  lemma RollbacksStay(sha: seq<Byte> -> InstanceId, s: Sys, l: Label)
    ensures Step(sha, s, l).rollbacks >= s.rollbacks
  {
  }

  lemma {:induction false} RunAnnounces(sha: seq<Byte> -> InstanceId, p: PublisherState, labels: seq<Label>)
    ensures AnnouncedInStep(p, Run(sha, p, labels))
  {
    if labels != [] {
      var s, l := Run(sha, p, labels[..|labels| - 1]), labels[|labels| - 1];
      RunAnnounces(sha, p, labels[..|labels| - 1]);
      RollbacksStay(sha, s, l);
      if l.PeriodStarts? { PeriodKeepsStep(sha, p, s); } else { OthersAnnounceNothing(sha, s, l); }
    }
  }

  // ---- Finalized numbers and hashes ----

  /** The pair is the one the publisher was created with, or L1 reported it during the run. */
  ghost predicate Reported(p: PublisherState, labels: seq<Label>, n: nat, hash: seq<Byte>) {
    (n == p.finalized && hash == p.finalizedHash) || L1Settles(n, hash) in labels
  }

  /** The finalized pair was reported and no report was newer; every rollback announced, and every prover call made
      on top of a finalized superblock, pairs the number with a hash reported for it. */
  ghost predicate HashesReported(p: PublisherState, labels: seq<Label>, s: Sys) {
    && Reported(p, labels, s.p.finalized, s.p.finalizedHash)
    && p.finalized <= s.p.finalized
    && (forall l :: l in labels && l.L1Settles? ==> l.superblock <= s.p.finalized)
    && (forall a :: a in s.announced && a.Rolled? ==> Reported(p, labels, a.finalized, a.hash))
    && (forall c :: c in s.calls ==>
          c.prover.superblock > 0 && Reported(p, labels, c.prover.superblock - 1, c.prover.lastHash))
  }

  lemma StepFinalized(sha: seq<Byte> -> InstanceId, s: Sys, l: Label)
    ensures var s' := Step(sha, s, l);
            if l.L1Settles? && l.superblock > s.p.finalized
            then s'.p.finalized == l.superblock && s'.p.finalizedHash == l.hash
            else s'.p.finalized == s.p.finalized && s'.p.finalizedHash == s.p.finalizedHash
  {
  }

  lemma StepRolls(sha: seq<Byte> -> InstanceId, s: Sys, l: Label, a: Announcement)
    requires a in Step(sha, s, l).announced && a.Rolled?
    ensures a in s.announced || (a.finalized == s.p.finalized && a.hash == s.p.finalizedHash)
  {
  }

  lemma StepCallsOn(sha: seq<Byte> -> InstanceId, s: Sys, l: Label, c: Call)
    requires c in Step(sha, s, l).calls
    ensures c in s.calls || (c.prover.superblock == s.p.finalized + 1 && c.prover.lastHash == s.p.finalizedHash)
  {
    if l.ProverAnswers? && l.i < |s.calls| { assert c in Without(s.calls, l.i); }
    if l.ProverFails? && l.i < |s.calls| { assert c in Without(s.calls, l.i); }
  }

  lemma ReportedLater(p: PublisherState, labels: seq<Label>, l: Label, n: nat, hash: seq<Byte>)
    requires Reported(p, labels, n, hash)
    ensures Reported(p, labels + [l], n, hash)
  {
  }

  lemma StepKeepsReported(sha: seq<Byte> -> InstanceId, p: PublisherState, labels: seq<Label>, s: Sys, l: Label)
    requires HashesReported(p, labels, s)
    ensures HashesReported(p, labels + [l], Step(sha, s, l))
  {
    var s', now := Step(sha, s, l), labels + [l];
    StepFinalized(sha, s, l);
    ReportedLater(p, labels, l, s.p.finalized, s.p.finalizedHash);
    if l.L1Settles? { assert L1Settles(l.superblock, l.hash) in now; }
    forall a | a in s'.announced && a.Rolled?
      ensures Reported(p, now, a.finalized, a.hash)
    {
      StepRolls(sha, s, l, a);
      ReportedLater(p, labels, l, a.finalized, a.hash);
    }
    forall c | c in s'.calls
      ensures c.prover.superblock > 0 && Reported(p, now, c.prover.superblock - 1, c.prover.lastHash)
    {
      StepCallsOn(sha, s, l, c);
      ReportedLater(p, labels, l, c.prover.superblock - 1, c.prover.lastHash);
    }
  }

  lemma {:induction false} RunKeepsReported(sha: seq<Byte> -> InstanceId, p: PublisherState, labels: seq<Label>)
    ensures HashesReported(p, labels, Run(sha, p, labels))
  {
    if labels != [] {
      var before := labels[..|labels| - 1];
      RunKeepsReported(sha, p, before);
      StepKeepsReported(sha, p, before, Run(sha, p, before), labels[|before|]);
      assert before + [labels[|before|]] == labels;
    }
  }

  // ---- Window and arithmetic ----

  ghost predicate PeriodHeadroom(p: PublisherState) {
    p.target <= p.finalized + 1 + p.period
  }

  ghost predicate WithinWindow(p: PublisherState) {
    p.window != 0 ==> p.target <= p.finalized + 1 + p.window
  }

  lemma StepKeepsHeadroom(sha: seq<Byte> -> InstanceId, s: Sys, l: Label)
    ensures PeriodHeadroom(s.p) ==> PeriodHeadroom(Step(sha, s, l).p)
    ensures WithinWindow(s.p) ==> WithinWindow(Step(sha, s, l).p)
  {
  }

  lemma {:induction false} RunKeepsHeadroom(sha: seq<Byte> -> InstanceId, p: PublisherState, labels: seq<Label>)
    ensures PeriodHeadroom(p) ==> PeriodHeadroom(Run(sha, p, labels).p)
    ensures WithinWindow(p) ==> WithinWindow(Run(sha, p, labels).p)
  {
    if labels != [] {
      RunKeepsHeadroom(sha, p, labels[..|labels| - 1]);
      StepKeepsHeadroom(sha, Run(sha, p, labels[..|labels| - 1]), labels[|labels| - 1]);
    }
  }

  /** The expected-period subtraction for a proof that reaches it does not wrap. */
  ghost predicate SubtractionExact(p: PublisherState) {
    p.finalized + 1 < p.target ==> p.target - (p.finalized + 1) <= p.period
  }

  ghost predicate NeverWraps(sha: seq<Byte> -> InstanceId, p: PublisherState) {
    forall labels :: SubtractionExact(Run(sha, p, labels).p)
  }

  ghost predicate NeverOverrun(sha: seq<Byte> -> InstanceId, p: PublisherState) {
    forall labels :: WithinWindow(Run(sha, p, labels).p)
  }

  /** In no run does the expected-period subtraction wrap, exactly when the publisher is constructed with a
      target of at most `finalized + 1 + period`. */
  lemma SubtractionNeverWraps(sha: seq<Byte> -> InstanceId, p: PublisherState)
    ensures NeverWraps(sha, p) <==> PeriodHeadroom(p)
  {
    assert Run(sha, p, []).p == p;
    forall labels
      ensures PeriodHeadroom(p) ==> SubtractionExact(Run(sha, p, labels).p)
    {
      RunKeepsHeadroom(sha, p, labels);
    }
  }

  /** A non-zero proof window is never overrun, exactly when it is not overrun at construction. */
  lemma WindowNeverOverrun(sha: seq<Byte> -> InstanceId, p: PublisherState)
    ensures NeverOverrun(sha, p) <==> WithinWindow(p)
  {
    assert Run(sha, p, []).p == p;
    forall labels
      ensures WithinWindow(p) ==> WithinWindow(Run(sha, p, labels).p)
    {
      RunKeepsHeadroom(sha, p, labels);
    }
  }

  /** `Publisher::new` does not rule the wrap out: here the very first proof meets it. */
  lemma ConstructionAllowsWrap(sha: seq<Byte> -> InstanceId)
    ensures var p := New(0, 10, 5, [], 0, {1}).value;
            && New(0, 10, 5, [], 0, {1}).Ok? && !SubtractionExact(Run(sha, p, []).p)
            && ExpectedPeriod(p, 6) == U64_BOUND - 4
  {
  }

  // ---- Single calls ----

  /** A proof gets past the label checks exactly when it is judged on its sender; it is stored exactly when
      the sender is new, and the prover is called exactly when that makes as many proofs as chains. */
  lemma ProofVerdict(p: PublisherState, period: nat, n: nat, proof: seq<Byte>, chain: ChainId)
    ensures var v := Judge(p, period, n, proof, chain); var p' := ReceiveProof(p, period, n, proof, chain);
            && (v.OldSuperblock? <==> n <= p.finalized)
            && (v.NotTerminated? <==> n > p.finalized && n >= p.target)
            && (v.NotNext? <==> p.finalized + 1 < n < p.target)
            && (v.WrongPeriod? <==> n == p.finalized + 1 < p.target && !LabelPasses(p, period, n))
            && (v.Duplicate? <==> LabelPasses(p, period, n) && chain in ProofsFor(p, n))
            && (v.Duplicate? || v.Waiting? || v.Complete? <==> LabelPasses(p, period, n))
            && (p' != p <==> LabelPasses(p, period, n) && chain !in ProofsFor(p, n))
            && (v.Complete? <==> p' != p && |ProofsFor(p', n)| >= |p.chains|)
            && (v.Complete? ==> v.call == ProverCall(p.finalized + 1, p.finalizedHash, ProofsFor(p', n)))
            && (p' != p ==> ProofsFor(p', n).Keys == ProofsFor(p, n).Keys + {chain} && ProofsFor(p', n)[chain] == proof)
  {
    if LabelPasses(p, period, n) && chain !in ProofsFor(p, n) {
      assert chain in ProofsFor(WithProof(p, n, proof, chain), n);
    }
  }

  /** Deciding an instance gives back exactly the chains its start took; deciding it again is refused. */
  lemma DecideUndoesStart(sha: seq<Byte> -> InstanceId, p: PublisherState, request: XtRequest)
    requires AllTrue(p.activeChains) && StartInstance(sha, p, request).Ok?
    ensures var s := StartInstance(sha, p, request).value;
            && DecideInstance(s.next, s.instance) == Ok(p.(seqNum := p.seqNum + 1))
            && DecideInstance(p.(seqNum := p.seqNum + 1), s.instance) == Err(ChainNotActive)
  {
    var s := StartInstance(sha, p, request).value;
    StartedWereFree(sha, p, request);
    DecideBoth(p, s.next, s.instance);
  }

  lemma DecideBoth(p: PublisherState, next: PublisherState, instance: Instance)
    requires |ChainsOf(instance.request)| > 0
    requires forall c :: c in ChainsOf(instance.request) ==> c !in p.activeChains
    requires next == p.(seqNum := p.seqNum + 1, activeChains := Activate(p.activeChains, ChainsOf(instance.request)))
    ensures DecideInstance(next, instance) == Ok(p.(seqNum := p.seqNum + 1))
    ensures DecideInstance(p.(seqNum := p.seqNum + 1), instance) == Err(ChainNotActive)
  {
    DecideReleases(next, instance, p.activeChains);
    DecideRefused(p.(seqNum := p.seqNum + 1), instance, ChainsOf(instance.request)[0]);
  }

  lemma DecideReleases(p: PublisherState, instance: Instance, active: map<ChainId, bool>)
    requires p.activeChains == Activate(active, ChainsOf(instance.request))
    requires forall c :: c in ChainsOf(instance.request) ==> c !in active
    ensures DecideInstance(p, instance) == Ok(p.(activeChains := active))
  {
    ReleaseUndoesActivate(active, ChainsOf(instance.request));
  }

  lemma DecideRefused(p: PublisherState, instance: Instance, c: ChainId)
    requires c in ChainsOf(instance.request) && c !in p.activeChains
    ensures DecideInstance(p, instance) == Err(ChainNotActive)
  {
  }

  lemma SomeParticipant(request: XtRequest)
    requires |request.transactions| > 0
    ensures |ChainsOf(request)| > 0
  {
    assert NamedChains(request)[0] in NamedChains(request);
    assert NamedChains(request)[0] in ChainsOf(request);
  }

  lemma StartedWereFree(sha: seq<Byte> -> InstanceId, p: PublisherState, request: XtRequest)
    requires AllTrue(p.activeChains) && StartInstance(sha, p, request).Ok?
    ensures var s := StartInstance(sha, p, request).value;
            && s.instance.request == request && |ChainsOf(request)| > 0
            && s.next == p.(seqNum := p.seqNum + 1, activeChains := Activate(p.activeChains, ChainsOf(request)))
            && forall c :: c in ChainsOf(request) ==> c !in p.activeChains
  {
    SomeParticipant(request);
  }

  lemma ReleaseUndoesActivate(active: map<ChainId, bool>, chains: seq<ChainId>)
    requires forall c :: c in chains ==> c !in active
    ensures var all := Activate(active, chains);
            && (forall c :: c in chains ==> c in all)
            && Deactivate(all, chains) == active
  {
  }

  // ---- Identifiers ----

  ghost predicate SameStretch(a: Issued, b: Issued) {
    a.instance.period == b.instance.period && a.rollbacks == b.rollbacks
  }

  /** Periods and rollbacks do not go back, and between rollbacks the numbers of a period rise. */
  ghost predicate Rising(starts: seq<Issued>) {
    forall i, j :: 0 <= i < j < |starts| ==>
      && starts[i].instance.period <= starts[j].instance.period && starts[i].rollbacks <= starts[j].rollbacks
      && (SameStretch(starts[i], starts[j]) ==> starts[i].instance.seqNum < starts[j].instance.seqNum)
  }

  /** Every number above 1 was preceded by the one before it, in the same period and with no rollback between. */
  ghost predicate GapFree(starts: seq<Issued>) {
    forall j :: 0 <= j < |starts| ==>
      starts[j].instance.seqNum >= 1 && (starts[j].instance.seqNum > 1 ==> HasPrevious(starts, j))
  }

  ghost predicate HasPrevious(starts: seq<Issued>, j: nat)
    requires j < |starts|
  {
    exists i :: 0 <= i < j && Precedes(starts[i], starts[j])
  }

  ghost predicate Precedes(a: Issued, b: Issued) {
    SameStretch(a, b) && a.instance.seqNum == b.instance.seqNum - 1
  }

  /** The counter is the last number issued in the current stretch. */
  ghost predicate CounterCurrent(s: Sys) {
    && (forall i :: 0 <= i < |s.starts| ==>
          && s.starts[i].instance.period <= s.p.period && s.starts[i].rollbacks <= s.rollbacks
          && (s.starts[i].instance.period == s.p.period && s.starts[i].rollbacks == s.rollbacks ==>
                s.starts[i].instance.seqNum <= s.p.seqNum))
    && (s.p.seqNum > 0 ==> exists i :: 0 <= i < |s.starts| && IsLastIssued(s, s.starts[i]))
  }

  ghost predicate IsLastIssued(s: Sys, x: Issued) {
    x.instance.period == s.p.period && x.rollbacks == s.rollbacks && x.instance.seqNum == s.p.seqNum
  }

  ghost predicate NumberedOk(s: Sys) {
    Rising(s.starts) && GapFree(s.starts) && CounterCurrent(s)
  }

  lemma GapFreeGrows(starts: seq<Issued>, x: Issued)
    requires GapFree(starts) && x.instance.seqNum >= 1
    requires x.instance.seqNum > 1 ==>
               exists i :: 0 <= i < |starts| && Precedes(starts[i], x)
    ensures GapFree(starts + [x])
  {
    var all := starts + [x];
    forall j | 0 <= j < |all| && all[j].instance.seqNum > 1
      ensures HasPrevious(all, j)
    {
      if j < |starts| {
        assert HasPrevious(starts, j);
        var i :| 0 <= i < j && Precedes(starts[i], starts[j]);
        assert all[i] == starts[i];
      } else {
        var i :| 0 <= i < |starts| && Precedes(starts[i], x);
        assert all[i] == starts[i];
      }
    }
  }

  /** What a start of the current stretch has to be for the numbering to go on. */
  ghost predicate Continues(s: Sys, x: Issued) {
    x.instance.period == s.p.period && x.rollbacks == s.rollbacks && x.instance.seqNum == s.p.seqNum + 1
  }

  lemma IssueKeepsRising(s: Sys, x: Issued)
    requires Rising(s.starts) && CounterCurrent(s) && Continues(s, x)
    ensures Rising(s.starts + [x])
  {
  }

  lemma IssueKeepsGapFree(s: Sys, x: Issued)
    requires GapFree(s.starts) && CounterCurrent(s) && Continues(s, x)
    ensures GapFree(s.starts + [x])
  {
    if x.instance.seqNum > 1 {
      var i :| 0 <= i < |s.starts| && IsLastIssued(s, s.starts[i]);
      assert Precedes(s.starts[i], x);
    }
    GapFreeGrows(s.starts, x);
  }

  lemma IssueKeepsCounter(s: Sys, s': Sys, x: Issued)
    requires CounterCurrent(s) && Continues(s, x) && s'.starts == s.starts + [x] && s'.rollbacks == s.rollbacks
    requires s'.p.period == s.p.period && s'.p.seqNum == s.p.seqNum + 1
    ensures CounterCurrent(s')
  {
    assert s'.starts[|s.starts|] == x && IsLastIssued(s', x);
    assert forall i :: 0 <= i < |s.starts| ==> s'.starts[i] == s.starts[i];
  }

  lemma IssueStep(sha: seq<Byte> -> InstanceId, s: Sys, request: XtRequest)
    requires StartInstance(sha, s.p, request).Ok?
    ensures var x := Issued(StartInstance(sha, s.p, request).value.instance, s.rollbacks);
            var s' := Step(sha, s, InstanceStarts(request));
            && Continues(s, x) && s'.starts == s.starts + [x] && s'.rollbacks == s.rollbacks
            && s'.p.period == s.p.period && s'.p.seqNum == s.p.seqNum + 1
  {
  }

  lemma IssueKeepsNumbers(sha: seq<Byte> -> InstanceId, s: Sys, request: XtRequest)
    requires NumberedOk(s) && StartInstance(sha, s.p, request).Ok?
    ensures NumberedOk(Step(sha, s, InstanceStarts(request)))
  {
    var x := Issued(StartInstance(sha, s.p, request).value.instance, s.rollbacks);
    IssueStep(sha, s, request);
    IssueKeepsRising(s, x);
    IssueKeepsGapFree(s, x);
    IssueKeepsCounter(s, Step(sha, s, InstanceStarts(request)), x);
  }

  lemma QuietKeepsNumbers(s: Sys, s': Sys)
    requires NumberedOk(s) && s'.starts == s.starts && s'.p.period >= s.p.period && s'.rollbacks >= s.rollbacks
    requires (s'.p.period == s.p.period && s'.rollbacks == s.rollbacks && s'.p.seqNum == s.p.seqNum) || s'.p.seqNum == 0
    requires s'.p.seqNum == 0 ==> s.p.seqNum == 0 || s'.p.period > s.p.period || s'.rollbacks > s.rollbacks
    ensures NumberedOk(s')
  {
  }

  /** Whatever issues nothing leaves the counter alone, or opens a new stretch with it at zero. */
  lemma OthersIssueNothing(sha: seq<Byte> -> InstanceId, s: Sys, l: Label)
    requires !(l.InstanceStarts? && StartInstance(sha, s.p, l.request).Ok?)
    ensures var s' := Step(sha, s, l);
            && s'.starts == s.starts && s'.p.period >= s.p.period && s'.rollbacks >= s.rollbacks
            && ((s'.p.period == s.p.period && s'.rollbacks == s.rollbacks && s'.p.seqNum == s.p.seqNum) ||
                (s'.p.seqNum == 0 && (s'.p.period > s.p.period || s'.rollbacks > s.rollbacks)))
  {
  }

  lemma StepKeepsNumbers(sha: seq<Byte> -> InstanceId, s: Sys, l: Label)
    requires NumberedOk(s)
    ensures NumberedOk(Step(sha, s, l))
  {
    if l.InstanceStarts? && StartInstance(sha, s.p, l.request).Ok? {
      IssueKeepsNumbers(sha, s, l.request);
    } else {
      OthersIssueNothing(sha, s, l);
      QuietKeepsNumbers(s, Step(sha, s, l));
    }
  }

  lemma {:induction false} RunNumbers(sha: seq<Byte> -> InstanceId, p: PublisherState, labels: seq<Label>)
    requires p.seqNum == 0
    ensures NumberedOk(Run(sha, p, labels))
  {
    if labels != [] {
      RunNumbers(sha, p, labels[..|labels| - 1]);
      StepKeepsNumbers(sha, Run(sha, p, labels[..|labels| - 1]), labels[|labels| - 1]);
    }
  }

  /** Each stretch of a period between rollbacks starts with number 1. */
  lemma {:induction false} FirstOfStretch(starts: seq<Issued>, j: nat) returns (i: nat)
    requires GapFree(starts) && j < |starts|
    ensures i <= j && SameStretch(starts[i], starts[j]) && starts[i].instance.seqNum == 1
    decreases starts[j].instance.seqNum
  {
    if starts[j].instance.seqNum == 1 {
      i := j;
    } else {
      assert HasPrevious(starts, j);
      var k :| 0 <= k < j && Precedes(starts[k], starts[j]);
      i := FirstOfStretch(starts, k);
    }
  }

  /** No two starts share period and sequence number. */
  ghost predicate PairsDistinct(starts: seq<Issued>) {
    forall i, j :: 0 <= i < j < |starts| ==>
      starts[i].instance.period != starts[j].instance.period || starts[i].instance.seqNum != starts[j].instance.seqNum
  }

  /** No rollback lies between two starts of one period. */
  ghost predicate NoRollbackWithin(starts: seq<Issued>) {
    forall i, j :: 0 <= i < j < |starts| && starts[i].instance.period == starts[j].instance.period ==>
      starts[i].rollbacks == starts[j].rollbacks
  }

  lemma FirstsCollide(starts: seq<Issued>, a: nat, b: nat)
    requires PairsDistinct(starts) && a < |starts| && b < |starts|
    requires starts[a].instance.period == starts[b].instance.period
    requires starts[a].instance.seqNum == starts[b].instance.seqNum
    ensures a == b
  {
  }

  lemma DistinctMeansNoRollback(starts: seq<Issued>, i: nat, j: nat)
    requires GapFree(starts) && PairsDistinct(starts) && i < j < |starts|
    requires starts[i].instance.period == starts[j].instance.period
    ensures starts[i].rollbacks == starts[j].rollbacks
  {
    var a := FirstOfStretch(starts, i);
    var b := FirstOfStretch(starts, j);
    FirstsCollide(starts, a, b);
  }

  lemma NoRollbackMeansDistinct(starts: seq<Issued>)
    requires Rising(starts) && NoRollbackWithin(starts)
    ensures PairsDistinct(starts)
  {
  }

  lemma DistinctExactly(starts: seq<Issued>)
    requires Rising(starts) && GapFree(starts)
    ensures PairsDistinct(starts) <==> NoRollbackWithin(starts)
  {
    if PairsDistinct(starts) {
      forall i, j | 0 <= i < j < |starts| && starts[i].instance.period == starts[j].instance.period
        ensures starts[i].rollbacks == starts[j].rollbacks
      {
        DistinctMeansNoRollback(starts, i, j);
      }
    }
    if NoRollbackWithin(starts) {
      NoRollbackMeansDistinct(starts);
    }
  }

  /** From a new publisher, in every run: between rollbacks the pairs (period, sequence) increase, and over the
      whole run no pair is used twice exactly when no rollback lies between two starts of one period.  Then any
      two starts hash different bytes. */
  lemma PairsFreshExactly(sha: seq<Byte> -> InstanceId, p: PublisherState, labels: seq<Label>)
    requires p.seqNum == 0
    ensures var starts := Run(sha, p, labels).starts;
            && (forall i, j :: 0 <= i < j < |starts| && starts[i].rollbacks == starts[j].rollbacks ==>
                  LexBelow(starts[i].instance, starts[j].instance))
            && (PairsDistinct(starts) <==> NoRollbackWithin(starts))
            && (NoRollbackWithin(starts) && Within64Bits(starts) ==> BytesDistinct(starts))
  {
    RunNumbers(sha, p, labels);
    var starts := Run(sha, p, labels).starts;
    DistinctExactly(starts);
    if NoRollbackWithin(starts) && Within64Bits(starts) {
      forall i, j | 0 <= i < j < |starts|
        ensures Hashed(starts[i].instance) != Hashed(starts[j].instance)
      {
        PairsDistinctBytes(starts[i].instance, starts[j].instance);
      }
    }
  }

  ghost predicate Within64Bits(starts: seq<Issued>) {
    forall i :: 0 <= i < |starts| ==> starts[i].instance.period < U64_BOUND && starts[i].instance.seqNum < U64_BOUND
  }

  ghost predicate BytesDistinct(starts: seq<Issued>) {
    forall i, j :: 0 <= i < j < |starts| ==> Hashed(starts[i].instance) != Hashed(starts[j].instance)
  }

  lemma PairsDistinctBytes(a: Instance, b: Instance)
    requires a.period != b.period || a.seqNum != b.seqNum
    requires a.period < U64_BOUND && a.seqNum < U64_BOUND && b.period < U64_BOUND && b.seqNum < U64_BOUND
    ensures Hashed(a) != Hashed(b)
  {
    if Hashed(a) == Hashed(b) {
      PreimageFixesPosition(a.period, a.seqNum, a.request, b.period, b.seqNum, b.request);
    }
  }

  /** Repeating a request across a rollback within a period repeats the whole instance. */
  lemma RollbackReusesIdentifier(sha: seq<Byte> -> InstanceId, p: PublisherState, request: XtRequest)
    requires p.seqNum == 0 && StartInstance(sha, p, request).Ok?
    ensures var starts := Run(sha, p, [InstanceStarts(request), TimesOut, InstanceStarts(request)]).starts;
            |starts| == 2 && starts[0].instance == starts[1].instance && !NoRollbackWithin(starts)
  {
    var a := InstanceStarts(request);
    RunOfThree(sha, p, a, TimesOut, a);
    FirstIssue(sha, Begin(p), request);
    var s2 := Step(sha, Step(sha, Begin(p), a), TimesOut);
    FirstIssue(sha, s2, request);
    var starts := Run(sha, p, [a, TimesOut, a]).starts;
    assert starts[0].rollbacks == 0 && starts[1].rollbacks == 1;
  }

  /** The first start of a period, or after a rollback, has number 1. */
  lemma FirstIssue(sha: seq<Byte> -> InstanceId, s: Sys, request: XtRequest)
    requires s.p.seqNum == 0 && StartInstance(sha, s.p, request).Ok?
    ensures var x := Instance(sha(Preimage(s.p.period, 1, request)), s.p.period, 1, request);
            var s' := Step(sha, s, InstanceStarts(request));
            s'.starts == s.starts + [Issued(x, s.rollbacks)] && s'.p.period == s.p.period && s'.rollbacks == s.rollbacks
  {
  }

  lemma RunSnoc(sha: seq<Byte> -> InstanceId, p: PublisherState, labels: seq<Label>, l: Label)
    ensures Run(sha, p, labels + [l]) == Step(sha, Run(sha, p, labels), l)
  {
  }

  lemma RunOfThree(sha: seq<Byte> -> InstanceId, p: PublisherState, a: Label, b: Label, c: Label)
    ensures Run(sha, p, [a, b, c]) == Step(sha, Step(sha, Step(sha, Begin(p), a), b), c)
  {
    RunOfTwo(sha, p, a, b);
    RunSnoc(sha, p, [a, b], c);
    assert [a, b] + [c] == [a, b, c];
  }

  lemma RunThreeMore(sha: seq<Byte> -> InstanceId, p: PublisherState, labels: seq<Label>, a: Label, b: Label, c: Label)
    ensures Run(sha, p, labels + [a] + [b] + [c]) == Step(sha, Step(sha, Step(sha, Run(sha, p, labels), a), b), c)
  {
    RunSnoc(sha, p, labels, a);
    RunSnoc(sha, p, labels + [a], b);
    RunSnoc(sha, p, labels + [a] + [b], c);
  }

  lemma RunOfTwo(sha: seq<Byte> -> InstanceId, p: PublisherState, a: Label, b: Label)
    ensures Run(sha, p, [a, b]) == Step(sha, Step(sha, Begin(p), a), b)
  {
    RunSnoc(sha, p, [], a);
    assert [] + [a] == [a];
    RunSnoc(sha, p, [a], b);
    assert [a] + [b] == [a, b];
  }
}
