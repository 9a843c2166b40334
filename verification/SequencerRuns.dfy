/** Whole runs of one SBCP sequencer: the order of the proofs it sends and of the blocks it seals.  A settlement
    takes two locked sections, the one that triggers it and the one that reads its header. */
module SequencerRuns {
  import opened Spec
  import opened SequencerModel

  /** Block heads in the order they came about; a reset goes back to the block of a finalized superblock. */
  datatype HeadEvent =
    | Reset(number: nat, finalized: nat)
    | Sealed(header: BlockHeader, period: nat, superblock: nat)

  function HeadNumber(e: HeadEvent): nat {
    if e.Reset? then e.number else e.header.number
  }

  /** An instance accepted during the given announced period (counted by announcements heard). */
  datatype Accepted = Accepted(era: nat, period: nat, seqNum: nat)

  /** A triggered settlement and the number of head events at that time. */
  datatype Triggered = Triggered(tag: Due, at: nat)

  datatype Sys = Sys(
    q: SequencerState,
    due: seq<Triggered>,         // settlements in the order they were triggered
    unread: set<nat>,            // those whose header has not been read yet
    sent: seq<Settlement>,       // proofs in the order their headers were read
    sources: seq<nat>,           // for each of these the settlement it belongs to
    heads: seq<HeadEvent>,
    era: nat,
    accepted: seq<Accepted>)

  datatype Label =
    | PeriodStarts(period: nat, target: nat)
    | BlockBegins(number: nat)
    | InstanceStarts(id: InstanceId, period: nat, seqNum: nat)
    | InstanceDecided(id: InstanceId)
    | BlockEnds(header: BlockHeader)
    | HeaderRead(i: nat, proverOk: bool)
    | L1Settles(settled: SettledState)
    | RollsBack(superblock: nat, hash: seq<Byte>, period: nat)

  function Begin(period: nat, target: nat, settled: SettledState): Sys {
    Sys(New(period, target, settled), [], {}, [], [], [Reset(settled.header.number, settled.superblock)], 0, [])
  }

  /** Notes a settlement that has fallen due. */
  function Trigger(s: Sys, due: Option<Due>): Sys {
    match due
    case None => s
    case Some(d) => s.(due := s.due + [Triggered(d, |s.heads|)], unread := s.unread + {|s.due|})
  }

  /** Seals the open block. */
  function Seal(s: Sys, header: BlockHeader): Sys
    requires EndBlock(s.q, header).Done?
  {
    s.(q := EndBlock(s.q, header).next,
       heads := s.heads + [Sealed(header, s.q.pending.value.period, s.q.pending.value.superblock)])
  }

  /** Reads the header of a triggered settlement; its proof is sent unless the prover fails. */
  function Read(s: Sys, i: nat, proverOk: bool): Sys
    requires i < |s.due|
  {
    var read := s.(unread := s.unread - {i});
    if proverOk then read.(sent := s.sent + [SettlementFor(s.q, s.due[i].tag)], sources := s.sources + [i]) else read
  }

  function Step(s: Sys, l: Label): Sys {
    match l
    case PeriodStarts(period, target) =>
      Trigger(s.(q := StartPeriod(s.q, period, target), era := s.era + 1), PeriodDue(s.q, period, target))
    case BlockBegins(number) => s.(q := After(s.q, BeginBlock(s.q, number)))
    case InstanceStarts(id, period, seqNum) =>
      var o := OnStartInstance(s.q, id, period, seqNum);
      s.(q := After(s.q, o), accepted := if o.Done? then s.accepted + [Accepted(s.era, period, seqNum)] else s.accepted)
    case InstanceDecided(id) => s.(q := After(s.q, OnDecidedInstance(s.q, id)))
    case BlockEnds(header) =>
      if EndBlock(s.q, header).Done? then Trigger(Seal(s, header), DeferredDue(s.q, header)) else s
    case HeaderRead(i, proverOk) => if i in s.unread && i < |s.due| then Read(s, i, proverOk) else s
    case L1Settles(settled) => s.(q := AdvanceSettled(s.q, settled))
    case RollsBack(superblock, hash, period) =>
      var o := Rollback(s.q, superblock, hash, period);
      s.(q := After(s.q, o), heads := if o.Done? then s.heads + [Reset(o.next.head, superblock)] else s.heads)
  }

  function Run(s0: Sys, labels: seq<Label>): Sys {
    if labels == [] then s0 else Step(Run(s0, labels[..|labels| - 1]), labels[|labels| - 1])
  }

  // ---- Order of the proofs sent ----

  /** Announced periods increase strictly, and accepted rollbacks do not go back. */
  ghost predicate Orderly(q: SequencerState, l: Label) {
    && (l.PeriodStarts? ==> l.period > q.period)
    && (l.RollsBack? && Rollback(q, l.superblock, l.hash, l.period).Done? ==> l.period >= q.period)
  }

  ghost predicate OrderlyRun(s0: Sys, labels: seq<Label>) {
    forall i :: 0 <= i < |labels| ==> Orderly(Run(s0, labels[..i]).q, labels[i])
  }

  ghost predicate DueIncreasing(due: seq<Triggered>) {
    forall i, j :: 0 <= i < j < |due| ==> due[i].tag.period < due[j].tag.period
  }

  /** Nothing was due for the current period, and nothing for the previous one while its settlement is still
      deferred; the open block belongs to a later period than everything due. */
  ghost predicate NotYetDue(s: Sys) {
    && (forall i :: 0 <= i < |s.due| ==> s.due[i].tag.period < s.q.period)
    && (s.q.pending.Some? ==>
          && s.q.pending.value.period <= s.q.period
          && forall i :: 0 <= i < |s.due| ==> s.due[i].tag.period < s.q.pending.value.period)
  }

  ghost predicate DueInOrder(s: Sys) {
    DueIncreasing(s.due) && NotYetDue(s)
  }

  lemma TriggerKeepsOrder(s: Sys, due: Option<Due>)
    requires DueIncreasing(s.due)
    requires due.Some? ==> s.q.pending.None? && due.value.period < s.q.period
    requires due.Some? ==> forall i :: 0 <= i < |s.due| ==> s.due[i].tag.period < due.value.period
    requires NotYetDue(s)
    ensures DueInOrder(Trigger(s, due))
  {
  }

  lemma PeriodKeepsDue(s: Sys, period: nat, target: nat)
    requires DueInOrder(s) && period > s.q.period
    ensures DueInOrder(Step(s, PeriodStarts(period, target)))
  {
    TriggerKeepsOrder(s.(q := StartPeriod(s.q, period, target), era := s.era + 1), PeriodDue(s.q, period, target));
  }

  lemma SealKeepsDue(s: Sys, header: BlockHeader)
    requires DueInOrder(s) && EndBlock(s.q, header).Done?
    ensures DueInOrder(Step(s, BlockEnds(header)))
  {
    TriggerKeepsOrder(Seal(s, header), DeferredDue(s.q, header));
  }

  lemma RollbackKeepsDue(s: Sys, superblock: nat, hash: seq<Byte>, period: nat)
    requires DueInOrder(s) && (Rollback(s.q, superblock, hash, period).Done? ==> period >= s.q.period)
    ensures DueInOrder(Step(s, RollsBack(superblock, hash, period)))
  {
  }

  lemma OthersTriggerNothing(s: Sys, l: Label)
    requires DueInOrder(s) && !l.PeriodStarts? && !l.BlockEnds? && !l.RollsBack?
    ensures DueInOrder(Step(s, l))
  {
    assert Step(s, l).due == s.due && Step(s, l).q.period == s.q.period;
  }

  lemma StepKeepsDue(s: Sys, l: Label)
    requires DueInOrder(s) && Orderly(s.q, l)
    ensures DueInOrder(Step(s, l))
  {
    match l
    case PeriodStarts(period, target) => PeriodKeepsDue(s, period, target);
    case BlockEnds(header) => if EndBlock(s.q, header).Done? { SealKeepsDue(s, header); }
    case RollsBack(superblock, hash, period) => RollbackKeepsDue(s, superblock, hash, period);
    case _ => OthersTriggerNothing(s, l);
  }

  lemma RunPrefix(s0: Sys, labels: seq<Label>, n: nat)
    requires n < |labels|
    ensures Run(s0, labels[..n + 1]) == Step(Run(s0, labels[..n]), labels[n])
  {
    assert labels[..n + 1][..n] == labels[..n];
  }

  lemma OrderlyAt(s0: Sys, labels: seq<Label>, n: nat)
    requires OrderlyRun(s0, labels) && n < |labels|
    ensures Orderly(Run(s0, labels[..n]).q, labels[n])
  {
  }

  lemma {:induction false} DueInOrderFrom(s0: Sys, labels: seq<Label>, n: nat)
    requires DueInOrder(s0) && OrderlyRun(s0, labels) && n <= |labels|
    ensures DueInOrder(Run(s0, labels[..n]))
  {
    if n > 0 {
      DueInOrderFrom(s0, labels, n - 1);
      OrderlyAt(s0, labels, n - 1);
      StepKeepsDue(Run(s0, labels[..n - 1]), labels[n - 1]);
      RunPrefix(s0, labels, n - 1);
    }
  }

  /** Every proof sent belongs to a settlement of its own, whose label it carries. */
  ghost predicate SentForDue(s: Sys) {
    && |s.sources| == |s.sent| && NoDup(s.sources)
    && (forall i :: i in s.unread ==> i < |s.due|)
    && (forall k :: 0 <= k < |s.sent| ==>
          && s.sources[k] < |s.due| && s.sources[k] !in s.unread
          && s.sent[k].due == s.due[s.sources[k]].tag)
  }

  lemma TriggerKeepsSent(s: Sys, due: Option<Due>)
    requires SentForDue(s)
    ensures SentForDue(Trigger(s, due))
  {
  }

  lemma ReadKeepsSent(s: Sys, i: nat, proverOk: bool)
    requires SentForDue(s) && i in s.unread && i < |s.due|
    ensures SentForDue(Read(s, i, proverOk))
  {
  }

  lemma OthersSendNothing(s: Sys, l: Label)
    requires !l.PeriodStarts? && !l.BlockEnds? && !l.HeaderRead?
    ensures var s' := Step(s, l);
            s'.due == s.due && s'.unread == s.unread && s'.sent == s.sent && s'.sources == s.sources
  {
  }

  lemma StepKeepsSent(s: Sys, l: Label)
    requires SentForDue(s)
    ensures SentForDue(Step(s, l))
  {
    match l
    case PeriodStarts(period, target) =>
      TriggerKeepsSent(s.(q := StartPeriod(s.q, period, target), era := s.era + 1), PeriodDue(s.q, period, target));
    case BlockEnds(header) =>
      if EndBlock(s.q, header).Done? { TriggerKeepsSent(Seal(s, header), DeferredDue(s.q, header)); }
    case HeaderRead(i, proverOk) => if i in s.unread && i < |s.due| { ReadKeepsSent(s, i, proverOk); }
    case _ => OthersSendNothing(s, l);
  }

  lemma {:induction false} RunSends(period: nat, target: nat, settled: SettledState, labels: seq<Label>)
    ensures SentForDue(Run(Begin(period, target, settled), labels))
  {
    if labels != [] {
      RunSends(period, target, settled, labels[..|labels| - 1]);
      StepKeepsSent(Run(Begin(period, target, settled), labels[..|labels| - 1]), labels[|labels| - 1]);
    }
  }

  ghost predicate Increasing(sent: seq<Settlement>) {
    forall i, j :: 0 <= i < j < |sent| ==> sent[i].due.period < sent[j].due.period
  }

  /** Headers are read in the order in which the settlements were triggered. */
  ghost predicate ReadInOrder(sources: seq<nat>) {
    forall i, j :: 0 <= i < j < |sources| ==> sources[i] < sources[j]
  }

  ghost predicate OnePerPeriod(sent: seq<Settlement>) {
    forall i, j :: 0 <= i < j < |sent| ==> sent[i].due.period != sent[j].due.period
  }

  lemma OrderOfSent(s: Sys)
    requires SentForDue(s) && DueIncreasing(s.due)
    ensures OnePerPeriod(s.sent) && (Increasing(s.sent) <==> ReadInOrder(s.sources))
  {
    forall i, j | 0 <= i < j < |s.sent|
      ensures s.sources[i] < s.sources[j] ==> s.sent[i].due.period < s.sent[j].due.period
      ensures s.sources[i] > s.sources[j] ==> s.sent[i].due.period > s.sent[j].due.period
      ensures s.sources[i] != s.sources[j]
    {
    }
  }

  /** Settlements fall due in strictly increasing period order, deferred ones included.  At most one proof is sent
      per period, and the proofs are in order exactly when the headers are read in the order of the triggers. */
  lemma SettlementInOrder(period: nat, target: nat, settled: SettledState, labels: seq<Label>)
    requires OrderlyRun(Begin(period, target, settled), labels)
    ensures var s := Run(Begin(period, target, settled), labels);
            DueIncreasing(s.due) && OnePerPeriod(s.sent) && (Increasing(s.sent) <==> ReadInOrder(s.sources))
  {
    DueInOrderFrom(Begin(period, target, settled), labels, |labels|);
    assert labels[..|labels|] == labels;
    RunSends(period, target, settled, labels);
    OrderOfSent(Run(Begin(period, target, settled), labels));
  }

  /** Without the order of announcements it fails: a repeated `StartPeriod` sends its proof twice. */
  lemma RepeatedAnnouncementSendsTwice(settled: SettledState)
    ensures var l := PeriodStarts(5, 6);
            var s := Run(Begin(4, 5, settled), [l, l, HeaderRead(0, true), HeaderRead(1, true)]);
            |s.sent| == 2 && s.sent[0].due.period == 4 && s.sent[1].due.period == 4
  {
    var l := PeriodStarts(5, 6);
    var s0 := Begin(4, 5, settled);
    RunOfFour(s0, l, l, HeaderRead(0, true), HeaderRead(1, true));
    var s2 := Step(Step(s0, l), l);
    assert s2.due == [Triggered(Due(4, 5), 1), Triggered(Due(4, 5), 1)] && s2.unread == {0, 1};
  }

  lemma RunSnoc(s0: Sys, labels: seq<Label>, l: Label)
    ensures Run(s0, labels + [l]) == Step(Run(s0, labels), l)
  {
    assert (labels + [l])[..|labels|] == labels;
  }

  lemma RunOfTwo(s0: Sys, a: Label, b: Label)
    ensures Run(s0, [a, b]) == Step(Step(s0, a), b)
  {
    RunSnoc(s0, [], a);
    assert [] + [a] == [a];
    RunSnoc(s0, [a], b);
    assert [a] + [b] == [a, b];
  }

  lemma RunOfThree(s0: Sys, a: Label, b: Label, c: Label)
    ensures Run(s0, [a, b, c]) == Step(Step(Step(s0, a), b), c)
  {
    RunOfTwo(s0, a, b);
    RunSnoc(s0, [a, b], c);
    assert [a, b] + [c] == [a, b, c];
  }

  lemma RunOfFour(s0: Sys, a: Label, b: Label, c: Label, d: Label)
    ensures Run(s0, [a, b, c, d]) == Step(Step(Step(Step(s0, a), b), c), d)
  {
    RunOfThree(s0, a, b, c);
    RunSnoc(s0, [a, b, c], d);
    assert [a, b, c] + [d] == [a, b, c, d];
  }

  // ---- Blocks ----

  /** An active instance has an open block, the open block is the next one, and sealed numbers are
      consecutive from one reset of the head to the next. */
  ghost predicate BlocksOk(s: Sys) {
    && Sound(s.q)
    && |s.heads| > 0 && HeadNumber(s.heads[|s.heads| - 1]) == s.q.head
    && (forall i :: 0 < i < |s.heads| && s.heads[i].Sealed? ==>
          HeadNumber(s.heads[i]) == HeadNumber(s.heads[i - 1]) + 1)
  }

  lemma SealKeepsBlocks(s: Sys, header: BlockHeader)
    requires BlocksOk(s) && EndBlock(s.q, header).Done?
    ensures BlocksOk(Seal(s, header))
  {
    assert Seal(s, header).heads[|s.heads|].header == header;
  }

  lemma BlocksIgnoreDue(s: Sys, s': Sys)
    requires BlocksOk(s) && s'.heads == s.heads && Sound(s'.q) && s'.q.head == s.q.head
    ensures BlocksOk(s')
  {
  }

  lemma ResetKeepsBlocks(s: Sys, s': Sys, e: HeadEvent)
    requires BlocksOk(s) && e.Reset? && s'.heads == s.heads + [e] && Sound(s'.q) && s'.q.head == e.number
    ensures BlocksOk(s')
  {
    assert s'.heads[|s.heads|] == e;
  }

  lemma OthersKeepHead(s: Sys, l: Label)
    requires Sound(s.q) && !l.BlockEnds? && !l.RollsBack?
    ensures Step(s, l).heads == s.heads && Step(s, l).q.head == s.q.head && Sound(Step(s, l).q)
  {
  }

  lemma StepKeepsBlocks(s: Sys, l: Label)
    requires BlocksOk(s)
    ensures BlocksOk(Step(s, l))
  {
    match l
    case BlockEnds(header) =>
      BlockEndsHeads(s, header);
      if EndBlock(s.q, header).Done? {
        SealKeepsBlocks(s, header);
        BlocksIgnoreDue(Seal(s, header), Step(s, l));
      }
    case RollsBack(superblock, hash, period) =>
      RollbackHeads(s, superblock, hash, period);
      var o := Rollback(s.q, superblock, hash, period);
      if o.Done? { ResetKeepsBlocks(s, Step(s, l), Reset(o.next.head, superblock)); }
    case _ =>
      OthersKeepHead(s, l);
      BlocksIgnoreDue(s, Step(s, l));
  }

  /** Holds in every run, whatever the order of announcements. */
  lemma {:induction false} BlockDiscipline(period: nat, target: nat, settled: SettledState, labels: seq<Label>)
    ensures BlocksOk(Run(Begin(period, target, settled), labels))
  {
    if labels != [] {
      BlockDiscipline(period, target, settled, labels[..|labels| - 1]);
      StepKeepsBlocks(Run(Begin(period, target, settled), labels[..|labels| - 1]), labels[|labels| - 1]);
    }
  }

  // ---- Which pair a block is sealed under ----

  /** The pair was in force initially, was announced, or follows a rollback of the run. */
  ghost predicate InForce(initial: Due, labels: seq<Label>, pair: Due) {
    || pair == initial
    || PeriodStarts(pair.period, pair.superblock) in labels
    || exists l :: l in labels && l.RollsBack? && l.period == pair.period && pair.superblock == l.superblock + 1
  }

  lemma InForceLater(initial: Due, labels: seq<Label>, l: Label, pair: Due)
    requires InForce(initial, labels, pair)
    ensures InForce(initial, labels + [l], pair)
  {
    if r :| r in labels && r.RollsBack? && r.period == pair.period && pair.superblock == r.superblock + 1 {
      assert r in labels + [l];
    }
  }

  ghost predicate PairsInForce(initial: Due, labels: seq<Label>, s: Sys) {
    && InForce(initial, labels, Due(s.q.period, s.q.target))
    && (s.q.pending.Some? ==> InForce(initial, labels, Due(s.q.pending.value.period, s.q.pending.value.superblock)))
    && (forall e :: e in s.heads && e.Sealed? ==> InForce(initial, labels, Due(e.period, e.superblock)))
  }

  /** The pair a step leaves in force. */
  lemma StepPair(s: Sys, l: Label)
    ensures var q' := Step(s, l).q;
            || (q'.period == s.q.period && q'.target == s.q.target)
            || (l.PeriodStarts? && q'.period == l.period && q'.target == l.target)
            || (l.RollsBack? && q'.period == l.period && q'.target == l.superblock + 1)
  {
  }

  lemma StepPending(s: Sys, l: Label)
    ensures var q' := Step(s, l).q;
            q'.pending.None? || q'.pending == s.q.pending ||
            (q'.pending.value.period == s.q.period && q'.pending.value.superblock == s.q.target)
  {
  }

  lemma StepSeals(s: Sys, l: Label, e: HeadEvent)
    requires e in Step(s, l).heads && e.Sealed?
    ensures
      || e in s.heads
      || (s.q.pending.Some? && e.period == s.q.pending.value.period && e.superblock == s.q.pending.value.superblock)
  {
  }

  lemma StepKeepsPairs(initial: Due, labels: seq<Label>, s: Sys, l: Label)
    requires PairsInForce(initial, labels, s)
    ensures PairsInForce(initial, labels + [l], Step(s, l))
  {
    var s', now, pair := Step(s, l), labels + [l], Due(s.q.period, s.q.target);
    InForceLater(initial, labels, l, pair);
    StepPair(s, l);
    assert l in now;
    assert InForce(initial, now, Due(s'.q.period, s'.q.target));
    StepPending(s, l);
    if s.q.pending.Some? {
      InForceLater(initial, labels, l, Due(s.q.pending.value.period, s.q.pending.value.superblock));
    }
    forall e | e in s'.heads && e.Sealed?
      ensures InForce(initial, now, Due(e.period, e.superblock))
    {
      StepSeals(s, l, e);
      if e in s.heads { InForceLater(initial, labels, l, Due(e.period, e.superblock)); }
    }
  }

  /** In every run a block is sealed under a period and superblock number that were in force together. */
  lemma {:induction false} SealedUnderAnnouncedPair(period: nat, target: nat, settled: SettledState, labels: seq<Label>)
    ensures PairsInForce(Due(period, target), labels, Run(Begin(period, target, settled), labels))
  {
    if labels != [] {
      var before := labels[..|labels| - 1];
      SealedUnderAnnouncedPair(period, target, settled, before);
      StepKeepsPairs(Due(period, target), before, Run(Begin(period, target, settled), before), labels[|before|]);
      assert before + [labels[|before|]] == labels;
    }
  }

  // ---- What a settlement proves ----

  /** The last block of the period according to the history: the one sealed last, unless a rollback to an
      earlier superblock has discarded it. */
  function Kept(heads: seq<HeadEvent>, period: nat): Option<SealedHeader> {
    if heads == [] then None
    else
      var e, before := heads[|heads| - 1], Kept(heads[..|heads| - 1], period);
      match e
      case Sealed(header, p, superblock) => if p == period then Some(SealedHeader(header, p, superblock)) else before
      case Reset(_, finalized) => if before.Some? && before.value.superblock > finalized then None else before
  }

  /** The i-th event sealed `x` in the period, it was the last to do so, and no later rollback reaches below it. */
  ghost predicate StillKept(heads: seq<HeadEvent>, period: nat, x: SealedHeader, i: int) {
    && 0 <= i < |heads| && heads[i] == Sealed(x.header, period, x.superblock) && x.period == period
    && (forall j :: i < j < |heads| && heads[j].Sealed? ==> heads[j].period != period)
    && (forall j :: i < j < |heads| && heads[j].Reset? ==> heads[j].finalized >= x.superblock)
  }

  lemma {:induction false} KeptMeans(heads: seq<HeadEvent>, period: nat, x: SealedHeader)
    ensures Kept(heads, period) == Some(x) <==> exists i :: StillKept(heads, period, x, i)
  {
    if heads != [] {
      var n := |heads| - 1;
      KeptMeans(heads[..n], period, x);
      if Kept(heads, period) == Some(x) {
        if heads[n].Sealed? && heads[n].period == period {
          assert StillKept(heads, period, x, n);
        } else {
          var i :| StillKept(heads[..n], period, x, i);
          assert StillKept(heads, period, x, i);
        }
      }
      if i :| StillKept(heads, period, x, i) {
        if i < n { assert StillKept(heads[..n], period, x, i); }
      }
    }
  }

  function Lookup(sealedHeads: map<nat, SealedHeader>, period: nat): Option<SealedHeader> {
    if period in sealedHeads then Some(sealedHeads[period]) else None
  }

  ghost predicate HeadsRecorded(s: Sys) {
    forall p: nat :: Lookup(s.q.sealedHeads, p) == Kept(s.heads, p)
  }

  lemma KeptSnoc(heads: seq<HeadEvent>, e: HeadEvent, period: nat)
    ensures Kept(heads + [e], period) ==
            match e
            case Sealed(header, p, superblock) =>
              (if p == period then Some(SealedHeader(header, p, superblock)) else Kept(heads, period))
            case Reset(_, finalized) =>
              var before := Kept(heads, period);
              if before.Some? && before.value.superblock > finalized then None else before
  {
    assert (heads + [e])[..|heads|] == heads;
  }

  lemma SealRecorded(s: Sys, header: BlockHeader, p: nat)
    requires EndBlock(s.q, header).Done? && Lookup(s.q.sealedHeads, p) == Kept(s.heads, p)
    ensures Lookup(Seal(s, header).q.sealedHeads, p) == Kept(Seal(s, header).heads, p)
  {
    KeptSnoc(s.heads, Sealed(header, s.q.pending.value.period, s.q.pending.value.superblock), p);
  }

  lemma RetainedAt(q: SequencerState, superblock: nat, hash: seq<Byte>, period: nat, p: nat)
    requires Rollback(q, superblock, hash, period).Done?
    ensures var before := Lookup(q.sealedHeads, p);
            Lookup(Rollback(q, superblock, hash, period).next.sealedHeads, p) ==
            if before.Some? && before.value.superblock > superblock then None else before
  {
  }

  lemma ResetRecorded(s: Sys, superblock: nat, hash: seq<Byte>, period: nat, p: nat)
    requires Rollback(s.q, superblock, hash, period).Done? && Lookup(s.q.sealedHeads, p) == Kept(s.heads, p)
    ensures var q' := Rollback(s.q, superblock, hash, period).next;
            Lookup(q'.sealedHeads, p) == Kept(s.heads + [Reset(q'.head, superblock)], p)
  {
    RetainedAt(s.q, superblock, hash, period, p);
    KeptSnoc(s.heads, Reset(Rollback(s.q, superblock, hash, period).next.head, superblock), p);
  }

  lemma OthersSealNothing(s: Sys, l: Label)
    requires !l.BlockEnds? && !l.RollsBack?
    ensures Step(s, l).q.sealedHeads == s.q.sealedHeads && Step(s, l).heads == s.heads
  {
  }

  lemma BlockEndsHeads(s: Sys, header: BlockHeader)
    ensures var s' := Step(s, BlockEnds(header));
            if EndBlock(s.q, header).Done?
            then s'.q == Seal(s, header).q && s'.heads == Seal(s, header).heads
            else s' == s
  {
  }

  lemma RollbackHeads(s: Sys, superblock: nat, hash: seq<Byte>, period: nat)
    ensures var o, s' := Rollback(s.q, superblock, hash, period), Step(s, RollsBack(superblock, hash, period));
            if o.Done? then s'.q == o.next && s'.heads == s.heads + [Reset(o.next.head, superblock)] else s' == s
  {
  }

  lemma StepRecordsPeriod(s: Sys, l: Label, p: nat)
    requires Lookup(s.q.sealedHeads, p) == Kept(s.heads, p)
    ensures Lookup(Step(s, l).q.sealedHeads, p) == Kept(Step(s, l).heads, p)
  {
    match l
    case BlockEnds(header) =>
      BlockEndsHeads(s, header);
      if EndBlock(s.q, header).Done? { SealRecorded(s, header, p); }
    case RollsBack(superblock, hash, period) =>
      RollbackHeads(s, superblock, hash, period);
      if Rollback(s.q, superblock, hash, period).Done? { ResetRecorded(s, superblock, hash, period, p); }
    case _ => OthersSealNothing(s, l);
  }

  lemma StepKeepsRecorded(s: Sys, l: Label)
    requires HeadsRecorded(s)
    ensures HeadsRecorded(Step(s, l))
  {
    forall p: nat
      ensures Lookup(Step(s, l).q.sealedHeads, p) == Kept(Step(s, l).heads, p)
    {
      assert Lookup(s.q.sealedHeads, p) == Kept(s.heads, p);
      StepRecordsPeriod(s, l, p);
    }
  }

  lemma {:induction false} RunRecorded(period: nat, target: nat, settled: SettledState, labels: seq<Label>)
    ensures HeadsRecorded(Run(Begin(period, target, settled), labels))
  {
    if labels != [] {
      RunRecorded(period, target, settled, labels[..|labels| - 1]);
      StepKeepsRecorded(Run(Begin(period, target, settled), labels[..|labels| - 1]), labels[|labels| - 1]);
    }
  }

  function HeaderOf(kept: Option<SealedHeader>): Option<BlockHeader> {
    if kept.Some? then Some(kept.value.header) else None
  }

  /** The header that is read for a settlement is that of the block kept last in the period of its label at that
      moment, and absent exactly when there is none. */
  lemma SettlesLastBlock(period: nat, target: nat, settled: SettledState, labels: seq<Label>, i: nat)
    requires i in Run(Begin(period, target, settled), labels).unread
    ensures var s := Run(Begin(period, target, settled), labels); var s' := Step(s, HeaderRead(i, true));
            && i < |s.due| && |s'.sent| == |s.sent| + 1
            && s'.sent[|s.sent|] == Settlement(HeaderOf(Kept(s.heads, s.due[i].tag.period)), s.due[i].tag)
  {
    RunRecorded(period, target, settled, labels);
    RunSends(period, target, settled, labels);
    var s := Run(Begin(period, target, settled), labels);
    assert Lookup(s.q.sealedHeads, s.due[i].tag.period) == Kept(s.heads, s.due[i].tag.period);
  }

  // ---- Between the trigger and the read ----

  /** Since each settlement was triggered only later periods have been sealed. */
  ghost predicate LaterSeals(s: Sys) {
    forall i :: 0 <= i < |s.due| ==> LaterSealsFor(s, s.due[i])
  }

  ghost predicate LaterSealsFor(s: Sys, d: Triggered) {
    d.at <= |s.heads| && forall j :: d.at <= j < |s.heads| && s.heads[j].Sealed? ==> s.heads[j].period > d.tag.period
  }

  lemma TriggerKeepsLater(s: Sys, due: Option<Due>)
    requires LaterSeals(s)
    ensures LaterSeals(Trigger(s, due))
  {
    forall i | 0 <= i < |Trigger(s, due).due|
      ensures LaterSealsFor(Trigger(s, due), Trigger(s, due).due[i])
    {
      if i < |s.due| { assert LaterSealsFor(s, s.due[i]); }
    }
  }

  lemma SealKeepsLater(s: Sys, header: BlockHeader)
    requires LaterSeals(s) && NotYetDue(s) && EndBlock(s.q, header).Done?
    ensures LaterSeals(Seal(s, header))
  {
    forall i | 0 <= i < |s.due|
      ensures LaterSealsFor(Seal(s, header), s.due[i])
    {
      assert LaterSealsFor(s, s.due[i]);
    }
  }

  lemma OthersKeepLater(s: Sys, s': Sys)
    requires LaterSeals(s) && s'.due == s.due
    requires s'.heads == s.heads || exists e: HeadEvent :: e.Reset? && s'.heads == s.heads + [e]
    ensures LaterSeals(s')
  {
    forall i | 0 <= i < |s.due|
      ensures LaterSealsFor(s', s.due[i])
    {
      assert LaterSealsFor(s, s.due[i]);
    }
  }

  lemma StepKeepsLater(s: Sys, l: Label)
    requires LaterSeals(s) && NotYetDue(s)
    ensures LaterSeals(Step(s, l))
  {
    match l
    case PeriodStarts(period, target) =>
      var s1 := s.(q := StartPeriod(s.q, period, target), era := s.era + 1);
      OthersKeepLater(s, s1);
      TriggerKeepsLater(s1, PeriodDue(s.q, period, target));
    case BlockEnds(header) =>
      if EndBlock(s.q, header).Done? {
        SealKeepsLater(s, header);
        TriggerKeepsLater(Seal(s, header), DeferredDue(s.q, header));
      }
    case RollsBack(superblock, hash, period) =>
      RollbackHeads(s, superblock, hash, period);
      OthersSendNothing(s, l);
      OthersKeepLater(s, Step(s, l));
    case HeaderRead(i, proverOk) => OthersKeepLater(s, Step(s, l));
    case _ =>
      OthersSealNothing(s, l);
      OthersSendNothing(s, l);
      OthersKeepLater(s, Step(s, l));
  }

  lemma {:induction false} LaterSealsFrom(s0: Sys, labels: seq<Label>, n: nat)
    requires DueInOrder(s0) && LaterSeals(s0) && OrderlyRun(s0, labels) && n <= |labels|
    ensures LaterSeals(Run(s0, labels[..n]))
  {
    if n > 0 {
      LaterSealsFrom(s0, labels, n - 1);
      DueInOrderFrom(s0, labels, n - 1);
      StepKeepsLater(Run(s0, labels[..n - 1]), labels[n - 1]);
      RunPrefix(s0, labels, n - 1);
    }
  }

  /** Some rollback since the given moment went below the superblock. */
  ghost predicate RolledBelow(heads: seq<HeadEvent>, at: nat, superblock: nat) {
    exists j :: at <= j < |heads| && heads[j].Reset? && heads[j].finalized < superblock
  }

  lemma RolledBelowSnoc(heads: seq<HeadEvent>, e: HeadEvent, at: nat, superblock: nat)
    requires at <= |heads|
    ensures RolledBelow(heads + [e], at, superblock) <==>
            RolledBelow(heads, at, superblock) || (e.Reset? && e.finalized < superblock)
  {
    var all := heads + [e];
    assert all[|heads|] == e;
    if RolledBelow(heads, at, superblock) {
      var j :| at <= j < |heads| && heads[j].Reset? && heads[j].finalized < superblock;
      assert all[j] == heads[j];
    }
  }

  /** With no block of the period sealed since, the block kept then is still kept unless rolled back below. */
  lemma {:induction false} KeptSince(heads: seq<HeadEvent>, at: nat, period: nat)
    requires at <= |heads| && forall j :: at <= j < |heads| && heads[j].Sealed? ==> heads[j].period != period
    ensures var first := Kept(heads[..at], period);
            Kept(heads, period) == if first.Some? && RolledBelow(heads, at, first.value.superblock) then None else first
    decreases |heads|
  {
    if at == |heads| {
      assert heads[..at] == heads;
    } else {
      var init, e := heads[..|heads| - 1], heads[|heads| - 1];
      KeptSince(init, at, period);
      assert init[..at] == heads[..at] && heads == init + [e];
      KeptSnoc(init, e, period);
      var first := Kept(heads[..at], period);
      if first.Some? { RolledBelowSnoc(init, e, at, first.value.superblock); }
    }
  }

  /** With announcements in order, the block whose header is read is the one at the trigger exactly when there was
      none, or no rollback accepted between the two went below its superblock; otherwise the header is absent. */
  lemma ReadAsTriggeredExactly(period: nat, target: nat, settled: SettledState, labels: seq<Label>, i: nat)
    requires OrderlyRun(Begin(period, target, settled), labels)
    requires i in Run(Begin(period, target, settled), labels).unread
    ensures var s := Run(Begin(period, target, settled), labels);
            && i < |s.due| && s.due[i].at <= |s.heads|
            && var d, p := s.due[i], s.due[i].tag.period;
               var first, now := Kept(s.heads[..d.at], p), Kept(s.heads, p);
               && (now == first <==> first.None? || !RolledBelow(s.heads, d.at, first.value.superblock))
               && (now != first ==> now.None?)
  {
    var s0 := Begin(period, target, settled);
    var s := Run(s0, labels);
    RunSends(period, target, settled, labels);
    LaterSealsFrom(s0, labels, |labels|);
    assert labels[..|labels|] == labels;
    assert LaterSealsFor(s, s.due[i]);
    KeptSince(s.heads, s.due[i].at, s.due[i].tag.period);
  }

  /** It does get lost: a rollback between the trigger and the read, and the proof is asked for without a header. */
  lemma RollbackBeforeRead(settled: SettledState, header: BlockHeader)
    requires settled.superblock == 3 && header.number == settled.header.number + 1
    ensures var rolls := RollsBack(3, settled.hash, 5);
            var s := Run(Begin(4, 5, settled),
              [BlockBegins(header.number), BlockEnds(header), PeriodStarts(5, 6), rolls]);
            && |s.due| == 1 && s.due[0].at == 2 && 0 in s.unread && |s.heads| == 3
            && Kept(s.heads[..2], 4) == Some(SealedHeader(header, 4, 5))
            && Step(s, HeaderRead(0, true)).sent == [Settlement(None, Due(4, 5))]
  {
    var s0 := Begin(4, 5, settled);
    RunOfFour(s0, BlockBegins(header.number), BlockEnds(header), PeriodStarts(5, 6), RollsBack(3, settled.hash, 5));
    var s2 := Step(Step(s0, BlockBegins(header.number)), BlockEnds(header));
    assert s2.heads == s0.heads + [Sealed(header, 4, 5)] && s2.due == [];
    assert s2.q.sealedHeads == map[4 := SealedHeader(header, 4, 5)];
    KeptSnoc(s0.heads, Sealed(header, 4, 5), 4);
    var s3 := Step(s2, PeriodStarts(5, 6));
    assert s3.due == [Triggered(Due(4, 5), 2)];
    var s4 := Step(s3, RollsBack(3, settled.hash, 5));
    assert s4.q.sealedHeads == map[];
    assert s4.heads == s2.heads + [Reset(settled.header.number, 3)];
    assert s4.heads[..2] == s2.heads;
  }

  /** The settled state only moves to newer superblocks, and only when L1 settles. */
  lemma SettledOnlyAdvances(s: Sys, l: Label)
    ensures Step(s, l).q.settled == s.q.settled ||
            (l.L1Settles? && Step(s, l).q.settled == l.settled && l.settled.superblock > s.q.settled.superblock)
  {
  }

  /** In every run the settled state is the initial one or one that L1 reported, and no report was newer. */
  lemma {:induction false} SettledIsNewest(period: nat, target: nat, settled: SettledState, labels: seq<Label>)
    ensures var now := Run(Begin(period, target, settled), labels).q.settled;
            && (now == settled || exists i :: 0 <= i < |labels| && labels[i] == L1Settles(now))
            && settled.superblock <= now.superblock
            && (forall i :: 0 <= i < |labels| && labels[i].L1Settles? ==>
                  labels[i].settled.superblock <= now.superblock)
  {
    if labels != [] {
      var n := |labels| - 1;
      SettledIsNewest(period, target, settled, labels[..n]);
      var s := Run(Begin(period, target, settled), labels[..n]);
      SettledOnlyAdvances(s, labels[n]);
      if s.q.settled != settled {
        var i :| 0 <= i < n && labels[..n][i] == L1Settles(s.q.settled);
        assert labels[i] == L1Settles(s.q.settled);
      }
      if labels[n].L1Settles? {
        assert labels[n].settled.superblock <= Step(s, labels[n]).q.settled.superblock;
      }
      forall i | 0 <= i < n && labels[i].L1Settles?
        ensures labels[i].settled.superblock <= s.q.settled.superblock
      {
        assert labels[..n][i] == labels[i];
      }
    }
  }

  // ---- Instances ----

  /** Between two announcements the accepted sequence numbers increase strictly, rollbacks notwithstanding. */
  ghost predicate NumbersRise(s: Sys) {
    && (forall i, j :: 0 <= i < j < |s.accepted| ==>
          s.accepted[i].era < s.accepted[j].era ||
          (s.accepted[i].era == s.accepted[j].era && s.accepted[i].seqNum < s.accepted[j].seqNum))
    && (forall i :: 0 <= i < |s.accepted| ==> s.accepted[i].era <= s.era)
    && (forall i :: 0 <= i < |s.accepted| && s.accepted[i].era == s.era ==>
          s.q.lastSeq.Some? && s.accepted[i].seqNum <= s.q.lastSeq.value)
  }

  lemma AcceptKeepsNumbers(s: Sys, id: InstanceId, period: nat, seqNum: nat)
    requires NumbersRise(s) && OnStartInstance(s.q, id, period, seqNum).Done?
    ensures NumbersRise(Step(s, InstanceStarts(id, period, seqNum)))
  {
    var s' := Step(s, InstanceStarts(id, period, seqNum));
    assert s'.accepted == s.accepted + [Accepted(s.era, period, seqNum)];
  }

  lemma NumbersStay(s: Sys, s': Sys)
    requires NumbersRise(s) && s'.accepted == s.accepted
    requires (s'.era == s.era && s'.q.lastSeq == s.q.lastSeq) || s'.era == s.era + 1
    ensures NumbersRise(s')
  {
  }

  lemma OthersAcceptNothing(s: Sys, l: Label)
    ensures var s' := Step(s, l);
            (l.InstanceStarts? && OnStartInstance(s.q, l.id, l.period, l.seqNum).Done?) ||
            (s'.accepted == s.accepted && ((s'.era == s.era && s'.q.lastSeq == s.q.lastSeq) || s'.era == s.era + 1))
  {
  }

  lemma StepKeepsNumbers(s: Sys, l: Label)
    requires NumbersRise(s)
    ensures NumbersRise(Step(s, l))
  {
    OthersAcceptNothing(s, l);
    if l.InstanceStarts? && OnStartInstance(s.q, l.id, l.period, l.seqNum).Done? {
      AcceptKeepsNumbers(s, l.id, l.period, l.seqNum);
    } else {
      NumbersStay(s, Step(s, l));
    }
  }

  lemma {:induction false} InstanceNumbersRise(period: nat, target: nat, settled: SettledState, labels: seq<Label>)
    ensures NumbersRise(Run(Begin(period, target, settled), labels))
  {
    if labels != [] {
      InstanceNumbersRise(period, target, settled, labels[..|labels| - 1]);
      StepKeepsNumbers(Run(Begin(period, target, settled), labels[..|labels| - 1]), labels[|labels| - 1]);
    }
  }

  /** The last sequence number, if there is one, was accepted since the last announcement. */
  ghost predicate LastIsAccepted(s: Sys) {
    s.q.lastSeq.Some? ==>
      exists i :: 0 <= i < |s.accepted| && s.accepted[i].era == s.era && s.accepted[i].seqNum == s.q.lastSeq.value
  }

  lemma AcceptKeepsLast(s: Sys, id: InstanceId, period: nat, seqNum: nat)
    requires OnStartInstance(s.q, id, period, seqNum).Done?
    ensures LastIsAccepted(Step(s, InstanceStarts(id, period, seqNum)))
  {
    var s' := Step(s, InstanceStarts(id, period, seqNum));
    assert s'.accepted[|s.accepted|] == Accepted(s.era, period, seqNum);
  }

  lemma OthersKeepLast(s: Sys, l: Label)
    requires !(l.InstanceStarts? && OnStartInstance(s.q, l.id, l.period, l.seqNum).Done?)
    ensures var s' := Step(s, l);
            s'.q.lastSeq.None? || (s'.q.lastSeq == s.q.lastSeq && s'.accepted == s.accepted && s'.era == s.era)
  {
  }

  lemma StepKeepsLast(s: Sys, l: Label)
    requires LastIsAccepted(s)
    ensures LastIsAccepted(Step(s, l))
  {
    if l.InstanceStarts? && OnStartInstance(s.q, l.id, l.period, l.seqNum).Done? {
      AcceptKeepsLast(s, l.id, l.period, l.seqNum);
    } else {
      OthersKeepLast(s, l);
    }
  }

  lemma {:induction false} RunKeepsLast(period: nat, target: nat, settled: SettledState, labels: seq<Label>)
    ensures LastIsAccepted(Run(Begin(period, target, settled), labels))
  {
    if labels != [] {
      RunKeepsLast(period, target, settled, labels[..|labels| - 1]);
      StepKeepsLast(Run(Begin(period, target, settled), labels[..|labels| - 1]), labels[|labels| - 1]);
    }
  }

  /** In every run an instance offered to an unlocked open block of its own period is refused exactly when one with
      at least its number was accepted since the last announcement. */
  lemma RefusedExactlyWhenPassed(period: nat, target: nat, settled: SettledState, labels: seq<Label>, id: InstanceId,
                                 p: nat, seqNum: nat)
    requires LocalTxAllowed(Run(Begin(period, target, settled), labels).q)
    requires Run(Begin(period, target, settled), labels).q.pending.value.period == p
    ensures var s := Run(Begin(period, target, settled), labels);
            OnStartInstance(s.q, id, p, seqNum).Refused? <==>
            exists i :: 0 <= i < |s.accepted| && s.accepted[i].era == s.era && s.accepted[i].seqNum >= seqNum
  {
    InstanceNumbersRise(period, target, settled, labels);
    RunKeepsLast(period, target, settled, labels);
  }

  /** A rollback keeps the last sequence number, so in the same period every number up to it is refused, even
      though the publisher starts again from 1. */
  lemma RollbackKeepsRefusing(q: SequencerState, period: nat, id: InstanceId, seqNum: nat)
    requires q.lastSeq.Some?
    requires Rollback(q, q.settled.superblock, q.settled.hash, period).Done?
    ensures var rolled := Rollback(q, q.settled.superblock, q.settled.hash, period).next;
            var open := BeginBlock(rolled, rolled.head + 1);
            && open.Done?
            && (OnStartInstance(open.next, id, period, seqNum) == Refused(LowSequenceNumber) <==>
              seqNum <= q.lastSeq.value)
  {
  }

  // ---- Sealed heads grow with the period ----

  /** Periods do not go back, and an accepted rollback's settled header is at least every block it keeps. */
  ghost predicate Steady(q: SequencerState, l: Label) {
    && (l.PeriodStarts? ==> l.period >= q.period)
    && (l.RollsBack? && Rollback(q, l.superblock, l.hash, l.period).Done? ==>
          && l.period >= q.period
          && KeptBelow(Rollback(q, l.superblock, l.hash, l.period).next))
  }

  ghost predicate KeptBelow(q: SequencerState) {
    forall p :: p in q.sealedHeads ==> q.sealedHeads[p].header.number <= q.head
  }

  ghost predicate SteadyRun(s0: Sys, labels: seq<Label>) {
    forall i :: 0 <= i < |labels| ==> Steady(Run(s0, labels[..i]).q, labels[i])
  }

  /** A later period's last block is a later block. */
  ghost predicate HeadsGrow(q: SequencerState) {
    forall p, p' :: p in q.sealedHeads && p' in q.sealedHeads && p < p' ==>
      q.sealedHeads[p].header.number < q.sealedHeads[p'].header.number
  }

  ghost predicate SealedInPast(q: SequencerState) {
    && KeptBelow(q)
    && (forall p :: p in q.sealedHeads ==> p <= if q.pending.Some? then q.pending.value.period else q.period)
    && (q.pending.Some? ==> q.pending.value.period <= q.period && q.pending.value.number == q.head + 1)
  }

  lemma SealKeepsHeads(q: SequencerState, header: BlockHeader)
    requires HeadsGrow(q) && SealedInPast(q) && EndBlock(q, header).Done?
    ensures HeadsGrow(EndBlock(q, header).next) && SealedInPast(EndBlock(q, header).next)
  {
  }

  lemma RollbackKeepsHeads(q: SequencerState, superblock: nat, hash: seq<Byte>, period: nat)
    requires HeadsGrow(q) && SealedInPast(q) && Rollback(q, superblock, hash, period).Done? && period >= q.period
    requires KeptBelow(Rollback(q, superblock, hash, period).next)
    ensures var q' := Rollback(q, superblock, hash, period).next; HeadsGrow(q') && SealedInPast(q')
  {
  }

  lemma OthersKeepHeads(s: Sys, l: Label)
    requires HeadsGrow(s.q) && SealedInPast(s.q) && Steady(s.q, l) && !l.BlockEnds? && !l.RollsBack?
    ensures HeadsGrow(Step(s, l).q) && SealedInPast(Step(s, l).q)
  {
    OthersSealNothing(s, l);
  }

  lemma StepKeepsHeads(s: Sys, l: Label)
    requires HeadsGrow(s.q) && SealedInPast(s.q) && Steady(s.q, l)
    ensures HeadsGrow(Step(s, l).q) && SealedInPast(Step(s, l).q)
  {
    match l
    case BlockEnds(header) =>
      BlockEndsHeads(s, header);
      if EndBlock(s.q, header).Done? { SealKeepsHeads(s.q, header); }
    case RollsBack(superblock, hash, period) =>
      RollbackHeads(s, superblock, hash, period);
      if Rollback(s.q, superblock, hash, period).Done? { RollbackKeepsHeads(s.q, superblock, hash, period); }
    case _ => OthersKeepHeads(s, l);
  }

  lemma SteadyAt(s0: Sys, labels: seq<Label>, n: nat)
    requires SteadyRun(s0, labels) && n < |labels|
    ensures Steady(Run(s0, labels[..n]).q, labels[n])
  {
  }

  lemma {:induction false} SealedHeadsGrowAt(s0: Sys, labels: seq<Label>, n: nat)
    requires HeadsGrow(s0.q) && SealedInPast(s0.q) && SteadyRun(s0, labels) && n <= |labels|
    ensures HeadsGrow(Run(s0, labels[..n]).q) && SealedInPast(Run(s0, labels[..n]).q)
  {
    if n > 0 {
      SealedHeadsGrowAt(s0, labels, n - 1);
      SteadyAt(s0, labels, n - 1);
      StepKeepsHeads(Run(s0, labels[..n - 1]), labels[n - 1]);
      RunPrefix(s0, labels, n - 1);
    }
  }

  lemma SealedHeadsGrowFrom(s0: Sys, labels: seq<Label>)
    requires HeadsGrow(s0.q) && SealedInPast(s0.q) && SteadyRun(s0, labels)
    ensures HeadsGrow(Run(s0, labels).q) && SealedInPast(Run(s0, labels).q)
  {
    SealedHeadsGrowAt(s0, labels, |labels|);
    assert labels[..|labels|] == labels;
  }

  /** In a steady run the last sealed blocks grow with the period. */
  lemma SealedHeadsGrow(period: nat, target: nat, settled: SettledState, labels: seq<Label>)
    requires SteadyRun(Begin(period, target, settled), labels)
    ensures HeadsGrow(Run(Begin(period, target, settled), labels).q)
  {
    SealedHeadsGrowFrom(Begin(period, target, settled), labels);
  }

  /** The state a rollback leaves: nothing open and only past periods sealed. */
  ghost predicate RolledBack(q: SequencerState) {
    && q.pending.None? && q.activeInstance.None? && HeadsGrow(q)
    && (forall p :: p in q.sealedHeads ==> p <= q.period)
  }

  lemma RollbackOfSteady(q: SequencerState, superblock: nat, hash: seq<Byte>, now: nat)
    requires HeadsGrow(q) && SealedInPast(q) && now >= q.period && Rollback(q, superblock, hash, now).Done?
    ensures RolledBack(Rollback(q, superblock, hash, now).next)
  {
  }

  ghost predicate KeepsGrowing(s0: Sys) {
    forall labels :: SteadyRun(s0, labels) ==> HeadsGrow(Run(s0, labels).q)
  }

  /** After a rollback all steady continuations keep the sealed heads growing exactly when the settled header
      is at least every block that was kept. */
  lemma RollbackNeedsHighHeader(s0: Sys)
    requires RolledBack(s0.q)
    ensures KeepsGrowing(s0) <==> KeptBelow(s0.q)
  {
    if KeptBelow(s0.q) {
      forall labels | SteadyRun(s0, labels)
        ensures HeadsGrow(Run(s0, labels).q)
      {
        SealedHeadsGrowFrom(s0, labels);
      }
    } else {
      var labels := NextBlock(s0);
      var p :| p in s0.q.sealedHeads && s0.q.sealedHeads[p].header.number > s0.q.head;
      var q := Run(s0, labels).q;
      assert q.sealedHeads[p] == s0.q.sealedHeads[p] && q.sealedHeads[s0.q.period + 1].header.number == s0.q.head + 1;
      assert !HeadsGrow(q);
    }
  }

  /** Starting the next period and sealing one block in it. */
  lemma NextBlock(s0: Sys) returns (labels: seq<Label>)
    requires RolledBack(s0.q)
    ensures SteadyRun(s0, labels)
    ensures var q := s0.q; var header := BlockHeader(q.head + 1, [], []);
            Run(s0, labels).q.sealedHeads == q.sealedHeads[q.period + 1 := SealedHeader(header, q.period + 1, q.target)]
  {
    var q := s0.q;
    var header := BlockHeader(q.head + 1, [], []);
    var a, b, c := PeriodStarts(q.period + 1, q.target), BlockBegins(q.head + 1), BlockEnds(header);
    labels := [a, b, c];
    assert labels[..0] == [] && labels[..1][..0] == [] && labels[..2][..1] == labels[..1] && labels[..3] == labels;
    assert Run(s0, labels[..1]) == Step(s0, a);
    assert Run(s0, labels[..2]) == Step(Step(s0, a), b);
    assert Run(s0, labels) == Step(Step(Step(s0, a), b), c);
  }

  /** Every block that a rollback would keep is at most the settled one; known before the call. */
  ghost predicate SettledIsHigh(q: SequencerState) {
    forall p :: p in q.sealedHeads && q.sealedHeads[p].superblock <= q.settled.superblock ==>
      q.sealedHeads[p].header.number <= q.settled.header.number
  }

  lemma HighMeansKeptBelow(q: SequencerState, superblock: nat, hash: seq<Byte>, now: nat)
    requires Rollback(q, superblock, hash, now).Done?
    ensures SettledIsHigh(q) <==> KeptBelow(Rollback(q, superblock, hash, now).next)
  {
    var q' := Rollback(q, superblock, hash, now).next;
    if KeptBelow(q') {
      forall p | p in q.sealedHeads && q.sealedHeads[p].superblock <= q.settled.superblock
        ensures q.sealedHeads[p].header.number <= q.settled.header.number
      {
        assert p in q'.sealedHeads;
      }
    }
  }

  lemma AcceptedRollback(s: Sys, superblock: nat, hash: seq<Byte>, now: nat)
    requires HeadsGrow(s.q) && SealedInPast(s.q) && now >= s.q.period && Rollback(s.q, superblock, hash, now).Done?
    ensures KeepsGrowing(Step(s, RollsBack(superblock, hash, now))) <==> SettledIsHigh(s.q)
  {
    RollbackOfSteady(s.q, superblock, hash, now);
    HighMeansKeptBelow(s.q, superblock, hash, now);
    RollbackNeedsHighHeader(Step(s, RollsBack(superblock, hash, now)));
  }

  /** A rollback accepted in a steady run lets all steady continuations keep the sealed heads growing exactly
      when the settled header is at least every block of a finalized superblock. */
  lemma RollbackInSteadyRun(period: nat, target: nat, settled: SettledState, labels: seq<Label>,
                            superblock: nat, hash: seq<Byte>, now: nat)
    requires SteadyRun(Begin(period, target, settled), labels)
    requires var q := Run(Begin(period, target, settled), labels).q;
             now >= q.period && Rollback(q, superblock, hash, now).Done?
    ensures var s := Run(Begin(period, target, settled), labels);
            KeepsGrowing(Step(s, RollsBack(superblock, hash, now))) <==> SettledIsHigh(s.q)
  {
    SealedHeadsGrowFrom(Begin(period, target, settled), labels);
    AcceptedRollback(Run(Begin(period, target, settled), labels), superblock, hash, now);
  }
}
