/** What holds after every run of the coordinator, whatever requests, votes, timeouts, drains and period
    changes it interleaves.  Results that need distinct identifiers assume `HashSafe`. */
module CoordinatorTheorems {
  import opened Spec
  import opened Encoding
  import opened InstanceIds
  import opened CoordinatorModel
  import opened CoordinatorRuns
  import opened AtomicCommit
  import opened QueueDiscipline
  import GreedyDrain

  // ---- Numbering needs no assumption on the hash ----

  ghost predicate WellNumbered(sha: seq<Byte> -> InstanceId, s: Sys) {
    && Numbered(s.starts, s.st.period, s.st.nextSeq) && Genuine(sha, s.starts)
    && (forall i :: 0 <= i < |s.st.queue| ==> EntryOk(s.st.queue[i]))
  }

  lemma LaunchKeepsNumbers(sha: seq<Byte> -> InstanceId, s: Sys, ticket: nat, viaQueue: bool, request: XtRequest,
                           now: nat)
    requires WellNumbered(sha, s)
    ensures WellNumbered(sha, Launch(sha, s, ticket, viaQueue, request, ChainsOf(request), now))
  {
    LaunchNumbers(sha, s, ticket, viaQueue, request, now);
  }

  lemma SubmitKeepsNumbers(sha: seq<Byte> -> InstanceId, s: Sys, request: XtRequest, now: nat)
    requires Paired(s) && WellNumbered(sha, s)
    ensures WellNumbered(sha, Submit(sha, s, request, now))
  {
    if |ChainsOf(request)| >= 2 && !Overlaps(s.st.index, ChainsOf(request)) {
      LaunchKeepsNumbers(sha, s.(submitted := s.submitted + [request]), |s.submitted|, false, request, now);
    }
  }

  lemma DequeueKeepsNumbers(sha: seq<Byte> -> InstanceId, s: Sys, k: nat)
    requires Paired(s) && WellNumbered(sha, s) && k < |s.st.queue|
    ensures WellNumbered(sha, Dequeue(s, k)) && EntryOk(s.st.queue[k])
  {
  }

  lemma DrainKeepsNumbers(sha: seq<Byte> -> InstanceId, s: Sys, now: nat)
    requires Paired(s) && WellNumbered(sha, s)
    ensures WellNumbered(sha, DrainStep(sha, s, now))
  {
    DrainCases(sha, s, now);
    var k := FirstReady(s.st.index, s.st.queue);
    if s.drainers > 0 && k < |s.st.queue| {
      DequeueKeepsNumbers(sha, s, k);
      LaunchKeepsNumbers(sha, Dequeue(s, k), s.tickets[k], true, s.st.queue[k].request, now);
    } else {
      NumbersIgnoreRest(sha, s, DrainStep(sha, s, now));
    }
  }

  lemma NumbersIgnoreRest(sha: seq<Byte> -> InstanceId, s: Sys, s': Sys)
    requires WellNumbered(sha, s)
    requires s'.starts == s.starts && s'.st.period == s.st.period && s'.st.nextSeq == s.st.nextSeq
    requires s'.st.queue == s.st.queue
    ensures WellNumbered(sha, s')
  {
  }

  lemma PeriodKeepsNumbers(sha: seq<Byte> -> InstanceId, s: Sys, s': Sys)
    requires WellNumbered(sha, s)
    requires s'.starts == s.starts && s'.st == NewPeriod(s.st)
    ensures WellNumbered(sha, s')
  {
  }

  lemma StepNumbers(sha: seq<Byte> -> InstanceId, s: Sys, l: Label)
    requires Paired(s) && WellNumbered(sha, s)
    ensures WellNumbered(sha, Step(sha, s, l))
  {
    match l
    case Request(request, now) => SubmitKeepsNumbers(sha, s, request, now);
    case Vote(idBytes, chain, vote) => NumbersIgnoreRest(sha, s, Cast(s, idBytes, chain, vote));
    case Reap(now, timeout, order) =>
      TimeOutEachFrame(s, order);
      DropEachTable(s.st, order);
      NumbersIgnoreRest(sha, s, ReapStep(s, now, timeout, order));
    case Drain(now) => DrainKeepsNumbers(sha, s, now);
    case AdvancePeriod => PeriodKeepsNumbers(sha, s, Step(sha, s, l));
  }

  lemma {:induction false} RunNumbers(sha: seq<Byte> -> InstanceId, labels: seq<Label>)
    ensures WellNumbered(sha, Run(sha, labels))
  {
    if labels != [] {
      RunNumbers(sha, labels[..|labels| - 1]);
      StepNumbers(sha, Run(sha, labels[..|labels| - 1]), labels[|labels| - 1]);
    }
  }

  // ---- The invariant of all runs ----

  ghost predicate Good(sha: seq<Byte> -> InstanceId, s: Sys) {
    && Paired(s) && Core(sha, s) && BallotsOk(s) && DecisionsOk(s)
    && Awake(s) && TicketsOk(s) && NoOvertaking(s) && Counted(s)
  }

  /** The books balance: every request is rejected, queued, active or decided. */
  ghost predicate Counted(s: Sys) {
    |s.submitted| == |s.rejected| + |s.st.queue| + |s.live| + |s.decisions|
  }

  lemma {:induction false} TimeOutEachHistory(s: Sys, keys: seq<string>)
    ensures TimeOutEach(s, keys).live == s.live - Elems(keys)
    ensures |TimeOutEach(s, keys).decisions| == |s.decisions| + |keys|
  {
    if keys == [] {
      assert s.live - Elems(keys) == s.live;
    } else {
      var init, key := keys[..|keys| - 1], keys[|keys| - 1];
      TimeOutEachHistory(s, init);
      assert Elems(keys) == Elems(init) + {key};
    }
  }

  lemma LaunchCounts(sha: seq<Byte> -> InstanceId, s: Sys, ticket: nat, viaQueue: bool, request: XtRequest,
                     chains: seq<ChainId>, now: nat)
    requires Linked(s) && KeysDistinct(Launch(sha, s, ticket, viaQueue, request, chains, now).starts)
    ensures |Launch(sha, s, ticket, viaQueue, request, chains, now).live| == |s.live| + 1
  {
    FreshKeyNotLive(s, Start(ticket, viaQueue, NextInstance(sha, s.st, request), now));
  }

  ghost predicate RejectedInRange(s: Sys) {
    forall t :: t in s.rejected ==> t < |s.submitted|
  }

  lemma SubmitCounts(sha: seq<Byte> -> InstanceId, s: Sys, request: XtRequest, now: nat)
    requires Paired(s) && Counted(s) && RejectedInRange(s) && Linked(s)
    requires KeysDistinct(Submit(sha, s, request, now).starts)
    ensures Counted(Submit(sha, s, request, now))
  {
    var chains := ChainsOf(request);
    if |chains| >= 2 {
      if !Overlaps(s.st.index, chains) {
        LaunchCounts(sha, s.(submitted := s.submitted + [request]), |s.submitted|, false, request, chains, now);
      } else if |s.st.queue| >= MAX_PENDING_QUEUE_SIZE {
        RefuseCounts(s, request);
      }
    }
  }

  lemma RefuseCounts(s: Sys, request: XtRequest)
    requires Counted(s) && RejectedInRange(s)
    ensures Counted(Refuse(s, request))
  {
  }

  /** The terms of the balance that a vote or a timeout leaves alone. */
  ghost predicate SameArrivals(s: Sys, s': Sys) {
    s'.submitted == s.submitted && s'.rejected == s.rejected && s'.st.queue == s.st.queue
  }

  lemma DecisionMoves(s: Sys, s': Sys, key: string)
    requires Counted(s) && SameArrivals(s, s') && key in s.live
    requires s'.live == s.live - {key} && |s'.decisions| == |s.decisions| + 1
    ensures Counted(s')
  {
    RemoveAllSize(s.live, {key});
  }

  lemma CastCounts(s: Sys, idBytes: seq<Byte>, chain: ChainId, vote: bool)
    requires Paired(s) && Counted(s) && Linked(s)
    ensures Counted(Cast(s, idBytes, chain, vote))
  {
    var key, s' := Hex(idBytes), Cast(s, idBytes, chain, vote);
    if Counts(s.st, key, chain) {
      CastHistory(s, idBytes, chain, vote);
      if Outcome(s.st, key, chain, vote).Some? { DecisionMoves(s, s', key); }
    }
  }

  lemma ReapCounts(s: Sys, now: nat, timeout: nat, order: seq<string>)
    requires Paired(s) && Counted(s) && Linked(s)
    ensures Counted(ReapStep(s, now, timeout, order))
  {
    if IterationOrder(s.st, now, timeout, order) {
      TimeOutEachFrame(s, order);
      assert Expired(s.st, now, timeout) <= s.st.active.Keys;
      TimeOutEachHistory(s, order);
      RemoveAllSize(s.live, Elems(order));
      NoDupCardinality(order);
    }
  }

  lemma DrainCounts(sha: seq<Byte> -> InstanceId, s: Sys, now: nat)
    requires Paired(s) && Counted(s) && Linked(s) && KeysDistinct(DrainStep(sha, s, now).starts)
    ensures Counted(DrainStep(sha, s, now))
  {
    var k := FirstReady(s.st.index, s.st.queue);
    if s.drainers > 0 && k < |s.st.queue| {
      LaunchCounts(sha, Dequeue(s, k), s.tickets[k], true, s.st.queue[k].request, s.st.queue[k].chains, now);
    }
  }

  lemma PeriodCounts(sha: seq<Byte> -> InstanceId, s: Sys)
    requires Paired(s) && Counted(s)
    ensures Counted(Step(sha, s, AdvancePeriod))
  {
  }

  lemma StepCounts(sha: seq<Byte> -> InstanceId, s: Sys, l: Label)
    requires Paired(s) && Counted(s) && RejectedInRange(s) && Linked(s) && KeysDistinct(Step(sha, s, l).starts)
    ensures Counted(Step(sha, s, l))
  {
    match l
    case Request(request, now) => SubmitCounts(sha, s, request, now);
    case Vote(idBytes, chain, vote) => CastCounts(s, idBytes, chain, vote);
    case Reap(now, timeout, order) => ReapCounts(s, now, timeout, order);
    case Drain(now) => DrainCounts(sha, s, now);
    case AdvancePeriod => PeriodCounts(sha, s);
  }

  lemma StepKeepsGood(sha: seq<Byte> -> InstanceId, s: Sys, l: Label)
    requires Good(sha, s) && HashSafe(sha, Step(sha, s, l).starts)
    ensures Good(sha, Step(sha, s, l))
  {
    StepKeepsCore(sha, s, l);
    StepKeepsBallots(sha, s, l);
    StepKeepsAwake(sha, s, l);
    StepKeepsTickets(sha, s, l);
    StepKeepsOrder(sha, s, l);
    StepCounts(sha, s, l);
  }

  lemma StepExtends(sha: seq<Byte> -> InstanceId, s: Sys, l: Label)
    requires Paired(s)
    ensures s.starts <= Step(sha, s, l).starts
  {
    if l.Reap? { TimeOutEachFrame(s, l.order); }
  }

  /** What is assumed of the hash for a run holds for all its beginnings. */
  lemma EarlierHashSafe(sha: seq<Byte> -> InstanceId, labels: seq<Label>)
    requires labels != [] && HashSafe(sha, Run(sha, labels).starts)
    ensures HashSafe(sha, Run(sha, labels[..|labels| - 1]).starts)
  {
    var before := Run(sha, labels[..|labels| - 1]);
    StepExtends(sha, before, labels[|labels| - 1]);
    HashSafePrefix(sha, before.starts, Run(sha, labels).starts);
  }

  lemma {:induction false} RunIsGood(sha: seq<Byte> -> InstanceId, labels: seq<Label>)
    requires HashSafe(sha, Run(sha, labels).starts)
    ensures Good(sha, Run(sha, labels))
  {
    if labels == [] {
      BeginIsGood(sha);
    } else {
      EarlierHashSafe(sha, labels);
      RunIsGood(sha, labels[..|labels| - 1]);
      StepKeepsGood(sha, Run(sha, labels[..|labels| - 1]), labels[|labels| - 1]);
    }
  }

  lemma BeginIsCore(sha: seq<Byte> -> InstanceId)
    ensures Core(sha, Begin())
  {
    assert Inv(Initial());
  }

  lemma BeginIsGood(sha: seq<Byte> -> InstanceId)
    ensures Good(sha, Begin())
  {
    BeginIsCore(sha);
    var s := Begin();
    assert TicketsOk(s);
    assert BallotsOk(s) && DecisionsOk(s);
  }

  // ---- Index and table ----

  /** `index[c] == x` exactly when `x` is an active transaction with `c` among its chains. */
  ghost predicate ExactInverse(st: State) {
    forall c, x :: (c in st.index && st.index[c] == x) <==> (x in st.active && c in st.active[x].chains)
  }

  ghost predicate PairwiseDisjoint(st: State) {
    forall x, y :: x in st.active && y in st.active && x != y ==>
      Elems(st.active[x].chains) !! Elems(st.active[y].chains)
  }

  lemma InvMeansExact(st: State)
    requires Inv(st)
    ensures ExactInverse(st) && PairwiseDisjoint(st)
  {
    forall x, y | x in st.active && y in st.active && x != y
      ensures Elems(st.active[x].chains) !! Elems(st.active[y].chains)
    {
      ActiveDisjoint(st, x, y);
    }
  }

  /** After every run the chain index is the exact inverse of the table of active transactions: no
      reservation is orphaned or shared, and active transactions are pairwise disjoint. */
  lemma IndexAgreesWithTable(sha: seq<Byte> -> InstanceId, labels: seq<Label>)
    requires HashSafe(sha, Run(sha, labels).starts)
    ensures ExactInverse(Run(sha, labels).st) && PairwiseDisjoint(Run(sha, labels).st)
  {
    RunIsGood(sha, labels);
    InvMeansExact(Run(sha, labels).st);
  }

  // ---- Atomic commit ----

  ghost predicate DecidedOnce(s: Sys) {
    forall i, j :: 0 <= i < j < |s.decisions| ==> s.decisions[i].wire.idBytes != s.decisions[j].wire.idBytes
  }

  ghost predicate DecidedWell(s: Sys) {
    forall j :: 0 <= j < |s.decisions| ==>
      && DecidedOf(s, j)
      && (s.decisions[j].wire.commit <==> ExactlyYes(s.starts[s.decisions[j].start].instance, s.ballots))
  }

  lemma GoodDecidedOnce(s: Sys)
    requires KeysDistinct(s.starts) && Settled(s)
    ensures DecidedOnce(s)
  {
  }

  lemma GoodVotes(s: Sys)
    requires KeysDistinct(s.starts) && BallotsOk(s)
    ensures VotesOfParticipants(s.starts, s.ballots)
  {
    forall k, b | 0 <= k < |s.starts| && b in s.ballots && b.key == Key(s.starts[k].instance)
      ensures b.chain in ChainsOf(s.starts[k].instance.request)
    {
      assert OfParticipant(s.starts, b);
    }
  }

  lemma UnanimousExactly(instance: Instance, ballots: seq<Ballot>)
    requires forall b :: b in ballots && b.key == Key(instance) ==> b.chain in ChainsOf(instance.request)
    ensures Unanimous(instance, ballots) <==> ExactlyYes(instance, ballots)
  {
    if ExactlyYes(instance, ballots) {
      forall c | c in ChainsOf(instance.request)
        ensures Ballot(Key(instance), c, true) in ballots
      {
        assert Ballot(Key(instance), c, true).vote;
      }
    }
  }

  lemma GoodDecidedWell(s: Sys)
    requires Settled(s) && DecisionsOk(s) && VotesOfParticipants(s.starts, s.ballots)
    ensures DecidedWell(s)
  {
    forall j | 0 <= j < |s.decisions|
      ensures DecidedOf(s, j)
      ensures s.decisions[j].wire.commit <==> ExactlyYes(s.starts[s.decisions[j].start].instance, s.ballots)
    {
      UnanimousExactly(s.starts[s.decisions[j].start].instance, s.ballots);
    }
  }

  /** No identifier is decided twice on the wire, and only participants' votes are recorded, one each; every
      decision carries the bytes of a start and has its grounds: commit exactly if the recorded votes are a
      "yes" of each distinct participant and nothing else, abort only after a recorded "no" or on a timeout
      with a vote missing. */
  lemma AtomicCommitSafety(sha: seq<Byte> -> InstanceId, labels: seq<Label>)
    requires HashSafe(sha, Run(sha, labels).starts)
    ensures var s := Run(sha, labels);
            OneVoteEach(s.ballots) && VotesOfParticipants(s.starts, s.ballots) && DecidedOnce(s) && DecidedWell(s)
  {
    RunIsGood(sha, labels);
    GoodVotes(Run(sha, labels));
    GoodDecidedOnce(Run(sha, labels));
    GoodDecidedWell(Run(sha, labels));
  }

  ghost predicate DecidedOf(s: Sys, j: nat)
    requires j < |s.decisions|
  {
    var d := s.decisions[j];
    && d.start < |s.starts|
    && d.wire.idBytes == s.starts[d.start].instance.id
    && Justified(s.starts[d.start].instance, d, s.ballots)
  }

  /** An instance is active exactly as long as it has no decision, and an active one still misses a vote. */
  lemma ActiveUntilDecided(sha: seq<Byte> -> InstanceId, labels: seq<Label>, k: nat)
    requires HashSafe(sha, Run(sha, labels).starts) && k < |Run(sha, labels).starts|
    ensures var s := Run(sha, labels);
            && (IsLive(s, k) <==> !IsDecided(s, k))
            && (IsLive(s, k) <==> Key(s.starts[k].instance) in s.st.active)
            && (IsLive(s, k) ==> !Unanimous(s.starts[k].instance, s.ballots))
  {
    RunIsGood(sha, labels);
    var s := Run(sha, labels);
    var key := Key(s.starts[k].instance);
    if IsLive(s, k) {
      var x :| x in s.live && s.live[x] == k;
      SomeVoteMissing(s.starts[k].instance, s.st.active[x], s.ballots);
      var c :| c in ChainsOf(s.starts[k].instance.request) && Missing(s.starts[k].instance, c, s.ballots);
      assert Ballot(key, c, true) !in s.ballots;
    }
    if key in s.st.active {
      assert Key(s.starts[s.live[key]].instance) == key;
      assert s.live[key] == k;
    }
  }

  // ---- Conservation ----

  ghost predicate IsActiveTicket(s: Sys, t: nat) {
    exists k :: 0 <= k < |s.starts| && s.starts[k].ticket == t && IsLive(s, k)
  }

  ghost predicate IsDecidedTicket(s: Sys, t: nat) {
    exists k :: 0 <= k < |s.starts| && s.starts[k].ticket == t && IsDecided(s, k)
  }

  function One(b: bool): nat {
    if b then 1 else 0
  }

  /** Every request spanning two chains is at each moment in exactly one of the four places, none is lost or
      duplicated, and the queue is bounded. */
  lemma RequestsConserved(sha: seq<Byte> -> InstanceId, labels: seq<Label>)
    requires HashSafe(sha, Run(sha, labels).starts)
    ensures var s := Run(sha, labels);
            && (forall t: nat :: t < |s.submitted| ==>
                  One(t in s.rejected) + One(t in s.tickets) +
                  One(IsActiveTicket(s, t)) + One(IsDecidedTicket(s, t)) == 1)
            && QueueInOrder(s) && StartsServe(s)
            && |s.submitted| == |s.rejected| + |s.st.queue| + |s.st.active| + |s.decisions|
            && |s.st.queue| <= 100
  {
    RunIsGood(sha, labels);
    var s := Run(sha, labels);
    assert |s.st.active| == |s.st.active.Keys| == |s.live.Keys| == |s.live|;
    forall t: nat | t < |s.submitted|
      ensures One(t in s.rejected) + One(t in s.tickets) + One(IsActiveTicket(s, t)) + One(IsDecidedTicket(s, t)) == 1
    {
      OnePlaceOnly(sha, s, t);
    }
  }

  lemma OnePlaceOnly(sha: seq<Byte> -> InstanceId, s: Sys, t: nat)
    requires Core(sha, s) && TicketsOk(s) && t < |s.submitted|
    ensures One(t in s.rejected) + One(t in s.tickets) + One(IsActiveTicket(s, t)) + One(IsDecidedTicket(s, t)) == 1
  {
  }

  // ---- No lost wake-up ----

  /** If a queued entry could start then a task is draining; so whenever no task is, every queued entry is
      blocked by an active transaction that shares one of its chains. */
  lemma NoLostWakeUp(sha: seq<Byte> -> InstanceId, labels: seq<Label>, k: nat)
    requires HashSafe(sha, Run(sha, labels).starts) && k < |Run(sha, labels).st.queue|
    ensures var s := Run(sha, labels);
            s.drainers > 0 || exists x, c :: x in s.st.active && c in s.st.active[x].chains && c in s.st.queue[k].chains
  {
    RunIsGood(sha, labels);
    var s := Run(sha, labels);
    OverlapMeansShared(s.st, s.st.queue[k].chains);
  }

  /** A draining task runs out of work: each of its steps shortens the queue or ends the task. */
  lemma DrainTerminates(sha: seq<Byte> -> InstanceId, s: Sys, now: nat)
    requires Paired(s) && s.drainers > 0
    ensures var s' := DrainStep(sha, s, now);
            |s'.st.queue| + s'.drainers == |s.st.queue| + s.drainers - 1
  {
  }

  ghost predicate AllExpired(st: State, now: nat, timeout: nat) {
    forall x :: x in st.active ==> Elapsed(now, st.active[x].startTime) >= timeout
  }

  lemma ReapAll(s: Sys, now: nat, timeout: nat, order: seq<string>)
    requires Paired(s) && IterationOrder(s.st, now, timeout, order) && AllExpired(s.st, now, timeout)
    requires s.st.active != map[]
    ensures var s' := ReapStep(s, now, timeout, order);
            s'.drainers == s.drainers + 1 && s'.st.active == map[]
  {
    assert Expired(s.st, now, timeout) == s.st.active.Keys;
    var x :| x in s.st.active;
    assert x in Elems(order);
    DropEachTable(s.st, order);
    assert s.st.active - s.st.active.Keys == map[];
  }

  /** With no drainer and a waiting entry some transaction is active, so reaping when all time is up leaves
      a drainer behind. */
  lemma TimeoutResumesDrain(sha: seq<Byte> -> InstanceId, labels: seq<Label>, now: nat, timeout: nat,
                            order: seq<string>)
    requires HashSafe(sha, Run(sha, labels).starts)
    requires Run(sha, labels).drainers == 0 && Run(sha, labels).st.queue != []
    requires IterationOrder(Run(sha, labels).st, now, timeout, order) && AllExpired(Run(sha, labels).st, now, timeout)
    ensures var s' := ReapStep(Run(sha, labels), now, timeout, order);
            s'.drainers == 1 && s'.st.active == map[]
  {
    NoLostWakeUp(sha, labels, 0);
    ReapAll(Run(sha, labels), now, timeout, order);
  }

  // ---- Order ----

  /** The queue's discipline does not depend on the hash. */
  lemma {:induction false} RunKeepsQueue(sha: seq<Byte> -> InstanceId, labels: seq<Label>)
    ensures Awake(Run(sha, labels)) && TicketsOk(Run(sha, labels)) && NoOvertaking(Run(sha, labels))
  {
    if labels != [] {
      var s, l := Run(sha, labels[..|labels| - 1]), labels[|labels| - 1];
      RunKeepsQueue(sha, labels[..|labels| - 1]);
      RunNumbers(sha, labels[..|labels| - 1]);
      StepKeepsAwake(sha, s, l);
      StepKeepsTickets(sha, s, l);
      StepKeepsOrder(sha, s, l);
    }
  }

  /** Among requests that waited, none is overtaken by a later one that needs all of its chains. */
  lemma WaitingOrder(sha: seq<Byte> -> InstanceId, labels: seq<Label>)
    ensures NoOvertaking(Run(sha, labels))
  {
    RunKeepsQueue(sha, labels);
  }

  lemma DirectStartOvertakes(s: Sys, request: XtRequest, i: nat)
    requires Paired(s) && Awake(s) && i < |s.st.queue|
    requires !Overlaps(s.st.index, ChainsOf(request)) && Covers(s.st.queue[i].chains, ChainsOf(request))
    ensures s.drainers > 0
  {
    if Overlaps(s.st.index, s.st.queue[i].chains) {
      BlockedNotCovered(s.st.index, s.st.queue[i].chains, ChainsOf(request));
    }
  }

  /** The start a drain step makes, if it makes one, is that of the first ready entry. */
  lemma DrainStartIs(sha: seq<Byte> -> InstanceId, s: Sys, now: nat)
    requires Paired(s) && |DrainStep(sha, s, now).starts| > |s.starts|
    ensures var f, start := FirstReady(s.st.index, s.st.queue), DrainStep(sha, s, now).starts[|s.starts|];
            f < |s.st.queue| && start.ticket == s.tickets[f] && start.instance.request == s.st.queue[f].request
  {
    DrainCases(sha, s, now);
  }

  lemma DrainNeverOvertakes(sha: seq<Byte> -> InstanceId, s: Sys, now: nat, i: nat)
    requires QueueInOrder(s) && i < |s.tickets| && |DrainStep(sha, s, now).starts| > |s.starts|
    requires forall j :: 0 <= j < |s.st.queue| ==> EntryOk(s.st.queue[j])
    requires s.tickets[i] < DrainStep(sha, s, now).starts[|s.starts|].ticket
    ensures !Covers(s.st.queue[i].chains, ChainsOf(DrainStep(sha, s, now).starts[|s.starts|].instance.request))
  {
    DrainStartIs(sha, s, now);
    var f := FirstReady(s.st.index, s.st.queue);
    EarlierTicket(s, i, f);
    assert EntryOk(s.st.queue[f]);
    FirstReadyCoversNoEarlier(s.st.index, s.st.queue, i);
  }

  lemma EarlierTicket(s: Sys, i: nat, f: nat)
    requires QueueInOrder(s) && i < |s.tickets| && f < |s.tickets| && s.tickets[i] < s.tickets[f]
    ensures i < f
  {
  }

  /** The start made by the step overtakes the waiting entry `i` although it needs all of its chains. */
  ghost predicate Overtakes(sha: seq<Byte> -> InstanceId, s: Sys, l: Label, i: nat)
    requires Paired(s)
  {
    var s' := Step(sha, s, l);
    && |s'.starts| > |s.starts| && i < |s.tickets|
    && s.tickets[i] < s'.starts[|s.starts|].ticket
    && Covers(s.st.queue[i].chains, ChainsOf(s'.starts[|s.starts|].instance.request))
  }

  lemma OvertakingStep(sha: seq<Byte> -> InstanceId, s: Sys, l: Label, i: nat)
    requires Paired(s) && Awake(s) && QueueInOrder(s) && Overtakes(sha, s, l, i)
    requires forall j :: 0 <= j < |s.st.queue| ==> EntryOk(s.st.queue[j])
    ensures l.Request? && s.drainers > 0
  {
    match l
    case Request(request, now) => DirectStartOvertakes(s, request, i);
    case Vote(idBytes, chain, vote) =>
    case Reap(now, timeout, order) => TimeOutEachFrame(s, order);
    case Drain(now) => DrainNeverOvertakes(sha, s, now, i);
    case AdvancePeriod =>
  }

  /** While a waiting entry is blocked, whatever starts leaves one of its chains alone. */
  lemma BlockedNotOvertaken(sha: seq<Byte> -> InstanceId, s: Sys, l: Label, i: nat)
    requires Paired(s) && Awake(s) && QueueInOrder(s) && Overtakes(sha, s, l, i)
    requires forall j :: 0 <= j < |s.st.queue| ==> EntryOk(s.st.queue[j])
    ensures !Overlaps(s.st.index, s.st.queue[i].chains)
  {
    OvertakingStep(sha, s, l, i);
    if Overlaps(s.st.index, s.st.queue[i].chains) {
      BlockedNotCovered(s.st.index, s.st.queue[i].chains, ChainsOf(l.request));
    }
  }

  /** A waiting entry whose chains are free is overtaken by a further copy of its own request. */
  lemma FreeIsOvertaken(sha: seq<Byte> -> InstanceId, s: Sys, i: nat)
    requires QueueInOrder(s) && i < |s.st.queue| && EntryOk(s.st.queue[i])
    requires !Overlaps(s.st.index, s.st.queue[i].chains)
    ensures Overtakes(sha, s, Request(s.st.queue[i].request, 0), i)
  {
    var s' := Step(sha, s, Request(s.st.queue[i].request, 0));
    assert s' == StartAtOnce(sha, s, s.st.queue[i].request, 0);
    assert s'.starts[|s.starts|].ticket == |s.submitted|;
  }

  /** In every reachable state some next step overtakes the waiting entry, with a start that needs all of its
      chains, exactly when the entry overlaps no active chain; the step is then a newly arrived request, and a
      drain is pending. */
  lemma OvertakingExactly(sha: seq<Byte> -> InstanceId, labels: seq<Label>, i: nat)
    requires i < |Run(sha, labels).st.queue|
    ensures var s := Run(sha, labels);
            && ((exists l :: Overtakes(sha, s, l, i)) <==> !Overlaps(s.st.index, s.st.queue[i].chains))
            && (forall l :: Overtakes(sha, s, l, i) ==> l.Request? && s.drainers > 0)
  {
    RunKeepsQueue(sha, labels);
    RunNumbers(sha, labels);
    var s := Run(sha, labels);
    forall l | Overtakes(sha, s, l, i)
      ensures l.Request? && s.drainers > 0 && !Overlaps(s.st.index, s.st.queue[i].chains)
    {
      OvertakingStep(sha, s, l, i);
      BlockedNotOvertaken(sha, s, l, i);
    }
    if !Overlaps(s.st.index, s.st.queue[i].chains) {
      FreeIsOvertaken(sha, s, i);
    }
  }

  /** One instance of `request` is active and nothing else has happened, but for `waiting` copies queued. */
  ghost predicate OneActive(sha: seq<Byte> -> InstanceId, s: Sys, request: XtRequest, waiting: nat) {
    var id := sha(Preimage(0, 1, request));
    && s.st.active == map[Hex(id) := ActiveXt(ChainsOf(request), map[], id, 0)]
    && s.st.index == Reserve(map[], Hex(id), ChainsOf(request))
    && |s.starts| == 1 && |s.submitted| == 1 + waiting && |s.tickets| == |s.st.queue| == waiting
    && (forall i :: 0 <= i < waiting ==>
          s.tickets[i] == 1 + i && s.st.queue[i] == PendingEntry(request, ChainsOf(request)))
  }

  lemma FirstStarts(sha: seq<Byte> -> InstanceId, request: XtRequest)
    requires |ChainsOf(request)| >= 2
    ensures OneActive(sha, Submit(sha, Begin(), request, 0), request, 0)
  {
  }

  lemma SecondWaits(sha: seq<Byte> -> InstanceId, s: Sys, request: XtRequest)
    requires |ChainsOf(request)| >= 2 && OneActive(sha, s, request, 0)
    ensures OneActive(sha, Submit(sha, s, request, 0), request, 1)
  {
    assert ChainsOf(request)[0] in s.st.index;
  }

  lemma NoVoteFreesAll(sha: seq<Byte> -> InstanceId, s: Sys, request: XtRequest, c: ChainId)
    requires OneActive(sha, s, request, 1) && c in ChainsOf(request)
    ensures var s' := Cast(s, sha(Preimage(0, 1, request)), c, false);
            s'.st.index == map[] && s'.starts == s.starts && s'.submitted == s.submitted && s'.tickets == s.tickets
            && s'.st.queue == s.st.queue
  {
    var key := Hex(sha(Preimage(0, 1, request)));
    RecordVoteTable(s.st, key, c, false);
    assert Drop(s.st, key).index == map[];
  }

  /** Such overtaking does happen: a third copy of a request starts ahead of the second one, which has been
      waiting, when it arrives between a "no" vote and the drain that follows. */
  lemma OvertakingHappens(sha: seq<Byte> -> InstanceId, request: XtRequest, c: ChainId)
    requires |ChainsOf(request)| >= 2 && c in ChainsOf(request)
    ensures var l := Request(request, 0);
            Overtakes(sha, Run(sha, [l, l, Vote(sha(Preimage(0, 1, request)), c, false)]), l, 0)
  {
    var l := Request(request, 0);
    var v := Vote(sha(Preimage(0, 1, request)), c, false);
    var s1 := Submit(sha, Begin(), request, 0);
    var s2 := Submit(sha, s1, request, 0);
    FirstStarts(sha, request);
    SecondWaits(sha, s1, request);
    NoVoteFreesAll(sha, s2, request, c);
    var s3 := Step(sha, s2, v);
    RunOfThree(sha, l, l, v);
    assert !Overlaps(s3.st.index, ChainsOf(request));
    assert Step(sha, s3, l) == StartAtOnce(sha, s3, request, 0);
  }

  lemma RunSnoc(sha: seq<Byte> -> InstanceId, labels: seq<Label>, l: Label)
    ensures Run(sha, labels + [l]) == Step(sha, Run(sha, labels), l)
  {
  }

  lemma RunOfThree(sha: seq<Byte> -> InstanceId, a: Label, b: Label, c: Label)
    ensures Run(sha, [a, b, c]) == Step(sha, Step(sha, Step(sha, Begin(), a), b), c)
  {
    RunSnoc(sha, [], a);
    RunSnoc(sha, [a], b);
    RunSnoc(sha, [a, b], c);
    assert [] + [a] == [a] && [a] + [b] == [a, b] && [a, b] + [c] == [a, b, c];
  }

  /** A draining task left to itself. */
  function DrainAlone(sha: seq<Byte> -> InstanceId, s: Sys, clock: nat -> nat, i: nat): Sys
    requires Paired(s)
    decreases |s.st.queue| + s.drainers
  {
    if s.drainers == 0 then s else DrainAlone(sha, DrainStep(sha, s, clock(i)), clock, i + 1)
  }

  /** A single drainer that is not interrupted ends, and leaves what the greedy pass leaves. */
  lemma {:induction false} LoneDrainIsGreedy(sha: seq<Byte> -> InstanceId, s: Sys, clock: nat -> nat, i: nat)
    requires Paired(s) && s.drainers == 1
    ensures var s' := DrainAlone(sha, s, clock, i);
            && s'.drainers == 0
            && s'.st == GreedyDrain.DrainAll(sha, s.st, clock, i)
            && s'.st.queue == GreedyDrain.Leftover(s.st.index.Keys, s.st.queue)
    decreases |s.st.queue|
  {
    var k := FirstReady(s.st.index, s.st.queue);
    GreedyDrain.DrainIsGreedy(sha, s.st, clock, i);
    if k < |s.st.queue| {
      var next := StartQueued(sha, s, k, clock(i));
      assert next.st == StartEntry(sha, s.st, k, clock(i));
      LoneDrainIsGreedy(sha, next, clock, i + 1);
    } else {
      assert DrainAlone(sha, s.(drainers := 0), clock, i + 1) == s.(drainers := 0);
    }
  }

  lemma NothingActiveNothingReserved(st: State)
    requires Inv(st)
    ensures st.active == map[] ==> st.index == map[]
  {
  }

  lemma ReapKeepsQueue(s: Sys, now: nat, timeout: nat, order: seq<string>)
    requires Paired(s)
    ensures ReapStep(s, now, timeout, order).st.queue == s.st.queue
  {
    TimeOutEachFrame(s, order);
  }

  lemma FirstAlwaysFits(queue: seq<PendingEntry>)
    requires queue != []
    ensures |GreedyDrain.Leftover({}, queue)| < |queue|
  {
    assert GreedyDrain.Free({}, queue[0]);
    GreedyDrain.LeftoverNoLonger({} + Elems(queue[0].chains), queue[1..]);
  }

  /** Progress by timeout: from a reachable state with entries waiting and nobody draining, reaping when all
      time is up and the drain that follows, without interference, leave strictly fewer entries waiting. */
  lemma TimeoutShortensQueue(sha: seq<Byte> -> InstanceId, labels: seq<Label>, now: nat, timeout: nat,
                             order: seq<string>, clock: nat -> nat)
    requires HashSafe(sha, Run(sha, labels).starts)
    requires Run(sha, labels).drainers == 0 && Run(sha, labels).st.queue != []
    requires IterationOrder(Run(sha, labels).st, now, timeout, order) && AllExpired(Run(sha, labels).st, now, timeout)
    ensures var s := Run(sha, labels);
            var s' := DrainAlone(sha, ReapStep(s, now, timeout, order), clock, 0);
            s'.drainers == 0 && |s'.st.queue| < |s.st.queue|
  {
    TimeoutResumesDrain(sha, labels, now, timeout, order);
    ReapedState(sha, labels, now, timeout, order);
    IdleDrainShortens(sha, ReapStep(Run(sha, labels), now, timeout, order), clock);
  }

  lemma ReapedState(sha: seq<Byte> -> InstanceId, labels: seq<Label>, now: nat, timeout: nat, order: seq<string>)
    requires HashSafe(sha, Run(sha, labels).starts)
    ensures var s' := ReapStep(Run(sha, labels), now, timeout, order);
            (s'.st.active == map[] ==> s'.st.index == map[]) && s'.st.queue == Run(sha, labels).st.queue
  {
    RunIsGood(sha, labels);
    ReapKeepsCore(sha, Run(sha, labels), now, timeout, order);
    NothingActiveNothingReserved(ReapStep(Run(sha, labels), now, timeout, order).st);
    ReapKeepsQueue(Run(sha, labels), now, timeout, order);
  }

  lemma IdleDrainShortens(sha: seq<Byte> -> InstanceId, s: Sys, clock: nat -> nat)
    requires Paired(s) && s.drainers == 1 && s.st.index == map[] && s.st.queue != []
    ensures var s' := DrainAlone(sha, s, clock, 0);
            s'.drainers == 0 && |s'.st.queue| < |s.st.queue|
  {
    assert s.st.index.Keys == {};
    LoneDrainIsGreedy(sha, s, clock, 0);
    FirstAlwaysFits(s.st.queue);
  }

  // ---- Identifiers ----

  /** In commit order the (period, sequence) pairs increase strictly and run without gaps from 1 in each
      period, so any two starts hash different bytes, even for identical requests. */
  lemma IdentifiersFresh(sha: seq<Byte> -> InstanceId, labels: seq<Label>, i: nat, j: nat)
    requires i < j < |Run(sha, labels).starts|
    ensures var s := Run(sha, labels); var a, b := s.starts[i].instance, s.starts[j].instance;
            && LexBelow(a, b)
            && (j == i + 1 ==> (if b.period == a.period then b.seqNum == a.seqNum + 1 else b.seqNum == 1))
            && s.starts[0].instance.seqNum == 1
            && (b.period < U64_BOUND && a.seqNum < U64_BOUND && b.seqNum < U64_BOUND ==> Hashed(a) != Hashed(b))
  {
    RunNumbers(sha, labels);
    var s := Run(sha, labels);
    var a, b := s.starts[i].instance, s.starts[j].instance;
    StartsIncrease(s.starts, s.st.period, s.st.nextSeq, i, j);
    if b.period < U64_BOUND && a.seqNum < U64_BOUND && b.seqNum < U64_BOUND && Hashed(a) == Hashed(b) {
      PreimageFixesPosition(a.period, a.seqNum, a.request, b.period, b.seqNum, b.request);
    }
    if j == i + 1 {
      assert Follows(s.starts[j - 1].instance, b.period, b.seqNum);
    }
  }
}
