/** The coordinator's starts, decisions and period changes are, event for event, a run of the SBCP
    publisher without rollbacks and with the proof window disabled. */
module Refinement {
  import opened Spec
  import opened Encoding
  import opened CoordinatorModel
  import opened CoordinatorRuns
  import CT = CoordinatorTheorems
  import PC = ProofCollection
  import PM = PublisherModel
  import PR = PublisherRuns
  import SM = SequencerModel

  /** The publisher call for one event.  It has to succeed, and a start has to yield the very instance the
      coordinator broadcast. */
  function Apply(sha: seq<Byte> -> InstanceId, starts: seq<Start>, e: Event, p: PM.PublisherState):
    Option<PM.PublisherState>
  {
    match e
    case Began(k) =>
      if k >= |starts| then None
      else
        var r := PM.StartInstance(sha, p, starts[k].instance.request);
        if r.Ok? && r.value.instance == starts[k].instance then Some(r.value.next) else None
    case Ended(k) =>
      if k >= |starts| then None
      else
        var r := PM.DecideInstance(p, starts[k].instance);
        if r.Ok? then Some(r.value) else None
    case PeriodBegan(n) =>
      var r := PM.StartPeriod(p);
      if r.Ok? && r.value.period == n then Some(r.value) else None
  }

  /** All events of a log, in commit order. */
  function Replay(sha: seq<Byte> -> InstanceId, starts: seq<Start>, log: seq<Event>, p: PM.PublisherState):
    Option<PM.PublisherState>
  {
    if log == [] then Some(p)
    else
      var r := Replay(sha, starts, log[..|log| - 1], p);
      if r.None? then None else Apply(sha, starts, log[|log| - 1], r.value)
  }

  /** Same period and counter, same busy chains. */
  ghost predicate Matches(st: State, p: PM.PublisherState) {
    && p.period == st.period && p.seqNum + 1 == st.nextSeq && p.window == 0
    && p.activeChains.Keys == st.index.Keys
    && (forall c :: c in p.activeChains ==> p.activeChains[c])
  }

  ghost predicate WithinStarts(starts: seq<Start>, log: seq<Event>) {
    forall i :: 0 <= i < |log| ==> (log[i].Began? || log[i].Ended?) ==> log[i].start < |starts|
  }

  ghost predicate Simulated(sha: seq<Byte> -> InstanceId, s: Sys, p0: PM.PublisherState) {
    && WithinStarts(s.starts, s.log)
    && Replay(sha, s.starts, s.log, p0).Some?
    && Matches(s.st, Replay(sha, s.starts, s.log, p0).value)
  }

  lemma {:induction false} ReplayPrefix(sha: seq<Byte> -> InstanceId, starts: seq<Start>, start: Start,
                                        log: seq<Event>, p: PM.PublisherState)
    requires WithinStarts(starts, log)
    ensures Replay(sha, starts + [start], log, p) == Replay(sha, starts, log, p)
  {
    if log != [] {
      ReplayPrefix(sha, starts, start, log[..|log| - 1], p);
      assert forall k :: 0 <= k < |starts| ==> (starts + [start])[k] == starts[k];
    }
  }

  lemma ReplaySnoc(sha: seq<Byte> -> InstanceId, starts: seq<Start>, log: seq<Event>, e: Event, p: PM.PublisherState)
    requires Replay(sha, starts, log, p).Some?
    ensures Replay(sha, starts, log + [e], p) == Apply(sha, starts, e, Replay(sha, starts, log, p).value)
  {
  }

  // ---- One event at a time ----

  lemma StartMatches(sha: seq<Byte> -> InstanceId, st: State, p: PM.PublisherState, request: XtRequest, now: nat)
    requires Matches(st, p) && |ChainsOf(request)| >= 2 && !Overlaps(st.index, ChainsOf(request))
    ensures var r := PM.StartInstance(sha, p, request);
            && r.Ok? && r.value.instance == NextInstance(sha, st, request)
            && Matches(Prepare(sha, st, request, ChainsOf(request), now), r.value.next)
  {
    var chains := ChainsOf(request);
    forall c | c in chains
      ensures c !in p.activeChains
    {
      assert c !in st.index.Keys;
    }
    var active := PM.Activate(p.activeChains, chains);
    assert active.Keys == p.activeChains.Keys + Elems(chains);
    assert Reserve(st.index, Key(NextInstance(sha, st, request)), chains).Keys == st.index.Keys + Elems(chains);
  }

  lemma DecideMatches(st: State, p: PM.PublisherState, key: string, instance: Instance, st': State)
    requires Matches(st, p) && Agrees(st.active, st.index) && key in st.active
    requires LinkedTo(instance, key, st.active[key])
    requires st'.index == Drop(st, key).index && st'.period == st.period && st'.nextSeq == st.nextSeq
    ensures PM.DecideInstance(p, instance).Ok? && Matches(st', PM.DecideInstance(p, instance).value)
  {
    var chains := st.active[key].chains;
    forall c | c in chains
      ensures c in p.activeChains
    {
      assert c in st.index && st.index[c] == key;
      assert c in p.activeChains.Keys;
    }
    forall c | c in st.index
      ensures c in st'.index <==> c !in chains
    {
      assert c in chains ==> st.index[c] == key;
    }
    var p' := PM.DecideInstance(p, instance).value;
    assert p'.activeChains.Keys == st'.index.Keys;
  }

  // ---- Steps ----

  lemma LaunchSimulated(sha: seq<Byte> -> InstanceId, s: Sys, p0: PM.PublisherState, ticket: nat, viaQueue: bool,
                        request: XtRequest, now: nat)
    requires Simulated(sha, s, p0) && |ChainsOf(request)| >= 2 && !Overlaps(s.st.index, ChainsOf(request))
    ensures Simulated(sha, Launch(sha, s, ticket, viaQueue, request, ChainsOf(request), now), p0)
  {
    var s' := Launch(sha, s, ticket, viaQueue, request, ChainsOf(request), now);
    var start := s'.starts[|s.starts|];
    assert s'.starts == s.starts + [start] && start.instance == NextInstance(sha, s.st, request);
    ReplayPrefix(sha, s.starts, start, s.log, p0);
    ReplaySnoc(sha, s'.starts, s.log, Began(|s.starts|), p0);
    StartMatches(sha, s.st, Replay(sha, s.starts, s.log, p0).value, request, now);
  }

  lemma CloseSimulated(sha: seq<Byte> -> InstanceId, s: Sys, s1: Sys, p0: PM.PublisherState, key: string,
                       wire: Decided, timedOut: bool)
    requires Simulated(sha, s, p0) && Linked(s) && Agrees(s.st.active, s.st.index) && key in s.st.active
    requires s1.starts == s.starts && s1.log == s.log && s1.live == s.live
    requires s1.st.index == Drop(s.st, key).index && s1.st.period == s.st.period && s1.st.nextSeq == s.st.nextSeq
    ensures Simulated(sha, Close(s1, key, wire, timedOut), p0)
  {
    assert key in s.live;
    var k := s.live[key];
    ReplaySnoc(sha, s.starts, s.log, Ended(k), p0);
    DecideMatches(s.st, Replay(sha, s.starts, s.log, p0).value, key, s.starts[k].instance, s1.st);
  }

  lemma IdleSimulated(sha: seq<Byte> -> InstanceId, s: Sys, s': Sys, p0: PM.PublisherState)
    requires Simulated(sha, s, p0) && s'.starts == s.starts && s'.log == s.log
    requires s'.st.index == s.st.index && s'.st.period == s.st.period && s'.st.nextSeq == s.st.nextSeq
    ensures Simulated(sha, s', p0)
  {
  }

  lemma CastSimulated(sha: seq<Byte> -> InstanceId, s: Sys, p0: PM.PublisherState, idBytes: seq<Byte>, chain: ChainId,
                      vote: bool)
    requires Paired(s) && Simulated(sha, s, p0) && Linked(s) && Agrees(s.st.active, s.st.index)
    ensures Simulated(sha, Cast(s, idBytes, chain, vote), p0)
  {
    var key := Hex(idBytes);
    var s' := Cast(s, idBytes, chain, vote);
    if Counts(s.st, key, chain) {
      RecordVoteTable(s.st, key, chain, vote);
      var s1 := s.(st := RecordVote(s.st, key, chain, vote), ballots := s.ballots + [Ballot(key, chain, vote)]);
      var outcome := Outcome(s.st, key, chain, vote);
      if outcome.None? {
        IdleSimulated(sha, s, s', p0);
      } else {
        var wire := Decided(idBytes, outcome.value);
        CloseSimulated(sha, s, s1, p0, key, wire, false);
        IdleSimulated(sha, Close(s1, key, wire, false), s', p0);
      }
    }
  }

  lemma {:induction false} TimeOutEachSimulated(sha: seq<Byte> -> InstanceId, s: Sys, p0: PM.PublisherState,
                                                keys: seq<string>)
    requires Simulated(sha, s, p0) && Core(sha, s) && NoDup(keys) && Elems(keys) <= s.st.active.Keys
    ensures Simulated(sha, TimeOutEach(s, keys), p0)
  {
    if keys != [] {
      var init, key := keys[..|keys| - 1], keys[|keys| - 1];
      NextToExpire(s.st, keys);
      TimeOutEachSimulated(sha, s, p0, init);
      TimeOutEachKeepsCore(sha, s, init);
      TimeOutSimulated(sha, TimeOutEach(s, init), p0, key);
    }
  }

  lemma TimeOutSimulated(sha: seq<Byte> -> InstanceId, s: Sys, p0: PM.PublisherState, key: string)
    requires Simulated(sha, s, p0) && Linked(s) && Agrees(s.st.active, s.st.index) && key in s.st.active
    ensures Simulated(sha, TimeOut(s, key), p0)
  {
    CloseSimulated(sha, s, s.(st := Drop(s.st, key)), p0, key, Decided(s.st.active[key].idBytes, false), true);
  }

  lemma ReapSimulated(sha: seq<Byte> -> InstanceId, s: Sys, p0: PM.PublisherState, now: nat, timeout: nat,
                      order: seq<string>)
    requires Paired(s) && Simulated(sha, s, p0) && Core(sha, s)
    ensures Simulated(sha, ReapStep(s, now, timeout, order), p0)
  {
    if IterationOrder(s.st, now, timeout, order) && order != [] {
      assert Expired(s.st, now, timeout) <= s.st.active.Keys;
      TimeOutEachSimulated(sha, s, p0, order);
      IdleSimulated(sha, TimeOutEach(s, order), ReapStep(s, now, timeout, order), p0);
    }
  }

  lemma SubmitSimulated(sha: seq<Byte> -> InstanceId, s: Sys, p0: PM.PublisherState, request: XtRequest, now: nat)
    requires Paired(s) && Simulated(sha, s, p0)
    ensures Simulated(sha, Submit(sha, s, request, now), p0)
  {
    if |ChainsOf(request)| >= 2 && !Overlaps(s.st.index, ChainsOf(request)) {
      var s1 := s.(submitted := s.submitted + [request]);
      IdleSimulated(sha, s, s1, p0);
      LaunchSimulated(sha, s1, p0, |s.submitted|, false, request, now);
    } else {
      IdleSimulated(sha, s, Submit(sha, s, request, now), p0);
    }
  }

  lemma DrainSimulated(sha: seq<Byte> -> InstanceId, s: Sys, p0: PM.PublisherState, now: nat)
    requires Paired(s) && Simulated(sha, s, p0)
    requires forall i :: 0 <= i < |s.st.queue| ==> EntryOk(s.st.queue[i])
    ensures Simulated(sha, DrainStep(sha, s, now), p0)
  {
    var k := FirstReady(s.st.index, s.st.queue);
    if s.drainers > 0 && k < |s.st.queue| {
      assert EntryOk(s.st.queue[k]);
      IdleSimulated(sha, s, Dequeue(s, k), p0);
      LaunchSimulated(sha, Dequeue(s, k), p0, s.tickets[k], true, s.st.queue[k].request, now);
    } else {
      IdleSimulated(sha, s, DrainStep(sha, s, now), p0);
    }
  }

  lemma PeriodMatches(st: State, p: PM.PublisherState)
    requires Matches(st, p)
    ensures PM.StartPeriod(p).Ok? && PM.StartPeriod(p).value.period == st.period + 1
    ensures Matches(NewPeriod(st), PM.StartPeriod(p).value)
  {
  }

  lemma WithinSnoc(starts: seq<Start>, log: seq<Event>, e: Event)
    requires WithinStarts(starts, log) && (e.Began? || e.Ended? ==> e.start < |starts|)
    ensures WithinStarts(starts, log + [e])
  {
  }

  lemma NewPeriodSimulated(sha: seq<Byte> -> InstanceId, s: Sys, s': Sys, p0: PM.PublisherState)
    requires Simulated(sha, s, p0) && s'.starts == s.starts && s'.st == NewPeriod(s.st)
    requires s'.log == s.log + [PeriodBegan(s.st.period + 1)]
    ensures Simulated(sha, s', p0)
  {
    ReplaySnoc(sha, s.starts, s.log, PeriodBegan(s.st.period + 1), p0);
    WithinSnoc(s.starts, s.log, PeriodBegan(s.st.period + 1));
    PeriodMatches(s.st, Replay(sha, s.starts, s.log, p0).value);
  }

  lemma PeriodSimulated(sha: seq<Byte> -> InstanceId, s: Sys, p0: PM.PublisherState)
    requires Paired(s) && Simulated(sha, s, p0)
    ensures Simulated(sha, Step(sha, s, AdvancePeriod), p0)
  {
    NewPeriodSimulated(sha, s, Step(sha, s, AdvancePeriod), p0);
  }

  lemma StepSimulated(sha: seq<Byte> -> InstanceId, s: Sys, p0: PM.PublisherState, l: Label)
    requires Paired(s) && Simulated(sha, s, p0) && Core(sha, s)
    ensures Simulated(sha, Step(sha, s, l), p0)
  {
    match l
    case Request(request, now) => SubmitSimulated(sha, s, p0, request, now);
    case Vote(idBytes, chain, vote) => CastSimulated(sha, s, p0, idBytes, chain, vote);
    case Reap(now, timeout, order) => ReapSimulated(sha, s, p0, now, timeout, order);
    case Drain(now) => DrainSimulated(sha, s, p0, now);
    case AdvancePeriod => PeriodSimulated(sha, s, p0);
  }

  /** A publisher that has just been created for period 0 with the window disabled. */
  ghost predicate Initially(p0: PM.PublisherState) {
    p0.period == 0 && p0.seqNum == 0 && p0.window == 0 && p0.activeChains == map[]
  }

  /** Replaying any coordinator run's events on the publisher succeeds throughout, with identical instances,
      and ends with the same period, sequence number and busy chains. */
  lemma {:induction false} CoordinatorRefinesPublisher(sha: seq<Byte> -> InstanceId, labels: seq<Label>,
                                                       p0: PM.PublisherState)
    requires HashSafe(sha, Run(sha, labels).starts) && Initially(p0)
    ensures var s := Run(sha, labels);
            Replay(sha, s.starts, s.log, p0).Some? && Matches(s.st, Replay(sha, s.starts, s.log, p0).value)
    ensures Simulated(sha, Run(sha, labels), p0)
  {
    if labels == [] {
      assert Initial().index.Keys == p0.activeChains.Keys;
    } else {
      var before := labels[..|labels| - 1];
      CT.EarlierHashSafe(sha, labels);
      CoordinatorRefinesPublisher(sha, before, p0);
      CT.RunIsGood(sha, before);
      StepSimulated(sha, Run(sha, before), p0, labels[|labels| - 1]);
    }
  }

  // ---- Announced pairs ----

  /** The announcements of the coordinator's settlement part are those of the publisher. */
  ghost predicate SameAnnouncements(announced: seq<PC.Announced>, published: seq<PR.Announcement>) {
    |announced| == |published| && forall i :: 0 <= i < |announced| ==>
      published[i] == PR.Period(announced[i].period, announced[i].superblock)
  }

  /** The refinement above is about periods and instances.  The superblock number announced with a period is the
      one after the last finalized one in the coordinator, and one more than last time in the publisher.  So the
      announcements agree, with a publisher created for period 0 and the same finalized number, exactly when one
      submission succeeds per period. */
  lemma AnnouncementsAgreeExactly(sha: seq<Byte> -> InstanceId, latest: Option<(nat, seq<Byte>)>, labels: seq<PC.Label>,
                                  p: PM.PublisherState, calls: seq<PR.Label>)
    requires NoDup(PC.Run(latest, labels).succeeded)
    requires p.period == 0 && p.target == PC.StartNumber(latest) && PR.Run(sha, p, calls).rollbacks == 0
    requires |PC.Run(latest, labels).announced| == |PR.Run(sha, p, calls).announced|
    ensures SameAnnouncements(PC.Run(latest, labels).announced, PR.Run(sha, p, calls).announced)
       <==> PC.OnePerPeriod(PC.Run(latest, labels).announced)
  {
    PC.LockstepExactly(latest, labels);
    PC.RunAnnounced(latest, labels);
    PR.RunAnnounces(sha, p, calls);
    AgreeMeansLockstep(p, PC.Run(latest, labels).announced, PR.Run(sha, p, calls));
  }

  lemma AgreeMeansLockstep(p: PM.PublisherState, announced: seq<PC.Announced>, s: PR.Sys)
    requires p.period == 0 && s.rollbacks == 0 && PR.AnnouncedInStep(p, s) && |announced| == |s.announced|
    ensures SameAnnouncements(announced, s.announced) <==> PC.InLockstep(p.target, announced)
  {
    if SameAnnouncements(announced, s.announced) {
      forall i | 0 <= i < |announced|
        ensures announced[i].period == i + 1 && announced[i].superblock == p.target + 1 + i
      {
        assert s.announced[i] == PR.Period(announced[i].period, announced[i].superblock);
      }
    }
  }

  // ---- Rollbacks ----

  /** A sequencer that has settled what L1 settled accepts a rollback sent by the coordinator exactly when it names the
      superblock settled for the sequencer and no submission had succeeded before: L1's hashes of different
      superblocks differ, and the coordinator goes on sending the one it started with. */
  lemma CoordinatorRollbackAcceptedExactly(latest: Option<(nat, seq<Byte>)>, labels: seq<PC.Label>, r: PC.RollbackSent,
                                           l1: nat -> seq<Byte>, q: SM.SequencerState, period: nat)
    requires r in PC.Run(latest, labels).rollbacks
    requires PC.StartHash(latest) == l1(PC.StartNumber(latest))
    requires forall n: nat :: n != PC.StartNumber(latest) ==> l1(n) != l1(PC.StartNumber(latest))
    requires q.settled.hash == l1(q.settled.superblock)
    ensures SM.Rollback(q, r.number, r.hash, period).Done? <==> r.number == q.settled.superblock && r.successes == 0
  {
    PC.RollbackHashIsFirst(latest, labels);
  }

  // ---- The log leaves nothing out ----

  function BeganIn(log: seq<Event>): seq<nat> {
    if log == [] then []
    else
      var e := log[|log| - 1];
      BeganIn(log[..|log| - 1]) + if e.Began? then [e.start] else []
  }

  function EndedIn(log: seq<Event>): seq<nat> {
    if log == [] then []
    else
      var e := log[|log| - 1];
      EndedIn(log[..|log| - 1]) + if e.Ended? then [e.start] else []
  }

  function PeriodsIn(log: seq<Event>): seq<nat> {
    if log == [] then []
    else
      var e := log[|log| - 1];
      PeriodsIn(log[..|log| - 1]) + if e.PeriodBegan? then [e.period] else []
  }

  lemma LogSnoc(log: seq<Event>, e: Event)
    ensures BeganIn(log + [e]) == BeganIn(log) + if e.Began? then [e.start] else []
    ensures EndedIn(log + [e]) == EndedIn(log) + if e.Ended? then [e.start] else []
    ensures PeriodsIn(log + [e]) == PeriodsIn(log) + if e.PeriodBegan? then [e.period] else []
  {
  }

  /** The log lists every start, every decision and every period, each once and in order. */
  ghost predicate Complete(s: Sys) {
    && BeganIn(s.log) == seq(|s.starts|, i => i)
    && EndedIn(s.log) == seq(|s.decisions|, i requires 0 <= i < |s.decisions| => s.decisions[i].start)
    && PeriodsIn(s.log) == seq(s.st.period, i => i + 1)
  }

  lemma LaunchComplete(sha: seq<Byte> -> InstanceId, s: Sys, ticket: nat, viaQueue: bool, request: XtRequest,
                       chains: seq<ChainId>, now: nat)
    requires Complete(s)
    ensures Complete(Launch(sha, s, ticket, viaQueue, request, chains, now))
  {
  }

  lemma CloseComplete(s: Sys, key: string, wire: Decided, timedOut: bool)
    requires Complete(s)
    ensures Complete(Close(s, key, wire, timedOut))
  {
  }

  lemma IdleComplete(s: Sys, s': Sys)
    requires Complete(s) && s'.log == s.log && s'.starts == s.starts && s'.decisions == s.decisions
    requires s'.st.period == s.st.period
    ensures Complete(s')
  {
  }

  lemma {:induction false} TimeOutEachComplete(s: Sys, keys: seq<string>)
    requires Complete(s)
    ensures Complete(TimeOutEach(s, keys))
  {
    if keys != [] {
      var init, key := keys[..|keys| - 1], keys[|keys| - 1];
      TimeOutEachComplete(s, init);
      var mid := TimeOutEach(s, init);
      var dropped := mid.(st := Drop(mid.st, key));
      IdleComplete(mid, dropped);
      var idBytes := if key in mid.st.active then mid.st.active[key].idBytes else [];
      CloseComplete(dropped, key, Decided(idBytes, false), true);
    }
  }

  lemma CastComplete(s: Sys, idBytes: seq<Byte>, chain: ChainId, vote: bool)
    requires Paired(s) && Complete(s)
    ensures Complete(Cast(s, idBytes, chain, vote))
  {
    var key := Hex(idBytes);
    if Counts(s.st, key, chain) {
      var s1 := s.(st := RecordVote(s.st, key, chain, vote), ballots := s.ballots + [Ballot(key, chain, vote)]);
      IdleComplete(s, s1);
      var outcome := Outcome(s.st, key, chain, vote);
      if outcome.Some? {
        CloseComplete(s1, key, Decided(idBytes, outcome.value), false);
        IdleComplete(Close(s1, key, Decided(idBytes, outcome.value), false), Cast(s, idBytes, chain, vote));
      }
    }
  }

  lemma SubmitComplete(sha: seq<Byte> -> InstanceId, s: Sys, request: XtRequest, now: nat)
    requires Paired(s) && Complete(s)
    ensures Complete(Submit(sha, s, request, now))
  {
    if |ChainsOf(request)| >= 2 && !Overlaps(s.st.index, ChainsOf(request)) {
      var s1 := s.(submitted := s.submitted + [request]);
      IdleComplete(s, s1);
      LaunchComplete(sha, s1, |s.submitted|, false, request, ChainsOf(request), now);
    } else {
      IdleComplete(s, Submit(sha, s, request, now));
    }
  }

  lemma DrainComplete(sha: seq<Byte> -> InstanceId, s: Sys, now: nat)
    requires Paired(s) && Complete(s)
    ensures Complete(DrainStep(sha, s, now))
  {
    var k := FirstReady(s.st.index, s.st.queue);
    if s.drainers > 0 && k < |s.st.queue| {
      IdleComplete(s, Dequeue(s, k));
      LaunchComplete(sha, Dequeue(s, k), s.tickets[k], true, s.st.queue[k].request, s.st.queue[k].chains, now);
    } else {
      IdleComplete(s, DrainStep(sha, s, now));
    }
  }

  lemma ReapComplete(s: Sys, now: nat, timeout: nat, order: seq<string>)
    requires Paired(s) && Complete(s)
    ensures Complete(ReapStep(s, now, timeout, order))
  {
    if IterationOrder(s.st, now, timeout, order) && order != [] {
      TimeOutEachComplete(s, order);
      IdleComplete(TimeOutEach(s, order), ReapStep(s, now, timeout, order));
    }
  }

  lemma PeriodComplete(s: Sys, s': Sys)
    requires Complete(s)
    requires s' == s.(st := NewPeriod(s.st), log := s.log + [PeriodBegan(s.st.period + 1)])
    ensures Complete(s')
  {
    LogSnoc(s.log, PeriodBegan(s.st.period + 1));
  }

  lemma StepComplete(sha: seq<Byte> -> InstanceId, s: Sys, l: Label)
    requires Paired(s) && Complete(s)
    ensures Complete(Step(sha, s, l))
  {
    match l
    case Request(request, now) => SubmitComplete(sha, s, request, now);
    case Vote(idBytes, chain, vote) => CastComplete(s, idBytes, chain, vote);
    case Reap(now, timeout, order) => ReapComplete(s, now, timeout, order);
    case Drain(now) => DrainComplete(sha, s, now);
    case AdvancePeriod => PeriodComplete(s, Step(sha, s, l));
  }

  lemma {:induction false} LogIsComplete(sha: seq<Byte> -> InstanceId, labels: seq<Label>)
    ensures Complete(Run(sha, labels))
  {
    if labels != [] {
      LogIsComplete(sha, labels[..|labels| - 1]);
      StepComplete(sha, Run(sha, labels[..|labels| - 1]), labels[|labels| - 1]);
    }
  }
}
