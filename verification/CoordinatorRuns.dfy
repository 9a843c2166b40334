/** Whole runs of the coordinator.  A step is one lock-held section of `handle_xt_request`, `handle_vote`,
    `drain_queue`, `reap_timed_out_xts` or `advance_period`; steps of different tasks interleave freely.
    `Sys` pairs the shared state with what the run has done so far. */
module CoordinatorRuns {
  import opened Spec
  import opened Encoding
  import opened InstanceIds
  import opened CoordinatorModel

  /** One `StartInstance`; `viaQueue` tells whether the request had to wait, `at` is the clock at the start. */
  datatype Start = Start(ticket: nat, viaQueue: bool, instance: Instance, at: nat)

  /** One recorded vote. */
  datatype Ballot = Ballot(key: string, chain: ChainId, vote: bool)

  /** One `Decided` broadcast for the start with the given position. */
  datatype Decision = Decision(start: nat, wire: Decided, timedOut: bool)

  /** Commit-order log: starts and decisions by position in `starts`, and period changes. */
  datatype Event = Began(start: nat) | Ended(start: nat) | PeriodBegan(period: nat)

  datatype Sys = Sys(
    st: State,
    drainers: nat,               // tasks between releasing chains and their drain finding nothing ready
    submitted: seq<XtRequest>,   // requests spanning two chains or more; the position is the ticket
    rejected: set<nat>,          // tickets refused because the queue was full
    tickets: seq<nat>,           // tickets of the queued entries, in queue order
    starts: seq<Start>,
    live: map<string, nat>,      // active key to position in `starts`
    ballots: seq<Ballot>,
    decisions: seq<Decision>,
    log: seq<Event>)

  datatype Label =
    | Request(request: XtRequest, now: nat)
    | Vote(idBytes: seq<Byte>, chain: ChainId, vote: bool)
    | Reap(now: nat, timeout: nat, order: seq<string>)   // `order` is the hash map's iteration order
    | Drain(now: nat)
    | AdvancePeriod

  function Begin(): Sys {
    Sys(Initial(), 0, [], {}, [], [], map[], [], [], [])
  }

  ghost predicate Paired(s: Sys) {
    |s.tickets| == |s.st.queue|
  }

  function Launch(sha: seq<Byte> -> InstanceId, s: Sys, ticket: nat, viaQueue: bool, request: XtRequest,
                  chains: seq<ChainId>, now: nat): (s': Sys)
    ensures s'.st.queue == s.st.queue && s'.tickets == s.tickets
  {
    var instance := NextInstance(sha, s.st, request);
    s.(st := Prepare(sha, s.st, request, chains, now),
       starts := s.starts + [Start(ticket, viaQueue, instance, now)],
       live := s.live[Key(instance) := |s.starts|],
       log := s.log + [Began(|s.starts|)])
  }

  function LiveStart(s: Sys, key: string): nat {
    if key in s.live then s.live[key] else |s.starts|
  }

  /** Records that the instance `key`, already dropped from the state, has been decided. */
  function Close(s: Sys, key: string, wire: Decided, timedOut: bool): (s': Sys)
    ensures s'.st == s.st && s'.tickets == s.tickets
  {
    s.(live := s.live - {key},
       decisions := s.decisions + [Decision(LiveStart(s, key), wire, timedOut)],
       log := s.log + [Ended(LiveStart(s, key))])
  }

  function TimeOut(s: Sys, key: string): (s': Sys)
    ensures s'.st == Drop(s.st, key) && s'.tickets == s.tickets
  {
    var idBytes := if key in s.st.active then s.st.active[key].idBytes else [];
    Close(s.(st := Drop(s.st, key)), key, Decided(idBytes, false), true)
  }

  function TimeOutEach(s: Sys, keys: seq<string>): (s': Sys)
    ensures s'.st == DropEach(s.st, keys)
    ensures s'.st.queue == s.st.queue && s'.tickets == s.tickets
  {
    if keys == [] then s else TimeOut(TimeOutEach(s, keys[..|keys| - 1]), keys[|keys| - 1])
  }

  /** The request waits, or is refused because the queue is full. */
  function Enqueue(s: Sys, request: XtRequest): (s': Sys)
    requires Paired(s)
    ensures Paired(s')
  {
    s.(st := s.st.(queue := s.st.queue + [PendingEntry(request, ChainsOf(request))]),
       submitted := s.submitted + [request], tickets := s.tickets + [|s.submitted|])
  }

  function Refuse(s: Sys, request: XtRequest): Sys {
    s.(submitted := s.submitted + [request], rejected := s.rejected + {|s.submitted|})
  }

  function StartAtOnce(sha: seq<Byte> -> InstanceId, s: Sys, request: XtRequest, now: nat): (s': Sys)
    ensures s'.st.queue == s.st.queue && s'.tickets == s.tickets
  {
    Launch(sha, s.(submitted := s.submitted + [request]), |s.submitted|, false, request, ChainsOf(request), now)
  }

  /** Taking entry `k` out of the queue, before it is started. */
  function Dequeue(s: Sys, k: nat): (s': Sys)
    requires Paired(s) && k < |s.st.queue|
    ensures Paired(s')
  {
    s.(st := s.st.(queue := Without(s.st.queue, k)), tickets := Without(s.tickets, k))
  }

  function StartQueued(sha: seq<Byte> -> InstanceId, s: Sys, k: nat, now: nat): (s': Sys)
    requires Paired(s) && k < |s.st.queue|
    ensures Paired(s')
  {
    Launch(sha, Dequeue(s, k), s.tickets[k], true, s.st.queue[k].request, s.st.queue[k].chains, now)
  }

  function Submit(sha: seq<Byte> -> InstanceId, s: Sys, request: XtRequest, now: nat): (s': Sys)
    requires Paired(s)
    ensures Paired(s')
  {
    var chains := ChainsOf(request);
    if |chains| < 2 then s
    else if !Overlaps(s.st.index, chains) then
      StartAtOnce(sha, s, request, now)
    else if |s.st.queue| >= MAX_PENDING_QUEUE_SIZE then Refuse(s, request)
    else Enqueue(s, request)
  }

  function Cast(s: Sys, idBytes: seq<Byte>, chain: ChainId, vote: bool): (s': Sys)
    requires Paired(s)
    ensures Paired(s')
  {
    var key := Hex(idBytes);
    if !Counts(s.st, key, chain) then s
    else
      var s1 := s.(st := RecordVote(s.st, key, chain, vote), ballots := s.ballots + [Ballot(key, chain, vote)]);
      match Outcome(s.st, key, chain, vote)
      case None => s1
      case Some(commit) => Close(s1, key, Decided(idBytes, commit), false).(drainers := s.drainers + 1)
  }

  ghost predicate IterationOrder(st: State, now: nat, timeout: nat, order: seq<string>) {
    NoDup(order) && Elems(order) == Expired(st, now, timeout)
  }

  ghost function ReapStep(s: Sys, now: nat, timeout: nat, order: seq<string>): (s': Sys)
    requires Paired(s)
    ensures Paired(s')
  {
    if !IterationOrder(s.st, now, timeout, order) || order == [] then s
    else TimeOutEach(s, order).(drainers := s.drainers + 1)
  }

  function DrainStep(sha: seq<Byte> -> InstanceId, s: Sys, now: nat): (s': Sys)
    requires Paired(s)
    ensures Paired(s')
  {
    if s.drainers == 0 then s
    else
      var k := FirstReady(s.st.index, s.st.queue);
      if k == |s.st.queue| then s.(drainers := s.drainers - 1)
      else StartQueued(sha, s, k, now)
  }

  ghost function Step(sha: seq<Byte> -> InstanceId, s: Sys, l: Label): (s': Sys)
    requires Paired(s)
    ensures Paired(s')
  {
    match l
    case Request(request, now) => Submit(sha, s, request, now)
    case Vote(idBytes, chain, vote) => Cast(s, idBytes, chain, vote)
    case Reap(now, timeout, order) => ReapStep(s, now, timeout, order)
    case Drain(now) => DrainStep(sha, s, now)
    case AdvancePeriod => s.(st := NewPeriod(s.st), log := s.log + [PeriodBegan(s.st.period + 1)])
  }

  /** The state after a whole run. */
  ghost function Run(sha: seq<Byte> -> InstanceId, labels: seq<Label>): (s: Sys)
    ensures Paired(s)
  {
    if labels == [] then Begin() else Step(sha, Run(sha, labels[..|labels| - 1]), labels[|labels| - 1])
  }

  /** On the shared state each step is the corresponding locked section. */
  lemma StepIsSection(sha: seq<Byte> -> InstanceId, s: Sys, l: Label)
    requires Paired(s)
    ensures Step(sha, s, l).st ==
            match l
            case Request(request, now) => Admit(sha, s.st, request, now)
            case Vote(idBytes, chain, vote) => RecordVote(s.st, Hex(idBytes), chain, vote)
            case Reap(now, timeout, order) =>
              if IterationOrder(s.st, now, timeout, order) then DropEach(s.st, order) else s.st
            case Drain(now) => if s.drainers > 0 then DrainOnce(sha, s.st, now) else s.st
            case AdvancePeriod => NewPeriod(s.st)
  {
  }

  // ---- What SHA-256 is trusted with ----

  /** The counters fit in 64 bits and the hash does not collide on the preimages of these starts. */
  ghost predicate HashSafe(sha: seq<Byte> -> InstanceId, starts: seq<Start>) {
    && (forall i :: 0 <= i < |starts| ==>
          starts[i].instance.period < U64_BOUND && starts[i].instance.seqNum < U64_BOUND)
    && (forall i, j :: 0 <= i < j < |starts| && Hashed(starts[i].instance) != Hashed(starts[j].instance) ==>
          sha(Hashed(starts[i].instance)) != sha(Hashed(starts[j].instance)))
  }

  lemma HashSafePrefix(sha: seq<Byte> -> InstanceId, starts: seq<Start>, all: seq<Start>)
    requires starts <= all && HashSafe(sha, all)
    ensures HashSafe(sha, starts)
  {
  }

  // ---- Identifiers are numbered without gaps ----

  ghost predicate Follows(a: Instance, period: nat, seqNum: nat) {
    (period == a.period && seqNum == a.seqNum + 1) || (period > a.period && seqNum == 1)
  }

  ghost predicate Numbered(starts: seq<Start>, period: nat, nextSeq: nat) {
    && (forall k :: 0 < k < |starts| ==>
          Follows(starts[k - 1].instance, starts[k].instance.period, starts[k].instance.seqNum))
    && (|starts| > 0 ==> starts[0].instance.seqNum == 1)
    && (if |starts| > 0 then Follows(starts[|starts| - 1].instance, period, nextSeq) else nextSeq == 1)
  }

  ghost predicate Genuine(sha: seq<Byte> -> InstanceId, starts: seq<Start>) {
    forall k :: 0 <= k < |starts| ==> starts[k].instance.id == sha(Hashed(starts[k].instance))
  }

  lemma {:induction false} StartsIncrease(starts: seq<Start>, period: nat, nextSeq: nat, i: nat, j: nat)
    requires Numbered(starts, period, nextSeq) && i < j < |starts|
    ensures LexBelow(starts[i].instance, starts[j].instance)
  {
    assert Follows(starts[j - 1].instance, starts[j].instance.period, starts[j].instance.seqNum);
    if i < j - 1 {
      StartsIncrease(starts, period, nextSeq, i, j - 1);
    }
  }

  ghost predicate KeysDistinct(starts: seq<Start>) {
    forall i, j :: 0 <= i < j < |starts| ==> Key(starts[i].instance) != Key(starts[j].instance)
  }

  lemma FreshKeys(sha: seq<Byte> -> InstanceId, starts: seq<Start>, period: nat, nextSeq: nat)
    requires Numbered(starts, period, nextSeq) && Genuine(sha, starts) && HashSafe(sha, starts)
    ensures KeysDistinct(starts)
  {
    forall i, j | 0 <= i < j < |starts|
      ensures Key(starts[i].instance) != Key(starts[j].instance)
    {
      var a, b := starts[i].instance, starts[j].instance;
      StartsIncrease(starts, period, nextSeq, i, j);
      if Hashed(a) == Hashed(b) {
        PreimageFixesPosition(a.period, a.seqNum, a.request, b.period, b.seqNum, b.request);
      }
      if Key(a) == Key(b) {
        HexInjective(a.id, b.id);
      }
    }
  }

  // ---- Starts and decisions ----

  /** Every active transaction is one start, with its identifier bytes and participants. */
  ghost predicate Linked(s: Sys) {
    && s.live.Keys == s.st.active.Keys
    && forall x :: x in s.live ==> s.live[x] < |s.starts| && LinkedTo(s.starts[s.live[x]].instance, x, s.st.active[x])
  }

  ghost predicate LinkedTo(instance: Instance, key: string, xt: ActiveXt) {
    Key(instance) == key && instance.id == xt.idBytes && ChainsOf(instance.request) == xt.chains
  }

  ghost predicate IsLive(s: Sys, k: nat) {
    exists x :: x in s.live && s.live[x] == k
  }

  ghost predicate IsDecided(s: Sys, k: nat) {
    exists j :: 0 <= j < |s.decisions| && s.decisions[j].start == k
  }

  /** Decisions name distinct starts, carry their identifier bytes, and each start is active or decided. */
  ghost predicate Settled(s: Sys) {
    && (forall j :: 0 <= j < |s.decisions| ==>
          && s.decisions[j].start < |s.starts|
          && s.decisions[j].wire.idBytes == s.starts[s.decisions[j].start].instance.id
          && !IsLive(s, s.decisions[j].start))
    && (forall i, j :: 0 <= i < j < |s.decisions| ==> s.decisions[i].start != s.decisions[j].start)
    && (forall k :: 0 <= k < |s.starts| ==> IsLive(s, k) || IsDecided(s, k))
  }

  /** The run-independent core of the invariant. */
  ghost predicate Core(sha: seq<Byte> -> InstanceId, s: Sys) {
    && Inv(s.st)
    && Numbered(s.starts, s.st.period, s.st.nextSeq)
    && Genuine(sha, s.starts)
    && KeysDistinct(s.starts)
    && Linked(s)
    && Settled(s)
  }

  lemma NumberedGrows(starts: seq<Start>, period: nat, nextSeq: nat, x: Start)
    requires Numbered(starts, period, nextSeq) && x.instance.period == period && x.instance.seqNum == nextSeq
    ensures Numbered(starts + [x], period, nextSeq + 1)
  {
    var all := starts + [x];
    assert forall k :: 0 <= k < |starts| ==> all[k] == starts[k];
    assert all[|starts|] == x;
  }

  lemma GenuineGrows(sha: seq<Byte> -> InstanceId, starts: seq<Start>, x: Start)
    requires Genuine(sha, starts) && x.instance.id == sha(Hashed(x.instance))
    ensures Genuine(sha, starts + [x])
  {
  }

  lemma LaunchNumbers(sha: seq<Byte> -> InstanceId, s: Sys, ticket: nat, viaQueue: bool, request: XtRequest, now: nat)
    requires Numbered(s.starts, s.st.period, s.st.nextSeq) && Genuine(sha, s.starts)
    ensures var s' := Launch(sha, s, ticket, viaQueue, request, ChainsOf(request), now);
            Numbered(s'.starts, s'.st.period, s'.st.nextSeq) && Genuine(sha, s'.starts)
  {
    var x := Start(ticket, viaQueue, NextInstance(sha, s.st, request), now);
    NumberedGrows(s.starts, s.st.period, s.st.nextSeq, x);
    GenuineGrows(sha, s.starts, x);
  }

  lemma LaunchKeepsLinked(sha: seq<Byte> -> InstanceId, s: Sys, ticket: nat, viaQueue: bool, request: XtRequest,
                          now: nat)
    requires Linked(s) && Key(NextInstance(sha, s.st, request)) !in s.live
    ensures Linked(Launch(sha, s, ticket, viaQueue, request, ChainsOf(request), now))
  {
  }

  lemma FreshKeyNotLive(s: Sys, start: Start)
    requires Linked(s) && KeysDistinct(s.starts + [start])
    ensures Key(start.instance) !in s.live
  {
    var key, all := Key(start.instance), s.starts + [start];
    assert all[|s.starts|] == start;
    forall x | x in s.live
      ensures x != key
    {
      assert all[s.live[x]] == s.starts[s.live[x]];
    }
  }

  /** The new start's key is fresh. */
  lemma LaunchIsFresh(sha: seq<Byte> -> InstanceId, s: Sys, ticket: nat, viaQueue: bool, request: XtRequest, now: nat)
    requires Numbered(s.starts, s.st.period, s.st.nextSeq) && Genuine(sha, s.starts) && Linked(s)
    requires HashSafe(sha, Launch(sha, s, ticket, viaQueue, request, ChainsOf(request), now).starts)
    ensures var s' := Launch(sha, s, ticket, viaQueue, request, ChainsOf(request), now);
            && Numbered(s'.starts, s'.st.period, s'.st.nextSeq) && Genuine(sha, s'.starts) && KeysDistinct(s'.starts)
            && Key(NextInstance(sha, s.st, request)) !in s.live
  {
    var s' := Launch(sha, s, ticket, viaQueue, request, ChainsOf(request), now);
    LaunchNumbers(sha, s, ticket, viaQueue, request, now);
    FreshKeys(sha, s'.starts, s'.st.period, s'.st.nextSeq);
    FreshKeyNotLive(s, Start(ticket, viaQueue, NextInstance(sha, s.st, request), now));
  }

  lemma LaunchHistory(sha: seq<Byte> -> InstanceId, s: Sys, ticket: nat, viaQueue: bool, request: XtRequest, now: nat)
    ensures var s' := Launch(sha, s, ticket, viaQueue, request, ChainsOf(request), now);
            && s'.st == Prepare(sha, s.st, request, ChainsOf(request), now)
            && s'.decisions == s.decisions && s'.live == s.live[Key(NextInstance(sha, s.st, request)) := |s.starts|]
            && |s'.starts| == |s.starts| + 1 && forall k :: 0 <= k < |s.starts| ==> s'.starts[k] == s.starts[k]
  {
  }

  lemma LaunchKeepsCore(sha: seq<Byte> -> InstanceId, s: Sys, ticket: nat, viaQueue: bool, request: XtRequest, now: nat)
    requires Core(sha, s)
    requires |ChainsOf(request)| >= 2 && !Overlaps(s.st.index, ChainsOf(request))
    requires HashSafe(sha, Launch(sha, s, ticket, viaQueue, request, ChainsOf(request), now).starts)
    ensures Core(sha, Launch(sha, s, ticket, viaQueue, request, ChainsOf(request), now))
  {
    var s' := Launch(sha, s, ticket, viaQueue, request, ChainsOf(request), now);
    LaunchIsFresh(sha, s, ticket, viaQueue, request, now);
    LaunchHistory(sha, s, ticket, viaQueue, request, now);
    PrepareKeepsInv(sha, s.st, request, now);
    LaunchKeepsLinked(sha, s, ticket, viaQueue, request, now);
    LaunchKeepsSettled(s, s', Key(NextInstance(sha, s.st, request)));
  }

  lemma LaunchKeepsSettled(s: Sys, s': Sys, key: string)
    requires Settled(s) && Linked(s) && key !in s.live
    requires s'.decisions == s.decisions && s'.live == s.live[key := |s.starts|]
    requires |s'.starts| == |s.starts| + 1 && forall k :: 0 <= k < |s.starts| ==> s'.starts[k] == s.starts[k]
    ensures Settled(s')
  {
    forall k | 0 <= k < |s'.starts|
      ensures IsLive(s', k) || IsDecided(s', k)
    {
      if k == |s.starts| {
        assert s'.live[key] == k;
      } else if IsLive(s, k) {
        var x :| x in s.live && s.live[x] == k;
        assert s'.live[x] == k;
      } else {
        var j :| 0 <= j < |s.decisions| && s.decisions[j].start == k;
        assert s'.decisions[j].start == k;
      }
    }
    forall j | 0 <= j < |s'.decisions|
      ensures !IsLive(s', s'.decisions[j].start)
    {
      assert !IsLive(s, s.decisions[j].start);
    }
  }

  /** Closing the live instance `key` after the state has dropped it. */
  lemma CloseKeepsSettled(s: Sys, key: string, wire: Decided, timedOut: bool)
    requires Settled(s) && key in s.live && s.live[key] < |s.starts|
    requires forall x, y :: x in s.live && y in s.live && s.live[x] == s.live[y] ==> x == y
    requires wire.idBytes == s.starts[s.live[key]].instance.id
    ensures Settled(Close(s, key, wire, timedOut))
  {
    var s' := Close(s, key, wire, timedOut);
    var n := |s.decisions|;
    assert forall j :: 0 <= j < n ==> s'.decisions[j] == s.decisions[j];
    assert s'.decisions[n].start == s.live[key];
    forall k | 0 <= k < |s'.starts|
      ensures IsLive(s', k) || IsDecided(s', k)
    {
      if IsLive(s, k) {
        var x :| x in s.live && s.live[x] == k;
        if x == key {
          assert s'.decisions[n].start == k;
        } else {
          assert s'.live[x] == k;
        }
      } else {
        var j :| 0 <= j < n && s.decisions[j].start == k;
        assert s'.decisions[j].start == k;
      }
    }
    forall j | 0 <= j <= n
      ensures !IsLive(s', s'.decisions[j].start)
    {
      if x :| x in s'.live && s'.live[x] == s'.decisions[j].start {
        assert s.live[x] == s'.decisions[j].start;
        if j < n {
          assert IsLive(s, s.decisions[j].start);
        }
      }
    }
    forall i, j | 0 <= i < j <= n
      ensures s'.decisions[i].start != s'.decisions[j].start
    {
      if j == n {
        assert !IsLive(s, s.decisions[i].start);
        assert IsLive(s, s.live[key]);
      }
    }
  }

  lemma LiveInjective(sha: seq<Byte> -> InstanceId, s: Sys)
    requires Core(sha, s)
    ensures forall x, y :: x in s.live && y in s.live && s.live[x] == s.live[y] ==> x == y
  {
  }

  lemma TimeOutKeepsCore(sha: seq<Byte> -> InstanceId, s: Sys, key: string)
    requires Core(sha, s) && key in s.st.active
    ensures Core(sha, TimeOut(s, key))
  {
    LiveInjective(sha, s);
    DropKeepsInv(s.st, key);
    var dropped := s.(st := Drop(s.st, key));
    var wire := Decided(s.st.active[key].idBytes, false);
    assert key in s.live;
    assert Settled(dropped) by { SettledIgnoresState(s, dropped); }
    CloseKeepsSettled(dropped, key, wire, true);
    assert Linked(TimeOut(s, key));
  }

  lemma SettledIgnoresState(s: Sys, s': Sys)
    requires Settled(s)
    requires s'.decisions == s.decisions && s'.live == s.live && s'.starts == s.starts
    ensures Settled(s')
  {
    assert forall k :: IsLive(s', k) == IsLive(s, k);
    assert forall k :: IsDecided(s', k) == IsDecided(s, k);
  }

  lemma NextToExpire(st: State, keys: seq<string>)
    requires keys != [] && NoDup(keys) && Elems(keys) <= st.active.Keys
    ensures var init := keys[..|keys| - 1];
            NoDup(init) && Elems(init) <= st.active.Keys && keys[|keys| - 1] in DropEach(st, init).active
  {
    var init, key := keys[..|keys| - 1], keys[|keys| - 1];
    DropEachTable(st, init);
    assert forall x :: x in init ==> x in keys;
    assert key in Elems(keys) && key !in init;
  }

  lemma {:induction false} TimeOutEachKeepsCore(sha: seq<Byte> -> InstanceId, s: Sys, keys: seq<string>)
    requires Core(sha, s) && NoDup(keys) && Elems(keys) <= s.st.active.Keys
    ensures Core(sha, TimeOutEach(s, keys))
  {
    if keys != [] {
      NextToExpire(s.st, keys);
      TimeOutEachKeepsCore(sha, s, keys[..|keys| - 1]);
      TimeOutKeepsCore(sha, TimeOutEach(s, keys[..|keys| - 1]), keys[|keys| - 1]);
    }
  }

  lemma LinkedAfterVote(s: Sys, s': Sys, key: string, xt: ActiveXt)
    requires Linked(s) && key in s.st.active && s'.starts == s.starts && s'.live == s.live
    requires s'.st.active == s.st.active[key := xt]
    requires xt.chains == s.st.active[key].chains && xt.idBytes == s.st.active[key].idBytes
    ensures Linked(s')
  {
  }

  lemma LinkedAfterDrop(s: Sys, s': Sys, key: string)
    requires Linked(s) && s'.starts == s.starts && s'.live == s.live - {key} && s'.st.active == s.st.active - {key}
    ensures Linked(s')
  {
  }

  lemma CastKeepsLinked(s: Sys, idBytes: seq<Byte>, chain: ChainId, vote: bool)
    requires Linked(s) && Paired(s)
    ensures Linked(Cast(s, idBytes, chain, vote))
  {
    var key := Hex(idBytes);
    if Counts(s.st, key, chain) {
      RecordVoteTable(s.st, key, chain, vote);
      if Outcome(s.st, key, chain, vote).None? {
        LinkedAfterVote(s, Cast(s, idBytes, chain, vote), key, WithVote(s.st, key, chain, vote).active[key]);
      } else {
        LinkedAfterDrop(s, Cast(s, idBytes, chain, vote), key);
      }
    }
  }

  lemma CastKeepsSettled(sha: seq<Byte> -> InstanceId, s: Sys, idBytes: seq<Byte>, chain: ChainId, vote: bool)
    requires Core(sha, s) && Paired(s)
    ensures Settled(Cast(s, idBytes, chain, vote))
  {
    var key := Hex(idBytes);
    var s' := Cast(s, idBytes, chain, vote);
    if Counts(s.st, key, chain) {
      var s1 := s.(st := RecordVote(s.st, key, chain, vote), ballots := s.ballots + [Ballot(key, chain, vote)]);
      SettledIgnoresState(s, s1);
      var outcome := Outcome(s.st, key, chain, vote);
      if outcome.Some? {
        assert key in s.live;
        HexInjective(idBytes, s.st.active[key].idBytes);
        LiveInjective(sha, s);
        var wire := Decided(idBytes, outcome.value);
        CloseKeepsSettled(s1, key, wire, false);
        SettledIgnoresState(Close(s1, key, wire, false), s');
      }
    }
  }

  lemma CastFrame(s: Sys, idBytes: seq<Byte>, chain: ChainId, vote: bool)
    requires Paired(s)
    ensures var s' := Cast(s, idBytes, chain, vote);
            && s'.starts == s.starts
            && s'.st.period == s.st.period && s'.st.nextSeq == s.st.nextSeq
  {
  }

  lemma CastKeepsCore(sha: seq<Byte> -> InstanceId, s: Sys, idBytes: seq<Byte>, chain: ChainId, vote: bool)
    requires Core(sha, s) && Paired(s)
    ensures Core(sha, Cast(s, idBytes, chain, vote))
  {
    CastFrame(s, idBytes, chain, vote);
    RecordVoteKeepsInv(s.st, Hex(idBytes), chain, vote);
    CastKeepsLinked(s, idBytes, chain, vote);
    CastKeepsSettled(sha, s, idBytes, chain, vote);
  }

  lemma CoreIgnoresQueue(sha: seq<Byte> -> InstanceId, s: Sys, s': Sys)
    requires Core(sha, s) && Inv(s'.st)
    requires s'.starts == s.starts && s'.live == s.live && s'.decisions == s.decisions
    requires s'.st.active == s.st.active && Numbered(s'.starts, s'.st.period, s'.st.nextSeq)
    ensures Core(sha, s')
  {
    SettledIgnoresState(s, s');
  }

  lemma EnqueueKeepsCore(sha: seq<Byte> -> InstanceId, s: Sys, request: XtRequest)
    requires Core(sha, s) && Paired(s) && |ChainsOf(request)| >= 2 && |s.st.queue| < MAX_PENDING_QUEUE_SIZE
    ensures Core(sha, Enqueue(s, request))
  {
    var e := PendingEntry(request, ChainsOf(request));
    assert EntryOk(e);
    QueueKeepsInv(s.st, s.st.queue + [e]);
    CoreIgnoresQueue(sha, s, Enqueue(s, request));
  }

  lemma StartAtOnceKeepsCore(sha: seq<Byte> -> InstanceId, s: Sys, request: XtRequest, now: nat)
    requires Core(sha, s) && |ChainsOf(request)| >= 2 && !Overlaps(s.st.index, ChainsOf(request))
    requires HashSafe(sha, StartAtOnce(sha, s, request, now).starts)
    ensures Core(sha, StartAtOnce(sha, s, request, now))
  {
    var s1 := s.(submitted := s.submitted + [request]);
    CoreIgnoresQueue(sha, s, s1);
    LaunchKeepsCore(sha, s1, |s.submitted|, false, request, now);
  }

  lemma RefuseKeepsCore(sha: seq<Byte> -> InstanceId, s: Sys, request: XtRequest)
    requires Core(sha, s)
    ensures Core(sha, Refuse(s, request))
  {
    CoreIgnoresQueue(sha, s, Refuse(s, request));
  }

  lemma SubmitKeepsCore(sha: seq<Byte> -> InstanceId, s: Sys, request: XtRequest, now: nat)
    requires Core(sha, s) && Paired(s) && HashSafe(sha, Submit(sha, s, request, now).starts)
    ensures Core(sha, Submit(sha, s, request, now))
  {
    var chains := ChainsOf(request);
    if |chains| >= 2 {
      if !Overlaps(s.st.index, chains) {
        StartAtOnceKeepsCore(sha, s, request, now);
      } else if |s.st.queue| < MAX_PENDING_QUEUE_SIZE {
        EnqueueKeepsCore(sha, s, request);
      } else {
        RefuseKeepsCore(sha, s, request);
      }
    }
  }

  lemma DequeueKeepsCore(sha: seq<Byte> -> InstanceId, s: Sys, k: nat)
    requires Core(sha, s) && Paired(s) && k < |s.st.queue|
    ensures Core(sha, Dequeue(s, k)) && EntryOk(s.st.queue[k])
  {
    QueueKeepsInv(s.st, Without(s.st.queue, k));
    CoreIgnoresQueue(sha, s, Dequeue(s, k));
  }

  lemma StartQueuedKeepsCore(sha: seq<Byte> -> InstanceId, s: Sys, k: nat, now: nat)
    requires Core(sha, s) && Paired(s) && k < |s.st.queue| && !Overlaps(s.st.index, s.st.queue[k].chains)
    requires HashSafe(sha, StartQueued(sha, s, k, now).starts)
    ensures Core(sha, StartQueued(sha, s, k, now))
  {
    DequeueKeepsCore(sha, s, k);
    LaunchKeepsCore(sha, Dequeue(s, k), s.tickets[k], true, s.st.queue[k].request, now);
  }

  /** What a drain step does. */
  lemma DrainCases(sha: seq<Byte> -> InstanceId, s: Sys, now: nat)
    requires Paired(s)
    ensures var k, s' := FirstReady(s.st.index, s.st.queue), DrainStep(sha, s, now);
            if s.drainers == 0 then s' == s
            else if k == |s.st.queue| then s' == s.(drainers := s.drainers - 1)
            else s' == StartQueued(sha, s, k, now)
  {
  }

  ghost predicate DrainStarts(s: Sys) {
    s.drainers > 0 && FirstReady(s.st.index, s.st.queue) < |s.st.queue|
  }

  lemma StartingDrainKeepsCore(sha: seq<Byte> -> InstanceId, s: Sys, s': Sys, now: nat)
    requires Core(sha, s) && Paired(s) && DrainStarts(s)
    requires s' == StartQueued(sha, s, FirstReady(s.st.index, s.st.queue), now) && HashSafe(sha, s'.starts)
    ensures Core(sha, s')
  {
    StartQueuedKeepsCore(sha, s, FirstReady(s.st.index, s.st.queue), now);
  }

  lemma EndingDrainKeepsCore(sha: seq<Byte> -> InstanceId, s: Sys, s': Sys)
    requires Core(sha, s) && s' == s.(drainers := s'.drainers)
    ensures Core(sha, s')
  {
    SettledIgnoresState(s, s');
  }

  lemma DrainKeepsCore(sha: seq<Byte> -> InstanceId, s: Sys, now: nat)
    requires Core(sha, s) && Paired(s) && HashSafe(sha, DrainStep(sha, s, now).starts)
    ensures Core(sha, DrainStep(sha, s, now))
  {
    DrainCases(sha, s, now);
    if DrainStarts(s) {
      StartingDrainKeepsCore(sha, s, DrainStep(sha, s, now), now);
    } else {
      EndingDrainKeepsCore(sha, s, DrainStep(sha, s, now));
    }
  }

  lemma ReapKeepsCore(sha: seq<Byte> -> InstanceId, s: Sys, now: nat, timeout: nat, order: seq<string>)
    requires Core(sha, s) && Paired(s)
    ensures Core(sha, ReapStep(s, now, timeout, order))
  {
    if IterationOrder(s.st, now, timeout, order) && order != [] {
      assert Expired(s.st, now, timeout) <= s.st.active.Keys;
      TimeOutEachKeepsCore(sha, s, order);
      CoreIgnoresQueue(sha, TimeOutEach(s, order), ReapStep(s, now, timeout, order));
    }
  }

  lemma NewPeriodNumbers(starts: seq<Start>, period: nat, nextSeq: nat)
    requires Numbered(starts, period, nextSeq)
    ensures Numbered(starts, period + 1, 1)
  {
  }

  lemma NewPeriodKeepsCore(sha: seq<Byte> -> InstanceId, s: Sys, s': Sys)
    requires Core(sha, s) && s'.st == NewPeriod(s.st)
    requires s'.starts == s.starts && s'.live == s.live && s'.decisions == s.decisions
    ensures Core(sha, s')
  {
    NewPeriodNumbers(s.starts, s.st.period, s.st.nextSeq);
    NewPeriodKeepsInv(s.st);
    CoreIgnoresQueue(sha, s, s');
  }

  lemma PeriodStep(sha: seq<Byte> -> InstanceId, s: Sys)
    requires Paired(s)
    ensures var s' := Step(sha, s, AdvancePeriod);
            && s'.st == NewPeriod(s.st)
            && s'.starts == s.starts && s'.live == s.live && s'.decisions == s.decisions
  {
  }

  lemma PeriodKeepsCore(sha: seq<Byte> -> InstanceId, s: Sys)
    requires Core(sha, s) && Paired(s)
    ensures Core(sha, Step(sha, s, AdvancePeriod))
  {
    PeriodStep(sha, s);
    NewPeriodKeepsCore(sha, s, Step(sha, s, AdvancePeriod));
  }

  lemma StepKeepsCore(sha: seq<Byte> -> InstanceId, s: Sys, l: Label)
    requires Core(sha, s) && Paired(s) && HashSafe(sha, Step(sha, s, l).starts)
    ensures Core(sha, Step(sha, s, l))
  {
    match l
    case Request(request, now) => SubmitKeepsCore(sha, s, request, now);
    case Vote(idBytes, chain, vote) => CastKeepsCore(sha, s, idBytes, chain, vote);
    case Reap(now, timeout, order) => ReapKeepsCore(sha, s, now, timeout, order);
    case Drain(now) => DrainKeepsCore(sha, s, now);
    case AdvancePeriod => PeriodKeepsCore(sha, s);
  }
}
