/** The pending queue over whole runs: no lost wake-up, every request in exactly one place, order. */
module QueueDiscipline {
  import opened Spec
  import opened CoordinatorModel
  import opened CoordinatorRuns

  // ---- No lost wake-up ----

  /** A queued entry that could start implies a task that is still draining. */
  ghost predicate Awake(s: Sys) {
    forall k :: 0 <= k < |s.st.queue| && !Overlaps(s.st.index, s.st.queue[k].chains) ==> s.drainers > 0
  }

  lemma LaunchKeepsAwake(sha: seq<Byte> -> InstanceId, s: Sys, ticket: nat, viaQueue: bool, request: XtRequest,
                         chains: seq<ChainId>, now: nat)
    requires Awake(s)
    ensures Awake(Launch(sha, s, ticket, viaQueue, request, chains, now))
  {
  }

  lemma EnqueueKeepsAwake(s: Sys, request: XtRequest)
    requires Awake(s) && Paired(s) && Overlaps(s.st.index, ChainsOf(request))
    ensures Awake(Enqueue(s, request))
  {
  }

  lemma AwakeIgnoresRest(s: Sys, s': Sys)
    requires Awake(s) && s'.st.index == s.st.index && s'.st.queue == s.st.queue && s'.drainers == s.drainers
    ensures Awake(s')
  {
  }

  lemma SubmitKeepsAwake(sha: seq<Byte> -> InstanceId, s: Sys, request: XtRequest, now: nat)
    requires Awake(s) && Paired(s)
    ensures Awake(Submit(sha, s, request, now))
  {
    var chains := ChainsOf(request);
    if |chains| >= 2 {
      if !Overlaps(s.st.index, chains) {
        var s1 := s.(submitted := s.submitted + [request]);
        AwakeIgnoresRest(s, s1);
        LaunchKeepsAwake(sha, s1, |s.submitted|, false, request, chains, now);
      } else if |s.st.queue| < MAX_PENDING_QUEUE_SIZE {
        EnqueueKeepsAwake(s, request);
      } else {
        AwakeIgnoresRest(s, Refuse(s, request));
      }
    }
  }

  lemma CastKeepsAwake(s: Sys, idBytes: seq<Byte>, chain: ChainId, vote: bool)
    requires Awake(s) && Paired(s)
    ensures Awake(Cast(s, idBytes, chain, vote))
  {
  }

  lemma DrainKeepsAwake(sha: seq<Byte> -> InstanceId, s: Sys, now: nat)
    requires Awake(s) && Paired(s)
    ensures Awake(DrainStep(sha, s, now))
  {
    DrainCases(sha, s, now);
  }

  lemma StepKeepsAwake(sha: seq<Byte> -> InstanceId, s: Sys, l: Label)
    requires Awake(s) && Paired(s)
    ensures Awake(Step(sha, s, l))
  {
    match l
    case Request(request, now) => SubmitKeepsAwake(sha, s, request, now);
    case Vote(idBytes, chain, vote) => CastKeepsAwake(s, idBytes, chain, vote);
    case Reap(now, timeout, order) =>
    case Drain(now) => DrainKeepsAwake(sha, s, now);
    case AdvancePeriod =>
  }

  // ---- Tickets ----

  ghost predicate HasStarted(s: Sys, t: nat) {
    exists k :: 0 <= k < |s.starts| && s.starts[k].ticket == t
  }

  /** The queue holds submitted requests in arrival order. */
  ghost predicate QueueInOrder(s: Sys) {
    && Paired(s)
    && (forall i, j :: 0 <= i < j < |s.tickets| ==> s.tickets[i] < s.tickets[j])
    && (forall i :: 0 <= i < |s.tickets| ==>
          s.tickets[i] < |s.submitted| && s.st.queue[i].request == s.submitted[s.tickets[i]])
  }

  /** Starts serve submitted requests, no ticket twice. */
  ghost predicate StartsServe(s: Sys) {
    && (forall k :: 0 <= k < |s.starts| ==>
          s.starts[k].ticket < |s.submitted| && s.starts[k].instance.request == s.submitted[s.starts[k].ticket])
    && (forall i, j :: 0 <= i < j < |s.starts| ==> s.starts[i].ticket != s.starts[j].ticket)
  }

  /** Each ticket is in exactly one place. */
  ghost predicate OnePlace(s: Sys) {
    && (forall t :: t in s.rejected ==> t < |s.submitted|)
    && (forall t: nat :: t < |s.submitted| ==> t in s.rejected || t in s.tickets || HasStarted(s, t))
    && (forall t: nat :: HasStarted(s, t) ==> t !in s.rejected && t !in s.tickets)
    && (forall t :: t in s.tickets ==> t !in s.rejected)
  }

  ghost predicate TicketsOk(s: Sys) {
    QueueInOrder(s) && StartsServe(s) && OnePlace(s)
  }

  lemma LaunchKeepsTickets(sha: seq<Byte> -> InstanceId, s: Sys, s1: Sys, t: nat, viaQueue: bool, request: XtRequest,
                           chains: seq<ChainId>, now: nat)
    requires TicketsOk(s) && QueueInOrder(s1)
    requires s1.starts == s.starts && s1.rejected == s.rejected
    requires s1.submitted == s.submitted || (s1.submitted == s.submitted + [request] && t == |s.submitted|)
    requires t < |s1.submitted| && s1.submitted[t] == request && t !in s.rejected && !HasStarted(s, t)
    requires t !in s1.tickets && forall u :: u in s1.tickets <==> u in s.tickets && u != t
    ensures TicketsOk(Launch(sha, s1, t, viaQueue, request, chains, now))
  {
    var s' := Launch(sha, s1, t, viaQueue, request, chains, now);
    var n := |s.starts|;
    assert s'.starts[n].ticket == t;
    assert forall k :: 0 <= k < n ==> s'.starts[k] == s.starts[k];
    forall u: nat
      ensures HasStarted(s', u) <==> HasStarted(s, u) || u == t
    {
      if HasStarted(s, u) {
        var k :| 0 <= k < n && s.starts[k].ticket == u;
        assert s'.starts[k].ticket == u;
      }
    }
    forall i, j | 0 <= i < j < |s'.starts|
      ensures s'.starts[i].ticket != s'.starts[j].ticket
    {
      if j == n { assert HasStarted(s, s.starts[i].ticket); }
    }
  }

  lemma EnqueueKeepsTickets(s: Sys, request: XtRequest)
    requires TicketsOk(s)
    ensures TicketsOk(Enqueue(s, request))
  {
    var s' := Enqueue(s, request);
    assert forall u: nat :: HasStarted(s', u) == HasStarted(s, u);
    assert forall u :: u in s'.tickets <==> u in s.tickets || u == |s.submitted|;
  }

  lemma RefuseKeepsTickets(s: Sys, request: XtRequest)
    requires TicketsOk(s)
    ensures TicketsOk(Refuse(s, request))
  {
    var s' := Refuse(s, request);
    assert forall u: nat :: HasStarted(s', u) == HasStarted(s, u);
  }

  lemma SubmitKeepsTickets(sha: seq<Byte> -> InstanceId, s: Sys, request: XtRequest, now: nat)
    requires TicketsOk(s)
    ensures TicketsOk(Submit(sha, s, request, now))
  {
    var chains := ChainsOf(request);
    if |chains| >= 2 {
      if !Overlaps(s.st.index, chains) {
        var s1 := s.(submitted := s.submitted + [request]);
        LaunchKeepsTickets(sha, s, s1, |s.submitted|, false, request, chains, now);
      } else if |s.st.queue| < MAX_PENDING_QUEUE_SIZE {
        EnqueueKeepsTickets(s, request);
      } else {
        RefuseKeepsTickets(s, request);
      }
    }
  }

  /** The ticket of a queued entry is not used up, and leaves the queue with the entry. */
  lemma QueuedTicket(s: Sys, k: nat)
    requires TicketsOk(s) && k < |s.st.queue|
    ensures var t := s.tickets[k];
            && t < |s.submitted| && s.submitted[t] == s.st.queue[k].request && t !in s.rejected && !HasStarted(s, t)
  {
    assert s.tickets[k] in s.tickets;
  }

  lemma DequeueKeepsQueueOrder(s: Sys, k: nat)
    requires QueueInOrder(s) && k < |s.st.queue|
    ensures QueueInOrder(Dequeue(s, k)) && s.tickets[k] !in Dequeue(s, k).tickets
    ensures forall u :: u in Dequeue(s, k).tickets <==> u in s.tickets && u != s.tickets[k]
  {
    WithoutElements(s.tickets, k);
  }

  lemma DrainKeepsTickets(sha: seq<Byte> -> InstanceId, s: Sys, now: nat)
    requires TicketsOk(s)
    ensures TicketsOk(DrainStep(sha, s, now))
  {
    DrainCases(sha, s, now);
    var k := FirstReady(s.st.index, s.st.queue);
    if s.drainers > 0 && k < |s.st.queue| {
      var e := s.st.queue[k];
      QueuedTicket(s, k);
      DequeueKeepsQueueOrder(s, k);
      LaunchKeepsTickets(sha, s, Dequeue(s, k), s.tickets[k], true, e.request, e.chains, now);
    } else {
      TicketsIgnoreRest(s, DrainStep(sha, s, now));
    }
  }

  lemma WithoutElements(s: seq<nat>, k: nat)
    requires k < |s| && forall i, j :: 0 <= i < j < |s| ==> s[i] < s[j]
    ensures forall u :: u in Without(s, k) <==> u in s && u != s[k]
  {
  }

  lemma TicketsIgnoreRest(s: Sys, s': Sys)
    requires TicketsOk(s)
    requires s'.submitted == s.submitted && s'.rejected == s.rejected && s'.tickets == s.tickets
    requires s'.starts == s.starts && s'.st.queue == s.st.queue
    ensures TicketsOk(s')
  {
  }

  lemma {:induction false} TimeOutEachFrame(s: Sys, keys: seq<string>)
    ensures var s' := TimeOutEach(s, keys);
            && s'.submitted == s.submitted && s'.rejected == s.rejected && s'.tickets == s.tickets
            && s'.starts == s.starts && s'.ballots == s.ballots && s'.st.queue == s.st.queue
            && s'.drainers == s.drainers
  {
    if keys != [] { TimeOutEachFrame(s, keys[..|keys| - 1]); }
  }

  lemma StepKeepsTickets(sha: seq<Byte> -> InstanceId, s: Sys, l: Label)
    requires TicketsOk(s)
    ensures TicketsOk(Step(sha, s, l))
  {
    match l
    case Request(request, now) => SubmitKeepsTickets(sha, s, request, now);
    case Vote(idBytes, chain, vote) => TicketsIgnoreRest(s, Step(sha, s, l));
    case Reap(now, timeout, order) =>
      TimeOutEachFrame(s, order);
      TicketsIgnoreRest(s, Step(sha, s, l));
    case Drain(now) => DrainKeepsTickets(sha, s, now);
    case AdvancePeriod => TicketsIgnoreRest(s, Step(sha, s, l));
  }

  // ---- Queue order ----

  ghost predicate Covers(inner: seq<ChainId>, outer: seq<ChainId>) {
    Elems(inner) <= Elems(outer)
  }

  /** No queued entry has been overtaken by a later queued entry that needs all of its chains. */
  ghost predicate NoOvertaking(s: Sys) {
    forall k, i ::
      (0 <= k < |s.starts| && 0 <= i < |s.tickets| && i < |s.st.queue| && s.starts[k].viaQueue &&
       s.tickets[i] < s.starts[k].ticket) ==>
        !Covers(s.st.queue[i].chains, ChainsOf(s.starts[k].instance.request))
  }

  lemma BlockedNotCovered(index: Index, blocked: seq<ChainId>, ready: seq<ChainId>)
    requires Overlaps(index, blocked) && !Overlaps(index, ready)
    ensures !Covers(blocked, ready)
  {
    var c :| c in blocked && c in index;
    assert c in Elems(blocked) && c !in Elems(ready);
  }

  /** The entry that is taken does not cover the chains of any earlier one. */
  lemma FirstReadyCoversNoEarlier(index: Index, queue: seq<PendingEntry>, i: nat)
    requires i < FirstReady(index, queue) < |queue|
    ensures !Covers(queue[i].chains, queue[FirstReady(index, queue)].chains)
  {
    BlockedNotCovered(index, queue[i].chains, queue[FirstReady(index, queue)].chains);
  }

  lemma DequeueKeepsOrder(s: Sys, f: nat)
    requires NoOvertaking(s) && Paired(s) && f < |s.st.queue|
    ensures NoOvertaking(Dequeue(s, f))
  {
  }

  lemma LaunchKeepsOrder(sha: seq<Byte> -> InstanceId, s: Sys, ticket: nat, viaQueue: bool, request: XtRequest,
                         chains: seq<ChainId>, now: nat)
    requires NoOvertaking(s) && Paired(s)
    requires viaQueue ==> forall i :: 0 <= i < |s.tickets| && s.tickets[i] < ticket ==>
               !Covers(s.st.queue[i].chains, ChainsOf(request))
    ensures NoOvertaking(Launch(sha, s, ticket, viaQueue, request, chains, now))
  {
  }

  lemma StartQueuedKeepsOrder(sha: seq<Byte> -> InstanceId, s: Sys, now: nat)
    requires NoOvertaking(s) && QueueInOrder(s)
    requires FirstReady(s.st.index, s.st.queue) < |s.st.queue|
    requires EntryOk(s.st.queue[FirstReady(s.st.index, s.st.queue)])
    ensures NoOvertaking(StartQueued(sha, s, FirstReady(s.st.index, s.st.queue), now))
  {
    var f := FirstReady(s.st.index, s.st.queue);
    var e, s1 := s.st.queue[f], Dequeue(s, f);
    DequeueKeepsOrder(s, f);
    forall i | 0 <= i < |s1.tickets| && s1.tickets[i] < s.tickets[f]
      ensures !Covers(s1.st.queue[i].chains, ChainsOf(e.request))
    {
      assert i < f && s1.st.queue[i] == s.st.queue[i];
      FirstReadyCoversNoEarlier(s.st.index, s.st.queue, i);
    }
    LaunchKeepsOrder(sha, s1, s.tickets[f], true, e.request, e.chains, now);
  }

  lemma DrainKeepsOrder(sha: seq<Byte> -> InstanceId, s: Sys, now: nat)
    requires NoOvertaking(s) && QueueInOrder(s)
    requires forall i :: 0 <= i < |s.st.queue| ==> EntryOk(s.st.queue[i])
    ensures NoOvertaking(DrainStep(sha, s, now))
  {
    if s.drainers > 0 && FirstReady(s.st.index, s.st.queue) < |s.st.queue| {
      StartQueuedKeepsOrder(sha, s, now);
    }
  }

  lemma EnqueueKeepsOrder(s: Sys, request: XtRequest)
    requires NoOvertaking(s) && Paired(s) && StartsServe(s)
    ensures NoOvertaking(Enqueue(s, request))
  {
  }

  lemma SubmitKeepsOrder(sha: seq<Byte> -> InstanceId, s: Sys, request: XtRequest, now: nat)
    requires NoOvertaking(s) && Paired(s) && StartsServe(s)
    ensures NoOvertaking(Submit(sha, s, request, now))
  {
    var chains := ChainsOf(request);
    if |chains| >= 2 {
      if !Overlaps(s.st.index, chains) {
        LaunchKeepsOrder(sha, s.(submitted := s.submitted + [request]), |s.submitted|, false, request, chains, now);
      } else if |s.st.queue| < MAX_PENDING_QUEUE_SIZE {
        EnqueueKeepsOrder(s, request);
      }
    }
  }

  lemma OrderIgnoresRest(s: Sys, s': Sys)
    requires NoOvertaking(s)
    requires s'.tickets == s.tickets && s'.starts == s.starts && s'.st.queue == s.st.queue
    ensures NoOvertaking(s')
  {
  }

  lemma StepKeepsOrder(sha: seq<Byte> -> InstanceId, s: Sys, l: Label)
    requires NoOvertaking(s) && TicketsOk(s)
    requires forall i :: 0 <= i < |s.st.queue| ==> EntryOk(s.st.queue[i])
    ensures NoOvertaking(Step(sha, s, l))
  {
    match l
    case Request(request, now) => SubmitKeepsOrder(sha, s, request, now);
    case Vote(idBytes, chain, vote) => OrderIgnoresRest(s, Step(sha, s, l));
    case Reap(now, timeout, order) =>
      TimeOutEachFrame(s, order);
      OrderIgnoresRest(s, Step(sha, s, l));
    case Drain(now) => DrainKeepsOrder(sha, s, now);
    case AdvancePeriod => OrderIgnoresRest(s, Step(sha, s, l));
  }
}
