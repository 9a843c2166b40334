/** Timeouts over whole runs, in terms of the clock readings at which instances were started and reaped. */
module Timeouts {
  import opened Spec
  import opened Encoding
  import opened CoordinatorModel
  import opened CoordinatorRuns
  import CT = CoordinatorTheorems

  /** At `now` at least `timeout` has passed since `at`. */
  ghost predicate LongAgo(at: nat, now: nat, timeout: nat) {
    timeout == 0 || at + timeout <= now
  }

  /** Every active transaction is a start, and remembers the clock at that start. */
  ghost predicate Timed(s: Sys) {
    && s.live.Keys == s.st.active.Keys
    && forall x :: x in s.live ==> s.live[x] < |s.starts| && s.st.active[x].startTime == s.starts[s.live[x]].at
  }

  lemma LaunchTimed(sha: seq<Byte> -> InstanceId, s: Sys, ticket: nat, viaQueue: bool, request: XtRequest,
                    chains: seq<ChainId>, now: nat)
    requires Timed(s)
    ensures Timed(Launch(sha, s, ticket, viaQueue, request, chains, now))
  {
    var s' := Launch(sha, s, ticket, viaQueue, request, chains, now);
    assert s'.starts[|s.starts|].at == now;
    assert forall k :: 0 <= k < |s.starts| ==> s'.starts[k] == s.starts[k];
  }

  lemma TimedIgnoresQueue(s: Sys, s': Sys)
    requires Timed(s) && s'.live == s.live && s'.starts == s.starts && s'.st.active == s.st.active
    ensures Timed(s')
  {
  }

  lemma SubmitTimed(sha: seq<Byte> -> InstanceId, s: Sys, request: XtRequest, now: nat)
    requires Paired(s) && Timed(s)
    ensures Timed(Submit(sha, s, request, now))
  {
    if |ChainsOf(request)| >= 2 && !Overlaps(s.st.index, ChainsOf(request)) {
      var s1 := s.(submitted := s.submitted + [request]);
      TimedIgnoresQueue(s, s1);
      LaunchTimed(sha, s1, |s.submitted|, false, request, ChainsOf(request), now);
    } else {
      TimedIgnoresQueue(s, Submit(sha, s, request, now));
    }
  }

  lemma DrainTimed(sha: seq<Byte> -> InstanceId, s: Sys, now: nat)
    requires Paired(s) && Timed(s)
    ensures Timed(DrainStep(sha, s, now))
  {
    DrainCases(sha, s, now);
    var k := FirstReady(s.st.index, s.st.queue);
    if s.drainers > 0 && k < |s.st.queue| {
      var e := s.st.queue[k];
      TimedIgnoresQueue(s, Dequeue(s, k));
      LaunchTimed(sha, Dequeue(s, k), s.tickets[k], true, e.request, e.chains, now);
    } else {
      TimedIgnoresQueue(s, DrainStep(sha, s, now));
    }
  }

  lemma VotedTimed(s: Sys, s': Sys, key: string, xt: ActiveXt)
    requires Timed(s) && key in s.st.active && s'.live == s.live && s'.starts == s.starts
    requires s'.st.active == s.st.active[key := xt] && xt.startTime == s.st.active[key].startTime
    ensures Timed(s')
  {
  }

  lemma DroppedTimed(s: Sys, s': Sys, key: string)
    requires Timed(s) && s'.starts == s.starts
    requires s'.live == s.live - {key} && s'.st.active == s.st.active - {key}
    ensures Timed(s')
  {
  }

  lemma CastTimed(s: Sys, idBytes: seq<Byte>, chain: ChainId, vote: bool)
    requires Paired(s) && Timed(s)
    ensures Timed(Cast(s, idBytes, chain, vote))
  {
    var key, s' := Hex(idBytes), Cast(s, idBytes, chain, vote);
    if Counts(s.st, key, chain) {
      RecordVoteTable(s.st, key, chain, vote);
      if Outcome(s.st, key, chain, vote).None? {
        VotedTimed(s, s', key, WithVote(s.st, key, chain, vote).active[key]);
      } else {
        DroppedTimed(s, s', key);
      }
    }
  }

  lemma {:induction false} TimeOutEachTimed(s: Sys, keys: seq<string>)
    requires Timed(s)
    ensures Timed(TimeOutEach(s, keys))
  {
    if keys != [] {
      var init, key := keys[..|keys| - 1], keys[|keys| - 1];
      TimeOutEachTimed(s, init);
      DroppedTimed(TimeOutEach(s, init), TimeOutEach(s, keys), key);
    }
  }

  lemma ReapTimed(s: Sys, now: nat, timeout: nat, order: seq<string>)
    requires Paired(s) && Timed(s)
    ensures Timed(ReapStep(s, now, timeout, order))
  {
    if IterationOrder(s.st, now, timeout, order) && order != [] {
      TimeOutEachTimed(s, order);
      TimedIgnoresQueue(TimeOutEach(s, order), ReapStep(s, now, timeout, order));
    }
  }

  lemma StepTimed(sha: seq<Byte> -> InstanceId, s: Sys, l: Label)
    requires Paired(s) && Timed(s)
    ensures Timed(Step(sha, s, l))
  {
    match l
    case Request(request, now) => SubmitTimed(sha, s, request, now);
    case Vote(idBytes, chain, vote) => CastTimed(s, idBytes, chain, vote);
    case Reap(now, timeout, order) => ReapTimed(s, now, timeout, order);
    case Drain(now) => DrainTimed(sha, s, now);
    case AdvancePeriod => TimedIgnoresQueue(s, Step(sha, s, l));
  }

  lemma {:induction false} RunTimed(sha: seq<Byte> -> InstanceId, labels: seq<Label>)
    ensures Timed(Run(sha, labels))
  {
    if labels != [] {
      RunTimed(sha, labels[..|labels| - 1]);
      StepTimed(sha, Run(sha, labels[..|labels| - 1]), labels[|labels| - 1]);
    }
  }

  // ---- What reaping decides ----

  /** The decision by which the active transaction `x` times out. */
  ghost function TimeoutOf(s: Sys, x: string): Decision
    requires x in s.live && x in s.st.active
  {
    Decision(s.live[x], Decided(s.st.active[x].idBytes, false), true)
  }

  /** The decisions are those of `before` followed by the timeouts of the keys, in order. */
  ghost predicate TimeoutsFollow(s: Sys, before: seq<Decision>, keys: seq<string>, decisions: seq<Decision>) {
    && |decisions| == |before| + |keys| && before <= decisions
    && forall i :: 0 <= i < |keys| ==>
         keys[i] in s.live && keys[i] in s.st.active && decisions[|before| + i] == TimeoutOf(s, keys[i])
  }

  lemma TimeoutsOneMore(s: Sys, before: seq<Decision>, keys: seq<string>, decisions: seq<Decision>, key: string)
    requires TimeoutsFollow(s, before, keys, decisions) && key in s.live && key in s.st.active
    ensures TimeoutsFollow(s, before, keys + [key], decisions + [TimeoutOf(s, key)])
  {
  }

  lemma LastTimesOut(s: Sys, init: seq<string>, key: string)
    requires key in s.live && key in s.st.active && key !in Elems(init)
    ensures TimeOut(TimeOutEach(s, init), key).decisions == TimeOutEach(s, init).decisions + [TimeoutOf(s, key)]
  {
    CT.TimeOutEachHistory(s, init);
    DropEachTable(s.st, init);
    var s1 := TimeOutEach(s, init);
    assert s1.live[key] == s.live[key] && s1.st.active[key] == s.st.active[key];
  }

  lemma {:induction false} TimeOutEachDecides(s: Sys, keys: seq<string>)
    requires Timed(s) && NoDup(keys) && Elems(keys) <= s.st.active.Keys
    ensures TimeoutsFollow(s, s.decisions, keys, TimeOutEach(s, keys).decisions)
  {
    if keys != [] {
      var init, key := keys[..|keys| - 1], keys[|keys| - 1];
      NextToExpire(s.st, keys);
      TimeOutEachDecides(s, init);
      assert key in Elems(keys) && key !in Elems(init);
      LastTimesOut(s, init, key);
      TimeoutsOneMore(s, s.decisions, init, TimeOutEach(s, init).decisions, key);
      assert keys == init + [key];
    }
  }

  /** `order` lists once each the active starts that were made at least `timeout` ago. */
  ghost predicate ListsLongAgo(s: Sys, now: nat, timeout: nat, order: seq<string>) {
    && NoDup(order)
    && forall x :: x in order <==>
      x in s.live && s.live[x] < |s.starts| && LongAgo(s.starts[s.live[x]].at, now, timeout)
  }

  lemma OrderIsLongAgo(s: Sys, now: nat, timeout: nat, order: seq<string>)
    requires Timed(s)
    ensures IterationOrder(s.st, now, timeout, order) <==> ListsLongAgo(s, now, timeout, order)
  {
    forall x
      ensures x in Expired(s.st, now, timeout) <==>
              x in s.live && s.live[x] < |s.starts| && LongAgo(s.starts[s.live[x]].at, now, timeout)
    {
      ExpiredMeans(s.st, now, timeout, x);
    }
    if ListsLongAgo(s, now, timeout, order) {
      assert Elems(order) == Expired(s.st, now, timeout);
    }
    if IterationOrder(s.st, now, timeout, order) {
      assert forall x :: x in order <==> x in Elems(order);
    }
  }

  ghost predicate DecidedAfter(s: Sys, s': Sys, k: nat) {
    exists j :: |s.decisions| <= j < |s'.decisions| && s'.decisions[j].start == k
  }

  lemma ReapDecides(s: Sys, now: nat, timeout: nat, order: seq<string>)
    requires Paired(s) && Timed(s) && ListsLongAgo(s, now, timeout, order)
    ensures TimeoutsFollow(s, s.decisions, order, ReapStep(s, now, timeout, order).decisions)
  {
    OrderIsLongAgo(s, now, timeout, order);
    assert Elems(order) <= s.st.active.Keys;
    TimeOutEachDecides(s, order);
  }

  /** Every decision that a reaping at `now` takes in a reachable state is an abort of a start made at least
      `timeout` earlier, and every active start made that long ago gets one. */
  lemma ReapsExactlyLongAgo(sha: seq<Byte> -> InstanceId, labels: seq<Label>, now: nat, timeout: nat,
                            order: seq<string>)
    requires ListsLongAgo(Run(sha, labels), now, timeout, order)
    ensures var s := Run(sha, labels); var s' := Step(sha, s, Reap(now, timeout, order));
            && s'.starts == s.starts && s.decisions <= s'.decisions
            && (forall j :: |s.decisions| <= j < |s'.decisions| ==>
                  s'.decisions[j].timedOut && !s'.decisions[j].wire.commit)
            && (forall k: nat :: k < |s.starts| ==>
                  (DecidedAfter(s, s', k) <==> IsLive(s, k) && LongAgo(s.starts[k].at, now, timeout)))
  {
    RunTimed(sha, labels);
    var s := Run(sha, labels);
    var s' := Step(sha, s, Reap(now, timeout, order));
    ReapDecides(s, now, timeout, order);
    CT.StepExtends(sha, s, Reap(now, timeout, order));
    ReapKeepsStarts(s, now, timeout, order);
    forall j | |s.decisions| <= j < |s'.decisions|
      ensures s'.decisions[j].timedOut && !s'.decisions[j].wire.commit
    {
      assert s'.decisions[|s.decisions| + (j - |s.decisions|)] == TimeoutOf(s, order[j - |s.decisions|]);
    }
    forall k: nat | k < |s.starts|
      ensures DecidedAfter(s, s', k) <==> IsLive(s, k) && LongAgo(s.starts[k].at, now, timeout)
    {
      DecidedExactly(s, s', now, timeout, order, k);
    }
  }

  lemma ReapKeepsStarts(s: Sys, now: nat, timeout: nat, order: seq<string>)
    requires Paired(s)
    ensures ReapStep(s, now, timeout, order).starts == s.starts
  {
    if order != [] { KeepsStarts(s, order); }
  }

  lemma {:induction false} KeepsStarts(s: Sys, keys: seq<string>)
    ensures TimeOutEach(s, keys).starts == s.starts
  {
    if keys != [] { KeepsStarts(s, keys[..|keys| - 1]); }
  }

  lemma DecidedExactly(s: Sys, s': Sys, now: nat, timeout: nat, order: seq<string>, k: nat)
    requires Timed(s) && ListsLongAgo(s, now, timeout, order) && k < |s.starts|
    requires TimeoutsFollow(s, s.decisions, order, s'.decisions)
    ensures DecidedAfter(s, s', k) <==> IsLive(s, k) && LongAgo(s.starts[k].at, now, timeout)
  {
    if DecidedAfter(s, s', k) {
      var j :| |s.decisions| <= j < |s'.decisions| && s'.decisions[j].start == k;
      var x := order[j - |s.decisions|];
      assert s'.decisions[|s.decisions| + (j - |s.decisions|)] == TimeoutOf(s, x);
      assert x in order && s.live[x] == k;
    }
    if IsLive(s, k) && LongAgo(s.starts[k].at, now, timeout) {
      var x :| x in s.live && s.live[x] == k;
      assert x in order;
      var i :| 0 <= i < |order| && order[i] == x;
      assert s'.decisions[|s.decisions| + i].start == k;
    }
  }

  // ---- Over the whole run ----

  /** The timed-out decision was taken by a reaping of the run at which its start was long ago. */
  ghost predicate TimedOutBy(starts: seq<Start>, d: Decision, l: Label) {
    l.Reap? && d.start < |starts| && LongAgo(starts[d.start].at, l.now, l.timeout)
  }

  lemma OthersTimeNothingOut(sha: seq<Byte> -> InstanceId, s: Sys, l: Label, j: nat)
    requires Paired(s) && !l.Reap? && |s.decisions| <= j < |Step(sha, s, l).decisions|
    ensures !Step(sha, s, l).decisions[j].timedOut
  {
    if l.Drain? { DrainCases(sha, s, l.now); }
  }

  /** A new timed-out decision is that of a reaping. */
  lemma NewTimeout(sha: seq<Byte> -> InstanceId, s: Sys, l: Label, j: nat)
    requires Paired(s) && Timed(s) && |s.decisions| <= j < |Step(sha, s, l).decisions|
    requires Step(sha, s, l).decisions[j].timedOut
    ensures TimedOutBy(s.starts, Step(sha, s, l).decisions[j], l)
  {
    if l.Reap? {
      ReapTimeout(s, l.now, l.timeout, l.order, j);
    } else {
      OthersTimeNothingOut(sha, s, l, j);
    }
  }

  lemma ReapTimeout(s: Sys, now: nat, timeout: nat, order: seq<string>, j: nat)
    requires Paired(s) && Timed(s) && |s.decisions| <= j < |ReapStep(s, now, timeout, order).decisions|
    ensures var d := ReapStep(s, now, timeout, order).decisions[j];
            d.start < |s.starts| && LongAgo(s.starts[d.start].at, now, timeout)
  {
    OrderIsLongAgo(s, now, timeout, order);
    ReapDecides(s, now, timeout, order);
    var i := j - |s.decisions|;
    assert ReapStep(s, now, timeout, order).decisions[|s.decisions| + i] == TimeoutOf(s, order[i]);
    assert order[i] in order;
  }

  lemma DecisionsExtend(sha: seq<Byte> -> InstanceId, s: Sys, l: Label)
    requires Paired(s) && Timed(s)
    ensures s.decisions <= Step(sha, s, l).decisions
  {
    if l.Reap? && IterationOrder(s.st, l.now, l.timeout, l.order) {
      OrderIsLongAgo(s, l.now, l.timeout, l.order);
      ReapDecides(s, l.now, l.timeout, l.order);
    }
  }

  /** In every run each timed-out decision was taken by a reaping, at least its timeout after the start. */
  lemma {:induction false} NoEarlyTimeout(sha: seq<Byte> -> InstanceId, labels: seq<Label>, j: nat)
    requires j < |Run(sha, labels).decisions| && Run(sha, labels).decisions[j].timedOut
    ensures var s := Run(sha, labels);
            exists i :: 0 <= i < |labels| && TimedOutBy(s.starts, s.decisions[j], labels[i])
  {
    var n := |labels| - 1;
    var s, l := Run(sha, labels[..n]), labels[n];
    RunTimed(sha, labels[..n]);
    CT.StepExtends(sha, s, l);
    DecisionsExtend(sha, s, l);
    if j < |s.decisions| {
      NoEarlyTimeout(sha, labels[..n], j);
      var i :| 0 <= i < n && TimedOutBy(s.starts, s.decisions[j], labels[..n][i]);
      assert TimedOutBy(Run(sha, labels).starts, s.decisions[j], labels[i]);
    } else {
      NewTimeout(sha, s, l, j);
      assert TimedOutBy(Run(sha, labels).starts, Run(sha, labels).decisions[j], labels[n]);
    }
  }

  /** A start carries the clock of the step that made it. */
  lemma StartCarriesClock(sha: seq<Byte> -> InstanceId, s: Sys, l: Label)
    requires Paired(s) && |Step(sha, s, l).starts| > |s.starts|
    ensures (l.Request? || l.Drain?) && Step(sha, s, l).starts[|s.starts|].at == l.now
  {
    match l
    case Request(request, now) =>
    case Vote(idBytes, chain, vote) =>
    case Reap(now, timeout, order) => ReapKeepsStarts(s, now, timeout, order);
    case Drain(now) => DrainCases(sha, s, now);
    case AdvancePeriod =>
  }
}
