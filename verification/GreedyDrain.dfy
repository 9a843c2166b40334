/** An uninterrupted `drain_queue`: searching from the head again after every start amounts to one
    left-to-right greedy pass over the queue. */
module GreedyDrain {
  import opened Spec
  import opened CoordinatorModel

  /** The loop of `drain_queue` run without interference; `clock(i)` is read at the i-th start. */
  function DrainAll(sha: seq<Byte> -> InstanceId, st: State, clock: nat -> nat, i: nat): State
    decreases |st.queue|
  {
    var k := FirstReady(st.index, st.queue);
    if k == |st.queue| then st
    else DrainAll(sha, StartEntry(sha, st, k, clock(i)), clock, i + 1)
  }

  /** The keys of the starts an uninterrupted drain makes are not in use. */
  predicate KeysFree(sha: seq<Byte> -> InstanceId, st: State, clock: nat -> nat, i: nat)
    decreases |st.queue|
  {
    var k := FirstReady(st.index, st.queue);
    k < |st.queue| ==>
      NextKeyFree(sha, st, st.queue[k].request) && KeysFree(sha, StartEntry(sha, st, k, clock(i)), clock, i + 1)
  }

  lemma {:induction false} DrainAllKeepsInv(sha: seq<Byte> -> InstanceId, st: State, clock: nat -> nat, i: nat)
    requires Inv(st) && KeysFree(sha, st, clock, i)
    ensures Inv(DrainAll(sha, st, clock, i))
    decreases |st.queue|
  {
    var k := FirstReady(st.index, st.queue);
    if k < |st.queue| {
      StartEntryKeepsInv(sha, st, k, clock(i));
      DrainAllKeepsInv(sha, StartEntry(sha, st, k, clock(i)), clock, i + 1);
    }
  }

  ghost predicate Free(busy: set<ChainId>, e: PendingEntry) {
    busy !! Elems(e.chains)
  }

  /** The greedy pass: entries that start, and entries that stay. */
  ghost function Started(busy: set<ChainId>, queue: seq<PendingEntry>): seq<PendingEntry>
    decreases |queue|
  {
    if queue == [] then []
    else if Free(busy, queue[0]) then [queue[0]] + Started(busy + Elems(queue[0].chains), queue[1..])
    else Started(busy, queue[1..])
  }

  ghost function Leftover(busy: set<ChainId>, queue: seq<PendingEntry>): seq<PendingEntry>
    decreases |queue|
  {
    if queue == [] then []
    else if Free(busy, queue[0]) then Leftover(busy + Elems(queue[0].chains), queue[1..])
    else [queue[0]] + Leftover(busy, queue[1..])
  }

  lemma {:induction false} LeftoverNoLonger(busy: set<ChainId>, queue: seq<PendingEntry>)
    ensures |Leftover(busy, queue)| <= |queue|
    decreases |queue|
  {
    if queue != [] {
      LeftoverNoLonger(busy + Elems(queue[0].chains), queue[1..]);
      LeftoverNoLonger(busy, queue[1..]);
    }
  }

  lemma ReserveKeys(index: Index, key: string, chains: seq<ChainId>)
    ensures Reserve(index, key, chains).Keys == index.Keys + Elems(chains)
  {
  }

  lemma StartsFirst(index: Index, queue: seq<PendingEntry>, key: string)
    requires queue != [] && !Overlaps(index, queue[0].chains)
    ensures Started(index.Keys, queue) ==
            [queue[0]] + Started(Reserve(index, key, queue[0].chains).Keys, Without(queue, 0))
  {
    ReserveKeys(index, key, queue[0].chains);
    assert Free(index.Keys, queue[0]);
    assert Without(queue, 0) == queue[1..];
  }

  lemma SkipsFirst(busy: set<ChainId>, queue: seq<PendingEntry>)
    requires queue != [] && !Free(busy, queue[0])
    ensures Started(busy, queue) == Started(busy, queue[1..])
  {
  }

  lemma WithoutLater<T>(s: seq<T>, k: nat)
    requires 0 < k < |s|
    ensures Without(s, k)[0] == s[0] && Without(s, k)[1..] == Without(s[1..], k - 1)
  {
  }

  /** The first entry of the pass is the first ready one, and the rest is the pass after it has started. */
  lemma {:induction false} StartedUnfolds(index: Index, queue: seq<PendingEntry>, key: string)
    requires FirstReady(index, queue) < |queue|
    ensures var k := FirstReady(index, queue);
            Started(index.Keys, queue) ==
            [queue[k]] + Started(Reserve(index, key, queue[k].chains).Keys, Without(queue, k))
    decreases |queue|
  {
    var k := FirstReady(index, queue);
    if k == 0 {
      StartsFirst(index, queue, key);
    } else {
      var index' := Reserve(index, key, queue[k].chains);
      assert Overlaps(index, queue[0].chains) && !Free(index.Keys, queue[0]);
      SkipsFirst(index.Keys, queue);
      StartedUnfolds(index, queue[1..], key);
      WithoutLater(queue, k);
      ReserveKeys(index, key, queue[k].chains);
      SkipsFirst(index'.Keys, Without(queue, k));
    }
  }

  lemma {:induction false} NothingStarts(index: Index, queue: seq<PendingEntry>)
    requires FirstReady(index, queue) == |queue|
    ensures Started(index.Keys, queue) == []
    decreases |queue|
  {
    if queue != [] {
      assert Overlaps(index, queue[0].chains) && !Free(index.Keys, queue[0]);
      NothingStarts(index, queue[1..]);
    }
  }

  /** Prepares a list of entries in order. */
  function PrepareEach(sha: seq<Byte> -> InstanceId, st: State, entries: seq<PendingEntry>, clock: nat -> nat,
                       i: nat): State
    decreases |entries|
  {
    if entries == [] then st
    else PrepareEach(sha, Prepare(sha, st, entries[0].request, entries[0].chains, clock(i)), entries[1..], clock, i + 1)
  }

  lemma {:induction false} FirstReadySkips(index: Index, kept: seq<PendingEntry>, rest: seq<PendingEntry>)
    requires forall j :: 0 <= j < |kept| ==> Overlaps(index, kept[j].chains)
    ensures FirstReady(index, kept + rest) == |kept| + FirstReady(index, rest)
  {
    if kept == [] {
      assert kept + rest == rest;
    } else {
      assert (kept + rest)[1..] == kept[1..] + rest;
      FirstReadySkips(index, kept[1..], rest);
    }
  }

  lemma {:induction false} QueueRides(sha: seq<Byte> -> InstanceId, st: State, q: seq<PendingEntry>,
                                      entries: seq<PendingEntry>, clock: nat -> nat, i: nat)
    ensures PrepareEach(sha, st.(queue := q), entries, clock, i) == PrepareEach(sha, st, entries, clock, i).(queue := q)
    decreases |entries|
  {
    if entries != [] {
      var e := entries[0];
      var next := Prepare(sha, st, e.request, e.chains, clock(i));
      assert Prepare(sha, st.(queue := q), e.request, e.chains, clock(i)) == next.(queue := q);
      QueueRides(sha, next, q, entries[1..], clock, i + 1);
    }
  }

  ghost function PassResult(sha: seq<Byte> -> InstanceId, st: State, kept: seq<PendingEntry>, rest: seq<PendingEntry>,
                            clock: nat -> nat, i: nat): State {
    PrepareEach(sha, st, Started(st.index.Keys, rest), clock, i).(queue := kept + Leftover(st.index.Keys, rest))
  }

  lemma PassSkips(sha: seq<Byte> -> InstanceId, st: State, kept: seq<PendingEntry>, rest: seq<PendingEntry>,
                  clock: nat -> nat, i: nat)
    requires rest != [] && Overlaps(st.index, rest[0].chains)
    ensures PassResult(sha, st, kept, rest, clock, i) == PassResult(sha, st, kept + [rest[0]], rest[1..], clock, i)
  {
  }

  lemma PassStarts(sha: seq<Byte> -> InstanceId, st: State, kept: seq<PendingEntry>, rest: seq<PendingEntry>,
                   clock: nat -> nat, i: nat)
    requires rest != [] && !Overlaps(st.index, rest[0].chains)
    ensures PassResult(sha, st, kept, rest, clock, i)
         == PassResult(sha, Prepare(sha, st, rest[0].request, rest[0].chains, clock(i)), kept, rest[1..], clock, i + 1)
  {
  }

  /** Entries already found blocked stay blocked, so restarting the search from the head changes nothing. */
  lemma {:induction false} DrainFromHere(sha: seq<Byte> -> InstanceId, st: State, kept: seq<PendingEntry>,
                                         rest: seq<PendingEntry>, clock: nat -> nat, i: nat)
    requires st.queue == kept + rest
    requires forall j :: 0 <= j < |kept| ==> Overlaps(st.index, kept[j].chains)
    ensures DrainAll(sha, st, clock, i) == PassResult(sha, st, kept, rest, clock, i)
    decreases |rest|
  {
    if rest == [] {
      FirstReadySkips(st.index, kept, rest);
      assert kept + [] == kept;
    } else {
      var e, rest' := rest[0], rest[1..];
      if Overlaps(st.index, e.chains) {
        assert kept + rest == (kept + [e]) + rest';
        DrainFromHere(sha, st, kept + [e], rest', clock, i);
        PassSkips(sha, st, kept, rest, clock, i);
      } else {
        DrainStarts(sha, st, kept, rest, clock, i);
        PassStarts(sha, st, kept, rest, clock, i);
      }
    }
  }

  /** The first entry of `rest` is the next to start. */
  lemma NextToStart(sha: seq<Byte> -> InstanceId, st: State, kept: seq<PendingEntry>, rest: seq<PendingEntry>, now: nat)
    requires st.queue == kept + rest && rest != [] && !Overlaps(st.index, rest[0].chains)
    requires forall j :: 0 <= j < |kept| ==> Overlaps(st.index, kept[j].chains)
    ensures FirstReady(st.index, st.queue) == |kept|
    ensures StartEntry(sha, st, |kept|, now) ==
            Prepare(sha, st, rest[0].request, rest[0].chains, now).(queue := kept + rest[1..])
  {
    FirstReadySkips(st.index, kept, rest);
    ReadyAtOnce(st.index, rest);
    WithoutMiddle(kept, rest);
    StartEntryIs(sha, st, |kept|, now, rest[0], kept + rest[1..]);
  }

  lemma ReadyAtOnce(index: Index, queue: seq<PendingEntry>)
    requires queue != [] && !Overlaps(index, queue[0].chains)
    ensures FirstReady(index, queue) == 0
  {
  }

  lemma StartEntryIs(sha: seq<Byte> -> InstanceId, st: State, k: nat, now: nat, e: PendingEntry, q: seq<PendingEntry>)
    requires k < |st.queue| && st.queue[k] == e && Without(st.queue, k) == q
    ensures StartEntry(sha, st, k, now) == Prepare(sha, st, e.request, e.chains, now).(queue := q)
  {
  }

  lemma WithoutMiddle<T>(kept: seq<T>, rest: seq<T>)
    requires rest != []
    ensures Without(kept + rest, |kept|) == kept + rest[1..] && (kept + rest)[|kept|] == rest[0]
  {
  }

  lemma KeptStayBlocked(sha: seq<Byte> -> InstanceId, st: State, kept: seq<PendingEntry>, e: PendingEntry, now: nat)
    requires forall j :: 0 <= j < |kept| ==> Overlaps(st.index, kept[j].chains)
    ensures forall j :: 0 <= j < |kept| ==> Overlaps(Prepare(sha, st, e.request, e.chains, now).index, kept[j].chains)
  {
    forall j | 0 <= j < |kept|
      ensures Overlaps(Prepare(sha, st, e.request, e.chains, now).index, kept[j].chains)
    {
      ReserveOnlyAdds(st.index, Key(NextInstance(sha, st, e.request)), e.chains, kept[j].chains);
    }
  }

  lemma DrainUnfolds(sha: seq<Byte> -> InstanceId, st: State, clock: nat -> nat, i: nat, k: nat)
    requires k == FirstReady(st.index, st.queue) && k < |st.queue|
    ensures DrainAll(sha, st, clock, i) == DrainAll(sha, StartEntry(sha, st, k, clock(i)), clock, i + 1)
  {
  }

  lemma PassIgnoresQueue(sha: seq<Byte> -> InstanceId, st: State, q: seq<PendingEntry>, kept: seq<PendingEntry>,
                         rest: seq<PendingEntry>, clock: nat -> nat, i: nat)
    ensures PassResult(sha, st.(queue := q), kept, rest, clock, i) == PassResult(sha, st, kept, rest, clock, i)
  {
    QueueRides(sha, st, q, Started(st.index.Keys, rest), clock, i);
  }

  lemma DrainStarts(sha: seq<Byte> -> InstanceId, st: State, kept: seq<PendingEntry>, rest: seq<PendingEntry>,
                    clock: nat -> nat, i: nat)
    requires st.queue == kept + rest && rest != [] && !Overlaps(st.index, rest[0].chains)
    requires forall j :: 0 <= j < |kept| ==> Overlaps(st.index, kept[j].chains)
    ensures DrainAll(sha, st, clock, i)
         == PassResult(sha, Prepare(sha, st, rest[0].request, rest[0].chains, clock(i)), kept, rest[1..], clock, i + 1)
    decreases |rest|, 0
  {
    var e, q := rest[0], kept + rest[1..];
    var prepared := Prepare(sha, st, e.request, e.chains, clock(i));
    NextToStart(sha, st, kept, rest, clock(i));
    DrainUnfolds(sha, st, clock, i, |kept|);
    KeptStayBlocked(sha, st, kept, e, clock(i));
    DrainFromHere(sha, prepared.(queue := q), kept, rest[1..], clock, i + 1);
    PassIgnoresQueue(sha, prepared, q, kept, rest[1..], clock, i + 1);
  }

  /** Draining without interference prepares exactly the entries of one greedy pass, in order, and leaves the
      others in order. */
  lemma DrainIsGreedy(sha: seq<Byte> -> InstanceId, st: State, clock: nat -> nat, i: nat)
    ensures var st' := DrainAll(sha, st, clock, i);
            && st'.queue == Leftover(st.index.Keys, st.queue)
            && st' == PrepareEach(sha, st, Started(st.index.Keys, st.queue), clock, i).(queue := st'.queue)
  {
    assert [] + st.queue == st.queue;
    DrainFromHere(sha, st, [], st.queue, clock, i);
    assert [] + Leftover(st.index.Keys, st.queue) == Leftover(st.index.Keys, st.queue);
  }

  // ---- The pass characterised without a pass ----

  /** Entry `i` fits when it avoids the busy chains and every earlier entry that fits. */
  ghost predicate Fits(busy: set<ChainId>, queue: seq<PendingEntry>, i: nat)
    requires i < |queue|
    decreases i
  {
    Free(busy, queue[i]) && forall j :: 0 <= j < i && Fits(busy, queue, j) ==> Free(Elems(queue[j].chains), queue[i])
  }

  /** The entries among the first `n` that fit, or that do not, in order. */
  ghost function Select(busy: set<ChainId>, queue: seq<PendingEntry>, n: nat, fitting: bool): seq<PendingEntry>
    requires n <= |queue|
  {
    if n == 0 then []
    else Select(busy, queue, n - 1, fitting) + if Fits(busy, queue, n - 1) == fitting then [queue[n - 1]] else []
  }

  /** Chains busy after the first `n` entries have had their turn. */
  ghost function BusyAfter(busy: set<ChainId>, queue: seq<PendingEntry>, n: nat): set<ChainId>
    requires n <= |queue|
  {
    if n == 0 then busy
    else BusyAfter(busy, queue, n - 1) + if Fits(busy, queue, n - 1) then Elems(queue[n - 1].chains) else {}
  }

  lemma {:induction false} BusyMeans(busy: set<ChainId>, queue: seq<PendingEntry>, n: nat)
    requires n <= |queue|
    ensures forall c :: c in BusyAfter(busy, queue, n) <==>
              c in busy || exists j :: 0 <= j < n && Fits(busy, queue, j) && c in queue[j].chains
  {
    if n > 0 { BusyMeans(busy, queue, n - 1); }
  }

  lemma FitsMeansFree(busy: set<ChainId>, queue: seq<PendingEntry>, n: nat)
    requires n < |queue|
    ensures Fits(busy, queue, n) <==> Free(BusyAfter(busy, queue, n), queue[n])
  {
    BusyMeans(busy, queue, n);
    if Fits(busy, queue, n) {
      forall c | c in BusyAfter(busy, queue, n)
        ensures c !in Elems(queue[n].chains)
      {
        if c !in busy {
          var j :| 0 <= j < n && Fits(busy, queue, j) && c in queue[j].chains;
          assert c in Elems(queue[j].chains);
        }
      }
    }
    if Free(BusyAfter(busy, queue, n), queue[n]) {
      forall j | 0 <= j < n && Fits(busy, queue, j)
        ensures Free(Elems(queue[j].chains), queue[n])
      {
        assert forall c :: c in Elems(queue[j].chains) ==> c in BusyAfter(busy, queue, n);
      }
      assert forall c :: c in busy ==> c in BusyAfter(busy, queue, n);
    }
  }

  lemma SelectStep(busy: set<ChainId>, queue: seq<PendingEntry>, n: nat)
    requires n < |queue|
    ensures var now, now' := BusyAfter(busy, queue, n), BusyAfter(busy, queue, n + 1);
            && Select(busy, queue, n, true) + Started(now, queue[n..]) ==
              Select(busy, queue, n + 1, true) + Started(now', queue[n + 1..])
            && Select(busy, queue, n, false) + Leftover(now, queue[n..]) ==
              Select(busy, queue, n + 1, false) + Leftover(now', queue[n + 1..])
  {
    FitsMeansFree(busy, queue, n);
    var now, now' := BusyAfter(busy, queue, n), BusyAfter(busy, queue, n + 1);
    var rest := queue[n..];
    assert rest[0] == queue[n] && rest[1..] == queue[n + 1..];
    if Fits(busy, queue, n) {
      assert Started(now, rest) == [queue[n]] + Started(now', queue[n + 1..]);
      assert Leftover(now, rest) == Leftover(now', queue[n + 1..]);
    } else {
      assert now' == now;
      assert Started(now, rest) == Started(now', queue[n + 1..]);
      assert Leftover(now, rest) == [queue[n]] + Leftover(now', queue[n + 1..]);
    }
  }

  lemma {:induction false} PassFromHere(busy: set<ChainId>, queue: seq<PendingEntry>, n: nat)
    requires n <= |queue|
    ensures var now := BusyAfter(busy, queue, n);
            && Select(busy, queue, n, true) + Started(now, queue[n..]) == Select(busy, queue, |queue|, true)
            && Select(busy, queue, n, false) + Leftover(now, queue[n..]) == Select(busy, queue, |queue|, false)
    decreases |queue| - n
  {
    if n < |queue| {
      SelectStep(busy, queue, n);
      PassFromHere(busy, queue, n + 1);
    } else {
      assert queue[n..] == [];
    }
  }

  /** The greedy pass starts the entries that fit and keeps the others; what starts is pairwise disjoint and
      disjoint from the busy chains, and whatever stays meets a chain that is busy at the end. */
  lemma GreedyPicks(busy: set<ChainId>, queue: seq<PendingEntry>)
    ensures Started(busy, queue) == Select(busy, queue, |queue|, true)
    ensures Leftover(busy, queue) == Select(busy, queue, |queue|, false)
    ensures forall i, j :: 0 <= i < j < |queue| && Fits(busy, queue, i) && Fits(busy, queue, j) ==>
              Elems(queue[i].chains) !! Elems(queue[j].chains)
    ensures forall i :: 0 <= i < |queue| && !Fits(busy, queue, i) ==>
              !Free(BusyAfter(busy, queue, |queue|), queue[i])
  {
    PassFromHere(busy, queue, 0);
    assert queue[0..] == queue;
    assert [] + Started(busy, queue) == Started(busy, queue);
    assert [] + Leftover(busy, queue) == Leftover(busy, queue);
    forall i | 0 <= i < |queue| && !Fits(busy, queue, i)
      ensures !Free(BusyAfter(busy, queue, |queue|), queue[i])
    {
      FitsMeansFree(busy, queue, i);
      BusyMeans(busy, queue, i);
      BusyMeans(busy, queue, |queue|);
    }
  }

  /** After the drain every entry still queued overlaps an active chain, so a second drain does nothing. */
  lemma {:induction false} DrainLeavesBlocked(sha: seq<Byte> -> InstanceId, st: State, clock: nat -> nat, i: nat)
    ensures var st' := DrainAll(sha, st, clock, i);
            FirstReady(st'.index, st'.queue) == |st'.queue| && DrainAll(sha, st', clock, i) == st'
    decreases |st.queue|
  {
    var k := FirstReady(st.index, st.queue);
    if k < |st.queue| {
      DrainLeavesBlocked(sha, StartEntry(sha, st, k, clock(i)), clock, i + 1);
    }
  }
}
