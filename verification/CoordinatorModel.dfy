/** The two-phase-commit part of `CoordinatorState` (crates/coordinator/src/coordinator.rs) as a value:
    what each lock-held section does to it, and the invariant those sections keep. */
module CoordinatorModel {
  import opened Spec
  import opened Encoding
  import opened InstanceIds

  const MAX_PENDING_QUEUE_SIZE: nat := 100

  datatype ActiveXt = ActiveXt(chains: seq<ChainId>, votes: map<ChainId, bool>, idBytes: seq<Byte>, startTime: nat)

  datatype PendingEntry = PendingEntry(request: XtRequest, chains: seq<ChainId>)

  type Table = map<string, ActiveXt>
  type Index = map<ChainId, string>

  datatype State = State(active: Table, index: Index, queue: seq<PendingEntry>, period: nat, nextSeq: nat)

  /** `Decided` as put on the wire. */
  datatype Decided = Decided(idBytes: seq<Byte>, commit: bool)

  function Initial(): State {
    State(map[], map[], [], 0, 1)
  }

  predicate Overlaps(index: Index, chains: seq<ChainId>) {
    exists c :: c in chains && c in index
  }

  function Reserve(index: Index, key: string, chains: seq<ChainId>): Index {
    index + map c | c in chains :: key
  }

  /** Frees the chains of `chains` that are still reserved for `key`. */
  function Release(index: Index, key: string, chains: seq<ChainId>): Index {
    map c | c in index && !(c in chains && index[c] == key) :: index[c]
  }

  /** The instance the next start would create. */
  function NextInstance(sha: seq<Byte> -> InstanceId, st: State, request: XtRequest): Instance {
    Instance(sha(Preimage(st.period, st.nextSeq, request)), st.period, st.nextSeq, request)
  }

  function Key(instance: Instance): string {
    Hex(instance.id)
  }

  function Prepare(sha: seq<Byte> -> InstanceId, st: State, request: XtRequest, chains: seq<ChainId>, now: nat): State {
    var instance := NextInstance(sha, st, request);
    st.(active := st.active[Key(instance) := ActiveXt(chains, map[], instance.id, now)],
        index := Reserve(st.index, Key(instance), chains),
        nextSeq := st.nextSeq + 1)
  }

  /** Removes an active transaction together with its reservations. */
  function Drop(st: State, key: string): State {
    if key in st.active then
      st.(active := st.active - {key}, index := Release(st.index, key, st.active[key].chains))
    else st
  }

  function DropEach(st: State, keys: seq<string>): State {
    if keys == [] then st else Drop(DropEach(st, keys[..|keys| - 1]), keys[|keys| - 1])
  }

  function CheckDecision(xt: ActiveXt): Option<bool> {
    if |xt.votes| < |xt.chains| then None else Some(forall c :: c in xt.votes ==> xt.votes[c])
  }

  /** Whether a vote is recorded: known instance, participant, first vote. */
  predicate Counts(st: State, key: string, chain: ChainId) {
    key in st.active && chain in st.active[key].chains && chain !in st.active[key].votes
  }

  function WithVote(st: State, key: string, chain: ChainId, vote: bool): State
    requires key in st.active
  {
    var xt := st.active[key];
    st.(active := st.active[key := xt.(votes := xt.votes[chain := vote])])
  }

  /** The decision a recorded vote brings about, if any. */
  function Outcome(st: State, key: string, chain: ChainId, vote: bool): Option<bool>
    requires key in st.active
  {
    if !vote then Some(false) else CheckDecision(WithVote(st, key, chain, vote).active[key])
  }

  function RecordVote(st: State, key: string, chain: ChainId, vote: bool): State {
    if !Counts(st, key, chain) then st
    else
      var voted := WithVote(st, key, chain, vote);
      if Outcome(st, key, chain, vote).None? then voted else Drop(voted, key)
  }

  /** Keys of the transactions whose time is up. */
  function Expired(st: State, now: nat, timeout: nat): set<string> {
    set x | x in st.active && Elapsed(now, st.active[x].startTime) >= timeout
  }

  /** A time limit is up: that much time has passed since `start`. */
  lemma ExpiredMeans(st: State, now: nat, timeout: nat, x: string)
    ensures x in Expired(st, now, timeout) <==>
            x in st.active && (timeout == 0 || st.active[x].startTime + timeout <= now)
  {
  }

  /** Position of the first queued entry that overlaps no active chain, or the queue length. */
  function FirstReady(index: Index, queue: seq<PendingEntry>): (k: nat)
    ensures k <= |queue|
    ensures forall j :: 0 <= j < k ==> Overlaps(index, queue[j].chains)
    ensures k < |queue| ==> !Overlaps(index, queue[k].chains)
  {
    if queue == [] || !Overlaps(index, queue[0].chains) then 0 else 1 + FirstReady(index, queue[1..])
  }

  /** The locked section of `handle_xt_request`. */
  function Admit(sha: seq<Byte> -> InstanceId, st: State, request: XtRequest, now: nat): State {
    var chains := ChainsOf(request);
    if |chains| < 2 then st
    else if !Overlaps(st.index, chains) then Prepare(sha, st, request, chains, now)
    else if |st.queue| >= MAX_PENDING_QUEUE_SIZE then st
    else st.(queue := st.queue + [PendingEntry(request, chains)])
  }

  /** Takes entry `k` out of the queue and prepares it. */
  function StartEntry(sha: seq<Byte> -> InstanceId, st: State, k: nat, now: nat): (st': State)
    requires k < |st.queue|
    ensures st'.queue == Without(st.queue, k)
  {
    var e := st.queue[k];
    Prepare(sha, st.(queue := Without(st.queue, k)), e.request, e.chains, now)
  }

  /** One locked section of `drain_queue`. */
  function DrainOnce(sha: seq<Byte> -> InstanceId, st: State, now: nat): State {
    var k := FirstReady(st.index, st.queue);
    if k == |st.queue| then st else StartEntry(sha, st, k, now)
  }

  function NewPeriod(st: State): State {
    st.(period := st.period + 1, nextSeq := 1)
  }

  // ---- Invariant ----

  ghost predicate IndexPointsIntoTable(active: Table, index: Index) {
    forall c :: c in index ==> index[c] in active && c in active[index[c]].chains
  }

  ghost predicate TableIsIndexed(active: Table, index: Index) {
    forall x, c :: x in active && c in active[x].chains ==> c in index && index[c] == x
  }

  /** The index is the inverse of the table: `index[c] == x` exactly when `x` is active on `c`. */
  ghost predicate Agrees(active: Table, index: Index) {
    IndexPointsIntoTable(active, index) && TableIsIndexed(active, index)
  }

  /** An undecided instance: distinct participants, "yes" votes only, some vote still missing. */
  ghost predicate Undecided(xt: ActiveXt) {
    && NoDup(xt.chains) && |xt.chains| >= 2
    && (forall c :: c in xt.votes ==> c in xt.chains && xt.votes[c])
    && |xt.votes| < |xt.chains|
  }

  ghost predicate EntryOk(e: PendingEntry) {
    e.chains == ChainsOf(e.request) && |e.chains| >= 2
  }

  ghost predicate Inv(st: State) {
    && Agrees(st.active, st.index)
    && (forall x :: x in st.active ==> Undecided(st.active[x]) && x == Hex(st.active[x].idBytes))
    && (forall i :: 0 <= i < |st.queue| ==> EntryOk(st.queue[i]))
    && |st.queue| <= MAX_PENDING_QUEUE_SIZE
  }

  /** Active transactions never share a chain. */
  lemma ActiveDisjoint(st: State, x: string, y: string)
    requires Inv(st) && x in st.active && y in st.active && x != y
    ensures Elems(st.active[x].chains) !! Elems(st.active[y].chains)
  {
    forall c | c in st.active[x].chains
      ensures c !in st.active[y].chains
    {
      assert st.index[c] == x;
    }
  }

  /** A request overlaps exactly when it shares a chain with some active transaction. */
  lemma OverlapMeansShared(st: State, chains: seq<ChainId>)
    requires Inv(st)
    ensures Overlaps(st.index, chains) <==>
            exists x, c :: x in st.active && c in st.active[x].chains && c in chains
  {
  }

  lemma ReserveKeepsAgreement(active: Table, index: Index, key: string, xt: ActiveXt)
    requires Agrees(active, index) && key !in active && !Overlaps(index, xt.chains)
    ensures Agrees(active[key := xt], Reserve(index, key, xt.chains))
  {
  }

  lemma PrepareKeepsInv(sha: seq<Byte> -> InstanceId, st: State, request: XtRequest, now: nat)
    requires Inv(st)
    requires |ChainsOf(request)| >= 2 && !Overlaps(st.index, ChainsOf(request))
    requires Key(NextInstance(sha, st, request)) !in st.active
    ensures Inv(Prepare(sha, st, request, ChainsOf(request), now))
  {
    var instance := NextInstance(sha, st, request);
    ReserveKeepsAgreement(st.active, st.index, Key(instance),
                          ActiveXt(ChainsOf(request), map[], instance.id, now));
  }

  lemma DropKeepsAgreement(st: State, key: string)
    requires Agrees(st.active, st.index)
    ensures Agrees(Drop(st, key).active, Drop(st, key).index)
  {
  }

  lemma DropKeepsInv(st: State, key: string)
    requires Inv(st)
    ensures Inv(Drop(st, key))
  {
    DropKeepsAgreement(st, key);
  }

  /** The cardinality step of `check_decision`: as many distinct votes as participants means every
      participant has voted. */
  lemma FullVote(xt: ActiveXt)
    requires NoDup(xt.chains)
    requires forall c :: c in xt.votes ==> c in xt.chains
    ensures |xt.votes| >= |xt.chains| <==> xt.votes.Keys == Elems(xt.chains)
  {
    NoDupCardinality(xt.chains);
    assert |xt.votes| == |xt.votes.Keys|;
    assert xt.votes.Keys <= Elems(xt.chains);
    if |xt.votes| >= |xt.chains| {
      SubsetOfSameSize(xt.votes.Keys, Elems(xt.chains));
    }
  }

  /** A recorded vote decides exactly when it is a "no" or the last missing "yes"; it commits exactly
      when every participant has now said "yes". */
  lemma OutcomeMeaning(st: State, key: string, chain: ChainId, vote: bool)
    requires Inv(st) && Counts(st, key, chain)
    ensures var xt := WithVote(st, key, chain, vote).active[key];
            var full := xt.votes.Keys == Elems(xt.chains);
            && (Outcome(st, key, chain, vote).Some? <==> !vote || full)
            && (Outcome(st, key, chain, vote) == Some(true) <==>
                full && forall c :: c in xt.chains ==> c in xt.votes && xt.votes[c])
  {
    var xt := WithVote(st, key, chain, vote).active[key];
    FullVote(xt);
    if vote && xt.votes.Keys == Elems(xt.chains) {
      assert forall c :: c in xt.votes ==> xt.votes[c];
    }
    if !vote {
      assert chain in xt.chains && !xt.votes[chain];
    }
  }

  /** Agreement depends on the participants recorded in the table, not on votes. */
  lemma AgreementIgnoresVotes(active: Table, index: Index, key: string, xt: ActiveXt)
    requires Agrees(active, index) && key in active && xt.chains == active[key].chains
    ensures Agrees(active[key := xt], index)
  {
  }

  lemma RecordVoteKeepsInv(st: State, key: string, chain: ChainId, vote: bool)
    requires Inv(st)
    ensures Inv(RecordVote(st, key, chain, vote))
  {
    if Counts(st, key, chain) {
      var voted := WithVote(st, key, chain, vote);
      AgreementIgnoresVotes(st.active, st.index, key, voted.active[key]);
      if Outcome(st, key, chain, vote).None? {
        assert Undecided(voted.active[key]);
      } else {
        DropKeepsAgreement(voted, key);
      }
    }
  }

  /** What recording a vote does to the table. */
  lemma RecordVoteTable(st: State, key: string, chain: ChainId, vote: bool)
    requires Counts(st, key, chain)
    ensures var st' := RecordVote(st, key, chain, vote);
            if Outcome(st, key, chain, vote).None?
            then st' == WithVote(st, key, chain, vote)
            else st'.active == st.active - {key} && st'.index == Drop(st, key).index
  {
  }

  /** The vote is counted and decides: a participant's first vote, which is a "no" or the last one missing. */
  ghost predicate VoteDecides(xt: ActiveXt, chain: ChainId, vote: bool) {
    && chain in xt.chains && chain !in xt.votes
    && (!vote || forall c :: c in xt.chains && c != chain ==> c in xt.votes)
  }

  /** The vote is a "yes" and every other participant has said "yes". */
  ghost predicate VoteCommits(xt: ActiveXt, chain: ChainId, vote: bool) {
    vote && forall c :: c in xt.chains && c != chain ==> c in xt.votes && xt.votes[c]
  }

  lemma DecisionOnVotes(st: State, key: string, chain: ChainId, vote: bool)
    requires Inv(st)
    ensures Counts(st, key, chain) && Outcome(st, key, chain, vote).Some? <==>
            key in st.active && VoteDecides(st.active[key], chain, vote)
    ensures Counts(st, key, chain) && Outcome(st, key, chain, vote).Some? ==>
              (Outcome(st, key, chain, vote).value <==> VoteCommits(st.active[key], chain, vote))
  {
    if Counts(st, key, chain) {
      OutcomeMeaning(st, key, chain, vote);
      FullExceptOne(st.active[key], chain, vote);
    }
  }

  lemma FullExceptOne(xt: ActiveXt, chain: ChainId, vote: bool)
    requires Undecided(xt) && chain in xt.chains
    ensures xt.votes[chain := vote].Keys == Elems(xt.chains) <==>
            forall c :: c in xt.chains && c != chain ==> c in xt.votes
  {
    var votes := xt.votes[chain := vote];
    if votes.Keys == Elems(xt.chains) {
      forall c | c in xt.chains && c != chain
        ensures c in xt.votes
      {
        assert c in Elems(xt.chains);
      }
    }
  }

  /** The bytes of a vote that decides are those the instance was started with, and the instance is gone. */
  lemma DecisionClosesInstance(st: State, idBytes: seq<Byte>, chain: ChainId, vote: bool)
    requires Inv(st)
    ensures var key, st' := Hex(idBytes), RecordVote(st, Hex(idBytes), chain, vote);
            Counts(st, key, chain) && Outcome(st, key, chain, vote).Some? ==>
              key !in st'.active && st.active[key].idBytes == idBytes
  {
    var key := Hex(idBytes);
    if Counts(st, key, chain) && Outcome(st, key, chain, vote).Some? {
      RecordVoteTable(st, key, chain, vote);
      HexInjective(idBytes, st.active[key].idBytes);
    }
  }

  lemma {:induction false} DropEachTable(st: State, keys: seq<string>)
    ensures DropEach(st, keys).active == st.active - Elems(keys)
    ensures DropEach(st, keys) == st.(active := DropEach(st, keys).active, index := DropEach(st, keys).index)
  {
    if keys == [] {
      assert st.active - Elems(keys) == st.active;
    } else {
      var last := |keys| - 1;
      DropEachTable(st, keys[..last]);
      assert Elems(keys) == Elems(keys[..last]) + {keys[last]};
    }
  }

  lemma QueueKeepsInv(st: State, queue: seq<PendingEntry>)
    requires Inv(st)
    requires |queue| <= MAX_PENDING_QUEUE_SIZE && forall i :: 0 <= i < |queue| ==> EntryOk(queue[i])
    ensures Inv(st.(queue := queue))
  {
  }

  lemma {:induction false} DropEachKeepsInv(st: State, keys: seq<string>)
    requires Inv(st)
    ensures Inv(DropEach(st, keys))
  {
    if keys != [] {
      DropEachKeepsInv(st, keys[..|keys| - 1]);
      DropKeepsInv(DropEach(st, keys[..|keys| - 1]), keys[|keys| - 1]);
    }
  }

  /** Whatever the order, dropping the expired transactions keeps the invariant and leaves none expired. */
  lemma DropExpiredKeepsInv(st: State, now: nat, timeout: nat)
    requires Inv(st)
    ensures forall keys {:trigger DropEach(st, keys)} :: Elems(keys) == Expired(st, now, timeout) ==>
              var st' := DropEach(st, keys);
              Inv(st') && st'.active == st.active - Elems(keys) && Expired(st', now, timeout) == {}
  {
    forall keys | Elems(keys) == Expired(st, now, timeout)
      ensures Inv(DropEach(st, keys)) && DropEach(st, keys).active == st.active - Elems(keys)
      ensures Expired(DropEach(st, keys), now, timeout) == {}
    {
      DropEachKeepsInv(st, keys);
      DropEachTable(st, keys);
    }
  }

  /** The key of the next start is not in use; it never is while identifiers do not collide. */
  predicate NextKeyFree(sha: seq<Byte> -> InstanceId, st: State, request: XtRequest) {
    Key(NextInstance(sha, st, request)) !in st.active
  }

  lemma AdmitKeepsInv(sha: seq<Byte> -> InstanceId, st: State, request: XtRequest, now: nat)
    requires Inv(st) && NextKeyFree(sha, st, request)
    ensures Inv(Admit(sha, st, request, now))
  {
    var chains := ChainsOf(request);
    if |chains| >= 2 {
      if !Overlaps(st.index, chains) {
        PrepareKeepsInv(sha, st, request, now);
      } else if |st.queue| < MAX_PENDING_QUEUE_SIZE {
        assert EntryOk(PendingEntry(request, chains));
        QueueKeepsInv(st, st.queue + [PendingEntry(request, chains)]);
      }
    }
  }

  lemma StartEntryKeepsInv(sha: seq<Byte> -> InstanceId, st: State, k: nat, now: nat)
    requires Inv(st) && k < |st.queue| && !Overlaps(st.index, st.queue[k].chains)
    requires NextKeyFree(sha, st, st.queue[k].request)
    ensures Inv(StartEntry(sha, st, k, now))
  {
    assert EntryOk(st.queue[k]);
    var rest := st.(queue := Without(st.queue, k));
    QueueKeepsInv(st, Without(st.queue, k));
    assert NextInstance(sha, rest, st.queue[k].request) == NextInstance(sha, st, st.queue[k].request);
    PrepareKeepsInv(sha, rest, st.queue[k].request, now);
  }

  lemma NewPeriodKeepsInv(st: State)
    requires Inv(st)
    ensures Inv(NewPeriod(st))
  {
  }

  // ---- Period changes ----

  lemma DropIgnoresPeriod(st: State, key: string)
    ensures Drop(NewPeriod(st), key) == NewPeriod(Drop(st, key))
  {
  }

  /** A period change and a vote may come in either order: an instance of an old period runs on undisturbed, and
      the queue and every reservation stay as they are. */
  lemma VoteIgnoresPeriod(st: State, key: string, chain: ChainId, vote: bool)
    ensures RecordVote(NewPeriod(st), key, chain, vote) == NewPeriod(RecordVote(st, key, chain, vote))
    ensures Counts(NewPeriod(st), key, chain) == Counts(st, key, chain)
    ensures Counts(st, key, chain) ==> Outcome(NewPeriod(st), key, chain, vote) == Outcome(st, key, chain, vote)
  {
    if Counts(st, key, chain) {
      assert WithVote(NewPeriod(st), key, chain, vote) == NewPeriod(WithVote(st, key, chain, vote));
      DropIgnoresPeriod(WithVote(st, key, chain, vote), key);
    }
  }

  /** So may a period change and a reaping. */
  lemma {:induction false} ReapIgnoresPeriod(st: State, keys: seq<string>, now: nat, timeout: nat)
    ensures DropEach(NewPeriod(st), keys) == NewPeriod(DropEach(st, keys))
    ensures Expired(NewPeriod(st), now, timeout) == Expired(st, now, timeout)
  {
    if keys != [] {
      ReapIgnoresPeriod(st, keys[..|keys| - 1], now, timeout);
      DropIgnoresPeriod(DropEach(st, keys[..|keys| - 1]), keys[|keys| - 1]);
    }
  }

  lemma ReserveSnoc(index: Index, key: string, chains: seq<ChainId>, c: ChainId)
    ensures Reserve(index, key, chains)[c := key] == Reserve(index, key, chains + [c])
  {
  }

  lemma ReserveOnlyAdds(index: Index, key: string, more: seq<ChainId>, chains: seq<ChainId>)
    requires Overlaps(index, chains)
    ensures Overlaps(Reserve(index, key, more), chains)
  {
  }
}
