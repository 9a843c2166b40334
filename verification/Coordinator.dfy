/** `CoordinatorState` as the mutable object it is in crates/coordinator/src/coordinator.rs.  Every method is
    one operation on the locked state and is proved against the value functions of `CoordinatorModel` and
    `ProofCollection`, about which the whole-run results are stated. */
module Coordinator {
  import opened Spec
  import opened Encoding
  import opened InstanceIds
  import opened CoordinatorModel
  import GreedyDrain
  import PC = ProofCollection

  datatype Admission = TooFewChains | QueueFull | Queued | Started(instance: Instance)

  /** What each answer to a request means: exactly when it is given, and the state it leaves. */
  ghost predicate AdmittedAs(sha: seq<Byte> -> InstanceId, was: State, request: XtRequest, now: nat, r: Admission,
                             st: State)
  {
    var chains := ChainsOf(request);
    match r
    case TooFewChains => |chains| < 2 && st == was
    case QueueFull => |chains| >= 2 && Overlaps(was.index, chains) && |was.queue| >= 100 && st == was
    case Queued =>
      && |chains| >= 2 && Overlaps(was.index, chains) && |was.queue| < 100
      && st == was.(queue := was.queue + [PendingEntry(request, chains)])
    case Started(instance) =>
      && |chains| >= 2 && !Overlaps(was.index, chains)
      && instance == NextInstance(sha, was, request) && st == Prepare(sha, was, request, chains, now)
  }

  /** The instances broadcast for the entries, numbered from `first` on. */
  ghost predicate IssuedFor(sha: seq<Byte> -> InstanceId, period: nat, first: nat, entries: seq<PendingEntry>,
                            started: seq<Instance>)
  {
    |started| == |entries| && forall i :: 0 <= i < |entries| ==>
      && started[i].request == entries[i].request && started[i].period == period && started[i].seqNum == first + i
      && started[i].id == sha(Preimage(period, first + i, entries[i].request))
  }

  lemma IssuedOneMore(sha: seq<Byte> -> InstanceId, period: nat, first: nat, entries: seq<PendingEntry>,
                      started: seq<Instance>, e: PendingEntry, x: Instance)
    requires IssuedFor(sha, period, first, entries, started)
    requires x.request == e.request && x.period == period && x.seqNum == first + |entries|
    requires x.id == sha(Preimage(period, first + |entries|, e.request))
    ensures IssuedFor(sha, period, first, entries + [e], started + [x])
  {
  }

  /** The loop of `drain_queue` from `was` on: `done` has been started with the instances `started`, and what is left to
      do is the rest of the pass. */
  ghost predicate Draining(sha: seq<Byte> -> InstanceId, clock: nat -> nat, was: State, st: State,
                           done: seq<PendingEntry>, started: seq<Instance>)
  {
    && GreedyDrain.DrainAll(sha, st, clock, |started|) == GreedyDrain.DrainAll(sha, was, clock, 0)
    && done + GreedyDrain.Started(st.index.Keys, st.queue) == GreedyDrain.Started(was.index.Keys, was.queue)
    && IssuedFor(sha, was.period, was.nextSeq, done, started)
    && st.period == was.period && st.nextSeq == was.nextSeq + |started|
  }

  lemma DrainsOneMore(sha: seq<Byte> -> InstanceId, clock: nat -> nat, was: State, st: State, done: seq<PendingEntry>,
                      started: seq<Instance>, k: nat)
    requires Draining(sha, clock, was, st, done, started) && k == FirstReady(st.index, st.queue) && k < |st.queue|
    ensures var e := st.queue[k];
            Draining(sha, clock, was, StartEntry(sha, st, k, clock(|started|)), done + [e],
                     started + [NextInstance(sha, st, e.request)])
  {
    var e, x := st.queue[k], NextInstance(sha, st, st.queue[k].request);
    var next := StartEntry(sha, st, k, clock(|started|));
    GreedyDrain.DrainUnfolds(sha, st, clock, |started|, k);
    GreedyDrain.StartedUnfolds(st.index, st.queue, Key(x));
    IssuedOneMore(sha, was.period, was.nextSeq, done, started, e, x);
    assert next.index == Reserve(st.index, Key(x), e.chains);
    ConcatAssociative(done, [e], GreedyDrain.Started(next.index.Keys, next.queue));
  }

  lemma DrainEnds(sha: seq<Byte> -> InstanceId, clock: nat -> nat, was: State, st: State, done: seq<PendingEntry>,
                  started: seq<Instance>)
    requires Draining(sha, clock, was, st, done, started) && FirstReady(st.index, st.queue) == |st.queue|
    ensures st == GreedyDrain.DrainAll(sha, was, clock, 0)
    ensures IssuedFor(sha, was.period, was.nextSeq, GreedyDrain.Started(was.index.Keys, was.queue), started)
  {
    GreedyDrain.NothingStarts(st.index, st.queue);
    assert done + [] == done;
  }

  class CoordinatorState {
    var active: Table
    var index: Index
    var queue: seq<PendingEntry>
    var period: nat
    var nextSeq: nat

    var chainToClient: map<ChainId, string>
    var clientToChain: map<string, ChainId>
    var nextSuperblock: nat
    var lastFinalized: nat
    var lastFinalizedHash: seq<Byte>
    var pendingProofs: map<ChainId, PC.ChainProof>
    var collectionStarted: Option<nat>

    /** The two-phase-commit part of the state. */
    function Consensus(): State
      reads this
    {
      State(active, index, queue, period, nextSeq)
    }

    /** The settlement part of the state. */
    function Ledger(): PC.Ledger
      reads this
    {
      PC.Ledger(chainToClient, clientToChain, nextSuperblock, lastFinalized, lastFinalizedHash,
                pendingProofs, collectionStarted)
    }

    ghost predicate Valid()
      reads this
    {
      CoordinatorModel.Inv(Consensus()) && PC.Inv(Ledger())
    }

    constructor ()
      ensures Valid()
      ensures Consensus() == Initial() && Ledger() == PC.Fresh()
    {
      active, index, queue, period, nextSeq := map[], map[], [], 0, 1;
      chainToClient, clientToChain := map[], map[];
      nextSuperblock, lastFinalized, lastFinalizedHash := 1, 0, [];
      pendingProofs, collectionStarted := map[], None;
    }

    /** `init_from_l1`: what L1 last finalized, number and hash, and the number after it. */
    method InitFromL1(latest: Option<(nat, seq<Byte>)>)
      requires Valid()
      modifies this`lastFinalized, this`lastFinalizedHash, this`nextSuperblock
      ensures Valid() && Ledger() == PC.InitFromL1(old(Ledger()), latest)
      ensures latest.Some? ==>
                lastFinalized == latest.value.0 && lastFinalizedHash == latest.value.1 &&
                  nextSuperblock == latest.value.0 + 1
      ensures latest.None? ==> Ledger() == old(Ledger())
    {
      if latest.Some? {
        lastFinalized := latest.value.0;
        lastFinalizedHash := latest.value.1;
        nextSuperblock := latest.value.0 + 1;
      }
    }

    predicate HasOverlap(chains: seq<ChainId>)
      reads this
    {
      Overlaps(index, chains)
    }

    method ReserveChains(key: string, chains: seq<ChainId>)
      modifies this`index
      ensures index == Reserve(old(index), key, chains)
      ensures forall c :: c in index <==> c in chains || c in old(index)
      ensures forall c :: c in index ==> index[c] == if c in chains then key else old(index)[c]
    {
      for i := 0 to |chains|
        invariant index == Reserve(old(index), key, chains[..i])
      {
        ReserveSnoc(old(index), key, chains[..i], chains[i]);
        assert chains[..i + 1] == chains[..i] + [chains[i]];
        index := index[chains[i] := key];
      }
      assert chains[..|chains|] == chains;
    }

    method ReleaseChains(key: string)
      modifies this`index
      ensures index == if key in active then Release(old(index), key, active[key].chains) else old(index)
      ensures forall c :: c in index <==>
              c in old(index) && !(key in active && c in active[key].chains && old(index)[c] == key)
      ensures forall c :: c in index ==> index[c] == old(index)[c]
    {
      if key in active {
        var chains := active[key].chains;
        for i := 0 to |chains|
          invariant index == Release(old(index), key, chains[..i])
        {
          if chains[i] in index && index[chains[i]] == key {
            index := index - {chains[i]};
          }
        }
        assert chains[..|chains|] == chains;
      }
    }

    function DecisionFor(key: string): Option<bool>
      reads this
    {
      if key in active then CheckDecision(active[key]) else None
    }

    method PrepareXt(sha: seq<Byte> -> InstanceId, request: XtRequest, chains: seq<ChainId>, now: nat)
      returns (instance: Instance)
      modifies this`active, this`index, this`nextSeq
      ensures Consensus() == Prepare(sha, old(Consensus()), request, chains, now)
      ensures instance == NextInstance(sha, old(Consensus()), request)
    {
      var id := GenerateInstanceId(sha, period, nextSeq, request);
      instance := Instance(id, period, nextSeq, request);
      var key := Hex(id);
      nextSeq := nextSeq + 1;
      ReserveChains(key, chains);
      active := active[key := ActiveXt(chains, map[], id, now)];
    }

    method RecordVote(key: string, idBytes: seq<Byte>, chain: ChainId, vote: bool) returns (decided: Option<Decided>)
      modifies this`active, this`index
      ensures Consensus() == CoordinatorModel.RecordVote(old(Consensus()), key, chain, vote)
      ensures decided.Some? <==>
              Counts(old(Consensus()), key, chain) && Outcome(old(Consensus()), key, chain, vote).Some?
      ensures decided.Some? ==> decided.value == Decided(idBytes, Outcome(old(Consensus()), key, chain, vote).value)
    {
      if key !in active {
        return None;
      }
      var xt := active[key];
      if chain !in xt.chains {
        return None;
      }
      if chain in xt.votes {
        return None;
      }
      active := active[key := xt.(votes := xt.votes[chain := vote])];
      var decision := if !vote then Some(false) else DecisionFor(key);
      if decision.None? {
        return None;
      }
      ReleaseChains(key);
      active := active - {key};
      decided := Some(Decided(idBytes, decision.value));
    }

    /** `handle_vote`: the key is the hexadecimal text of whatever bytes the vote carries.  There is a decision
        exactly if this is a participant's first vote and a "no" or the last one missing; it is to commit exactly if
        all participants have now said "yes". */
    method HandleVote(idBytes: seq<Byte>, chain: ChainId, vote: bool) returns (decided: Option<Decided>)
      requires Valid()
      modifies this`active, this`index
      ensures Valid()
      ensures Consensus() == CoordinatorModel.RecordVote(old(Consensus()), Hex(idBytes), chain, vote)
      ensures decided.Some? <==> Hex(idBytes) in old(active) && VoteDecides(old(active)[Hex(idBytes)], chain, vote)
      ensures decided.Some? ==>
                && Hex(idBytes) !in active
                && decided.value.idBytes == old(active[Hex(idBytes)].idBytes)
                && (decided.value.commit <==> VoteCommits(old(active)[Hex(idBytes)], chain, vote))
    {
      var key := Hex(idBytes);
      RecordVoteKeepsInv(Consensus(), key, chain, vote);
      DecisionOnVotes(Consensus(), key, chain, vote);
      DecisionClosesInstance(Consensus(), idBytes, chain, vote);
      decided := RecordVote(key, idBytes, chain, vote);
      assert active == Consensus().active && Ledger() == old(Ledger());
    }

    /** The loop of `reap_timed_out`: expired keys in whatever order the map yields them. */
    method DropExpired(now: nat, timeout: nat) returns (keys: seq<string>, wires: seq<Decided>)
      modifies this`active, this`index
      ensures NoDup(keys) && Elems(keys) == Expired(old(Consensus()), now, timeout)
      ensures Consensus() == DropEach(old(Consensus()), keys)
      ensures |wires| == |keys|
      ensures forall i :: 0 <= i < |keys| ==>
              keys[i] in old(active) && wires[i] == Decided(old(active)[keys[i]].idBytes, false)
    {
      var expired := Expired(Consensus(), now, timeout);
      keys, wires := [], [];
      var rest := expired;
      while rest != {}
        invariant rest <= expired && rest <= active.Keys
        invariant NoDup(keys) && Elems(keys) == expired - rest
        invariant Consensus() == DropEach(old(Consensus()), keys)
        invariant forall x :: x in rest ==> x in old(active) && active[x] == old(active)[x]
        invariant |wires| == |keys|
        invariant forall i :: 0 <= i < |keys| ==>
                  keys[i] in old(active) && wires[i] == Decided(old(active)[keys[i]].idBytes, false)
        decreases rest
      {
        var key :| key in rest;
        var idBytes := if key in active then active[key].idBytes else [];
        ReleaseChains(key);
        active := active - {key};
        wires := wires + [Decided(idBytes, false)];
        assert key !in Elems(keys);
        assert (keys + [key])[..|keys|] == keys;
        assert Elems(keys + [key]) == Elems(keys) + {key};
        keys := keys + [key];
        rest := rest - {key};
      }
    }

    /** Exactly the transactions started at least `timeout` ago are dropped, each once and with its own bytes, and
        none of them remains. */
    method ReapTimedOut(now: nat, timeout: nat) returns (keys: seq<string>, wires: seq<Decided>)
      requires Valid()
      modifies this`active, this`index
      ensures Valid()
      ensures NoDup(keys) && Elems(keys) == Expired(old(Consensus()), now, timeout)
      ensures Consensus() == DropEach(old(Consensus()), keys)
      ensures forall x :: x in keys <==>
              x in old(active) && (timeout == 0 || old(active)[x].startTime + timeout <= now)
      ensures active == old(active) - Elems(keys) && Expired(Consensus(), now, timeout) == {}
      ensures |wires| == |keys|
      ensures forall i :: 0 <= i < |keys| ==>
              keys[i] in old(active) && wires[i] == Decided(old(active)[keys[i]].idBytes, false)
    {
      DropExpiredKeepsInv(Consensus(), now, timeout);
      keys, wires := DropExpired(now, timeout);
      assert Consensus() == DropEach(old(Consensus()), keys);
      forall x
        ensures x in keys <==> x in old(active) && (timeout == 0 || old(active)[x].startTime + timeout <= now)
      {
        ExpiredMeans(old(Consensus()), now, timeout, x);
        assert x in keys <==> x in Elems(keys);
      }
    }

    method TakeNextReady() returns (entry: Option<PendingEntry>)
      modifies this`queue
      ensures var k := FirstReady(index, old(queue));
              if k == |old(queue)| then entry == None && queue == old(queue)
              else entry == Some(old(queue)[k]) && queue == Without(old(queue), k)
    {
      var k := 0;
      while k < |queue| && HasOverlap(queue[k].chains)
        invariant k <= |queue|
        invariant FirstReady(index, queue) == k + FirstReady(index, queue[k..])
      {
        assert queue[k..][1..] == queue[k + 1..];
        k := k + 1;
      }
      if k == |queue| {
        return None;
      }
      entry := Some(queue[k]);
      queue := queue[..k] + queue[k + 1..];
    }

    /** The body of the locked section. */
    method AdmitOrQueue(sha: seq<Byte> -> InstanceId, request: XtRequest, now: nat) returns (r: Admission)
      modifies this`active, this`index, this`queue, this`nextSeq
      ensures Consensus() == Admit(sha, old(Consensus()), request, now)
      ensures AdmittedAs(sha, old(Consensus()), request, now, r, Consensus())
    {
      var chains := ChainsFromRequest(request);
      if |chains| < 2 {
        return TooFewChains;
      }
      if HasOverlap(chains) {
        if |queue| >= MAX_PENDING_QUEUE_SIZE {
          return QueueFull;
        }
        queue := queue + [PendingEntry(request, chains)];
        return Queued;
      }
      var instance := PrepareXt(sha, request, chains, now);
      r := Started(instance);
    }

    method HandleXtRequest(sha: seq<Byte> -> InstanceId, request: XtRequest, now: nat) returns (r: Admission)
      requires Valid()
      modifies this`active, this`index, this`queue, this`nextSeq
      ensures NextKeyFree(sha, old(Consensus()), request) ==> Valid()
      ensures Consensus() == Admit(sha, old(Consensus()), request, now)
      ensures AdmittedAs(sha, old(Consensus()), request, now, r, Consensus())
    {
      ghost var free := NextKeyFree(sha, Consensus(), request);
      if free {
        AdmitKeepsInv(sha, Consensus(), request, now);
      }
      r := AdmitOrQueue(sha, request, now);
    }

    /** The loop of `drain_queue` without interference: it terminates and makes the starts of one greedy pass. */
    method DrainLoop(sha: seq<Byte> -> InstanceId, clock: nat -> nat) returns (started: seq<Instance>)
      modifies this`active, this`index, this`queue, this`nextSeq
      ensures Consensus() == GreedyDrain.DrainAll(sha, old(Consensus()), clock, 0)
      ensures IssuedFor(sha, period, old(nextSeq), GreedyDrain.Started(old(index).Keys, old(queue)), started)
      ensures nextSeq == old(nextSeq) + |started|
    {
      started := [];
      ghost var done: seq<PendingEntry> := [];
      assert done + GreedyDrain.Started(index.Keys, queue) == GreedyDrain.Started(index.Keys, queue);
      var more := true;
      while more
        invariant Draining(sha, clock, old(Consensus()), Consensus(), done, started)
        invariant !more ==> FirstReady(index, queue) == |queue|
        decreases |queue|, more
      {
        ghost var before, k := Consensus(), FirstReady(index, queue);
        var entry := TakeNextReady();
        if entry.None? {
          more := false;
        } else {
          DrainsOneMore(sha, clock, old(Consensus()), before, done, started, k);
          var instance := PrepareXt(sha, entry.value.request, entry.value.chains, clock(|started|));
          assert Consensus() == StartEntry(sha, before, k, clock(|started|));
          done := done + [entry.value];
          started := started + [instance];
        }
      }
      DrainEnds(sha, clock, old(Consensus()), Consensus(), done, started);
    }

    /** Starts the entries of the greedy pass, in order and numbered on; afterwards no entry that is left could
        start. */
    method DrainQueue(sha: seq<Byte> -> InstanceId, clock: nat -> nat) returns (started: seq<Instance>)
      requires Valid()
      modifies this`active, this`index, this`queue, this`nextSeq
      ensures GreedyDrain.KeysFree(sha, old(Consensus()), clock, 0) ==> Valid()
      ensures Consensus() == GreedyDrain.DrainAll(sha, old(Consensus()), clock, 0)
      ensures queue == GreedyDrain.Leftover(old(index).Keys, old(queue))
      ensures IssuedFor(sha, period, old(nextSeq), GreedyDrain.Started(old(index).Keys, old(queue)), started)
      ensures nextSeq == old(nextSeq) + |started|
      ensures forall j :: 0 <= j < |queue| ==> Overlaps(index, queue[j].chains)
    {
      ghost var free := GreedyDrain.KeysFree(sha, Consensus(), clock, 0);
      if free {
        GreedyDrain.DrainAllKeepsInv(sha, Consensus(), clock, 0);
      }
      started := DrainLoop(sha, clock);
      GreedyDrain.DrainIsGreedy(sha, old(Consensus()), clock, 0);
      GreedyDrain.DrainLeavesBlocked(sha, old(Consensus()), clock, 0);
    }

    /** Announces the period after the current one and the superblock after the last finalized one; running and
        queued transactions are untouched, and the next start is the first of a period above all earlier ones. */
    method AdvancePeriod() returns (announced: nat, superblock: nat)
      requires Valid()
      modifies this`period, this`nextSeq
      ensures Valid()
      ensures Consensus() == NewPeriod(old(Consensus()))
      ensures announced == period && superblock == lastFinalized + 1
      ensures forall sha, request :: NextInstance(sha, Consensus(), request).seqNum == 1 &&
                NextInstance(sha, Consensus(), request).period > NextInstance(sha, old(Consensus()), request).period
    {
      NewPeriodKeepsInv(Consensus());
      period := period + 1;
      nextSeq := 1;
      announced, superblock := period, nextSuperblock;
    }

    /** The client holds the chain afterwards and no other; the two maps stay inverse to each other exactly when
        nobody else held the chain. */
    method RegisterChain(client: string, chain: ChainId)
      requires Valid()
      modifies this`chainToClient, this`clientToChain
      ensures Valid()
      ensures Ledger() == PC.Register(old(Ledger()), client, chain)
      ensures forall c :: c in chainToClient && chainToClient[c] == client <==> c == chain
      ensures old(PC.Bijective(Ledger())) ==> (PC.Bijective(Ledger()) <==> old(PC.FreeFor(Ledger(), client, chain)))
    {
      ghost var was := Ledger();
      ghost var bijective := PC.Bijective(was);
      if bijective {
        PC.RegisterKeepsBijection(was, client, chain);
      }
      PC.RegisterKeepsInv(was, client, chain);
      if client in clientToChain {
        chainToClient := chainToClient - {clientToChain[client]};
      }
      chainToClient := chainToClient[chain := client];
      clientToChain := clientToChain[client := chain];
    }

    /** A batch leaves exactly when as many chains have sent proofs as are registered. */
    method ReceiveProof(chain: ChainId, proof: PC.ChainProof, now: nat) returns (batch: Option<PC.Batch>)
      requires Valid()
      modifies this`pendingProofs, this`collectionStarted
      ensures Valid()
      ensures PC.Receipt(Ledger(), batch) == PC.ReceiveProof(old(Ledger()), chain, proof, now)
      ensures PC.BatchWhenAllSent(old(Ledger()), chain, proof, now, Ledger(), batch)
    {
      PC.ReceiveKeepsInv(Ledger(), chain, proof, now);
      PC.ReceiptMeans(Ledger(), chain, proof, now);
      var total := |chainToClient|;
      if collectionStarted.None? {
        collectionStarted := Some(now);
      }
      pendingProofs := pendingProofs[chain := proof];
      if total > 0 && |pendingProofs| >= total {
        var proofs := map c | c in pendingProofs :: pendingProofs[c].data;
        pendingProofs := map[];
        collectionStarted := None;
        return Some(PC.Batch(proofs, nextSuperblock));
      }
      batch := None;
    }

    /** Expiry, which triggers a rollback, needs a pending proof, and leaves none; without it nothing is lost. */
    method ReapExpiredProofs(now: nat, window: nat) returns (expired: bool)
      requires Valid()
      modifies this`pendingProofs, this`collectionStarted
      ensures Valid()
      ensures expired == PC.WindowOver(old(Ledger()), now, window)
      ensures Ledger() == PC.ReapProofs(old(Ledger()), now, window)
      ensures expired <==>
              old(collectionStarted).Some? && (window == 0 || old(collectionStarted).value + window <= now)
      ensures expired ==> old(pendingProofs) != map[]
      ensures expired <==> pendingProofs != old(pendingProofs)
      ensures window == 0 ==> pendingProofs == map[]
    {
      if collectionStarted.Some? {
        if Elapsed(now, collectionStarted.value) >= window {
          pendingProofs := map[];
          collectionStarted := None;
          return true;
        }
      }
      expired := false;
    }

    /** The second section of an expiry, before the rollback is broadcast.  It leaves everything as it is, and names the
        last finalized number together with whatever hash was read at the start. */
    method RollBack() returns (current: nat, number: nat, hash: seq<Byte>)
      requires Valid()
      modifies this`nextSuperblock
      ensures Consensus() == old(Consensus()) && Ledger() == old(Ledger())
      ensures current == period && number == lastFinalized && hash == lastFinalizedHash
    {
      PC.ResetIsIdle(Ledger());
      nextSuperblock := lastFinalized + 1;
      current, number, hash := period, lastFinalized, lastFinalizedHash;
    }

    /** The finalized number moves by exactly one if and only if the submission carried the next number. */
    method SubmissionSucceeded(superblock: nat)
      requires Valid()
      modifies this`lastFinalized, this`nextSuperblock
      ensures Valid()
      ensures Ledger() == PC.Finalize(old(Ledger()), superblock)
      ensures lastFinalized == old(lastFinalized) + 1 <==> superblock == old(nextSuperblock)
      ensures lastFinalized == superblock && nextSuperblock == superblock + 1
    {
      lastFinalized := superblock;
      nextSuperblock := superblock + 1;
    }
  }
}
