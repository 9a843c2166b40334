/** The SBCP publisher as the mutable object of crates/spec-sbcp/src/publisher.rs, proved against
    `PublisherModel`.  Every method keeps `Valid()`.  Broadcasts and prover calls are returned to the caller. */
module Publisher {
  import opened Spec
  import opened InstanceIds
  import opened PublisherModel

  datatype RollbackMessage = RollbackMessage(period: nat, finalized: nat, hash: seq<Byte>)

  class PublisherObject {
    var period: nat
    var target: nat
    var finalized: nat
    var finalizedHash: seq<Byte>
    var proofs: map<nat, map<ChainId, seq<Byte>>>
    const chains: set<ChainId>
    var seqNum: nat
    var activeChains: map<ChainId, bool>
    const window: nat

    function View(): PublisherState
      reads this
    {
      PublisherState(period, target, finalized, finalizedHash, proofs, chains, seqNum, activeChains, window)
    }

    ghost predicate Valid()
      reads this
    {
      Sound(View())
    }

    constructor Accept(period: nat, target: nat, finalized: nat, hash: seq<Byte>, window: nat, chains: set<ChainId>)
      ensures Valid() && View() == PublisherState(period, target, finalized, hash, map[], chains, 0, map[], window)
    {
      this.period, this.target, this.finalized, this.finalizedHash := period, target, finalized, hash;
      this.proofs, this.chains, this.seqNum, this.activeChains, this.window := map[], chains, 0, map[], window;
    }

    /** `proofs_for`: there is an entry exactly when some chain's proof is held. */
    function StoredProofs(n: nat): (r: Option<map<ChainId, seq<Byte>>>)
      requires Valid()
      reads this
      ensures r.Some? <==> ProofsFor(View(), n) != map[]
    {
      if n in proofs then Some(proofs[n]) else None
    }

    /** `Publisher::new`, which refuses a target below the finalized superblock. */
    static method Create(period: nat, target: nat, finalized: nat, hash: seq<Byte>, window: nat, chains: set<ChainId>)
      returns (r: Result<PublisherObject>)
      ensures match New(period, target, finalized, hash, window, chains)
              case Ok(p) => r.Ok? && fresh(r.value) && r.value.View() == p && r.value.Valid()
              case Err(e) => r == Err(e)
      ensures r.Ok? <==> target >= finalized
      ensures !r.Ok? ==> r == Err(InvalidInitialState)
      ensures r.Ok? ==>
                && r.value.period == period && r.value.target == target && r.value.window == window
                && r.value.finalized == finalized && r.value.finalizedHash == hash && r.value.chains == chains
                && Unused(r.value.View())
    {
      if target < finalized {
        return Err(InvalidInitialState);
      }
      var p := new PublisherObject.Accept(period, target, finalized, hash, window, chains);
      r := Ok(p);
    }

    /** Period and target move together, so the period expected of a proof for any superblock stays the same, and
        a proof that would have been accepted still is.  Collection for the superblock now closed starts empty. */
    method StartPeriod() returns (r: Result<(nat, nat)>)
      requires Valid()
      modifies this`period, this`target, this`seqNum
      ensures Valid()
      ensures r.Ok? <==> window == 0 || old(target) <= finalized + window
      ensures r == if r.Ok? then Ok((old(period) + 1, old(target) + 1)) else Err(CannotStartPeriod)
      ensures r.Ok? ==> StoredProofs(old(target)) == None
      ensures forall n: nat :: n <= old(target) ==>
              n <= target && ExpectedPeriod(View(), n) == ExpectedPeriod(old(View()), n)
      ensures forall q, n :: LabelPasses(old(View()), q, n) ==> LabelPasses(View(), q, n)
      ensures match PublisherModel.StartPeriod(old(View()))
              case Ok(p) => View() == p && r == Ok((p.period, p.target))
              case Err(e) => View() == old(View()) && r == Err(e)
    {
      var next := target + 1;
      if window != 0 {
        var limit := finalized + (1 + window);
        if next > limit {
          return Err(CannotStartPeriod);
        }
      }
      period := period + 1;
      target := next;
      r := Ok((period, target));
      seqNum := 0;
    }

    method ReceiveProof(claimed: nat, n: nat, proof: seq<Byte>, chain: ChainId) returns (v: Verdict)
      requires Valid()
      modifies this`proofs
      ensures Valid()
      ensures v == Judge(old(View()), claimed, n, proof, chain)
      ensures View() == PublisherModel.ReceiveProof(old(View()), claimed, n, proof, chain)
    {
      if n <= finalized {
        return OldSuperblock;
      }
      if n >= target {
        return NotTerminated;
      }
      if n != finalized + 1 {
        return NotNext;
      }
      var expected := WrapSub(period, target - n);
      if claimed != expected {
        return WrongPeriod;
      }
      var received := if n in proofs then proofs[n] else map[];
      if chain in received {
        return Duplicate;
      }
      received := received[chain := proof];
      proofs := proofs[n := received];
      if |proofs[n]| < |chains| {
        return Waiting;
      }
      v := Complete(ProverCall(n, finalizedHash, proofs[n]));
    }

    method ProverSucceeded(n: nat)
      requires Valid()
      modifies this`proofs
      ensures Valid()
      ensures View() == PublisherModel.ProverSucceeded(old(View()), n)
    {
      proofs := proofs - {n};
    }

    method ActivateChains(participants: seq<ChainId>)
      modifies this`activeChains
      ensures activeChains == Activate(old(activeChains), participants)
    {
      for i := 0 to |participants|
        invariant activeChains == Activate(old(activeChains), participants[..i])
      {
        ActivateSnoc(old(activeChains), participants[..i], participants[i]);
        assert participants[..i + 1] == participants[..i] + [participants[i]];
        activeChains := activeChains[participants[i] := true];
      }
      assert participants[..|participants|] == participants;
    }

    /** Succeeds exactly for two entries or more over chains none of which is active; those chains and no others
        become active. */
    method StartInstance(sha: seq<Byte> -> InstanceId, request: XtRequest) returns (r: Result<Instance>)
      requires Valid()
      modifies this`seqNum, this`activeChains
      ensures Valid()
      ensures r.Ok? <==> |request.transactions| >= 2 && old(activeChains).Keys !! Elems(ChainsOf(request))
      ensures r == Err(InvalidRequest) <==> |request.transactions| < 2
      ensures r.Ok? || r == Err(InvalidRequest) || r == Err(CannotStartInstance)
      ensures activeChains.Keys == old(activeChains).Keys + (if r.Ok? then Elems(ChainsOf(request)) else {})
      ensures match PublisherModel.StartInstance(sha, old(View()), request)
              case Ok(s) => View() == s.next && r == Ok(s.instance)
              case Err(e) => View() == old(View()) && r == Err(e)
    {
      ActiveMeansListed(activeChains, ChainsOf(request));
      if |request.transactions| < 2 {
        return Err(InvalidRequest);
      }
      var participants := ChainsFromRequest(request);
      if AnyActive(activeChains, participants) {
        return Err(CannotStartInstance);
      }
      seqNum := seqNum + 1;
      var id := GenerateInstanceId(sha, period, seqNum, request);
      ActivateChains(participants);
      r := Ok(Instance(id, period, seqNum, request));
    }

    /** Succeeds exactly when all participants are active, and frees those and no others. */
    method DecideInstance(instance: Instance) returns (r: Result<()>)
      requires Valid()
      modifies this`activeChains
      ensures Valid()
      ensures r.Ok? <==> Elems(ChainsOf(instance.request)) <= old(activeChains).Keys
      ensures !r.Ok? ==> r == Err(ChainNotActive)
      ensures activeChains.Keys == old(activeChains).Keys - (if r.Ok? then Elems(ChainsOf(instance.request)) else {})
      ensures match PublisherModel.DecideInstance(old(View()), instance)
              case Ok(p) => View() == p && r == Ok(())
              case Err(e) => View() == old(View()) && r == Err(e)
    {
      var participants := ChainsFromRequest(instance.request);
      for i := 0 to |participants|
        invariant forall j :: 0 <= j < i ==> participants[j] in activeChains
      {
        if participants[i] !in activeChains {
          assert participants[i] in participants;
          return Err(ChainNotActive);
        }
      }
      for i := 0 to |participants|
        invariant activeChains == Deactivate(old(activeChains), participants[..i])
      {
        assert participants[..i + 1] == participants[..i] + [participants[i]];
        activeChains := activeChains - {participants[i]};
      }
      assert participants[..|participants|] == participants;
      r := Ok(());
    }

    /** Only a newer superblock is taken over, number and hash together. */
    method AdvanceSettledState(n: nat, hash: seq<Byte>) returns (r: Result<()>)
      requires Valid()
      modifies this`finalized, this`finalizedHash
      ensures Valid()
      ensures r.Ok? <==> n > old(finalized)
      ensures r.Ok? ==> finalized == n && finalizedHash == hash
      ensures !r.Ok? ==> r == Err(OldSettledState) && finalized == old(finalized) && finalizedHash == old(finalizedHash)
      ensures match AdvanceSettled(old(View()), n, hash)
              case Ok(p) => View() == p && r == Ok(())
              case Err(e) => View() == old(View()) && r == Err(e)
    {
      if n <= finalized {
        return Err(OldSettledState);
      }
      finalized := n;
      finalizedHash := hash;
      r := Ok(());
    }

    /** Triggered by a proof timeout or a failed prover call.  Until the next period no proof passes, and every
        request of two entries or more can start, as number 1. */
    method Rollback() returns (m: RollbackMessage)
      requires Valid()
      modifies this`activeChains, this`seqNum, this`target, this`proofs
      ensures Valid()
      ensures forall q, n :: !LabelPasses(View(), q, n)
      ensures forall sha: seq<Byte> -> InstanceId, request: XtRequest :: |request.transactions| >= 2 ==>
                var r := PublisherModel.StartInstance(sha, View(), request);
                r.Ok? && r.value.instance.seqNum == 1 && r.value.instance.period == old(period)
      ensures View() == PublisherModel.Rollback(old(View()))
      ensures m == RollbackMessage(period, finalized, finalizedHash)
    {
      activeChains := map[];
      seqNum := 0;
      target := finalized + 1;
      m := RollbackMessage(period, finalized, finalizedHash);
      proofs := map[];
    }
  }

  lemma ActiveMeansListed(active: map<ChainId, bool>, chains: seq<ChainId>)
    requires AllTrue(active)
    ensures AnyActive(active, chains) <==> !(active.Keys !! Elems(chains))
    ensures Activate(active, chains).Keys == active.Keys + Elems(chains)
  {
    if !(active.Keys !! Elems(chains)) {
      var c :| c in active.Keys && c in Elems(chains);
      assert c in chains && active[c];
    }
  }

  lemma ActivateSnoc(active: map<ChainId, bool>, chains: seq<ChainId>, c: ChainId)
    ensures Activate(active, chains)[c := true] == Activate(active, chains + [c])
  {
  }
}
