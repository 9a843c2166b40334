/** The SBCP sequencer as the mutable object of crates/spec-sbcp/src/sequencer.rs, proved against
    `SequencerModel`.  Every method keeps `Valid()`, on which the conditions stated for success rely.  A
    settlement that falls due is returned to the caller, who starts it, asks the prover and sends. */
module Sequencer {
  import opened Spec
  import opened SequencerModel

  class SequencerObject {
    var period: nat
    var target: nat
    var pending: Option<PendingBlock>
    var activeInstance: Option<InstanceId>
    var lastSeq: Option<nat>
    var head: nat
    var sealedHeads: map<nat, SealedHeader>
    var settled: SettledState

    function View(): SequencerState
      reads this
    {
      SequencerState(period, target, pending, activeInstance, lastSeq, head, sealedHeads, settled)
    }

    ghost predicate Valid()
      reads this
    {
      Sound(View())
    }

    constructor (period: nat, target: nat, settled: SettledState)
      ensures Valid() && View() == New(period, target, settled)
    {
      this.period, this.target, this.settled := period, target, settled;
      pending, activeInstance, lastSeq, head, sealedHeads := None, None, None, settled.header.number, map[];
    }

    /** An announcement neither opens nor closes anything: what can be sealed or included stays the same, and
        settlement happens now exactly without an open block, else when an open block of an earlier period is
        sealed.  Numbering starts afresh: in an unlocked open block every number can start, and without an open block
        it can in the next one. */
    method StartPeriod(p: nat, t: nat) returns (due: Option<Due>)
      requires Valid()
      modifies this`period, this`target, this`lastSeq
      ensures Valid()
      ensures View() == SequencerModel.StartPeriod(old(View()), p, t)
      ensures due == PeriodDue(old(View()), p, t)
      ensures due.Some? <==> pending.None?
      ensures LocalTxAllowed(View()) == old(LocalTxAllowed(View()))
      ensures LocalTxAllowed(View()) ==> EveryNumberStarts(View(), pending.value.period)
      ensures pending.None? ==>
                var open := SequencerModel.BeginBlock(View(), head + 1);
                open.Done? && EveryNumberStarts(open.next, p)
      ensures forall b :: SequencerModel.EndBlock(View(), b).Done? <==> old(SequencerModel.EndBlock(View(), b).Done?)
      ensures forall b :: SequencerModel.EndBlock(View(), b).Done? ==>
                (DeferredDue(View(), b).Some? <==> pending.value.period < p)
    {
      period := p;
      target := t;
      lastSeq := None;
      if pending.None? {
        due := Some(Due(WrapSub(p, 1), WrapSub(t, 1)));
      } else {
        due := None;
      }
    }

    /** The second section of a settlement: the header is one sealed in the period of the label, and there is one
        exactly when such a block is held. */
    method StartSettlement(due: Due) returns (s: Settlement)
      requires Valid()
      ensures s == SettlementFor(View(), due)
      ensures s.header.Some? <==> exists x :: x in sealedHeads.Values && x.period == due.period
      ensures s.header.Some? ==>
                exists x :: x in sealedHeads.Values && x.period == due.period && x.header == s.header.value
    {
      var header := None;
      if due.period in sealedHeads {
        assert sealedHeads[due.period] in sealedHeads.Values;
        header := Some(sealedHeads[due.period].header);
      }
      s := Settlement(header, due);
    }

    /** A freshly opened block always admits local transactions. */
    method BeginBlock(number: nat) returns (error: Option<SeqError>)
      requires Valid()
      modifies this`pending
      ensures Valid()
      ensures match SequencerModel.BeginBlock(old(View()), number)
              case Done(q) => View() == q && error == None
              case Refused(e) => View() == old(View()) && error == Some(e)
      ensures error == None <==> old(pending).None? && number == head + 1
      ensures error == None ==> LocalTxAllowed(View()) && pending == Some(PendingBlock(head + 1, period, target))
      ensures error == Some(BlockAlreadyOpen) <==> old(pending).Some?
      ensures error == Some(BlockNotSequential) <==> old(pending).None? && number != head + 1
    {
      if pending.Some? {
        return Some(BlockAlreadyOpen);
      }
      if number != head + 1 {
        return Some(BlockNotSequential);
      }
      pending := Some(PendingBlock(number, period, target));
      error := None;
    }

    /** An active instance always locks: the answer is never an error then. */
    method CanIncludeLocalTx() returns (r: Result<bool>)
      requires Valid()
      ensures r == Ok(true) <==> LocalTxAllowed(View())
      ensures r.Ok? <==> pending.Some?
      ensures !r.Ok? ==> r == Err(NoPendingBlock)
      ensures activeInstance.Some? ==> r == Ok(false)
    {
      if pending.None? {
        return Err(NoPendingBlock);
      }
      r := Ok(activeInstance.None?);
    }

    /** Accepting an instance locks the block: until it is decided nothing local is included, no other instance
        starts and the block cannot be sealed. */
    method OnStartInstance(id: InstanceId, p: nat, seqNum: nat) returns (error: Option<SeqError>)
      requires Valid()
      modifies this`lastSeq, this`activeInstance
      ensures Valid()
      ensures match SequencerModel.OnStartInstance(old(View()), id, p, seqNum)
              case Done(q) => View() == q && error == None
              case Refused(e) => View() == old(View()) && error == Some(e)
      ensures error == None <==>
              old(LocalTxAllowed(View())) && pending.value.period == p &&
                (old(lastSeq).Some? ==> old(lastSeq).value < seqNum)
      ensures error == None ==>
                && !LocalTxAllowed(View()) && SequencerModel.OnDecidedInstance(View(), id).Done?
                && (forall i, n, m :: SequencerModel.OnStartInstance(View(), i, n, m).Refused?)
                && (forall b :: SequencerModel.EndBlock(View(), b).Refused?)
      ensures error == Some(NoPendingBlock) <==> pending.None?
      ensures error == Some(ActiveInstanceExists) <==> old(activeInstance).Some?
      ensures error == Some(PeriodIdMismatch) <==> old(LocalTxAllowed(View())) && pending.value.period != p
      ensures error == Some(LowSequenceNumber) <==>
              old(LocalTxAllowed(View())) && pending.value.period == p && old(lastSeq).Some? &&
                seqNum <= old(lastSeq).value
    {
      if pending.None? {
        return Some(NoPendingBlock);
      }
      if activeInstance.Some? {
        return Some(ActiveInstanceExists);
      }
      if pending.value.period != p {
        return Some(PeriodIdMismatch);
      }
      if lastSeq.Some? {
        if seqNum <= lastSeq.value {
          return Some(LowSequenceNumber);
        }
      }
      lastSeq := Some(seqNum);
      activeInstance := Some(id);
      error := None;
    }

    /** Deciding the active instance always unlocks an open block, which can then be sealed. */
    method OnDecidedInstance(id: InstanceId) returns (error: Option<SeqError>)
      requires Valid()
      modifies this`activeInstance
      ensures Valid()
      ensures match SequencerModel.OnDecidedInstance(old(View()), id)
              case Done(q) => View() == q && error == None
              case Refused(e) => View() == old(View()) && error == Some(e)
      ensures error == None <==> old(activeInstance) == Some(id)
      ensures error == None ==> LocalTxAllowed(View())
      ensures error == None ==> forall b :: SequencerModel.EndBlock(View(), b).Done? <==> b.number == head + 1
      ensures error == Some(NoActiveInstance) <==> old(activeInstance).None?
      ensures error == Some(ActiveInstanceMismatch) <==> old(activeInstance).Some? && old(activeInstance).value != id
    {
      match activeInstance {
        case None => return Some(NoActiveInstance);
        case Some(active) =>
          if active != id {
            return Some(ActiveInstanceMismatch);
          }
      }
      activeInstance := None;
      error := None;
    }

    /** Sealing succeeds exactly for the next number in an unlocked block, moves the head by one and replaces
        the sealed header of the block's own period only. */
    method EndBlock(b: BlockHeader) returns (error: Option<SeqError>, due: Option<Due>)
      requires Valid()
      modifies this`sealedHeads, this`pending, this`head
      ensures Valid()
      ensures match SequencerModel.EndBlock(old(View()), b)
              case Done(q) => View() == q && error == None
              case Refused(e) => View() == old(View()) && error == Some(e)
      ensures due == DeferredDue(old(View()), b)
      ensures error == None <==> old(LocalTxAllowed(View())) && b.number == old(head) + 1
      ensures error == None ==>
                && head == old(head) + 1 && SequencerModel.BeginBlock(View(), head + 1).Done?
                && sealedHeads - {old(pending).value.period} == old(sealedHeads) - {old(pending).value.period}
                && old(pending).value.period in sealedHeads && sealedHeads[old(pending).value.period].header == b
      ensures error == Some(NoPendingBlock) <==> old(pending).None?
      ensures error == Some(BlockSealMismatch) <==> old(pending).Some? && b.number != old(head) + 1
      ensures error == Some(ActiveInstanceExists) <==> old(activeInstance).Some? && b.number == old(head) + 1
      ensures due.Some? <==> error == None && old(pending).value.period < period
    {
      if pending.None? {
        return Some(NoPendingBlock), None;
      }
      var open := pending.value;
      if open.number != b.number {
        return Some(BlockSealMismatch), None;
      }
      if activeInstance.Some? {
        return Some(ActiveInstanceExists), None;
      }
      sealedHeads := sealedHeads[open.period := SealedHeader(b, open.period, open.superblock)];
      var late := open.period < period;
      var settlementPeriod := WrapSub(period, 1);
      var settlementSuperblock := WrapSub(target, 1);
      pending := None;
      head := b.number;
      error := None;
      if late {
        due := Some(Due(settlementPeriod, settlementSuperblock));
      } else {
        due := None;
      }
    }

    method AdvanceSettledState(s: SettledState)
      requires Valid()
      modifies this`settled
      ensures Valid()
      ensures View() == AdvanceSettled(old(View()), s)
      ensures settled.superblock >= old(settled).superblock && settled.superblock >= s.superblock
    {
      if s.superblock <= settled.superblock {
        return;
      }
      settled := s;
    }

    /** A rollback that names the settled superblock returns its header; the next block accepted is the one after
        it, and exactly the headers of finalized superblocks remain. */
    method Rollback(superblock: nat, hash: seq<Byte>, currentPeriod: nat) returns (r: Result<BlockHeader>)
      requires Valid()
      modifies this`sealedHeads, this`pending, this`activeInstance, this`head, this`period, this`target
      ensures Valid()
      ensures match SequencerModel.Rollback(old(View()), superblock, hash, currentPeriod)
              case Done(q) => View() == q && r == Ok(settled.header)
              case Refused(e) => View() == old(View()) && r == Err(e)
      ensures r.Ok? <==> superblock == settled.superblock && hash == settled.hash
      ensures !r.Ok? ==> r == Err(MismatchedFinalizedState)
      ensures r.Ok? ==>
                && (forall n :: SequencerModel.BeginBlock(View(), n).Done? <==> n == r.value.number + 1)
                && (forall p :: p in sealedHeads <==>
                      p in old(sealedHeads) && old(sealedHeads)[p].superblock <= superblock)
                && (forall p :: p in sealedHeads ==> sealedHeads[p] == old(sealedHeads)[p])
    {
      if superblock != settled.superblock || hash != settled.hash {
        return Err(MismatchedFinalizedState);
      }
      var finalized := settled.superblock;
      sealedHeads := map p | p in sealedHeads && sealedHeads[p].superblock <= finalized :: sealedHeads[p];
      pending := None;
      activeInstance := None;
      head := settled.header.number;
      period := currentPeriod;
      target := settled.superblock + 1;
      r := Ok(settled.header);
    }
  }
}
