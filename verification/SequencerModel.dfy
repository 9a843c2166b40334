/** The SBCP sequencer (crates/spec-sbcp/src/sequencer.rs) as a value. */
module SequencerModel {
  import opened Spec

  datatype BlockHeader = BlockHeader(number: nat, blockHash: seq<Byte>, stateRoot: seq<Byte>)

  datatype PendingBlock = PendingBlock(number: nat, period: nat, superblock: nat)

  datatype SealedHeader = SealedHeader(header: BlockHeader, period: nat, superblock: nat)

  datatype SettledState = SettledState(header: BlockHeader, superblock: nat, hash: seq<Byte>)

  datatype SequencerState = SequencerState(
    period: nat,
    target: nat,
    pending: Option<PendingBlock>,
    activeInstance: Option<InstanceId>,
    lastSeq: Option<nat>,
    head: nat,
    sealedHeads: map<nat, SealedHeader>,
    settled: SettledState)

  datatype SeqError =
    | BlockSealMismatch | BlockAlreadyOpen | BlockNotSequential | NoPendingBlock | ActiveInstanceExists
    | NoActiveInstance | ActiveInstanceMismatch | MismatchedFinalizedState | PeriodIdMismatch | LowSequenceNumber

  datatype Outcome = Done(next: SequencerState) | Refused(error: SeqError)

  datatype Result<+T> = Ok(value: T) | Err(error: SeqError)

  /** A refused call leaves the state as it was. */
  function After(q: SequencerState, o: Outcome): SequencerState {
    if o.Done? then o.next else q
  }

  /** A settlement that has been triggered: the label under which its proof will be sent. */
  datatype Due = Due(period: nat, superblock: nat)

  /** The header a proof is asked for and the label under which it is sent. */
  datatype Settlement = Settlement(header: Option<BlockHeader>, due: Due)

  function New(period: nat, target: nat, settled: SettledState): SequencerState {
    SequencerState(period, target, None, None, None, settled.header.number, map[], settled)
  }

  /** The locked section of `start_settlement`, which reads the last block sealed in the period, if any.  It comes
      after the section that triggered the settlement, and others may come between. */
  function SettlementFor(q: SequencerState, due: Due): Settlement {
    Settlement(if due.period in q.sealedHeads then Some(q.sealedHeads[due.period].header) else None, due)
  }

  function StartPeriod(q: SequencerState, period: nat, target: nat): SequencerState {
    q.(period := period, target := target, lastSeq := None)
  }

  /** Settlement is immediate without an open block; otherwise it waits for `EndBlock`. */
  function PeriodDue(q: SequencerState, period: nat, target: nat): Option<Due> {
    if q.pending.None? then Some(Due(WrapSub(period, 1), WrapSub(target, 1))) else None
  }

  function BeginBlock(q: SequencerState, number: nat): Outcome {
    if q.pending.Some? then Refused(BlockAlreadyOpen)
    else if number != q.head + 1 then Refused(BlockNotSequential)
    else Done(q.(pending := Some(PendingBlock(number, q.period, q.target))))
  }

  function OnStartInstance(q: SequencerState, id: InstanceId, period: nat, seqNum: nat): Outcome {
    if q.pending.None? then Refused(NoPendingBlock)
    else if q.activeInstance.Some? then Refused(ActiveInstanceExists)
    else if q.pending.value.period != period then Refused(PeriodIdMismatch)
    else if q.lastSeq.Some? && seqNum <= q.lastSeq.value then Refused(LowSequenceNumber)
    else Done(q.(lastSeq := Some(seqNum), activeInstance := Some(id)))
  }

  function OnDecidedInstance(q: SequencerState, id: InstanceId): Outcome {
    if q.activeInstance.None? then Refused(NoActiveInstance)
    else if q.activeInstance.value != id then Refused(ActiveInstanceMismatch)
    else Done(q.(activeInstance := None))
  }

  function EndBlock(q: SequencerState, b: BlockHeader): Outcome {
    if q.pending.None? then Refused(NoPendingBlock)
    else if q.pending.value.number != b.number then Refused(BlockSealMismatch)
    else if q.activeInstance.Some? then Refused(ActiveInstanceExists)
    else
      var open := q.pending.value;
      Done(q.(sealedHeads := q.sealedHeads[open.period := SealedHeader(b, open.period, open.superblock)],
              pending := None, head := b.number))
  }

  /** The settlement deferred by an open block, released when that block is sealed. */
  function DeferredDue(q: SequencerState, b: BlockHeader): Option<Due> {
    if EndBlock(q, b).Done? && q.pending.value.period < q.period then
      Some(Due(WrapSub(q.period, 1), WrapSub(q.target, 1)))
    else None
  }

  function AdvanceSettled(q: SequencerState, settled: SettledState): SequencerState {
    if settled.superblock <= q.settled.superblock then q else q.(settled := settled)
  }

  function Rollback(q: SequencerState, superblock: nat, hash: seq<Byte>, period: nat): Outcome {
    if superblock != q.settled.superblock || hash != q.settled.hash then Refused(MismatchedFinalizedState)
    else
      var kept := map p | p in q.sealedHeads && q.sealedHeads[p].superblock <= superblock :: q.sealedHeads[p];
      Done(q.(sealedHeads := kept,
              pending := None, activeInstance := None, head := q.settled.header.number,
              period := period, target := superblock + 1))
  }

  // ---- Invariant ----

  /** An active instance has an open block, the open block is the next one, and sealed headers are filed under
      their own period. */
  ghost predicate Sound(q: SequencerState) {
    && (q.activeInstance.Some? ==> q.pending.Some?)
    && (q.pending.Some? ==> q.pending.value.number == q.head + 1)
    && (forall p :: p in q.sealedHeads ==> q.sealedHeads[p].period == p)
  }

  /** A block is open and no instance locks it. */
  predicate LocalTxAllowed(q: SequencerState) {
    q.pending.Some? && q.activeInstance.None?
  }

  /** Every instance of the period is accepted, whatever its number. */
  ghost predicate EveryNumberStarts(q: SequencerState, period: nat) {
    forall id, n :: OnStartInstance(q, id, period, n).Done?
  }

  /** Deferring loses nothing: announcing a period while a block is open and sealing the block afterwards ends
      in the same state as sealing first, and settles the same, exactly when the block belongs to an earlier
      period; otherwise no settlement follows. */
  lemma DeferralCommutes(q: SequencerState, period: nat, target: nat, b: BlockHeader)
    requires EndBlock(q, b).Done?
    ensures var announced := StartPeriod(q, period, target);
            && PeriodDue(q, period, target).None?
            && EndBlock(announced, b).Done?
            && EndBlock(announced, b).next == StartPeriod(EndBlock(q, b).next, period, target)
            && (DeferredDue(announced, b) == PeriodDue(EndBlock(q, b).next, period, target) <==>
                q.pending.value.period < period)
            && (DeferredDue(announced, b).None? <==> q.pending.value.period >= period)
  {
  }
}
