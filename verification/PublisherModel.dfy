/** The SBCP publisher (crates/spec-sbcp/src/publisher.rs) as a value: what each locked section does. */
module PublisherModel {
  import opened Spec
  import opened InstanceIds

  datatype PublisherState = PublisherState(
    period: nat,
    target: nat,
    finalized: nat,
    finalizedHash: seq<Byte>,
    proofs: map<nat, map<ChainId, seq<Byte>>>,
    chains: set<ChainId>,
    seqNum: nat,
    activeChains: map<ChainId, bool>,
    window: nat)

  datatype Error =
    | CannotStartInstance | CannotStartPeriod | ChainNotActive | OldSettledState | InvalidRequest | InvalidInitialState

  datatype Result<+T> = Ok(value: T) | Err(error: Error)

  function New(period: nat, target: nat, finalized: nat, hash: seq<Byte>, window: nat, chains: set<ChainId>):
    Result<PublisherState>
  {
    if target < finalized then Err(InvalidInitialState)
    else Ok(PublisherState(period, target, finalized, hash, map[], chains, 0, map[], window))
  }

  function StartPeriod(p: PublisherState): Result<PublisherState> {
    if p.window != 0 && p.target + 1 > p.finalized + 1 + p.window then Err(CannotStartPeriod)
    else Ok(p.(period := p.period + 1, target := p.target + 1, seqNum := 0))
  }

  // ---- Proofs ----

  datatype ProverCall = ProverCall(superblock: nat, lastHash: seq<Byte>, proofs: map<ChainId, seq<Byte>>)

  datatype Verdict =
    | OldSuperblock | NotTerminated | NotNext | WrongPeriod | Duplicate | Waiting | Complete(call: ProverCall)

  /** The period a proof for superblock `n` has to name. */
  function ExpectedPeriod(p: PublisherState, n: nat): nat
    requires n <= p.target
  {
    WrapSub(p.period, p.target - n)
  }

  /** The proof's label gets past every check on period and superblock number. */
  predicate LabelPasses(p: PublisherState, period: nat, n: nat) {
    p.finalized < n < p.target && n == p.finalized + 1 && period == ExpectedPeriod(p, n)
  }

  function ProofsFor(p: PublisherState, n: nat): map<ChainId, seq<Byte>> {
    if n in p.proofs then p.proofs[n] else map[]
  }

  function WithProof(p: PublisherState, n: nat, proof: seq<Byte>, chain: ChainId): PublisherState {
    p.(proofs := p.proofs[n := ProofsFor(p, n)[chain := proof]])
  }

  function Judge(p: PublisherState, period: nat, n: nat, proof: seq<Byte>, chain: ChainId): Verdict {
    if n <= p.finalized then OldSuperblock
    else if n >= p.target then NotTerminated
    else if n != p.finalized + 1 then NotNext
    else if period != ExpectedPeriod(p, n) then WrongPeriod
    else if chain in ProofsFor(p, n) then Duplicate
    else
      var all := WithProof(p, n, proof, chain).proofs[n];
      if |all| < |p.chains| then Waiting else Complete(ProverCall(n, p.finalizedHash, all))
  }

  /** The section of `receive_proof` before the lock is dropped for the prover call. */
  function ReceiveProof(p: PublisherState, period: nat, n: nat, proof: seq<Byte>, chain: ChainId): PublisherState {
    var v := Judge(p, period, n, proof, chain);
    if v.Waiting? || v.Complete? then WithProof(p, n, proof, chain) else p
  }

  /** The section after a successful prover call; the superblock is then published. */
  function ProverSucceeded(p: PublisherState, n: nat): PublisherState {
    p.(proofs := p.proofs - {n})
  }

  function Rollback(p: PublisherState): PublisherState {
    p.(activeChains := map[], seqNum := 0, target := p.finalized + 1, proofs := map[])
  }

  function AdvanceSettled(p: PublisherState, n: nat, hash: seq<Byte>): Result<PublisherState> {
    if n <= p.finalized then Err(OldSettledState) else Ok(p.(finalized := n, finalizedHash := hash))
  }

  // ---- Instances ----

  predicate AnyActive(active: map<ChainId, bool>, chains: seq<ChainId>) {
    exists c :: c in chains && c in active && active[c]
  }

  function Activate(active: map<ChainId, bool>, chains: seq<ChainId>): map<ChainId, bool> {
    active + map c | c in chains :: true
  }

  function Deactivate(active: map<ChainId, bool>, chains: seq<ChainId>): map<ChainId, bool> {
    map c | c in active && c !in chains :: active[c]
  }

  datatype StartedInstance = StartedInstance(next: PublisherState, instance: Instance)

  function StartInstance(sha: seq<Byte> -> InstanceId, p: PublisherState, request: XtRequest): Result<StartedInstance> {
    if |request.transactions| < 2 then Err(InvalidRequest)
    else if AnyActive(p.activeChains, ChainsOf(request)) then Err(CannotStartInstance)
    else
      var n := p.seqNum + 1;
      Ok(StartedInstance(
           p.(seqNum := n, activeChains := Activate(p.activeChains, ChainsOf(request))),
           Instance(sha(Preimage(p.period, n, request)), p.period, n, request)))
  }

  function DecideInstance(p: PublisherState, instance: Instance): Result<PublisherState> {
    var chains := ChainsOf(instance.request);
    if exists c :: c in chains && c !in p.activeChains then Err(ChainNotActive)
    else Ok(p.(activeChains := Deactivate(p.activeChains, chains)))
  }

  // ---- Invariant ----

  ghost predicate AllTrue(active: map<ChainId, bool>) {
    forall c :: c in active ==> active[c]
  }

  /** Whatever is active is marked so, and proofs are held for earlier superblocks than the target only. */
  ghost predicate Sound(p: PublisherState) {
    && AllTrue(p.activeChains)
    && (forall n :: n in p.proofs ==> n < p.target && p.proofs[n] != map[])
  }

  /** Nothing has been started or collected: the state of a new publisher. */
  ghost predicate Unused(p: PublisherState) {
    p.seqNum == 0 && p.proofs == map[] && p.activeChains == map[]
  }
}
