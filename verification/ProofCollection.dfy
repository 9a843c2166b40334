/** Registration, proof collection and the superblock counter of `CoordinatorState`
    (crates/coordinator/src/coordinator.rs), as a value and over whole runs. */
module ProofCollection {
  import opened Spec
  import opened L1Payload

  datatype ChainProof = ChainProof(superblockNumber: nat, data: ProofData)

  datatype Ledger = Ledger(
    chainToClient: map<ChainId, string>,
    clientToChain: map<string, ChainId>,
    nextSuperblock: nat,
    lastFinalized: nat,
    lastFinalizedHash: seq<Byte>,
    pendingProofs: map<ChainId, ChainProof>,
    collectionStarted: Option<nat>)

  /** A complete batch handed to the L1 submitter. */
  datatype Batch = Batch(proofs: map<ChainId, ProofData>, superblock: nat)

  datatype Receipt = Receipt(ledger: Ledger, batch: Option<Batch>)

  function Fresh(): Ledger {
    Ledger(map[], map[], 1, 0, [], map[], None)
  }

  /** `init_from_l1`, on the outcome of reading L1: a number and hash, or nothing. */
  function InitFromL1(g: Ledger, latest: Option<(nat, seq<Byte>)>): Ledger {
    match latest
    case None => g
    case Some((n, hash)) => g.(lastFinalized := n, lastFinalizedHash := hash, nextSuperblock := n + 1)
  }

  function Register(g: Ledger, client: string, chain: ChainId): Ledger {
    var kept := if client in g.clientToChain then g.chainToClient - {g.clientToChain[client]} else g.chainToClient;
    g.(chainToClient := kept[chain := client], clientToChain := g.clientToChain[client := chain])
  }

  function Collected(g: Ledger, chain: ChainId, proof: ChainProof): map<ChainId, ChainProof> {
    g.pendingProofs[chain := proof]
  }

  predicate Complete(g: Ledger, chain: ChainId, proof: ChainProof) {
    |g.chainToClient| > 0 && |Collected(g, chain, proof)| >= |g.chainToClient|
  }

  /** The locked section of `receive_proof`. */
  function ReceiveProof(g: Ledger, chain: ChainId, proof: ChainProof, now: nat): Receipt {
    var all := Collected(g, chain, proof);
    if Complete(g, chain, proof) then
      Receipt(g.(pendingProofs := map[], collectionStarted := None),
              Some(Batch(map c | c in all :: all[c].data, g.nextSuperblock)))
    else
      var started := if g.collectionStarted.None? then Some(now) else g.collectionStarted;
      Receipt(g.(pendingProofs := all, collectionStarted := started), None)
  }

  predicate WindowOver(g: Ledger, now: nat, window: nat) {
    g.collectionStarted.Some? && Elapsed(now, g.collectionStarted.value) >= window
  }

  /** First locked section of `reap_expired_proofs`: forget the collected proofs when the window is over. */
  function ReapProofs(g: Ledger, now: nat, window: nat): Ledger {
    if WindowOver(g, now, window) then g.(pendingProofs := map[], collectionStarted := None) else g
  }

  /** Its second section, before the rollback is broadcast. */
  function ResetCounter(g: Ledger): Ledger {
    g.(nextSuperblock := g.lastFinalized + 1)
  }

  /** The locked section after a successful L1 submission. */
  function Finalize(g: Ledger, superblock: nat): Ledger {
    g.(lastFinalized := superblock, nextSuperblock := superblock + 1)
  }

  // ---- Invariant ----

  /** Each registered chain's client names that chain. */
  ghost predicate ClientsNameChains(g: Ledger) {
    forall c :: c in g.chainToClient ==>
      g.chainToClient[c] in g.clientToChain && g.clientToChain[g.chainToClient[c]] == c
  }

  ghost predicate Inv(g: Ledger) {
    && (g.pendingProofs != map[] <==> g.collectionStarted.Some?)
    && g.nextSuperblock == g.lastFinalized + 1
    && ClientsNameChains(g)
  }

  lemma RegisterKeepsInv(g: Ledger, client: string, chain: ChainId)
    requires Inv(g)
    ensures Inv(Register(g, client, chain))
  {
  }

  lemma ReceiveKeepsInv(g: Ledger, chain: ChainId, proof: ChainProof, now: nat)
    requires Inv(g)
    ensures Inv(ReceiveProof(g, chain, proof, now).ledger)
  {
  }

  lemma CollectedSize(g: Ledger, chain: ChainId, proof: ChainProof)
    ensures Collected(g, chain, proof).Keys == g.pendingProofs.Keys + {chain}
    ensures |Collected(g, chain, proof)| == |g.pendingProofs.Keys + {chain}|
  {
    var all := Collected(g, chain, proof);
    assert all.Keys == g.pendingProofs.Keys + {chain};
    assert |all| == |all.Keys|;
  }

  /** A batch leaves exactly when as many chains have sent proofs as are registered; it takes along every pending
      proof, carries the superblock after the last finalized one, and stops the clock.  Otherwise the clock runs,
      from the first proof pending. */
  ghost predicate BatchWhenAllSent(was: Ledger, chain: ChainId, proof: ChainProof, now: nat, g: Ledger,
                                   batch: Option<Batch>)
  {
    var senders := was.pendingProofs.Keys + {chain};
    && (batch.Some? <==> |was.chainToClient| > 0 && |senders| >= |was.chainToClient|)
    && (batch.Some? ==>
          && batch.value.superblock == was.lastFinalized + 1 && batch.value.proofs.Keys == senders
          && g.pendingProofs == map[] && g.collectionStarted == None)
    && (batch.None? ==>
          && g.pendingProofs == was.pendingProofs[chain := proof]
          && g.collectionStarted == if was.pendingProofs == map[] then Some(now) else was.collectionStarted)
  }

  lemma ReceiptMeans(g: Ledger, chain: ChainId, proof: ChainProof, now: nat)
    requires Inv(g)
    ensures var r := ReceiveProof(g, chain, proof, now);
            BatchWhenAllSent(g, chain, proof, now, r.ledger, r.batch)
  {
    CollectedSize(g, chain, proof);
  }

  /** In the states that occur the rollback section leaves the counter where it is. */
  lemma ResetIsIdle(g: Ledger)
    requires Inv(g)
    ensures ResetCounter(g) == g
  {
  }

  /** The two maps of the registry are inverse to each other. */
  ghost predicate Bijective(g: Ledger) {
    && ClientsNameChains(g)
    && (forall x :: x in g.clientToChain ==>
          g.clientToChain[x] in g.chainToClient && g.chainToClient[g.clientToChain[x]] == x)
  }

  /** Nobody else holds the chain. */
  predicate FreeFor(g: Ledger, client: string, chain: ChainId) {
    chain in g.chainToClient ==> g.chainToClient[chain] == client
  }

  /** Registering keeps the two maps inverse exactly when no other client holds the chain; otherwise the former
      holder stays mapped to a chain that is no longer its own. */
  lemma RegisterKeepsBijection(g: Ledger, client: string, chain: ChainId)
    requires Bijective(g)
    ensures Bijective(Register(g, client, chain)) <==> FreeFor(g, client, chain)
    ensures var g' := Register(g, client, chain);
            !FreeFor(g, client, chain) ==>
              var former := g.chainToClient[chain];
              && former in g'.clientToChain && g'.clientToChain[former] == chain && g'.chainToClient[chain] != former
  {
    var g' := Register(g, client, chain);
    if FreeFor(g, client, chain) {
      forall x | x in g'.clientToChain
        ensures g'.clientToChain[x] in g'.chainToClient && g'.chainToClient[g'.clientToChain[x]] == x
      {
        if x != client { assert g.chainToClient[g.clientToChain[x]] == x; }
      }
    } else {
      var former := g.chainToClient[chain];
      assert g'.clientToChain[former] == chain && g'.chainToClient[chain] == client;
    }
  }

  // ---- Runs ----

  datatype Arrival = Arrival(chain: ChainId, proof: ChainProof, at: nat)

  /** One `StartPeriod` broadcast, and how many submissions had succeeded before it. */
  datatype Announced = Announced(period: nat, superblock: nat, successes: nat)

  /** One `Rollback` broadcast, and how many submissions had succeeded before it. */
  datatype RollbackSent = RollbackSent(number: nat, hash: seq<Byte>, successes: nat)

  datatype Sys = Sys(
    g: Ledger,
    inFlight: seq<Batch>,        // submissions the L1 submitter is working on
    resets: nat,                 // reapers between their two sections
    since: seq<Arrival>,         // proofs that have arrived since the last batch or expiry
    succeeded: seq<nat>,         // numbers of the successful submissions
    announced: seq<Announced>,
    rollbacks: seq<RollbackSent>)

  datatype Label =
    | Registers(client: string, chain: ChainId)
    | Proves(chain: ChainId, proof: ChainProof, now: nat)
    | Dropped(i: nat)         // mailbox check failed, no submitter, or L1 refused
    | Submitted(i: nat)       // L1 accepted
    | Reaps(now: nat, window: nat)
    | Resets
    | Announces               // the settlement part of `advance_period`

  function Begin(latest: Option<(nat, seq<Byte>)>): Sys {
    Sys(InitFromL1(Fresh(), latest), [], 0, [], [], [], [])
  }

  function Step(s: Sys, l: Label): Sys {
    match l
    case Registers(client, chain) => s.(g := Register(s.g, client, chain))
    case Proves(chain, proof, now) =>
      var r := ReceiveProof(s.g, chain, proof, now);
      s.(g := r.ledger, inFlight := s.inFlight + (if r.batch.Some? then [r.batch.value] else []),
         since := if r.batch.Some? then [] else s.since + [Arrival(chain, proof, now)])
    case Dropped(i) => if i < |s.inFlight| then s.(inFlight := Without(s.inFlight, i)) else s
    case Submitted(i) =>
      if i < |s.inFlight| then
        s.(g := Finalize(s.g, s.inFlight[i].superblock), inFlight := Without(s.inFlight, i),
           succeeded := s.succeeded + [s.inFlight[i].superblock])
      else s
    case Reaps(now, window) =>
      if WindowOver(s.g, now, window) then s.(g := ReapProofs(s.g, now, window), resets := s.resets + 1, since := [])
      else s.(g := ReapProofs(s.g, now, window))
    case Resets =>
      if s.resets > 0 then
        s.(g := ResetCounter(s.g), resets := s.resets - 1,
           rollbacks := s.rollbacks + [RollbackSent(s.g.lastFinalized, s.g.lastFinalizedHash, |s.succeeded|)])
      else s
    case Announces =>
      s.(announced := s.announced + [Announced(|s.announced| + 1, s.g.nextSuperblock, |s.succeeded|)])
  }

  function Run(latest: Option<(nat, seq<Byte>)>, labels: seq<Label>): Sys {
    if labels == [] then Begin(latest) else Step(Run(latest, labels[..|labels| - 1]), labels[|labels| - 1])
  }

  /** In every run: proofs are pending exactly while the collection clock runs, the next superblock follows
      the last finalized one, and each registered chain's client names that chain. */
  lemma {:induction false} LedgerConsistent(latest: Option<(nat, seq<Byte>)>, labels: seq<Label>)
    ensures Inv(Run(latest, labels).g)
  {
    if labels != [] {
      LedgerConsistent(latest, labels[..|labels| - 1]);
      var s, l := Run(latest, labels[..|labels| - 1]), labels[|labels| - 1];
      match l
      case Registers(client, chain) => RegisterKeepsInv(s.g, client, chain);
      case Proves(chain, proof, now) => ReceiveKeepsInv(s.g, chain, proof, now);
      case Dropped(i) =>
      case Submitted(i) =>
      case Reaps(now, window) =>
      case Resets =>
      case Announces =>
    }
  }

  /** No registration of the run takes a chain that another client holds. */
  ghost predicate NoTakeover(latest: Option<(nat, seq<Byte>)>, labels: seq<Label>) {
    forall i :: 0 <= i < |labels| && labels[i].Registers? ==>
      FreeFor(Run(latest, labels[..i]).g, labels[i].client, labels[i].chain)
  }

  lemma StepKeepsBijection(s: Sys, l: Label)
    requires Bijective(s.g) && (l.Registers? ==> FreeFor(s.g, l.client, l.chain))
    ensures Bijective(Step(s, l).g)
  {
    if l.Registers? { RegisterKeepsBijection(s.g, l.client, l.chain); }
  }

  lemma RunPrefix(latest: Option<(nat, seq<Byte>)>, labels: seq<Label>, n: nat)
    requires n < |labels|
    ensures Run(latest, labels[..n + 1]) == Step(Run(latest, labels[..n]), labels[n])
  {
    assert labels[..n + 1][..n] == labels[..n];
  }

  /** Without takeovers the two maps are inverse to each other throughout. */
  lemma {:induction false} RegistryBijective(latest: Option<(nat, seq<Byte>)>, labels: seq<Label>, n: nat)
    requires NoTakeover(latest, labels) && n <= |labels|
    ensures Bijective(Run(latest, labels[..n]).g)
  {
    if n > 0 {
      RegistryBijective(latest, labels, n - 1);
      StepKeepsBijection(Run(latest, labels[..n - 1]), labels[n - 1]);
      RunPrefix(latest, labels, n - 1);
    }
  }

  // ---- What a batch contains ----

  /** The latest proof of each chain among the arrivals. */
  function Latest(arrivals: seq<Arrival>): map<ChainId, ChainProof> {
    if arrivals == [] then map[]
    else
      var last := arrivals[|arrivals| - 1];
      Latest(arrivals[..|arrivals| - 1])[last.chain := last.proof]
  }

  lemma {:induction false} LatestCovers(arrivals: seq<Arrival>, c: ChainId)
    ensures c in Latest(arrivals) <==> exists i :: 0 <= i < |arrivals| && arrivals[i].chain == c
  {
    if arrivals != [] {
      var n := |arrivals| - 1;
      LatestCovers(arrivals[..n], c);
      if arrivals[n].chain == c {
        assert arrivals[n].chain == c;
      } else if c in Latest(arrivals[..n]) {
        var i :| 0 <= i < n && arrivals[..n][i].chain == c;
        assert arrivals[i].chain == c;
      }
    }
  }

  lemma {:induction false} LatestIs(arrivals: seq<Arrival>, c: ChainId)
    requires c in Latest(arrivals)
    ensures exists i :: IsLatest(arrivals, c, i) && Latest(arrivals)[c] == arrivals[i].proof
  {
    var n := |arrivals| - 1;
    if arrivals[n].chain == c {
      assert IsLatest(arrivals, c, n);
    } else {
      LatestIs(arrivals[..n], c);
      var i :| IsLatest(arrivals[..n], c, i) && Latest(arrivals[..n])[c] == arrivals[..n][i].proof;
      assert IsLatest(arrivals, c, i);
    }
  }

  lemma LatestMeans(arrivals: seq<Arrival>, c: ChainId)
    ensures c in Latest(arrivals) <==> exists i :: 0 <= i < |arrivals| && arrivals[i].chain == c
    ensures c in Latest(arrivals) ==> exists i :: IsLatest(arrivals, c, i) && Latest(arrivals)[c] == arrivals[i].proof
  {
    LatestCovers(arrivals, c);
    if c in Latest(arrivals) { LatestIs(arrivals, c); }
  }

  ghost predicate IsLatest(arrivals: seq<Arrival>, c: ChainId, i: int) {
    0 <= i < |arrivals| && arrivals[i].chain == c && forall j :: i < j < |arrivals| ==> arrivals[j].chain != c
  }

  lemma LatestSnoc(arrivals: seq<Arrival>, a: Arrival)
    ensures Latest(arrivals + [a]) == Latest(arrivals)[a.chain := a.proof]
  {
    assert (arrivals + [a])[..|arrivals|] == arrivals;
  }

  ghost predicate HoldsLatest(s: Sys) {
    s.g.pendingProofs == Latest(s.since)
  }

  lemma ProvesHoldsLatest(s: Sys, chain: ChainId, proof: ChainProof, now: nat)
    requires HoldsLatest(s)
    ensures HoldsLatest(Step(s, Proves(chain, proof, now)))
  {
    LatestSnoc(s.since, Arrival(chain, proof, now));
    assert Latest([]) == map[];
  }

  lemma StepHoldsLatest(s: Sys, l: Label)
    requires HoldsLatest(s)
    ensures HoldsLatest(Step(s, l))
  {
    match l
    case Registers(client, chain) =>
    case Proves(chain, proof, now) => ProvesHoldsLatest(s, chain, proof, now);
    case Dropped(i) =>
    case Submitted(i) =>
    case Reaps(now, window) => assert Latest([]) == map[];
    case Resets =>
    case Announces =>
  }

  /** In every run the pending proofs are the latest of each chain since the last batch or expiry. */
  lemma {:induction false} PendingAreLatest(latest: Option<(nat, seq<Byte>)>, labels: seq<Label>)
    ensures HoldsLatest(Run(latest, labels))
  {
    if labels != [] {
      PendingAreLatest(latest, labels[..|labels| - 1]);
      StepHoldsLatest(Run(latest, labels[..|labels| - 1]), labels[|labels| - 1]);
    }
  }

  /** A batch consists of the latest proof of each chain that has arrived since the last batch or expiry,
      the one that completes it included, and carries the next superblock number. */
  lemma BatchIsLatest(latest: Option<(nat, seq<Byte>)>, labels: seq<Label>, chain: ChainId, proof: ChainProof, now: nat)
    requires ReceiveProof(Run(latest, labels).g, chain, proof, now).batch.Some?
    ensures var s := Run(latest, labels);
            var batch := ReceiveProof(s.g, chain, proof, now).batch.value;
            var all := Latest(s.since + [Arrival(chain, proof, now)]);
            && batch.proofs.Keys == all.Keys && (forall c :: c in all ==> batch.proofs[c] == all[c].data)
            && batch.superblock == s.g.lastFinalized + 1
  {
    PendingAreLatest(latest, labels);
    LedgerConsistent(latest, labels);
    LatestSnoc(Run(latest, labels).since, Arrival(chain, proof, now));
  }

  // ---- The collection window ----

  /** The clock runs since the first of the proofs that have arrived since the last batch or expiry. */
  ghost predicate ClockSinceFirst(s: Sys) {
    s.g.collectionStarted == if s.since == [] then None else Some(s.since[0].at)
  }

  lemma StepKeepsClock(s: Sys, l: Label)
    requires ClockSinceFirst(s)
    ensures ClockSinceFirst(Step(s, l))
  {
  }

  lemma {:induction false} RunKeepsClock(latest: Option<(nat, seq<Byte>)>, labels: seq<Label>)
    ensures ClockSinceFirst(Run(latest, labels))
  {
    if labels != [] {
      RunKeepsClock(latest, labels[..|labels| - 1]);
      StepKeepsClock(Run(latest, labels[..|labels| - 1]), labels[|labels| - 1]);
    }
  }

  /** In every run a reaping at `now` forgets the collected proofs and goes on to a rollback exactly when some have
      arrived and the window is over since the first of them; otherwise it changes nothing. */
  lemma ExpiresExactly(latest: Option<(nat, seq<Byte>)>, labels: seq<Label>, now: nat, window: nat)
    ensures var s := Run(latest, labels); var s' := Step(s, Reaps(now, window));
            if s.since != [] && (window == 0 || s.since[0].at + window <= now)
            then s'.since == [] && s'.g.pendingProofs == map[] && s'.resets == s.resets + 1
            else s' == s
  {
    RunKeepsClock(latest, labels);
  }

  // ---- What a batch covers ----

  /** A complete batch covers exactly the registered chains if and only if every chain in it is registered. */
  lemma BatchCoversRegistered(g: Ledger, chain: ChainId, proof: ChainProof, now: nat)
    requires ReceiveProof(g, chain, proof, now).batch.Some?
    ensures ReceiveProof(g, chain, proof, now).batch.value.proofs.Keys == g.chainToClient.Keys
       <==> g.pendingProofs.Keys + {chain} <= g.chainToClient.Keys
  {
    var all := Collected(g, chain, proof);
    assert all.Keys == g.pendingProofs.Keys + {chain};
    assert ReceiveProof(g, chain, proof, now).batch.value.proofs.Keys == all.Keys;
    if all.Keys <= g.chainToClient.Keys {
      assert |all| == |all.Keys| && |g.chainToClient| == |g.chainToClient.Keys|;
      SubsetOfSameSize(all.Keys, g.chainToClient.Keys);
    }
  }

  /** Only registered chains submit, and registration does not change while proofs are being collected. */
  ghost predicate Disciplined(s: Sys, l: Label) {
    && (l.Proves? ==> l.chain in s.g.chainToClient)
    && (l.Registers? ==> s.g.pendingProofs == map[])
  }

  ghost predicate DisciplinedRun(latest: Option<(nat, seq<Byte>)>, labels: seq<Label>) {
    forall i :: 0 <= i < |labels| ==> Disciplined(Run(latest, labels[..i]), labels[i])
  }

  lemma StepKeepsRegistered(s: Sys, l: Label)
    requires s.g.pendingProofs.Keys <= s.g.chainToClient.Keys && Disciplined(s, l)
    ensures Step(s, l).g.pendingProofs.Keys <= Step(s, l).g.chainToClient.Keys
  {
  }

  lemma {:induction false} PendingAreRegistered(latest: Option<(nat, seq<Byte>)>, labels: seq<Label>, n: nat)
    requires DisciplinedRun(latest, labels) && n <= |labels|
    ensures var g := Run(latest, labels[..n]).g; g.pendingProofs.Keys <= g.chainToClient.Keys
  {
    if n > 0 {
      PendingAreRegistered(latest, labels, n - 1);
      StepKeepsRegistered(Run(latest, labels[..n - 1]), labels[n - 1]);
      RunPrefix(latest, labels, n - 1);
    }
  }

  /** In a disciplined run every batch that leaves for L1 covers exactly the registered chains. */
  lemma DisciplinedBatches(latest: Option<(nat, seq<Byte>)>, labels: seq<Label>, chain: ChainId, proof: ChainProof,
                           now: nat)
    requires DisciplinedRun(latest, labels) && Disciplined(Run(latest, labels), Proves(chain, proof, now))
    requires ReceiveProof(Run(latest, labels).g, chain, proof, now).batch.Some?
    ensures var g := Run(latest, labels).g;
            ReceiveProof(g, chain, proof, now).batch.value.proofs.Keys == g.chainToClient.Keys
  {
    PendingAreRegistered(latest, labels, |labels|);
    assert labels[..|labels|] == labels;
    BatchCoversRegistered(Run(latest, labels).g, chain, proof, now);
  }

  /** The proof comes over the connection of a client that has registered: `client_to_chain` gives its chain. */
  ghost predicate OverConnection(s: Sys, l: Label) {
    l.Proves? ==> exists client :: client in s.g.clientToChain && s.g.clientToChain[client] == l.chain
  }

  /** All proofs come over connections, and registration does not change while proofs are being collected. */
  ghost predicate ConnectedRun(latest: Option<(nat, seq<Byte>)>, labels: seq<Label>) {
    forall i :: 0 <= i < |labels| ==>
      OverConnection(Run(latest, labels[..i]), labels[i]) &&
      (labels[i].Registers? ==> Run(latest, labels[..i]).g.pendingProofs == map[])
  }

  /** Without takeovers the chain of a registered client is a registered chain, so proofs over connections with
      fixed registration make a disciplined run. */
  lemma ConnectionsAreDisciplined(latest: Option<(nat, seq<Byte>)>, labels: seq<Label>)
    requires NoTakeover(latest, labels) && ConnectedRun(latest, labels)
    ensures DisciplinedRun(latest, labels)
  {
    forall i | 0 <= i < |labels|
      ensures Disciplined(Run(latest, labels[..i]), labels[i])
    {
      RegistryBijective(latest, labels, i);
      assert OverConnection(Run(latest, labels[..i]), labels[i]);
    }
  }

  /** After a takeover it fails: the former holder's proof completes a batch for a chain nobody has registered. */
  lemma FormerHolderCompletes(proof: ChainProof)
    ensures var s := Run(None, [] + [Registers("a", 5)] + [Registers("b", 5)] + [Registers("b", 6)]);
            && s.g.chainToClient == map[6 := "b"] && OverConnection(s, Proves(5, proof, 0))
            && Step(s, Proves(5, proof, 0)).inFlight == [Batch(map[5 := proof.data], 1)]
  {
    var a, b, c := Registers("a", 5), Registers("b", 5), Registers("b", 6);
    RunSnoc(None, [], a);
    RunSnoc(None, [] + [a], b);
    RunSnoc(None, [] + [a] + [b], c);
    var g := Register(Register(Register(Fresh(), "a", 5), "b", 5), "b", 6);
    var s := Run(None, [] + [a] + [b] + [c]);
    assert s.g == g && s.inFlight == [];
    assert g.chainToClient == map[6 := "b"] && g.clientToChain == map["a" := 5, "b" := 6];
    assert s.g.clientToChain["a"] == 5;
    SoleProofCompletes(g, 5, proof);
  }

  // ---- The superblock counter ----

  /** A successful submission advances the finalized number by exactly one if and only if it carries the
      number that is next at that moment. */
  lemma FinalizeByOne(latest: Option<(nat, seq<Byte>)>, labels: seq<Label>, i: nat)
    requires i < |Run(latest, labels).inFlight|
    ensures var s := Run(latest, labels);
            Step(s, Submitted(i)).g.lastFinalized == s.g.lastFinalized + 1 <==>
            s.inFlight[i].superblock == s.g.nextSuperblock
  {
    LedgerConsistent(latest, labels);
  }

  /** No batch completes while another one is in flight. */
  ghost predicate SingleFlight(latest: Option<(nat, seq<Byte>)>, labels: seq<Label>) {
    forall i :: 0 <= i <= |labels| ==> |Run(latest, labels[..i]).inFlight| <= 1
  }

  ghost predicate CarriesNext(s: Sys) {
    forall i :: 0 <= i < |s.inFlight| ==> s.inFlight[i].superblock == s.g.nextSuperblock
  }

  lemma StepCarriesNext(s: Sys, l: Label)
    requires Inv(s.g) && CarriesNext(s) && |s.inFlight| <= 1
    ensures CarriesNext(Step(s, l))
  {
  }

  lemma {:induction false} FlightCarriesNext(latest: Option<(nat, seq<Byte>)>, labels: seq<Label>, n: nat)
    requires SingleFlight(latest, labels) && n <= |labels|
    ensures CarriesNext(Run(latest, labels[..n]))
  {
    if n > 0 {
      FlightCarriesNext(latest, labels, n - 1);
      LedgerConsistent(latest, labels[..n - 1]);
      StepCarriesNext(Run(latest, labels[..n - 1]), labels[n - 1]);
      RunPrefix(latest, labels, n - 1);
    }
  }

  /** With at most one submission in flight each success moves the finalized number by exactly one. */
  lemma OneSubmissionAtATime(latest: Option<(nat, seq<Byte>)>, labels: seq<Label>, i: nat)
    requires SingleFlight(latest, labels) && i < |Run(latest, labels).inFlight|
    ensures var s := Run(latest, labels);
            Step(s, Submitted(i)).g.lastFinalized == s.g.lastFinalized + 1
  {
    FlightCarriesNext(latest, labels, |labels|);
    assert labels[..|labels|] == labels;
    FinalizeByOne(latest, labels, i);
  }

  lemma RunSnoc(latest: Option<(nat, seq<Byte>)>, labels: seq<Label>, l: Label)
    ensures Run(latest, labels + [l]) == Step(Run(latest, labels), l)
  {
  }

  /** With one registered chain every proof completes a batch, whichever chain it names. */
  lemma SoleProofCompletes(g: Ledger, chain: ChainId, proof: ChainProof)
    requires |g.chainToClient| == 1 && g.pendingProofs == map[] && g.collectionStarted == None
    ensures ReceiveProof(g, chain, proof, 0) == Receipt(g, Some(Batch(map[chain := proof.data], g.nextSuperblock)))
  {
    var all := Collected(g, chain, proof);
    assert all == map[chain := proof];
    assert |all| == 1;
    assert (map c | c in all :: all[c].data) == map[chain := proof.data];
  }

  /** Chain 7 alone is registered, and nothing is pending. */
  ghost predicate OnlySeven(s: Sys, last: nat) {
    && |s.g.chainToClient| == 1 && s.g.pendingProofs == map[] && s.g.collectionStarted == None
    && s.g.lastFinalized == last && s.g.nextSuperblock == last + 1
  }

  lemma ProofOfSeven(s: Sys, last: nat, proof: ChainProof)
    requires OnlySeven(s, last)
    ensures var s' := Step(s, Proves(7, proof, 0));
            OnlySeven(s', last) && s'.inFlight == s.inFlight + [Batch(map[7 := proof.data], last + 1)]
  {
    SoleProofCompletes(s.g, 7, proof);
  }

  lemma SuccessOfSeven(s: Sys, last: nat, i: nat)
    requires OnlySeven(s, last) && i < |s.inFlight|
    ensures var s' := Step(s, Submitted(i));
            OnlySeven(s', s.inFlight[i].superblock) && s'.inFlight == Without(s.inFlight, i)
  {
  }

  lemma GoesBackFrom(s: Sys, proof: ChainProof)
    requires OnlySeven(s, 0) && s.inFlight == [Batch(map[7 := proof.data], 1), Batch(map[7 := proof.data], 1)]
    ensures var s' := Step(Step(Step(s, Submitted(0)), Proves(7, proof, 0)), Submitted(1));
            s'.g.lastFinalized == 2 && |s'.inFlight| == 1 && Step(s', Submitted(0)).g.lastFinalized == 1
  {
    SuccessOfSeven(s, 0, 0);
    var s4 := Step(s, Submitted(0));
    ProofOfSeven(s4, 1, proof);
    var s5 := Step(s4, Proves(7, proof, 0));
    SuccessOfSeven(s5, 1, 1);
    SuccessOfSeven(Step(s5, Submitted(1)), 2, 0);
  }

  lemma RunThreeMore(latest: Option<(nat, seq<Byte>)>, labels: seq<Label>, a: Label, b: Label, c: Label)
    ensures Run(latest, labels + [a] + [b] + [c]) == Step(Step(Step(Run(latest, labels), a), b), c)
  {
    RunSnoc(latest, labels, a);
    RunSnoc(latest, labels + [a], b);
    RunSnoc(latest, labels + [a] + [b], c);
  }

  /** With two in flight the finalized number can go back: a late success repeats an old number. */
  lemma LateSuccessGoesBack(proof: ChainProof)
    ensures var arrives := Proves(7, proof, 0);
            var labels :=
              [] + [Registers("a", 7)] + [arrives] + [arrives] + [Submitted(0)] + [arrives] + [Submitted(1)];
            var s := Run(None, labels);
            s.g.lastFinalized == 2 && |s.inFlight| == 1 && Step(s, Submitted(0)).g.lastFinalized == 1
  {
    var arrives := Proves(7, proof, 0);
    var s := TwoInFlight(proof);
    RunThreeMore(None, [] + [Registers("a", 7)] + [arrives] + [arrives], Submitted(0), arrives, Submitted(1));
    GoesBackFrom(s, proof);
  }

  lemma TwoInFlight(proof: ChainProof) returns (s: Sys)
    ensures s == Run(None, [] + [Registers("a", 7)] + [Proves(7, proof, 0)] + [Proves(7, proof, 0)])
    ensures OnlySeven(s, 0) && s.inFlight == [Batch(map[7 := proof.data], 1), Batch(map[7 := proof.data], 1)]
  {
    var arrives := Proves(7, proof, 0);
    var l1: seq<Label> := [] + [Registers("a", 7)];
    RunSnoc(None, [], Registers("a", 7));
    var s1 := Run(None, l1);
    assert s1.g.chainToClient == map[7 := "a"] && s1.inFlight == [];
    assert |s1.g.chainToClient| == 1;
    RunSnoc(None, l1, arrives);
    ProofOfSeven(s1, 0, proof);
    RunSnoc(None, l1 + [arrives], arrives);
    ProofOfSeven(Run(None, l1 + [arrives]), 0, proof);
    s := Run(None, l1 + [arrives] + [arrives]);
  }

  // ---- Which numbers succeed ----

  /** The number finalized on L1 when the run begins. */
  function StartNumber(latest: Option<(nat, seq<Byte>)>): nat {
    Begin(latest).g.lastFinalized
  }

  /** The numbers are `start + 1`, `start + 2`, and so on. */
  ghost predicate Consecutive(start: nat, numbers: seq<nat>) {
    forall i :: 0 <= i < |numbers| ==> numbers[i] == start + 1 + i
  }

  /** The finalized number is the last one that succeeded, and whatever is in flight follows the start or a
      number that succeeded. */
  ghost predicate Offered(start: nat, s: Sys) {
    && s.g.nextSuperblock == s.g.lastFinalized + 1
    && s.g.lastFinalized == (if s.succeeded == [] then start else s.succeeded[|s.succeeded| - 1])
    && (forall b :: b in s.inFlight ==> Follows(start, s.succeeded, b.superblock))
  }

  ghost predicate Follows(start: nat, succeeded: seq<nat>, n: nat) {
    n == start + 1 || exists k :: 0 <= k < |succeeded| && n == succeeded[k] + 1
  }

  lemma FollowsGrows(start: nat, succeeded: seq<nat>, m: nat, n: nat)
    requires Follows(start, succeeded, n)
    ensures Follows(start, succeeded + [m], n)
  {
    if n != start + 1 {
      var k :| 0 <= k < |succeeded| && n == succeeded[k] + 1;
      assert (succeeded + [m])[k] == succeeded[k];
    }
  }

  lemma SuccessKeepsOffered(start: nat, s: Sys, i: nat)
    requires Offered(start, s) && i < |s.inFlight|
    ensures Offered(start, Step(s, Submitted(i)))
  {
    var s', m := Step(s, Submitted(i)), s.inFlight[i].superblock;
    forall b | b in s'.inFlight
      ensures Follows(start, s'.succeeded, b.superblock)
    {
      assert b in s.inFlight;
      FollowsGrows(start, s.succeeded, m, b.superblock);
    }
  }

  lemma NextFollows(start: nat, s: Sys)
    requires Offered(start, s)
    ensures Follows(start, s.succeeded, s.g.nextSuperblock)
  {
    if s.succeeded != [] {
      assert s.g.nextSuperblock == s.succeeded[|s.succeeded| - 1] + 1;
    }
  }

  lemma ArrivalKeepsOffered(start: nat, s: Sys, l: Label)
    requires Offered(start, s) && l.Proves?
    ensures Offered(start, Step(s, l))
  {
    var s' := Step(s, l);
    NextFollows(start, s);
    forall b | b in s'.inFlight
      ensures Follows(start, s.succeeded, b.superblock)
    {
      assert b in s.inFlight || b.superblock == s.g.nextSuperblock;
    }
  }

  lemma StepKeepsOffered(start: nat, s: Sys, l: Label)
    requires Offered(start, s)
    ensures Offered(start, Step(s, l))
  {
    match l
    case Registers(client, chain) =>
    case Proves(chain, proof, now) => ArrivalKeepsOffered(start, s, l);
    case Dropped(i) => if i < |s.inFlight| { assert forall b :: b in Without(s.inFlight, i) ==> b in s.inFlight; }
    case Submitted(i) => if i < |s.inFlight| { SuccessKeepsOffered(start, s, i); }
    case Reaps(now, window) =>
    case Resets =>
    case Announces =>
  }

  lemma {:induction false} RunOffered(latest: Option<(nat, seq<Byte>)>, labels: seq<Label>)
    ensures Offered(StartNumber(latest), Run(latest, labels))
  {
    if labels != [] {
      RunOffered(latest, labels[..|labels| - 1]);
      StepKeepsOffered(StartNumber(latest), Run(latest, labels[..|labels| - 1]), labels[|labels| - 1]);
    }
  }

  lemma NumberIsNextOrOld(start: nat, numbers: seq<nat>, n: nat)
    requires Consecutive(start, numbers) && Follows(start, numbers, n)
    ensures n == start + 1 + |numbers| || n in numbers
  {
    if n < start + 1 + |numbers| { assert numbers[n - start - 1] == n; }
  }

  /** A number that follows consecutive ones and is none of them continues them. */
  lemma NewNumberContinues(start: nat, numbers: seq<nat>, n: nat)
    requires Consecutive(start, numbers) && Follows(start, numbers, n) && NoDup(numbers + [n])
    ensures Consecutive(start, numbers + [n])
  {
    var all := numbers + [n];
    forall k | 0 <= k < |numbers|
      ensures numbers[k] != n
    {
      assert all[k] == numbers[k] && all[|numbers|] == n;
    }
    NumberIsNextOrOld(start, numbers, n);
  }

  lemma {:induction false} DistinctMeansConsecutive(latest: Option<(nat, seq<Byte>)>, labels: seq<Label>)
    requires NoDup(Run(latest, labels).succeeded)
    ensures Consecutive(StartNumber(latest), Run(latest, labels).succeeded)
  {
    if labels != [] {
      var s, l := Run(latest, labels[..|labels| - 1]), labels[|labels| - 1];
      var s' := Step(s, l);
      if l.Submitted? && l.i < |s.inFlight| {
        assert forall i :: 0 <= i < |s.succeeded| ==> s'.succeeded[i] == s.succeeded[i];
        DistinctMeansConsecutive(latest, labels[..|labels| - 1]);
        RunOffered(latest, labels[..|labels| - 1]);
        assert s.inFlight[l.i] in s.inFlight;
        NewNumberContinues(StartNumber(latest), s.succeeded, s.inFlight[l.i].superblock);
      } else {
        DistinctMeansConsecutive(latest, labels[..|labels| - 1]);
      }
    }
  }

  /** Over every run the successful submissions carry the numbers after the initial one, in order and without a
      gap, exactly when no number succeeds twice.  L1 can enforce that. */
  lemma SuccessesConsecutiveExactly(latest: Option<(nat, seq<Byte>)>, labels: seq<Label>)
    ensures var numbers := Run(latest, labels).succeeded;
            Consecutive(StartNumber(latest), numbers) <==> NoDup(numbers)
  {
    if NoDup(Run(latest, labels).succeeded) {
      DistinctMeansConsecutive(latest, labels);
    }
  }

  // ---- What is announced ----

  /** The i-th announcement is of period `i + 1`, with the number after the one finalized last. */
  ghost predicate AnnouncedOk(start: nat, succeeded: seq<nat>, announced: seq<Announced>) {
    forall i :: 0 <= i < |announced| ==>
      && announced[i].period == i + 1 && announced[i].successes <= |succeeded|
      && announced[i].superblock ==
           1 + if announced[i].successes == 0 then start else succeeded[announced[i].successes - 1]
  }

  lemma StepKeepsAnnounced(start: nat, s: Sys, l: Label)
    requires Offered(start, s) && AnnouncedOk(start, s.succeeded, s.announced)
    ensures AnnouncedOk(start, Step(s, l).succeeded, Step(s, l).announced)
  {
    var s' := Step(s, l);
    assert s.succeeded <= s'.succeeded;
    if l.Announces? {
      assert s'.announced == s.announced + [Announced(|s.announced| + 1, s.g.nextSuperblock, |s.succeeded|)];
    } else {
      assert s'.announced == s.announced;
    }
  }

  lemma {:induction false} RunAnnounced(latest: Option<(nat, seq<Byte>)>, labels: seq<Label>)
    ensures AnnouncedOk(StartNumber(latest), Run(latest, labels).succeeded, Run(latest, labels).announced)
  {
    if labels != [] {
      RunAnnounced(latest, labels[..|labels| - 1]);
      RunOffered(latest, labels[..|labels| - 1]);
      StepKeepsAnnounced(StartNumber(latest), Run(latest, labels[..|labels| - 1]), labels[|labels| - 1]);
    }
  }

  /** One submission has succeeded between any two consecutive announcements, and none before the first. */
  ghost predicate OnePerPeriod(announced: seq<Announced>) {
    forall i :: 0 <= i < |announced| ==> announced[i].successes == i
  }

  /** Both numbers of the announcements grow by one each time, from the initial state on. */
  ghost predicate InLockstep(start: nat, announced: seq<Announced>) {
    forall i :: 0 <= i < |announced| ==> announced[i].period == i + 1 && announced[i].superblock == start + 1 + i
  }

  /** Over every run in which no number succeeds twice, period and superblock number are announced in lockstep
      exactly when one submission succeeds per period. */
  lemma LockstepExactly(latest: Option<(nat, seq<Byte>)>, labels: seq<Label>)
    requires NoDup(Run(latest, labels).succeeded)
    ensures var s := Run(latest, labels);
            InLockstep(StartNumber(latest), s.announced) <==> OnePerPeriod(s.announced)
  {
    RunAnnounced(latest, labels);
    DistinctMeansConsecutive(latest, labels);
  }

  // ---- What a rollback names ----

  /** The hash the coordinator starts with: the one read from L1, or none. */
  function StartHash(latest: Option<(nat, seq<Byte>)>): seq<Byte> {
    Begin(latest).g.lastFinalizedHash
  }

  /** A run starts from what was read from L1, or from nothing. */
  lemma StartsFromL1(latest: Option<(nat, seq<Byte>)>)
    ensures match latest
            case None => StartNumber(latest) == 0 && StartHash(latest) == []
            case Some((n, hash)) => StartNumber(latest) == n && StartHash(latest) == hash
  {
  }

  /** The hash is never updated, and successes only carry numbers above the initial one. */
  ghost predicate HashIsFirst(start: nat, hash: seq<Byte>, s: Sys) {
    && s.g.lastFinalizedHash == hash && s.g.nextSuperblock == s.g.lastFinalized + 1
    && (s.g.lastFinalized == start <==> s.succeeded == []) && s.g.lastFinalized >= start
    && (forall b :: b in s.inFlight ==> b.superblock > start)
  }

  ghost predicate RollbackOk(start: nat, hash: seq<Byte>, r: RollbackSent) {
    r.hash == hash && (r.number == start <==> r.successes == 0)
  }

  lemma SuccessKeepsHash(start: nat, hash: seq<Byte>, s: Sys, i: nat)
    requires HashIsFirst(start, hash, s) && i < |s.inFlight|
    ensures HashIsFirst(start, hash, Step(s, Submitted(i)))
  {
    assert s.inFlight[i] in s.inFlight;
    assert forall b :: b in Without(s.inFlight, i) ==> b in s.inFlight;
  }

  lemma OthersKeepHash(start: nat, hash: seq<Byte>, s: Sys, l: Label)
    requires HashIsFirst(start, hash, s) && !l.Submitted?
    ensures HashIsFirst(start, hash, Step(s, l))
  {
    if l.Dropped? && l.i < |s.inFlight| {
      assert forall b :: b in Without(s.inFlight, l.i) ==> b in s.inFlight;
    }
  }

  lemma StepKeepsHash(start: nat, hash: seq<Byte>, s: Sys, l: Label)
    requires HashIsFirst(start, hash, s)
    ensures HashIsFirst(start, hash, Step(s, l))
  {
    if !l.Submitted? {
      OthersKeepHash(start, hash, s, l);
    } else if l.i < |s.inFlight| {
      SuccessKeepsHash(start, hash, s, l.i);
    }
  }

  lemma StepRollsBack(s: Sys, l: Label, r: RollbackSent)
    requires r in Step(s, l).rollbacks
    ensures r in s.rollbacks || r == RollbackSent(s.g.lastFinalized, s.g.lastFinalizedHash, |s.succeeded|)
  {
  }

  /** In every run a rollback carries the hash the coordinator started with, whatever has been finalized since; so it
      pairs that hash with its own superblock exactly when no submission has succeeded before. */
  lemma {:induction false} RollbackHashIsFirst(latest: Option<(nat, seq<Byte>)>, labels: seq<Label>)
    ensures HashIsFirst(StartNumber(latest), StartHash(latest), Run(latest, labels))
    ensures forall r :: r in Run(latest, labels).rollbacks ==> RollbackOk(StartNumber(latest), StartHash(latest), r)
  {
    if labels != [] {
      var s, l := Run(latest, labels[..|labels| - 1]), labels[|labels| - 1];
      RollbackHashIsFirst(latest, labels[..|labels| - 1]);
      StepKeepsHash(StartNumber(latest), StartHash(latest), s, l);
      forall r | r in Step(s, l).rollbacks
        ensures RollbackOk(StartNumber(latest), StartHash(latest), r)
      {
        StepRollsBack(s, l, r);
      }
    }
  }
}
