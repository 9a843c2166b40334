/** Prover calls run outside the publisher's lock (crates/spec-sbcp/src/publisher.rs, `receive_proof`), and
    nothing is checked when their answer comes back.  What an answer publishes and what it deletes, over whole
    runs, in terms of the history of the stored proofs. */
module ProverCalls {
  import opened Spec
  import opened PublisherModel
  import opened PublisherRuns

  /** The event empties what is held for the superblock: a rollback, or an answer for it. */
  predicate Clears(h: Happening, n: nat) {
    h.Wiped? || (h.Answered? && h.superblock == n)
  }

  predicate StoresFor(h: Happening, n: nat) {
    h.Stored? && h.superblock == n
  }

  /** The proofs held for a superblock according to the history. */
  function Held(log: seq<Happening>, n: nat): map<ChainId, seq<Byte>> {
    if log == [] then map[]
    else
      var h, before := log[|log| - 1], Held(log[..|log| - 1], n);
      if Clears(h, n) then map[] else if StoresFor(h, n) then before[h.chain := h.proof] else before
  }

  lemma HeldSnoc(log: seq<Happening>, h: Happening, n: nat)
    ensures Held(log + [h], n) ==
            if Clears(h, n) then map[] else if StoresFor(h, n) then Held(log, n)[h.chain := h.proof] else Held(log, n)
  {
    assert (log + [h])[..|log|] == log;
  }

  // ---- The publisher's store is its history ----

  ghost predicate StoreMatches(s: Sys) {
    forall n: nat :: ProofsFor(s.p, n) == Held(s.log, n)
  }

  lemma ArrivalLogs(s: Sys, period: nat, m: nat, proof: seq<Byte>, chain: ChainId, n: nat)
    requires ProofsFor(s.p, n) == Held(s.log, n)
    ensures var v := Judge(s.p, period, m, proof, chain);
            ProofsFor(ReceiveProof(s.p, period, m, proof, chain), n) ==
            Held(s.log + (if v.Waiting? || v.Complete? then [Stored(m, chain, proof)] else []), n)
  {
    HeldSnoc(s.log, Stored(m, chain, proof), n);
    assert s.log + [] == s.log;
  }

  lemma AnswerLogs(s: Sys, m: nat, n: nat)
    requires ProofsFor(s.p, n) == Held(s.log, n)
    ensures ProofsFor(ProverSucceeded(s.p, m), n) == Held(s.log + [Answered(m)], n)
  {
    HeldSnoc(s.log, Answered(m), n);
  }

  lemma RollbackLogs(s: Sys, n: nat)
    ensures ProofsFor(RollbackStep(s).p, n) == Held(RollbackStep(s).log, n)
  {
    HeldSnoc(s.log, Wiped, n);
  }

  lemma OthersLogNothing(sha: seq<Byte> -> InstanceId, s: Sys, l: Label)
    requires l.PeriodStarts? || l.L1Settles? || l.InstanceStarts? || l.InstanceDecided?
    ensures Step(sha, s, l).p.proofs == s.p.proofs && Step(sha, s, l).log == s.log
  {
  }

  lemma StepLogs(sha: seq<Byte> -> InstanceId, s: Sys, l: Label, n: nat)
    requires ProofsFor(s.p, n) == Held(s.log, n)
    ensures ProofsFor(Step(sha, s, l).p, n) == Held(Step(sha, s, l).log, n)
  {
    match l
    case ProofArrives(period, m, proof, chain) => ArrivalLogs(s, period, m, proof, chain, n);
    case ProverAnswers(i) => if i < |s.calls| { AnswerLogs(s, s.calls[i].prover.superblock, n); }
    case ProverFails(i) => if i < |s.calls| { RollbackLogs(s.(calls := Without(s.calls, i)), n); }
    case TimesOut => RollbackLogs(s, n);
    case _ => OthersLogNothing(sha, s, l);
  }

  lemma StepKeepsStore(sha: seq<Byte> -> InstanceId, s: Sys, l: Label)
    requires StoreMatches(s)
    ensures StoreMatches(Step(sha, s, l))
  {
    forall n: nat
      ensures ProofsFor(Step(sha, s, l).p, n) == Held(Step(sha, s, l).log, n)
    {
      assert ProofsFor(s.p, n) == Held(s.log, n);
      StepLogs(sha, s, l, n);
    }
  }

  /** A call was made with everything held at that moment, the proof that completed it included. */
  ghost predicate CallOk(log: seq<Happening>, call: Call) {
    && 0 < call.at <= |log| && StoresFor(log[call.at - 1], call.prover.superblock)
    && log[call.at - 1].chain in call.prover.proofs
    && call.prover.proofs == Held(log[..call.at], call.prover.superblock)
  }

  ghost predicate CallsOk(s: Sys) {
    forall i :: 0 <= i < |s.calls| ==> CallOk(s.log, s.calls[i])
  }

  lemma CallSurvives(log: seq<Happening>, log': seq<Happening>, call: Call)
    requires CallOk(log, call) && log <= log'
    ensures CallOk(log', call)
  {
    assert log'[..call.at] == log[..call.at];
  }

  /** Storing a proof is logged as storing it. */
  lemma StoredHeld(p: PublisherState, log: seq<Happening>, n: nat, proof: seq<Byte>, chain: ChainId)
    requires ProofsFor(p, n) == Held(log, n)
    ensures WithProof(p, n, proof, chain).proofs[n] == Held(log + [Stored(n, chain, proof)], n)
  {
    HeldSnoc(log, Stored(n, chain, proof), n);
  }

  lemma CompleteCallOk(log: seq<Happening>, h: Happening, call: Call)
    requires StoresFor(h, call.prover.superblock) && call.at == |log| + 1
    requires call.prover.proofs == Held(log + [h], call.prover.superblock)
    ensures CallOk(log + [h], call)
  {
    HeldSnoc(log, h, call.prover.superblock);
    assert (log + [h])[..call.at] == log + [h];
  }

  /** What a step does when a proof completes a set. */
  lemma CompleteStep(sha: seq<Byte> -> InstanceId, s: Sys, l: Label)
    requires l.ProofArrives? && Judge(s.p, l.period, l.superblock, l.proof, l.chain).Complete?
    ensures var all := WithProof(s.p, l.superblock, l.proof, l.chain).proofs[l.superblock];
            var call := Call(ProverCall(l.superblock, s.p.finalizedHash, all), |s.log| + 1, |s.announced|);
            && Step(sha, s, l).calls == s.calls + [call]
            && Step(sha, s, l).log == s.log + [Stored(l.superblock, l.chain, l.proof)]
  {
  }

  lemma NewCallOk(sha: seq<Byte> -> InstanceId, s: Sys, l: Label)
    requires l.ProofArrives? && Judge(s.p, l.period, l.superblock, l.proof, l.chain).Complete?
    requires ProofsFor(s.p, l.superblock) == Held(s.log, l.superblock)
    ensures var s' := Step(sha, s, l);
            |s'.calls| == |s.calls| + 1 && CallOk(s'.log, s'.calls[|s.calls|])
  {
    CompleteStep(sha, s, l);
    StoredHeld(s.p, s.log, l.superblock, l.proof, l.chain);
    CompleteCallOk(s.log, Stored(l.superblock, l.chain, l.proof), Step(sha, s, l).calls[|s.calls|]);
  }

  /** Calls are kept, removed or, when a proof completes a set, added at the end. */
  lemma StepCalls(sha: seq<Byte> -> InstanceId, s: Sys, l: Label, c: Call)
    requires c in Step(sha, s, l).calls
    ensures s.log <= Step(sha, s, l).log
    ensures c in s.calls ||
            (l.ProofArrives? && Judge(s.p, l.period, l.superblock, l.proof, l.chain).Complete? &&
              c == Step(sha, s, l).calls[|s.calls|])
  {
  }

  lemma StepKeepsCalls(sha: seq<Byte> -> InstanceId, s: Sys, l: Label)
    requires StoreMatches(s) && CallsOk(s)
    ensures CallsOk(Step(sha, s, l))
  {
    var s' := Step(sha, s, l);
    forall i | 0 <= i < |s'.calls|
      ensures CallOk(s'.log, s'.calls[i])
    {
      StepCalls(sha, s, l, s'.calls[i]);
      if s'.calls[i] in s.calls {
        CallSurvives(s.log, s'.log, s'.calls[i]);
      } else {
        assert ProofsFor(s.p, l.superblock) == Held(s.log, l.superblock);
        NewCallOk(sha, s, l);
      }
    }
  }

  lemma {:induction false} RunMatches(sha: seq<Byte> -> InstanceId, p: PublisherState, labels: seq<Label>)
    requires p.proofs == map[]
    ensures StoreMatches(Run(sha, p, labels)) && CallsOk(Run(sha, p, labels))
  {
    if labels != [] {
      RunMatches(sha, p, labels[..|labels| - 1]);
      StepKeepsStore(sha, Run(sha, p, labels[..|labels| - 1]), labels[|labels| - 1]);
      StepKeepsCalls(sha, Run(sha, p, labels[..|labels| - 1]), labels[|labels| - 1]);
    }
  }

  // ---- What an answer publishes ----

  /** The k-th event stored the proof of chain `c` that the call was made with. */
  ghost predicate BuiltFrom(log: seq<Happening>, call: Call, c: ChainId, k: int) {
    && 0 <= k < call.at <= |log| && c in call.prover.proofs
    && log[k] == Stored(call.prover.superblock, c, call.prover.proofs[c])
    && (forall j :: k < j < call.at ==> !Clears(log[j], call.prover.superblock))
  }

  /** No rollback since the k-th event. */
  ghost predicate NotRolledSince(log: seq<Happening>, k: int) {
    forall j :: k <= j < |log| && 0 <= j ==> !log[j].Wiped?
  }

  /** No rollback announced since that many announcements. */
  ghost predicate NoRollbackAnnounced(announced: seq<Announcement>, k: nat) {
    forall j :: k <= j < |announced| ==> announced[j].Period?
  }

  ghost predicate Rolls(s: Sys, l: Label) {
    l.TimesOut? || (l.ProverFails? && l.i < |s.calls|)
  }

  /** A step is announced as a rollback exactly when it wipes the store. */
  lemma StepRolls(sha: seq<Byte> -> InstanceId, s: Sys, l: Label)
    ensures var s' := Step(sha, s, l);
            && s.log <= s'.log && s.announced <= s'.announced
            && (NotRolledSince(s'.log, |s.log|) <==> !Rolls(s, l))
            && (NoRollbackAnnounced(s'.announced, |s.announced|) <==> !Rolls(s, l))
  {
    var s' := Step(sha, s, l);
    if Rolls(s, l) {
      assert s'.log[|s.log|].Wiped? && s'.announced[|s.announced|].Rolled?;
    }
  }

  ghost predicate CallEra(s: Sys, call: Call) {
    && call.at <= |s.log| && call.announced <= |s.announced|
    && (NotRolledSince(s.log, call.at) <==> NoRollbackAnnounced(s.announced, call.announced))
  }

  lemma EraSurvives(s: Sys, s': Sys, call: Call)
    requires CallEra(s, call) && s.log <= s'.log && s.announced <= s'.announced
    requires NotRolledSince(s'.log, |s.log|) <==> NoRollbackAnnounced(s'.announced, |s.announced|)
    ensures CallEra(s', call)
  {
    assert NotRolledSince(s'.log, call.at) <==> NotRolledSince(s.log, call.at) && NotRolledSince(s'.log, |s.log|) by {
      assert forall j :: 0 <= j < |s.log| ==> s'.log[j] == s.log[j];
    }
    assert NoRollbackAnnounced(s'.announced, call.announced) <==>
           NoRollbackAnnounced(s.announced, call.announced) && NoRollbackAnnounced(s'.announced, |s.announced|) by {
      assert forall j :: 0 <= j < |s.announced| ==> s'.announced[j] == s.announced[j];
    }
  }

  lemma StepKeepsEra(sha: seq<Byte> -> InstanceId, s: Sys, l: Label, call: Call)
    requires call in Step(sha, s, l).calls && (call in s.calls ==> CallEra(s, call))
    ensures CallEra(Step(sha, s, l), call)
  {
    StepCalls(sha, s, l, call);
    if call in s.calls {
      StepRolls(sha, s, l);
      EraSurvives(s, Step(sha, s, l), call);
    }
  }

  lemma {:induction false} RunEra(sha: seq<Byte> -> InstanceId, p: PublisherState, labels: seq<Label>, call: Call)
    requires call in Run(sha, p, labels).calls
    ensures CallEra(Run(sha, p, labels), call)
  {
    if labels != [] {
      var s := Run(sha, p, labels[..|labels| - 1]);
      if call in s.calls {
        RunEra(sha, p, labels[..|labels| - 1], call);
      }
      StepKeepsEra(sha, s, labels[|labels| - 1], call);
    }
  }

  ghost predicate AllCurrent(log: seq<Happening>, call: Call) {
    forall c :: c in call.prover.proofs ==> exists k :: BuiltFrom(log, call, c, k) && NotRolledSince(log, k)
  }

  lemma {:induction false} HeldMeans(log: seq<Happening>, n: nat, c: ChainId) returns (k: nat)
    requires c in Held(log, n)
    ensures k < |log| && log[k] == Stored(n, c, Held(log, n)[c])
    ensures forall j :: k < j < |log| ==> !Clears(log[j], n)
  {
    var last := |log| - 1;
    if StoresFor(log[last], n) && log[last].chain == c {
      k := last;
    } else {
      k := HeldMeans(log[..last], n, c);
    }
  }

  lemma CallSource(log: seq<Happening>, call: Call, c: ChainId) returns (k: nat)
    requires CallOk(log, call) && c in call.prover.proofs
    ensures BuiltFrom(log, call, c, k)
  {
    k := HeldMeans(log[..call.at], call.prover.superblock, c);
    forall j | k < j < call.at
      ensures !Clears(log[j], call.prover.superblock)
    {
      assert log[j] == log[..call.at][j];
    }
  }

  lemma CurrentExactly(log: seq<Happening>, call: Call)
    requires CallOk(log, call)
    ensures AllCurrent(log, call) <==> NotRolledSince(log, call.at)
  {
    if AllCurrent(log, call) {
      var c := log[call.at - 1].chain;
      var k :| BuiltFrom(log, call, c, k) && NotRolledSince(log, k);
    }
    if NotRolledSince(log, call.at) {
      forall c | c in call.prover.proofs
        ensures exists k :: BuiltFrom(log, call, c, k) && NotRolledSince(log, k)
      {
        var k := CallSource(log, call, c);
        assert NotRolledSince(log, k);
      }
    }
  }

  /** In every run of a new publisher: the answer to a running call publishes its superblock whatever has
      happened since, and all proofs it was built from date from after the last rollback exactly when no
      rollback was announced since the call. */
  lemma AnswerIsCurrentExactly(sha: seq<Byte> -> InstanceId, p: PublisherState, labels: seq<Label>, i: nat)
    requires p.proofs == map[] && i < |Run(sha, p, labels).calls|
    ensures var s := Run(sha, p, labels); var call := s.calls[i];
            && call.prover.superblock in Step(sha, s, ProverAnswers(i)).published
            && (forall c :: c in call.prover.proofs ==> exists k :: BuiltFrom(s.log, call, c, k))
            && (AllCurrent(s.log, call) <==> NoRollbackAnnounced(s.announced, call.announced))
  {
    RunMatches(sha, p, labels);
    var s := Run(sha, p, labels);
    var call := s.calls[i];
    CurrentExactly(s.log, call);
    RunEra(sha, p, labels, call);
    forall c | c in call.prover.proofs
      ensures exists k :: BuiltFrom(s.log, call, c, k)
    {
      var k := CallSource(s.log, call, c);
    }
  }

  // ---- What an answer deletes ----

  ghost predicate ClearedSince(log: seq<Happening>, at: nat, n: nat) {
    exists j :: at <= j < |log| && Clears(log[j], n)
  }

  /** What is held is what was held at an earlier moment, unless cleared since, and what was stored since. */
  lemma {:induction false} HeldSplit(log: seq<Happening>, at: nat, n: nat)
    requires at <= |log|
    ensures Held(log, n) ==
            if ClearedSince(log, at, n) then Held(log[at..], n) else Held(log[..at], n) + Held(log[at..], n)
    decreases |log|
  {
    if at == |log| {
      assert log[..at] == log && log[at..] == [];
    } else {
      var init, h := log[..|log| - 1], log[|log| - 1];
      HeldSplit(init, at, n);
      assert init[..at] == log[..at] && log[at..] == init[at..] + [h] && log == init + [h];
      SplitSnoc(init, h, at, n);
    }
  }

  lemma SplitSnoc(log: seq<Happening>, h: Happening, at: nat, n: nat)
    requires at <= |log|
    requires Held(log, n) ==
             if ClearedSince(log, at, n) then Held(log[at..], n) else Held(log[..at], n) + Held(log[at..], n)
    ensures Held(log + [h], n) ==
            if ClearedSince(log + [h], at, n)
            then Held(log[at..] + [h], n)
            else Held(log[..at], n) + Held(log[at..] + [h], n)
  {
    HeldSnoc(log[at..], h, n);
    HeldSnoc(log, h, n);
    ClearedSnoc(log, h, at, n);
    if StoresFor(h, n) {
      UpdateRight(Held(log[..at], n), Held(log[at..], n), h.chain, h.proof);
    }
  }

  lemma UpdateRight<K, V>(a: map<K, V>, b: map<K, V>, k: K, v: V)
    ensures (a + b)[k := v] == a + b[k := v]
  {
  }

  lemma ClearedSnoc(log: seq<Happening>, h: Happening, at: nat, n: nat)
    requires at <= |log|
    ensures ClearedSince(log + [h], at, n) <==> ClearedSince(log, at, n) || Clears(h, n)
  {
    var all := log + [h];
    assert all[|log|] == h;
    if ClearedSince(log, at, n) {
      var j :| at <= j < |log| && Clears(log[j], n);
      assert all[j] == log[j];
    }
  }

  /** The k-th event stored a proof for the superblock that has not been cleared. */
  ghost predicate StillHeld(log: seq<Happening>, n: nat, k: int) {
    0 <= k < |log| && StoresFor(log[k], n) && forall j :: k < j < |log| ==> !Clears(log[j], n)
  }

  lemma {:induction false} HeldExactly(log: seq<Happening>, n: nat)
    ensures Held(log, n) != map[] <==> exists k :: StillHeld(log, n, k)
  {
    if log != [] {
      var init, last := log[..|log| - 1], |log| - 1;
      HeldExactly(init, n);
      if StoresFor(log[last], n) {
        assert StillHeld(log, n, last);
        assert log[last].chain in Held(log, n);
      } else if !Clears(log[last], n) {
        if k :| StillHeld(init, n, k) {
          assert StillHeld(log, n, k);
        }
        if k :| StillHeld(log, n, k) {
          assert StillHeld(init, n, k);
        }
      }
    }
  }

  /** The proofs stored for the call's superblock since the call and still held. */
  ghost function Newer(s: Sys, call: Call): map<ChainId, seq<Byte>>
    requires call.at <= |s.log|
  {
    Held(s.log[call.at..], call.prover.superblock)
  }

  /** In every run of a new publisher an answer empties the store for its superblock.  It then deletes a proof
      that came after the call exactly when one was stored since the call that neither a rollback nor another
      answer has cleared; and it deletes newer proofs only, if the store was cleared since the call. */
  lemma AnswerDeletesExactly(sha: seq<Byte> -> InstanceId, p: PublisherState, labels: seq<Label>, i: nat)
    requires p.proofs == map[] && i < |Run(sha, p, labels).calls|
    ensures var s := Run(sha, p, labels); var call := s.calls[i]; var n := call.prover.superblock;
            && call.at <= |s.log|
            && ProofsFor(Step(sha, s, ProverAnswers(i)).p, n) == map[]
            && ProofsFor(s.p, n) ==
                 (if ClearedSince(s.log, call.at, n) then Newer(s, call) else call.prover.proofs + Newer(s, call))
            && (Newer(s, call) != map[] <==> exists k :: StillHeld(s.log[call.at..], n, k))
  {
    RunMatches(sha, p, labels);
    var s := Run(sha, p, labels);
    var call := s.calls[i];
    assert CallOk(s.log, call);
    assert ProofsFor(s.p, call.prover.superblock) == Held(s.log, call.prover.superblock);
    HeldSplit(s.log, call.at, call.prover.superblock);
    HeldExactly(s.log[call.at..], call.prover.superblock);
  }

  // ---- Both happen ----

  /** A call that is running when the rollback happens publishes its superblock after it, and L1 settling it
      finalizes it. */
  lemma LateAnswerPublishes(sha: seq<Byte> -> InstanceId, x: seq<Byte>, hash: seq<Byte>)
    ensures var p := New(10, 5, 5, [], 0, {1}).value;
            var before := Run(sha, p, [PeriodStarts, PeriodStarts, ProofArrives(11, 6, x, 1), TimesOut]);
            var after := Step(sha, before, ProverAnswers(0));
            && |before.calls| == 1 && !NoRollbackAnnounced(before.announced, before.calls[0].announced)
            && before.published == {} && after.published == {6}
            && Step(sha, after, L1Settles(6, hash)).p.finalized == 6
  {
    var p := New(10, 5, 5, [], 0, {1}).value;
    var first := [PeriodStarts, PeriodStarts, ProofArrives(11, 6, x, 1)];
    var s3 := OneProof(sha, p, x);
    RunSnoc(sha, p, first, TimesOut);
    assert first + [TimesOut] == [PeriodStarts, PeriodStarts, ProofArrives(11, 6, x, 1), TimesOut];
    var s4 := Step(sha, s3, TimesOut);
    assert s4.announced[|s3.announced|].Rolled?;
  }

  lemma OneProof(sha: seq<Byte> -> InstanceId, p: PublisherState, x: seq<Byte>) returns (s: Sys)
    requires p == PublisherState(10, 5, 5, [], map[], {1}, 0, map[], 0)
    ensures s == Run(sha, p, [PeriodStarts, PeriodStarts, ProofArrives(11, 6, x, 1)])
    ensures |s.calls| == 1 && s.calls[0].prover.superblock == 6 && s.calls[0].announced == |s.announced|
    ensures s.p.finalized == 5 && s.published == {}
  {
    var a := ProofArrives(11, 6, x, 1);
    RunOfThree(sha, p, PeriodStarts, PeriodStarts, a);
    var s2 := Step(sha, Step(sha, Begin(p), PeriodStarts), PeriodStarts);
    assert s2.p.period == 12 && s2.p.target == 7 && s2.log == [];
    assert |WithProof(s2.p, 6, x, 1).proofs[6]| == |map[1 := x]| == 1;
    s := Step(sha, s2, a);
  }

  /** With two chains a late answer deletes a proof collected after the rollback. */
  lemma LateAnswerDeletes(sha: seq<Byte> -> InstanceId, x: seq<Byte>, y: seq<Byte>)
    ensures var p := New(10, 5, 5, [], 0, {1, 2}).value;
            var labels := [PeriodStarts, PeriodStarts, ProofArrives(11, 6, x, 1), ProofArrives(11, 6, x, 2), TimesOut,
                           PeriodStarts, ProofArrives(12, 6, y, 1)];
            var before := Run(sha, p, labels);
            && |before.calls| == 1 && ProofsFor(before.p, 6) == map[1 := y]
            && ProofsFor(Step(sha, before, ProverAnswers(0)).p, 6) == map[]
  {
    var p := New(10, 5, 5, [], 0, {1, 2}).value;
    var a, b, c := ProofArrives(11, 6, x, 1), ProofArrives(11, 6, x, 2), ProofArrives(12, 6, y, 1);
    var first := [PeriodStarts, PeriodStarts, a, b];
    var s4 := TwoProofs(sha, p, x);
    RunThreeMore(sha, p, first, TimesOut, PeriodStarts, c);
    assert first + [TimesOut] + [PeriodStarts] + [c] == [PeriodStarts, PeriodStarts, a, b, TimesOut, PeriodStarts, c];
    ProofAfterRollback(sha, s4, y);
    AnswerEmpties(sha, Step(sha, Step(sha, Step(sha, s4, TimesOut), PeriodStarts), c), 0);
  }

  lemma AnswerEmpties(sha: seq<Byte> -> InstanceId, s: Sys, i: nat)
    requires i < |s.calls|
    ensures ProofsFor(Step(sha, s, ProverAnswers(i)).p, s.calls[i].prover.superblock) == map[]
  {
  }

  /** A rollback, the next period and a proof for it, while a call is running. */
  lemma ProofAfterRollback(sha: seq<Byte> -> InstanceId, s: Sys, y: seq<Byte>)
    requires s.p.period == 12 && s.p.finalized == 5 && s.p.window == 0 && s.p.chains == {1, 2}
    ensures var s' := Step(sha, Step(sha, Step(sha, s, TimesOut), PeriodStarts), ProofArrives(12, 6, y, 1));
            s'.calls == s.calls && ProofsFor(s'.p, 6) == map[1 := y]
  {
    var s2 := Step(sha, Step(sha, s, TimesOut), PeriodStarts);
    assert s2.p.period == 13 && s2.p.target == 7 && s2.p.proofs == map[] && s2.calls == s.calls;
    assert |WithProof(s2.p, 6, y, 1).proofs[6]| == |map[1 := y]| == 1 && |{1, 2}| == 2;
    assert Judge(s2.p, 12, 6, y, 1) == Waiting;
  }

  lemma TwoProofs(sha: seq<Byte> -> InstanceId, p: PublisherState, x: seq<Byte>) returns (s: Sys)
    requires p == PublisherState(10, 5, 5, [], map[], {1, 2}, 0, map[], 0)
    ensures s == Run(sha, p, [PeriodStarts, PeriodStarts, ProofArrives(11, 6, x, 1), ProofArrives(11, 6, x, 2)])
    ensures |s.calls| == 1 && s.calls[0].prover.superblock == 6
    ensures s.p.period == 12 && s.p.finalized == 5 && s.p.window == 0 && s.p.chains == {1, 2}
  {
    var a, b := ProofArrives(11, 6, x, 1), ProofArrives(11, 6, x, 2);
    RunOfThree(sha, p, PeriodStarts, PeriodStarts, a);
    RunSnoc(sha, p, [PeriodStarts, PeriodStarts, a], b);
    assert [PeriodStarts, PeriodStarts, a] + [b] == [PeriodStarts, PeriodStarts, a, b];
    var s2 := Step(sha, Step(sha, Begin(p), PeriodStarts), PeriodStarts);
    assert s2.p.period == 12 && s2.p.target == 7;
    assert |WithProof(s2.p, 6, x, 1).proofs[6]| == |map[1 := x]| == 1 && |{1, 2}| == 2;
    var s3 := Step(sha, s2, a);
    assert s3.calls == [] && ProofsFor(s3.p, 6) == map[1 := x];
    assert WithProof(s3.p, 6, x, 2).proofs[6] == map[1 := x, 2 := x];
    assert |map[1 := x, 2 := x]| == 2;
    s := Step(sha, s3, b);
  }
}
