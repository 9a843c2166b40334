/** Votes and decisions over whole runs. */
module AtomicCommit {
  import opened Spec
  import opened Encoding
  import opened CoordinatorModel
  import opened CoordinatorRuns

  ghost predicate Participates(instance: Instance, b: Ballot) {
    Key(instance) == b.key && b.chain in ChainsOf(instance.request)
  }

  ghost predicate OfParticipant(starts: seq<Start>, b: Ballot) {
    exists k :: 0 <= k < |starts| && Participates(starts[k].instance, b)
  }

  ghost predicate OneVoteEach(ballots: seq<Ballot>) {
    forall i, j :: 0 <= i < j < |ballots| ==>
      ballots[i].key != ballots[j].key || ballots[i].chain != ballots[j].chain
  }

  /** The votes held by an active instance are the recorded ones. */
  ghost predicate VotesMatch(key: string, votes: map<ChainId, bool>, ballots: seq<Ballot>) {
    && (forall c :: c in votes ==> Ballot(key, c, votes[c]) in ballots)
    && (forall b :: b in ballots && b.key == key ==> b.chain in votes && votes[b.chain] == b.vote)
  }

  ghost predicate Unanimous(instance: Instance, ballots: seq<Ballot>) {
    && (forall c :: c in ChainsOf(instance.request) ==> Ballot(Key(instance), c, true) in ballots)
    && (forall b :: b in ballots && b.key == Key(instance) ==> b.vote)
  }

  /** The recorded votes of an instance are one "yes" of each participant and nothing else. */
  ghost predicate ExactlyYes(instance: Instance, ballots: seq<Ballot>) {
    forall b: Ballot :: b in ballots && b.key == Key(instance) <==>
      b.key == Key(instance) && b.vote && b.chain in ChainsOf(instance.request)
  }

  /** Votes are recorded for started instances, and only from their own participants. */
  ghost predicate VotesOfParticipants(starts: seq<Start>, ballots: seq<Ballot>) {
    && (forall b :: b in ballots ==> OfParticipant(starts, b))
    && (forall k, b :: 0 <= k < |starts| && b in ballots && b.key == Key(starts[k].instance) ==>
          b.chain in ChainsOf(starts[k].instance.request))
  }

  ghost predicate Missing(instance: Instance, c: ChainId, ballots: seq<Ballot>) {
    forall b :: b in ballots && b.key == Key(instance) ==> b.chain != c
  }

  /** Why a decision was taken: unanimity, a recorded "no", or a timeout with a vote still missing. */
  ghost predicate Justified(instance: Instance, d: Decision, ballots: seq<Ballot>) {
    if d.wire.commit then !d.timedOut && Unanimous(instance, ballots)
    else if d.timedOut then
      && (forall b :: b in ballots && b.key == Key(instance) ==> b.vote)
      && (exists c :: c in ChainsOf(instance.request) && Missing(instance, c, ballots))
    else exists c :: c in ChainsOf(instance.request) && Ballot(Key(instance), c, false) in ballots
  }

  ghost predicate BallotsOk(s: Sys) {
    && OneVoteEach(s.ballots)
    && (forall b :: b in s.ballots ==> OfParticipant(s.starts, b))
    && (forall x :: x in s.st.active ==> VotesMatch(x, s.st.active[x].votes, s.ballots))
  }

  ghost predicate AllJustified(starts: seq<Start>, decisions: seq<Decision>, ballots: seq<Ballot>) {
    forall j :: 0 <= j < |decisions| ==>
      decisions[j].start < |starts| && Justified(starts[decisions[j].start].instance, decisions[j], ballots)
  }

  ghost predicate DecisionsOk(s: Sys) {
    AllJustified(s.starts, s.decisions, s.ballots)
  }

  // ---- Preservation ----

  lemma StartsExtend(starts: seq<Start>, start: Start, b: Ballot)
    requires OfParticipant(starts, b)
    ensures OfParticipant(starts + [start], b)
  {
    var k :| 0 <= k < |starts| && Participates(starts[k].instance, b);
    assert (starts + [start])[k] == starts[k];
  }

  lemma LaunchKeepsBallots(sha: seq<Byte> -> InstanceId, s: Sys, ticket: nat, viaQueue: bool, request: XtRequest,
                           chains: seq<ChainId>, now: nat)
    requires BallotsOk(s) && DecisionsOk(s)
    requires KeysDistinct(Launch(sha, s, ticket, viaQueue, request, chains, now).starts)
    ensures BallotsOk(Launch(sha, s, ticket, viaQueue, request, chains, now))
    ensures DecisionsOk(Launch(sha, s, ticket, viaQueue, request, chains, now))
  {
    var s' := Launch(sha, s, ticket, viaQueue, request, chains, now);
    var n := |s.starts|;
    var key := Key(s'.starts[n].instance);
    forall b | b in s.ballots
      ensures OfParticipant(s'.starts, b) && b.key != key
    {
      StartsExtend(s.starts, s'.starts[n], b);
      var k :| 0 <= k < n && Participates(s.starts[k].instance, b);
      assert s'.starts[k] == s.starts[k];
    }
    assert forall j :: 0 <= j < |s.decisions| ==>
        s'.starts[s.decisions[j].start] == s.starts[s.decisions[j].start];
  }

  /** A decided instance is no longer active, so no vote for it can be recorded any more. */
  lemma DecidedNotActive(s: Sys, j: nat)
    requires KeysDistinct(s.starts) && Linked(s) && Settled(s) && j < |s.decisions|
    ensures Key(s.starts[s.decisions[j].start].instance) !in s.st.active
  {
  }

  /** A further vote for another instance leaves the grounds of a decision as they were. */
  lemma JustifiedStays(instance: Instance, d: Decision, ballots: seq<Ballot>, b: Ballot)
    requires Justified(instance, d, ballots) && b.key != Key(instance)
    ensures Justified(instance, d, ballots + [b])
  {
  }

  lemma VotesMatchAfter(key: string, votes: map<ChainId, bool>, ballots: seq<Ballot>, b: Ballot)
    requires VotesMatch(key, votes, ballots)
    requires b.key == key ==> b.chain !in votes
    ensures VotesMatch(key, if b.key == key then votes[b.chain := b.vote] else votes, ballots + [b])
  {
  }

  lemma NewVoteIsFirst(s: Sys, key: string, chain: ChainId, vote: bool)
    requires Counts(s.st, key, chain) && VotesMatch(key, s.st.active[key].votes, s.ballots) && OneVoteEach(s.ballots)
    ensures OneVoteEach(s.ballots + [Ballot(key, chain, vote)])
  {
  }

  lemma CastTable(s: Sys, idBytes: seq<Byte>, chain: ChainId, vote: bool, x: string)
    requires Paired(s) && Counts(s.st, Hex(idBytes), chain) && x in Cast(s, idBytes, chain, vote).st.active
    ensures x in s.st.active
    ensures var votes, votes' := s.st.active[x].votes, Cast(s, idBytes, chain, vote).st.active[x].votes;
            votes' == if Hex(idBytes) == x then votes[chain := vote] else votes
  {
    RecordVoteTable(s.st, Hex(idBytes), chain, vote);
  }

  lemma CastKeepsVotesMatch(s: Sys, idBytes: seq<Byte>, chain: ChainId, vote: bool)
    requires Paired(s) && Counts(s.st, Hex(idBytes), chain)
    requires forall x :: x in s.st.active ==> VotesMatch(x, s.st.active[x].votes, s.ballots)
    ensures var s' := Cast(s, idBytes, chain, vote);
            forall x :: x in s'.st.active ==>
              VotesMatch(x, s'.st.active[x].votes, s.ballots + [Ballot(Hex(idBytes), chain, vote)])
  {
    var s' := Cast(s, idBytes, chain, vote);
    forall x | x in s'.st.active
      ensures VotesMatch(x, s'.st.active[x].votes, s.ballots + [Ballot(Hex(idBytes), chain, vote)])
    {
      CastTable(s, idBytes, chain, vote, x);
      VotesMatchAfter(x, s.st.active[x].votes, s.ballots, Ballot(Hex(idBytes), chain, vote));
    }
  }

  lemma CastKeepsBallots(s: Sys, idBytes: seq<Byte>, chain: ChainId, vote: bool)
    requires Linked(s) && Paired(s) && BallotsOk(s)
    ensures BallotsOk(Cast(s, idBytes, chain, vote))
  {
    var key := Hex(idBytes);
    if Counts(s.st, key, chain) {
      CastHistory(s, idBytes, chain, vote);
      assert Participates(s.starts[s.live[key]].instance, Ballot(key, chain, vote));
      NewVoteIsFirst(s, key, chain, vote);
      CastKeepsVotesMatch(s, idBytes, chain, vote);
    }
  }

  lemma NewDecisionJustified(s: Sys, instance: Instance, d: Decision, chain: ChainId, vote: bool)
    requires Inv(s.st) && Counts(s.st, Key(instance), chain)
    requires LinkedTo(instance, Key(instance), s.st.active[Key(instance)])
    requires VotesMatch(Key(instance), s.st.active[Key(instance)].votes, s.ballots)
    requires Outcome(s.st, Key(instance), chain, vote) == Some(d.wire.commit) && !d.timedOut
    ensures Justified(instance, d, s.ballots + [Ballot(Key(instance), chain, vote)])
  {
    var key := Key(instance);
    var ballots := s.ballots + [Ballot(key, chain, vote)];
    var xt := WithVote(s.st, key, chain, vote).active[key];
    OutcomeMeaning(s.st, key, chain, vote);
    VotesMatchAfter(key, s.st.active[key].votes, s.ballots, Ballot(key, chain, vote));
    if d.wire.commit {
      assert forall c :: c in xt.chains ==> Ballot(key, c, true) in ballots;
      forall b | b in ballots && b.key == key
        ensures b.vote
      {
        assert b.chain in xt.votes.Keys;
        assert b.chain in Elems(xt.chains);
      }
    } else {
      assert !vote;
    }
  }

  lemma CastHistory(s: Sys, idBytes: seq<Byte>, chain: ChainId, vote: bool)
    requires Paired(s) && Linked(s) && Counts(s.st, Hex(idBytes), chain)
    ensures var s' := Cast(s, idBytes, chain, vote);
            var outcome := Outcome(s.st, Hex(idBytes), chain, vote);
            && Hex(idBytes) in s.live
            && s'.starts == s.starts && s'.ballots == s.ballots + [Ballot(Hex(idBytes), chain, vote)]
            && s'.live == (if outcome.None? then s.live else s.live - {Hex(idBytes)})
            && s'.submitted == s.submitted && s'.rejected == s.rejected && s'.st.queue == s.st.queue
            && s'.decisions == s.decisions +
                 if outcome.None? then []
                 else [Decision(s.live[Hex(idBytes)], Decided(idBytes, outcome.value), false)]
  {
  }

  lemma AllJustifiedStay(starts: seq<Start>, decisions: seq<Decision>, ballots: seq<Ballot>, b: Ballot)
    requires AllJustified(starts, decisions, ballots)
    requires forall j :: 0 <= j < |decisions| ==> b.key != Key(starts[decisions[j].start].instance)
    ensures AllJustified(starts, decisions, ballots + [b])
  {
    forall j | 0 <= j < |decisions|
      ensures Justified(starts[decisions[j].start].instance, decisions[j], ballots + [b])
    {
      JustifiedStays(starts[decisions[j].start].instance, decisions[j], ballots, b);
    }
  }

  lemma EarlierDecisionsAllStay(s: Sys, b: Ballot)
    requires KeysDistinct(s.starts) && Linked(s) && Settled(s) && DecisionsOk(s) && b.key in s.st.active
    ensures AllJustified(s.starts, s.decisions, s.ballots + [b])
  {
    forall j | 0 <= j < |s.decisions|
      ensures b.key != Key(s.starts[s.decisions[j].start].instance)
    {
      DecidedNotActive(s, j);
    }
    AllJustifiedStay(s.starts, s.decisions, s.ballots, b);
  }

  lemma CastDecisionJustified(s: Sys, idBytes: seq<Byte>, chain: ChainId, vote: bool, d: Decision)
    requires Linked(s) && Inv(s.st) && BallotsOk(s) && Counts(s.st, Hex(idBytes), chain)
    requires Outcome(s.st, Hex(idBytes), chain, vote) == Some(d.wire.commit) && !d.timedOut
    ensures Hex(idBytes) in s.live
    ensures Justified(s.starts[s.live[Hex(idBytes)]].instance, d, s.ballots + [Ballot(Hex(idBytes), chain, vote)])
  {
    assert Hex(idBytes) in s.live;
    NewDecisionJustified(s, s.starts[s.live[Hex(idBytes)]].instance, d, chain, vote);
  }

  lemma JustifiedAppend(starts: seq<Start>, decisions: seq<Decision>, ballots: seq<Ballot>, d: Decision)
    requires AllJustified(starts, decisions, ballots)
    requires d.start < |starts| && Justified(starts[d.start].instance, d, ballots)
    ensures AllJustified(starts, decisions + [d], ballots)
  {
  }

  lemma CastKeepsDecisions(sha: seq<Byte> -> InstanceId, s: Sys, idBytes: seq<Byte>, chain: ChainId, vote: bool)
    requires Core(sha, s) && Paired(s) && BallotsOk(s) && DecisionsOk(s)
    ensures DecisionsOk(Cast(s, idBytes, chain, vote))
  {
    var key, b := Hex(idBytes), Ballot(Hex(idBytes), chain, vote);
    if Counts(s.st, key, chain) {
      EarlierDecisionsAllStay(s, b);
      CastHistory(s, idBytes, chain, vote);
      var outcome := Outcome(s.st, key, chain, vote);
      if outcome.Some? {
        var d := Decision(s.live[key], Decided(idBytes, outcome.value), false);
        CastDecisionJustified(s, idBytes, chain, vote, d);
        JustifiedAppend(s.starts, s.decisions, s.ballots + [b], d);
      }
    }
  }

  /** An active instance always has a participant whose vote is missing. */
  lemma SomeVoteMissing(instance: Instance, xt: ActiveXt, ballots: seq<Ballot>)
    requires Undecided(xt) && LinkedTo(instance, Key(instance), xt) && VotesMatch(Key(instance), xt.votes, ballots)
    ensures exists c :: c in ChainsOf(instance.request) && Missing(instance, c, ballots)
  {
    FullVote(xt);
    var c :| c in xt.chains && c !in xt.votes;
    assert Missing(instance, c, ballots);
  }

  lemma TimeOutJustified(s: Sys, key: string, d: Decision)
    requires Linked(s) && key in s.st.active && Undecided(s.st.active[key])
    requires VotesMatch(key, s.st.active[key].votes, s.ballots) && d.timedOut && !d.wire.commit
    ensures key in s.live && Justified(s.starts[s.live[key]].instance, d, s.ballots)
  {
    assert key in s.live;
    SomeVoteMissing(s.starts[s.live[key]].instance, s.st.active[key], s.ballots);
  }

  lemma TimeOutKeepsBallots(s: Sys, key: string)
    requires Linked(s) && BallotsOk(s) && DecisionsOk(s) && key in s.st.active && Undecided(s.st.active[key])
    ensures BallotsOk(TimeOut(s, key)) && DecisionsOk(TimeOut(s, key))
  {
    var d := Decision(LiveStart(s, key), Decided(s.st.active[key].idBytes, false), true);
    TimeOutJustified(s, key, d);
    JustifiedAppend(s.starts, s.decisions, s.ballots, d);
    assert TimeOut(s, key).decisions == s.decisions + [d];
  }

  lemma {:induction false} TimeOutEachKeepsBallots(sha: seq<Byte> -> InstanceId, s: Sys, keys: seq<string>)
    requires Core(sha, s) && BallotsOk(s) && DecisionsOk(s) && NoDup(keys) && Elems(keys) <= s.st.active.Keys
    ensures BallotsOk(TimeOutEach(s, keys)) && DecisionsOk(TimeOutEach(s, keys))
  {
    if keys != [] {
      NextToExpire(s.st, keys);
      var init := keys[..|keys| - 1];
      TimeOutEachKeepsBallots(sha, s, init);
      TimeOutEachKeepsCore(sha, s, init);
      TimeOutKeepsBallots(TimeOutEach(s, init), keys[|keys| - 1]);
    }
  }

  lemma BallotsIgnoreQueue(s: Sys, s': Sys)
    requires BallotsOk(s) && DecisionsOk(s)
    requires s'.st.active == s.st.active && s'.starts == s.starts
    requires s'.ballots == s.ballots && s'.decisions == s.decisions
    ensures BallotsOk(s') && DecisionsOk(s')
  {
  }

  lemma SubmitKeepsBallots(sha: seq<Byte> -> InstanceId, s: Sys, request: XtRequest, now: nat)
    requires Paired(s) && BallotsOk(s) && DecisionsOk(s) && KeysDistinct(Submit(sha, s, request, now).starts)
    ensures BallotsOk(Submit(sha, s, request, now)) && DecisionsOk(Submit(sha, s, request, now))
  {
    if |ChainsOf(request)| >= 2 && !Overlaps(s.st.index, ChainsOf(request)) {
      var s1 := s.(submitted := s.submitted + [request]);
      BallotsIgnoreQueue(s, s1);
      LaunchKeepsBallots(sha, s1, |s.submitted|, false, request, ChainsOf(request), now);
    } else {
      BallotsIgnoreQueue(s, Submit(sha, s, request, now));
    }
  }

  lemma DrainKeepsBallots(sha: seq<Byte> -> InstanceId, s: Sys, now: nat)
    requires Paired(s) && BallotsOk(s) && DecisionsOk(s) && KeysDistinct(DrainStep(sha, s, now).starts)
    ensures BallotsOk(DrainStep(sha, s, now)) && DecisionsOk(DrainStep(sha, s, now))
  {
    var k := FirstReady(s.st.index, s.st.queue);
    if s.drainers > 0 && k < |s.st.queue| {
      var e := s.st.queue[k];
      BallotsIgnoreQueue(s, Dequeue(s, k));
      LaunchKeepsBallots(sha, Dequeue(s, k), s.tickets[k], true, e.request, e.chains, now);
    } else {
      BallotsIgnoreQueue(s, DrainStep(sha, s, now));
    }
  }

  lemma ReapKeepsBallots(sha: seq<Byte> -> InstanceId, s: Sys, now: nat, timeout: nat, order: seq<string>)
    requires Core(sha, s) && Paired(s) && BallotsOk(s) && DecisionsOk(s)
    ensures BallotsOk(ReapStep(s, now, timeout, order)) && DecisionsOk(ReapStep(s, now, timeout, order))
  {
    if IterationOrder(s.st, now, timeout, order) && order != [] {
      assert Expired(s.st, now, timeout) <= s.st.active.Keys;
      TimeOutEachKeepsBallots(sha, s, order);
      BallotsIgnoreQueue(TimeOutEach(s, order), ReapStep(s, now, timeout, order));
    }
  }

  lemma StepKeepsBallots(sha: seq<Byte> -> InstanceId, s: Sys, l: Label)
    requires Core(sha, s) && Paired(s) && BallotsOk(s) && DecisionsOk(s)
    requires KeysDistinct(Step(sha, s, l).starts)
    ensures BallotsOk(Step(sha, s, l)) && DecisionsOk(Step(sha, s, l))
  {
    match l
    case Request(request, now) => SubmitKeepsBallots(sha, s, request, now);
    case Vote(idBytes, chain, vote) =>
      CastKeepsBallots(s, idBytes, chain, vote);
      CastKeepsDecisions(sha, s, idBytes, chain, vote);
    case Reap(now, timeout, order) => ReapKeepsBallots(sha, s, now, timeout, order);
    case Drain(now) => DrainKeepsBallots(sha, s, now);
    case AdvancePeriod => BallotsIgnoreQueue(s, Step(sha, s, l));
  }
}
