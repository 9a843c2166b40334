/** The byte string hashed into an instance identifier (crates/spec-sbcp/src/id.rs), a decoder
    for it, and exactly what the bytes leave out.  SHA-256 itself is a parameter. */
module InstanceIds {
  import opened Spec
  import opened Encoding

  /** An empty payload is counted by its entry but writes neither a length nor data. */
  function EncodePayload(data: Payload): seq<Byte> {
    if |data| == 0 then [] else Be64(|data|) + data
  }

  function EncodePayloads(txs: seq<Payload>): seq<Byte> {
    if txs == [] then [] else EncodePayload(txs[0]) + EncodePayloads(txs[1..])
  }

  function EncodeEntry(entry: TransactionRequest): seq<Byte> {
    Be64(entry.chainId) + Be64(|entry.transactions|) + EncodePayloads(entry.transactions)
  }

  function EncodeEntries(entries: seq<TransactionRequest>): seq<Byte> {
    if entries == [] then [] else EncodeEntry(entries[0]) + EncodeEntries(entries[1..])
  }

  function Preimage(period: nat, seqNum: nat, request: XtRequest): seq<Byte> {
    Be64(period) + Be64(seqNum) + EncodeEntries(request.transactions)
  }

  /** The bytes hashed for an instance. */
  function Hashed(instance: Instance): seq<Byte> {
    Preimage(instance.period, instance.seqNum, instance.request)
  }

  lemma {:induction false} EncodePayloadsSnoc(txs: seq<Payload>, data: Payload)
    ensures EncodePayloads(txs + [data]) == EncodePayloads(txs) + EncodePayload(data)
  {
    var all := txs + [data];
    if txs == [] {
      assert all[1..] == [];
    } else {
      assert all[1..] == txs[1..] + [data];
      EncodePayloadsSnoc(txs[1..], data);
    }
  }

  lemma {:induction false} EncodeEntriesSnoc(entries: seq<TransactionRequest>, entry: TransactionRequest)
    ensures EncodeEntries(entries + [entry]) == EncodeEntries(entries) + EncodeEntry(entry)
  {
    var all := entries + [entry];
    if entries == [] {
      assert all[1..] == [];
    } else {
      assert all[1..] == entries[1..] + [entry];
      EncodeEntriesSnoc(entries[1..], entry);
    }
  }

  /** The body of the outer loop: one entry's chain, count and non-empty payloads. */
  method FeedEntry(fed: seq<Byte>, entry: TransactionRequest) returns (fed': seq<Byte>)
    ensures fed' == fed + EncodeEntry(entry)
  {
    var txs := entry.transactions;
    fed' := fed + Be64(entry.chainId);
    fed' := fed' + Be64(|txs|);
    ghost var header := fed';
    for j := 0 to |txs|
      invariant fed' == header + EncodePayloads(txs[..j])
    {
      EncodePayloadsSnoc(txs[..j], txs[j]);
      assert txs[..j] + [txs[j]] == txs[..j + 1];
      ConcatAssociative(header, EncodePayloads(txs[..j]), EncodePayload(txs[j]));
      if |txs[j]| != 0 {
        ConcatAssociative(fed', Be64(|txs[j]|), txs[j]);
        fed' := fed' + Be64(|txs[j]|);
        fed' := fed' + txs[j];
      }
    }
    assert txs[..|txs|] == txs;
    ConcatAssociative(fed, Be64(entry.chainId), Be64(|txs|));
    ConcatAssociative(fed, Be64(entry.chainId) + Be64(|txs|), EncodePayloads(txs));
  }

  /** `generate_instance_id`: nested loops feed a hasher, whose digest depends on the fed bytes only. */
  method GenerateInstanceId(sha: seq<Byte> -> InstanceId, period: nat, seqNum: nat, request: XtRequest)
    returns (id: InstanceId)
    ensures id == sha(Preimage(period, seqNum, request))
  {
    var fed := Be64(period);
    fed := fed + Be64(seqNum);
    ghost var header := fed;
    var entries := request.transactions;
    for i := 0 to |entries|
      invariant fed == header + EncodeEntries(entries[..i])
    {
      EncodeEntriesSnoc(entries[..i], entries[i]);
      assert entries[..i] + [entries[i]] == entries[..i + 1];
      ConcatAssociative(header, EncodeEntries(entries[..i]), EncodeEntry(entries[i]));
      fed := FeedEntry(fed, entries[i]);
    }
    assert entries[..|entries|] == entries;
    id := sha(fed);
  }

  ghost predicate AllNonEmpty(request: XtRequest) {
    forall e :: e in request.transactions ==> PayloadsNonEmpty(e.transactions)
  }

  ghost predicate PayloadsNonEmpty(txs: seq<Payload>) {
    forall d :: d in txs ==> |d| > 0
  }

  // ---- Decoder ----

  datatype Decoded<+T> = Decoded(value: T, rest: seq<Byte>)

  /** Reads `count` length-prefixed payloads; a zero length is never written, so it is refused. */
  function DecodePayloads(s: seq<Byte>, count: nat): (r: Option<Decoded<seq<Payload>>>)
    ensures r.Some? ==> |r.value.value| == count && |r.value.rest| <= |s|
    decreases count
  {
    if count == 0 then Some(Decoded([], s))
    else if |s| < 8 then None
    else
      var n := BeValue(s[..8]);
      if n == 0 || |s| - 8 < n || n >= U64_BOUND then None
      else
        match DecodePayloads(s[8 + n..], count - 1)
        case None => None
        case Some(d) =>
          var data: Payload := s[8..8 + n];
          Some(Decoded([data] + d.value, d.rest))
  }

  function DecodeEntries(s: seq<Byte>): Option<seq<TransactionRequest>>
    decreases |s|
  {
    if s == [] then Some([])
    else if |s| < 16 then None
    else
      var chain, count := BeValue(s[..8]), BeValue(s[8..16]);
      if chain >= U64_BOUND || count >= U64_BOUND then None
      else
        match DecodePayloads(s[16..], count)
        case None => None
        case Some(d) =>
          match DecodeEntries(d.rest)
          case None => None
          case Some(entries) => Some([TransactionRequest(chain, d.value)] + entries)
  }

  datatype Source = Source(period: nat, seqNum: nat, request: XtRequest)

  function DecodePreimage(s: seq<Byte>): Option<Source> {
    if |s| < 16 then None
    else
      match DecodeEntries(s[16..])
      case None => None
      case Some(entries) => Some(Source(BeValue(s[..8]), BeValue(s[8..16]), XtRequest(entries)))
  }

  // ---- Decoding inverts encoding ----

  lemma SliceConcat<T>(a: seq<T>, b: seq<T>, c: seq<T>)
    ensures var s := a + b + c;
            s[..|a|] == a && s[|a|..|a| + |b|] == b && s[|a| + |b|..] == c
  {
  }

  lemma ConcatSlices<T>(s: seq<T>, i: nat, j: nat)
    requires i <= j <= |s|
    ensures s == s[..i] + s[i..j] + s[j..]
  {
  }

  lemma {:induction false} DecodeEncodedPayloads(txs: seq<Payload>, rest: seq<Byte>)
    requires PayloadsNonEmpty(txs)
    ensures DecodePayloads(EncodePayloads(txs) + rest, |txs|) == Some(Decoded(txs, rest))
  {
    var s := EncodePayloads(txs) + rest;
    if txs == [] {
      assert s == rest;
    } else {
      var data := txs[0];
      var tail := EncodePayloads(txs[1..]) + rest;
      ConcatAssociative(EncodePayload(data), EncodePayloads(txs[1..]), rest);
      SliceConcat(Be64(|data|), data, tail);
      Be64RoundTrip(|data|);
      DecodeEncodedPayloads(txs[1..], rest);
      assert txs == [data] + txs[1..];
    }
  }

  /** Encoding an entry in front of `tail` leaves the header, then the payloads followed by `tail`. */
  lemma EntryLayout(e: TransactionRequest, tail: seq<Byte>)
    ensures var s := EncodeEntry(e) + tail;
            |s| >= 16 && s[..8] == Be64(e.chainId) && s[8..16] == Be64(|e.transactions|)
            && s[16..] == EncodePayloads(e.transactions) + tail
  {
    ConcatAssociative(Be64(e.chainId) + Be64(|e.transactions|), EncodePayloads(e.transactions), tail);
    SliceConcat(Be64(e.chainId), Be64(|e.transactions|), EncodePayloads(e.transactions) + tail);
  }

  lemma {:induction false} DecodeEncodedEntries(entries: seq<TransactionRequest>)
    requires AllNonEmpty(XtRequest(entries))
    ensures DecodeEntries(EncodeEntries(entries)) == Some(entries)
  {
    if entries != [] {
      var e, rest := entries[0], entries[1..];
      var tail := EncodeEntries(rest);
      EntryLayout(e, tail);
      Be64RoundTrip(e.chainId);
      Be64RoundTrip(|e.transactions|);
      DecodeEncodedPayloads(e.transactions, tail);
      DecodeEncodedEntries(rest);
      assert entries == [e] + rest;
    }
  }

  // ---- Encoding inverts decoding ----

  lemma EncodePayloadsCons(data: Payload, txs: seq<Payload>)
    ensures EncodePayloads([data] + txs) == EncodePayload(data) + EncodePayloads(txs)
  {
  }

  lemma EncodeInFront(s: seq<Byte>, n: U64, txs: seq<Payload>, rest: seq<Byte>)
    requires 0 < n && 8 + n <= |s| && n == BeValue(s[..8]) && EncodePayloads(txs) + rest == s[8 + n..]
    ensures EncodePayloads([s[8..8 + n]] + txs) + rest == s
  {
    var data: Payload := s[8..8 + n];
    Be64OfValue(s[..8]);
    EncodePayloadsCons(data, txs);
    ConcatAssociative(EncodePayload(data), EncodePayloads(txs), rest);
    assert EncodePayload(data) == s[..8] + s[8..8 + n];
    ConcatSlices(s, 8, 8 + n);
  }

  lemma {:induction false} EncodeDecodedPayloads(s: seq<Byte>, count: nat)
    requires DecodePayloads(s, count).Some?
    ensures var d := DecodePayloads(s, count).value;
            PayloadsNonEmpty(d.value) && EncodePayloads(d.value) + d.rest == s
    decreases count
  {
    if count > 0 {
      var n := BeValue(s[..8]);
      var data: Payload := s[8..8 + n];
      EncodeDecodedPayloads(s[8 + n..], count - 1);
      var d := DecodePayloads(s[8 + n..], count - 1).value;
      EncodeInFront(s, n, d.value, d.rest);
    } else {
      assert EncodePayloads([]) + s == s;
    }
  }

  lemma EncodeEntriesCons(e: TransactionRequest, entries: seq<TransactionRequest>)
    ensures EncodeEntries([e] + entries) == EncodeEntry(e) + EncodeEntries(entries)
  {
  }

  lemma {:induction false} EncodeDecodedEntries(s: seq<Byte>)
    requires DecodeEntries(s).Some?
    ensures var entries := DecodeEntries(s).value;
            AllNonEmpty(XtRequest(entries)) && EncodeEntries(entries) == s
    decreases |s|
  {
    if s != [] {
      Be64OfValue(s[..8]);
      Be64OfValue(s[8..16]);
      var count := BeValue(s[8..16]);
      EncodeDecodedPayloads(s[16..], count);
      var d := DecodePayloads(s[16..], count).value;
      EncodeDecodedEntries(d.rest);
      var e := TransactionRequest(BeValue(s[..8]), d.value);
      EncodeEntriesCons(e, DecodeEntries(d.rest).value);
      ConcatAssociative(s[..8] + s[8..16], EncodePayloads(d.value), d.rest);
      ConcatSlices(s, 8, 16);
    }
  }

  // ---- Main results ----

  lemma PreimageParts(period: nat, seqNum: nat, request: XtRequest)
    ensures var s := Preimage(period, seqNum, request);
            && |s| >= 16 && s[..8] == Be64(period) && s[8..16] == Be64(seqNum)
            && s[16..] == EncodeEntries(request.transactions)
  {
  }

  /** Reading the bytes by the stated format, in which every payload has a length, gives back period, sequence
      number and request exactly when no payload is empty. */
  lemma PreimageRoundTrip(period: U64, seqNum: U64, request: XtRequest)
    ensures DecodePreimage(Preimage(period, seqNum, request)) == Some(Source(period, seqNum, request))
       <==> AllNonEmpty(request)
  {
    var s := Preimage(period, seqNum, request);
    PreimageParts(period, seqNum, request);
    Be64RoundTrip(period);
    Be64RoundTrip(seqNum);
    if AllNonEmpty(request) {
      DecodeEncodedEntries(request.transactions);
    }
    if DecodeEntries(s[16..]).Some? {
      EncodeDecodedEntries(s[16..]);
    }
  }

  /** Whatever the decoder accepts is the preimage of what it returns: no two byte strings share a source. */
  lemma DecodedIsPreimage(s: seq<Byte>)
    requires DecodePreimage(s).Some?
    ensures var d := DecodePreimage(s).value;
            Preimage(d.period, d.seqNum, d.request) == s && AllNonEmpty(d.request)
  {
    Be64OfValue(s[..8]);
    Be64OfValue(s[8..16]);
    EncodeDecodedEntries(s[16..]);
    ConcatSlices(s, 8, 16);
  }

  /** Among requests without empty payloads the hashed bytes determine everything. */
  lemma PreimageInjective(p: U64, n: U64, r: XtRequest, p': U64, n': U64, r': XtRequest)
    requires AllNonEmpty(r) && AllNonEmpty(r')
    requires Preimage(p, n, r) == Preimage(p', n', r')
    ensures p == p' && n == n' && r == r'
  {
    PreimageRoundTrip(p, n, r);
    PreimageRoundTrip(p', n', r');
  }

  /** Period and sequence number are determined by the bytes for every request, even identical ones. */
  lemma PreimageFixesPosition(p: U64, n: U64, r: XtRequest, p': U64, n': U64, r': XtRequest)
    requires Preimage(p, n, r) == Preimage(p', n', r')
    ensures p == p' && n == n'
  {
    PreimageParts(p, n, r);
    PreimageParts(p', n', r');
    Be64RoundTrip(p);
    Be64RoundTrip(p');
    Be64RoundTrip(n);
    Be64RoundTrip(n');
  }

  // ---- Empty payloads ----

  /** For each payload of an entry whether it is empty. */
  function EmptySlots(txs: seq<Payload>): (r: seq<bool>)
    ensures |r| == |txs|
  {
    seq(|txs|, i requires 0 <= i < |txs| => |txs[i]| == 0)
  }

  /** The empty payloads of a request, by entry and position. */
  function EmptyPattern(entries: seq<TransactionRequest>): (r: seq<seq<bool>>)
    ensures |r| == |entries|
  {
    seq(|entries|, i requires 0 <= i < |entries| => EmptySlots(entries[i].transactions))
  }

  lemma SlotsTail(txs: seq<Payload>)
    requires txs != []
    ensures EmptySlots(txs)[0] == (|txs[0]| == 0) && EmptySlots(txs)[1..] == EmptySlots(txs[1..])
  {
  }

  lemma PatternTail(entries: seq<TransactionRequest>)
    requires entries != []
    ensures EmptyPattern(entries)[0] == EmptySlots(entries[0].transactions)
    ensures EmptyPattern(entries)[1..] == EmptyPattern(entries[1..])
  {
  }

  /** A payload that is known to be empty or not is read off the front. */
  lemma FirstPayload(d: Payload, rest: seq<Byte>, d': Payload, rest': seq<Byte>)
    requires EncodePayload(d) + rest == EncodePayload(d') + rest' && (|d| == 0 <==> |d'| == 0)
    ensures d == d' && rest == rest'
  {
    if |d| > 0 {
      SliceConcat(Be64(|d|), d, rest);
      SliceConcat(Be64(|d'|), d', rest');
      Be64RoundTrip(|d|);
      Be64RoundTrip(|d'|);
    } else {
      assert [] + rest == rest && [] + rest' == rest';
    }
  }

  lemma {:induction false} PayloadsFromSlots(txs: seq<Payload>, rest: seq<Byte>, txs': seq<Payload>, rest': seq<Byte>)
    requires EmptySlots(txs) == EmptySlots(txs') && EncodePayloads(txs) + rest == EncodePayloads(txs') + rest'
    ensures txs == txs' && rest == rest'
  {
    assert |txs| == |EmptySlots(txs)| == |txs'|;
    if txs == [] {
      assert [] + rest == rest && [] + rest' == rest';
    } else {
      SlotsTail(txs);
      SlotsTail(txs');
      ConcatAssociative(EncodePayload(txs[0]), EncodePayloads(txs[1..]), rest);
      ConcatAssociative(EncodePayload(txs'[0]), EncodePayloads(txs'[1..]), rest');
      FirstPayload(txs[0], EncodePayloads(txs[1..]) + rest, txs'[0], EncodePayloads(txs'[1..]) + rest');
      PayloadsFromSlots(txs[1..], rest, txs'[1..], rest');
      assert txs == [txs[0]] + txs[1..] && txs' == [txs'[0]] + txs'[1..];
    }
  }

  lemma {:induction false} EntriesFromPattern(entries: seq<TransactionRequest>, entries': seq<TransactionRequest>)
    requires EmptyPattern(entries) == EmptyPattern(entries') && EncodeEntries(entries) == EncodeEntries(entries')
    ensures entries == entries'
  {
    assert |entries| == |EmptyPattern(entries)| == |entries'|;
    if entries != [] {
      var e, e' := entries[0], entries'[0];
      PatternTail(entries);
      PatternTail(entries');
      EntryLayout(e, EncodeEntries(entries[1..]));
      EntryLayout(e', EncodeEntries(entries'[1..]));
      Be64RoundTrip(e.chainId);
      Be64RoundTrip(e'.chainId);
      PayloadsFromSlots(e.transactions, EncodeEntries(entries[1..]), e'.transactions, EncodeEntries(entries'[1..]));
      EntriesFromPattern(entries[1..], entries'[1..]);
      assert entries == [e] + entries[1..] && entries' == [e'] + entries'[1..];
    }
  }

  /** Requests that share their bytes are equal exactly when their empty payloads sit in the same places: what
      the bytes leave out is the position of the empty payloads and nothing else. */
  lemma SharedBytesExactly(p: U64, n: U64, r: XtRequest, p': U64, n': U64, r': XtRequest)
    requires Preimage(p, n, r) == Preimage(p', n', r')
    ensures p == p' && n == n'
    ensures r == r' <==> EmptyPattern(r.transactions) == EmptyPattern(r'.transactions)
  {
    PreimageFixesPosition(p, n, r, p', n', r');
    PreimageParts(p, n, r);
    PreimageParts(p', n', r');
    if EmptyPattern(r.transactions) == EmptyPattern(r'.transactions) {
      EntriesFromPattern(r.transactions, r'.transactions);
    }
  }

  // ---- Requests that share their bytes ----

  lemma EmptyMoves(c: ChainId, x: Payload)
    ensures EncodeEntry(TransactionRequest(c, [[], x])) == EncodeEntry(TransactionRequest(c, [x, []]))
  {
    var none: seq<Payload>, e: Payload := [], [];
    assert [e, x] == [e] + ([x] + none) && [x, e] == [x] + ([e] + none);
    EncodePayloadsCons(e, [x] + none);
    EncodePayloadsCons(x, [e] + none);
    EncodePayloadsCons(x, none);
    EncodePayloadsCons(e, none);
    assert EncodePayloads([e, x]) == EncodePayload(x) == EncodePayloads([x, e]);
  }

  lemma HeaderReadsAsPayload(c: ChainId)
    ensures EncodeEntry(TransactionRequest(c, [[]])) + EncodeEntry(TransactionRequest(8, [])) ==
            EncodeEntry(TransactionRequest(c, [Be64(0)]))
  {
    var none: seq<Payload>, e: Payload, z: Payload := [], [], Be64(0);
    assert [z] == [z] + none && [e] == [e] + none;
    EncodePayloadsCons(e, none);
    EncodePayloadsCons(z, none);
    assert EncodePayloads([e]) == [] && EncodePayloads([z]) == Be64(8) + Be64(0);
    ConcatAssociative(Be64(c) + Be64(1), Be64(8), Be64(0));
  }

  /** Moving an empty payload inside an entry does not change the bytes, whatever else the request contains. */
  lemma EmptyPayloadMoves(p: nat, n: nat, c: ChainId, x: Payload, tail: seq<TransactionRequest>)
    requires |x| > 0
    ensures var a := XtRequest([TransactionRequest(c, [[], x])] + tail);
            var b := XtRequest([TransactionRequest(c, [x, []])] + tail);
            a != b && Preimage(p, n, a) == Preimage(p, n, b) && ChainsOf(a) == ChainsOf(b)
  {
    var e: Payload := [];
    var first, second := TransactionRequest(c, [e, x]), TransactionRequest(c, [x, e]);
    EmptyMoves(c, x);
    EncodeEntriesCons(first, tail);
    EncodeEntriesCons(second, tail);
    assert [e, x][0] != [x, e][0];
    assert ([first] + tail)[0] != ([second] + tail)[0];
    assert NamedChains(XtRequest([first] + tail)) == NamedChains(XtRequest([second] + tail));
  }

  /** An entry with an empty payload, followed by an entry for chain 8, shares its bytes with one entry that
      has no empty payload, since `chain || count` reads as `length || data`.  Further entries may follow, so
      both requests can span two chains; unless those entries name chain 8, it takes part in one of them only. */
  lemma EntriesMerge(p: nat, n: nat, c: ChainId, tail: seq<TransactionRequest>)
    ensures var a := XtRequest([TransactionRequest(c, [[]]), TransactionRequest(8, [])] + tail);
            var b := XtRequest([TransactionRequest(c, [Be64(0)])] + tail);
            && a != b && Preimage(p, n, a) == Preimage(p, n, b)
            && (AllNonEmpty(b) <==> AllNonEmpty(XtRequest(tail)))
            && (Elems(ChainsOf(a)) == Elems(ChainsOf(b)) + {8})
  {
    var e: Payload, z: Payload := [], Be64(0);
    var first, second, whole := TransactionRequest(c, [e]), TransactionRequest(8, []), TransactionRequest(c, [z]);
    HeaderReadsAsPayload(c);
    MergedBytes(first, second, whole, tail);
    assert |[first, second] + tail| == |[whole] + tail| + 1;
    MergedNonEmpty(whole, tail);
    MergedChains(first, second, whole, tail);
  }

  lemma MergedBytes(first: TransactionRequest, second: TransactionRequest, whole: TransactionRequest,
                    tail: seq<TransactionRequest>)
    requires EncodeEntry(first) + EncodeEntry(second) == EncodeEntry(whole)
    ensures EncodeEntries([first, second] + tail) == EncodeEntries([whole] + tail)
  {
    assert [first, second] + tail == [first] + ([second] + tail);
    EncodeEntriesCons(first, [second] + tail);
    EncodeEntriesCons(second, tail);
    EncodeEntriesCons(whole, tail);
    ConcatAssociative(EncodeEntry(first), EncodeEntry(second), EncodeEntries(tail));
  }

  lemma MergedNonEmpty(whole: TransactionRequest, tail: seq<TransactionRequest>)
    requires PayloadsNonEmpty(whole.transactions)
    ensures AllNonEmpty(XtRequest([whole] + tail)) <==> AllNonEmpty(XtRequest(tail))
  {
    if AllNonEmpty(XtRequest([whole] + tail)) {
      assert forall e :: e in tail ==> e in [whole] + tail;
    }
  }

  lemma MergedChains(first: TransactionRequest, second: TransactionRequest, whole: TransactionRequest,
                     tail: seq<TransactionRequest>)
    requires first.chainId == whole.chainId
    ensures Elems(ChainsOf(XtRequest([first, second] + tail))) ==
            Elems(ChainsOf(XtRequest([whole] + tail))) + {second.chainId}
  {
    var a, b, t := XtRequest([first, second] + tail), XtRequest([whole] + tail), NamedChains(XtRequest(tail));
    assert NamedChains(a) == [first.chainId, second.chainId] + t;
    assert NamedChains(b) == [first.chainId] + t;
    assert forall x :: x in NamedChains(a) <==> x in NamedChains(b) || x == second.chainId;
  }
}
