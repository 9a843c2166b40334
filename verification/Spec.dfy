/** Domain types shared by the coordinator and the SBCP state machines
    (crates/spec), and the order-preserving deduplication of participants. */
module Spec {

  const U64_BOUND: nat := 0x1_0000_0000_0000_0000

  type Byte = b: nat | b < 256

  type U64 = n: nat | n < U64_BOUND

  type ChainId = U64

  /** Byte strings and lists whose length fits in a `u64`, as every Rust `Vec` does. */
  type Payload = s: seq<Byte> | |s| < U64_BOUND
  type PayloadList = s: seq<Payload> | |s| < U64_BOUND

  /** A SHA-256 digest. */
  type InstanceId = s: seq<Byte> | |s| == 32 witness seq(32, i => 0)

  datatype Option<+T> = None | Some(value: T)

  datatype TransactionRequest = TransactionRequest(chainId: ChainId, transactions: PayloadList)

  datatype XtRequest = XtRequest(transactions: seq<TransactionRequest>)

  datatype Instance = Instance(id: InstanceId, period: nat, seqNum: nat, request: XtRequest)

  /** Periods first, then sequence numbers. */
  predicate LexBelow(a: Instance, b: Instance) {
    a.period < b.period || (a.period == b.period && a.seqNum < b.seqNum)
  }

  /** Time since `start`, saturating as `Instant::elapsed` does. */
  function Elapsed(now: nat, start: nat): nat {
    if now >= start then now - start else 0
  }

  /** `u64` subtraction as compiled without overflow checks. */
  function WrapSub(a: nat, b: nat): nat {
    if a >= b then a - b else (a - b) % U64_BOUND
  }

  ghost predicate NoDup<T>(s: seq<T>) {
    forall i, j :: 0 <= i < j < |s| ==> s[i] != s[j]
  }

  ghost function Elems<T>(s: seq<T>): set<T> {
    set x | x in s
  }

  /** `s` with the element at `k` taken out. */
  function Without<T>(s: seq<T>, k: nat): (r: seq<T>)
    requires k < |s|
    ensures |r| == |s| - 1
    ensures forall i :: 0 <= i < |r| ==> r[i] == if i < k then s[i] else s[i + 1]
  {
    s[..k] + s[k + 1..]
  }

  lemma ConcatAssociative<T>(a: seq<T>, b: seq<T>, c: seq<T>)
    ensures (a + b) + c == a + (b + c)
  {
  }

  /** The chain named by each per-chain entry of the request, in order, with repetitions. */
  function NamedChains(request: XtRequest): (ids: seq<ChainId>)
    ensures |ids| == |request.transactions|
  {
    seq(|request.transactions|, i requires 0 <= i < |request.transactions| => request.transactions[i].chainId)
  }

  function Dedup(ids: seq<ChainId>): (r: seq<ChainId>)
    ensures NoDup(r)
    ensures forall c :: c in r <==> c in ids
    ensures |r| <= |ids|
  {
    if ids == [] then []
    else
      var last := |ids| - 1;
      var d := Dedup(ids[..last]);
      assert ids == ids[..last] + [ids[last]];
      if ids[last] in d then d else d + [ids[last]]
  }

  /** The participants of a request: its distinct chains. */
  function ChainsOf(request: XtRequest): (r: seq<ChainId>)
    ensures NoDup(r)
    ensures |r| <= |request.transactions|
  {
    Dedup(NamedChains(request))
  }

  /** Position of the first occurrence of `c`. */
  function FirstIndex(ids: seq<ChainId>, c: ChainId): (k: nat)
    requires c in ids
    ensures k < |ids| && ids[k] == c
    ensures forall j :: 0 <= j < k ==> ids[j] != c
  {
    if ids[0] == c then 0 else 1 + FirstIndex(ids[1..], c)
  }

  lemma FirstIndexOfPrefix(ids: seq<ChainId>, n: nat, c: ChainId)
    requires n <= |ids| && c in ids[..n]
    ensures c in ids && FirstIndex(ids, c) == FirstIndex(ids[..n], c)
  {
  }

  lemma FirstIndexOfNew(ids: seq<ChainId>)
    requires ids != [] && ids[|ids| - 1] !in ids[..|ids| - 1]
    ensures FirstIndex(ids, ids[|ids| - 1]) == |ids| - 1
  {
  }

  /** Deduplication lists each chain at the place where it first occurred. */
  lemma {:induction false} DedupKeepsFirstOccurrences(ids: seq<ChainId>, i: nat, j: nat)
    requires i < j < |Dedup(ids)|
    ensures FirstIndex(ids, Dedup(ids)[i]) < FirstIndex(ids, Dedup(ids)[j])
  {
    var last := |ids| - 1;
    var d := Dedup(ids[..last]);
    var r := Dedup(ids);
    assert r[i] in d;
    FirstIndexOfPrefix(ids, last, r[i]);
    if j < |d| {
      assert r[j] in d;
      DedupKeepsFirstOccurrences(ids[..last], i, j);
      FirstIndexOfPrefix(ids, last, r[j]);
    } else {
      FirstIndexOfNew(ids);
    }
  }

  /** Entry `a` is the first one for chain `c`. */
  ghost predicate FirstEntry(request: XtRequest, c: ChainId, a: nat) {
    && a < |request.transactions| && request.transactions[a].chainId == c
    && forall b :: 0 <= b < a ==> request.transactions[b].chainId != c
  }

  lemma FirstEntryOf(request: XtRequest, c: ChainId)
    requires c in ChainsOf(request)
    ensures c in NamedChains(request) && FirstEntry(request, c, FirstIndex(NamedChains(request), c))
  {
    var ids := NamedChains(request);
    var a := FirstIndex(ids, c);
    assert ids[a] == request.transactions[a].chainId;
    forall b | 0 <= b < a
      ensures request.transactions[b].chainId != c
    {
      assert ids[b] == request.transactions[b].chainId;
    }
  }

  /** Participants come in the order of their first entries. */
  lemma ParticipantsInOrder(request: XtRequest, i: nat, j: nat, a: nat, b: nat)
    requires i < j < |ChainsOf(request)|
    requires FirstEntry(request, ChainsOf(request)[i], a) && FirstEntry(request, ChainsOf(request)[j], b)
    ensures a < b
  {
    var ids, chains := NamedChains(request), ChainsOf(request);
    FirstEntryOf(request, chains[i]);
    FirstEntryOf(request, chains[j]);
    DedupKeepsFirstOccurrences(ids, i, j);
    FirstEntryUnique(request, chains[i], a, FirstIndex(ids, chains[i]));
    FirstEntryUnique(request, chains[j], b, FirstIndex(ids, chains[j]));
  }

  /** The participants are the chains that some entry names. */
  lemma ParticipantsAreNamed(request: XtRequest, c: ChainId)
    ensures c in ChainsOf(request) <==> exists a: nat :: FirstEntry(request, c, a)
  {
    if c in ChainsOf(request) {
      FirstEntryOf(request, c);
    }
    if a: nat :| FirstEntry(request, c, a) {
      assert NamedChains(request)[a] == c;
    }
  }

  lemma FirstEntryUnique(request: XtRequest, c: ChainId, a: nat, b: nat)
    requires FirstEntry(request, c, a) && FirstEntry(request, c, b)
    ensures a == b
  {
  }

  /** `chains_from_request` and `extract_chains`: one loop growing a `seen` set and a vector. */
  method ChainsFromRequest(request: XtRequest) returns (chains: seq<ChainId>)
    ensures chains == ChainsOf(request)
  {
    var seen: set<ChainId> := {};
    chains := [];
    var ids := NamedChains(request);
    for i := 0 to |ids|
      invariant chains == Dedup(ids[..i])
      invariant seen == Elems(ids[..i])
    {
      assert ids[..i + 1][..i] == ids[..i];
      if ids[i] !in seen {
        seen := seen + {ids[i]};
        chains := chains + [ids[i]];
      }
    }
    assert ids[..|ids|] == ids;
  }

  lemma {:induction false} NoDupCardinality<T>(s: seq<T>)
    requires NoDup(s)
    ensures |Elems(s)| == |s|
  {
    if s != [] {
      var last := |s| - 1;
      NoDupCardinality(s[..last]);
      assert Elems(s) == Elems(s[..last]) + {s[last]};
    }
  }

  lemma SubsetOfSameSize<T>(a: set<T>, b: set<T>)
    requires a <= b && |b| <= |a|
    ensures a == b
  {
    forall x | x in b
      ensures x in a
    {
      if x !in a { SubsetSize(a, b - {x}); }
    }
  }

  lemma {:induction false} SubsetSize<T>(a: set<T>, b: set<T>)
    requires a <= b
    ensures |a| <= |b|
    decreases a
  {
    if a != {} {
      var x :| x in a;
      SubsetSize(a - {x}, b - {x});
    }
  }

  lemma RemoveAllSize<K, V>(m: map<K, V>, keys: set<K>)
    requires keys <= m.Keys
    ensures |m - keys| == |m| - |keys|
  {
  }
}
