/** The payload `L1Submitter::submit` assembles from an unordered map of proofs
    (crates/coordinator/src/l1_submit.rs): when it is the same for every iteration order. */
module L1Payload {
  import opened Spec

  /** A 32-byte word; its byte-wise order is the order of the number it spells. */
  type Word = n: nat | n < 0x1_0000000000000000_0000000000000000_0000000000000000_0000000000000000

  datatype AggregationOutputs = AggregationOutputs(
    l1Head: Word, l2PreRoot: Word, l2PostRoot: Word, l2BlockNumber: U64, rollupConfigHash: Word)

  datatype ProofData = ProofData(outputs: AggregationOutputs, compressedProof: seq<Byte>)

  datatype BootInfo = BootInfo(
    l1Head: Word, l2PreRoot: Word, l2PostRoot: Word, l2BlockNumber: U64, rollupConfigHash: Word)

  function BootOf(p: ProofData): BootInfo {
    var o := p.outputs;
    BootInfo(o.l1Head, o.l2PreRoot, o.l2PostRoot, o.l2BlockNumber, o.rollupConfigHash)
  }

  function SortKey(p: ProofData): Word {
    p.outputs.rollupConfigHash
  }

  function Boots(s: seq<ProofData>): seq<BootInfo> {
    if s == [] then [] else [BootOf(s[0])] + Boots(s[1..])
  }

  function ProofBytes(s: seq<ProofData>): seq<Byte> {
    if s == [] then [] else s[0].compressedProof + ProofBytes(s[1..])
  }

  // ---- Stable sort by rollup config hash ----

  /** Puts `p` behind everything whose key is not larger. */
  function Insert(s: seq<ProofData>, p: ProofData): (r: seq<ProofData>)
    ensures |r| == |s| + 1
  {
    if s == [] || SortKey(s[|s| - 1]) <= SortKey(p) then s + [p]
    else Insert(s[..|s| - 1], p) + [s[|s| - 1]]
  }

  function Sorted(s: seq<ProofData>): (r: seq<ProofData>)
    ensures |r| == |s|
  {
    InsertAll([], s)
  }

  function InsertAll(done: seq<ProofData>, todo: seq<ProofData>): (r: seq<ProofData>)
    ensures |r| == |done| + |todo|
  {
    if todo == [] then done else Insert(InsertAll(done, todo[..|todo| - 1]), todo[|todo| - 1])
  }

  ghost predicate Ordered(s: seq<ProofData>) {
    forall i, j :: 0 <= i < j < |s| ==> SortKey(s[i]) <= SortKey(s[j])
  }

  lemma {:induction false} InsertPermutes(s: seq<ProofData>, p: ProofData)
    ensures multiset(Insert(s, p)) == multiset(s) + multiset{p}
  {
    if s != [] && SortKey(s[|s| - 1]) > SortKey(p) {
      var init, last := s[..|s| - 1], s[|s| - 1];
      InsertPermutes(init, p);
      assert s == init + [last];
    }
  }

  lemma {:induction false} InsertKeepsOrder(s: seq<ProofData>, p: ProofData)
    requires Ordered(s)
    ensures Ordered(Insert(s, p))
    ensures forall q :: q in Insert(s, p) ==> q in s || q == p
  {
    if s != [] && SortKey(s[|s| - 1]) > SortKey(p) {
      var init, last := s[..|s| - 1], s[|s| - 1];
      InsertKeepsOrder(init, p);
      assert forall q :: q in init ==> q in s && SortKey(q) <= SortKey(last);
    }
  }

  lemma {:induction false} InsertAllProperties(done: seq<ProofData>, todo: seq<ProofData>)
    requires Ordered(done)
    ensures Ordered(InsertAll(done, todo))
    ensures multiset(InsertAll(done, todo)) == multiset(done) + multiset(todo)
  {
    if todo != [] {
      var init, last := todo[..|todo| - 1], todo[|todo| - 1];
      assert todo == init + [last];
      InsertAllProperties(done, init);
      InsertKeepsOrder(InsertAll(done, init), last);
      InsertPermutes(InsertAll(done, init), last);
    }
  }

  /** Sorting permutes the proofs into key order. */
  lemma SortedProperties(s: seq<ProofData>)
    ensures Ordered(Sorted(s)) && multiset(Sorted(s)) == multiset(s)
  {
    InsertAllProperties([], s);
  }

  // ---- Stability ----

  /** The proofs with the given key, in order. */
  function WithKey(s: seq<ProofData>, key: Word): seq<ProofData> {
    if s == [] then []
    else WithKey(s[..|s| - 1], key) + if SortKey(s[|s| - 1]) == key then [s[|s| - 1]] else []
  }

  /** Proofs with equal keys keep their order. */
  ghost predicate SameTies(s: seq<ProofData>, t: seq<ProofData>) {
    forall key :: WithKey(s, key) == WithKey(t, key)
  }

  lemma WithKeySnoc(s: seq<ProofData>, p: ProofData, key: Word)
    ensures WithKey(s + [p], key) == WithKey(s, key) + if SortKey(p) == key then [p] else []
  {
    assert (s + [p])[..|s|] == s;
  }

  lemma {:induction false} InsertStable(s: seq<ProofData>, p: ProofData, key: Word)
    ensures WithKey(Insert(s, p), key) == WithKey(s + [p], key)
  {
    if s != [] && SortKey(s[|s| - 1]) > SortKey(p) {
      var init, last := s[..|s| - 1], s[|s| - 1];
      InsertStable(init, p, key);
      WithKeySnoc(Insert(init, p), last, key);
      WithKeySnoc(init, p, key);
      WithKeySnoc(s, p, key);
    }
  }

  lemma {:induction false} SortedStable(s: seq<ProofData>, key: Word)
    ensures WithKey(Sorted(s), key) == WithKey(s, key)
  {
    if s != [] {
      var init, last := s[..|s| - 1], s[|s| - 1];
      SortedStable(init, key);
      InsertStable(Sorted(init), last, key);
      WithKeySnoc(Sorted(init), last, key);
    }
  }

  lemma {:induction false} WithKeyMembers(s: seq<ProofData>, key: Word)
    ensures forall q :: q in WithKey(s, key) <==> q in s && SortKey(q) == key
  {
    if s != [] {
      WithKeyMembers(s[..|s| - 1], key);
      assert s == s[..|s| - 1] + [s[|s| - 1]];
    }
  }

  /** The last elements of ordered lists with the same ties are the same. */
  lemma LastAgrees(s: seq<ProofData>, t: seq<ProofData>)
    requires Ordered(s) && Ordered(t) && SameTies(s, t) && s != []
    ensures t != [] && s[|s| - 1] == t[|t| - 1]
  {
    var p := s[|s| - 1];
    var key := SortKey(p);
    WithKeyMembers(s, key);
    WithKeyMembers(t, key);
    assert p in t;
    var q := t[|t| - 1];
    WithKeyMembers(s, SortKey(q));
    WithKeyMembers(t, SortKey(q));
    assert q in s;
    assert SortKey(q) == key;
    assert WithKey(s, key)[|WithKey(s, key)| - 1] == p && WithKey(t, key)[|WithKey(t, key)| - 1] == q;
  }

  lemma {:induction false} OrderedTiesUnique(s: seq<ProofData>, t: seq<ProofData>)
    requires Ordered(s) && Ordered(t) && SameTies(s, t)
    ensures s == t
  {
    if s == [] {
      if t != [] { LastAgrees(t, s); }
    } else {
      LastAgrees(s, t);
      var i, j, p := s[..|s| - 1], t[..|t| - 1], s[|s| - 1];
      assert s == i + [p] && t == j + [p];
      forall key
        ensures WithKey(i, key) == WithKey(j, key)
      {
        assert WithKey(s, key) == WithKey(t, key);
        WithKeySnoc(i, p, key);
        WithKeySnoc(j, p, key);
        assert [] + WithKey(i, key) == WithKey(i, key) && [] + WithKey(j, key) == WithKey(j, key);
        Cancel([], WithKey(i, key), WithKey(j, key), if SortKey(p) == key then [p] else []);
      }
      OrderedTiesUnique(i, j);
    }
  }

  /** `Sorted` is the stable sort: a list is ordered and keeps the order of equal keys exactly when it is
      `Sorted(s)`, so every correct stable sorting algorithm yields it. */
  lemma StableSortUnique(s: seq<ProofData>, t: seq<ProofData>)
    ensures t == Sorted(s) <==> Ordered(t) && SameTies(s, t)
  {
    SortedProperties(s);
    forall key
      ensures WithKey(Sorted(s), key) == WithKey(s, key)
    {
      SortedStable(s, key);
    }
    if Ordered(t) && SameTies(s, t) {
      assert SameTies(t, Sorted(s));
      OrderedTiesUnique(t, Sorted(s));
    }
  }

  /** The position `j` at which an insertion takes place. */
  lemma {:induction false} InsertAt(s: seq<ProofData>, p: ProofData, j: nat)
    requires j <= |s|
    requires j > 0 ==> SortKey(s[j - 1]) <= SortKey(p)
    requires forall i :: j <= i < |s| ==> SortKey(s[i]) > SortKey(p)
    ensures Insert(s, p) == s[..j] + [p] + s[j..]
  {
    if j < |s| {
      var init := s[..|s| - 1];
      InsertAt(init, p, j);
      assert s[j..] == init[j..] + [s[|s| - 1]];
      assert init[..j] == s[..j];
    } else {
      assert s[..j] == s && s[j..] == [];
    }
  }

  // ---- Sorting in place ----

  lemma PutAt<T>(s: seq<T>, p: T, j: nat, r: seq<T>)
    requires j <= |s| && |r| == |s| + 1 && r[j] == p
    requires forall i {:trigger r[i]} :: 0 <= i < j ==> r[i] == s[i]
    requires forall i {:trigger r[i]} :: j < i < |r| ==> r[i] == s[i - 1]
    ensures r == s[..j] + [p] + s[j..]
  {
  }

  lemma InsertedAt(s: seq<ProofData>, p: ProofData, j: nat, r: seq<ProofData>)
    requires j <= |s| && |r| == |s| + 1 && r[j] == p
    requires forall i {:trigger r[i]} :: 0 <= i < j ==> r[i] == s[i]
    requires forall i {:trigger r[i]} :: j < i < |r| ==> r[i] == s[i - 1] && SortKey(r[i]) > SortKey(p)
    requires j > 0 ==> SortKey(r[j - 1]) <= SortKey(p)
    ensures r == Insert(s, p)
  {
    forall i | j <= i < |s|
      ensures SortKey(s[i]) > SortKey(p)
    {
      assert r[i + 1] == s[i];
    }
    if j > 0 { assert r[j - 1] == s[j - 1]; }
    InsertAt(s, p, j);
    PutAt(s, p, j, r);
  }

  /** Sinks the last of the first `n + 1` elements to its place among the sorted others. */
  method SinkLast(a: array<ProofData>, n: nat)
    requires n < a.Length && Ordered(a[..n])
    modifies a
    ensures a[..n + 1] == Insert(old(a[..n]), old(a[n]))
    ensures forall i :: n < i < a.Length ==> a[i] == old(a[i])
  {
    ghost var s, p := a[..n], a[n];
    var j := n;
    while j > 0 && SortKey(a[j - 1]) > SortKey(a[j])
      invariant j <= n && a[j] == p
      invariant forall i {:trigger a[i]} :: 0 <= i < j ==> a[i] == s[i]
      invariant forall i {:trigger a[i]} :: j < i <= n ==> a[i] == s[i - 1] && SortKey(a[i]) > SortKey(p)
      invariant forall i :: n < i < a.Length ==> a[i] == old(a[i])
    {
      a[j - 1], a[j] := a[j], a[j - 1];
      j := j - 1;
    }
    InsertedAt(s, p, j, a[..n + 1]);
  }

  lemma SortedPrefix(s: seq<ProofData>, n: nat)
    requires n < |s|
    ensures Sorted(s[..n + 1]) == Insert(Sorted(s[..n]), s[n])
  {
    assert s[..n + 1][..n] == s[..n];
  }

  /** `sort_by_key` on the vector of proofs. */
  method SortByConfigHash(a: array<ProofData>)
    modifies a
    ensures a[..] == Sorted(old(a[..]))
    ensures Ordered(a[..]) && SameTies(old(a[..]), a[..])
  {
    ghost var s := a[..];
    var n := 0;
    while n < a.Length
      invariant n <= a.Length
      invariant a[..n] == Sorted(s[..n])
      invariant forall i :: n <= i < a.Length ==> a[i] == s[i]
    {
      SortedProperties(s[..n]);
      SortedPrefix(s, n);
      SinkLast(a, n);
      n := n + 1;
    }
    assert a[..] == a[..n] && s == s[..n];
    StableSortUnique(s, a[..]);
  }

  // ---- The payload ----

  datatype Payload = Payload(bootInfo: seq<BootInfo>, proofBytes: seq<Byte>, l1Hash: Word)

  /** `keys` lists the keys of the map once each: one possible iteration order. */
  ghost predicate Enumerates(keys: seq<nat>, proofs: map<nat, ProofData>) {
    NoDup(keys) && Elems(keys) == proofs.Keys
  }

  ghost predicate KnownKeys(keys: seq<nat>, proofs: map<nat, ProofData>) {
    forall k :: k in keys ==> k in proofs
  }

  ghost function ValuesAt(keys: seq<nat>, proofs: map<nat, ProofData>): (s: seq<ProofData>)
    requires KnownKeys(keys, proofs)
    ensures |s| == |keys|
  {
    if keys == [] then [] else [proofs[keys[0]]] + ValuesAt(keys[1..], proofs)
  }

  /** The largest `l1_head`, or zero when there is no proof. */
  ghost predicate IsTopHead(h: Word, proofs: map<nat, ProofData>) {
    && (forall k :: k in proofs ==> proofs[k].outputs.l1Head <= h)
    && (proofs == map[] ==> h == 0)
    && (proofs != map[] ==> exists k :: k in proofs && proofs[k].outputs.l1Head == h)
  }

  lemma {:induction false} ValuesAppend(a: seq<nat>, b: seq<nat>, proofs: map<nat, ProofData>)
    requires KnownKeys(a, proofs) && KnownKeys(b, proofs)
    ensures KnownKeys(a + b, proofs) && ValuesAt(a + b, proofs) == ValuesAt(a, proofs) + ValuesAt(b, proofs)
  {
    if a == [] {
      assert a + b == b;
    } else {
      assert (a + b)[1..] == a[1..] + b;
      ValuesAppend(a[1..], b, proofs);
    }
  }

  /** `payload` is what iterating over the map in the order `keys` produces: boot infos and proof bytes both
      follow the one sorted order. */
  ghost predicate IsPayload(payload: Payload, keys: seq<nat>, proofs: map<nat, ProofData>) {
    && Enumerates(keys, proofs)
    && payload.bootInfo == Boots(Sorted(ValuesOf(keys, proofs)))
    && payload.proofBytes == ProofBytes(Sorted(ValuesOf(keys, proofs)))
    && IsTopHead(payload.l1Hash, proofs)
  }

  /** All but the keys in `rest` have been visited. */
  ghost predicate Visited(keys: seq<nat>, collected: seq<ProofData>, rest: set<nat>, proofs: map<nat, ProofData>) {
    && rest <= proofs.Keys && NoDup(keys) && Elems(keys) == proofs.Keys - rest && KnownKeys(keys, proofs)
    && collected == ValuesAt(keys, proofs)
  }

  lemma VisitNext(keys: seq<nat>, collected: seq<ProofData>, rest: set<nat>, proofs: map<nat, ProofData>, k: nat)
    requires Visited(keys, collected, rest, proofs) && k in rest
    ensures Visited(keys + [k], collected + [proofs[k]], rest - {k}, proofs)
  {
    ValuesAppend(keys, [k], proofs);
    KeyAppended(keys, k);
    assert proofs.Keys - (rest - {k}) == (proofs.Keys - rest) + {k};
  }

  /** `proofs.values().collect()` together with the maximum over the same values. */
  method Collect(proofs: map<nat, ProofData>) returns (collected: seq<ProofData>, top: Word, ghost keys: seq<nat>)
    ensures Enumerates(keys, proofs) && collected == ValuesOf(keys, proofs)
    ensures IsTopHead(top, proofs)
  {
    collected, keys, top := [], [], 0;
    var rest := proofs.Keys;
    while rest != {}
      invariant Visited(keys, collected, rest, proofs)
      invariant IsTopHead(top, proofs - rest)
      decreases rest
    {
      var k :| k in rest;
      VisitNext(keys, collected, rest, proofs, k);
      TopHeadGrows(top, proofs, rest, k);
      collected := collected + [proofs[k]];
      keys := keys + [k];
      rest := rest - {k};
      if proofs[k].outputs.l1Head >= top {
        top := proofs[k].outputs.l1Head;
      }
    }
    assert proofs - {} == proofs;
  }

  lemma KeyAppended(keys: seq<nat>, k: nat)
    requires NoDup(keys) && k !in Elems(keys)
    ensures NoDup(keys + [k]) && Elems(keys + [k]) == Elems(keys) + {k}
  {
  }

  lemma TopHeadGrows(top: Word, proofs: map<nat, ProofData>, rest: set<nat>, k: nat)
    requires rest <= proofs.Keys && k in rest && IsTopHead(top, proofs - rest)
    ensures IsTopHead(if proofs[k].outputs.l1Head >= top then proofs[k].outputs.l1Head else top, proofs - (rest - {k}))
  {
    var m, m' := proofs - rest, proofs - (rest - {k});
    assert m' == m[k := proofs[k]];
    assert k in m';
    assert forall x :: x in m ==> x in m' && m'[x] == m[x];
  }

  // ---- What the payload contains ----

  /** Where the i-th proof starts in the concatenation. */
  function Offset(list: seq<ProofData>, i: nat): nat
    requires i <= |list|
  {
    if i == 0 then 0 else Offset(list, i - 1) + |list[i - 1].compressedProof|
  }

  ghost predicate SameOutputs(boot: BootInfo, outputs: AggregationOutputs) {
    && boot.l1Head == outputs.l1Head && boot.l2PreRoot == outputs.l2PreRoot && boot.l2PostRoot == outputs.l2PostRoot
    && boot.l2BlockNumber == outputs.l2BlockNumber && boot.rollupConfigHash == outputs.rollupConfigHash
  }

  /** The boot infos are the outputs of the listed proofs, and cutting the bytes at the running sum of lengths gives
      back the proofs. */
  ghost predicate Carries(bootInfo: seq<BootInfo>, proofBytes: seq<Byte>, list: seq<ProofData>) {
    && |bootInfo| == |list| && |proofBytes| == Offset(list, |list|)
    && forall i :: 0 <= i < |list| ==> CarriesAt(bootInfo, proofBytes, list, i)
  }

  ghost predicate CutsOut(bytes: seq<Byte>, list: seq<ProofData>, i: nat)
    requires i < |list|
  {
    var start, length := Offset(list, i), |list[i].compressedProof|;
    start + length <= |bytes| && bytes[start..start + length] == list[i].compressedProof
  }

  lemma {:induction false} OffsetPrefix(list: seq<ProofData>, n: nat, i: nat)
    requires i <= n <= |list|
    ensures Offset(list[..n], i) == Offset(list, i)
  {
    if i > 0 { OffsetPrefix(list, n, i - 1); }
  }

  lemma StillCutsOut(bytes: seq<Byte>, more: seq<Byte>, list: seq<ProofData>, n: nat, i: nat)
    requires i < n <= |list| && CutsOut(bytes, list[..n], i)
    ensures CutsOut(bytes + more, list, i)
  {
    OffsetPrefix(list, n, i);
    assert list[..n][i] == list[i];
    var start, length := Offset(list, i), |list[i].compressedProof|;
    assert (bytes + more)[start..start + length] == bytes[start..start + length];
  }

  lemma CutsOutLast(bytes: seq<Byte>, list: seq<ProofData>)
    requires list != [] && |bytes| == Offset(list, |list| - 1)
    ensures CutsOut(bytes + list[|list| - 1].compressedProof, list, |list| - 1)
  {
  }

  /** What one position carries. */
  ghost predicate CarriesAt(boots: seq<BootInfo>, bytes: seq<Byte>, list: seq<ProofData>, i: nat)
    requires i < |list| == |boots|
  {
    SameOutputs(boots[i], list[i].outputs) && CutsOut(bytes, list, i)
  }

  lemma StillCarries(boots: seq<BootInfo>, bytes: seq<Byte>, list: seq<ProofData>, boot: BootInfo, more: seq<Byte>,
                     i: nat)
    requires list != [] && i < |boots| == |list| - 1 && CarriesAt(boots, bytes, list[..|list| - 1], i)
    ensures CarriesAt(boots + [boot], bytes + more, list, i)
  {
    var n := |list| - 1;
    assert list[..n][i] == list[i] && (boots + [boot])[i] == boots[i];
    StillCutsOut(bytes, more, list, n, i);
  }

  lemma CarriesOneMore(boots: seq<BootInfo>, bytes: seq<Byte>, list: seq<ProofData>, boot: BootInfo)
    requires list != [] && Carries(boots, bytes, list[..|list| - 1]) && SameOutputs(boot, list[|list| - 1].outputs)
    ensures Carries(boots + [boot], bytes + list[|list| - 1].compressedProof, list)
  {
    var n := |list| - 1;
    OffsetPrefix(list, n, n);
    CutsOutLast(bytes, list);
    forall i | 0 <= i < n
      ensures CarriesAt(boots + [boot], bytes + list[n].compressedProof, list, i)
    {
      assert CarriesAt(boots, bytes, list[..n], i);
      StillCarries(boots, bytes, list, boot, list[n].compressedProof, i);
    }
    assert CarriesAt(boots + [boot], bytes + list[n].compressedProof, list, n);
  }

  lemma {:induction false} EmissionCarries(list: seq<ProofData>)
    ensures Carries(Boots(list), ProofBytes(list), list)
  {
    if list != [] {
      var init, last := list[..|list| - 1], list[|list| - 1];
      EmissionCarries(init);
      assert list == init + [last] && [last][1..] == [];
      EmitAppend(init, [last]);
      assert Boots([last]) == [BootOf(last)] && ProofBytes([last]) == last.compressedProof;
      CarriesOneMore(Boots(init), ProofBytes(init), list, BootOf(last));
    }
  }

  lemma DropLast(list: seq<ProofData>, values: multiset<ProofData>)
    requires list != [] && multiset(list) == values
    ensures list[|list| - 1] in values && multiset(list[..|list| - 1]) == values - multiset{list[|list| - 1]}
  {
    assert list == list[..|list| - 1] + [list[|list| - 1]];
  }

  lemma AddBack(left: seq<nat>, k: nat, right: seq<nat>, rest: seq<nat>)
    requires NoDup(left + [k] + right) && NoDup(rest) && Elems(rest) == Elems(left + right)
    ensures NoDup(rest + [k]) && Elems(rest + [k]) == Elems(left + [k] + right)
  {
    WithoutKey(left, k, right);
    assert k !in Elems(rest);
    KeyAppended(rest, k);
    assert k in left + [k] + right;
  }

  lemma NoValuesNoKeys(keys: seq<nat>, proofs: map<nat, ProofData>)
    requires KnownKeys(keys, proofs) && multiset(ValuesAt(keys, proofs)) == multiset{}
    ensures keys == []
  {
    assert |multiset(ValuesAt(keys, proofs))| == |keys|;
  }

  lemma ValuesSnoc(keys: seq<nat>, k: nat, proofs: map<nat, ProofData>)
    requires KnownKeys(keys, proofs) && k in proofs
    ensures KnownKeys(keys + [k], proofs) && ValuesAt(keys + [k], proofs) == ValuesAt(keys, proofs) + [proofs[k]]
  {
    assert ValuesAt([k], proofs) == [proofs[k]];
    ValuesAppend(keys, [k], proofs);
  }

  /** `order` rearranges the keys so that the values come as in `list`. */
  ghost predicate Rearranges(order: seq<nat>, keys: seq<nat>, proofs: map<nat, ProofData>, list: seq<ProofData>) {
    KnownKeys(order, proofs) && NoDup(order) && Elems(order) == Elems(keys) && ValuesAt(order, proofs) == list
  }

  lemma KeyForLast(keys: seq<nat>, proofs: map<nat, ProofData>, list: seq<ProofData>)
    returns (left: seq<nat>, k: nat, right: seq<nat>)
    requires KnownKeys(keys, proofs) && NoDup(keys) && multiset(list) == multiset(ValuesAt(keys, proofs)) && list != []
    ensures keys == left + [k] + right && k in proofs && proofs[k] == list[|list| - 1]
    ensures KnownKeys(left + right, proofs) && NoDup(left + right)
    ensures multiset(list[..|list| - 1]) == multiset(ValuesAt(left + right, proofs))
  {
    DropLast(list, multiset(ValuesAt(keys, proofs)));
    k := ValuesIn(keys, proofs, list[|list| - 1]);
    left, right := SplitAtKey(keys, k, proofs);
  }

  lemma RearrangesOneMore(left: seq<nat>, k: nat, right: seq<nat>, proofs: map<nat, ProofData>, rest: seq<nat>,
                          list: seq<ProofData>)
    requires NoDup(left + [k] + right) && k in proofs && Rearranges(rest, left + right, proofs, list)
    ensures Rearranges(rest + [k], left + [k] + right, proofs, list + [proofs[k]])
  {
    AddBack(left, k, right, rest);
    ValuesSnoc(rest, k, proofs);
  }

  /** Any rearrangement of the values belongs to a rearrangement of the keys. */
  lemma {:induction false} KeysFor(keys: seq<nat>, proofs: map<nat, ProofData>, list: seq<ProofData>)
    returns (order: seq<nat>)
    requires KnownKeys(keys, proofs) && NoDup(keys) && multiset(list) == multiset(ValuesAt(keys, proofs))
    ensures Rearranges(order, keys, proofs, list)
    decreases |list|
  {
    if list == [] {
      NoValuesNoKeys(keys, proofs);
      order := [];
    } else {
      var left, k, right := KeyForLast(keys, proofs, list);
      var rest := KeysFor(left + right, proofs, list[..|list| - 1]);
      RearrangesOneMore(left, k, right, proofs, rest, list[..|list| - 1]);
      assert list == list[..|list| - 1] + [proofs[k]];
      order := rest + [k];
    }
  }

  lemma ValuesWithout(left: seq<nat>, k: nat, right: seq<nat>, proofs: map<nat, ProofData>)
    requires KnownKeys(left, proofs) && k in proofs && KnownKeys(right, proofs)
    ensures KnownKeys(left + [k] + right, proofs) && KnownKeys(left + right, proofs)
    ensures multiset(ValuesAt(left + [k] + right, proofs)) ==
            multiset(ValuesAt(left + right, proofs)) + multiset{proofs[k]}
  {
    assert ValuesAt([k], proofs) == [proofs[k]];
    ValuesAppend(left, right, proofs);
    ValuesAppend(left, [k], proofs);
    ValuesAppend(left + [k], right, proofs);
  }

  lemma SplitAtKey(keys: seq<nat>, k: nat, proofs: map<nat, ProofData>) returns (left: seq<nat>, right: seq<nat>)
    requires KnownKeys(keys, proofs) && NoDup(keys) && k in keys
    ensures keys == left + [k] + right && KnownKeys(left + right, proofs) && NoDup(left + right)
    ensures multiset(ValuesAt(left + right, proofs)) == multiset(ValuesAt(keys, proofs)) - multiset{proofs[k]}
  {
    var i :| 0 <= i < |keys| && keys[i] == k;
    left, right := keys[..i], keys[i + 1..];
    assert keys == left + [k] + right;
    KeyOnce(left, k, right);
    ValuesWithout(left, k, right, proofs);
  }

  /** `list` has the values of the map, one per key, ordered by config hash. */
  ghost predicate ListsByHash(list: seq<ProofData>, proofs: map<nat, ProofData>) {
    && (exists order :: Enumerates(order, proofs) && ValuesOf(order, proofs) == list)
    && forall i, j :: 0 <= i < j < |list| ==> list[i].outputs.rollupConfigHash <= list[j].outputs.rollupConfigHash
  }

  /** What is submitted: for some listing of the batch by config hash, each boot info holds the outputs of its proof
      and the bytes are those of the proofs, in that one order. */
  ghost predicate SubmitsBatch(payload: Payload, proofs: map<nat, ProofData>) {
    exists list :: ListsByHash(list, proofs) && Carries(payload.bootInfo, payload.proofBytes, list)
  }

  lemma PayloadSubmits(payload: Payload, keys: seq<nat>, proofs: map<nat, ProofData>)
    requires IsPayload(payload, keys, proofs)
    ensures SubmitsBatch(payload, proofs)
  {
    EnumeratedKnown(keys, proofs);
    var values := ValuesAt(keys, proofs);
    var list := Sorted(values);
    SortedProperties(values);
    var order := KeysFor(keys, proofs, list);
    assert Enumerates(order, proofs) && ValuesOf(order, proofs) == list;
    EmissionCarries(list);
    assert ListsByHash(list, proofs);
  }

  /** The first half of `submit`: collect in whatever order the map yields, sort, and read off the payload. */
  method Assemble(proofs: map<nat, ProofData>) returns (payload: Payload)
    ensures exists keys :: IsPayload(payload, keys, proofs)
    ensures SubmitsBatch(payload, proofs) && IsTopHead(payload.l1Hash, proofs)
  {
    var collected, top, keys := Collect(proofs);
    var a := new ProofData[|collected|](i requires 0 <= i < |collected| => collected[i]);
    assert a[..] == collected;
    SortByConfigHash(a);
    var boots, bytes := ReadOff(a[..]);
    payload := Payload(boots, bytes, top);
    assert IsPayload(payload, keys, proofs);
    PayloadSubmits(payload, keys, proofs);
  }

  /** The `map` and `flat_map` passes over the sorted vector. */
  method ReadOff(s: seq<ProofData>) returns (boots: seq<BootInfo>, bytes: seq<Byte>)
    ensures boots == Boots(s) && bytes == ProofBytes(s)
  {
    boots, bytes := [], [];
    for i := 0 to |s|
      invariant boots == Boots(s[..i]) && bytes == ProofBytes(s[..i])
    {
      EmitAppend(s[..i], [s[i]]);
      assert s[..i + 1] == s[..i] + [s[i]];
      assert [s[i]][1..] == [];
      boots := boots + [BootOf(s[i])];
      bytes := bytes + s[i].compressedProof;
    }
    assert s[..|s|] == s;
  }

  lemma {:induction false} EmitAppend(a: seq<ProofData>, b: seq<ProofData>)
    ensures Boots(a + b) == Boots(a) + Boots(b)
    ensures ProofBytes(a + b) == ProofBytes(a) + ProofBytes(b)
    ensures |Boots(a)| == |a|
  {
    if a == [] {
      assert a + b == b;
    } else {
      assert (a + b)[1..] == a[1..] + b;
      EmitAppend(a[1..], b);
      ConcatAssociative([BootOf(a[0])], Boots(a[1..]), Boots(b));
      ConcatAssociative(a[0].compressedProof, ProofBytes(a[1..]), ProofBytes(b));
    }
  }

  // ---- When the order does not matter ----

  /** Two proofs may be exchanged: they are told apart by the sort key, or exchanging them shows neither in
      the boot infos nor in the concatenated bytes. */
  ghost predicate Exchangeable(p: ProofData, q: ProofData) {
    SortKey(p) == SortKey(q) ==>
      BootOf(p) == BootOf(q) && p.compressedProof + q.compressedProof == q.compressedProof + p.compressedProof
  }

  ghost predicate SameEmission(s: seq<ProofData>, t: seq<ProofData>) {
    Boots(s) == Boots(t) && ProofBytes(s) == ProofBytes(t)
  }

  /** `s` and `t` differ at most by one exchange of neighbours with equal keys. */
  datatype Exchange = Same | Swap(before: seq<ProofData>, p: ProofData, q: ProofData, after: seq<ProofData>)

  ghost predicate Related(s: seq<ProofData>, t: seq<ProofData>, x: Exchange) {
    match x
    case Same => s == t
    case Swap(u, p, q, v) => SortKey(p) == SortKey(q) && s == u + [p, q] + v && t == u + [q, p] + v
  }

  /** Inserting never separates two neighbours with equal keys. */
  lemma {:induction false} InsertBesidePair(u: seq<ProofData>, p: ProofData, q: ProofData, v: seq<ProofData>,
                                            z: ProofData)
    requires SortKey(p) == SortKey(q)
    ensures if InsertsAfter(p, v, z)
            then Insert(u + [p, q] + v, z) == u + [p, q] + Insert(v, z)
            else Insert(u + [p, q] + v, z) == Insert(u, z) + [p, q] + v
    decreases |v|
  {
    var s := u + [p, q] + v;
    if v == [] {
      assert s[|s| - 1] == q;
      if SortKey(q) > SortKey(z) {
        assert s[..|s| - 1] == u + [p];
        assert (u + [p])[..|u|] == u;
        assert Insert(u + [p], z) == Insert(u, z) + [p];
        assert Insert(s, z) == Insert(u, z) + [p, q] + v;
      }
    } else {
      var w, last := v[..|v| - 1], v[|v| - 1];
      assert s[|s| - 1] == last;
      if SortKey(last) > SortKey(z) {
        assert s[..|s| - 1] == u + [p, q] + w;
        InsertBesidePair(u, p, q, w, z);
      }
    }
  }

  /** Whether the insertion point of `z` lies behind the pair. */
  predicate InsertsAfter(p: ProofData, v: seq<ProofData>, z: ProofData) {
    if v == [] then SortKey(p) <= SortKey(z)
    else SortKey(v[|v| - 1]) <= SortKey(z) || InsertsAfter(p, v[..|v| - 1], z)
  }

  lemma {:induction false} AfterIgnoresNames(p: ProofData, q: ProofData, v: seq<ProofData>, z: ProofData)
    requires SortKey(p) == SortKey(q)
    ensures InsertsAfter(p, v, z) == InsertsAfter(q, v, z)
  {
    if v != [] { AfterIgnoresNames(p, q, v[..|v| - 1], z); }
  }

  lemma InsertKeepsRelated(s: seq<ProofData>, t: seq<ProofData>, x: Exchange, z: ProofData) returns (x': Exchange)
    requires Related(s, t, x)
    ensures Related(Insert(s, z), Insert(t, z), x')
    ensures x.Same? ==> x'.Same?
    ensures x.Swap? ==> x'.Swap? && x'.p == x.p && x'.q == x.q
  {
    match x
    case Same => x' := Same;
    case Swap(u, p, q, v) =>
      InsertBesidePair(u, p, q, v, z);
      InsertBesidePair(u, q, p, v, z);
      AfterIgnoresNames(p, q, v, z);
      x' := if InsertsAfter(p, v, z) then Swap(u, p, q, Insert(v, z)) else Swap(Insert(u, z), p, q, v);
  }

  lemma {:induction false} InsertAllKeepsRelated(s: seq<ProofData>, t: seq<ProofData>, x: Exchange, c: seq<ProofData>)
    returns (x': Exchange)
    requires Related(s, t, x)
    ensures Related(InsertAll(s, c), InsertAll(t, c), x')
    ensures x.Same? ==> x'.Same?
    ensures x.Swap? ==> x'.Swap? && x'.p == x.p && x'.q == x.q
  {
    if c == [] {
      x' := x;
    } else {
      var mid := InsertAllKeepsRelated(s, t, x, c[..|c| - 1]);
      x' := InsertKeepsRelated(InsertAll(s, c[..|c| - 1]), InsertAll(t, c[..|c| - 1]), mid, c[|c| - 1]);
    }
  }

  /** What a list with a pair in the middle emits. */
  lemma EmitPair(u: seq<ProofData>, p: ProofData, q: ProofData, v: seq<ProofData>)
    ensures Boots(u + [p, q] + v) == Boots(u) + [BootOf(p), BootOf(q)] + Boots(v)
    ensures ProofBytes(u + [p, q] + v) == ProofBytes(u) + (p.compressedProof + q.compressedProof) + ProofBytes(v)
    ensures |Boots(u)| == |u|
  {
    EmitAppend(u + [p, q], v);
    EmitAppend(u, [p, q]);
    assert [p, q][1..] == [q] && [q][1..] == [];
    assert Boots([p, q]) == [BootOf(p), BootOf(q)];
    assert ProofBytes([q]) == q.compressedProof + [] == q.compressedProof;
    assert ProofBytes([p, q]) == p.compressedProof + q.compressedProof;
  }

  lemma RelatedEmitSame(s: seq<ProofData>, t: seq<ProofData>, x: Exchange)
    requires Related(s, t, x) && (x.Swap? ==> Exchangeable(x.p, x.q))
    ensures SameEmission(s, t)
  {
    match x
    case Same =>
    case Swap(u, p, q, v) =>
      EmitPair(u, p, q, v);
      EmitPair(u, q, p, v);
  }

  /** Conversely, lists that differ by one exchange and emit the same had an exchangeable pair. */
  lemma SameEmissionMeansExchangeable(s: seq<ProofData>, t: seq<ProofData>, x: Exchange)
    requires Related(s, t, x) && x.Swap? && SameEmission(s, t)
    ensures Exchangeable(x.p, x.q)
  {
    var Swap(u, p, q, v) := x;
    EmitPair(u, p, q, v);
    EmitPair(u, q, p, v);
    var b, b' := Boots(u) + [BootOf(p), BootOf(q)] + Boots(v), Boots(u) + [BootOf(q), BootOf(p)] + Boots(v);
    assert b[|u|] == BootOf(p) && b'[|u|] == BootOf(q);
    Cancel(ProofBytes(u), p.compressedProof + q.compressedProof, q.compressedProof + p.compressedProof, ProofBytes(v));
  }

  lemma Cancel<T>(u: seq<T>, a: seq<T>, b: seq<T>, v: seq<T>)
    requires u + a + v == u + b + v
    ensures a == b
  {
    assert |u + a + v| == |u| + |a| + |v| && |u + b + v| == |u| + |b| + |v|;
    assert a == (u + a + v)[|u|..|u| + |a|];
    assert b == (u + b + v)[|u|..|u| + |b|];
  }

  // ---- Exchanging neighbours in the iteration order ----

  lemma {:induction false} InsertAllAppend(done: seq<ProofData>, a: seq<ProofData>, b: seq<ProofData>)
    ensures InsertAll(done, a + b) == InsertAll(InsertAll(done, a), b)
  {
    if b == [] {
      assert a + b == a;
    } else {
      var init, last := b[..|b| - 1], b[|b| - 1];
      assert (a + b)[..|a + b| - 1] == a + init;
      InsertAllAppend(done, a, init);
    }
  }

  lemma InsertAllPair(s: seq<ProofData>, p: ProofData, q: ProofData)
    ensures InsertAll(s, [p, q]) == Insert(Insert(s, p), q)
  {
    assert [p, q][..1] == [p] && [p][..0] == [];
    assert InsertAll(s, [p]) == Insert(InsertAll(s, []), p);
  }

  /** Two insertions commute when the keys differ, and otherwise end side by side. */
  lemma {:induction false} InsertTwice(s: seq<ProofData>, p: ProofData, q: ProofData) returns (x: Exchange)
    requires Ordered(s)
    ensures Related(Insert(Insert(s, p), q), Insert(Insert(s, q), p), x)
    ensures SortKey(p) != SortKey(q) ==> x.Same?
    ensures SortKey(p) == SortKey(q) ==> x.Swap? && x.p == p && x.q == q
  {
    if SortKey(p) == SortKey(q) {
      var j := InsertionPoint(s, p);
      InsertAt(s, p, j);
      InsertAt(s, q, j);
      PairAt(s, p, q, j);
      PairAt(s, q, p, j);
      x := Swap(s[..j], p, q, s[j..]);
    } else {
      x := Same;
      if SortKey(p) < SortKey(q) { InsertCommutes(s, p, q); } else { InsertCommutes(s, q, p); }
    }
  }

  lemma InsertionPoint(s: seq<ProofData>, p: ProofData) returns (j: nat)
    requires Ordered(s)
    ensures j <= |s|
    ensures j > 0 ==> SortKey(s[j - 1]) <= SortKey(p)
    ensures forall i :: j <= i < |s| ==> SortKey(s[i]) > SortKey(p)
  {
    j := |s|;
    while j > 0 && SortKey(s[j - 1]) > SortKey(p)
      invariant j <= |s|
      invariant forall i :: j <= i < |s| ==> SortKey(s[i]) > SortKey(p)
    {
      j := j - 1;
    }
  }

  lemma PairAt(s: seq<ProofData>, p: ProofData, q: ProofData, j: nat)
    requires j <= |s| && SortKey(p) == SortKey(q)
    requires j > 0 ==> SortKey(s[j - 1]) <= SortKey(p)
    requires forall i :: j <= i < |s| ==> SortKey(s[i]) > SortKey(p)
    ensures Insert(s[..j] + [p] + s[j..], q) == s[..j] + [p, q] + s[j..]
  {
    var t := s[..j] + [p] + s[j..];
    InsertAt(t, q, j + 1);
    assert t[..j + 1] == s[..j] + [p] && t[j + 1..] == s[j..];
  }

  lemma {:induction false} InsertCommutes(s: seq<ProofData>, p: ProofData, q: ProofData)
    requires SortKey(p) < SortKey(q)
    ensures Insert(Insert(s, p), q) == Insert(Insert(s, q), p)
  {
    if s != [] && SortKey(s[|s| - 1]) > SortKey(q) {
      var init, last := s[..|s| - 1], s[|s| - 1];
      var a, b := Insert(init, p), Insert(init, q);
      assert (a + [last])[..|a|] == a && (b + [last])[..|b|] == b;
      InsertCommutes(init, p, q);
    } else {
      assert (s + [q])[..|s|] == s;
    }
  }

  lemma ExchangeInOrder(a: seq<ProofData>, p: ProofData, q: ProofData, c: seq<ProofData>) returns (x: Exchange)
    ensures Related(Sorted(a + [p, q] + c), Sorted(a + [q, p] + c), x)
    ensures SortKey(p) != SortKey(q) ==> x.Same?
    ensures SortKey(p) == SortKey(q) ==> x.Swap? && x.p == p && x.q == q
  {
    var s := InsertAll([], a);
    InsertAllProperties([], a);
    InsertAllAppend([], a + [p, q], c);
    InsertAllAppend([], a, [p, q]);
    InsertAllAppend([], a + [q, p], c);
    InsertAllAppend([], a, [q, p]);
    InsertAllPair(s, p, q);
    InsertAllPair(s, q, p);
    var mid := InsertTwice(s, p, q);
    x := InsertAllKeepsRelated(Insert(Insert(s, p), q), Insert(Insert(s, q), p), mid, c);
  }

  lemma SwapNeighbours(a: seq<ProofData>, p: ProofData, q: ProofData, c: seq<ProofData>)
    requires Exchangeable(p, q)
    ensures SameEmission(Sorted(a + [p, q] + c), Sorted(a + [q, p] + c))
  {
    var x := ExchangeInOrder(a, p, q, c);
    RelatedEmitSame(Sorted(a + [p, q] + c), Sorted(a + [q, p] + c), x);
  }

  lemma {:induction false} MoveBack(a: seq<ProofData>, p: ProofData, b: seq<ProofData>, c: seq<ProofData>)
    requires forall q :: q in b ==> Exchangeable(p, q)
    ensures SameEmission(Sorted(a + [p] + b + c), Sorted(a + b + [p] + c))
    decreases |b|
  {
    if b == [] {
      assert a + [p] + b + c == a + b + [p] + c;
    } else {
      var q, b' := b[0], b[1..];
      SwapNeighbours(a, p, q, b' + c);
      assert a + [p] + b + c == a + [p, q] + (b' + c);
      assert a + [q, p] + (b' + c) == (a + [q]) + [p] + b' + c;
      MoveBack(a + [q], p, b', c);
      assert (a + [q]) + b' + [p] + c == a + b + [p] + c;
    }
  }

  /** Any two proofs of the batch that share a sort key may be exchanged. */
  ghost predicate TiesAgree(proofs: map<nat, ProofData>) {
    forall a, b :: a in proofs && b in proofs && a != b ==> Exchangeable(proofs[a], proofs[b])
  }

  lemma {:induction false} ValuesIn(keys: seq<nat>, proofs: map<nat, ProofData>, q: ProofData) returns (k: nat)
    requires KnownKeys(keys, proofs) && q in ValuesAt(keys, proofs)
    ensures k in keys && proofs[k] == q
  {
    if proofs[keys[0]] == q {
      k := keys[0];
    } else {
      k := ValuesIn(keys[1..], proofs, q);
    }
  }

  lemma MoveKeyBack(left: seq<nat>, k: nat, right: seq<nat>, proofs: map<nat, ProofData>, c: seq<ProofData>)
    requires TiesAgree(proofs) && KnownKeys(left, proofs) && k in proofs && KnownKeys(right, proofs) && k !in right
    requires KnownKeys(left + [k] + right, proofs) && KnownKeys(left + right, proofs)
    ensures SameEmission(Sorted(ValuesAt(left + [k] + right, proofs) + c),
                         Sorted(ValuesAt(left + right, proofs) + ([proofs[k]] + c)))
  {
    var a, p, b := ValuesAt(left, proofs), proofs[k], ValuesAt(right, proofs);
    assert ValuesAt([k], proofs) == [p];
    ValuesAppend(left, [k], proofs);
    ValuesAppend(left + [k], right, proofs);
    ValuesAppend(left, right, proofs);
    forall q | q in b
      ensures Exchangeable(p, q)
    {
      var k' := ValuesIn(right, proofs, q);
    }
    MoveBack(a, p, b, c);
    ConcatAssociative(a + b, [p], c);
  }

  /** Some key of the order may as well come last. */
  lemma KeyToEnd(keys: seq<nat>, k: nat, proofs: map<nat, ProofData>, c: seq<ProofData>)
    returns (left: seq<nat>, right: seq<nat>)
    requires TiesAgree(proofs) && KnownKeys(keys, proofs) && NoDup(keys) && k in keys
    ensures keys == left + [k] + right && KnownKeys(left + right, proofs)
    ensures SameEmission(Sorted(ValuesAt(keys, proofs) + c), Sorted(ValuesAt(left + right, proofs) + ([proofs[k]] + c)))
  {
    var i :| 0 <= i < |keys| && keys[i] == k;
    left, right := keys[..i], keys[i + 1..];
    assert keys == left + [k] + right;
    forall x | x in left + right
      ensures x in proofs
    {
      assert x in keys;
    }
    assert k !in right;
    MoveKeyBack(left, k, right, proofs, c);
  }

  lemma {:induction false} OrderIrrelevant(keys: seq<nat>, keys': seq<nat>, proofs: map<nat, ProofData>,
                                           c: seq<ProofData>)
    requires TiesAgree(proofs) && KnownKeys(keys, proofs) && KnownKeys(keys', proofs)
    requires NoDup(keys) && NoDup(keys') && Elems(keys) == Elems(keys')
    ensures SameEmission(Sorted(ValuesAt(keys, proofs) + c), Sorted(ValuesAt(keys', proofs) + c))
    decreases |keys|
  {
    if keys == [] {
      NoDupCardinality(keys');
      assert Elems(keys) == {};
    } else {
      var k := keys[|keys| - 1];
      assert k in Elems(keys');
      var init, none := KeyToEnd(keys, k, proofs, c);
      var left, right := KeyToEnd(keys', k, proofs, c);
      RemoveKey(init, k, none, left, right);
      OrderIrrelevant(init + none, left + right, proofs, [proofs[k]] + c);
    }
  }

  lemma KeyOnce<T>(left: seq<T>, k: T, right: seq<T>)
    requires NoDup(left + [k] + right)
    ensures NoDup(left + right) && k !in left && k !in right
  {
    var all := left + [k] + right;
    assert all[|left|] == k;
    assert forall j :: 0 <= j < |left| ==> all[j] == left[j];
    assert forall j :: 0 <= j < |right| ==> all[|left| + 1 + j] == right[j];
  }

  lemma WithoutKey(left: seq<nat>, k: nat, right: seq<nat>)
    requires NoDup(left + [k] + right)
    ensures NoDup(left + right) && Elems(left + right) == Elems(left + [k] + right) - {k}
  {
    KeyOnce(left, k, right);
  }

  lemma RemoveKey(left: seq<nat>, k: nat, right: seq<nat>, left': seq<nat>, right': seq<nat>)
    requires NoDup(left + [k] + right) && NoDup(left' + [k] + right')
    requires Elems(left + [k] + right) == Elems(left' + [k] + right')
    ensures NoDup(left + right) && NoDup(left' + right') && Elems(left + right) == Elems(left' + right')
  {
    WithoutKey(left, k, right);
    WithoutKey(left', k, right');
  }

  lemma {:induction false} SomeEnumeration(keys: set<nat>) returns (order: seq<nat>)
    ensures NoDup(order) && Elems(order) == keys
  {
    if keys == {} {
      order := [];
    } else {
      var k :| k in keys;
      var rest := SomeEnumeration(keys - {k});
      assert k !in Elems(rest);
      order := [k] + rest;
      assert forall x :: x in order <==> x == k || x in Elems(rest);
      assert Elems(order) == {k} + Elems(rest) == keys;
    }
  }

  ghost predicate OrderFree(proofs: map<nat, ProofData>) {
    forall keys, keys' :: Enumerates(keys, proofs) && Enumerates(keys', proofs) ==>
      SameEmission(Sorted(ValuesOf(keys, proofs)), Sorted(ValuesOf(keys', proofs)))
  }

  ghost function ValuesOf(keys: seq<nat>, proofs: map<nat, ProofData>): seq<ProofData>
    requires Enumerates(keys, proofs)
  {
    EnumeratedKnown(keys, proofs);
    ValuesAt(keys, proofs)
  }

  lemma EnumeratedKnown(keys: seq<nat>, proofs: map<nat, ProofData>)
    requires Enumerates(keys, proofs)
    ensures KnownKeys(keys, proofs)
  {
  }

  /** Boot infos and proof bytes are the same for every iteration order of the map exactly when any two
      proofs with equal config hashes have equal boot infos and commuting proof bytes. */
  lemma PayloadCanonical(proofs: map<nat, ProofData>)
    ensures OrderFree(proofs) <==> TiesAgree(proofs)
  {
    if TiesAgree(proofs) {
      forall keys, keys' | Enumerates(keys, proofs) && Enumerates(keys', proofs)
        ensures SameEmission(Sorted(ValuesOf(keys, proofs)), Sorted(ValuesOf(keys', proofs)))
      {
        EnumeratedKnown(keys, proofs);
        EnumeratedKnown(keys', proofs);
        OrderIrrelevant(keys, keys', proofs, []);
        assert ValuesAt(keys, proofs) + [] == ValuesAt(keys, proofs);
        assert ValuesAt(keys', proofs) + [] == ValuesAt(keys', proofs);
      }
    }
    if OrderFree(proofs) {
      forall a, b | a in proofs && b in proofs && a != b
        ensures Exchangeable(proofs[a], proofs[b])
      {
        OrderFreeTies(proofs, a, b);
      }
    }
  }

  lemma OrderFreeTies(proofs: map<nat, ProofData>, a: nat, b: nat)
    requires OrderFree(proofs) && a in proofs && b in proofs && a != b
    ensures Exchangeable(proofs[a], proofs[b])
  {
    if SortKey(proofs[a]) == SortKey(proofs[b]) {
      var rest := SomeEnumeration(proofs.Keys - {a, b});
      StartingWith(proofs, a, b, rest);
      StartingWith(proofs, b, a, rest);
      TiedPairExchangeable(proofs[a], proofs[b], ValuesAt(rest, proofs));
    }
  }

  lemma TiedPairExchangeable(p: ProofData, q: ProofData, rest: seq<ProofData>)
    requires SortKey(p) == SortKey(q) && SameEmission(Sorted([p, q] + rest), Sorted([q, p] + rest))
    ensures Exchangeable(p, q)
  {
    var x := ExchangeInOrder([], p, q, rest);
    assert [] + [p, q] == [p, q] && [] + [q, p] == [q, p];
    SameEmissionMeansExchangeable(Sorted([p, q] + rest), Sorted([q, p] + rest), x);
  }

  lemma PairInFront(a: nat, b: nat, rest: seq<nat>)
    requires a != b && NoDup(rest) && a !in Elems(rest) && b !in Elems(rest)
    ensures NoDup([a, b] + rest) && Elems([a, b] + rest) == {a, b} + Elems(rest)
  {
  }

  lemma StartingWith(proofs: map<nat, ProofData>, a: nat, b: nat, rest: seq<nat>)
    requires a in proofs && b in proofs && a != b && NoDup(rest) && Elems(rest) == proofs.Keys - {a, b}
    ensures KnownKeys(rest, proofs) && Enumerates([a, b] + rest, proofs)
    ensures ValuesOf([a, b] + rest, proofs) == [proofs[a], proofs[b]] + ValuesAt(rest, proofs)
  {
    PairInFront(a, b, rest);
    assert forall k :: k in rest ==> k in Elems(rest);
    assert {a, b} + Elems(rest) == proofs.Keys;
    ValuesAppend([a, b], rest, proofs);
    assert [a, b][1..] == [b] && [b][1..] == [];
  }

  /** With distinct config hashes every iteration order gives one payload. */
  lemma DistinctHashesSuffice(proofs: map<nat, ProofData>)
    requires forall a, b :: a in proofs && b in proofs && a != b ==> SortKey(proofs[a]) != SortKey(proofs[b])
    ensures OrderFree(proofs)
  {
    PayloadCanonical(proofs);
  }

  lemma TopHeadUnique(h: Word, h': Word, proofs: map<nat, ProofData>)
    requires IsTopHead(h, proofs) && IsTopHead(h', proofs)
    ensures h == h'
  {
  }

  /** Two assemblies of the same batch, iterating in whatever orders, submit the same payload when ties agree. */
  lemma OnePayload(proofs: map<nat, ProofData>, p: Payload, keys: seq<nat>, p': Payload, keys': seq<nat>)
    requires TiesAgree(proofs) && IsPayload(p, keys, proofs) && IsPayload(p', keys', proofs)
    ensures p == p'
  {
    PayloadCanonical(proofs);
    TopHeadUnique(p.l1Hash, p'.l1Hash, proofs);
  }

  /** Proofs that arrive without aggregation outputs all tie, so their bytes have to commute. */
  lemma DefaultOutputsTie(proofs: map<nat, ProofData>, outputs: AggregationOutputs)
    requires forall k :: k in proofs ==> proofs[k].outputs == outputs
    ensures OrderFree(proofs) <==> forall a, b :: a in proofs && b in proofs ==>
              proofs[a].compressedProof + proofs[b].compressedProof ==
                proofs[b].compressedProof + proofs[a].compressedProof
  {
    PayloadCanonical(proofs);
  }
}
