/** The weaver's result: a PHP array from member keys to lists of advice.
    PHP arrays keep their keys in insertion order, so the map is a sequence of
    entries with pairwise distinct keys. Two PHP operations build it:
    `$map[$key][] = $advice` (`Append`) and `array_merge_recursive`
    (`MergeRecursive`), which appends lists under equal keys instead of
    replacing them. */
module AdviceMaps {
  import opened Aop

  datatype Entry = Entry(key: string, advices: seq<Advice>)

  type AdviceMap = seq<Entry>

  /** The keys of `m`, in insertion order. */
  function Keys(m: AdviceMap): (ks: seq<string>)
    ensures |ks| == |m|
    ensures forall i :: 0 <= i < |m| ==> ks[i] == m[i].key
  {
    if m == [] then [] else [m[0].key] + Keys(m[1..])
  }

  /** The representation invariant of a PHP array: no key twice. */
  predicate DistinctKeys(m: AdviceMap)
  {
    m == [] || (m[0].key !in Keys(m[1..]) && DistinctKeys(m[1..]))
  }

  /** The list stored under `k`, or the empty list when `k` is absent. */
  function Lookup(m: AdviceMap, k: string): seq<Advice>
  {
    if m == [] then []
    else if m[0].key == k then m[0].advices
    else Lookup(m[1..], k)
  }

  /** A key that is not in the map reads as the empty list. */
  lemma {:induction false} LookupAbsent(m: AdviceMap)
    ensures forall k :: k !in Keys(m) ==> Lookup(m, k) == []
  {
    if m != [] {
      LookupAbsent(m[1..]);
      assert Keys(m) == [m[0].key] + Keys(m[1..]);
    }
  }

  /** In a map with distinct keys, the list under a key is the one its entry holds. */
  lemma {:induction false} LookupEntry(m: AdviceMap, i: nat)
    requires DistinctKeys(m) && i < |m|
    ensures Lookup(m, m[i].key) == m[i].advices
  {
    if i > 0 {
      assert m[i].key == Keys(m[1..])[i - 1];
      LookupEntry(m[1..], i - 1);
    }
  }

  /** `$map[$k]` extended by the list `vs`: appended to the list already
      there, or stored under a new last key. */
  function AppendAll(m: AdviceMap, k: string, vs: seq<Advice>): (r: AdviceMap)
    requires DistinctKeys(m)
    ensures DistinctKeys(r)
    ensures Keys(r) == if k in Keys(m) then Keys(m) else Keys(m) + [k]
  {
    if m == [] then [Entry(k, vs)]
    else if m[0].key == k then
      var r := [Entry(k, m[0].advices + vs)] + m[1..];
      assert r[1..] == m[1..];
      assert Keys(m) == [k] + Keys(m[1..]);
      r
    else
      var rest := AppendAll(m[1..], k, vs);
      var r := [m[0]] + rest;
      assert r[1..] == rest;
      assert Keys(m) == [m[0].key] + Keys(m[1..]);
      assert Keys(r) == [m[0].key] + Keys(rest);
      r
  }

  /** `vs` goes to the end of the list under `k`; every other list stays. */
  lemma {:induction false} AppendAllLookup(m: AdviceMap, k: string, vs: seq<Advice>)
    requires DistinctKeys(m)
    ensures Lookup(AppendAll(m, k, vs), k) == Lookup(m, k) + vs
    ensures forall k' :: k' != k ==> Lookup(AppendAll(m, k, vs), k') == Lookup(m, k')
  {
    if m != [] {
      if m[0].key == k {
        LookupAbsent(m[1..]);
        assert AppendAll(m, k, vs)[1..] == m[1..];
      } else {
        AppendAllLookup(m[1..], k, vs);
        assert AppendAll(m, k, vs)[1..] == AppendAll(m[1..], k, vs);
      }
    }
  }

  /** `$map[$k][] = $advice`. */
  function Append(m: AdviceMap, k: string, advice: Advice): (r: AdviceMap)
    requires DistinctKeys(m)
    ensures DistinctKeys(r)
    ensures Keys(r) == if k in Keys(m) then Keys(m) else Keys(m) + [k]
    ensures Lookup(r, k) == Lookup(m, k) + [advice]
    ensures forall k' :: k' != k ==> Lookup(r, k') == Lookup(m, k')
  {
    AppendAllLookup(m, k, [advice]);
    AppendAll(m, k, [advice])
  }

  /** After `$map[$k][] = $advice` the keys are the old ones and `k`. */
  lemma AppendKeys(m: AdviceMap, k: string, advice: Advice, x: string)
    requires DistinctKeys(m)
    ensures x in Keys(Append(m, k, advice)) <==> x in Keys(m) || x == k
  {
    if k !in Keys(m) {
      assert Keys(Append(m, k, advice)) == Keys(m) + [k];
    }
  }

  /** `array_merge_recursive($m1, $m2)` on maps whose values are lists: the
      entries of `m2` appended one by one, in order, to `m1`. */
  function MergeRecursive(m1: AdviceMap, m2: AdviceMap): (r: AdviceMap)
    requires DistinctKeys(m1) && DistinctKeys(m2)
    ensures DistinctKeys(r)
    decreases |m2|
  {
    if m2 == [] then m1
    else MergeRecursive(AppendAll(m1, m2[0].key, m2[0].advices), m2[1..])
  }

  /** Nothing is overwritten: under a key present in both maps the two lists
      are concatenated, `m1`'s first. */
  lemma {:induction false} MergeRecursiveLookup(m1: AdviceMap, m2: AdviceMap, k: string)
    requires DistinctKeys(m1) && DistinctKeys(m2)
    ensures Lookup(MergeRecursive(m1, m2), k) == Lookup(m1, k) + Lookup(m2, k)
    decreases |m2|
  {
    if m2 != [] {
      var e := m2[0];
      var a := AppendAll(m1, e.key, e.advices);
      AppendAllLookup(m1, e.key, e.advices);
      MergeRecursiveLookup(a, m2[1..], k);
      if k == e.key {
        LookupAbsent(m2[1..]);
        assert Lookup(m2[1..], k) == [];
      }
    }
  }

  /** Every key of either map is kept, and no other key appears. */
  lemma {:induction false} MergeRecursiveKeys(m1: AdviceMap, m2: AdviceMap, k: string)
    requires DistinctKeys(m1) && DistinctKeys(m2)
    ensures k in Keys(MergeRecursive(m1, m2)) <==> k in Keys(m1) || k in Keys(m2)
    decreases |m2|
  {
    if m2 != [] {
      var e := m2[0];
      MergeRecursiveKeys(AppendAll(m1, e.key, e.advices), m2[1..], k);
      assert Keys(m2) == [e.key] + Keys(m2[1..]);
    }
  }

  /** The keys of `m1` keep their places at the front of the result. */
  lemma {:induction false} MergeRecursiveKeepsOrder(m1: AdviceMap, m2: AdviceMap)
    requires DistinctKeys(m1) && DistinctKeys(m2)
    ensures Keys(m1) <= Keys(MergeRecursive(m1, m2))
    decreases |m2|
  {
    if m2 != [] {
      var a := AppendAll(m1, m2[0].key, m2[0].advices);
      MergeRecursiveKeepsOrder(a, m2[1..]);
      assert Keys(m1) <= Keys(a);
    }
  }
}
