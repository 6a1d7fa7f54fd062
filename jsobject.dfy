/** A plain JavaScript object used as a counter (`{}` with string keys and
    number values), kept as its list of own entries in insertion order, the
    order in which `Object.keys`, `Object.values` and `Object.entries` list
    them. */
module JsObject {
  import opened Wrappers

  type Entries = seq<(string, int)>

  ghost predicate HasKey(e: Entries, k: string) {
    exists i :: 0 <= i < |e| && e[i].0 == k
  }

  ghost predicate DistinctKeys(e: Entries) {
    forall i, j :: 0 <= i < j < |e| ==> e[i].0 != e[j].0
  }

  /** The position of key `k`, if the object has it. */
  function IndexOfKey(e: Entries, k: string): (r: Option<nat>)
    ensures r.Some? ==> r.value < |e| && e[r.value].0 == k
    ensures r.Some? ==> forall j :: 0 <= j < r.value ==> e[j].0 != k
    ensures r.None? <==> !HasKey(e, k)
  {
    if e == [] then None
    else if e[0].0 == k then Some(0)
    else match IndexOfKey(e[1..], k)
      case None =>
        assert forall j :: 1 <= j < |e| ==> e[j] == e[1..][j - 1];
        None
      case Some(i) => Some(i + 1)
  }

  /** `obj[k]`, `None` standing for `undefined`. */
  function Lookup(e: Entries, k: string): (r: Option<int>)
    ensures r.Some? <==> HasKey(e, k)
  {
    match IndexOfKey(e, k)
    case Some(i) => Some(e[i].1)
    case None => None
  }

  lemma LookupDistinct(e: Entries, i: int)
    requires DistinctKeys(e) && 0 <= i < |e|
    ensures Lookup(e, e[i].0) == Some(e[i].1)
  {
  }

  /** `obj[k] = v`: overwrites an existing key in place, appends a new one. */
  function Put(e: Entries, k: string, v: int): (r: Entries)
    ensures HasKey(e, k) ==> |r| == |e|
    ensures !HasKey(e, k) ==> r == e + [(k, v)]
    ensures forall j :: 0 <= j < |e| ==> r[j].0 == e[j].0
    ensures DistinctKeys(e) ==> DistinctKeys(r)
    ensures Lookup(r, k) == Some(v)
    ensures forall k' :: k' != k ==> Lookup(r, k') == Lookup(e, k')
  {
    match IndexOfKey(e, k)
    case Some(i) =>
      var r := e[i := (k, v)];
      assert IndexOfKey(r, k) == Some(i) by {
        assert forall j :: 0 <= j < i ==> r[j].0 != k;
        IndexOfKeyIsFirst(r, k, i);
      }
      forall k' | k' != k ensures Lookup(r, k') == Lookup(e, k') {
        IndexOfKeySameKeys(e, r, k');
      }
      r
    case None =>
      var r := e + [(k, v)];
      assert IndexOfKey(r, k) == Some(|e|) by {
        IndexOfKeyIsFirst(r, k, |e|);
      }
      forall k' | k' != k ensures Lookup(r, k') == Lookup(e, k') {
        IndexOfKeyExtend(e, (k, v), k');
      }
      r
  }

  lemma {:induction false} IndexOfKeyIsFirst(e: Entries, k: string, i: nat)
    requires i < |e| && e[i].0 == k
    requires forall j :: 0 <= j < i ==> e[j].0 != k
    ensures IndexOfKey(e, k) == Some(i)
  {
    if i > 0 {
      IndexOfKeyIsFirst(e[1..], k, i - 1);
    }
  }

  /** Two objects with the same keys at the same positions find a key at the same place. */
  lemma {:induction false} IndexOfKeySameKeys(e: Entries, r: Entries, k: string)
    requires |e| == |r| && forall j :: 0 <= j < |e| ==> e[j].0 == r[j].0
    requires forall j :: 0 <= j < |e| && e[j].0 == k ==> e[j] == r[j]
    ensures IndexOfKey(e, k) == IndexOfKey(r, k)
    ensures IndexOfKey(e, k).Some? ==> e[IndexOfKey(e, k).value] == r[IndexOfKey(e, k).value]
  {
    if e != [] && e[0].0 != k {
      IndexOfKeySameKeys(e[1..], r[1..], k);
    }
  }

  lemma {:induction false} IndexOfKeyExtend(e: Entries, x: (string, int), k: string)
    requires x.0 != k
    ensures IndexOfKey(e + [x], k) == IndexOfKey(e, k)
  {
    if e == [] {
      assert [x][1..] == [];
    } else {
      assert (e + [x])[1..] == e[1..] + [x];
      if e[0].0 != k {
        IndexOfKeyExtend(e[1..], x, k);
      }
    }
  }

  /** `Object.values(obj).reduce((sum, count) => sum + count, 0)` */
  function SumValues(e: Entries): int {
    if e == [] then 0 else e[0].1 + SumValues(e[1..])
  }
}
