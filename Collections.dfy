/**
 * Python's built-in collections as the table code uses them.
 *
 * Dictionaries are insertion ordered, as Python's `dict` is.
 * A dictionary is the sequence of its entries in insertion order, with no key
 * twice. Assigning to a key that is already present replaces its value in
 * place; assigning to a new key appends an entry; deleting a key cuts its entry
 * out and leaves every other entry in order.
 */
module Collections {
  import opened Wrappers

  predicate DistinctKeys<K(==,!new), V(!new)>(s: seq<(K, V)>) {
    forall i, j | 0 <= i < j < |s| :: s[i].0 != s[j].0
  }

  type Dict<K(==,!new), V(!new)> = s: seq<(K, V)> | DistinctKeys(s) witness []

  /** `list(d.keys())` */
  function Keys<K(==,!new), V(!new)>(d: seq<(K, V)>): (ks: seq<K>)
    ensures |ks| == |d|
    ensures forall i | 0 <= i < |d| :: ks[i] == d[i].0
  {
    seq(|d|, i requires 0 <= i < |d| => d[i].0)
  }

  /** `list(d.values())` */
  function Values<K(==,!new), V(!new)>(d: seq<(K, V)>): (vs: seq<V>)
    ensures |vs| == |d|
    ensures forall i | 0 <= i < |d| :: vs[i] == d[i].1
  {
    seq(|d|, i requires 0 <= i < |d| => d[i].1)
  }

  /** The position of key `k` in `d`. */
  function IndexOf<K(==,!new), V(!new)>(d: Dict<K, V>, k: K): (i: nat)
    requires k in Keys(d)
    ensures i < |d| && d[i].0 == k
    ensures forall j | 0 <= j < |d| && d[j].0 == k :: j == i
  {
    var i :| 0 <= i < |d| && d[i].0 == k;
    i
  }

  /** `d.get(k)` */
  function Lookup<K(==,!new), V(!new)>(d: Dict<K, V>, k: K): (r: Option<V>)
    ensures r.Some? <==> k in Keys(d)
    ensures forall i | 0 <= i < |d| && d[i].0 == k :: r == Some(d[i].1)
  {
    if k in Keys(d) then Some(d[IndexOf(d, k)].1) else None
  }

  lemma LookupOfAppend<K(!new), V(!new)>(a: Dict<K, V>, b: Dict<K, V>, k: K)
    requires DistinctKeys(a + b)
    ensures Lookup(a + b, k) == if k in Keys(a) then Lookup(a, k) else Lookup(b, k)
  {
    var ab: Dict<K, V> := a + b;
    assert Keys(ab) == Keys(a) + Keys(b);
    if k in Keys(a) {
      var i := IndexOf(a, k);
      assert ab[i] == a[i];
    } else if k in Keys(b) {
      var i := IndexOf(b, k);
      assert ab[|a| + i] == b[i];
    }
  }

  /** Cutting out the entry at position `i` forgets exactly its key. */
  lemma LookupOfCut<K(!new), V(!new)>(d: Dict<K, V>, i: nat, k': K)
    requires i < |d|
    ensures DistinctKeys(d[..i] + d[i + 1..])
    ensures Lookup(d[..i] + d[i + 1..], k') == if k' == d[i].0 then None else Lookup(d, k')
  {
    var r := d[..i] + d[i + 1..];
    assert forall j | 0 <= j < |r| :: r[j] == if j < i then d[j] else d[j + 1];
    var r': Dict<K, V> := r;
    if k' in Keys(d) && k' != d[i].0 {
      var m := IndexOf(d, k');
      var j := if m < i then m else m - 1;
      assert r'[j] == d[m];
    }
    if k' in Keys(r') {
      var j := IndexOf(r', k');
      var m := if j < i then j else j + 1;
      assert d[m] == r'[j];
    }
  }

  /** `d[k] = v`: a present key keeps its position, a new key goes last. */
  function Put<K(==,!new), V(!new)>(d: Dict<K, V>, k: K, v: V): (r: Dict<K, V>)
    ensures forall k' :: Lookup(r, k') == if k' == k then Some(v) else Lookup(d, k')
    ensures k in Keys(d) ==> Keys(r) == Keys(d) && r == d[IndexOf(d, k) := (k, v)]
    ensures k !in Keys(d) ==> Keys(r) == Keys(d) + [k] && r == d + [(k, v)]
  {
    if k in Keys(d) then
      var i := IndexOf(d, k);
      var r: Dict<K, V> := d[i := (k, v)];
      assert Keys(r) == Keys(d);
      r
    else
      var r: Dict<K, V> := d + [(k, v)];
      assert Keys(r) == Keys(d) + [k];
      assert forall k' :: Lookup(r, k') == if k' == k then Some(v) else Lookup(d, k') by {
        forall k' ensures Lookup(r, k') == if k' == k then Some(v) else Lookup(d, k') {
          LookupOfAppend(d, [(k, v)], k');
        }
      }
      r
  }

  /** Cutting out the entry at position `i` keeps every other entry and forgets exactly its key. */
  lemma CutSpec<K(!new), V(!new)>(d: Dict<K, V>, i: nat)
    requires i < |d|
    ensures DistinctKeys(d[..i] + d[i + 1..])
    ensures forall k' :: Lookup(d[..i] + d[i + 1..], k') == if k' == d[i].0 then None else Lookup(d, k')
    ensures forall e :: e in d[..i] + d[i + 1..] <==> e in d && e.0 != d[i].0
  {
    forall k' ensures Lookup(d[..i] + d[i + 1..], k') == if k' == d[i].0 then None else Lookup(d, k') {
      LookupOfCut(d, i, k');
    }
    assert d == d[..i] + [d[i]] + d[i + 1..];
  }

  /** `del d[k]` when `k in d`, nothing otherwise (`d.pop(k, None)`). */
  function Delete<K(==,!new), V(!new)>(d: Dict<K, V>, k: K): (r: Dict<K, V>)
    ensures forall k' :: Lookup(r, k') == if k' == k then None else Lookup(d, k')
    ensures forall e :: e in r <==> e in d && e.0 != k
    ensures |r| == if k in Keys(d) then |d| - 1 else |d|
    ensures k in Keys(d) ==> r == d[..IndexOf(d, k)] + d[IndexOf(d, k) + 1..]
    ensures k !in Keys(d) ==> r == d
  {
    if k in Keys(d) then
      var i := IndexOf(d, k);
      CutSpec(d, i);
      d[..i] + d[i + 1..]
    else
      d
  }

  /** `{**d, **e}`, equally `d.update(e)`: e's entries written into d in e's order. */
  function Merge<K(==,!new), V(!new)>(d: Dict<K, V>, e: Dict<K, V>): (r: Dict<K, V>)
    ensures forall k :: Lookup(r, k) == if k in Keys(e) then Lookup(e, k) else Lookup(d, k)
    ensures Keys(d) <= Keys(r)
    decreases |e|
  {
    if |e| == 0 then d
    else
      var n := |e| - 1;
      var r := Put(Merge(d, e[..n]), e[n].0, e[n].1);
      assert forall k :: Lookup(r, k) == if k in Keys(e) then Lookup(e, k) else Lookup(d, k) by {
        forall k ensures Lookup(r, k) == if k in Keys(e) then Lookup(e, k) else Lookup(d, k) {
          LookupOfAppend(e[..n], [e[n]], k);
          assert e == e[..n] + [e[n]];
        }
      }
      r
  }

  /** `for k in ks: d.pop(k, None)` */
  function DeleteAll<K(==,!new), V(!new)>(d: Dict<K, V>, ks: seq<K>): (r: Dict<K, V>)
    decreases |ks|
  {
    if |ks| == 0 then d else Delete(DeleteAll(d, ks[..|ks| - 1]), ks[|ks| - 1])
  }

  /** Deleting a list of keys removes exactly those keys and keeps every other entry. */
  lemma {:induction false} DeleteAllSpec<K(!new), V(!new)>(d: Dict<K, V>, ks: seq<K>)
    ensures forall k :: Lookup(DeleteAll(d, ks), k) == if k in ks then None else Lookup(d, k)
    ensures forall e :: e in DeleteAll(d, ks) <==> e in d && e.0 !in ks
    ensures |DeleteAll(d, ks)| <= |d|
    decreases |ks|
  {
    if |ks| > 0 {
      var n := |ks| - 1;
      DeleteAllSpec(d, ks[..n]);
      assert ks == ks[..n] + [ks[n]];
    }
  }

  /** `for k in ks: if k in d: del d[k]`, in place. */
  method DeleteEach<K(==,!new), V(!new)>(d: Dict<K, V>, ks: seq<K>) returns (r: Dict<K, V>)
    ensures r == DeleteAll(d, ks)
  {
    r := d;
    var i := 0;
    while i < |ks|
      invariant 0 <= i <= |ks|
      invariant r == DeleteAll(d, ks[..i])
    {
      if ks[i] in Keys(r) {
        r := Delete(r, ks[i]);
      }
      assert ks[..i + 1][..i] == ks[..i];
      i := i + 1;
    }
    assert ks[..i] == ks;
  }

  /** The first `m` entries of a dictionary hold exactly the keys positioned before `m`. */
  lemma LookupOfPrefix<K(!new), V(!new)>(d: Dict<K, V>, m: nat, k: K)
    requires m <= |d|
    ensures Lookup(d[..m], k) == if k in Keys(d) && IndexOf(d, k) < m then Lookup(d, k) else None
  {
    var p: Dict<K, V> := d[..m];
    if k in Keys(d) && IndexOf(d, k) < m {
      assert p[IndexOf(d, k)] == d[IndexOf(d, k)];
    }
    if k in Keys(p) {
      assert p[IndexOf(p, k)] == d[IndexOf(p, k)];
    }
  }

  /** No entry before position `i` has the key of the entry at `i`. */
  lemma PrefixLacksLaterKey<K(!new), V(!new)>(d: Dict<K, V>, i: nat)
    requires i < |d|
    ensures d[i].0 !in Keys(d[..i])
  {
    forall j | 0 <= j < i ensures Keys(d[..i])[j] != d[i].0 {
      assert d[..i][j] == d[j];
    }
  }

  /** Merging in only new keys appends them in order. */
  lemma {:induction false} MergeFresh<K(!new), V(!new)>(d: Dict<K, V>, e: Dict<K, V>)
    requires DistinctKeys(d + e)
    ensures Merge(d, e) == d + e
    decreases |e|
  {
    if |e| > 0 {
      var n := |e| - 1;
      assert (d + e)[..|d| + n] == d + e[..n];
      MergeFresh(d, e[..n]);
      var before: Dict<K, V> := d + e[..n];
      assert Keys(d + e)[|d| + n] == e[n].0;
      assert e[n].0 !in Keys(before) by {
        forall j | 0 <= j < |before| ensures before[j].0 != e[n].0 {
          assert before[j] == (d + e)[j];
        }
      }
      assert d + e == before + [e[n]];
    }
  }

  /** `dict(d)` as a mathematical map: the same keys, each with its value. */
  function ToMap<K(==,!new), V(!new)>(d: Dict<K, V>): (m: map<K, V>)
    ensures forall k :: k in m <==> k in Keys(d)
    ensures forall k | k in m :: Lookup(d, k) == Some(m[k])
  {
    map k | k in Keys(d) :: Lookup(d, k).value
  }

  /** `xs.remove(x)`: drops the first occurrence of `x` (Python raises when there is none). */
  function RemoveFirst<T(==)>(xs: seq<T>, x: T): (r: seq<T>)
    requires x in xs
    ensures |r| == |xs| - 1
  {
    if xs[0] == x then xs[1..] else [xs[0]] + RemoveFirst(xs[1..], x)
  }

  /** When `x` first occurs at position `i`, `remove` cuts out exactly that position. */
  lemma {:induction false} RemoveFirstAt<T>(xs: seq<T>, x: T, i: nat)
    requires i < |xs| && xs[i] == x && x !in xs[..i]
    ensures RemoveFirst(xs, x) == xs[..i] + xs[i + 1..]
  {
    if i > 0 {
      assert xs[1..][..i - 1] == xs[..i][1..];
      RemoveFirstAt(xs[1..], x, i - 1);
    }
  }
}
