/** An insertion-ordered table of keyed entries. It models both a JavaScript
    `Map` (the runtime's registry of live bots) and a Mongo collection read in
    natural order (users, bots and runtime records, keyed by `_id` or by a
    compound key). `Put` is `Map.prototype.set`: a present key keeps its
    position, a new key goes to the end. */
module Assoc {
  import opened Wrappers
  import Seqs

  datatype Entry<K, V> = Entry(key: K, value: V)

  predicate HasKey<K(==), V>(t: seq<Entry<K, V>>, k: K) {
    exists i :: 0 <= i < |t| && t[i].key == k
  }

  /** No two entries share a key. */
  predicate UniqueKeys<K(==), V>(t: seq<Entry<K, V>>) {
    forall i, j :: 0 <= i < j < |t| ==> t[i].key != t[j].key
  }

  /** The position of the first entry with key `k`, or -1. */
  function IndexOf<K(==), V>(t: seq<Entry<K, V>>, k: K): (i: int)
    ensures -1 <= i < |t|
    ensures i == -1 <==> !HasKey(t, k)
    ensures 0 <= i ==> t[i].key == k && forall j :: 0 <= j < i ==> t[j].key != k
  {
    if |t| == 0 then -1
    else if t[0].key == k then 0
    else
      var j := IndexOf(t[1..], k);
      assert j >= 0 ==> t[j + 1] == t[1..][j];
      if j < 0 then -1 else j + 1
  }

  /** Two tables with the same keys position by position find every key at
      the same index. */
  lemma SameKeysSameIndex<K, V>(t: seq<Entry<K, V>>, u: seq<Entry<K, V>>, k: K)
    requires |t| == |u|
    requires forall j :: 0 <= j < |t| ==> t[j].key == u[j].key
    ensures IndexOf(t, k) == IndexOf(u, k)
  {
    var a, b := IndexOf(t, k), IndexOf(u, k);
    if a >= 0 && b >= 0 {
      assert !(a < b) && !(b < a);
    }
  }

  /** `Map.prototype.get`: the value of the first entry with key `k`. */
  function Find<K(==), V>(t: seq<Entry<K, V>>, k: K): (r: Option<V>)
    ensures r.None? <==> !HasKey(t, k)
    ensures r.Some? ==> exists i :: 0 <= i < |t| && t[i] == Entry(k, r.value)
  {
    var i := IndexOf(t, k);
    if i < 0 then None else Some(t[i].value)
  }

  /** With unique keys, an entry of the table is what `Find` returns for it. */
  lemma FindEntry<K, V>(t: seq<Entry<K, V>>, i: int)
    requires UniqueKeys(t)
    requires 0 <= i < |t|
    ensures Find(t, t[i].key) == Some(t[i].value)
  {
    var j := IndexOf(t, t[i].key);
    assert !(j < i) && !(i < j);
  }

  /** Appending an entry with a fresh key leaves every other lookup as it was. */
  lemma FindAppend<K, V>(t: seq<Entry<K, V>>, e: Entry<K, V>, k: K)
    requires k != e.key
    ensures Find(t + [e], k) == Find(t, k)
  {
    var u := t + [e];
    var a, b := IndexOf(t, k), IndexOf(u, k);
    assert u[|t|] == e;
    assert forall j :: 0 <= j < |t| ==> u[j] == t[j];
    if b >= 0 {
      assert HasKey(t, k);
      assert !(a < b) && !(b < a);
    } else {
      assert !HasKey(t, k);
    }
  }

  /** `Map.prototype.delete`: every entry with key `k` goes, the others keep
      their order. */
  function Remove<K(==), V>(t: seq<Entry<K, V>>, k: K): (r: seq<Entry<K, V>>)
    ensures !HasKey(r, k)
    ensures forall i :: 0 <= i < |r| ==> r[i] in t && r[i].key != k
    ensures forall i :: 0 <= i < |t| && t[i].key != k ==> t[i] in r
    ensures !HasKey(t, k) ==> r == t
  {
    if |t| == 0 then []
    else if t[0].key == k then Remove(t[1..], k)
    else
      var rest := Remove(t[1..], k);
      assert !HasKey(t[1..], k) ==> rest == t[1..];
      assert forall i :: 1 <= i < |t| ==> t[i] == t[1..][i - 1];
      [t[0]] + rest
  }

  /** A suffix of a table with unique keys has unique keys. */
  lemma TailUnique<K, V>(t: seq<Entry<K, V>>)
    requires |t| > 0 && UniqueKeys(t)
    ensures UniqueKeys(t[1..])
    ensures !HasKey(t[1..], t[0].key)
  {
    forall j | 0 <= j < |t[1..]| ensures t[1..][j] == t[j + 1] { }
  }

  /** Deleting from a table with unique keys keeps them unique. */
  lemma {:induction false} RemoveUnique<K, V>(t: seq<Entry<K, V>>, k: K)
    requires UniqueKeys(t)
    ensures UniqueKeys(Remove(t, k))
  {
    if |t| > 0 {
      TailUnique(t);
      var rest := Remove(t[1..], k);
      RemoveUnique(t[1..], k);
      if t[0].key != k {
        forall j | 0 <= j < |rest| ensures rest[j].key != t[0].key {
          var m :| 0 <= m < |t[1..]| && t[1..][m] == rest[j];
        }
        assert Remove(t, k) == [t[0]] + rest;
      }
    }
  }

  /** Removing a key from a table with unique keys that starts with that
      key leaves the tail. */
  lemma RemoveHead<K, V>(t: seq<Entry<K, V>>, k: K)
    requires UniqueKeys(t) && |t| > 0 && t[0].key == k
    ensures Remove(t, k) == t[1..]
    ensures Remove(t, k) == t[..IndexOf(t, k)] + t[IndexOf(t, k) + 1..]
  {
    TailUnique(t);
    assert IndexOf(t, k) == 0;
    assert t[..0] + t[1..] == t[1..];
  }

  /** Cutting position `x` out of the tail, below the head, is cutting
      position `x + 1` out of the whole sequence. */
  lemma CutBelowHead<T>(t: seq<T>, x: int)
    requires 0 <= x < |t| - 1
    ensures [t[0]] + (t[1..][..x] + t[1..][x + 1..]) == t[..x + 1] + t[x + 2..]
  {
    assert t[..x + 1] == [t[0]] + t[1..][..x];
    assert t[x + 2..] == t[1..][x + 1..];
  }

  /** Below a head with another key, dropping the key's entry from the tail
      drops it from the whole table. */
  lemma RemoveCons<K, V>(t: seq<Entry<K, V>>, k: K)
    requires |t| > 0 && t[0].key != k && HasKey(t[1..], k)
    requires Remove(t[1..], k) == t[1..][..IndexOf(t[1..], k)] + t[1..][IndexOf(t[1..], k) + 1..]
    ensures Remove(t, k) == t[..IndexOf(t, k)] + t[IndexOf(t, k) + 1..]
  {
    var x := IndexOf(t[1..], k);
    assert IndexOf(t, k) == x + 1;
    CutBelowHead(t, x);
  }

  /** With unique keys, removing a key drops exactly its entry and keeps the
      order of the others. */
  lemma {:induction false} RemoveAt<K, V>(t: seq<Entry<K, V>>, k: K)
    requires UniqueKeys(t) && HasKey(t, k)
    ensures Remove(t, k) == t[..IndexOf(t, k)] + t[IndexOf(t, k) + 1..]
  {
    if t[0].key == k {
      RemoveHead(t, k);
    } else {
      var rest := t[1..];
      assert UniqueKeys(rest) && HasKey(rest, k) by {
        TailUnique(t);
        var j :| 0 <= j < |t| && t[j].key == k;
        assert rest[j - 1].key == k;
      }
      RemoveAt(rest, k);
      RemoveCons(t, k);
    }
  }

  /** Deleting a present key from a table with unique keys removes exactly
      one entry. */
  lemma {:induction false} RemoveLength<K, V>(t: seq<Entry<K, V>>, k: K)
    requires UniqueKeys(t) && HasKey(t, k)
    ensures |Remove(t, k)| == |t| - 1
  {
    TailUnique(t);
    if t[0].key != k {
      var j :| 0 <= j < |t| && t[j].key == k;
      assert t[1..][j - 1].key == k;
      RemoveLength(t[1..], k);
    }
  }

  /** Deleting `k` does not change the lookup of any other key. */
  lemma {:induction false} FindRemove<K, V>(t: seq<Entry<K, V>>, k: K, k': K)
    requires k' != k
    ensures Find(Remove(t, k), k') == Find(t, k')
  {
    if |t| > 0 {
      FindRemove(t[1..], k, k');
      if t[0].key != k && t[0].key != k' {
        var r := Remove(t, k);
        assert r == [t[0]] + Remove(t[1..], k);
        assert r[1..] == Remove(t[1..], k);
      }
    }
  }

  /** `Map.prototype.set`. */
  function Put<K(==), V>(t: seq<Entry<K, V>>, k: K, v: V): (r: seq<Entry<K, V>>)
    ensures Find(r, k) == Some(v)
    ensures HasKey(r, k)
    ensures !HasKey(t, k) ==> r == t + [Entry(k, v)]
    ensures HasKey(t, k) ==>
              && |r| == |t|
              && r[IndexOf(t, k)] == Entry(k, v)
              && forall j :: 0 <= j < |t| && j != IndexOf(t, k) ==> r[j] == t[j]
    ensures UniqueKeys(t) ==> UniqueKeys(r)
  {
    var i := IndexOf(t, k);
    if i < 0 then
      var r := t + [Entry(k, v)];
      assert r[|t|] == Entry(k, v);
      assert IndexOf(r, k) == |t|;
      r
    else
      var r := t[i := Entry(k, v)];
      SameKeysSameIndex(t, r, k);
      r
  }

  /** Setting `k` does not change the lookup of any other key. */
  lemma FindPut<K, V>(t: seq<Entry<K, V>>, k: K, v: V, k': K)
    requires k' != k
    ensures Find(Put(t, k, v), k') == Find(t, k')
  {
    var i := IndexOf(t, k);
    if i < 0 {
      FindAppend(t, Entry(k, v), k');
    } else {
      var r := t[i := Entry(k, v)];
      SameKeysSameIndex(t, r, k');
    }
  }

  /** Filtering a table (a query on a collection) keeps its keys unique. */
  lemma {:induction false} FilterKeepsUnique<K, V>(t: seq<Entry<K, V>>, p: Entry<K, V> -> bool)
    requires UniqueKeys(t)
    ensures UniqueKeys(Seqs.Filter(t, p))
  {
    if |t| > 0 {
      var rest := Seqs.Filter(t[1..], p);
      FilterKeepsUnique(t[1..], p);
      if p(t[0]) {
        forall j | 0 <= j < |rest| ensures rest[j].key != t[0].key {
          var m :| 0 <= m < |t[1..]| && t[1..][m] == rest[j];
          assert t[m + 1] == rest[j];
        }
        assert Seqs.Filter(t, p) == [t[0]] + rest;
      }
    }
  }
}
