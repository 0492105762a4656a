/**
  Python's insertion-ordered dictionary keyed by strings, as a sequence of
  entries: assignment replaces a present key in place and appends a new
  one, so the keys stay unique and keep the order of first insertion.
 */
module OrderedMaps {
  import opened Strings

  datatype Entry<V> = Entry(key: string, value: V)

  function Keys<V>(m: seq<Entry<V>>): (ks: seq<string>)
    ensures |ks| == |m|
    ensures forall i :: 0 <= i < |m| ==> ks[i] == m[i].key
  {
    seq(|m|, i requires 0 <= i < |m| => m[i].key)
  }

  predicate UniqueKeys<V>(m: seq<Entry<V>>) {
    forall i, j :: 0 <= i < j < |m| ==> m[i].key != m[j].key
  }

  /** The position of key `k`, or -1 when it is absent. */
  function KeyIndex<V>(m: seq<Entry<V>>, k: string): (i: int)
    ensures -1 <= i < |m|
    ensures i >= 0 ==> m[i].key == k && forall j :: 0 <= j < i ==> m[j].key != k
    ensures i == -1 ==> forall j :: 0 <= j < |m| ==> m[j].key != k
  {
    if |m| == 0 then -1
    else if m[0].key == k then 0
    else
      var r := KeyIndex(m[1..], k);
      if r == -1 then -1 else r + 1
  }

  /** The position of the last entry with key `k`, or -1: what a loop
      that records the index of every match is left with. */
  function LastKeyIndex<V>(m: seq<Entry<V>>, k: string): (i: int)
    ensures -1 <= i < |m|
  {
    if |m| == 0 then -1
    else if m[|m| - 1].key == k then |m| - 1
    else LastKeyIndex(m[..|m| - 1], k)
  }

  /** The last match is -1 exactly when no entry has the key. */
  lemma {:induction false} LastKeyIndexAbsent<V>(m: seq<Entry<V>>, k: string)
    ensures LastKeyIndex(m, k) == -1 <==> forall j :: 0 <= j < |m| ==> m[j].key != k
    ensures LastKeyIndex(m, k) >= 0 ==> m[LastKeyIndex(m, k)].key == k
    decreases |m|
  {
    if |m| > 0 {
      LastKeyIndexAbsent(m[..|m| - 1], k);
    }
  }

  /** In a map with unique keys the last match is the only one. */
  lemma {:induction false} LastKeyIndexUnique<V>(m: seq<Entry<V>>, k: string)
    requires UniqueKeys(m)
    ensures LastKeyIndex(m, k) == KeyIndex(m, k)
    decreases |m|
  {
    if |m| > 0 {
      var p := m[..|m| - 1];
      LastKeyIndexUnique(p, k);
      if m[|m| - 1].key == k {
        KeyIndexIs(m, k, |m| - 1);
      } else {
        KeyIndexIs(m, k, KeyIndex(p, k));
      }
    }
  }

  function Lookup<V>(m: seq<Entry<V>>, k: string): Option<V> {
    var i := KeyIndex(m, k);
    if i >= 0 then Some(m[i].value) else None
  }

  /** `m[k] = c` on an insertion-ordered dictionary. */
  function Put<V>(m: seq<Entry<V>>, k: string, c: V): seq<Entry<V>> {
    var i := KeyIndex(m, k);
    if i >= 0 then m[i := Entry(k, c)] else m + [Entry(k, c)]
  }

  /** After `m[k] = c` the key maps to `c` and every other key to what it
      mapped to before; an existing key keeps its position, a new key goes
      to the end, and keys stay unique. */
  lemma {:induction false} PutMeaning<V>(m: seq<Entry<V>>, k: string, c: V)
    ensures Lookup(Put(m, k, c), k) == Some(c)
    ensures forall k' :: k' != k ==> Lookup(Put(m, k, c), k') == Lookup(m, k')
    ensures KeyIndex(m, k) >= 0 ==> Keys(Put(m, k, c)) == Keys(m)
    ensures KeyIndex(m, k) == -1 ==> Keys(Put(m, k, c)) == Keys(m) + [k]
    ensures UniqueKeys(m) ==> UniqueKeys(Put(m, k, c))
  {
    if KeyIndex(m, k) >= 0 {
      PutExisting(m, k, c);
    } else {
      PutNew(m, k, c);
    }
  }

  lemma {:induction false} PutExisting<V>(m: seq<Entry<V>>, k: string, c: V)
    requires KeyIndex(m, k) >= 0
    ensures KeyIndex(Put(m, k, c), k) == KeyIndex(m, k)
    ensures forall k' :: k' != k ==> KeyIndex(Put(m, k, c), k') == KeyIndex(m, k')
    ensures Keys(Put(m, k, c)) == Keys(m)
    ensures UniqueKeys(m) ==> UniqueKeys(Put(m, k, c))
  {
    var r := Put(m, k, c);
    KeyIndexIs(r, k, KeyIndex(m, k));
    forall k' | k' != k
      ensures KeyIndex(r, k') == KeyIndex(m, k')
    {
      KeyIndexIs(r, k', KeyIndex(m, k'));
    }
  }

  lemma {:induction false} PutNew<V>(m: seq<Entry<V>>, k: string, c: V)
    requires KeyIndex(m, k) == -1
    ensures KeyIndex(Put(m, k, c), k) == |m|
    ensures forall k' :: k' != k ==> KeyIndex(Put(m, k, c), k') == KeyIndex(m, k')
    ensures Keys(Put(m, k, c)) == Keys(m) + [k]
    ensures UniqueKeys(m) ==> UniqueKeys(Put(m, k, c))
  {
    var r := Put(m, k, c);
    KeyIndexIs(r, k, |m|);
    forall k' | k' != k
      ensures KeyIndex(r, k') == KeyIndex(m, k')
    {
      KeyIndexIs(r, k', KeyIndex(m, k'));
    }
  }

  /** KeyIndex is the one position that is the first occurrence of `k`, or -1. */
  lemma {:induction false} KeyIndexIs<V>(m: seq<Entry<V>>, k: string, i: int)
    requires -1 <= i < |m|
    requires i >= 0 ==> m[i].key == k
    requires forall j :: 0 <= j < |m| && (i == -1 || j < i) ==> m[j].key != k
    ensures KeyIndex(m, k) == i
  {
  }

  /** The entries whose key is not `k`, in order. */
  function Remove<V>(m: seq<Entry<V>>, k: string): seq<Entry<V>> {
    if |m| == 0 then []
    else
      var e := m[|m| - 1];
      Remove(m[..|m| - 1], k) + (if e.key != k then [e] else [])
  }

  lemma {:induction false} RemoveSnoc<V>(m: seq<Entry<V>>, e: Entry<V>, k: string)
    ensures Remove(m + [e], k) == Remove(m, k) + (if e.key != k then [e] else [])
  {
    assert (m + [e])[..|m|] == m;
  }

  /** Removing a key keeps exactly the other entries, and keeps them in order. */
  lemma {:induction false} RemoveMeaning<V>(m: seq<Entry<V>>, k: string)
    ensures forall e :: e in Remove(m, k) <==> e in m && e.key != k
    ensures KeyIndex(m, k) == -1 ==> Remove(m, k) == m
    ensures UniqueKeys(m) && KeyIndex(m, k) >= 0 ==> Remove(m, k) == m[..KeyIndex(m, k)] + m[KeyIndex(m, k) + 1..]
  {
    RemoveMembers(m, k);
    if KeyIndex(m, k) == -1 {
      RemoveAbsent(m, k);
    } else if UniqueKeys(m) {
      RemoveUnique(m, k);
    }
  }

  lemma {:induction false} RemoveMembers<V>(m: seq<Entry<V>>, k: string)
    ensures forall e :: e in Remove(m, k) <==> e in m && e.key != k
    decreases |m|
  {
    if |m| > 0 {
      var p := m[..|m| - 1];
      RemoveMembers(p, k);
      assert m == p + [m[|m| - 1]];
    }
  }

  lemma {:induction false} RemoveAbsent<V>(m: seq<Entry<V>>, k: string)
    requires KeyIndex(m, k) == -1
    ensures Remove(m, k) == m
    decreases |m|
  {
    if |m| > 0 {
      var p := m[..|m| - 1];
      KeyIndexIs(p, k, -1);
      RemoveAbsent(p, k);
      assert m == p + [m[|m| - 1]];
    }
  }

  /** With unique keys, removing a present key cuts out its one entry. */
  lemma {:induction false} RemoveUnique<V>(m: seq<Entry<V>>, k: string)
    requires UniqueKeys(m)
    requires KeyIndex(m, k) >= 0
    ensures Remove(m, k) == m[..KeyIndex(m, k)] + m[KeyIndex(m, k) + 1..]
    decreases |m|
  {
    var p := m[..|m| - 1];
    if KeyIndex(m, k) == |m| - 1 {
      RemoveUniqueLast(m, k);
    } else {
      KeyIndexIs(p, k, KeyIndex(m, k));
      RemoveUnique(p, k);
      RemoveUniqueInner(m, k);
    }
  }

  lemma {:induction false} RemoveUniqueLast<V>(m: seq<Entry<V>>, k: string)
    requires UniqueKeys(m)
    requires |m| > 0 && KeyIndex(m, k) == |m| - 1
    ensures Remove(m, k) == m[..|m| - 1]
  {
    var p := m[..|m| - 1];
    KeyIndexIs(p, k, -1);
    RemoveAbsent(p, k);
  }

  lemma {:induction false} RemoveUniqueInner<V>(m: seq<Entry<V>>, k: string)
    requires UniqueKeys(m)
    requires 0 <= KeyIndex(m, k) < |m| - 1
    requires KeyIndex(m[..|m| - 1], k) == KeyIndex(m, k)
    requires Remove(m[..|m| - 1], k) == m[..KeyIndex(m, k)] + m[KeyIndex(m, k) + 1..|m| - 1]
    ensures Remove(m, k) == m[..KeyIndex(m, k)] + m[KeyIndex(m, k) + 1..]
  {
    var i := KeyIndex(m, k);
    var p := m[..|m| - 1];
    var e := m[|m| - 1];
    assert e.key != k by {
      assert m[i].key == k;
    }
    assert Remove(m, k) == Remove(p, k) + [e];
    assert m[i + 1..] == m[i + 1..|m| - 1] + [e];
  }

  lemma {:induction false} KeysCut<V>(m: seq<Entry<V>>, i: nat)
    requires i < |m|
    ensures Keys(m[..i] + m[i + 1..]) == Keys(m)[..i] + Keys(m)[i + 1..]
  {
  }
}
