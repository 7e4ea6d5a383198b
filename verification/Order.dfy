/** The store's one ordering: by creation instant, then by id. */
module Order {

  /** A row's position: `(created_at, id)`. */
  datatype Key = Key(at: nat, id: nat)

  predicate Less(a: Key, b: Key) {
    a.at < b.at || (a.at == b.at && a.id < b.id)
  }

  predicate Ascending(keys: seq<Key>) {
    forall i, j | 0 <= i < j < |keys| :: Less(keys[i], keys[j])
  }

  predicate IsLeast(keys: set<Key>, k: Key) {
    k in keys && forall x | x in keys && x != k :: Less(k, x)
  }

  lemma {:induction false} HasLeast(keys: set<Key>)
    requires keys != {}
    ensures exists k :: IsLeast(keys, k)
    decreases |keys|
  {
    var x :| x in keys;
    if keys == {x} {
      assert IsLeast(keys, x);
    } else {
      HasLeast(keys - {x});
      var k :| IsLeast(keys - {x}, k);
      var least := if Less(x, k) then x else k;
      forall y | y in keys && y != least ensures Less(least, y) {
        assert y != x ==> y in keys - {x};
      }
      assert IsLeast(keys, least);
    }
  }

  /** A set of keys in order: what `ORDER BY created_at, id` returns. */
  function Sorted(keys: set<Key>): (s: seq<Key>)
    ensures Ascending(s)
    ensures |s| == |keys| && forall k :: k in s <==> k in keys
    decreases |keys|
  {
    if keys == {} then []
    else
      HasLeast(keys);
      var least :| IsLeast(keys, least);
      [least] + Sorted(keys - {least})
  }

  lemma InTail(s: seq<Key>, k: Key)
    requires s != [] && Ascending(s)
    ensures k in s[1..] <==> k in s && k != s[0]
  {
    if k in s[1..] {
      var i :| 0 <= i < |s[1..]| && s[1..][i] == k;
      assert Less(s[0], s[i + 1]);
    }
  }

  /** Only one ascending sequence holds a given set of keys. */
  lemma {:induction false} AscendingUnique(s: seq<Key>, t: seq<Key>)
    requires Ascending(s) && Ascending(t)
    requires forall k :: k in s <==> k in t
    ensures s == t
    decreases |s|
  {
    assert s != [] ==> s[0] in t;
    assert t != [] ==> t[0] in s;
    if s != [] {
      var i :| 0 <= i < |t| && t[i] == s[0];
      var j :| 0 <= j < |s| && s[j] == t[0];
      assert s[0] == t[0];
      forall k ensures k in s[1..] <==> k in t[1..] {
        InTail(s, k);
        InTail(t, k);
      }
      AscendingUnique(s[1..], t[1..]);
    }
  }

  /** Appending a later key to an ordered listing lists it last. */
  lemma SortedAppend(keys: set<Key>, k: Key)
    requires forall x | x in keys :: Less(x, k)
    ensures Sorted(keys + {k}) == Sorted(keys) + [k]
  {
    AscendingUnique(Sorted(keys + {k}), Sorted(keys) + [k]);
  }

  lemma LastIsGreatest(keys: set<Key>)
    requires keys != {}
    ensures var sorted := Sorted(keys);
      sorted != [] && sorted[|sorted| - 1] in keys && forall k | k in keys && k != sorted[|sorted| - 1] :: Less(k, sorted[|sorted| - 1])
  {
    var sorted := Sorted(keys);
    var last := sorted[|sorted| - 1];
    assert last in sorted;
    forall k | k in keys && k != last ensures Less(k, last) {
      assert k in sorted;
      var i :| 0 <= i < |sorted| && sorted[i] == k;
      assert Less(sorted[i], sorted[|sorted| - 1]);
    }
  }
}
