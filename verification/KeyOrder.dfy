/** Rows ordered by (time, id), in either direction, as `ORDER BY created_at, id` does. */
module KeyOrder {

  datatype Key = Key(at: int, id: int)

  predicate Less(a: Key, b: Key) {
    a.at < b.at || (a.at == b.at && a.id < b.id)
  }

  /** `a` is listed before `b`. */
  predicate Before(desc: bool, a: Key, b: Key) {
    if desc then Less(b, a) else Less(a, b)
  }

  predicate Ordered(desc: bool, keys: seq<Key>) {
    forall i, j :: 0 <= i < j < |keys| ==> Before(desc, keys[i], keys[j])
  }

  lemma {:induction false} FirstExists(desc: bool, s: set<Key>)
    requires s != {}
    ensures exists k :: k in s && forall y :: y in s && y != k ==> Before(desc, k, y)
  {
    var x :| x in s;
    if s != {x} {
      var rest := s - {x};
      assert rest != {};
      FirstExists(desc, rest);
      var m :| m in rest && forall y :: y in rest && y != m ==> Before(desc, m, y);
      var k := if Before(desc, x, m) then x else m;
      forall y | y in s && y != k ensures Before(desc, k, y) {
        assert y == x || y in rest;
      }
    }
  }

  function First(desc: bool, s: set<Key>): (k: Key)
    requires s != {}
    ensures k in s && forall y :: y in s && y != k ==> Before(desc, k, y)
  {
    FirstExists(desc, s);
    var k :| k in s && forall y :: y in s && y != k ==> Before(desc, k, y);
    k
  }

  /** The keys of `s`, each once, in listing order. */
  function Sorted(desc: bool, s: set<Key>): seq<Key> {
    if s == {} then [] else
    var k := First(desc, s);
    [k] + Sorted(desc, s - {k})
  }

  lemma PutFirst(desc: bool, k: Key, rest: seq<Key>)
    requires Ordered(desc, rest) && forall y :: y in rest ==> Before(desc, k, y)
    ensures Ordered(desc, [k] + rest) && forall y :: y in [k] + rest <==> y == k || y in rest
  {
    var all := [k] + rest;
    forall i, j | 0 <= i < j < |all| ensures Before(desc, all[i], all[j]) {
      assert all[j] == rest[j - 1] && rest[j - 1] in rest;
      assert i > 0 ==> all[i] == rest[i - 1];
    }
  }

  lemma {:induction false} SortedIsListing(desc: bool, s: set<Key>)
    ensures |Sorted(desc, s)| == |s|
    ensures forall k :: k in Sorted(desc, s) <==> k in s
    ensures Ordered(desc, Sorted(desc, s))
  {
    if s != {} {
      var k := First(desc, s);
      var rest := Sorted(desc, s - {k});
      SortedIsListing(desc, s - {k});
      hide Before, Ordered, First;
      PutFirst(desc, k, rest);
      assert Sorted(desc, s) == [k] + rest;
    }
  }

  lemma RestOfListing(desc: bool, r: seq<Key>)
    requires Ordered(desc, r) && r != []
    ensures forall y :: y in r[1..] <==> y in r && y != r[0]
    ensures Ordered(desc, r[1..])
  {
  }

  /** There is only one listing of a set. */
  lemma {:induction false} ListingIsUnique(desc: bool, s: set<Key>, r: seq<Key>)
    requires Ordered(desc, r) && forall k :: k in r <==> k in s
    ensures r == Sorted(desc, s)
    decreases |r|
  {
    if r == [] {
      assert s == {};
    } else {
      assert r[0] in s;
      var k := First(desc, s);
      RestOfListing(desc, r);
      assert r[0] == k by {
        assert k in r && r[0] in s;
        var i :| 0 <= i < |r| && r[i] == k;
        assert i == 0 || Before(desc, r[0], r[i]);
      }
      ListingIsUnique(desc, s - {k}, r[1..]);
      assert r == [k] + r[1..];
    }
  }

  /** The part of `s` listed after `k`. */
  function After(desc: bool, s: set<Key>, k: Key): set<Key> {
    set y | y in s && Before(desc, k, y)
  }

  lemma CutIsAfter(desc: bool, r: seq<Key>, n: nat, k: Key)
    requires Ordered(desc, r) && 0 < n <= |r|
    ensures k in r[n..] <==> k in r && Before(desc, r[n - 1], k)
  {
    if k in r[n..] {
      var i :| 0 <= i < |r[n..]| && r[n..][i] == k;
      assert r[n + i] == k;
    }
    if k in r && Before(desc, r[n - 1], k) {
      var i :| 0 <= i < |r| && r[i] == k;
      assert i < n - 1 ==> Before(desc, r[i], r[n - 1]);
      assert r[n..][i - n] == k;
    }
  }

  /** Cutting a listing anywhere leaves the listing of what comes after the cut. */
  lemma TailIsListing(desc: bool, s: set<Key>, n: nat)
    requires 0 < n <= |Sorted(desc, s)|
    ensures Sorted(desc, s)[n..] == Sorted(desc, After(desc, s, Sorted(desc, s)[n - 1]))
  {
    var r := Sorted(desc, s);
    SortedIsListing(desc, s);
    var rest := After(desc, s, r[n - 1]);
    hide Before;
    forall k ensures k in r[n..] <==> k in rest {
      CutIsAfter(desc, r, n, k);
    }
    ListingIsUnique(desc, rest, r[n..]);
  }
}
