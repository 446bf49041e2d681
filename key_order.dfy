/**
 * The order a `BTreeMap<Vec<u8>, _>` keeps its keys in: lexicographic on
 * bytes, a proper prefix before its extensions. The cache drains its buffer
 * in this order, so the module also gives the ascending enumeration of a
 * finite key set.
 */
module KeyOrder {
  import opened Types

  /** Strict lexicographic order on byte strings (`Ord for Vec<u8>`). */
  predicate Less(a: Key, b: Key)
    decreases |a|
  {
    if |b| == 0 then false
    else if |a| == 0 then true
    else if a[0] != b[0] then a[0] < b[0]
    else Less(a[1..], b[1..])
  }

  lemma {:induction false} LessIrreflexive(a: Key)
    ensures !Less(a, a)
    decreases |a|
  {
    if |a| > 0 {
      LessIrreflexive(a[1..]);
    }
  }

  lemma {:induction false} LessTransitive(a: Key, b: Key, c: Key)
    requires Less(a, b) && Less(b, c)
    ensures Less(a, c)
    decreases |a|
  {
    if |a| > 0 && a[0] == b[0] && b[0] == c[0] {
      LessTransitive(a[1..], b[1..], c[1..]);
    }
  }

  lemma {:induction false} LessTotal(a: Key, b: Key)
    requires a != b
    ensures Less(a, b) || Less(b, a)
    decreases |a|
  {
    if |a| > 0 && |b| > 0 && a[0] == b[0] {
      assert a == [a[0]] + a[1..] && b == [b[0]] + b[1..];
      LessTotal(a[1..], b[1..]);
    }
  }

  /** `k` is the least key of `s`. */
  predicate IsLeast(k: Key, s: set<Key>) {
    k in s && forall o :: o in s && o != k ==> Less(k, o)
  }

  lemma {:induction false} LeastExists(s: set<Key>)
    requires s != {}
    ensures exists k :: IsLeast(k, s)
    decreases |s|
  {
    var x :| x in s;
    if s == {x} {
      assert IsLeast(x, s);
    } else {
      var rest := s - {x};
      LeastExists(rest);
      var m :| IsLeast(m, rest);
      if Less(m, x) {
        forall o | o in s && o != m
          ensures Less(m, o)
        {
          if o == x { } else { assert o in rest; }
        }
        assert IsLeast(m, s);
      } else {
        LessTotal(m, x);
        forall o | o in s && o != x
          ensures Less(x, o)
        {
          if o != m {
            LessTransitive(x, m, o);
          }
        }
        assert IsLeast(x, s);
      }
    }
  }

  lemma LeastUnique(j: Key, k: Key, s: set<Key>)
    requires IsLeast(j, s) && IsLeast(k, s)
    ensures j == k
  {
    if j != k {
      LessTransitive(j, k, j);
      LessIrreflexive(j);
    }
  }

  /** Strictly ascending: every key before a later one, hence no key twice. */
  predicate StrictlyAscending(ks: seq<Key>) {
    forall i, j :: 0 <= i < j < |ks| ==> Less(ks[i], ks[j])
  }

  /** The keys of `s` in ascending order, the order `for (k, v) in map` visits them. */
  ghost function SortedKeys(s: set<Key>): (r: seq<Key>)
    ensures |r| == |s|
    ensures forall k :: k in r <==> k in s
    ensures StrictlyAscending(r)
    decreases |s|
  {
    if s == {} then []
    else
      LeastExists(s);
      var k :| IsLeast(k, s);
      var rest := SortedKeys(s - {k});
      ConsAscending(k, rest, s);
      [k] + rest
  }

  /** Putting the least key in front of an ascending listing of the others keeps it ascending. */
  lemma ConsAscending(k: Key, rest: seq<Key>, s: set<Key>)
    requires IsLeast(k, s) && StrictlyAscending(rest)
    requires forall o :: o in rest <==> o in s - {k}
    ensures StrictlyAscending([k] + rest)
  {
    var r := [k] + rest;
    forall i, j | 0 <= i < j < |r|
      ensures Less(r[i], r[j])
    {
      assert r[j] == rest[j - 1] && r[j] in rest;
      if i > 0 {
        assert r[i] == rest[i - 1];
      }
    }
  }

  /** The head of a strictly ascending listing is the least key it lists. */
  lemma HeadIsLeast(ks: seq<Key>, s: set<Key>)
    requires ks != [] && StrictlyAscending(ks)
    requires forall k :: k in ks <==> k in s
    ensures IsLeast(ks[0], s)
    ensures forall o :: o in ks[1..] <==> o in s - {ks[0]}
  {
    forall o | o in s && o != ks[0]
      ensures Less(ks[0], o)
    {
      var i :| 0 <= i < |ks| && ks[i] == o;
    }
    forall o
      ensures o in ks[1..] <==> o in s - {ks[0]}
    {
      if o in ks[1..] {
        var i :| 0 <= i < |ks[1..]| && ks[1..][i] == o;
        assert Less(ks[0], ks[i + 1]);
        LessIrreflexive(ks[0]);
      }
      if o in s - {ks[0]} {
        var i :| 0 <= i < |ks| && ks[i] == o;
        assert ks[1..][i - 1] == o;
      }
    }
  }

  lemma ListedKeyIsMember(ks: seq<Key>, s: set<Key>)
    requires ks != []
    requires forall k :: k in ks <==> k in s
    ensures ks[0] in s
  {
  }

  /** Two strictly ascending listings of the same keys are the same sequence. */
  lemma {:induction false} AscendingUnique(a: seq<Key>, b: seq<Key>, s: set<Key>)
    requires StrictlyAscending(a) && StrictlyAscending(b)
    requires forall k :: k in a <==> k in s
    requires forall k :: k in b <==> k in s
    ensures a == b
    decreases |a|
  {
    if a == [] {
      if b != [] {
        ListedKeyIsMember(b, s);
        assert false;
      }
    } else {
      assert a[0] in s;
      HeadIsLeast(a, s);
      HeadIsLeast(b, s);
      LeastUnique(a[0], b[0], s);
      AscendingUnique(a[1..], b[1..], s - {a[0]});
      assert a == [a[0]] + a[1..] && b == [b[0]] + b[1..];
    }
  }

  /** Draining one least key at a time walks `SortedKeys` from the front. */
  lemma SortedKeysFromLeast(s: set<Key>, k: Key)
    requires IsLeast(k, s)
    ensures SortedKeys(s) == [k] + SortedKeys(s - {k})
  {
    var r := SortedKeys(s);
    HeadIsLeast(r, s);
    LeastUnique(r[0], k, s);
    AscendingUnique(r[1..], SortedKeys(s - {k}), s - {k});
    assert r == [r[0]] + r[1..];
  }
}
