/**
 * The order metadata keys are sorted by: lexicographic comparison of the
 * keys' characters, a strict total order. The lemmas below establish that it
 * is one, and that every finite non-empty set of keys has a least element.
 */
module StringOrder {

  /** `a` sorts strictly before `b`. */
  predicate Less(a: string, b: string)
    decreases |a|
  {
    0 < |b| && (|a| == 0 || a[0] < b[0] || (a[0] == b[0] && Less(a[1..], b[1..])))
  }

  lemma {:induction false} LessIrreflexive(a: string)
    ensures !Less(a, a)
    decreases |a|
  {
    if 0 < |a| {
      LessIrreflexive(a[1..]);
    }
  }

  lemma {:induction false} LessTransitive(a: string, b: string, c: string)
    requires Less(a, b) && Less(b, c)
    ensures Less(a, c)
    decreases |a|
  {
    if 0 < |a| && a[0] == b[0] && b[0] == c[0] {
      LessTransitive(a[1..], b[1..], c[1..]);
    }
  }

  lemma LessAsymmetric(a: string, b: string)
    requires Less(a, b)
    ensures !Less(b, a)
  {
    if Less(b, a) {
      LessTransitive(a, b, a);
      LessIrreflexive(a);
    }
  }

  lemma {:induction false} LessTotal(a: string, b: string)
    requires a != b
    ensures Less(a, b) || Less(b, a)
    decreases |a|
  {
    if 0 < |a| && 0 < |b| && a[0] == b[0] {
      assert a == [a[0]] + a[1..] && b == [b[0]] + b[1..];
      LessTotal(a[1..], b[1..]);
    }
  }

  /** `k` is the least element of `s`. */
  predicate IsLeast(k: string, s: set<string>) {
    k in s && forall y :: y in s && y != k ==> Less(k, y)
  }

  /** `k` is the greatest element of `s`. */
  predicate IsGreatest(k: string, s: set<string>) {
    k in s && forall y :: y in s && y != k ==> Less(y, k)
  }

  lemma {:induction false} LeastExists(s: set<string>)
    requires s != {}
    ensures exists k :: IsLeast(k, s)
    decreases |s|
  {
    var x :| x in s;
    if s == {x} {
      assert IsLeast(x, s);
    } else {
      LeastExists(s - {x});
      var m :| IsLeast(m, s - {x});
      if Less(x, m) {
        forall y | y in s && y != x
          ensures Less(x, y)
        {
          if y != m {
            LessTransitive(x, m, y);
          }
        }
        assert IsLeast(x, s);
      } else {
        LessTotal(x, m);
        assert IsLeast(m, s);
      }
    }
  }

  lemma LeastUnique(s: set<string>)
    ensures forall k1, k2 :: IsLeast(k1, s) && IsLeast(k2, s) ==> k1 == k2
  {
    forall k1, k2 | IsLeast(k1, s) && IsLeast(k2, s)
      ensures k1 == k2
    {
      if k1 != k2 {
        LessAsymmetric(k1, k2);
      }
    }
  }

  lemma GreatestUnique(s: set<string>)
    ensures forall k1, k2 :: IsGreatest(k1, s) && IsGreatest(k2, s) ==> k1 == k2
  {
    forall k1, k2 | IsGreatest(k1, s) && IsGreatest(k2, s)
      ensures k1 == k2
    {
      if k1 != k2 {
        LessAsymmetric(k1, k2);
      }
    }
  }

  /** The least key of a non-empty set. */
  function Least(s: set<string>): (k: string)
    requires s != {}
    ensures IsLeast(k, s)
  {
    LeastExists(s);
    LeastUnique(s);
    var k :| k in s && IsLeast(k, s);
    k
  }

  predicate StrictlyIncreasing(ks: seq<string>) {
    forall i, j :: 0 <= i < j < |ks| ==> Less(ks[i], ks[j])
  }

  /** The keys of `s` in strictly ascending order. */
  function SortedKeys(s: set<string>): (ks: seq<string>)
    ensures |ks| == |s|
    ensures forall k :: k in ks <==> k in s
    ensures StrictlyIncreasing(ks)
    decreases |s|
  {
    if s == {} then []
    else
      var k := Least(s);
      var rest := SortedKeys(s - {k});
      assert forall j :: 0 <= j < |rest| ==> rest[j] in s - {k};
      [k] + rest
  }

  /** A strictly ascending enumeration of a set starts with its least element
      and ends with its greatest. */
  lemma SortedEnds(ks: seq<string>, s: set<string>)
    requires StrictlyIncreasing(ks) && |ks| > 0
    requires forall k :: k in ks <==> k in s
    ensures IsLeast(ks[0], s) && IsGreatest(ks[|ks| - 1], s)
  {
    forall y | y in s && y != ks[0] ensures Less(ks[0], y) {
      var j :| 0 <= j < |ks| && ks[j] == y;
    }
    forall y | y in s && y != ks[|ks| - 1] ensures Less(y, ks[|ks| - 1]) {
      var j :| 0 <= j < |ks| && ks[j] == y;
    }
  }

  /** There is only one strictly ascending enumeration of a set of keys: any
      two strictly ascending sequences with the same elements are equal. */
  lemma {:induction false} AscendingUnique(a: seq<string>, b: seq<string>)
    requires StrictlyIncreasing(a) && StrictlyIncreasing(b)
    requires forall k :: k in a <==> k in b
    ensures a == b
    decreases |a|
  {
    assert |a| > 0 ==> a[0] in b;
    assert |b| > 0 ==> b[0] in a;
    if |a| > 0 && |b| > 0 {
      var s := set k | k in a;
      assert IsLeast(a[0], s) by {
        forall y | y in s && y != a[0] ensures Less(a[0], y) {
          var j :| 0 <= j < |a| && a[j] == y;
        }
      }
      assert IsLeast(b[0], s) by {
        forall y | y in s && y != b[0] ensures Less(b[0], y) {
          var j :| 0 <= j < |b| && b[j] == y;
        }
      }
      LeastUnique(s);
      forall k ensures k in a[1..] <==> k in b[1..] {
        if k in a[1..] {
          var j :| 1 <= j < |a| && a[j] == k;
          assert Less(a[0], k);
          LessIrreflexive(k);
        }
        if k in b[1..] {
          var j :| 1 <= j < |b| && b[j] == k;
          assert Less(b[0], k);
          LessIrreflexive(k);
        }
        assert k in a <==> k in b;
        assert a == [a[0]] + a[1..] && b == [b[0]] + b[1..];
      }
      AscendingUnique(a[1..], b[1..]);
      assert a == [a[0]] + a[1..] && b == [b[0]] + b[1..];
    }
  }

  /** Any strictly ascending enumeration of a set is its sorted key list. */
  lemma SortedKeysCharacterised(ks: seq<string>, s: set<string>)
    requires StrictlyIncreasing(ks)
    requires forall k :: k in ks <==> k in s
    ensures SortedKeys(s) == ks
  {
    AscendingUnique(SortedKeys(s), ks);
  }
}
