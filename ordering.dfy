/** Python's ordering of `str` values and its stable `sorted`, on which the
    folder and addon lists are ordered. */
module Ordering {

  /** `a <= b` on Python strings: lexicographic comparison of code points,
      a proper prefix sorting first. */
  predicate Below(a: string, b: string)
  {
    |a| == 0 || (|b| != 0 && (a[0] < b[0] || (a[0] == b[0] && Below(a[1..], b[1..]))))
  }

  lemma {:induction false} BelowReflexive(a: string)
    ensures Below(a, a)
  {
    if |a| != 0 {
      BelowReflexive(a[1..]);
    }
  }

  lemma {:induction false} BelowTotal(a: string, b: string)
    ensures Below(a, b) || Below(b, a)
  {
    if |a| != 0 && |b| != 0 && a[0] == b[0] {
      BelowTotal(a[1..], b[1..]);
    }
  }

  lemma {:induction false} BelowAntisymmetric(a: string, b: string)
    requires Below(a, b) && Below(b, a)
    ensures a == b
  {
    if |a| != 0 {
      BelowAntisymmetric(a[1..], b[1..]);
      assert a == [a[0]] + a[1..] && b == [b[0]] + b[1..];
    }
  }

  lemma {:induction false} BelowTransitive(a: string, b: string, c: string)
    requires Below(a, b) && Below(b, c)
    ensures Below(a, c)
  {
    if |a| != 0 && a[0] == b[0] && b[0] == c[0] {
      BelowTransitive(a[1..], b[1..], c[1..]);
    }
  }

  /** The elements of `s` are in non-decreasing order of `key`. */
  ghost predicate SortedBy<T>(s: seq<T>, key: T -> string)
  {
    forall i, j :: 0 <= i < j < |s| ==> Below(key(s[i]), key(s[j]))
  }

  /** Inserts `x` before the first element whose key is not below it. */
  function InsertBy<T>(x: T, s: seq<T>, key: T -> string): (r: seq<T>)
    ensures multiset(r) == multiset(s) + multiset{x}
  {
    if s == [] then [x]
    else if Below(key(x), key(s[0])) then [x] + s
    else
      assert s == [s[0]] + s[1..];
      [s[0]] + InsertBy(x, s[1..], key)
  }

  lemma {:induction false} InsertBySorted<T>(x: T, s: seq<T>, key: T -> string)
    requires SortedBy(s, key)
    ensures SortedBy(InsertBy(x, s, key), key)
  {
    var r := InsertBy(x, s, key);
    if s == [] {
    } else if Below(key(x), key(s[0])) {
      forall i, j | 0 <= i < j < |r| ensures Below(key(r[i]), key(r[j])) {
        if i == 0 && j > 1 {
          BelowTransitive(key(x), key(s[0]), key(s[j - 1]));
        }
      }
    } else {
      var t := InsertBy(x, s[1..], key);
      InsertBySorted(x, s[1..], key);
      BelowTotal(key(x), key(s[0]));
      forall i, j | 0 <= i < j < |r| ensures Below(key(r[i]), key(r[j])) {
        if i == 0 {
          var y := t[j - 1];
          assert y in multiset(t);
          if y != x {
            HeadBelowRest(s, key, y);
          }
        } else {
          assert r[i] == t[i - 1] && r[j] == t[j - 1];
        }
      }
    }
  }

  /** In a sorted sequence the head's key is below the key of every later element. */
  lemma HeadBelowRest<T>(s: seq<T>, key: T -> string, y: T)
    requires SortedBy(s, key) && s != []
    requires y in multiset(s[1..])
    ensures Below(key(s[0]), key(y))
  {
    assert y in s[1..];
    var k :| 0 <= k < |s[1..]| && s[1..][k] == y;
    assert s[k + 1] == y;
  }

  /** Python's stable `sorted(s, key=key)`: a permutation of `s` in
      non-decreasing key order. */
  function SortBy<T>(s: seq<T>, key: T -> string): (r: seq<T>)
    ensures multiset(r) == multiset(s)
    ensures SortedBy(r, key)
  {
    if s == [] then []
    else
      var t := SortBy(s[1..], key);
      InsertBySorted(s[0], t, key);
      assert s == [s[0]] + s[1..];
      InsertBy(s[0], t, key)
  }
}
