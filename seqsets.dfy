/** A Python `set` of strings, as the tool builds and shrinks it, modelled as
    a duplicate-free sequence in insertion order. Every consumer sorts the set
    before use, so the order it is kept in never shows. */
module SeqSets {
  import opened Outcomes
  import opened Ordering

  ghost predicate NoDup(s: seq<string>)
  {
    forall i, j :: 0 <= i < j < |s| ==> s[i] != s[j]
  }

  ghost function Elems(s: seq<string>): set<string>
  {
    set i | 0 <= i < |s| :: s[i]
  }

  lemma ElemsMembership(s: seq<string>, x: string)
    ensures x in Elems(s) <==> x in s
  {
    if x in s {
      var i :| 0 <= i < |s| && s[i] == x;
    }
  }

  /** `set.add(x)`. */
  function Add(s: seq<string>, x: string): (r: seq<string>)
    ensures Elems(r) == Elems(s) + {x}
    ensures NoDup(s) ==> NoDup(r)
  {
    ElemsMembership(s, x);
    if x in s then s
    else
      assert forall y :: y in Elems(s + [x]) <==> y in Elems(s) || y == x by {
        forall y ensures y in Elems(s + [x]) <==> y in Elems(s) || y == x {
          ElemsMembership(s + [x], y);
          ElemsMembership(s, y);
        }
      }
      s + [x]
  }

  /** `set.discard(x)`: every occurrence of `x` is dropped and the remaining
      elements keep their order. */
  function Discard(s: seq<string>, x: string): (r: seq<string>)
    ensures Elems(r) == Elems(s) - {x}
    ensures NoDup(s) ==> NoDup(r)
    ensures |r| <= |s|
  {
    if s == [] then []
    else
      var t := Discard(s[1..], x);
      assert s == [s[0]] + s[1..];
      assert Elems(s) == {s[0]} + Elems(s[1..]) by {
        forall y ensures y in Elems(s) <==> y == s[0] || y in Elems(s[1..]) {
          ElemsMembership(s, y);
          ElemsMembership(s[1..], y);
        }
      }
      if s[0] == x then t
      else
        assert Elems([s[0]] + t) == {s[0]} + Elems(t) by {
          forall y ensures y in Elems([s[0]] + t) <==> y == s[0] || y in Elems(t) {
            ElemsMembership([s[0]] + t, y);
            ElemsMembership(t, y);
          }
        }
        assert NoDup(s) ==> s[0] !in t by {
          if NoDup(s) {
            forall k | 0 <= k < |s[1..]| ensures s[1..][k] != s[0] {
              assert s[1..][k] == s[k + 1];
            }
            ElemsMembership(s[1..], s[0]);
            ElemsMembership(t, s[0]);
          }
        }
        [s[0]] + t
  }

  /** Discarding an element keeps a sorted set sorted. */
  lemma {:induction false} DiscardSorted(s: seq<string>, x: string, key: string -> string)
    requires SortedBy(s, key)
    ensures SortedBy(Discard(s, x), key)
  {
    if s != [] {
      var t := Discard(s[1..], x);
      DiscardSorted(s[1..], x, key);
      if s[0] != x {
        var r := [s[0]] + t;
        forall i, j | 0 <= i < j < |r| ensures Below(key(r[i]), key(r[j])) {
          if i == 0 {
            var y := t[j - 1];
            ElemsMembership(t, y);
            ElemsMembership(s[1..], y);
            var k :| 0 <= k < |s[1..]| && s[1..][k] == y;
            assert s[k + 1] == y;
          } else {
            assert r[i] == t[i - 1] && r[j] == t[j - 1];
          }
        }
      }
    }
  }

  /** Adds every element of `xs`, in order, to `acc`. */
  function AddEach(acc: seq<string>, xs: seq<string>): (r: seq<string>)
    decreases xs
    ensures Elems(r) == Elems(acc) + Elems(xs)
    ensures NoDup(acc) ==> NoDup(r)
  {
    if xs == [] then acc
    else
      assert Elems(xs) == {xs[0]} + Elems(xs[1..]) by {
        forall y ensures y in Elems(xs) <==> y == xs[0] || y in Elems(xs[1..]) {
          ElemsMembership(xs, y);
          ElemsMembership(xs[1..], y);
          assert xs == [xs[0]] + xs[1..];
        }
      }
      AddEach(Add(acc, xs[0]), xs[1..])
  }

  /** Discards every element of `xs`, in order, from `acc`. */
  function DiscardEach(acc: seq<string>, xs: seq<string>): (r: seq<string>)
    decreases xs
    ensures Elems(r) == Elems(acc) - Elems(xs)
    ensures NoDup(acc) ==> NoDup(r)
  {
    if xs == [] then acc
    else
      assert Elems(xs) == {xs[0]} + Elems(xs[1..]) by {
        forall y ensures y in Elems(xs) <==> y == xs[0] || y in Elems(xs[1..]) {
          ElemsMembership(xs, y);
          ElemsMembership(xs[1..], y);
          assert xs == [xs[0]] + xs[1..];
        }
      }
      DiscardEach(Discard(acc, xs[0]), xs[1..])
  }

  /** `set.remove(x)` for every element of `xs`, in order: the first element
      that is no longer in the set raises KeyError. */
  function RemoveEach(acc: seq<string>, xs: seq<string>): Result<seq<string>>
    decreases xs
  {
    if xs == [] then Ok(acc)
    else if xs[0] in acc then RemoveEach(Discard(acc, xs[0]), xs[1..])
    else Err(KeyError(xs[0]))
  }

  /** Every removal finds its element exactly when each element of `xs` is in
      the set and none is removed twice; the result is then the difference. */
  lemma {:induction false} RemoveEachSucceeds(acc: seq<string>, xs: seq<string>)
    decreases xs
    ensures RemoveEach(acc, xs).Ok? <==> Elems(xs) <= Elems(acc) && NoDup(xs)
    ensures RemoveEach(acc, xs).Ok? ==> Elems(RemoveEach(acc, xs).value) == Elems(acc) - Elems(xs)
    ensures RemoveEach(acc, xs).Ok? && NoDup(acc) ==> NoDup(RemoveEach(acc, xs).value)
    ensures RemoveEach(acc, xs).Err? ==> exists k :: k in xs && RemoveEach(acc, xs) == Err(KeyError(k))
  {
    if xs != [] {
      var x, rest := xs[0], xs[1..];
      assert xs == [x] + rest;
      assert Elems(xs) == {x} + Elems(rest) by {
        forall y ensures y in Elems(xs) <==> y == x || y in Elems(rest) {
          ElemsMembership(xs, y);
          ElemsMembership(rest, y);
        }
      }
      assert NoDup(xs) <==> x !in rest && NoDup(rest) by {
        if x in rest {
          var k :| 0 <= k < |rest| && rest[k] == x;
          assert xs[k + 1] == x;
        }
        if x !in rest && NoDup(rest) {
          forall i, j | 0 <= i < j < |xs| ensures xs[i] != xs[j] {
            if i == 0 {
              assert xs[j] == rest[j - 1];
            } else {
              assert xs[i] == rest[i - 1] && xs[j] == rest[j - 1];
            }
          }
        }
      }
      ElemsMembership(acc, x);
      ElemsMembership(rest, x);
      if x in acc {
        RemoveEachSucceeds(Discard(acc, x), rest);
      }
    }
  }

  lemma ElemsEmpty(s: seq<string>)
    ensures Elems(s) == {} <==> s == []
  {
    if s != [] {
      ElemsMembership(s, s[0]);
    }
  }

  lemma NoDupCount(a: seq<string>, x: string)
    requires NoDup(a)
    ensures multiset(a)[x] <= 1
  {
    if a != [] {
      assert a == [a[0]] + a[1..];
      assert NoDup(a[1..]) by {
        forall i, j | 0 <= i < j < |a[1..]| ensures a[1..][i] != a[1..][j] {
          assert a[1..][i] == a[i + 1] && a[1..][j] == a[j + 1];
        }
      }
      NoDupCount(a[1..], x);
      if a[0] == x {
        forall k | 0 <= k < |a[1..]| ensures a[1..][k] != x {
          assert a[1..][k] == a[k + 1];
        }
        assert x !in multiset(a[1..]);
      }
    }
  }

  /** A permutation of a duplicate-free sequence is duplicate-free. */
  lemma NoDupPermutation(a: seq<string>, b: seq<string>)
    requires multiset(a) == multiset(b) && NoDup(a)
    ensures NoDup(b)
  {
    forall i, j | 0 <= i < j < |b| ensures b[i] != b[j] {
      var x := b[i];
      NoDupCount(a, x);
      assert b == b[..j] + b[j..];
      assert b[..j][i] == x;
      assert b[j..][0] == b[j];
      assert multiset(b)[x] == multiset(b[..j])[x] + multiset(b[j..])[x];
    }
  }

  lemma PermutationElems(a: seq<string>, b: seq<string>)
    requires multiset(a) == multiset(b)
    ensures Elems(a) == Elems(b)
  {
    forall x ensures x in Elems(a) <==> x in Elems(b) {
      ElemsMembership(a, x);
      ElemsMembership(b, x);
      assert x in a <==> x in multiset(a);
      assert x in b <==> x in multiset(b);
    }
  }

  lemma {:induction false} DiscardAbsent(s: seq<string>, x: string)
    requires x !in s
    ensures Discard(s, x) == s
  {
    if s != [] {
      assert x !in s[1..];
      DiscardAbsent(s[1..], x);
      assert s == [s[0]] + s[1..];
    }
  }

  lemma {:induction false} DiscardEachSnoc(acc: seq<string>, xs: seq<string>, x: string)
    ensures DiscardEach(acc, xs + [x]) == Discard(DiscardEach(acc, xs), x)
    decreases xs
  {
    if xs == [] {
      assert [] + [x] == [x];
      assert [x][1..] == [];
    } else {
      assert (xs + [x])[0] == xs[0];
      assert (xs + [x])[1..] == xs[1..] + [x];
      DiscardEachSnoc(Discard(acc, xs[0]), xs[1..], x);
    }
  }

  /** A duplicate-free sequence has as many elements as its set. */
  lemma {:induction false} NoDupCardinality(s: seq<string>)
    requires NoDup(s)
    ensures |Elems(s)| == |s|
  {
    if s != [] {
      var t := s[1..];
      assert NoDup(t) by {
        forall i, j | 0 <= i < j < |t| ensures t[i] != t[j] {
          assert t[i] == s[i + 1] && t[j] == s[j + 1];
        }
      }
      NoDupCardinality(t);
      forall y ensures y in Elems(s) <==> y == s[0] || y in Elems(t) {
        ElemsMembership(s, y);
        ElemsMembership(t, y);
        assert s == [s[0]] + t;
      }
      forall k | 0 <= k < |t| ensures t[k] != s[0] {
        assert t[k] == s[k + 1];
      }
      ElemsMembership(t, s[0]);
      assert Elems(s) == Elems(t) + {s[0]};
    }
  }
}
