/** The GET ordering step: the filtered reviews sorted by the compound
    sentiment score, highest first. The sort is stable, so reviews with
    equal scores keep the order they had before sorting. */
module ReviewOrder {
  import opened Reviews

  /** The sort key. */
  function Compound(r: Review): real {
    r.sentiment.compound
  }

  predicate NonIncreasing(s: seq<Review>) {
    forall i, j :: 0 <= i < j < |s| ==> Compound(s[i]) >= Compound(s[j])
  }

  /** The reviews of `s` whose compound score is `k`, in their order in `s`. */
  function WithCompound(s: seq<Review>, k: real): seq<Review> {
    if s == [] then []
    else (if Compound(s[0]) == k then [s[0]] else []) + WithCompound(s[1..], k)
  }

  lemma {:induction false} WithCompoundMembers(s: seq<Review>, k: real)
    ensures forall x :: x in WithCompound(s, k) <==> x in s && Compound(x) == k
  {
    if s != [] {
      WithCompoundMembers(s[1..], k);
      assert s == [s[0]] + s[1..];
    }
  }

  /** Places `x` in front of the first review of `t` whose score is not
      above its own, so that it stays ahead of the equal-scored ones. */
  function Insert(x: Review, t: seq<Review>): (r: seq<Review>)
    ensures multiset(r) == multiset(t) + multiset{x}
  {
    if t == [] || Compound(x) >= Compound(t[0]) then [x] + t
    else
      assert t == [t[0]] + t[1..];
      [t[0]] + Insert(x, t[1..])
  }

  lemma {:induction false} InsertKeepsOrder(x: Review, t: seq<Review>)
    requires NonIncreasing(t)
    ensures NonIncreasing(Insert(x, t))
  {
    if t == [] {
    } else if Compound(x) >= Compound(t[0]) {
      var r := [x] + t;
      forall i, j | 0 <= i < j < |r| ensures Compound(r[i]) >= Compound(r[j]) {
        if i == 0 {
          assert r[j] == t[j - 1];
          assert Compound(t[0]) >= Compound(t[j - 1]) || j == 1;
        } else {
          assert r[i] == t[i - 1] && r[j] == t[j - 1];
        }
      }
    } else {
      var rest := Insert(x, t[1..]);
      assert NonIncreasing(t[1..]) by {
        forall i, j | 0 <= i < j < |t[1..]| ensures Compound(t[1..][i]) >= Compound(t[1..][j]) {
          assert t[1..][i] == t[i + 1] && t[1..][j] == t[j + 1];
        }
      }
      InsertKeepsOrder(x, t[1..]);
      var r := [t[0]] + rest;
      assert r == Insert(x, t);
      forall i, j | 0 <= i < j < |r| ensures Compound(r[i]) >= Compound(r[j]) {
        if i == 0 {
          var y := rest[j - 1];
          assert y in multiset(rest);
          assert y == x || y in multiset(t[1..]);
          if y != x {
            var m :| 0 <= m < |t[1..]| && t[1..][m] == y;
            assert t[m + 1] == y;
          }
        } else {
          assert r[i] == rest[i - 1] && r[j] == rest[j - 1];
        }
      }
    }
  }

  /** `sorted(reviews, key=compound, reverse=True)`. */
  function SortByCompound(s: seq<Review>): (r: seq<Review>)
    ensures multiset(r) == multiset(s)
    ensures NonIncreasing(r)
  {
    if s == [] then []
    else
      var sortedRest := SortByCompound(s[1..]);
      InsertKeepsOrder(s[0], sortedRest);
      assert s == [s[0]] + s[1..];
      Insert(s[0], sortedRest)
  }

  lemma {:induction false} WithCompoundAppend(a: seq<Review>, b: seq<Review>, k: real)
    ensures WithCompound(a + b, k) == WithCompound(a, k) + WithCompound(b, k)
  {
    if a == [] {
      assert a + b == b;
    } else {
      WithCompoundAppend(a[1..], b, k);
      assert (a + b)[0] == a[0] && (a + b)[1..] == a[1..] + b;
    }
  }

  lemma {:induction false} InsertWithCompound(x: Review, t: seq<Review>, k: real)
    ensures WithCompound(Insert(x, t), k) == (if Compound(x) == k then [x] else []) + WithCompound(t, k)
    decreases |t|
  {
    assert WithCompound([x], k) == if Compound(x) == k then [x] else [] by {
      assert [x][1..] == [];
    }
    if t == [] || Compound(x) >= Compound(t[0]) {
      WithCompoundAppend([x], t, k);
    } else {
      InsertWithCompound(x, t[1..], k);
      assert WithCompound([t[0]], k) == if Compound(t[0]) == k then [t[0]] else [] by {
        assert [t[0]][1..] == [];
      }
      WithCompoundAppend([t[0]], Insert(x, t[1..]), k);
      WithCompoundAppend([t[0]], t[1..], k);
      assert t == [t[0]] + t[1..];
    }
  }

  /** Stability: sorting does not reorder reviews that share a score. */
  lemma {:induction false} SortIsStable(s: seq<Review>, k: real)
    ensures WithCompound(SortByCompound(s), k) == WithCompound(s, k)
  {
    if s != [] {
      SortIsStable(s[1..], k);
      InsertWithCompound(s[0], SortByCompound(s[1..]), k);
    }
  }

  /** A non-increasing list with the same reviews of each score, in the same
      order, as the input is the sorted list: the sort is the only stable
      descending ordering. */
  lemma SortIsUnique(a: seq<Review>, s: seq<Review>)
    requires NonIncreasing(a)
    requires forall k :: WithCompound(a, k) == WithCompound(s, k)
    ensures a == SortByCompound(s)
  {
    var b := SortByCompound(s);
    forall k ensures WithCompound(a, k) == WithCompound(b, k) {
      SortIsStable(s, k);
    }
    SameScoreClassesSame(a, b);
  }

  /** In a non-increasing list the first review has the top score. */
  lemma HeadHasTopScore(a: seq<Review>, k: real)
    requires NonIncreasing(a) && a != []
    requires WithCompound(a, k) != []
    ensures Compound(a[0]) >= k
  {
    WithCompoundMembers(a, k);
  }

  lemma TailNonIncreasing(a: seq<Review>)
    requires NonIncreasing(a) && a != []
    ensures NonIncreasing(a[1..])
  {
  }

  /** Two non-empty lists that agree on every score class and start with the
      same review agree on every score class of their tails. */
  lemma TailClassesAgree(a: seq<Review>, b: seq<Review>)
    requires a != [] && b != [] && a[0] == b[0]
    requires forall k :: WithCompound(a, k) == WithCompound(b, k)
    ensures forall k :: WithCompound(a[1..], k) == WithCompound(b[1..], k)
  {
    forall k ensures WithCompound(a[1..], k) == WithCompound(b[1..], k) {
      var head := if Compound(a[0]) == k then [a[0]] else [];
      assert WithCompound(a, k) == head + WithCompound(a[1..], k);
      assert WithCompound(b, k) == head + WithCompound(b[1..], k);
      assert (head + WithCompound(a[1..], k))[|head|..] == WithCompound(a[1..], k);
      assert (head + WithCompound(b[1..], k))[|head|..] == WithCompound(b[1..], k);
    }
  }

  lemma {:induction false} SameScoreClassesSame(a: seq<Review>, b: seq<Review>)
    requires NonIncreasing(a) && NonIncreasing(b)
    requires forall k :: WithCompound(a, k) == WithCompound(b, k)
    ensures a == b
    decreases |a|
  {
    if a == [] || b == [] {
      var c := if a == [] then b else a;
      if c != [] {
        WithCompoundMembers(c, Compound(c[0]));
        assert WithCompound(a, Compound(c[0])) != WithCompound(b, Compound(c[0]));
      }
    } else {
      var ka, kb := Compound(a[0]), Compound(b[0]);
      WithCompoundMembers(a, ka);
      WithCompoundMembers(b, kb);
      HeadHasTopScore(a, kb);
      HeadHasTopScore(b, ka);
      assert WithCompound(a, ka)[0] == a[0];
      assert WithCompound(b, ka)[0] == b[0];
      TailClassesAgree(a, b);
      TailNonIncreasing(a);
      TailNonIncreasing(b);
      SameScoreClassesSame(a[1..], b[1..]);
      assert a == [a[0]] + a[1..] && b == [b[0]] + b[1..];
    }
  }
}
