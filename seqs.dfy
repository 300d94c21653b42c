/**
 * Sequence helpers for the widget's arrays of ids: the `filter` that the
 * widget uses to drop entries, the membership-guarded `push` it uses to add
 * them, and the facts about both that the controller's proofs rely on.
 * Every function recurses on the last element, the order in which the
 * widget's loops visit their arrays.
 */
module Seqs {

  /** No element occurs twice. */
  ghost predicate NoDup(s: seq<int>) {
    forall i, j :: 0 <= i < j < |s| ==> s[i] != s[j]
  }

  /** How many times `x` occurs in `s`. */
  function Count(s: seq<int>, x: int): nat
    decreases |s|
  {
    if s == [] then 0
    else Count(s[..|s| - 1], x) + (if s[|s| - 1] == x then 1 else 0)
  }

  lemma {:induction false} CountPositive(s: seq<int>, x: int)
    ensures x in s <==> Count(s, x) > 0
    decreases |s|
  {
    if s != [] {
      var p := s[..|s| - 1];
      assert s == p + [s[|s| - 1]];
      CountPositive(p, x);
    }
  }

  lemma {:induction false} CountConcat(a: seq<int>, b: seq<int>, x: int)
    ensures Count(a + b, x) == Count(a, x) + Count(b, x)
    decreases |b|
  {
    if b == [] {
      assert a + b == a;
    } else {
      var p := b[..|b| - 1];
      assert (a + b)[..|a + b| - 1] == a + p;
      CountConcat(a, p, x);
    }
  }

  /** In a sequence without duplicates every member occurs exactly once. */
  lemma {:induction false} NoDupCountOne(s: seq<int>, x: int)
    requires NoDup(s) && x in s
    ensures Count(s, x) == 1
    decreases |s|
  {
    var p := s[..|s| - 1];
    assert s == p + [s[|s| - 1]];
    if s[|s| - 1] == x {
      CountPositive(p, x);
    } else {
      NoDupCountOne(p, x);
    }
  }

  lemma {:induction false} NoDupSnoc(s: seq<int>, x: int)
    requires NoDup(s) && x !in s
    ensures NoDup(s + [x])
  {
    var r := s + [x];
    forall i, j | 0 <= i < j < |r| ensures r[i] != r[j] {
      if j == |s| { assert r[i] == s[i]; }
    }
  }

  /**
   * The elements of `s` that are not in `d`, in their order: what
   * `s.filter(x => !d.has(x))` would give.
   */
  function RemoveAll(s: seq<int>, d: set<int>): (r: seq<int>)
    ensures |r| <= |s|
    ensures forall x :: x in r <==> x in s && x !in d
    decreases |s|
  {
    if s == [] then []
    else
      var p := s[..|s| - 1];
      assert s == p + [s[|s| - 1]];
      var r := RemoveAll(p, d);
      if s[|s| - 1] in d then r else r + [s[|s| - 1]]
  }

  /** Filtering never introduces a duplicate. */
  lemma {:induction false} RemoveAllNoDup(s: seq<int>, d: set<int>)
    requires NoDup(s)
    ensures NoDup(RemoveAll(s, d))
    decreases |s|
  {
    if s != [] {
      var p := s[..|s| - 1];
      var x := s[|s| - 1];
      assert s == p + [x];
      assert NoDup(p) by {
        forall i, j | 0 <= i < j < |p| ensures p[i] != p[j] { assert p[i] == s[i] && p[j] == s[j]; }
      }
      RemoveAllNoDup(p, d);
      if x !in d {
        assert x !in p by {
          forall i | 0 <= i < |p| ensures p[i] != x { assert p[i] == s[i]; }
        }
        NoDupSnoc(RemoveAll(p, d), x);
      }
    }
  }

  /** Filtering twice is filtering once by the union. */
  lemma {:induction false} RemoveAllTwice(s: seq<int>, a: set<int>, b: set<int>)
    ensures RemoveAll(RemoveAll(s, a), b) == RemoveAll(s, a + b)
    decreases |s|
  {
    if s != [] {
      var p := s[..|s| - 1];
      var x := s[|s| - 1];
      RemoveAllTwice(p, a, b);
      var r := RemoveAll(p, a);
      if x !in a {
        var ra := r + [x];
        assert ra[..|ra| - 1] == r;
      }
    }
  }

  /** Filtering a concatenation filters each part. */
  lemma {:induction false} RemoveAllConcat(a: seq<int>, b: seq<int>, d: set<int>)
    ensures RemoveAll(a + b, d) == RemoveAll(a, d) + RemoveAll(b, d)
    decreases |b|
  {
    if b == [] {
      assert a + b == a;
    } else {
      var p := b[..|b| - 1];
      assert (a + b)[..|a + b| - 1] == a + p;
      assert (a + b)[|a + b| - 1] == b[|b| - 1];
      RemoveAllConcat(a, p, d);
      ConcatAssoc(RemoveAll(a, d), RemoveAll(p, d), [b[|b| - 1]]);
    }
  }

  /** A filter that matches every element leaves nothing. */
  lemma {:induction false} RemoveAllEverything(s: seq<int>, d: set<int>)
    requires forall x :: x in s ==> x in d
    ensures RemoveAll(s, d) == []
    decreases |s|
  {
    if s != [] {
      var p := s[..|s| - 1];
      var last := s[|s| - 1];
      assert last in s;
      assert s == p + [last];
      RemoveAllEverything(p, d);
    }
  }

  /** A filter that matches nothing leaves the sequence as it was. */
  lemma {:induction false} RemoveAllNothing(s: seq<int>, d: set<int>)
    requires forall x :: x in s ==> x !in d
    ensures RemoveAll(s, d) == s
    decreases |s|
  {
    if s != [] {
      var p := s[..|s| - 1];
      var last := s[|s| - 1];
      assert last in s;
      assert s == p + [last];
      RemoveAllNothing(p, d);
    }
  }

  /**
   * Appends, in order, each element of `xs` that is not already present:
   * what a loop of `if (!r.includes(x)) r.push(x)` over `xs` does to `r`.
   */
  function AppendAbsent(s: seq<int>, xs: seq<int>): (r: seq<int>)
    ensures forall x :: x in r <==> x in s || x in xs
    ensures |s| <= |r| && r[..|s|] == s
    ensures forall i :: |s| <= i < |r| ==> r[i] in xs
    decreases |xs|
  {
    if xs == [] then s
    else
      var p := xs[..|xs| - 1];
      var x := xs[|xs| - 1];
      assert xs == p + [x];
      var r := AppendAbsent(s, p);
      if x in r then r else r + [x]
  }

  /** With a single element, AppendAbsent is one guarded push. */
  lemma {:induction false} AppendAbsentOne(s: seq<int>, x: int)
    ensures AppendAbsent(s, [x]) == if x in s then s else s + [x]
  {
    assert [x][..0] == [];
    assert AppendAbsent(s, []) == s;
  }

  /** Appending only absent elements keeps a sequence free of duplicates. */
  lemma {:induction false} AppendAbsentNoDup(s: seq<int>, xs: seq<int>)
    requires NoDup(s)
    ensures NoDup(AppendAbsent(s, xs))
    decreases |xs|
  {
    if xs != [] {
      var p := xs[..|xs| - 1];
      AppendAbsentNoDup(s, p);
      var r := AppendAbsent(s, p);
      if xs[|xs| - 1] !in r {
        NoDupSnoc(r, xs[|xs| - 1]);
      }
    }
  }

  /** Nothing is appended when every element is already present. */
  lemma {:induction false} AppendAbsentPresent(s: seq<int>, xs: seq<int>)
    requires forall x :: x in xs ==> x in s
    ensures AppendAbsent(s, xs) == s
    decreases |xs|
  {
    if xs != [] {
      var p := xs[..|xs| - 1];
      assert xs == p + [xs[|xs| - 1]];
      AppendAbsentPresent(s, p);
    }
  }

  /** Appending the same elements a second time changes nothing. */
  lemma {:induction false} AppendAbsentIdempotent(s: seq<int>, xs: seq<int>)
    ensures AppendAbsent(AppendAbsent(s, xs), xs) == AppendAbsent(s, xs)
  {
    AppendAbsentPresent(AppendAbsent(s, xs), xs);
  }

  /**
   * Starting from a sequence without duplicates, every element of `s` and of
   * `xs` occurs exactly once afterwards, and `s` is kept as a prefix.
   */
  lemma {:induction false} AppendAbsentOnce(s: seq<int>, xs: seq<int>, x: int)
    requires NoDup(s) && (x in s || x in xs)
    ensures Count(AppendAbsent(s, xs), x) == 1
  {
    AppendAbsentNoDup(s, xs);
    NoDupCountOne(AppendAbsent(s, xs), x);
  }

  /** Concatenation is associative; stated once so that larger proofs need not rediscover it. */
  lemma ConcatAssoc<T>(a: seq<T>, b: seq<T>, c: seq<T>)
    ensures (a + b) + c == a + (b + c)
  {
  }

  /** Appending to the empty sequence gives the appended sequence. */
  lemma ConcatNil<T>(a: seq<T>, b: seq<T>)
    requires a == []
    ensures a + b == b
  {
  }
}
