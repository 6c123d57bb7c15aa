/** Small vocabulary shared by the models: optional values, results and facts about sequences. */
module Collections {

  datatype Option<+T> = None | Some(value: T)

  datatype Result<+T, +E> = Ok(value: T) | Err(error: E)

  function Min(a: int, b: int): int {
    if a <= b then a else b
  }

  function Max(a: int, b: int): int {
    if a >= b then a else b
  }

  /** The sequence with the element at index `i` taken out. */
  function Drop<T>(s: seq<T>, i: nat): seq<T>
    requires i < |s|
  {
    s[..i] + s[i + 1..]
  }

  /** `a` occurs in `s` at some place before an occurrence of `b`. */
  ghost predicate Before<T>(s: seq<T>, a: T, b: T) {
    exists i, j :: 0 <= i < j < |s| && s[i] == a && s[j] == b
  }

  ghost predicate Distinct<T>(s: seq<T>) {
    forall i, j :: 0 <= i < j < |s| ==> s[i] != s[j]
  }

  /** The elements of `s` outside `gone`, in their order. */
  ghost function Without<T>(s: seq<T>, gone: set<T>): seq<T> {
    if s == [] then []
    else if s[|s| - 1] in gone then Without(s[..|s| - 1], gone)
    else Without(s[..|s| - 1], gone) + [s[|s| - 1]]
  }

  /** `a` can be obtained from `b` by deleting elements. */
  ghost predicate Subsequence<T>(a: seq<T>, b: seq<T>) {
    if a == [] then true
    else if b == [] then false
    else if a[|a| - 1] == b[|b| - 1] then Subsequence(a[..|a| - 1], b[..|b| - 1])
    else Subsequence(a, b[..|b| - 1])
  }

  /** How often `x` occurs in `s`. */
  ghost function Count<T>(s: seq<T>, x: T): nat {
    if s == [] then 0 else Count(s[..|s| - 1], x) + if s[|s| - 1] == x then 1 else 0
  }

  lemma CountAppend<T>(s: seq<T>, y: T, x: T)
    ensures Count(s + [y], x) == Count(s, x) + if y == x then 1 else 0
  {
    assert (s + [y])[..|s|] == s;
  }

  lemma {:induction false} CountConcat<T>(a: seq<T>, b: seq<T>, x: T)
    ensures Count(a + b, x) == Count(a, x) + Count(b, x)
  {
    if b == [] {
      assert a + b == a;
    } else {
      CountConcat(a, b[..|b| - 1], x);
      assert (a + b)[..|a + b| - 1] == a + b[..|b| - 1];
    }
  }

  lemma CountHead<T>(s: seq<T>, x: T)
    requires s != []
    ensures Count(s, x) == Count(s[1..], x) + if s[0] == x then 1 else 0
  {
    assert s == [s[0]] + s[1..];
    CountConcat([s[0]], s[1..], x);
    CountAppend([], s[0], x);
    assert [] + [s[0]] == [s[0]];
  }

  lemma {:induction false} CountIn<T>(s: seq<T>, x: T)
    ensures x in s <==> Count(s, x) > 0
  {
    if s != [] {
      CountIn(s[..|s| - 1], x);
      assert s == s[..|s| - 1] + [s[|s| - 1]];
    }
  }

  lemma {:induction false} DistinctFromCount<T>(s: seq<T>)
    requires forall x :: Count(s, x) <= 1
    ensures Distinct(s)
  {
    forall i, j | 0 <= i < j < |s| ensures s[i] != s[j] {
      assert s == s[..j] + s[j..];
      CountConcat(s[..j], s[j..], s[j]);
      CountIn(s[j..], s[j]);
      CountIn(s[..j], s[j]);
      assert s[j..][0] == s[j] && s[..j][i] == s[i];
    }
  }

  lemma {:induction false} WithoutNone<T>(s: seq<T>)
    ensures Without(s, {}) == s
  {
    if s != [] {
      WithoutNone(s[..|s| - 1]);
    }
  }

  lemma {:induction false} WithoutMembers<T>(s: seq<T>, gone: set<T>)
    ensures forall x :: x in Without(s, gone) <==> x in s && x !in gone
  {
    if s != [] {
      WithoutMembers(s[..|s| - 1], gone);
      assert s == s[..|s| - 1] + [s[|s| - 1]];
    }
  }

  /** Appending commutes with filtering. */
  lemma WithoutAppend<T>(s: seq<T>, x: T, gone: set<T>)
    ensures Without(s + [x], gone) == if x in gone then Without(s, gone) else Without(s, gone) + [x]
  {
    assert (s + [x])[..|s|] == s;
  }

  lemma {:induction false} WithoutConcat<T>(a: seq<T>, b: seq<T>, gone: set<T>)
    ensures Without(a + b, gone) == Without(a, gone) + Without(b, gone)
  {
    if b == [] {
      assert a + b == a;
    } else {
      WithoutConcat(a, b[..|b| - 1], gone);
      assert (a + b)[..|a + b| - 1] == a + b[..|b| - 1];
      assert (a + b)[|a + b| - 1] == b[|b| - 1];
    }
  }

  lemma {:induction false} WithoutSame<T>(s: seq<T>, gone: set<T>, x: T)
    requires x !in s
    ensures Without(s, gone + {x}) == Without(s, gone)
  {
    if s != [] {
      WithoutSame(s[..|s| - 1], gone, x);
    }
  }

  /** Filtering keeps the relative order. */
  lemma {:induction false} WithoutBefore<T>(s: seq<T>, gone: set<T>, a: T, b: T)
    requires Before(Without(s, gone), a, b)
    ensures Before(s, a, b)
  {
    var init, last := s[..|s| - 1], s[|s| - 1];
    var w := Without(s, gone);
    var i, j :| 0 <= i < j < |w| && w[i] == a && w[j] == b;
    if last !in gone && j == |w| - 1 {
      assert a in Without(init, gone);
      WithoutMembers(init, gone);
      var k :| 0 <= k < |init| && init[k] == a;
      assert s[k] == a && s[|s| - 1] == b;
    } else {
      assert Before(Without(init, gone), a, b) by {
        assert Without(init, gone)[i] == a && Without(init, gone)[j] == b;
      }
      WithoutBefore(init, gone, a, b);
      var k, l :| 0 <= k < l < |init| && init[k] == a && init[l] == b;
      assert s[k] == a && s[l] == b;
    }
  }

  lemma {:induction false} SubsequenceSkip<T>(a: seq<T>, b: seq<T>, x: T)
    requires Subsequence(a, b)
    ensures Subsequence(a, b + [x])
    decreases |b|, 1
  {
    assert (b + [x])[..|b|] == b;
    if a != [] && a[|a| - 1] == x {
      SubsequenceInit(a, b);
    }
  }

  /** Deleting the last element of a subsequence leaves a subsequence. */
  lemma {:induction false} SubsequenceInit<T>(a: seq<T>, b: seq<T>)
    requires a != [] && Subsequence(a, b)
    ensures Subsequence(a[..|a| - 1], b)
    decreases |b|, 0
  {
    var b' := b[..|b| - 1];
    assert b == b' + [b[|b| - 1]];
    if a[|a| - 1] == b[|b| - 1] {
      SubsequenceSkip(a[..|a| - 1], b', b[|b| - 1]);
    } else {
      SubsequenceInit(a, b');
      SubsequenceSkip(a[..|a| - 1], b', b[|b| - 1]);
    }
  }

  lemma {:induction false} SubsequencePrefix<T>(a: seq<T>, c: seq<T>, b: seq<T>)
    requires Subsequence(a + c, b)
    ensures Subsequence(a, b)
    decreases |c|
  {
    if c == [] {
      assert a + c == a;
    } else {
      SubsequenceInit(a + c, b);
      assert (a + c)[..|a + c| - 1] == a + c[..|c| - 1];
      SubsequencePrefix(a, c[..|c| - 1], b);
    }
  }

  lemma {:induction false} WithoutSubsequence<T>(s: seq<T>, gone: set<T>)
    ensures Subsequence(Without(s, gone), s)
  {
    if s != [] {
      var init, last := s[..|s| - 1], s[|s| - 1];
      assert s == init + [last];
      WithoutSubsequence(init, gone);
      if last in gone {
        SubsequenceSkip(Without(init, gone), init, last);
      } else {
        assert (Without(init, gone) + [last])[..|Without(init, gone)|] == Without(init, gone);
      }
    }
  }
}
