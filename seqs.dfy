/**
 * Sequence operations behind the client lists: List<T>.RemoveAll (Keep), List<T>.Remove
 * (RemoveFirst), a set difference that keeps order (Without), and the facts about order and
 * distinctness they preserve.
 */
module Seqs {

  /** No element occurs twice. */
  predicate Distinct<T(==)>(s: seq<T>) {
    forall i, j :: 0 <= i < j < |s| ==> s[i] != s[j]
  }

  /** `a` is `b` with some elements deleted: the survivors keep their relative order. */
  predicate SubsequenceOf<T(==)>(a: seq<T>, b: seq<T>)
    decreases |b|
  {
    if a == [] then true
    else if b == [] then false
    else (a[0] == b[0] && SubsequenceOf(a[1..], b[1..])) || SubsequenceOf(a, b[1..])
  }

  /** Number of `true` flags. */
  function Count(f: seq<bool>): (n: nat)
    ensures n <= |f|
  {
    if f == [] then 0 else (if f[0] then 1 else 0) + Count(f[1..])
  }

  /** The elements of `s` whose flag is set, in order (List<T>.RemoveAll of the unflagged ones). */
  function Keep<T(==)>(s: seq<T>, f: seq<bool>): (r: seq<T>)
    requires |s| == |f|
    ensures |r| == Count(f)
  {
    if s == [] then [] else (if f[0] then [s[0]] else []) + Keep(s[1..], f[1..])
  }

  /** Keep holds exactly the flagged elements: each survivor has a set flag, each flagged
      element survives. */
  lemma {:induction false} KeepMembers<T>(s: seq<T>, f: seq<bool>)
    requires |s| == |f|
    ensures forall x :: x in Keep(s, f) ==> exists k :: 0 <= k < |s| && s[k] == x && f[k]
    ensures forall k :: 0 <= k < |s| && f[k] ==> s[k] in Keep(s, f)
  {
    if s != [] {
      KeepMembers(s[1..], f[1..]);
      var rest := Keep(s[1..], f[1..]);
      assert Keep(s, f) == (if f[0] then [s[0]] else []) + rest;
      forall x | x in Keep(s, f) ensures exists k :: 0 <= k < |s| && s[k] == x && f[k] {
        if x in rest {
          var j :| 0 <= j < |s[1..]| && s[1..][j] == x && f[1..][j];
          assert s[j + 1] == x && f[j + 1];
        } else {
          assert s[0] == x && f[0];
        }
      }
      forall k | 0 <= k < |s| && f[k] ensures s[k] in Keep(s, f) {
        if k > 0 {
          assert s[1..][k - 1] == s[k] && f[1..][k - 1];
        }
      }
    }
  }

  /** Every flag is set exactly when nothing is dropped. */
  lemma {:induction false} CountAll(f: seq<bool>)
    ensures Count(f) == |f| <==> forall k :: 0 <= k < |f| ==> f[k]
  {
    if f != [] {
      CountAll(f[1..]);
      assert forall k :: 1 <= k < |f| ==> f[k] == f[1..][k - 1];
    }
  }

  /** Keep distributes over concatenation: filtering works element by element. */
  lemma {:induction false} KeepAppend<T>(a: seq<T>, fa: seq<bool>, b: seq<T>, fb: seq<bool>)
    requires |a| == |fa| && |b| == |fb|
    ensures Keep(a + b, fa + fb) == Keep(a, fa) + Keep(b, fb)
  {
    if a != [] {
      assert (a + b)[1..] == a[1..] + b;
      assert (fa + fb)[1..] == fa[1..] + fb;
      KeepAppend(a[1..], fa[1..], b, fb);
    } else {
      assert a + b == b && fa + fb == fb;
    }
  }

  /** Keep over a growing prefix: one more element, kept when its flag is set. */
  lemma KeepPrefixStep<T>(s: seq<T>, f: seq<bool>, k: nat)
    requires |s| == |f| && k < |s|
    ensures Keep(s[..k + 1], f[..k + 1]) == Keep(s[..k], f[..k]) + (if f[k] then [s[k]] else [])
  {
    KeepAppend(s[..k], f[..k], [s[k]], [f[k]]);
    assert s[..k + 1] == s[..k] + [s[k]] && f[..k + 1] == f[..k] + [f[k]];
  }

  /** Keep preserves the relative order of what it keeps. */
  lemma {:induction false} KeepIsSubsequence<T>(s: seq<T>, f: seq<bool>)
    requires |s| == |f|
    ensures SubsequenceOf(Keep(s, f), s)
  {
    if s != [] {
      var rest := Keep(s[1..], f[1..]);
      KeepIsSubsequence(s[1..], f[1..]);
      if f[0] {
        assert Keep(s, f) == [s[0]] + rest;
        assert ([s[0]] + rest)[1..] == rest;
      } else {
        assert Keep(s, f) == rest;
        SubsequenceSkip(rest, s);
      }
    }
  }

  /** Dropping the head of `b` keeps `a` a subsequence of `b` when it already was one of the tail. */
  lemma SubsequenceSkip<T>(a: seq<T>, b: seq<T>)
    requires b != [] && SubsequenceOf(a, b[1..])
    ensures SubsequenceOf(a, b)
  {
  }

  /** Every element of a subsequence occurs in the sequence. */
  lemma {:induction false} SubsequenceMembers<T>(a: seq<T>, b: seq<T>)
    requires SubsequenceOf(a, b)
    ensures forall x :: x in a ==> x in b
    decreases |b|
  {
    if a != [] {
      if a[0] == b[0] && SubsequenceOf(a[1..], b[1..]) {
        SubsequenceMembers(a[1..], b[1..]);
        assert forall x :: x in a ==> x == a[0] || x in a[1..];
      } else {
        SubsequenceMembers(a, b[1..]);
      }
    }
  }

  /** A subsequence of a list without duplicates has none either. */
  lemma {:induction false} SubsequenceDistinct<T>(a: seq<T>, b: seq<T>)
    requires SubsequenceOf(a, b) && Distinct(b)
    ensures Distinct(a)
    decreases |b|
  {
    if a != [] {
      DistinctTail(b);
      if a[0] == b[0] && SubsequenceOf(a[1..], b[1..]) {
        SubsequenceDistinct(a[1..], b[1..]);
        SubsequenceMembers(a[1..], b[1..]);
        forall i, j | 0 <= i < j < |a| ensures a[i] != a[j] {
          if i == 0 {
            assert a[j] == a[1..][j - 1];
          } else {
            assert a[i] == a[1..][i - 1] && a[j] == a[1..][j - 1];
          }
        }
      } else {
        SubsequenceDistinct(a, b[1..]);
      }
    }
  }

  /** Without duplicates, an element survives Keep exactly when its own flag is set. */
  lemma KeepExactly<T>(s: seq<T>, f: seq<bool>)
    requires |s| == |f| && Distinct(s)
    ensures forall k :: 0 <= k < |s| ==> (s[k] in Keep(s, f) <==> f[k])
  {
    KeepMembers(s, f);
    forall k | 0 <= k < |s| && s[k] in Keep(s, f) ensures f[k] {
      var j :| 0 <= j < |s| && s[j] == s[k] && f[j];
      assert j == k;
    }
  }

  /** The elements of `s` that are not in `xs`, in order. */
  function Without<T(==)>(s: seq<T>, xs: set<T>): seq<T> {
    if s == [] then [] else (if s[0] in xs then [] else [s[0]]) + Without(s[1..], xs)
  }

  /** Removing nothing keeps every element. */
  lemma {:induction false} WithoutNothing<T>(s: seq<T>)
    ensures Without(s, {}) == s
  {
    if s != [] {
      WithoutNothing(s[1..]);
    }
  }

  /** List<T>.Remove: drops the first occurrence of `x`, if any. */
  function RemoveFirst<T(==)>(s: seq<T>, x: T): (r: seq<T>)
    ensures x in s ==> |r| == |s| - 1
    ensures x !in s ==> r == s
  {
    if s == [] then [] else if s[0] == x then s[1..] else [s[0]] + RemoveFirst(s[1..], x)
  }

  /** Removing an element that does not occur changes nothing. */
  lemma {:induction false} WithoutAbsent<T>(s: seq<T>, xs: set<T>, x: T)
    requires x !in s
    ensures Without(s, xs + {x}) == Without(s, xs)
  {
    if s != [] {
      assert s[0] != x;
      WithoutAbsent(s[1..], xs, x);
    }
  }

  /** Removing the first `x` from a list without duplicates is the same as adding `x` to the removed set. */
  lemma {:induction false} RemoveFirstWithout<T>(s: seq<T>, xs: set<T>, x: T)
    requires Distinct(s) && x !in xs
    ensures RemoveFirst(Without(s, xs), x) == Without(s, xs + {x})
  {
    if s != [] {
      var t := s[1..];
      DistinctTail(s);
      var w := Without(t, xs);
      if s[0] in xs {
        assert Without(s, xs) == w;
        assert Without(s, xs + {x}) == Without(t, xs + {x});
        RemoveFirstWithout(t, xs, x);
      } else if s[0] == x {
        assert Without(s, xs) == [x] + w;
        assert ([x] + w)[1..] == w;
        assert Without(s, xs + {x}) == Without(t, xs + {x});
        WithoutAbsent(t, xs, x);
      } else {
        assert Without(s, xs) == [s[0]] + w;
        assert ([s[0]] + w)[1..] == w;
        assert RemoveFirst([s[0]] + w, x) == [s[0]] + RemoveFirst(w, x);
        assert Without(s, xs + {x}) == [s[0]] + Without(t, xs + {x});
        RemoveFirstWithout(t, xs, x);
      }
    }
  }

  /** The tail of a list without duplicates has none, and does not contain the head. */
  lemma DistinctTail<T>(s: seq<T>)
    requires s != [] && Distinct(s)
    ensures Distinct(s[1..]) && s[0] !in s[1..]
  {
    forall i, j | 0 <= i < j < |s[1..]| ensures s[1..][i] != s[1..][j] {
      assert s[1..][i] == s[i + 1] && s[1..][j] == s[j + 1];
    }
    forall j | 0 <= j < |s[1..]| ensures s[1..][j] != s[0] {
      assert s[1..][j] == s[j + 1];
    }
  }

  /** Without duplicates, removing the set of unflagged elements is Keep of the flagged ones. */
  lemma {:induction false} WithoutIsKeep<T>(s: seq<T>, f: seq<bool>, xs: set<T>)
    requires |s| == |f| && Distinct(s)
    requires forall k :: 0 <= k < |s| ==> (s[k] in xs <==> !f[k])
    ensures Without(s, xs) == Keep(s, f)
  {
    if s != [] {
      DistinctTail(s);
      assert forall k :: 0 <= k < |s[1..]| ==> s[1..][k] == s[k + 1] && f[1..][k] == f[k + 1];
      WithoutIsKeep(s[1..], f[1..], xs);
    }
  }
}
