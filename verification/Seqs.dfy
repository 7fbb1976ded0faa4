/** Sequence vocabulary shared by the component models: filtering, mapping, joining, prefixes. */
module Seqs {

  function Filter<T>(s: seq<T>, p: T -> bool): (r: seq<T>)
    ensures |r| <= |s|
  {
    if s == [] then [] else (if p(s[0]) then [s[0]] else []) + Filter(s[1..], p)
  }

  lemma {:induction false} FilterMembers<T>(s: seq<T>, p: T -> bool)
    ensures forall x :: x in Filter(s, p) <==> x in s && p(x)
  {
    if s != [] {
      FilterMembers(s[1..], p);
    }
  }

  lemma {:induction false} FilterConcat<T>(a: seq<T>, b: seq<T>, p: T -> bool)
    ensures Filter(a + b, p) == Filter(a, p) + Filter(b, p)
  {
    if a == [] {
      assert a + b == b;
    } else {
      var head := if p(a[0]) then [a[0]] else [];
      assert (a + b)[1..] == a[1..] + b;
      FilterConcat(a[1..], b, p);
      assert head + (Filter(a[1..], p) + Filter(b, p)) == head + Filter(a[1..], p) + Filter(b, p);
    }
  }

  lemma {:induction false} FilterSnoc<T>(s: seq<T>, i: nat, p: T -> bool)
    requires i < |s|
    ensures Filter(s[..i + 1], p) == Filter(s[..i], p) + if p(s[i]) then [s[i]] else []
  {
    assert s[..i + 1] == s[..i] + [s[i]];
    FilterConcat(s[..i], [s[i]], p);
  }

  lemma {:induction false} FilterAgrees<T>(s: seq<T>, p: T -> bool, q: T -> bool)
    requires forall i :: 0 <= i < |s| ==> p(s[i]) == q(s[i])
    ensures Filter(s, p) == Filter(s, q)
  {
    if s != [] {
      FilterAgrees(s[1..], p, q);
    }
  }

  lemma {:induction false} FilterTwice<T>(s: seq<T>, p: T -> bool, q: T -> bool, both: T -> bool)
    requires forall i :: 0 <= i < |s| ==> both(s[i]) == (p(s[i]) && q(s[i]))
    ensures Filter(Filter(s, p), q) == Filter(s, both)
  {
    if s != [] {
      FilterTwice(s[1..], p, q, both);
      FilterConcat(if p(s[0]) then [s[0]] else [], Filter(s[1..], p), q);
    }
  }

  lemma {:induction false} FilterNone<T>(s: seq<T>, p: T -> bool)
    requires forall i :: 0 <= i < |s| ==> !p(s[i])
    ensures Filter(s, p) == []
  {
    if s != [] {
      FilterNone(s[1..], p);
    }
  }

  lemma {:induction false} FilterAll<T>(s: seq<T>, p: T -> bool)
    requires forall i :: 0 <= i < |s| ==> p(s[i])
    ensures Filter(s, p) == s
  {
    if s != [] {
      FilterAll(s[1..], p);
      assert s == [s[0]] + s[1..];
    }
  }

  function Map<T, U>(s: seq<T>, f: T -> U): (r: seq<U>)
    ensures |r| == |s|
    ensures forall i :: 0 <= i < |s| ==> r[i] == f(s[i])
  {
    seq(|s|, i requires 0 <= i < |s| => f(s[i]))
  }

  lemma {:induction false} FilterDisjoint<T>(s: seq<T>, p: T -> bool, q: T -> bool)
    requires forall i :: 0 <= i < |s| ==> !(p(s[i]) && q(s[i]))
    ensures Filter(Filter(s, p), q) == []
  {
    var never := (x: T) => false;
    FilterTwice(s, p, q, never);
    FilterNone(s, never);
  }

  /** A narrower test selects fewer elements, or the same. */
  lemma {:induction false} FilterNarrower<T>(s: seq<T>, p: T -> bool, q: T -> bool)
    requires forall i :: 0 <= i < |s| && p(s[i]) ==> q(s[i])
    ensures |Filter(s, p)| <= |Filter(s, q)|
    ensures |Filter(s, p)| == |Filter(s, q)| ==> forall i :: 0 <= i < |s| ==> p(s[i]) == q(s[i])
  {
    if s != [] {
      FilterNarrower(s[1..], p, q);
      assert forall i :: 1 <= i < |s| ==> s[i] == s[1..][i - 1];
    }
  }

  /** Where the k-th selected element of `s` stands. */
  lemma {:induction false} PositionOfPick<T>(s: seq<T>, p: T -> bool, k: nat) returns (j: nat)
    requires k < |Filter(s, p)|
    ensures j < |s| && s[j] == Filter(s, p)[k] && p(s[j])
    ensures Filter(s[..j + 1], p) == Filter(s, p)[..k + 1]
  {
    if p(s[0]) && k == 0 {
      j := 0;
      assert s[..1] == [s[0]];
    } else {
      var head := if p(s[0]) then [s[0]] else [];
      var i := PositionOfPick(s[1..], p, k - |head|);
      j := i + 1;
      assert s[..j + 1][1..] == s[1..][..i + 1];
      assert Filter(s, p)[..k + 1] == head + Filter(s[1..], p)[..k + 1 - |head|];
    }
  }

  /** Cutting `s` right behind its k-th selected element from `i` on. */
  lemma {:induction false} CutBehindPick<T>(s: seq<T>, p: T -> bool, i: nat, k: nat) returns (j: nat)
    requires i <= |s| && k < |Filter(s[i..], p)|
    ensures i < j <= |s| && s[j - 1] == Filter(s[i..], p)[k] && p(s[j - 1])
    ensures Filter(s[..j], p) == Filter(s[..i], p) + Filter(s[i..], p)[..k + 1]
    ensures |Filter(s[j..], p)| == |Filter(s[i..], p)| - (k + 1)
  {
    var d := PositionOfPick(s[i..], p, k);
    j := i + d + 1;
    assert s[..j] == s[..i] + s[i..][..d + 1];
    FilterConcat(s[..i], s[i..][..d + 1], p);
    assert s[i..] == s[i..][..d + 1] + s[j..];
    FilterConcat(s[i..][..d + 1], s[j..], p);
  }

  lemma {:induction false} FilterSplit<T>(s: seq<T>, p: T -> bool, i: nat)
    requires i <= |s|
    ensures Filter(s, p) == Filter(s[..i], p) + Filter(s[i..], p)
  {
    assert s == s[..i] + s[i..];
    FilterConcat(s[..i], s[i..], p);
  }

  /** Two sequences that agree element by element, on the test and on the image, select the same images. */
  lemma {:induction false} FilterAlongside<T, U, V>(a: seq<T>, b: seq<U>, p: T -> bool, q: U -> bool, f: T -> V,
          g: U -> V)
    requires |a| == |b|
    requires forall i :: 0 <= i < |a| ==> p(a[i]) == q(b[i]) && f(a[i]) == g(b[i])
    ensures Map(Filter(a, p), f) == Map(Filter(b, q), g)
  {
    if a != [] {
      FilterAlongside(a[1..], b[1..], p, q, f, g);
      var fa, fb := Filter(a[1..], p), Filter(b[1..], q);
      if p(a[0]) {
        assert Map([a[0]] + fa, f) == [f(a[0])] + Map(fa, f);
        assert Map([b[0]] + fb, g) == [g(b[0])] + Map(fb, g);
      }
    }
  }

  lemma {:induction false} MapConcat<T, U>(a: seq<T>, b: seq<T>, f: T -> U)
    ensures Map(a + b, f) == Map(a, f) + Map(b, f)
  {
  }

  lemma {:induction false} MapFirst<T, U>(s: seq<T>, f: T -> U)
    requires s != []
    ensures Map(s, f) == [f(s[0])] + Map(s[1..], f)
  {
  }

  lemma {:induction false} MapCut<T, U>(s: seq<T>, f: T -> U, i: nat)
    requires i <= |s|
    ensures Map(s[..i], f) == Map(s, f)[..i] && Map(s[i..], f) == Map(s, f)[i..]
  {
  }

  lemma {:induction false} MapOfTake<T, U>(s: seq<T>, n: nat, f: T -> U)
    requires n < |s|
    ensures Map(s[..n + 1], f) == [f(s[0])] + Map(s[1..][..n], f)
  {
  }

  lemma {:induction false} JoinAssociates<T>(a: seq<T>, b: seq<T>, c: seq<T>)
    ensures a + b + c == a + (b + c)
  {
  }

  function Concat<T>(parts: seq<seq<T>>): (r: seq<T>)
  {
    if parts == [] then [] else parts[0] + Concat(parts[1..])
  }

  lemma {:induction false} ConcatFirst<T>(first: seq<T>, rest: seq<seq<T>>)
    ensures Concat([first] + rest) == first + Concat(rest)
  {
    assert ([first] + rest)[1..] == rest;
  }

  lemma {:induction false} ConcatConcat<T>(a: seq<seq<T>>, b: seq<seq<T>>)
    ensures Concat(a + b) == Concat(a) + Concat(b)
  {
    if a == [] {
      assert a + b == b;
    } else {
      assert (a + b)[1..] == a[1..] + b;
      ConcatConcat(a[1..], b);
    }
  }

  lemma {:induction false} ConcatSnoc<T>(parts: seq<seq<T>>, last: seq<T>)
    ensures Concat(parts + [last]) == Concat(parts) + last
  {
    ConcatConcat(parts, [last]);
    assert Concat([last]) == last + Concat([]);
  }

  function Sum(numbers: seq<nat>): nat {
    if numbers == [] then 0 else Sum(numbers[..|numbers| - 1]) + numbers[|numbers| - 1]
  }

  lemma {:induction false} SumConcat(a: seq<nat>, b: seq<nat>)
    ensures Sum(a + b) == Sum(a) + Sum(b)
  {
    if b == [] {
      assert a + b == a;
    } else {
      assert (a + b)[..|a + b| - 1] == a + b[..|b| - 1];
      SumConcat(a, b[..|b| - 1]);
    }
  }

  lemma {:induction false} SliceSnoc<T>(s: seq<T>, i: nat, j: nat)
    requires i <= j < |s|
    ensures s[i..j + 1] == s[i..j] + [s[j]]
  {
  }

  /** The first `n` elements, or all of them when there are fewer. */
  function Take<T>(s: seq<T>, n: nat): (r: seq<T>)
    ensures r <= s && |r| == if n <= |s| then n else |s|
  {
    if n <= |s| then s[..n] else s
  }

  /** The last `n` elements, or all of them when there are fewer. */
  function Last<T>(s: seq<T>, n: nat): (r: seq<T>)
    ensures |r| == if n <= |s| then n else |s|
    ensures r == s[|s| - |r|..]
  {
    if n <= |s| then s[|s| - n..] else s
  }

  lemma {:induction false} EndsInSeparatorIff<T>(a: seq<T>, d: seq<T>, c: T)
    requires c !in d
    ensures (a + [c] + d)[|a| + |d|] == c <==> d == []
  {
    if d != [] {
      assert (a + [c] + d)[|a| + |d|] == d[|d| - 1];
    }
  }

  /** What follows the last separator is determined by the whole, and so is what precedes it. */
  lemma {:induction false} LastSeparator<T>(a: seq<T>, d: seq<T>, b: seq<T>, e: seq<T>, c: T)
    requires a + [c] + d == b + [c] + e && c !in d && c !in e
    ensures a == b && d == e
    decreases |d|
  {
    var s := a + [c] + d;
    assert |a| + |d| == |b| + |e| by { assert |s| == |b + [c] + e|; }
    EndsInSeparatorIff(a, d, c);
    EndsInSeparatorIff(b, e, c);
    if d == [] {
      assert a == s[..|s| - 1] == b;
    } else {
      var d', e' := d[..|d| - 1], e[..|e| - 1];
      assert d == d' + [d[|d| - 1]] && e == e' + [e[|e| - 1]];
      assert d[|d| - 1] == s[|s| - 1] == e[|e| - 1];
      assert a + [c] + d' == s[..|s| - 1] == b + [c] + e';
      LastSeparator(a, d', b, e', c);
    }
  }

  /** What precedes the first separator is determined by the whole, and so is what follows it. */
  lemma {:induction false} FirstSeparator<T>(a: seq<T>, d: seq<T>, b: seq<T>, e: seq<T>, c: T)
    requires a + [c] + d == b + [c] + e && c !in a && c !in b
    ensures a == b && d == e
  {
    var s, t := a + [c] + d, b + [c] + e;
    assert s[|a|] == c && t[|b|] == c;
    assert forall i :: 0 <= i < |a| ==> s[i] == a[i] != c;
    assert forall i :: 0 <= i < |b| ==> t[i] == b[i] != c;
    assert a == s[..|a|] && b == t[..|b|] && d == s[|a| + 1..] && e == t[|b| + 1..];
  }

  /** Text order by code points, as Python's `<=` and `sorted` compare strings. */
  predicate TextLeq(a: string, b: string) {
    a == "" || (b != "" && (a[0] < b[0] || (a[0] == b[0] && TextLeq(a[1..], b[1..]))))
  }

  lemma {:induction false} TextLeqTotal(a: string, b: string)
    ensures TextLeq(a, b) || TextLeq(b, a)
  {
    if a != "" && b != "" && a[0] == b[0] {
      TextLeqTotal(a[1..], b[1..]);
    }
  }

  lemma {:induction false} TextLeqAntisymmetric(a: string, b: string)
    requires TextLeq(a, b) && TextLeq(b, a)
    ensures a == b
  {
    if a != "" && b != "" {
      TextLeqAntisymmetric(a[1..], b[1..]);
      assert a == [a[0]] + a[1..] && b == [b[0]] + b[1..];
    }
  }

  lemma {:induction false} TextLeqTransitive(a: string, b: string, c: string)
    requires TextLeq(a, b) && TextLeq(b, c)
    ensures TextLeq(a, c)
  {
    if a != "" && a[0] == b[0] == c[0] {
      TextLeqTransitive(a[1..], b[1..], c[1..]);
    }
  }

  lemma {:induction false} TextLeqBehindPrefix(prefix: string, a: string, b: string)
    ensures TextLeq(prefix + a, prefix + b) <==> TextLeq(a, b)
  {
    if prefix == "" {
      assert prefix + a == a && prefix + b == b;
    } else {
      assert (prefix + a)[1..] == prefix[1..] + a && (prefix + b)[1..] == prefix[1..] + b;
      TextLeqBehindPrefix(prefix[1..], a, b);
    }
  }

  function Min(a: int, b: int): int {
    if a <= b then a else b
  }

  function Max(a: int, b: int): int {
    if a >= b then a else b
  }
}
