/** Values of the JavaScript front end as the model sees them: optional values,
    identifiers compared with `===`, truthiness, whitespace and `trim`, and sums. */
module Common {

  datatype Option<+T> = None | Some(value: T)

  /** An identifier as it reaches the front end: a number from the server's JSON,
      or a string from a route parameter or a `<select>` value. Datatype equality
      is JavaScript's `===`: `Num(5) != Text("5")`. */
  datatype Key = Num(n: int) | Text(s: string)

  /** A page a component navigates or redirects to. */
  datatype Route = LoginRoute | DashboardRoute | GroupRoute(groupId: Key)

  /** `!!k` for an identifier: `0` and `""` are falsy. */
  predicate KeyTruthy(k: Key)
  {
    match k
    case Num(n) => n != 0
    case Text(s) => s != ""
  }

  /** `!!x` for a value that may be `undefined`. */
  predicate Present(x: Option<Key>)
  {
    x.Some? && KeyTruthy(x.value)
  }

  /** `!!x` for a number that may be `undefined` or `NaN` (both are `None`). */
  predicate NumTruthy(x: Option<real>)
  {
    x.Some? && x.value != 0.0
  }

  /** `!!s` for a string that may be `undefined`. */
  predicate TextTruthy(s: Option<string>)
  {
    s.Some? && s.value != ""
  }

  /** `x || 0` for a number that may be `undefined` or `NaN`. */
  function OrZero(x: Option<real>): (r: real)
    ensures x.Some? ==> r == x.value
    ensures x.None? ==> r == 0.0
  {
    if NumTruthy(x) then x.value else 0.0
  }

  /** `a || b` on strings: the first one that is a non-empty string. */
  function FirstTruthy(a: Option<string>, b: string): (r: string)
    ensures TextTruthy(a) ==> r == a.value
    ensures !TextTruthy(a) ==> r == b
  {
    if TextTruthy(a) then a.value else b
  }

  /** The characters that `String.prototype.trim` strips and that the regular
      expression class `\s` matches: ECMAScript WhiteSpace and LineTerminator. */
  predicate IsWhitespace(c: char)
  {
    || c == '\t' || c == '\n' || c == '\U{000B}' || c == '\U{000C}' || c == '\r'
    || c == ' ' || c == '\U{00A0}' || c == '\U{1680}'
    || ('\U{2000}' <= c <= '\U{200A}')
    || c == '\U{2028}' || c == '\U{2029}' || c == '\U{202F}' || c == '\U{205F}'
    || c == '\U{3000}' || c == '\U{FEFF}'
  }

  /** Every character of `s` is whitespace (vacuously true of ""). */
  predicate AllWhitespace(s: string)
  {
    forall i :: 0 <= i < |s| ==> IsWhitespace(s[i])
  }

  function TrimStart(s: string): (r: string)
    ensures |r| <= |s|
    ensures r == s[|s| - |r|..]
    ensures r != [] ==> !IsWhitespace(r[0])
  {
    if s != [] && IsWhitespace(s[0]) then TrimStart(s[1..]) else s
  }

  function TrimEnd(s: string): (r: string)
    ensures |r| <= |s|
    ensures r == s[..|r|]
    ensures r != [] ==> !IsWhitespace(r[|r| - 1])
  {
    if s != [] && IsWhitespace(s[|s| - 1]) then TrimEnd(s[..|s| - 1]) else s
  }

  /** `s.trim()`: leading and trailing whitespace removed. */
  function Trim(s: string): (r: string)
  {
    TrimEnd(TrimStart(s))
  }

  lemma {:induction false} TrimStartEmptyIffAllWhitespace(s: string)
    ensures TrimStart(s) == [] <==> AllWhitespace(s)
  {
    if s == [] {
    } else if IsWhitespace(s[0]) {
      var rest := s[1..];
      TrimStartEmptyIffAllWhitespace(rest);
      assert TrimStart(s) == TrimStart(rest);
      if AllWhitespace(rest) {
        forall i | 0 < i < |s| ensures IsWhitespace(s[i]) {
          assert s[i] == rest[i - 1];
        }
      } else {
        var k :| 0 <= k < |rest| && !IsWhitespace(rest[k]);
        assert s[k + 1] == rest[k];
      }
    } else {
      assert TrimStart(s) == s;
    }
  }

  lemma {:induction false} TrimEndOfNonEmpty(s: string)
    requires s != [] && !IsWhitespace(s[0])
    ensures TrimEnd(s) != []
  {
    if IsWhitespace(s[|s| - 1]) {
      assert |s| > 1;
      TrimEndOfNonEmpty(s[..|s| - 1]);
    }
  }

  /** `!s.trim()` holds exactly when `s` is empty or all whitespace: the test the
      forms use for a blank name or description. */
  lemma TrimEmptyIffAllWhitespace(s: string)
    ensures Trim(s) == [] <==> AllWhitespace(s)
  {
    TrimStartEmptyIffAllWhitespace(s);
    var t := TrimStart(s);
    if t != [] {
      TrimEndOfNonEmpty(t);
    }
  }

  /** `xs.reduce((acc, x) => acc + x, 0)`: a left fold, in exact arithmetic. */
  function Sum(xs: seq<real>): real
  {
    if xs == [] then 0.0 else Sum(xs[..|xs| - 1]) + xs[|xs| - 1]
  }

  /** A sum of non-negative terms is zero exactly when every term is zero. */
  lemma {:induction false} SumNonNegativeZero(xs: seq<real>)
    requires forall i :: 0 <= i < |xs| ==> xs[i] >= 0.0
    ensures Sum(xs) >= 0.0
    ensures Sum(xs) == 0.0 <==> forall i :: 0 <= i < |xs| ==> xs[i] == 0.0
  {
    if xs != [] {
      var init := xs[..|xs| - 1];
      SumNonNegativeZero(init);
      if Sum(xs) == 0.0 {
        forall i | 0 <= i < |xs| ensures xs[i] == 0.0 {
          if i < |xs| - 1 { assert xs[i] == init[i]; }
        }
      }
    }
  }

  /** `n` equal terms sum to `n` times the term. */
  lemma {:induction false} SumConstant(n: nat, c: real)
    ensures Sum(seq(n, i => c)) == n as real * c
  {
    if n > 0 {
      SumConstant(n - 1, c);
      assert seq(n, i => c)[..n - 1] == seq(n - 1, i => c);
    }
  }

  /** Removes every occurrence of `x`: `xs.filter(y => y !== x)`. */
  function Without(xs: seq<Key>, x: Key): (r: seq<Key>)
    ensures x !in r
    ensures forall y :: y != x ==> multiset(r)[y] == multiset(xs)[y]
  {
    if xs == [] then []
    else
      var init, last := xs[..|xs| - 1], xs[|xs| - 1];
      assert xs == init + [last];
      if last == x then Without(init, x) else Without(init, x) + [last]
  }

  /** Filtering out a value that does not occur changes nothing. */
  lemma {:induction false} WithoutAbsent(xs: seq<Key>, x: Key)
    requires x !in xs
    ensures Without(xs, x) == xs
  {
    if xs != [] {
      assert xs[..|xs| - 1] + [xs[|xs| - 1]] == xs;
      WithoutAbsent(xs[..|xs| - 1], x);
    }
  }

  /** A sequence without repeated elements. */
  predicate Distinct<T(==)>(xs: seq<T>)
  {
    forall i, j :: 0 <= i < j < |xs| ==> xs[i] != xs[j]
  }

  lemma {:induction false} WithoutKeepsDistinct(xs: seq<Key>, x: Key)
    requires Distinct(xs)
    ensures Distinct(Without(xs, x))
  {
    var r := Without(xs, x);
    forall i, j | 0 <= i < j < |r| ensures r[i] != r[j] {
      if r[i] == r[j] {
        assert multiset(r)[r[i]] >= 2 by {
          assert r == r[..i] + [r[i]] + r[i + 1..j] + [r[j]] + r[j + 1..];
        }
        DistinctCountAtMostOne(xs, r[i]);
      }
    }
  }

  lemma {:induction false} DistinctCountAtMostOne(xs: seq<Key>, y: Key)
    requires Distinct(xs)
    ensures multiset(xs)[y] <= 1
  {
    if xs != [] {
      var init := xs[..|xs| - 1];
      assert xs == init + [xs[|xs| - 1]];
      assert Distinct(init);
      DistinctCountAtMostOne(init, y);
      if xs[|xs| - 1] == y {
        assert y !in init;
      }
    }
  }

  /** A checkbox list's toggle: `xs.includes(x) ? xs.filter(y => y !== x) : [...xs, x]`. */
  function Toggle(xs: seq<Key>, x: Key): (r: seq<Key>)
    ensures x in r <==> x !in xs
    ensures x !in xs ==> r == xs + [x]
    ensures forall y :: y != x ==> multiset(r)[y] == multiset(xs)[y]
  {
    if x in xs then Without(xs, x) else xs + [x]
  }

  /** A list without repeats stays without repeats. */
  lemma ToggleKeepsDistinct(xs: seq<Key>, x: Key)
    requires Distinct(xs)
    ensures Distinct(Toggle(xs, x))
  {
    if x in xs {
      WithoutKeepsDistinct(xs, x);
    }
  }

  /** Toggling twice gives back the same elements; an element that was absent is
      appended and removed again, so the list is exactly restored. */
  lemma {:induction false} ToggleTwice(xs: seq<Key>, x: Key)
    requires Distinct(xs)
    ensures multiset(Toggle(Toggle(xs, x), x)) == multiset(xs)
    ensures x !in xs ==> Toggle(Toggle(xs, x), x) == xs
  {
    if x in xs {
      DistinctCountAtMostOne(xs, x);
      assert multiset(Toggle(Toggle(xs, x), x))[x] == 1;
      assert forall y :: multiset(Toggle(Toggle(xs, x), x))[y] == multiset(xs)[y];
    } else {
      assert xs + [x] == (xs + [x])[..|xs|] + [x];
      assert (xs + [x])[..|xs|] == xs;
      WithoutAbsent(xs, x);
    }
  }
}
