/**
 * The small part of the Java platform that Lab4.java leans on:
 * nullable `String` references, 32-bit `int`, `String.trim()`,
 * `String.hashCode()`, `Objects.equals` and `Objects.hash`.
 */
module JavaLang {

  /** A Java reference that may be `null` (`None`). */
  datatype Option<+T> = None | Some(value: T)

  /** The outcome of a Java call that either returns or throws. */
  datatype Result<+T, +E> = Success(value: T) | Failure(error: E)

  /** A `java.lang.String` reference: `null` or a sequence of characters. */
  type JavaString = Option<string>

  /** Java's primitive `int`. */
  newtype int32 = x: int | -0x8000_0000 <= x < 0x8000_0000

  // ---------------------------------------------------------------------------
  // String.trim()
  // ---------------------------------------------------------------------------

  /** `String.trim()` strips every character whose code is at most U+0020. */
  predicate IsTrimmable(c: char) {
    c <= ' '
  }

  /** Reference definition: every character of `s` is one that `trim()` strips. */
  predicate IsBlank(s: string) {
    forall i :: 0 <= i < |s| ==> IsTrimmable(s[i])
  }

  /** Drops the leading run of strippable characters: a suffix of `s`. */
  function TrimLeading(s: string): (r: string)
    ensures |r| <= |s| && r == s[|s| - |r|..]
    ensures IsBlank(s[..|s| - |r|])
    ensures r == [] || !IsTrimmable(r[0])
  {
    if |s| > 0 && IsTrimmable(s[0]) then
      var r := TrimLeading(s[1..]);
      var k := |s| - |r|;
      assert IsBlank(s[..k]) by {
        forall i | 0 <= i < k ensures IsTrimmable(s[..k][i]) {
          if i > 0 { assert s[..k][i] == s[1..][..k - 1][i - 1]; }
        }
      }
      r
    else
      s
  }

  /** Drops the trailing run of strippable characters: a prefix of `s`. */
  function TrimTrailing(s: string): (r: string)
    ensures |r| <= |s| && r == s[..|r|]
    ensures IsBlank(s[|r|..])
    ensures r == [] || !IsTrimmable(r[|r| - 1])
  {
    if |s| > 0 && IsTrimmable(s[|s| - 1]) then
      var r := TrimTrailing(s[..|s| - 1]);
      assert IsBlank(s[|r|..]) by {
        forall i | 0 <= i < |s| - |r| ensures IsTrimmable(s[|r|..][i]) {
          if i < |s| - 1 - |r| { assert s[|r|..][i] == s[..|s| - 1][|r|..][i]; }
        }
      }
      r
    else
      s
  }

  /**
   * `s.trim()`: the part of `s` left between the leading and the trailing
   * runs of characters at most U+0020.
   */
  function Trim(s: string): (r: string)
    ensures |r| <= |s|
    ensures r == [] || (!IsTrimmable(r[0]) && !IsTrimmable(r[|r| - 1]))
    ensures r == [] <==> IsBlank(s)
  {
    var t := TrimLeading(s);
    var r := TrimTrailing(t);
    StripsKeepBlankness(s, t, r);
    r
  }

  /** After stripping a blank prefix and then a blank suffix, nothing is left exactly when `s` was blank. */
  lemma StripsKeepBlankness(s: string, t: string, r: string)
    requires |t| <= |s| && t == s[|s| - |t|..] && IsBlank(s[..|s| - |t|])
    requires t == [] || !IsTrimmable(t[0])
    requires |r| <= |t| && r == t[..|r|] && IsBlank(t[|r|..])
    ensures r != [] ==> r[0] == t[0]
    ensures r == [] <==> IsBlank(s)
  {
    var i := |s| - |t|;
    if r == [] {
      assert t == [];
      forall k | 0 <= k < |s| ensures IsTrimmable(s[k]) {
        assert s[k] == s[..i][k];
      }
    } else {
      assert s[i] == t[0];
    }
  }

  /** `r` sits in `s` at offset `i`, with only strippable characters before and after it. */
  predicate Middle(s: string, r: string, i: int) {
    0 <= i <= |s| - |r| && r == s[i..i + |r|] && IsBlank(s[..i]) && IsBlank(s[i + |r|..])
  }

  /** Stripping a blank prefix and then a blank suffix leaves a middle part. */
  lemma StripsLeaveMiddle(s: string, t: string, r: string)
    requires |t| <= |s| && t == s[|s| - |t|..] && IsBlank(s[..|s| - |t|])
    requires |r| <= |t| && r == t[..|r|] && IsBlank(t[|r|..])
    ensures Middle(s, r, |s| - |t|)
  {
    var i := |s| - |t|;
    forall k | 0 <= k < |r| ensures r[k] == s[i + k] {
      assert r[k] == t[k];
    }
    forall k | i + |r| <= k < |s| ensures IsTrimmable(s[k]) {
      assert s[k] == t[|r|..][k - i - |r|];
    }
    assert IsBlank(s[i + |r|..]);
  }

  /**
   * `trim()` removes exactly a leading and a trailing run of characters at
   * most U+0020: its result is a middle part of `s`, and (by `Trim`'s own
   * contract) begins and ends with characters above U+0020.
   */
  lemma TrimIsMiddle(s: string)
    ensures exists i :: Middle(s, Trim(s), i)
  {
    var t := TrimLeading(s);
    var r := TrimTrailing(t);
    StripsLeaveMiddle(s, t, r);
    assert Middle(s, Trim(s), |s| - |t|);
  }

  /** `s == null || s.trim().isEmpty()`: the guard of the three text validators. */
  function IsNullOrTrimEmpty(s: JavaString): (r: bool)
    ensures r <==> s.None? || IsBlank(s.value)
  {
    s.None? || Trim(s.value) == []
  }

  // ---------------------------------------------------------------------------
  // Java int arithmetic and hashing
  // ---------------------------------------------------------------------------

  /** `a` and `b` agree as 32-bit two's-complement words. */
  predicate Congruent(a: int, b: int) {
    (a - b) % 0x1_0000_0000 == 0
  }

  /** The `int` that Java computes for the mathematical value `x` (wrap-around). */
  function Wrap(x: int): (r: int32)
    ensures Congruent(r as int, x)
    ensures -0x8000_0000 <= x < 0x8000_0000 ==> r as int == x
  {
    ((x + 0x8000_0000) % 0x1_0000_0000 - 0x8000_0000) as int32
  }

  /** `h * 31 + c` evaluated in Java `int` arithmetic. */
  function Step(h: int32, c: int): (r: int32)
    ensures Congruent(r as int, 31 * h as int + c)
  {
    Wrap(31 * h as int + c)
  }

  /**
   * The documented value of `String.hashCode()`, s[0]*31^(n-1) + ... + s[n-1],
   * as an unbounded integer in Horner form: 31 * (value of the prefix) + last character.
   */
  function Polynomial(s: string): (v: int) {
    if s == [] then 0 else 31 * Polynomial(s[..|s| - 1]) + s[|s| - 1] as int
  }

  lemma CongruentStep(a: int, b: int, c: int)
    requires Congruent(a, b)
    ensures Congruent(31 * a + c, 31 * b + c)
  {
    var q := (a - b) / 0x1_0000_0000;
    assert a - b == q * 0x1_0000_0000;
    var d := (31 * a + c) - (31 * b + c);
    assert d == (31 * q) * 0x1_0000_0000;
    assert d / 0x1_0000_0000 == 31 * q;
  }

  lemma CongruentTransitive(a: int, b: int, c: int)
    requires Congruent(a, b) && Congruent(b, c)
    ensures Congruent(a, c)
  {
    var p, q := (a - b) / 0x1_0000_0000, (b - c) / 0x1_0000_0000;
    assert a - c == (p + q) * 0x1_0000_0000;
  }

  /**
   * `String.hashCode()`: the loop `h = 31 * h + c` over the characters, in
   * `int` arithmetic. It is the documented polynomial reduced to 32 bits.
   */
  function StringHash(s: string): (r: int32)
    ensures Congruent(r as int, Polynomial(s))
  {
    if s == [] then 0 else
      var p, c := s[..|s| - 1], s[|s| - 1] as int;
      var h := StringHash(p);
      CongruentStep(h as int, Polynomial(p), c);
      CongruentTransitive(Step(h, c) as int, 31 * h as int + c, Polynomial(s));
      Step(h, c)
  }

  /** The hash `Objects.hash` gives a `String` argument: 0 for `null`, the string's hash otherwise. */
  function NullableStringHash(s: JavaString): (r: int32)
    ensures s.None? ==> r == 0
    ensures s.Some? ==> Congruent(r as int, Polynomial(s.value))
  {
    match s
    case None => 0
    case Some(t) => StringHash(t)
  }

  /** The value `Arrays.hashCode` documents, unbounded and in Horner form: seed 1, then `31 * h + e` per element. */
  function HashPolynomial(hashes: seq<int32>): (v: int) {
    if hashes == [] then 1 else 31 * HashPolynomial(hashes[..|hashes| - 1]) + hashes[|hashes| - 1] as int
  }

  /**
   * `Objects.hash(values...)`, which is `Arrays.hashCode`: start from 1 and
   * fold `31 * result + hash(element)` over the elements' hashes in `int`
   * arithmetic. For any number of values it is the documented value reduced to 32 bits.
   */
  function ObjectsHash(hashes: seq<int32>): (r: int32)
    ensures Congruent(r as int, HashPolynomial(hashes))
  {
    if hashes == [] then 1 else
      var p, e := hashes[..|hashes| - 1], hashes[|hashes| - 1] as int;
      var h := ObjectsHash(p);
      CongruentStep(h as int, HashPolynomial(p), e);
      CongruentTransitive(Step(h, e) as int, 31 * h as int + e, HashPolynomial(hashes));
      Step(h, e)
  }

  /** `Objects.hash(a, b)` is the documented `31 * (31 * 1 + a) + b`, reduced to 32 bits. */
  lemma ObjectsHashOfPair(a: int32, b: int32)
    ensures Congruent(ObjectsHash([a, b]) as int, 961 + 31 * a as int + b as int)
  {
    var first := ObjectsHash([a]);
    assert [a, b][..1] == [a];
    assert [a][..0] == [];
    assert ObjectsHash([a][..0]) == 1;
    assert first == Step(1, a as int);
    CongruentStep(first as int, 31 + a as int, b as int);
    CongruentTransitive(ObjectsHash([a, b]) as int, 31 * first as int + b as int, 961 + 31 * a as int + b as int);
  }

  /** `Objects.equals(a, b)` on two `String` references: null-safe content equality. */
  function ObjectsEquals(a: JavaString, b: JavaString): (r: bool)
    ensures r <==> a == b
    ensures a.None? ==> (r <==> b.None?)
  {
    match a
    case None => b.None?
    case Some(s) => b.Some? && s == b.value
  }
}
