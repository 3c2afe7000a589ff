/**
 * The string functions the scripts use to build file names and tool
 * arguments: decimal printing of integers, `String.prototype.padStart`,
 * and the two `path` helpers `basename` and `resolve`.
 */
module Text {

  predicate IsDigit(ch: char) {
    '0' <= ch <= '9'
  }

  function Digit(d: nat): (ch: char)
    requires d < 10
    ensures IsDigit(ch)
  {
    ('0' as int + d) as char
  }

  function DigitValue(ch: char): nat {
    if IsDigit(ch) then (ch as int - '0' as int) as nat else 0
  }

  /** Decimal notation of a natural number, as `String(n)` prints it. */
  function NatToString(n: nat): (s: string)
    ensures 1 <= |s|
    ensures forall k :: 0 <= k < |s| ==> IsDigit(s[k])
    ensures n < 10 <==> |s| == 1
  {
    if n < 10 then [Digit(n)] else NatToString(n / 10) + [Digit(n % 10)]
  }

  /** Decimal notation of an integer, with a leading minus sign when negative. */
  function IntToString(i: int): (s: string)
    ensures 1 <= |s|
    ensures s[0] == '-' <==> i < 0
  {
    if i < 0 then "-" + NatToString(-i) else NatToString(i)
  }

  /** The value of a string of decimal digits, read most significant first. */
  function ParseDigits(s: string): nat {
    if s == [] then 0 else ParseDigits(s[..|s| - 1]) * 10 + DigitValue(s[|s| - 1])
  }

  lemma {:induction false} ParseNatToString(n: nat)
    ensures ParseDigits(NatToString(n)) == n
  {
    var s := NatToString(n);
    if n < 10 {
      assert s[..0] == [];
    } else {
      assert s[..|s| - 1] == NatToString(n / 10);
      ParseNatToString(n / 10);
    }
  }

  function Repeat(ch: char, n: nat): (r: string)
    ensures |r| == n
    ensures forall k :: 0 <= k < n ==> r[k] == ch
  {
    if n == 0 then [] else Repeat(ch, n - 1) + [ch]
  }

  /** `s.padStart(width, fill)`: `s` left-padded with `fill` up to `width` characters. */
  function PadStart(s: string, width: nat, fill: char): (r: string)
    ensures |r| == if |s| >= width then |s| else width
    ensures r[|r| - |s|..] == s
    ensures forall k :: 0 <= k < |r| - |s| ==> r[k] == fill
  {
    if |s| >= width then s else Repeat(fill, width - |s|) + s
  }

  /** `String(n).padStart(5, "0")`, the tile index in marker and output names. */
  function Pad5(n: nat): string {
    PadStart(NatToString(n), 5, '0')
  }

  lemma {:induction false} ParseZeros(z: string)
    requires forall k :: 0 <= k < |z| ==> z[k] == '0'
    ensures ParseDigits(z) == 0
  {
    if z != [] {
      ParseZeros(z[..|z| - 1]);
    }
  }

  lemma {:induction false} ParseLeadingZeros(z: string, s: string)
    requires forall k :: 0 <= k < |z| ==> z[k] == '0'
    ensures ParseDigits(z + s) == ParseDigits(s)
  {
    if s == [] {
      assert z + s == z;
      ParseZeros(z);
    } else {
      assert (z + s)[..|z + s| - 1] == z + s[..|s| - 1];
      ParseLeadingZeros(z, s[..|s| - 1]);
    }
  }

  /** Zero padding loses nothing: the padded index reads back as the index. */
  lemma Pad5RoundTrip(n: nat)
    ensures ParseDigits(Pad5(n)) == n
  {
    var s := NatToString(n);
    var p := Pad5(n);
    assert p == p[..|p| - |s|] + s;
    ParseLeadingZeros(p[..|p| - |s|], s);
    ParseNatToString(n);
  }

  /** Distinct tile indices get distinct padded names. */
  lemma Pad5Injective(m: nat, n: nat)
    requires Pad5(m) == Pad5(n)
    ensures m == n
  {
    Pad5RoundTrip(m);
    Pad5RoundTrip(n);
  }

  lemma {:induction false} NatToStringShort(n: nat, k: nat, bound: nat)
    requires 1 <= k && bound == Pow10(k) && n < bound
    ensures |NatToString(n)| <= k
  {
    if n >= 10 {
      assert Pow10(1) == 10;
      NatToStringShort(n / 10, k - 1, Pow10(k - 1));
    }
  }

  function Pow10(k: nat): nat {
    if k == 0 then 1 else 10 * Pow10(k - 1)
  }

  /** Indices below 100000 are padded to exactly five characters, all digits. */
  lemma Pad5Width(n: nat)
    requires n < 100000
    ensures |Pad5(n)| == 5
    ensures forall k :: 0 <= k < 5 ==> IsDigit(Pad5(n)[k])
  {
    assert Pow10(5) == 100000;
    NatToStringShort(n, 5, 100000);
    var s := NatToString(n);
    var p := Pad5(n);
    forall k | 0 <= k < 5 ensures IsDigit(p[k]) {
      if k >= 5 - |s| {
        assert p[k] == p[5 - |s|..][k - (5 - |s|)];
      }
    }
  }

  /** The path without its trailing separators. */
  function StripTrailingSlashes(p: string): (r: string)
    ensures |r| <= |p| && r == p[..|r|]
    ensures r == [] || r[|r| - 1] != '/'
    ensures forall k :: |r| <= k < |p| ==> p[k] == '/'
  {
    if p == [] || p[|p| - 1] != '/' then p else StripTrailingSlashes(p[..|p| - 1])
  }

  /** The part of `p` after its last separator (all of `p` when it has none). */
  function AfterLastSlash(p: string): (r: string)
    ensures |r| <= |p| && r == p[|p| - |r|..]
    ensures forall k :: 0 <= k < |r| ==> r[k] != '/'
    ensures |r| < |p| ==> p[|p| - |r| - 1] == '/'
  {
    if p == [] || p[|p| - 1] == '/' then [] else AfterLastSlash(p[..|p| - 1]) + [p[|p| - 1]]
  }

  /** POSIX `path.basename(p)`: the last path segment, trailing separators ignored. */
  function Basename(p: string): (r: string)
    ensures forall k :: 0 <= k < |r| ==> r[k] != '/'
  {
    AfterLastSlash(StripTrailingSlashes(p))
  }

  /** `path.resolve(base, p)` for an absolute `base`: `p` itself when absolute, else joined under `base`. */
  function Resolve(base: string, p: string): string {
    if |p| > 0 && p[0] == '/' then p else base + "/" + p
  }

  /**
   * An absolute path resolves to itself; a relative one is placed under the
   * base after one separator; under an absolute base the result is absolute.
   */
  lemma ResolveCases(base: string, p: string)
    ensures var r := Resolve(base, p);
      && (|p| > 0 && p[0] == '/' ==> r == p)
      && (!(|p| > 0 && p[0] == '/') ==>
            |r| == |base| + 1 + |p| && r[..|base|] == base && r[|base|] == '/' && r[|base| + 1..] == p)
      && (|base| > 0 && base[0] == '/' ==> |r| > 0 && r[0] == '/')
  {
  }
}
