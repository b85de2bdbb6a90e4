/** The text format of snapshot lines and staging-file names: decimal output as
    `printf("%d")` writes it, decimal input as `atoi` reads it, and the
    `"%s.%03d"` rule that names a rank's staging file. */
module LineFormat {

  predicate IsDigit(c: char) {
    '0' <= c <= '9'
  }

  predicate AllDigits(s: string) {
    forall i :: 0 <= i < |s| ==> IsDigit(s[i])
  }

  /** The white space `atoi` skips before the number: space, \t, \n, \v, \f, \r. */
  predicate IsSpace(c: char) {
    c == ' ' || '\t' <= c <= '\r'
  }

  function DigitValue(c: char): (d: nat)
    requires IsDigit(c)
    ensures d < 10
  {
    (c as int) - ('0' as int)
  }

  function DigitChar(d: nat): (c: char)
    requires d < 10
    ensures IsDigit(c) && DigitValue(c) == d
  {
    (('0' as int) + d) as char
  }

  /** Decimal digits of `n`, most significant first, without leading zeros. */
  function NatDigits(n: nat): (s: string)
    ensures 0 < |s| && AllDigits(s)
    ensures n < 10 <==> |s| == 1
  {
    if n < 10 then [DigitChar(n)] else NatDigits(n / 10) + [DigitChar(n % 10)]
  }

  /** The text `%d` produces for `v`. */
  function FormatInt(v: int): (s: string)
    ensures 0 < |s|
    ensures s[0] == '-' <==> v < 0
    ensures 0 <= v ==> AllDigits(s)
    ensures v < 0 ==> AllDigits(s[1..]) && 1 < |s|
  {
    if v < 0 then "-" + NatDigits(-v) else NatDigits(v)
  }

  /** Value of a string of decimal digits (empty gives 0). */
  function DigitsValue(s: string): nat
    requires AllDigits(s)
  {
    if s == [] then 0 else DigitsValue(s[..|s| - 1]) * 10 + DigitValue(s[|s| - 1])
  }

  /** The longest prefix of `s` made of digits. */
  function LeadingDigits(s: string): (p: string)
    ensures |p| <= |s| && p == s[..|p|] && AllDigits(p)
    ensures |p| < |s| ==> !IsDigit(s[|p|])
  {
    if s == [] || !IsDigit(s[0]) then [] else [s[0]] + LeadingDigits(s[1..])
  }

  /** `s` without its leading white space. */
  function SkipSpaces(s: string): (t: string)
    ensures |t| <= |s|
    ensures t == [] || !IsSpace(t[0])
  {
    if s != [] && IsSpace(s[0]) then SkipSpaces(s[1..]) else s
  }

  /** What `atoi` skips is a run of white space at the front: the rest is a
      suffix of `s`, and everything before it is white space. */
  lemma {:induction false} SkipSpacesSuffix(s: string)
    ensures SkipSpaces(s) == s[|s| - |SkipSpaces(s)|..]
    ensures forall i :: 0 <= i < |s| - |SkipSpaces(s)| ==> IsSpace(s[i])
  {
    if s != [] && IsSpace(s[0]) {
      SkipSpacesSuffix(s[1..]);
      assert s[1..][|s| - 1 - |SkipSpaces(s)|..] == s[|s| - |SkipSpaces(s)|..];
      forall i | 0 <= i < |s| - |SkipSpaces(s)| ensures IsSpace(s[i]) {
        if i > 0 { assert s[i] == s[1..][i - 1]; }
      }
    }
  }

  /** After the leading white space, `s` starts with a digit or a sign. */
  predicate StartsNumber(s: string) {
    var t := SkipSpaces(s);
    t != [] && (IsDigit(t[0]) || t[0] == '-' || t[0] == '+')
  }

  /** After the leading white space, `s` starts with a minus sign. */
  predicate StartsNegative(s: string) {
    var t := SkipSpaces(s);
    t != [] && t[0] == '-'
  }

  /** `atoi`: optional white space, optional sign, then the longest run of
      digits; text that is not a number reads as 0. */
  function Atoi(s: string): (r: int)
    ensures !StartsNumber(s) ==> r == 0
    ensures r < 0 ==> StartsNegative(s)
  {
    var t := SkipSpaces(s);
    if t != [] && t[0] == '-' then -(DigitsValue(LeadingDigits(t[1..])) as int)
    else if t != [] && t[0] == '+' then DigitsValue(LeadingDigits(t[1..]))
    else DigitsValue(LeadingDigits(t))
  }

  /** Reading the digits of `n` gives back `n`. */
  lemma {:induction false} NatDigitsValue(n: nat)
    ensures DigitsValue(NatDigits(n)) == n
  {
    if n >= 10 {
      var s := NatDigits(n);
      NatDigitsValue(n / 10);
      assert s[..|s| - 1] == NatDigits(n / 10);
    }
  }

  /** A string of digits is its own longest digit prefix. */
  lemma {:induction false} LeadingDigitsOfDigits(s: string)
    requires AllDigits(s)
    ensures LeadingDigits(s) == s
  {
    if s != [] {
      LeadingDigitsOfDigits(s[1..]);
    }
  }

  /** Reading the text of a non-negative number: no sign, no white space. */
  lemma AtoiOfDigits(n: nat)
    ensures Atoi(NatDigits(n)) == n
  {
    var d := NatDigits(n);
    assert IsDigit(d[0]) && !IsSpace(d[0]);
    assert SkipSpaces(d) == d;
    assert d[0] != '-' && d[0] != '+';
    LeadingDigitsOfDigits(d);
    NatDigitsValue(n);
  }

  /** Round trip of a snapshot line: `atoi` reads back what `%d` wrote, for every int. */
  lemma AtoiFormatInt(v: int)
    ensures Atoi(FormatInt(v)) == v
  {
    if v < 0 {
      var d := NatDigits(-v);
      var t := "-" + d;
      assert SkipSpaces(t) == t;
      assert t[1..] == d;
      LeadingDigitsOfDigits(d);
      NatDigitsValue(-v);
    } else {
      AtoiOfDigits(v);
    }
  }

  function Zeros(k: nat): (z: string)
    ensures |z| == k && forall i :: 0 <= i < k ==> z[i] == '0'
  {
    if k == 0 then [] else "0" + Zeros(k - 1)
  }

  /** Leading zeros do not change the value of a digit string. */
  lemma {:induction false} LeadingZerosValue(k: nat, s: string)
    requires AllDigits(s)
    ensures AllDigits(Zeros(k) + s) && DigitsValue(Zeros(k) + s) == DigitsValue(s)
    decreases |s|, k
  {
    var zs := Zeros(k) + s;
    if s == [] {
      assert zs == Zeros(k);
      if k > 0 {
        assert zs[..|zs| - 1] == Zeros(k - 1);
        LeadingZerosValue(k - 1, []);
        assert Zeros(k - 1) + [] == Zeros(k - 1);
      }
    } else {
      var s' := s[..|s| - 1];
      assert zs[..|zs| - 1] == Zeros(k) + s';
      LeadingZerosValue(k, s');
    }
  }

  /** `%03d` of a non-negative number: its digits, zero-padded to width 3. */
  function Pad3(n: nat): (s: string)
    ensures 3 <= |s| && AllDigits(s)
  {
    var d := NatDigits(n);
    if |d| < 3 then Zeros(3 - |d|) + d else d
  }

  /** Reading the padded digits of `n` gives back `n`. */
  lemma Pad3Value(n: nat)
    ensures DigitsValue(Pad3(n)) == n
  {
    var d := NatDigits(n);
    NatDigitsValue(n);
    if |d| < 3 {
      LeadingZerosValue(3 - |d|, d);
    }
  }

  /** Distinct ranks get distinct padded numbers. */
  lemma Pad3Injective(a: nat, b: nat)
    requires Pad3(a) == Pad3(b)
    ensures a == b
  {
    Pad3Value(a);
    Pad3Value(b);
  }

  lemma Pad3Examples()
    ensures Pad3(0) == "000" && Pad3(7) == "007" && Pad3(42) == "042" && Pad3(1234) == "1234"
  {
    assert NatDigits(42) == NatDigits(4) + [DigitChar(2)];
    assert NatDigits(1234) == NatDigits(123) + [DigitChar(4)];
    assert NatDigits(123) == NatDigits(12) + [DigitChar(3)];
    assert NatDigits(12) == NatDigits(1) + [DigitChar(2)];
  }

  /** Name of the staging file of `rank`: the base path, a dot, the padded rank. */
  function StagingPath(path: string, rank: nat): (p: string)
    ensures |path| + 4 <= |p| && p[..|path|] == path && p[|path|] == '.'
  {
    path + "." + Pad3(rank)
  }

  /** Staging files of distinct ranks are distinct, and none is the canonical file. */
  lemma StagingPathsDistinct(path: string, a: nat, b: nat)
    ensures StagingPath(path, a) != path
    ensures StagingPath(path, a) == StagingPath(path, b) ==> a == b
  {
    if StagingPath(path, a) == StagingPath(path, b) {
      var k := |path| + 1;
      assert StagingPath(path, a)[k..] == Pad3(a);
      assert StagingPath(path, b)[k..] == Pad3(b);
      Pad3Injective(a, b);
    }
  }
}
