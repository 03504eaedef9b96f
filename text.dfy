/**
 * String helpers shared by the model: prefix and suffix tests, Python's str.join,
 * str(int) with its inverse, ASCII lower-casing and the two posixpath functions the
 * source uses (basename and join).
 */
module Text {

  import opened Wrappers

  predicate StartsWith(s: string, prefix: string) {
    |prefix| <= |s| && s[..|prefix|] == prefix
  }

  predicate EndsWith(s: string, suffix: string) {
    |suffix| <= |s| && s[|s| - |suffix|..] == suffix
  }

  /** Concatenation of a sequence of strings ("".join). */
  function Concat(parts: seq<string>): string {
    if parts == [] then "" else Concat(parts[..|parts| - 1]) + parts[|parts| - 1]
  }

  lemma {:induction false} ConcatAppend(a: seq<string>, b: seq<string>)
    ensures Concat(a + b) == Concat(a) + Concat(b)
    decreases |b|
  {
    if b == [] {
      assert a + b == a;
    } else {
      var b' := b[..|b| - 1];
      var last := b[|b| - 1];
      assert (a + b)[..|a + b| - 1] == a + b' && (a + b)[|a + b| - 1] == last;
      assert Concat(a + b) == Concat(a + b') + last;
      assert Concat(b) == Concat(b') + last;
      ConcatAppend(a, b');
    }
  }

  /** Concat is empty exactly when every part is empty. */
  lemma {:induction false} ConcatEmpty(parts: seq<string>)
    ensures Concat(parts) == "" <==> forall i :: 0 <= i < |parts| ==> parts[i] == ""
  {
    if parts != [] {
      ConcatEmpty(parts[..|parts| - 1]);
      assert forall i :: 0 <= i < |parts| - 1 ==> parts[..|parts| - 1][i] == parts[i];
    }
  }

  /** sep.join(parts), as Python's str.join. */
  function Join(sep: string, parts: seq<string>): string {
    if |parts| == 0 then ""
    else if |parts| == 1 then parts[0]
    else parts[0] + sep + Join(sep, parts[1..])
  }

  /** The length of a join: every part plus one separator between each neighbouring pair. */
  lemma {:induction false} JoinLength(sep: string, parts: seq<string>)
    requires |parts| > 0
    ensures |Join(sep, parts)| == |Concat(parts)| + (|parts| - 1) * |sep|
  {
    if |parts| == 1 {
      assert Concat(parts) == Concat([]) + parts[0];
    } else {
      JoinLength(sep, parts[1..]);
      assert parts == [parts[0]] + parts[1..];
      ConcatAppend([parts[0]], parts[1..]);
      assert Concat([parts[0]]) == Concat([]) + parts[0];
    }
  }

  // ---------------------------------------------------------------------------
  // Decimal notation (Python's str(int) and int(str)).

  predicate IsDigit(c: char) {
    '0' <= c <= '9'
  }

  predicate AllDigits(s: string) {
    forall i :: 0 <= i < |s| ==> IsDigit(s[i])
  }

  function DigitChar(d: nat): (c: char)
    requires d < 10
    ensures IsDigit(c) && (c as int) - ('0' as int) == d
  {
    ((('0' as int) + d) as char)
  }

  function DigitValue(c: char): nat
    requires IsDigit(c)
  {
    (c as int) - ('0' as int)
  }

  /** str(n) for a non-negative n: no leading zero unless n is zero. */
  function NatToDecimal(n: nat): (r: string)
    ensures |r| >= 1 && AllDigits(r)
    ensures r[0] == '0' ==> n == 0
  {
    if n < 10 then [DigitChar(n)]
    else
      var prefix := NatToDecimal(n / 10);
      prefix + [DigitChar(n % 10)]
  }

  /** str(i) for any int, with a leading '-' for negative values. */
  function IntToDecimal(i: int): (r: string)
    ensures |r| >= 1
  {
    if i < 0 then "-" + NatToDecimal(-i) else NatToDecimal(i)
  }

  /** The value of a string of decimal digits. */
  function ParseNat(s: string): nat
    requires AllDigits(s)
  {
    if s == [] then 0 else 10 * ParseNat(s[..|s| - 1]) + DigitValue(s[|s| - 1])
  }

  function ParseInt(s: string): Option<int>
  {
    if |s| >= 1 && s[0] == '-' && |s[1..]| >= 1 && AllDigits(s[1..]) then
      var v: int := 0 - (ParseNat(s[1..]) as int); Some(v)
    else if |s| >= 1 && AllDigits(s) then Some(ParseNat(s))
    else None
  }

  lemma {:induction false} ParseNatOfDecimal(n: nat)
    ensures ParseNat(NatToDecimal(n)) == n
  {
    if n >= 10 {
      var r := NatToDecimal(n);
      assert r[..|r| - 1] == NatToDecimal(n / 10);
      ParseNatOfDecimal(n / 10);
    }
  }

  /** str(int) is undone by int(): so distinct ints have distinct decimal forms. */
  lemma IntDecimalRoundTrip(i: int)
    ensures ParseInt(IntToDecimal(i)) == Some(i)
  {
    var r := IntToDecimal(i);
    if i < 0 {
      var digits := NatToDecimal(-i);
      assert r[0] == '-' && r[1..] == digits;
      ParseNatOfDecimal(-i);
      assert ParseInt(r) == Some(0 - ParseNat(digits));
    } else {
      assert IsDigit(r[0]);
      ParseNatOfDecimal(i);
      assert ParseInt(r) == Some(ParseNat(r));
    }
  }

  lemma IntToDecimalInjective(i: int, j: int)
    ensures IntToDecimal(i) == IntToDecimal(j) ==> i == j
  {
    IntDecimalRoundTrip(i);
    IntDecimalRoundTrip(j);
  }

  // ---------------------------------------------------------------------------
  // Case folding limited to ASCII (see README).

  function AsciiLowerChar(c: char): char {
    if 'A' <= c <= 'Z' then ((c as int) + 32) as char else c
  }

  function AsciiLower(s: string): (r: string)
    ensures |r| == |s|
    ensures forall i :: 0 <= i < |s| ==> r[i] == AsciiLowerChar(s[i])
  {
    seq(|s|, i requires 0 <= i < |s| => AsciiLowerChar(s[i]))
  }

  /** name.lower().endswith(".pdf"). */
  predicate HasPdfSuffixIgnoringCase(name: string) {
    EndsWith(AsciiLower(name), ".pdf")
  }

  /** The case-insensitive test accepts exactly the four-letter endings ".pdf" in any letter case. */
  lemma PdfSuffixCases(name: string)
    ensures HasPdfSuffixIgnoringCase(name) <==>
      |name| >= 4 && name[|name| - 4] == '.' &&
      name[|name| - 3] in {'p', 'P'} && name[|name| - 2] in {'d', 'D'} && name[|name| - 1] in {'f', 'F'}
  {
    var n := |name|;
    if HasPdfSuffixIgnoringCase(name) {
      var low := AsciiLower(name);
      assert low[n - 4..][0] == '.' && low[n - 4..][1] == 'p' && low[n - 4..][2] == 'd' && low[n - 4..][3] == 'f';
    }
    if n >= 4 && name[n - 4] == '.' &&
      name[n - 3] in {'p', 'P'} && name[n - 2] in {'d', 'D'} && name[n - 1] in {'f', 'F'} {
      assert AsciiLower(name)[n - 4..] == ".pdf";
    }
  }

  // ---------------------------------------------------------------------------
  // posixpath.basename and posixpath.join (two arguments).

  /** os.path.basename: everything after the last '/'. */
  function Basename(p: string): string {
    if p == [] || p[|p| - 1] == '/' then [] else Basename(p[..|p| - 1]) + [p[|p| - 1]]
  }

  /** The basename is the '/'-free tail of the path that follows its last '/' (or the whole path). */
  lemma {:induction false} BasenameSplit(p: string)
    ensures EndsWith(p, Basename(p))
    ensures forall i :: 0 <= i < |Basename(p)| ==> Basename(p)[i] != '/'
    ensures |Basename(p)| < |p| ==> p[|p| - |Basename(p)| - 1] == '/'
  {
    if p != [] && p[|p| - 1] != '/' {
      var q := p[..|p| - 1];
      var c := p[|p| - 1];
      BasenameSplit(q);
      var b := Basename(q);
      assert Basename(p) == b + [c];
      assert p[|p| - |b| - 1..] == q[|q| - |b|..] + [c];
      forall i | 0 <= i < |b| + 1
        ensures (b + [c])[i] != '/'
      {
        if i < |b| {
          assert (b + [c])[i] == b[i];
        }
      }
      if |b| < |q| {
        assert p[|p| - |b| - 2] == q[|q| - |b| - 1];
      }
    }
  }

  /** os.path.join(a, b): an absolute b replaces a; otherwise a '/' is inserted unless a is empty or ends in one. */
  function PathJoin(a: string, b: string): (r: string)
    ensures EndsWith(r, b)
  {
    if StartsWith(b, "/") then b
    else if a == [] || EndsWith(a, "/") then a + b
    else a + "/" + b
  }

  /** Joining a directory and a plain name gives a path whose basename is that name. */
  lemma BasenameOfJoin(dir: string, name: string)
    requires name != [] && forall i :: 0 <= i < |name| ==> name[i] != '/'
    ensures Basename(PathJoin(dir, name)) == name
  {
    var r := PathJoin(dir, name);
    assert r[|r| - |name|..] == name;
    BasenameOfSlashFree(r, |r| - |name|);
  }

  lemma {:induction false} BasenameOfSlashFree(p: string, k: nat)
    requires k < |p|
    requires forall i :: k <= i < |p| ==> p[i] != '/'
    requires k == 0 || p[k - 1] == '/'
    ensures Basename(p) == p[k..]
    decreases |p|
  {
    if k < |p| - 1 {
      BasenameOfSlashFree(p[..|p| - 1], k);
      assert p[k..] == p[..|p| - 1][k..] + [p[|p| - 1]];
    } else if k == 0 {
      assert Basename(p[..0]) == [];
    } else {
      assert p[..|p| - 1][|p| - 2] == '/';
    }
  }
}
