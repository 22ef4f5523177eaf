/** The C library's text routines the kernel and its tasks use: decimal printing and scanning,
    searching, and reading lines. A C string is a sequence of characters without the terminator. */
module CText {
  import opened KernelTypes

  // ---------- decimal numbers ----------

  predicate IsDigit(c: char) { '0' <= c <= '9' }

  /** What isspace accepts, the blanks strtol and scanf skip. */
  predicate IsBlank(c: char) {
    c == ' ' || c == '\t' || c == '\n' || c == '\r' || c == 11 as char || c == 12 as char
  }

  function DigitChar(d: nat): (c: char)
    requires d < 10
    ensures IsDigit(c) && DigitValue(c) == d
  {
    ('0' as int + d) as char
  }

  function DigitValue(c: char): nat
    requires IsDigit(c)
  {
    c as int - '0' as int
  }

  function Digits(n: nat): (s: string)
    ensures |s| >= 1 && forall i :: 0 <= i < |s| ==> IsDigit(s[i])
  {
    if n < 10 then [DigitChar(n)] else Digits(n / 10) + [DigitChar(n % 10)]
  }

  /** The conversion %d. */
  function PrintInt(x: int): (s: string)
    ensures |s| >= 1
    ensures forall i :: 0 <= i < |s| ==> IsDigit(s[i]) || s[i] == '-'
  {
    if x < 0 then "-" + Digits(-x) else Digits(x)
  }

  /** The number of leading digits of s. */
  function DigitRun(s: string): (n: nat)
    ensures n <= |s|
    ensures forall i :: 0 <= i < n ==> IsDigit(s[i])
    ensures n < |s| ==> !IsDigit(s[n])
  {
    if |s| != 0 && IsDigit(s[0]) then 1 + DigitRun(s[1..]) else 0
  }

  /** The value of a digit string, most significant digit first. */
  function Value(s: string): nat
    requires forall i :: 0 <= i < |s| ==> IsDigit(s[i])
  {
    if |s| == 0 then 0 else 10 * Value(s[..|s| - 1]) + DigitValue(s[|s| - 1])
  }

  function SkipBlanks(s: string): string {
    if |s| != 0 && IsBlank(s[0]) then SkipBlanks(s[1..]) else s
  }

  datatype Scan = NoNumber | Number(value: int, rest: string)

  function ScanDigits(u: string, negative: bool): Scan {
    var n := DigitRun(u);
    if n == 0 then NoNumber
    else Number(if negative then -(Value(u[..n]) as int) else Value(u[..n]), u[n..])
  }

  /** Blanks, an optional sign, digits: the part strtol and the conversion %d read. */
  function ScanInt(s: string): Scan {
    var t := SkipBlanks(s);
    if |t| != 0 && t[0] == '-' then ScanDigits(t[1..], true)
    else if |t| != 0 && t[0] == '+' then ScanDigits(t[1..], false)
    else ScanDigits(t, false)
  }

  function Atoi(s: string): int {
    match ScanInt(s) case NoNumber => 0 case Number(v, _) => v
  }

  lemma {:induction false} DigitsValue(n: nat)
    ensures Value(Digits(n)) == n
  {
    if n < 10 {
      assert [DigitChar(n)][..0] == "";
    } else {
      DigitsValue(n / 10);
      assert Digits(n)[..|Digits(n)| - 1] == Digits(n / 10);
    }
  }

  lemma {:induction false} DigitRunOf(d: string, rest: string)
    requires forall i :: 0 <= i < |d| ==> IsDigit(d[i])
    requires |rest| == 0 || !IsDigit(rest[0])
    ensures DigitRun(d + rest) == |d|
  {
    if |d| != 0 {
      assert (d + rest)[1..] == d[1..] + rest;
      DigitRunOf(d[1..], rest);
    } else {
      assert d + rest == rest;
    }
  }

  lemma ScanDigitsOf(d: string, rest: string, negative: bool)
    requires |d| >= 1 && forall i :: 0 <= i < |d| ==> IsDigit(d[i])
    requires |rest| == 0 || !IsDigit(rest[0])
    ensures ScanDigits(d + rest, negative) == Number(if negative then -(Value(d) as int) else Value(d), rest)
  {
    var s := d + rest;
    assert s[..|d|] == d && s[|d|..] == rest;
    DigitRunOf(d, rest);
    assert DigitRun(s) == |d|;
  }

  lemma NoBlankSkipped(s: string)
    requires |s| == 0 || !IsBlank(s[0])
    ensures SkipBlanks(s) == s
  {
  }

  lemma SignedScans(u: string)
    ensures ScanInt(['-'] + u) == ScanDigits(u, true)
    ensures |u| != 0 && IsDigit(u[0]) ==> ScanInt(u) == ScanDigits(u, false)
  {
    NoBlankSkipped(['-'] + u);
    assert (['-'] + u)[1..] == u;
    if |u| != 0 && IsDigit(u[0]) {
      NoBlankSkipped(u);
    }
  }

  lemma MinusFirst(d: string, rest: string)
    ensures "-" + d + rest == ['-'] + (d + rest)
  {
  }

  /** Scanning what was printed gives the number back and stops right behind it. */
  lemma ScanPrinted(x: int, rest: string)
    requires |rest| == 0 || !IsDigit(rest[0])
    ensures ScanInt(PrintInt(x) + rest) == Number(x, rest)
  {
    var n := if x < 0 then -x else x;
    DigitsValue(n);
    ScanDigitsOf(Digits(n), rest, x < 0);
    SignedScans(Digits(n) + rest);
    MinusFirst(Digits(n), rest);
  }

  lemma {:induction false} BlanksSkipped(b: string, s: string)
    requires forall i :: 0 <= i < |b| ==> IsBlank(b[i])
    ensures SkipBlanks(b + s) == SkipBlanks(s)
    decreases |b|
  {
    if |b| == 0 {
      assert b + s == s;
    } else {
      assert (b + s)[1..] == b[1..] + s;
      BlanksSkipped(b[1..], s);
    }
  }

  lemma AtoiBehindBlanks(b: string, s: string)
    requires forall i :: 0 <= i < |b| ==> IsBlank(b[i])
    ensures Atoi(b + s) == Atoi(s)
  {
    BlanksSkipped(b, s);
  }

  lemma AtoiSigned(u: string, x: nat, rest: string)
    requires u == Digits(x) + rest && (|rest| == 0 || !IsDigit(rest[0]))
    ensures Atoi(['+'] + u) == x && Atoi(['-'] + u) == -(x as int)
  {
    DigitsValue(x);
    ScanDigitsOf(Digits(x), rest, false);
    ScanDigitsOf(Digits(x), rest, true);
    NoBlankSkipped(['+'] + u);
    NoBlankSkipped(['-'] + u);
    assert (['+'] + u)[1..] == u && (['-'] + u)[1..] == u;
  }

  lemma AtoiUnsigned(x: nat, rest: string)
    requires |rest| == 0 || !IsDigit(rest[0])
    ensures Atoi(Digits(x) + rest) == x
  {
    ScanPrinted(x, rest);
  }

  /** Blanks, one sign or none, digits, anything else behind them: the number the digits stand for. */
  lemma AtoiReads(b: string, x: nat, rest: string)
    requires forall i :: 0 <= i < |b| ==> IsBlank(b[i])
    requires |rest| == 0 || !IsDigit(rest[0])
    ensures Atoi(b + (Digits(x) + rest)) == x
    ensures Atoi(b + (['+'] + (Digits(x) + rest))) == x
    ensures Atoi(b + (['-'] + (Digits(x) + rest))) == -(x as int)
  {
    var u := Digits(x) + rest;
    AtoiBehindBlanks(b, u);
    AtoiBehindBlanks(b, ['+'] + u);
    AtoiBehindBlanks(b, ['-'] + u);
    AtoiUnsigned(x, rest);
    AtoiSigned(u, x, rest);
  }

  /** A text that begins with neither blank, sign nor digit counts as nought. */
  lemma AtoiOfNoNumber(s: string)
    requires |s| != 0 ==> !IsBlank(s[0]) && !IsDigit(s[0]) && s[0] != '+' && s[0] != '-'
    ensures Atoi(s) == 0
  {
  }

  lemma AtoiPrinted(x: int)
    ensures Atoi(PrintInt(x)) == x
  {
    ScanPrinted(x, "");
    assert PrintInt(x) + "" == PrintInt(x);
  }

  lemma {:induction false} DigitsLength(n: nat, k: nat, bound: nat)
    requires 1 <= k && bound == Power10(k) && n < bound
    ensures |Digits(n)| <= k
    decreases k
  {
    if n >= 10 {
      DigitsLength(n / 10, k - 1, Power10(k - 1));
    }
  }

  function Power10(k: nat): nat {
    if k == 0 then 1 else 10 * Power10(k - 1)
  }

  predicate Int32(x: int) { -0x8000_0000 <= x < 0x8000_0000 }

  /** A 32-bit number prints in at most 11 characters. */
  lemma PrintedLength(x: int)
    requires Int32(x)
    ensures |PrintInt(x)| <= 11
  {
    assert Power10(10) == 10_000_000_000 by {
      assert Power10(5) == 100_000;
      assert Power10(8) == 100_000_000;
    }
    DigitsLength(if x < 0 then -x else x, 10, Power10(10));
  }

  // ---------- searching ----------

  /** strchr: the first position of c, or the length. */
  function IndexOf(s: string, c: char): (i: nat)
    ensures i <= |s|
    ensures i < |s| ==> s[i] == c
    ensures forall j :: 0 <= j < i ==> s[j] != c
  {
    if |s| == 0 || s[0] == c then 0 else 1 + IndexOf(s[1..], c)
  }

  predicate StartsWith(s: string, p: string) {
    |p| <= |s| && s[..|p|] == p
  }

  predicate OccursAt(s: string, p: string, i: nat) {
    i + |p| <= |s| && s[i..i + |p|] == p
  }

  /** strstr finds the text. */
  predicate Contains(s: string, p: string) {
    exists i: nat | i <= |s| :: OccursAt(s, p, i)
  }

  /** strstr: the text from the first occurrence of p on; None when there is none. */
  function Find(s: string, p: string): Option<string> {
    if StartsWith(s, p) then Some(s)
    else if |s| == 0 then None
    else Find(s[1..], p)
  }

  lemma MissingChar(s: string, p: string, c: char)
    requires c in p && c !in s
    ensures !Contains(s, p)
  {
    forall i: nat | i <= |s|
      ensures !OccursAt(s, p, i)
    {
      if i + |p| <= |s| {
        var j :| 0 <= j < |p| && p[j] == c;
        assert s[i + j] != c;
        assert s[i..i + |p|][j] == s[i + j];
      }
    }
  }

  lemma OccursShift(a: string, b: string, p: string, i: nat)
    requires OccursAt(b, p, i)
    ensures OccursAt(a + b, p, |a| + i)
  {
    assert (a + b)[|a| + i..|a| + i + |p|] == b[i..i + |p|];
  }

  lemma OccursLeft(a: string, b: string, p: string, i: nat)
    requires i + |p| <= |a|
    ensures OccursAt(a + b, p, i) <==> OccursAt(a, p, i)
  {
    assert (a + b)[i..i + |p|] == a[i..i + |p|];
  }

  /** A text without the character c cannot reach across a c: it occurs before it or after it. */
  lemma ContainsSplit(a: string, c: char, b: string, p: string)
    requires c !in p && |p| > 0
    ensures Contains(a + [c] + b, p) <==> Contains(a, p) || Contains(b, p)
  {
    var s := a + [c] + b;
    if Contains(a, p) {
      var i: nat :| i <= |a| && OccursAt(a, p, i);
      OccursLeft(a, [c] + b, p, i);
      assert s == a + ([c] + b);
      assert OccursAt(s, p, i);
    }
    if Contains(b, p) {
      var i: nat :| i <= |b| && OccursAt(b, p, i);
      OccursShift(a + [c], b, p, i);
      assert OccursAt(s, p, |a| + 1 + i);
    }
    if Contains(s, p) {
      var i: nat :| i <= |s| && OccursAt(s, p, i);
      forall x | i <= x < i + |p|
        ensures s[x] != c
      {
        assert s[i..i + |p|][x - i] == s[x];
      }
      assert s[|a|] == c;
      if i + |p| <= |a| {
        assert s == a + ([c] + b);
        OccursLeft(a, [c] + b, p, i);
      } else {
        var k := i - |a| - 1;
        assert b[k..k + |p|] == s[i..i + |p|];
        assert OccursAt(b, p, k);
      }
    }
  }

  /** The first occurrence of p is where it was put, if p's second character is not in what stands
      before it and its first does not end it. */
  lemma {:induction false} FindBehind(a: string, p: string, b: string)
    requires |p| >= 2 && p[1] !in a && (|a| > 0 ==> a[|a| - 1] != p[0])
    ensures Find(a + p + b, p) == Some(p + b)
  {
    var s := a + p + b;
    if |a| == 0 {
      assert s == p + b;
    } else {
      assert s[1..] == a[1..] + p + b;
      FindBehind(a[1..], p, b);
      assert s[..|p|][0] == a[0] && s[..|p|][1] == s[1];
      assert s[1] == if |a| > 1 then a[1] else p[0];
    }
  }

  // ---------- lines ----------

  /** The number of characters fgets takes with room for limit of them: up to and including the
      first newline. */
  function LineLength(s: string, limit: nat): (n: nat)
    ensures n <= |s| && n <= limit
    ensures |s| > 0 && limit > 0 ==> n > 0
  {
    if |s| == 0 || limit == 0 then 0
    else if s[0] == '\n' then 1
    else 1 + LineLength(s[1..], limit - 1)
  }

  /** The lines a loop of fgets calls reads. */
  function Lines(s: string, limit: nat): seq<string>
    requires 0 < limit
    decreases |s|
  {
    if |s| == 0 then []
    else
      var n := LineLength(s, limit);
      [s[..n]] + Lines(s[n..], limit)
  }

  /** A line with its newline at the end and nowhere else. */
  predicate IsLine(l: string) {
    |l| > 0 && l[|l| - 1] == '\n' && '\n' !in l[..|l| - 1]
  }

  function Join(ls: seq<string>): string {
    if |ls| == 0 then "" else ls[0] + Join(ls[1..])
  }

  lemma {:induction false} LineLengthOf(l: string, rest: string, limit: nat)
    requires IsLine(l) && |l| <= limit
    ensures LineLength(l + rest, limit) == |l|
  {
    if |l| > 1 {
      assert (l + rest)[1..] == l[1..] + rest;
      assert l[1..][..|l| - 2] == l[..|l| - 1][1..];
      assert l[0] == l[..|l| - 1][0];
      LineLengthOf(l[1..], rest, limit - 1);
    }
  }

  lemma LinesOfHead(l: string, rest: string, limit: nat)
    requires IsLine(l) && |l| <= limit
    ensures Lines(l + rest, limit) == [l] + Lines(rest, limit)
  {
    LineLengthOf(l, rest, limit);
    assert (l + rest)[..|l|] == l && (l + rest)[|l|..] == rest;
  }

  /** Reading a file of lines that fit the buffer gives those lines. */
  lemma {:induction false} LinesOfJoin(ls: seq<string>, limit: nat)
    requires 0 < limit
    requires forall i :: 0 <= i < |ls| ==> IsLine(ls[i]) && |ls[i]| <= limit
    ensures Lines(Join(ls), limit) == ls
    decreases |ls|
  {
    if |ls| != 0 {
      assert ls == [ls[0]] + ls[1..];
      LinesOfHead(ls[0], Join(ls[1..]), limit);
      LinesOfJoin(ls[1..], limit);
    }
  }

  /** What one fgets call can return short of the limit: no newline but perhaps at the end. */
  predicate IsChunk(l: string, limit: nat) {
    0 < |l| <= limit && '\n' !in l[..|l| - 1]
  }

  /** Lines that fit the limit, of which only the last may lack its newline. */
  predicate LineList(ls: seq<string>, limit: nat) {
    && (forall i :: 0 <= i < |ls| ==> IsChunk(ls[i], limit))
    && (forall i :: 0 <= i < |ls| - 1 ==> IsLine(ls[i]))
  }

  lemma {:induction false} LineLengthOfLast(l: string, limit: nat)
    requires IsChunk(l, limit)
    ensures LineLength(l, limit) == |l|
  {
    if |l| > 1 {
      assert l[1..][..|l| - 2] == l[..|l| - 1][1..];
      assert l[0] == l[..|l| - 1][0];
      LineLengthOfLast(l[1..], limit - 1);
    }
  }

  /** What one fgets call takes of a longer text: a full line, or as much as fits. */
  lemma {:induction false} LineLengthOfChunk(l: string, rest: string, limit: nat)
    requires IsChunk(l, limit) && (IsLine(l) || |l| == limit)
    ensures LineLength(l + rest, limit) == |l|
  {
    assert (l + rest)[0] == l[0];
    if |l| > 1 {
      assert (l + rest)[1..] == l[1..] + rest;
      assert l[1..][..|l| - 2] == l[..|l| - 1][1..];
      assert l[0] == l[..|l| - 1][0];
      LineLengthOfChunk(l[1..], rest, limit - 1);
    }
  }

  /** Such a list of lines is read back as it was written. */
  lemma {:induction false} LinesOfLineList(ls: seq<string>, limit: nat)
    requires 0 < limit && LineList(ls, limit)
    ensures Lines(Join(ls), limit) == ls
    decreases |ls|
  {
    if |ls| == 1 {
      assert Join(ls) == ls[0];
      LineLengthOfLast(ls[0], limit);
      assert ls[0][..|ls[0]|] == ls[0];
    } else if |ls| > 1 {
      assert ls == [ls[0]] + ls[1..];
      LinesOfHead(ls[0], Join(ls[1..]), limit);
      LinesOfLineList(ls[1..], limit);
    }
  }

  lemma {:induction false} LineLengthShape(s: string, limit: nat)
    requires |s| > 0 && limit > 0
    ensures var n := LineLength(s, limit);
            IsChunk(s[..n], limit) && (n < limit && n < |s| ==> IsLine(s[..n]))
  {
    if s[0] != '\n' && limit > 1 && |s| > 1 {
      LineLengthShape(s[1..], limit - 1);
      var n := LineLength(s, limit);
      assert s[..n] == [s[0]] + s[1..][..n - 1];
      assert s[..n][..n - 1] == [s[0]] + s[1..][..n - 1][..n - 2];
    }
  }

  predicate ChunkList(ls: seq<string>, limit: nat) {
    && (forall i :: 0 <= i < |ls| ==> IsChunk(ls[i], limit))
    && (forall i :: 0 <= i < |ls| - 1 && |ls[i]| < limit ==> IsLine(ls[i]))
  }

  /** What reading produces: chunks, each a full line unless it fills the limit or is the last. */
  lemma {:induction false} LinesShape(s: string, limit: nat)
    requires 0 < limit
    ensures ChunkList(Lines(s, limit), limit)
    decreases |s|
  {
    if |s| != 0 {
      var n := LineLength(s, limit);
      var rest := Lines(s[n..], limit);
      LineLengthShape(s, limit);
      LinesShape(s[n..], limit);
      var ls := [s[..n]] + rest;
      assert Lines(s, limit) == ls;
      forall i | 0 <= i < |ls|
        ensures IsChunk(ls[i], limit) && (i < |ls| - 1 && |ls[i]| < limit ==> IsLine(ls[i]))
      {
        if i > 0 {
          assert ls[i] == rest[i - 1];
        }
      }
    }
  }

  /** Reading loses nothing. */
  lemma {:induction false} LinesJoin(s: string, limit: nat)
    requires 0 < limit
    ensures Join(Lines(s, limit)) == s
    decreases |s|
  {
    if |s| != 0 {
      var n := LineLength(s, limit);
      LinesJoin(s[n..], limit);
      assert Lines(s, limit)[1..] == Lines(s[n..], limit);
      assert s[..n] + s[n..] == s;
    }
  }

  lemma {:induction false} JoinConcat(a: seq<string>, b: seq<string>)
    ensures Join(a + b) == Join(a) + Join(b)
    decreases |a|
  {
    if |a| == 0 {
      assert a + b == b;
    } else {
      assert (a + b)[1..] == a[1..] + b;
      JoinConcat(a[1..], b);
    }
  }
}
