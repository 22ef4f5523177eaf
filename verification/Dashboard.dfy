/** The resource dashboard rebuilds the kernel's figures from the text of the system log. */
module Dashboard {
  import opened KernelTypes
  import opened CText
  import opened Accounting
  import Wire

  // ---------- what the kernel writes ----------

  const TOTALS := "Resources: RAM="
  const ALLOCATED := "Resources allocated: RAM="
  const RECLAIMED := "Resources reclaimed: RAM="
  const COMMA_HDD := ", HDD="
  const MB_HDD := "MB, HDD="
  const MB_CORES := "MB, Cores="
  const CREATED := "Process created"
  const TERMINATED := "Process terminated"
  const COLON_PID := ": PID="
  const SWITCHED := "Context switch: PID="
  const TO_CORE := " -> Core "
  const RESOLVED := "Interrupt resolved: PID="
  const TO_READY := " -> READY"
  const CHILD := "SIGCHLD: Child PID="
  const CHILD_ENDED := " terminated"

  function Text(e: Event): string {
    match e
    case Booted(total, cores) =>
      TOTALS + PrintInt(total.ram) + MB_HDD + PrintInt(total.hdd) + MB_CORES + PrintInt(cores)
    case Allocated(a) => ALLOCATED + PrintInt(a.ram) + COMMA_HDD + PrintInt(a.hdd)
    case Reclaimed(a) => RECLAIMED + PrintInt(a.ram) + COMMA_HDD + PrintInt(a.hdd)
    case Created(pid, name) => CREATED + COLON_PID + PrintInt(pid) + " (" + name + ")"
    case Terminated(pid) => TERMINATED + COLON_PID + PrintInt(pid)
    case Switched(pid, name, core) => SWITCHED + PrintInt(pid) + " (" + name + ")" + TO_CORE + PrintInt(core)
    case Unblocked(pid) => RESOLVED + PrintInt(pid) + TO_READY
    case ChildExited(pid) => CHILD + PrintInt(pid) + CHILD_ENDED
  }

  function LogLine(stamp: string, e: Event): string {
    "[" + stamp + "]  " + Text(e) + "\n"
  }

  /** The time of day as the logger prints it into its 16-character buffer. */
  predicate IsStamp(s: string) {
    |s| <= 15 && forall i :: 0 <= i < |s| ==> IsDigit(s[i]) || s[i] == ':'
  }

  /** The texts of the log, written out. */
  lemma ResourceTextsWritten(a: Amount, cores: int)
    ensures Text(Booted(a, cores)) ==
            "Resources: RAM=" + PrintInt(a.ram) + "MB, HDD=" + PrintInt(a.hdd) + "MB, Cores=" + PrintInt(cores)
    ensures Text(Allocated(a)) == "Resources allocated: RAM=" + PrintInt(a.ram) + ", HDD=" + PrintInt(a.hdd)
    ensures Text(Reclaimed(a)) == "Resources reclaimed: RAM=" + PrintInt(a.ram) + ", HDD=" + PrintInt(a.hdd)
  {
  }

  lemma JoinedTexts()
    ensures CREATED + COLON_PID == "Process created: PID="
    ensures TERMINATED + COLON_PID == "Process terminated: PID="
  {
  }

  lemma ProcessTextsWritten(pid: int, name: string, core: int)
    ensures Text(Created(pid, name)) == "Process created: PID=" + PrintInt(pid) + " (" + name + ")"
    ensures Text(Terminated(pid)) == "Process terminated: PID=" + PrintInt(pid)
    ensures Text(Switched(pid, name, core)) ==
            "Context switch: PID=" + PrintInt(pid) + " (" + name + ")" + " -> Core " + PrintInt(core)
    ensures Text(Unblocked(pid)) == "Interrupt resolved: PID=" + PrintInt(pid) + " -> READY"
    ensures Text(ChildExited(pid)) == "SIGCHLD: Child PID=" + PrintInt(pid) + " terminated"
  {
    JoinedTexts();
  }

  // ---------- what the dashboard reads ----------

  /** The two conversions of the scan "RAM=%d<sep> HDD=%d" on a text that starts with RAM=. */
  function ScanPair(s: string, sep: string): (Option<int>, Option<int>)
    requires StartsWith(s, "RAM=")
  {
    match ScanInt(s[4..])
    case NoNumber => (None, None)
    case Number(r, rest) =>
      if !StartsWith(rest, sep) then (Some(r), None)
      else
        var t := SkipBlanks(rest[|sep|..]);
        if !StartsWith(t, "HDD=") then (Some(r), None)
        else match ScanInt(t[4..])
          case NoNumber => (Some(r), None)
          case Number(h, _) => (Some(r), Some(h))
  }

  lemma {:induction false} FindStarts(s: string, p: string)
    ensures Find(s, p).Some? ==> StartsWith(Find(s, p).value, p)
  {
    if !StartsWith(s, p) && |s| != 0 {
      FindStarts(s[1..], p);
    }
  }

  /** The amounts of an allocation or reclaim line; None when the scan leaves a variable unset. */
  function ReadAmount(line: string): Option<Amount> {
    FindStarts(line, "RAM=");
    match Find(line, "RAM=")
    case None => None
    case Some(s) =>
      match ScanPair(s, ",")
      case (Some(r), Some(h)) => Some(Amount(r, h))
      case _ => None
  }

  function ReadTotals(v: View, line: string): View {
    FindStarts(line, "RAM=");
    match Find(line, "RAM=")
    case None => v
    case Some(s) =>
      var (r, h) := ScanPair(s, "MB,");
      var total := Amount(if r.Some? then r.value else v.total.ram, if h.Some? then h.value else v.total.hdd);
      v.(total := total, free := total)
  }

  function ReadAllocated(v: View, line: string): Option<View> {
    match ReadAmount(line) case None => None case Some(a) => Some(v.(free := v.free.Minus(a)))
  }

  function ReadReclaimed(v: View, line: string): Option<View> {
    match ReadAmount(line) case None => None case Some(a) => Some(v.(free := v.free.Plus(a)))
  }

  function ReadCounts(v: View, line: string): View {
    v.(active := v.active + (if Contains(line, CREATED) then 1 else 0)
                          - (if Contains(line, TERMINATED) then 1 else 0))
  }

  function ReadAmounts(v: View, line: string): Option<View> {
    var v1 := if Contains(line, TOTALS) then ReadTotals(v, line) else v;
    var v2 := if Contains(line, ALLOCATED) then ReadAllocated(v1, line) else Some(v1);
    if v2.Some? && Contains(line, RECLAIMED) then ReadReclaimed(v2.value, line) else v2
  }

  /** One line. None means that the program goes on with a value that was never set. */
  function ReadLine(v: View, line: string): Option<View> {
    match ReadAmounts(v, line) case None => None case Some(w) => Some(ReadCounts(w, line))
  }

  function ReadLines(v: View, lines: seq<string>): Option<View>
    decreases |lines|
  {
    if |lines| == 0 then Some(v)
    else match ReadLine(v, lines[0]) case None => None case Some(v') => ReadLines(v', lines[1..])
  }

  // ---------- which texts occur in which line ----------

  /** None of the searched texts can start in or reach into the time stamp. */
  lemma LineContains(stamp: string, m: string, p: string)
    requires IsStamp(stamp) && |p| > 0 && p[0] != ' ' && 's' in p
    requires '[' !in p && ']' !in p && '\n' !in p
    ensures Contains("[" + stamp + "]  " + m + "\n", p) <==> Contains(m, p)
  {
    var body := "  " + m;
    var line := "[" + stamp + "]  " + m + "\n";
    MissingChar("", p, 's');
    MissingChar(stamp, p, 's');
    MissingChar(" ", p, 's');
    assert line == ("" + ['['] + stamp) + [']'] + (body + ['\n'] + "");
    ContainsSplit("" + ['['] + stamp, ']', body + ['\n'] + "", p);
    ContainsSplit("", '[', stamp, p);
    ContainsSplit(body, '\n', "", p);
    BehindBlanks(m, p);
  }

  lemma BehindBlanks(m: string, p: string)
    requires |p| > 0 && p[0] != ' '
    ensures Contains("  " + m, p) <==> Contains(m, p)
  {
    var s := "  " + m;
    if Contains(m, p) {
      var i: nat :| i <= |m| && OccursAt(m, p, i);
      OccursShift("  ", m, p, i);
      assert OccursAt(s, p, 2 + i);
    }
    if Contains(s, p) {
      var i: nat :| i <= |s| && OccursAt(s, p, i);
      assert s[i..i + |p|][0] == s[i];
      var k := i - 2;
      assert m[k..k + |p|] == s[i..i + |p|];
      assert OccursAt(m, p, k);
    }
  }

  lemma AtStart(p: string, rest: string)
    ensures Contains(p + rest, p)
  {
    assert OccursAt(p + rest, p, 0);
  }

  /** A text split in two at a character the pattern lacks, with one of the pattern's characters
      missing on each side, does not contain it. */
  lemma MissingAround(a: string, c: char, b: string, p: string, x: char, y: char)
    requires c !in p && x in p && x !in a && y in p && y !in b
    ensures !Contains(a + [c] + b, p)
  {
    ContainsSplit(a, c, b, p);
    MissingChar(a, p, x);
    MissingChar(b, p, y);
  }

  /** A name in parentheses: a pattern without parentheses, missing a character before and behind
      them, occurs exactly when it occurs in the name. */
  lemma InParentheses(a: string, name: string, b: string, p: string, x: char, y: char)
    requires '(' !in p && ')' !in p && x in p && x !in a && y in p && y !in b
    ensures Contains(a + "(" + name + ")" + b, p) <==> Contains(name, p)
  {
    assert a + "(" + name + ")" + b == a + ['('] + (name + [')'] + b);
    ContainsSplit(a, '(', name + [')'] + b, p);
    ContainsSplit(name, ')', b, p);
    MissingChar(a, p, x);
    MissingChar(b, p, y);
  }

  predicate Lacks(s: string, c: char) {
    forall i :: 0 <= i < |s| ==> s[i] != c
  }

  predicate IsNumber(s: string) {
    forall i :: 0 <= i < |s| ==> IsDigit(s[i]) || s[i] == '-'
  }

  /** A text made of fixed parts and numbers does not contain a pattern one of whose letters no fixed
      part has. */
  lemma NotInParts(a: string, r: string, b: string, h: string, p: string, c: char)
    requires IsNumber(r) && IsNumber(h) && !IsDigit(c) && c != '-' && c in p
    requires Lacks(a, c) && Lacks(b, c)
    ensures !Contains(a + r + b + h, p)
  {
    MissingChar(a + r + b + h, p, c);
  }

  // Letters the fixed parts have or lack.

  lemma TotalsLetters()
    ensures 'l' !in TOTALS && '=' in TOTALS && 's' in TOTALS && 'R' in TOTALS && ':' in TOTALS && 'M' in TOTALS
  {
    assert TOTALS[14] == '=' && TOTALS[2] == 's' && TOTALS[0] == 'R' && TOTALS[9] == ':' && TOTALS[13] == 'M';
  }

  lemma AllocatedLetters()
    ensures 't' in ALLOCATED && 'l' in ALLOCATED && 'R' in ALLOCATED && ':' in ALLOCATED && 'M' in ALLOCATED
  {
    assert ALLOCATED[16] == 't' && ALLOCATED[11] == 'l' && ALLOCATED[0] == 'R' && ALLOCATED[19] == ':';
    assert ALLOCATED[23] == 'M';
  }

  lemma AllocatedLacks()
    ensures Lacks(ALLOCATED, 'm') && Lacks(ALLOCATED, 'P')
  {
  }

  lemma ReclaimedLetters()
    ensures 'm' in RECLAIMED && 'l' in RECLAIMED && 'R' in RECLAIMED && ':' in RECLAIMED && 'M' in RECLAIMED
  {
    assert RECLAIMED[16] == 'm' && RECLAIMED[13] == 'l' && RECLAIMED[0] == 'R' && RECLAIMED[19] == ':';
    assert RECLAIMED[23] == 'M';
  }

  lemma ReclaimedLacks()
    ensures Lacks(RECLAIMED, 't') && Lacks(RECLAIMED, 'P')
  {
  }

  lemma CreatedLetters()
    ensures 'P' in CREATED && 'c' in CREATED && 's' in CREATED && 'd' in CREATED && 'o' in CREATED && 'r' in CREATED
  {
    assert CREATED[0] == 'P' && CREATED[3] == 'c' && CREATED[5] == 's' && CREATED[14] == 'd';
    assert CREATED[2] == 'o' && CREATED[1] == 'r';
  }

  lemma CreatedHasNoM()
    ensures 'm' !in CREATED
  {
  }

  lemma TerminatedLetters()
    ensures 'P' in TERMINATED && 'c' in TERMINATED && 'm' in TERMINATED && 'o' in TERMINATED && 'r' in TERMINATED
  {
    assert TERMINATED[0] == 'P' && TERMINATED[3] == 'c';
    assert TERMINATED[11] == 'm' && TERMINATED[2] == 'o' && TERMINATED[1] == 'r';
  }

  lemma TerminatedLacksR()
    ensures Lacks(TERMINATED, 'R')
  {
  }

  lemma CommaLetters()
    ensures Lacks(COMMA_HDD, 'm') && Lacks(COMMA_HDD, 't') && Lacks(COMMA_HDD, 'P')
  {
  }

  /** The five searches on one text. */
  predicate Occurrences(m: string, totals: bool, allocatedLine: bool, reclaimedLine: bool, createdLine: bool,
                        terminatedLine: bool) {
    && (Contains(m, TOTALS) <==> totals)
    && (Contains(m, ALLOCATED) <==> allocatedLine)
    && (Contains(m, RECLAIMED) <==> reclaimedLine)
    && (Contains(m, CREATED) <==> createdLine)
    && (Contains(m, TERMINATED) <==> terminatedLine)
  }

  lemma TotalsNotBehindL(a: string, b: string)
    requires Lacks(a, '=') && Lacks(b, 's')
    ensures !Contains(a + ['l'] + b, TOTALS)
  {
    TotalsLetters();
    MissingAround(a, 'l', b, TOTALS, '=', 's');
  }

  lemma StartOfFour(a: string, r: string, b: string, h: string)
    ensures Contains(a + r + b + h, a)
  {
    assert a + r + b + h == a + (r + b + h);
    AtStart(a, r + b + h);
  }

  lemma AmountsWithoutProcess(a: string, r: string, h: string)
    requires IsNumber(r) && IsNumber(h) && Lacks(a, 'P')
    ensures !Contains(a + r + COMMA_HDD + h, CREATED) && !Contains(a + r + COMMA_HDD + h, TERMINATED)
  {
    CreatedLetters();
    TerminatedLetters();
    CommaLetters();
    NotInParts(a, r, COMMA_HDD, h, CREATED, 'P');
    NotInParts(a, r, COMMA_HDD, h, TERMINATED, 'P');
  }

  lemma AllocatedSplit(r: string, h: string)
    requires IsNumber(r) && IsNumber(h)
    ensures ALLOCATED + r + COMMA_HDD + h == "Resources a" + ['l'] + ("located: RAM=" + r + COMMA_HDD + h)
    ensures Lacks("Resources a", '=') && Lacks("located: RAM=" + r + COMMA_HDD + h, 's')
  {
  }

  lemma AllocatedNotTotals(r: string, h: string)
    requires IsNumber(r) && IsNumber(h)
    ensures !Contains(ALLOCATED + r + COMMA_HDD + h, TOTALS)
  {
    AllocatedSplit(r, h);
    TotalsNotBehindL("Resources a", "located: RAM=" + r + COMMA_HDD + h);
  }

  lemma AllocatedNotReclaimed(r: string, h: string)
    requires IsNumber(r) && IsNumber(h)
    ensures !Contains(ALLOCATED + r + COMMA_HDD + h, RECLAIMED)
  {
    ReclaimedLetters();
    AllocatedLacks();
    CommaLetters();
    NotInParts(ALLOCATED, r, COMMA_HDD, h, RECLAIMED, 'm');
  }

  lemma AllocatedText(r: string, h: string)
    requires IsNumber(r) && IsNumber(h)
    ensures Occurrences(ALLOCATED + r + COMMA_HDD + h, false, true, false, false, false)
  {
    StartOfFour(ALLOCATED, r, COMMA_HDD, h);
    AllocatedNotTotals(r, h);
    AllocatedNotReclaimed(r, h);
    AllocatedLacks();
    AmountsWithoutProcess(ALLOCATED, r, h);
  }

  lemma ReclaimedSplit(r: string, h: string)
    requires IsNumber(r) && IsNumber(h)
    ensures RECLAIMED + r + COMMA_HDD + h == "Resources rec" + ['l'] + ("aimed: RAM=" + r + COMMA_HDD + h)
    ensures Lacks("Resources rec", '=') && Lacks("aimed: RAM=" + r + COMMA_HDD + h, 's')
  {
  }

  lemma ReclaimedNotTotals(r: string, h: string)
    requires IsNumber(r) && IsNumber(h)
    ensures !Contains(RECLAIMED + r + COMMA_HDD + h, TOTALS)
  {
    ReclaimedSplit(r, h);
    TotalsNotBehindL("Resources rec", "aimed: RAM=" + r + COMMA_HDD + h);
  }

  lemma ReclaimedNotAllocated(r: string, h: string)
    requires IsNumber(r) && IsNumber(h)
    ensures !Contains(RECLAIMED + r + COMMA_HDD + h, ALLOCATED)
  {
    AllocatedLetters();
    ReclaimedLacks();
    CommaLetters();
    NotInParts(RECLAIMED, r, COMMA_HDD, h, ALLOCATED, 't');
  }

  lemma ReclaimedText(r: string, h: string)
    requires IsNumber(r) && IsNumber(h)
    ensures Occurrences(RECLAIMED + r + COMMA_HDD + h, false, false, true, false, false)
  {
    StartOfFour(RECLAIMED, r, COMMA_HDD, h);
    ReclaimedNotTotals(r, h);
    ReclaimedNotAllocated(r, h);
    ReclaimedLacks();
    AmountsWithoutProcess(RECLAIMED, r, h);
  }

  lemma TotalsLack()
    ensures Lacks(TOTALS, 'l') && Lacks(TOTALS, 'P')
    ensures Lacks(MB_HDD, 'l') && Lacks(MB_HDD, 'P')
  {
  }

  lemma CoresLack()
    ensures Lacks(MB_CORES, 'l') && Lacks(MB_CORES, 'P')
  {
  }

  lemma NotInSixParts(a: string, r: string, b: string, h: string, d: string, k: string, p: string, c: char)
    requires IsNumber(r) && IsNumber(h) && IsNumber(k) && !IsDigit(c) && c != '-' && c in p
    requires Lacks(a, c) && Lacks(b, c) && Lacks(d, c)
    ensures !Contains(a + r + b + h + d + k, p)
  {
    MissingChar(a + r + b + h + d + k, p, c);
  }

  lemma StartOfSix(a: string, r: string, b: string, h: string, d: string, k: string)
    ensures Contains(a + r + b + h + d + k, a)
  {
    assert a + r + b + h + d + k == a + (r + b + h + d + k);
    AtStart(a, r + b + h + d + k);
  }

  lemma TotalsText(r: string, h: string, k: string)
    requires IsNumber(r) && IsNumber(h) && IsNumber(k)
    ensures Occurrences(TOTALS + r + MB_HDD + h + MB_CORES + k, true, false, false, false, false)
  {
    AllocatedLetters();
    ReclaimedLetters();
    CreatedLetters();
    TerminatedLetters();
    StartOfSix(TOTALS, r, MB_HDD, h, MB_CORES, k);
    TotalsLack();
    CoresLack();
    NotInSixParts(TOTALS, r, MB_HDD, h, MB_CORES, k, ALLOCATED, 'l');
    NotInSixParts(TOTALS, r, MB_HDD, h, MB_CORES, k, RECLAIMED, 'l');
    NotInSixParts(TOTALS, r, MB_HDD, h, MB_CORES, k, CREATED, 'P');
    NotInSixParts(TOTALS, r, MB_HDD, h, MB_CORES, k, TERMINATED, 'P');
  }

  /** A text without R or M contains none of the three resource patterns. */
  lemma NoResourceLine(m: string, c: char)
    requires (c == 'R' || c == 'M') && c !in m
    ensures !Contains(m, TOTALS) && !Contains(m, ALLOCATED) && !Contains(m, RECLAIMED)
  {
    TotalsLetters();
    AllocatedLetters();
    ReclaimedLetters();
    MissingChar(m, TOTALS, c);
    MissingChar(m, ALLOCATED, c);
    MissingChar(m, RECLAIMED, c);
  }

  lemma NoProcessLine(m: string, c: char)
    requires (c == 'P' || c == 'o' || c == 'c') && c !in m
    ensures !Contains(m, CREATED) && !Contains(m, TERMINATED)
  {
    CreatedLetters();
    TerminatedLetters();
    MissingChar(m, CREATED, c);
    MissingChar(m, TERMINATED, c);
  }

  lemma TerminatedSplit(n: string)
    requires IsNumber(n)
    ensures TERMINATED + COLON_PID + n == "Process ter" + ['m'] + ("inated" + COLON_PID + n)
    ensures Lacks("Process ter", 'd') && Lacks("inated" + COLON_PID + n, 's')
  {
  }

  lemma TerminatedText(n: string)
    requires IsNumber(n)
    ensures Occurrences(TERMINATED + COLON_PID + n, false, false, false, false, true)
  {
    var m := TERMINATED + COLON_PID + n;
    assert m == TERMINATED + (COLON_PID + n);
    AtStart(TERMINATED, COLON_PID + n);
    TerminatedLacksR();
    ColonPidLacks();
    NoResourceLine(m, 'R');
    CreatedLetters();
    CreatedHasNoM();
    TerminatedSplit(n);
    MissingAround("Process ter", 'm', "inated" + COLON_PID + n, CREATED, 'd', 's');
  }

  lemma ColonPidLacks()
    ensures Lacks(COLON_PID, 'R') && Lacks(COLON_PID, 'm')
  {
  }

  lemma ChildLacks()
    ensures Lacks(CHILD, 'R') && Lacks(CHILD_ENDED, 'R') && Lacks(CHILD, 'o') && Lacks(CHILD_ENDED, 'o')
  {
  }

  lemma ChildText(n: string)
    requires IsNumber(n)
    ensures Occurrences(CHILD + n + CHILD_ENDED, false, false, false, false, false)
  {
    ChildLacks();
    NoResourceLine(CHILD + n + CHILD_ENDED, 'R');
    NoProcessLine(CHILD + n + CHILD_ENDED, 'o');
  }

  lemma ResolvedLacks()
    ensures Lacks(RESOLVED, 'M') && Lacks(TO_READY, 'M') && Lacks(RESOLVED, 'c') && Lacks(TO_READY, 'c')
  {
  }

  lemma ResolvedText(n: string)
    requires IsNumber(n)
    ensures Occurrences(RESOLVED + n + TO_READY, false, false, false, false, false)
  {
    ResolvedLacks();
    NoResourceLine(RESOLVED + n + TO_READY, 'M');
    NoProcessLine(RESOLVED + n + TO_READY, 'c');
  }

  // Lines with a name.

  lemma CreatedLacks(n: string)
    requires IsNumber(n)
    ensures Lacks(CREATED + COLON_PID + n + " ", 'R') && Lacks(CREATED + COLON_PID + n + " ", 'm')
  {
  }

  lemma PatternsInParentheses()
    ensures '(' !in TOTALS && ')' !in TOTALS && '(' !in ALLOCATED && ')' !in ALLOCATED
    ensures '(' !in RECLAIMED && ')' !in RECLAIMED
  {
  }

  lemma ProcessPatternsInParentheses()
    ensures '(' !in CREATED && ')' !in CREATED && '(' !in TERMINATED && ')' !in TERMINATED
  {
  }

  /** A colon-free name between parentheses adds no resource pattern. */
  lemma NameAddsNoResource(a: string, name: string, b: string)
    requires ':' !in name && 'R' !in a && 'R' !in b
    ensures var m := a + "(" + name + ")" + b;
            !Contains(m, TOTALS) && !Contains(m, ALLOCATED) && !Contains(m, RECLAIMED)
  {
    TotalsLetters();
    AllocatedLetters();
    ReclaimedLetters();
    PatternsInParentheses();
    InParentheses(a, name, b, TOTALS, 'R', 'R');
    InParentheses(a, name, b, ALLOCATED, 'R', 'R');
    InParentheses(a, name, b, RECLAIMED, 'R', 'R');
    MissingChar(name, TOTALS, ':');
    MissingChar(name, ALLOCATED, ':');
    MissingChar(name, RECLAIMED, ':');
  }

  lemma StartsCreated(rest: string)
    ensures Contains(CREATED + rest, CREATED)
  {
    AtStart(CREATED, rest);
  }

  lemma CreatedParts(n: string, name: string)
    ensures CREATED + COLON_PID + n + " (" + name + ")" == CREATED + COLON_PID + n + " " + "(" + name + ")" + ""
    ensures CREATED + COLON_PID + n + " (" + name + ")" == CREATED + (COLON_PID + n + " (" + name + ")")
  {
  }

  lemma CreatedText(n: string, name: string)
    requires IsNumber(n) && ':' !in name
    ensures Occurrences(CREATED + COLON_PID + n + " (" + name + ")", false, false, false, true,
                        Contains(name, TERMINATED))
  {
    var a := CREATED + COLON_PID + n + " ";
    CreatedParts(n, name);
    CreatedLacks(n);
    NameAddsNoResource(a, name, "");
    ProcessPatternsInParentheses();
    TerminatedLetters();
    InParentheses(a, name, "", TERMINATED, 'm', 'P');
    StartsCreated(COLON_PID + n + " (" + name + ")");
  }

  lemma SwitchedLacks(n: string)
    requires IsNumber(n)
    ensures Lacks(SWITCHED + n + " ", 'R') && Lacks(SWITCHED + n + " ", 'r')
  {
  }

  lemma ToCoreLacks(k: string)
    requires IsNumber(k)
    ensures Lacks(TO_CORE + k, 'R') && Lacks(TO_CORE + k, 'P')
  {
  }

  lemma SwitchedText(n: string, name: string, k: string)
    requires IsNumber(n) && IsNumber(k) && ':' !in name
    ensures Occurrences(SWITCHED + n + " (" + name + ")" + TO_CORE + k, false, false, false,
                        Contains(name, CREATED), Contains(name, TERMINATED))
  {
    var a, b := SWITCHED + n + " ", TO_CORE + k;
    assert SWITCHED + n + " (" + name + ")" + TO_CORE + k == a + "(" + name + ")" + b;
    SwitchedLacks(n);
    ToCoreLacks(k);
    NameAddsNoResource(a, name, b);
    ProcessPatternsInParentheses();
    CreatedLetters();
    TerminatedLetters();
    InParentheses(a, name, b, CREATED, 'r', 'P');
    InParentheses(a, name, b, TERMINATED, 'r', 'P');
  }

  // ---------- whole lines ----------

  predicate PlainPattern(p: string) {
    |p| > 0 && p[0] != ' ' && 's' in p && '[' !in p && ']' !in p && '\n' !in p
  }

  lemma TotalsPlain()
    ensures PlainPattern(TOTALS)
  {
    assert TOTALS[2] == 's';
  }

  lemma AllocatedPlain()
    ensures PlainPattern(ALLOCATED)
  {
    assert ALLOCATED[2] == 's';
  }

  lemma ReclaimedPlain()
    ensures PlainPattern(RECLAIMED)
  {
    assert RECLAIMED[2] == 's';
  }

  lemma ProcessPatternsPlain()
    ensures PlainPattern(CREATED) && PlainPattern(TERMINATED)
  {
    assert CREATED[5] == 's' && TERMINATED[5] == 's';
  }

  lemma LineOccurrences(stamp: string, m: string, a: bool, b: bool, c: bool, d: bool, e: bool)
    requires IsStamp(stamp) && Occurrences(m, a, b, c, d, e)
    ensures Occurrences("[" + stamp + "]  " + m + "\n", a, b, c, d, e)
  {
    TotalsPlain();
    AllocatedPlain();
    ReclaimedPlain();
    ProcessPatternsPlain();
    LineContains(stamp, m, TOTALS);
    LineContains(stamp, m, ALLOCATED);
    LineContains(stamp, m, RECLAIMED);
    LineContains(stamp, m, CREATED);
    LineContains(stamp, m, TERMINATED);
  }

  /** Scanning a printed pair gives both numbers back. */
  lemma ScanPairPrinted(r: int, sep: string, h: int, tail: string)
    requires |sep| > 0 && !IsDigit(sep[0]) && (|tail| == 0 || !IsDigit(tail[0]))
    ensures ScanPair("RAM=" + (PrintInt(r) + (sep + (" HDD=" + (PrintInt(h) + tail)))), sep) == (Some(r), Some(h))
  {
    var t := PrintInt(h) + tail;
    var rest := sep + (" HDD=" + t);
    var s := "RAM=" + (PrintInt(r) + rest);
    assert s[..4] == "RAM=" && s[4..] == PrintInt(r) + rest;
    ScanPrinted(r, rest);
    assert rest[..|sep|] == sep && rest[|sep|..] == " HDD=" + t;
    SkipOneBlank(t);
    ScanPrinted(h, tail);
  }

  lemma SkipOneBlank(t: string)
    ensures SkipBlanks(" HDD=" + t) == "HDD=" + t
    ensures StartsWith("HDD=" + t, "HDD=") && ("HDD=" + t)[4..] == t
  {
    assert (" HDD=" + t)[1..] == "HDD=" + t;
    assert ("HDD=" + t)[0] == 'H';
  }

  /** In a line with one RAM= and no A or R right before it, the scan starts there. */
  lemma FindRam(stamp: string, head: string, rest: string)
    requires IsStamp(stamp) && Lacks(head, 'A') && |head| > 0 && head[|head| - 1] == ' '
    ensures Find("[" + stamp + "]  " + head + ("RAM=" + rest), "RAM=") == Some("RAM=" + rest)
  {
    var a := "[" + stamp + "]  " + head;
    assert "RAM="[1] == 'A' && "RAM="[0] == 'R';
    assert a[|a| - 1] == ' ';
    assert 'A' !in a;
    assert a + ("RAM=" + rest) == a + "RAM=" + rest;
    FindBehind(a, "RAM=", rest);
  }

  const ALLOCATED_HEAD := "Resources allocated: "
  const RECLAIMED_HEAD := "Resources reclaimed: "
  const TOTALS_HEAD := "Resources: "

  lemma Heads()
    ensures ALLOCATED == ALLOCATED_HEAD + "RAM=" && Lacks(ALLOCATED_HEAD, 'A')
    ensures RECLAIMED == RECLAIMED_HEAD + "RAM=" && Lacks(RECLAIMED_HEAD, 'A')
    ensures TOTALS == TOTALS_HEAD + "RAM=" && Lacks(TOTALS_HEAD, 'A')
    ensures |ALLOCATED_HEAD| == |RECLAIMED_HEAD| == 21 && |TOTALS_HEAD| == 11
    ensures ALLOCATED_HEAD[20] == RECLAIMED_HEAD[20] == TOTALS_HEAD[10] == ' '
  {
  }

  lemma CommaParts()
    ensures COMMA_HDD == "," + " HDD="
    ensures MB_HDD == "MB," + " HDD="
    ensures MB_CORES[0] == 'M'
  {
  }

  lemma PairLine(stamp: string, head: string, r: string, h: string)
    ensures "[" + stamp + "]  " + (head + "RAM=" + r + ("," + " HDD=") + h) + "\n"
            == "[" + stamp + "]  " + head + ("RAM=" + (r + ("," + (" HDD=" + (h + "\n")))))
  {
  }

  lemma TotalsLine(stamp: string, head: string, r: string, h: string, c: string, k: string)
    ensures "[" + stamp + "]  " + (head + "RAM=" + r + ("MB," + " HDD=") + h + c + k) + "\n"
            == "[" + stamp + "]  " + head + ("RAM=" + (r + ("MB," + (" HDD=" + (h + (c + k + "\n"))))))
  {
  }

  lemma ReadAmountOf(stamp: string, head: string, a: Amount)
    requires IsStamp(stamp) && Lacks(head, 'A') && |head| > 0 && head[|head| - 1] == ' '
    ensures ReadAmount("[" + stamp + "]  " + (head + "RAM=" + PrintInt(a.ram) + COMMA_HDD + PrintInt(a.hdd)) + "\n")
            == Some(a)
  {
    CommaParts();
    var r, h := PrintInt(a.ram), PrintInt(a.hdd);
    PairLine(stamp, head, r, h);
    FindRam(stamp, head, r + ("," + (" HDD=" + (h + "\n"))));
    ScanPairPrinted(a.ram, ",", a.hdd, "\n");
  }

  lemma ReadTotalsOf(v: View, stamp: string, head: string, a: Amount, k: string)
    requires IsStamp(stamp) && Lacks(head, 'A') && |head| > 0 && head[|head| - 1] == ' '
    ensures ReadTotals(v, "[" + stamp + "]  "
                          + (head + "RAM=" + PrintInt(a.ram) + MB_HDD + PrintInt(a.hdd) + MB_CORES + k) + "\n")
            == v.(total := a, free := a)
  {
    CommaParts();
    var r, h := PrintInt(a.ram), PrintInt(a.hdd);
    TotalsLine(stamp, head, r, h, MB_CORES, k);
    var tail := MB_CORES + k + "\n";
    assert tail[0] == 'M';
    FindRam(stamp, head, r + ("MB," + (" HDD=" + (h + tail))));
    ScanPairPrinted(a.ram, "MB,", a.hdd, tail);
  }

  /** The name in the line, if any, cannot be mistaken for a line of another kind. */
  predicate NameReadable(e: Event) {
    match e
    case Created(_, name) => !Contains(name, TERMINATED)
    case Switched(_, name, _) => Contains(name, CREATED) <==> Contains(name, TERMINATED)
    case _ => true
  }

  predicate ColonFree(e: Event) {
    match e
    case Created(_, name) => ':' !in name
    case Switched(_, name, _) => ':' !in name
    case _ => true
  }

  lemma ResourceLineRead(v: View, stamp: string, e: Event)
    requires IsStamp(stamp) && (e.Booted? || e.Allocated? || e.Reclaimed?)
    ensures ReadLine(v, LogLine(stamp, e)) == Some(ReadEvent(v, e))
  {
    Heads();
    match e
    case Booted(t, k) =>
      TotalsText(PrintInt(t.ram), PrintInt(t.hdd), PrintInt(k));
      LineOccurrences(stamp, Text(e), true, false, false, false, false);
      ReadTotalsOf(v, stamp, TOTALS_HEAD, t, PrintInt(k));
    case Allocated(a) =>
      AllocatedText(PrintInt(a.ram), PrintInt(a.hdd));
      LineOccurrences(stamp, Text(e), false, true, false, false, false);
      ReadAmountOf(stamp, ALLOCATED_HEAD, a);
    case Reclaimed(a) =>
      ReclaimedText(PrintInt(a.ram), PrintInt(a.hdd));
      LineOccurrences(stamp, Text(e), false, false, true, false, false);
      ReadAmountOf(stamp, RECLAIMED_HEAD, a);
  }

  lemma ProcessLineRead(v: View, stamp: string, e: Event)
    requires IsStamp(stamp) && ColonFree(e) && !(e.Booted? || e.Allocated? || e.Reclaimed?)
    ensures ReadLine(v, LogLine(stamp, e)) == Some(ReadEvent(v, e)) <==> NameReadable(e)
  {
    match e
    case Created(pid, name) =>
      CreatedText(PrintInt(pid), name);
      LineOccurrences(stamp, Text(e), false, false, false, true, Contains(name, TERMINATED));
    case Terminated(pid) =>
      TerminatedText(PrintInt(pid));
      LineOccurrences(stamp, Text(e), false, false, false, false, true);
    case Switched(pid, name, core) =>
      SwitchedText(PrintInt(pid), name, PrintInt(core));
      LineOccurrences(stamp, Text(e), false, false, false, Contains(name, CREATED), Contains(name, TERMINATED));
    case Unblocked(pid) =>
      ResolvedText(PrintInt(pid));
      LineOccurrences(stamp, Text(e), false, false, false, false, false);
    case ChildExited(pid) =>
      ChildText(PrintInt(pid));
      LineOccurrences(stamp, Text(e), false, false, false, false, false);
  }

  /** The dashboard reads a kernel line as what it says exactly when the task name in it does not
      itself pass for a creation or termination. */
  lemma LineReadIff(v: View, stamp: string, e: Event)
    requires IsStamp(stamp) && ColonFree(e)
    ensures ReadLine(v, LogLine(stamp, e)) == Some(ReadEvent(v, e)) <==> NameReadable(e)
  {
    if e.Booted? || e.Allocated? || e.Reclaimed? {
      ResourceLineRead(v, stamp, e);
    } else {
      ProcessLineRead(v, stamp, e);
    }
  }

  // ---------- whole files ----------

  predicate SmallName(name: string, room: nat) {
    |name| <= room && '\n' !in name
  }

  /** What keeps a log line one line of at most 255 characters: 32-bit numbers and short names without
      a newline. A creation prints the handler's own copy of the name, which has a terminator only if
      the name leaves room for one; a dispatch prints the copy in the PCB, which always has one. */
  predicate Printable(e: Event) {
    match e
    case Booted(t, k) => Int32(t.ram) && Int32(t.hdd) && Int32(k)
    case Allocated(a) => Int32(a.ram) && Int32(a.hdd)
    case Reclaimed(a) => Int32(a.ram) && Int32(a.hdd)
    case Created(pid, name) => Int32(pid) && SmallName(name, Wire.NAME_ROOM - 1)
    case Terminated(pid) => Int32(pid)
    case Switched(pid, name, core) => Int32(pid) && Int32(core) && SmallName(name, Wire.NAME_ROOM)
    case Unblocked(pid) => Int32(pid)
    case ChildExited(pid) => Int32(pid)
  }

  lemma ShortTexts()
    ensures |TOTALS| <= 25 && |ALLOCATED| <= 25 && |RECLAIMED| <= 25 && |COMMA_HDD| <= 25 && |MB_HDD| <= 25
    ensures |MB_CORES| <= 25 && |CREATED| <= 25 && |TERMINATED| <= 25 && |COLON_PID| <= 25 && |SWITCHED| <= 25
    ensures |TO_CORE| <= 25 && |RESOLVED| <= 25 && |TO_READY| <= 25 && |CHILD| <= 25 && |CHILD_ENDED| <= 25
  {
  }

  lemma ResourceTextsOneLine()
    ensures Lacks(TOTALS, '\n') && Lacks(ALLOCATED, '\n') && Lacks(RECLAIMED, '\n')
    ensures Lacks(COMMA_HDD, '\n') && Lacks(MB_HDD, '\n') && Lacks(MB_CORES, '\n')
  {
  }

  lemma ProcessTextsOneLine()
    ensures Lacks(CREATED, '\n') && Lacks(TERMINATED, '\n') && Lacks(COLON_PID, '\n') && Lacks(SWITCHED, '\n')
    ensures Lacks(TO_CORE, '\n')
  {
  }

  lemma OtherTextsOneLine()
    ensures Lacks(RESOLVED, '\n') && Lacks(TO_READY, '\n') && Lacks(CHILD, '\n') && Lacks(CHILD_ENDED, '\n')
  {
  }

  predicate Fits(m: string, n: nat) {
    |m| <= n && '\n' !in m
  }

  lemma ResourceTextFits(e: Event)
    requires Printable(e) && (e.Booted? || e.Allocated? || e.Reclaimed?)
    ensures Fits(Text(e), 200)
  {
    ShortTexts();
    ResourceTextsOneLine();
    match e
    case Booted(t, k) => PrintedLength(t.ram); PrintedLength(t.hdd); PrintedLength(k);
    case Allocated(a) => PrintedLength(a.ram); PrintedLength(a.hdd);
    case Reclaimed(a) => PrintedLength(a.ram); PrintedLength(a.hdd);
  }

  lemma FitsConcat(a: string, m: nat, b: string, n: nat)
    requires Fits(a, m) && Fits(b, n)
    ensures Fits(a + b, m + n)
  {
  }

  lemma CreatedFits(pid: int, name: string)
    requires Int32(pid) && SmallName(name, Wire.NAME_ROOM)
    ensures Fits(Text(Created(pid, name)), 200)
  {
    ShortTexts();
    ProcessTextsOneLine();
    PrintedLength(pid);
    var n := PrintInt(pid);
    FitsConcat(CREATED, 25, COLON_PID, 25);
    FitsConcat(CREATED + COLON_PID, 50, n, 11);
    FitsConcat(CREATED + COLON_PID + n, 61, " (", 2);
    FitsConcat(CREATED + COLON_PID + n + " (", 63, name, 63);
    FitsConcat(CREATED + COLON_PID + n + " (" + name, 126, ")", 1);
  }

  lemma SwitchedFits(pid: int, name: string, core: int)
    requires Int32(pid) && Int32(core) && SmallName(name, Wire.NAME_ROOM)
    ensures Fits(Text(Switched(pid, name, core)), 200)
  {
    ShortTexts();
    ProcessTextsOneLine();
    PrintedLength(pid);
    PrintedLength(core);
    var n := PrintInt(pid);
    FitsConcat(SWITCHED, 25, n, 11);
    FitsConcat(SWITCHED + n, 36, " (", 2);
    FitsConcat(SWITCHED + n + " (", 38, name, 63);
    FitsConcat(SWITCHED + n + " (" + name, 101, ")", 1);
    FitsConcat(SWITCHED + n + " (" + name + ")", 102, TO_CORE, 25);
    FitsConcat(SWITCHED + n + " (" + name + ")" + TO_CORE, 127, PrintInt(core), 11);
  }

  lemma ProcessTextFits(e: Event)
    requires Printable(e) && !(e.Booted? || e.Allocated? || e.Reclaimed?)
    ensures Fits(Text(e), 200)
  {
    ShortTexts();
    ProcessTextsOneLine();
    OtherTextsOneLine();
    match e
    case Created(pid, name) => CreatedFits(pid, name);
    case Terminated(pid) => PrintedLength(pid);
    case Switched(pid, name, core) => SwitchedFits(pid, name, core);
    case Unblocked(pid) => PrintedLength(pid);
    case ChildExited(pid) => PrintedLength(pid);
  }

  lemma LineFits(stamp: string, e: Event)
    requires IsStamp(stamp) && Printable(e)
    ensures IsLine(LogLine(stamp, e)) && |LogLine(stamp, e)| <= 255
  {
    if e.Booted? || e.Allocated? || e.Reclaimed? {
      ResourceTextFits(e);
    } else {
      ProcessTextFits(e);
    }
    var l := LogLine(stamp, e);
    assert l[..|l| - 1] == "[" + stamp + "]  " + Text(e);
  }

  predicate Loggable(e: Event) {
    Printable(e) && ColonFree(e) && NameReadable(e)
  }

  predicate LoggableAll(stamps: seq<string>, log: seq<Event>) {
    && |stamps| == |log|
    && forall i :: 0 <= i < |log| ==> IsStamp(stamps[i]) && Loggable(log[i])
  }

  function LogLines(stamps: seq<string>, log: seq<Event>): (r: seq<string>)
    requires |stamps| == |log|
    ensures |r| == |log|
    ensures forall i :: 0 <= i < |log| ==> r[i] == LogLine(stamps[i], log[i])
  {
    seq(|log|, i requires 0 <= i < |log| => LogLine(stamps[i], log[i]))
  }

  /** Views that follow from one another line by line are what reading the lines goes through. */
  lemma {:induction false} ReadThrough(vs: seq<View>, ls: seq<string>)
    requires |vs| == |ls| + 1
    requires forall i :: 0 <= i < |ls| ==> ReadLine(vs[i], ls[i]) == Some(vs[i + 1])
    ensures ReadLines(vs[0], ls) == Some(vs[|ls|])
    decreases |ls|
  {
    if |ls| != 0 {
      ReadThrough(vs[1..], ls[1..]);
    }
  }

  lemma LineReadAs(v: View, w: View, stamp: string, e: Event)
    requires IsStamp(stamp) && Loggable(e) && w == ReadEvent(v, e)
    ensures ReadLine(v, LogLine(stamp, e)) == Some(w)
  {
    LineReadIff(v, stamp, e);
  }

  lemma LogLineStep(stamps: seq<string>, log: seq<Event>, i: nat)
    requires LoggableAll(stamps, log) && i < |log|
    ensures ReadLine(Replay(log[..i]), LogLine(stamps[i], log[i])) == Some(Replay(log[..i + 1]))
  {
    assert log[..i + 1] == log[..i] + [log[i]];
    ReplayAppend(log[..i], log[i]);
    LineReadAs(Replay(log[..i]), Replay(log[..i + 1]), stamps[i], log[i]);
  }

  lemma LogLinesRead(stamps: seq<string>, log: seq<Event>)
    requires LoggableAll(stamps, log)
    ensures ReadLines(INITIAL_VIEW, LogLines(stamps, log)) == Some(Replay(log))
  {
    var vs := seq(|log| + 1, i requires 0 <= i <= |log| => Replay(log[..i]));
    forall i | 0 <= i < |log|
      ensures ReadLine(vs[i], LogLines(stamps, log)[i]) == Some(vs[i + 1])
    {
      LogLineStep(stamps, log, i);
    }
    ReadThrough(vs, LogLines(stamps, log));
    assert log[..|log|] == log && log[..0] == [];
  }

  function ReadFile(v: View, s: string): Option<View> {
    ReadLines(v, Lines(s, 255))
  }

  /** What the dashboard shows of a log file: the figures read from it, none of them below zero. */
  function Shown(file: string): Option<View> {
    match ReadFile(INITIAL_VIEW, file)
    case None => None
    case Some(v) => Some(Clamped(v))
  }

  /** The figures shown are the ones read, but for those below zero, which are shown as zero. */
  lemma ShownIsClamped(file: string)
    ensures ReadFile(INITIAL_VIEW, file).None? <==> Shown(file).None?
    ensures Shown(file).Some? ==>
              var v, w := ReadFile(INITIAL_VIEW, file).value, Shown(file).value;
              && w.total == v.total
              && w.free.ram >= 0 && (w.free.ram == v.free.ram || (v.free.ram < 0 && w.free.ram == 0))
              && w.free.hdd >= 0 && (w.free.hdd == v.free.hdd || (v.free.hdd < 0 && w.free.hdd == 0))
              && w.active >= 0 && (w.active == v.active || (v.active < 0 && w.active == 0))
  {
  }

  /** Without a line the dashboard shows 1024 of each, all free, and no process. */
  lemma EmptyFileShows()
    ensures Shown("") == Some(View(Amount(1024, 1024), Amount(1024, 1024), 0))
  {
  }

  /** Reading the log file of any sequence of kernel events comes to the same as replaying the events,
      if no name in it is misleading. */
  lemma FileReadsAsReplay(stamps: seq<string>, log: seq<Event>)
    requires LoggableAll(stamps, log)
    ensures ReadFile(INITIAL_VIEW, Join(LogLines(stamps, log))) == Some(Replay(log))
  {
    forall i | 0 <= i < |log|
      ensures IsLine(LogLines(stamps, log)[i]) && |LogLines(stamps, log)[i]| <= 255
    {
      LineFits(stamps[i], log[i]);
    }
    LinesOfJoin(LogLines(stamps, log), 255);
    LogLinesRead(stamps, log);
  }

  /** From threads to screen: whatever the interleaving of non-negative requests, once all lines are
      written and no name in them is misleading, the screen shows the kernel's own free RAM and free
      HDD, and as process count the number of PCBs plus the creations dropped on a full table. */
  lemma DashboardShowsKernel(capacity: nat, total: Amount, cores: int, acts: seq<Action>, stamps: seq<string>)
    requires NOTHING.AtMost(total)
    requires ValidActions(Start(capacity, total, cores), acts) && NonNegativeRequests(acts)
    requires Quiescent(Perform(Start(capacity, total, cores), acts))
    requires LoggableAll(stamps, Perform(Start(capacity, total, cores), acts).log)
    ensures var s := Perform(Start(capacity, total, cores), acts);
            Shown(Join(LogLines(stamps, s.log))) == Some(View(total, s.free, |s.kernel.table| + s.dropped))
  {
    DashboardAgreesAtQuiescence(capacity, total, cores, acts);
    FileReadsAsReplay(stamps, Perform(Start(capacity, total, cores), acts).log);
  }

  // ---------- the refresh loop ----------

  /** Takes the amounts of one line; false when it goes on with a value that was never set. */
  method TakeAmounts(v: View, buf: string) returns (ok: bool, total: Amount, free: Amount)
    ensures (if ok then Some(View(total, free, v.active)) else None) == ReadAmounts(v, buf)
  {
    ok, total, free := true, v.total, v.free;
    if Contains(buf, TOTALS) {
      var w := ReadTotals(View(total, free, v.active), buf);
      total, free := w.total, w.free;
    }
    if Contains(buf, ALLOCATED) {
      var a := ReadAmount(buf);
      if a == None { ok := false; return; }
      free := free.Minus(a.value);
    }
    if Contains(buf, RECLAIMED) {
      var a := ReadAmount(buf);
      if a == None { ok := false; return; }
      free := free.Plus(a.value);
    }
  }

  method TakeLine(v: View, buf: string) returns (ok: bool, total: Amount, free: Amount, active: int)
    ensures (if ok then Some(View(total, free, active)) else None) == ReadLine(v, buf)
  {
    ok, total, free := TakeAmounts(v, buf);
    active := v.active;
    if Contains(buf, CREATED) { active := active + 1; }
    if Contains(buf, TERMINATED) { active := active - 1; }
  }

  /** Reading goes on from what the lines so far came to. */
  function GoOn(v: Option<View>, s: string): Option<View> {
    if v == None then None else ReadFile(v.value, s)
  }

  lemma LinesCons(s: string)
    requires |s| > 0
    ensures var n := LineLength(s, 255); Lines(s, 255) == [s[..n]] + Lines(s[n..], 255)
  {
  }

  lemma ReadCons(v: View, l: string, ls: seq<string>)
    ensures ReadLines(v, [l] + ls) == var w := ReadLine(v, l); if w == None then None else ReadLines(w.value, ls)
  {
    assert ([l] + ls)[1..] == ls;
  }

  lemma ReadFileStep(v: View, s: string, l: string, rest: string)
    requires |s| > 0 && l == s[..LineLength(s, 255)] && rest == s[LineLength(s, 255)..]
    ensures ReadFile(v, s) == GoOn(ReadLine(v, l), rest)
  {
    LinesCons(s);
    ReadCons(v, l, Lines(rest, 255));
  }

  /** Reads one line of what is left of the file and takes it into the counts. */
  method TakeNext(v: View, rest: string) returns (n: nat, next: Option<View>)
    requires |rest| > 0
    ensures 0 < n <= |rest|
    ensures ReadFile(v, rest) == GoOn(next, rest[n..])
  {
    n := LineLength(rest, 255);
    ReadFileStep(v, rest, rest[..n], rest[n..]);
    var ok, total, free, active := TakeLine(v, rest[..n]);
    next := if ok then Some(View(total, free, active)) else None;
  }

  /** One refresh of the screen: reads the file line by line and clamps what it has counted. */
  method Refresh(file: string) returns (shown: Option<View>)
    ensures shown == Shown(file)
  {
    var v := INITIAL_VIEW;
    var rest := file;
    while |rest| != 0
      invariant ReadFile(v, rest) == ReadFile(INITIAL_VIEW, file)
      decreases |rest|
    {
      var n, next := TakeNext(v, rest);
      if next == None {
        return None;
      }
      v, rest := next.value, rest[n..];
    }
    var free, active := v.free, v.active;
    if free.ram < 0 { free := free.(ram := 0); }
    if free.hdd < 0 { free := free.(hdd := 0); }
    if active < 0 { active := 0; }
    shown := Some(View(v.total, free, active));
  }
}
