/** The messages between tasks and kernel: how a task prints them and how the handler takes them
    apart in place in its buffer. */
module Wire {
  import opened KernelTypes
  import opened CText

  /** Characters of a task name that a PCB keeps. */
  const NAME_ROOM := 63

  datatype Message =
    | Request(name: string, ram: int, hdd: int)
    | Termination(pid: int)
    | Ignored

  function FormatRequest(name: string, ram: int, hdd: int): string {
    "REQ:" + name + ":" + PrintInt(ram) + ":" + PrintInt(hdd)
  }

  function FormatTermination(pid: int): string {
    "TERM:" + PrintInt(pid)
  }

  function FormatReply(granted: bool, pid: int): string {
    if granted then "GRANT:" + PrintInt(pid) else "DENY"
  }

  function Truncated(name: string): string {
    if |name| <= NAME_ROOM then name else name[..NAME_ROOM]
  }

  /** The two strings of a text on both sides of its first colon. */
  function Pair(t: string): Option<(string, string)> {
    var i := IndexOf(t, ':');
    if i == |t| then None else Some((t[..i], t[i + 1..]))
  }

  function WithName(name: string, pair: Option<(string, string)>): Option<(string, string, string)> {
    match pair case None => None case Some((ram, hdd)) => Some((name, ram, hdd))
  }

  /** The text cut at its first two colons. */
  function Fields(t: string): Option<(string, string, string)> {
    match Pair(t) case None => None case Some((name, rest)) => WithName(name, Pair(rest))
  }

  function ParseFields(t: string): Message {
    match Fields(t)
    case None => Ignored
    case Some((name, ram, hdd)) => Request(Truncated(name), Atoi(ram), Atoi(hdd))
  }

  /** What the handler makes of a message; the name is the one the new PCB carries. */
  function ParseMessage(m: string): Message {
    if StartsWith(m, "REQ:") then ParseFields(m[4..])
    else if StartsWith(m, "TERM:") then Termination(Atoi(m[5..]))
    else Ignored
  }

  // ---------- round trips ----------

  lemma IndexBehind(a: string, c: char, b: string)
    requires c !in a
    ensures IndexOf(a + [c] + b, c) == |a|
  {
    assert (a + [c] + b)[|a|] == c;
    assert forall j :: 0 <= j < |a| ==> (a + [c] + b)[j] == a[j];
  }

  lemma RequestPrefix(t: string)
    ensures ParseMessage("REQ:" + t) == ParseFields(t)
  {
    assert ("REQ:" + t)[..4] == "REQ:" && ("REQ:" + t)[4..] == t;
  }

  lemma FieldsBehind(name: string, u: string)
    requires ':' !in name && ':' in u
    ensures var j := IndexOf(u, ':');
            j < |u| && Fields(name + [':'] + u) == Some((name, u[..j], u[j + 1..]))
  {
    var t := name + [':'] + u;
    IndexBehind(name, ':', u);
    assert t[..|name|] == name && t[|name| + 1..] == u;
  }

  lemma FieldsAtColons(name: string, ram: string, rest: string)
    requires ':' !in name && ':' !in ram
    ensures Fields(name + [':'] + (ram + [':'] + rest)) == Some((name, ram, rest))
  {
    var u := ram + [':'] + rest;
    IndexBehind(ram, ':', rest);
    assert u[|ram|] == ':';
    assert u[..|ram|] == ram && u[|ram| + 1..] == rest;
    FieldsBehind(name, u);
  }

  lemma PrintedFields(name: string, ram: int, hdd: int)
    requires ':' !in name
    ensures Fields(name + [':'] + (PrintInt(ram) + [':'] + PrintInt(hdd))) == Some((name, PrintInt(ram), PrintInt(hdd)))
  {
    FieldsAtColons(name, PrintInt(ram), PrintInt(hdd));
  }

  lemma FieldsParse(t: string, name: string, r: string, h: string, ram: int, hdd: int)
    requires Fields(t) == Some((name, r, h)) && Atoi(r) == ram && Atoi(h) == hdd
    ensures ParseMessage("REQ:" + t) == Request(Truncated(name), ram, hdd)
  {
    RequestPrefix(t);
  }

  /** A message is a request exactly when it is "REQ:" and three strings between colons, the first two
      without a colon of their own; then the PCB gets the first 63 characters of the one and the
      numbers in the other two. */
  lemma ThreeStringsParse(a: string, b: string, c: string)
    requires ':' !in a && ':' !in b
    ensures ParseMessage("REQ:" + (a + [':'] + (b + [':'] + c)))
            == Request(if |a| <= 63 then a else a[..63], Atoi(b), Atoi(c))
  {
    RequestPrefix(a + [':'] + (b + [':'] + c));
    FieldsAtColons(a, b, c);
  }

  lemma PairSplits(t: string)
    requires Pair(t).Some?
    ensures ':' !in Pair(t).value.0 && t == Pair(t).value.0 + [':'] + Pair(t).value.1
  {
    var i := IndexOf(t, ':');
    assert t == t[..i] + [t[i]] + t[i + 1..];
  }

  lemma FieldsSplit(t: string)
    requires Fields(t).Some?
    ensures var (a, b, c) := Fields(t).value;
            ':' !in a && ':' !in b && t == a + [':'] + (b + [':'] + c)
  {
    PairSplits(t);
    PairSplits(Pair(t).value.1);
  }

  lemma RequestHasThreeStrings(m: string) returns (a: string, b: string, c: string)
    requires ParseMessage(m).Request?
    ensures ':' !in a && ':' !in b && m == "REQ:" + (a + [':'] + (b + [':'] + c))
  {
    var t := m[4..];
    assert m == m[..4] + t;
    FieldsSplit(t);
    a, b, c := Fields(t).value.0, Fields(t).value.1, Fields(t).value.2;
  }

  lemma RequestIsNoNotice(m: string)
    requires StartsWith(m, "REQ:")
    ensures !StartsWith(m, "TERM:")
  {
    assert m[0] == m[..4][0] == 'R';
    assert |m| >= 5 ==> m[..5][0] == m[0];
    assert "TERM:"[0] == 'T';
  }

  /** It is a termination notice exactly when it starts with "TERM:", and nothing else means anything. */
  lemma OtherMessages(m: string)
    ensures ParseMessage(m).Termination? <==> StartsWith(m, "TERM:")
    ensures StartsWith(m, "TERM:") ==> ParseMessage(m) == Termination(Atoi(m[5..]))
    ensures !StartsWith(m, "REQ:") && !StartsWith(m, "TERM:") ==> ParseMessage(m) == Ignored
  {
    if StartsWith(m, "REQ:") {
      RequestIsNoNotice(m);
    }
  }

  lemma PlainText(name: string, r: string, h: string)
    ensures "REQ:" + name + ":" + r + ":" + h == "REQ:" + (name + [':'] + (r + [':'] + h))
  {
  }

  lemma ParsedPlainName(name: string, ram: int, hdd: int)
    requires ':' !in name
    ensures ParseMessage(FormatRequest(name, ram, hdd)) == Request(Truncated(name), ram, hdd)
  {
    var r, h := PrintInt(ram), PrintInt(hdd);
    PlainText(name, r, h);
    PrintedFields(name, ram, hdd);
    AtoiPrinted(ram);
    AtoiPrinted(hdd);
    FieldsParse(name + [':'] + (r + [':'] + h), name, r, h, ram, hdd);
  }

  lemma RequestText(name: string, r: string, h: string)
    ensures "REQ:" + name + ":" + r + ":" + h == "REQ:" + (name + (":" + r + ":" + h))
  {
  }

  lemma Regroup(name: string, i: nat, tail: string)
    requires i < |name|
    ensures name + tail == name[..i] + [name[i]] + (name[i + 1..] + tail)
  {
  }

  lemma ParsedColonName(name: string, ram: int, hdd: int)
    requires ':' in name
    ensures var m := ParseMessage(FormatRequest(name, ram, hdd));
            m.Request? && m.name == Truncated(name[..IndexOf(name, ':')])
  {
    var i := IndexOf(name, ':');
    var r, h := PrintInt(ram), PrintInt(hdd);
    var tail := ":" + r + ":" + h;
    var u := name[i + 1..] + tail;
    assert u[|name| - i - 1] == ':';
    RequestText(name, r, h);
    Regroup(name, i, tail);
    RequestPrefix(name[..i] + [':'] + u);
    FieldsBehind(name[..i], u);
  }

  /** Parsing a printed request gives name, RAM and HDD back exactly when the name has no colon and
      at most 63 characters; the amounts may be any numbers. */
  lemma RequestRoundTripIff(name: string, ram: int, hdd: int)
    ensures ParseMessage(FormatRequest(name, ram, hdd)) == Request(name, ram, hdd) <==>
            ':' !in name && |name| <= 63
  {
    if ':' in name {
      ParsedColonName(name, ram, hdd);
    } else {
      ParsedPlainName(name, ram, hdd);
    }
  }

  lemma TerminationRoundTrip(pid: int)
    ensures ParseMessage(FormatTermination(pid)) == Termination(pid)
  {
    var m := FormatTermination(pid);
    assert m[..5] == "TERM:" && m[5..] == PrintInt(pid);
    assert m[0] == 'T' && m[..4][0] == 'T';
    AtoiPrinted(pid);
  }

  /** The task takes a reply for a grant exactly when it is one. */
  lemma ReplyRecognized(granted: bool, pid: int)
    ensures Contains(FormatReply(granted, pid), "GRANT") <==> granted
  {
    if granted {
      assert OccursAt(FormatReply(granted, pid), "GRANT", 0);
    } else {
      assert "GRANT"[0] == 'G';
      MissingChar("DENY", "GRANT", 'G');
    }
  }

  /** A request of 32-bit amounts and a name the PCB can keep fits the sender's 256 characters,
      terminator included, and so the handler's 512. */
  lemma RequestFits(name: string, ram: int, hdd: int)
    requires |name| <= 63 && Int32(ram) && Int32(hdd)
    ensures |FormatRequest(name, ram, hdd)| < 256
  {
    PrintedLength(ram);
    PrintedLength(hdd);
  }

  /** What goes over the pipes, character by character. */
  lemma PrintedTexts()
    ensures FormatRequest("Clock", 10, 1) == "REQ:Clock:10:1"
    ensures FormatTermination(7) == "TERM:7"
    ensures FormatReply(true, 7) == "GRANT:7" && FormatReply(false, 7) == "DENY"
  {
    assert Digits(10) == Digits(1) + ['0'];
    assert PrintInt(10) == "10" && PrintInt(1) == "1" && PrintInt(7) == "7";
  }

  // ---------- the handler's buffer ----------

  /** The C string at an index of a buffer. */
  function CString(b: seq<char>, at: nat): string
    requires at <= |b|
  {
    b[at..][..IndexOf(b[at..], '\0')]
  }

  predicate Terminated(b: seq<char>) {
    |b| > 0 && b[|b| - 1] == '\0'
  }

  /** A message read into a zeroed buffer with room to spare is the buffer's C string. */
  lemma BufferHolds(m: string, n: nat)
    requires '\0' !in m && |m| < n
    ensures Terminated(m + seq(n - |m|, _ => '\0')) && CString(m + seq(n - |m|, _ => '\0'), 0) == m
  {
    var b := m + seq(n - |m|, _ => '\0');
    var rest := seq(n - |m| - 1, _ => '\0');
    assert b == m + ['\0'] + rest;
    IndexBehind(m, '\0', rest);
    assert b[0..] == b;
  }

  lemma IndexIs(s: string, c: char, i: nat)
    requires i < |s| && s[i] == c && forall j :: 0 <= j < i ==> s[j] != c
    ensures IndexOf(s, c) == i
  {
  }

  /** Writing a terminator at offset k of a C string cuts it there and leaves what follows a string
      of its own. */
  lemma CutString(b: seq<char>, at: nat, k: nat)
    requires Terminated(b) && at < |b| && k < |CString(b, at)|
    ensures at + k + 1 < |b|
    ensures var b' := b[at + k := '\0'];
            Terminated(b') && CString(b', at) == CString(b, at)[..k]
            && CString(b', at + k + 1) == CString(b, at)[k + 1..]
  {
    var t := CString(b, at);
    var n := IndexOf(b[at..], '\0');
    assert b[at..][|b| - 1 - at] == '\0';
    assert n < |b[at..]|;
    var b' := b[at + k := '\0'];
    assert b'[at..][..k] == t[..k];
    assert b'[at..][k] == '\0';
    IndexIs(b'[at..], '\0', k);
    var s := b'[at + k + 1..];
    var m := n - k - 1;
    assert s[..m] == t[k + 1..];
    assert s[m] == b[at..][n];
    assert forall i :: 0 <= i < m ==> s[i] == b[at..][k + 1 + i];
    IndexIs(s, '\0', m);
  }

  /** strncpy of n characters: the source up to its terminator, padded with terminators to n; what
      lies beyond stays whatever it was. */
  method CopyPrefix(dst: array<char>, src: string, n: nat)
    requires n <= dst.Length
    modifies dst
    ensures forall i :: 0 <= i < n ==> dst[i] == if i < |src| then src[i] else '\0'
    ensures forall i :: n <= i < dst.Length ==> dst[i] == old(dst[i])
  {
    for i := 0 to n
      invariant forall x :: 0 <= x < i ==> dst[x] == if x < |src| then src[x] else '\0'
      invariant forall x :: i <= x < dst.Length ==> dst[x] == old(dst[x])
    {
      dst[i] := if i < |src| then src[i] else '\0';
    }
  }

  /** The PCB's name setter: copies up to a terminator or 63 characters. */
  method SetName(field: array<char>, n: array<char>)
    requires field.Length == NAME_ROOM + 1 && n.Length == NAME_ROOM + 1 && field != n
    modifies field
    ensures CString(field[..], 0) == CString(n[..63], 0)
  {
    var i := 0;
    while n[i] != '\0' && i < NAME_ROOM
      invariant i <= NAME_ROOM
      invariant field[..i] == n[..i]
      invariant forall j :: 0 <= j < i ==> n[j] != '\0'
      decreases NAME_ROOM - i
    {
      field[i] := n[i];
      assert n[..i + 1] == n[..i] + [n[i]];
      i := i + 1;
    }
    field[i] := '\0';
    assert field[..][0..] == field[..] && field[..][..i] == n[..i];
    IndexIs(field[..], '\0', i);
    var s := n[..NAME_ROOM];
    assert s[0..] == s;
    if i < NAME_ROOM {
      assert s[..i] == n[..i];
      IndexIs(s, '\0', i);
    } else {
      assert '\0' !in s;
      assert IndexOf(s, '\0') == |s|;
      assert s[..|s|] == s;
    }
  }

  /** The name on its way from the buffer through the handler's uninitialised 64-character array
      into the PCB. */
  method NameForPcb(src: string) returns (name: string)
    requires '\0' !in src
    ensures name == Truncated(src)
  {
    var local := new char[NAME_ROOM + 1];
    CopyPrefix(local, src, NAME_ROOM);
    var field := new char[NAME_ROOM + 1];
    ghost var s := local[..NAME_ROOM];
    SetName(field, local);
    name := CString(field[..], 0);
    assert s[0..] == s && local[..NAME_ROOM] == s;
    if |src| < NAME_ROOM {
      assert s[..|src|] == src;
      IndexIs(s, '\0', |src|);
    } else {
      assert s == src[..NAME_ROOM];
      assert forall i :: 0 <= i < NAME_ROOM ==> s[i] == src[i] && src[i] in src;
      assert '\0' !in s;
      assert IndexOf(s, '\0') == |s|;
      assert s[..|s|] == s;
      assert |src| == NAME_ROOM ==> src[..NAME_ROOM] == src;
    }
  }

  /** Cuts the C string at an index at its first colon, in place. */
  method CutAtColon(buf: array<char>, at: nat) returns (next: Option<nat>)
    requires Terminated(buf[..]) && at < buf.Length
    modifies buf
    ensures var t := CString(old(buf[..]), at);
            var i := IndexOf(t, ':');
            if i == |t| then next == None && buf[..] == old(buf[..])
            else
              && next == Some(at + i + 1) && at + i + 1 < buf.Length
              && Terminated(buf[..])
              && CString(buf[..], at) == t[..i] && CString(buf[..], at + i + 1) == t[i + 1..]
              && buf[..at] == old(buf[..at])
  {
    var t := CString(buf[..], at);
    var i := IndexOf(t, ':');
    if i == |t| {
      return None;
    }
    CutString(buf[..], at, i);
    ghost var b := buf[..];
    buf[at + i] := '\0';
    assert buf[..] == b[at + i := '\0'];
    return Some(at + i + 1);
  }

  /** The handler's parse: it finds the colons, overwrites them with terminators, and reads name and
      amounts where they lie. */
  method HandleMessage(buf: array<char>) returns (m: Message)
    requires Terminated(buf[..])
    modifies buf
    ensures m == ParseMessage(CString(old(buf[..]), 0))
  {
    var all := CString(buf[..], 0);
    m := Ignored;
    if StartsWith(all, "REQ:") {
      Suffix(buf[..], 4);
      m := HandleRequest(buf);
    } else if StartsWith(all, "TERM:") {
      Suffix(buf[..], 5);
      m := Termination(Atoi(CString(buf[..], 5)));
    }
  }

  method HandleRequest(buf: array<char>) returns (m: Message)
    requires Terminated(buf[..]) && 4 < buf.Length
    modifies buf
    ensures m == ParseFields(CString(old(buf[..]), 4))
  {
    m := Ignored;
    var fields := CutFields(buf);
    if fields.Some? {
      var (p1, ram, hdd) := fields.value;
      FieldsHaveNoNul(CString(old(buf[..]), 4));
      var name := NameForPcb(p1);
      m := Request(name, Atoi(ram), Atoi(hdd));
    }
  }

  lemma FieldsHaveNoNul(t: string)
    requires Fields(t).Some? && '\0' !in t
    ensures '\0' !in Fields(t).value.0
  {
  }

  method CutPair(buf: array<char>, at: nat) returns (pair: Option<(string, string)>)
    requires Terminated(buf[..]) && at < buf.Length
    modifies buf
    ensures pair == Pair(CString(old(buf[..]), at))
  {
    var next := CutAtColon(buf, at);
    if next == None {
      return None;
    }
    pair := Some((CString(buf[..], at), CString(buf[..], next.value)));
  }

  /** Cuts the request in its buffer into its three strings. */
  method CutFields(buf: array<char>) returns (fields: Option<(string, string, string)>)
    requires Terminated(buf[..]) && 4 < buf.Length
    modifies buf
    ensures fields == Fields(CString(old(buf[..]), 4))
  {
    var p3 := CutAtColon(buf, 4);
    if p3 == None {
      return None;
    }
    var name := CString(buf[..], 4);
    var amounts := CutPair(buf, p3.value);
    fields := WithName(name, amounts);
  }

  /** The string k characters into a C string is its rest. */
  lemma Suffix(b: seq<char>, k: nat)
    requires Terminated(b) && k <= |CString(b, 0)|
    ensures k < |b| && CString(b, k) == CString(b, 0)[k..]
  {
    var s := CString(b, 0);
    assert b[0..] == b;
    var n := IndexOf(b, '\0');
    assert n < |b|;
    assert b[k..][..n - k] == s[k..];
    assert forall i :: 0 <= i < n - k ==> b[k..][i] == b[k + i];
    IndexIs(b[k..], '\0', n - k);
  }
}
