/** The log daemon's rotation: a header and the last hundred lines. */
module LogRotation {
  import opened KernelTypes
  import opened CText

  const KEPT_LINES := 100
  const LINE_ROOM := 255
  const HEADER := "[Log Daemon] Log rotated\n"

  function Kept(lines: seq<string>): seq<string> {
    if |lines| <= KEPT_LINES then lines else lines[|lines| - KEPT_LINES..]
  }

  /** The copy of a line into its row has a terminator only if the line is shorter than the row. */
  predicate FitsRow(l: string) {
    |l| < LINE_ROOM
  }

  predicate AllFit(lines: seq<string>) {
    forall i :: 0 <= i < |lines| ==> FitsRow(lines[i])
  }

  /** The file after a rotation; None when a kept row is printed without a terminator of its own. */
  function Rotated(file: string): Option<string> {
    var kept := Kept(Lines(file, LINE_ROOM));
    if AllFit(kept) then Some(HEADER + Join(kept)) else None
  }

  // ---------- what a rotation leaves ----------

  lemma HeaderIsLine()
    ensures IsLine(HEADER) && |HEADER| == 25
  {
    assert '\n' !in HEADER[..24];
  }

  /** A rotated file reads as the header followed by exactly the last min(count, 100) lines in order. */
  lemma RotatedLines(file: string)
    requires Rotated(file).Some?
    ensures var all := Lines(file, 255);
            Lines(Rotated(file).value, 255) ==
            ["[Log Daemon] Log rotated\n"] + if |all| <= 100 then all else all[|all| - 100..]
  {
    var kept := Kept(Lines(file, LINE_ROOM));
    LinesShape(file, LINE_ROOM);
    HeaderIsLine();
    var all := Lines(file, LINE_ROOM);
    var ls := [HEADER] + kept;
    assert ls[1..] == kept;
    forall i | 0 <= i < |ls|
      ensures IsChunk(ls[i], LINE_ROOM) && (i < |ls| - 1 ==> IsLine(ls[i]))
    {
      if i > 0 {
        var x := |all| - |kept| + i - 1;
        assert ls[i] == kept[i - 1] == all[x];
        assert FitsRow(kept[i - 1]) && IsChunk(all[x], LINE_ROOM);
      }
    }
    LinesOfLineList(ls, LINE_ROOM);
  }

  /** A rotation has a defined result exactly when none of the last hundred lines fills its row. */
  lemma RotatesIff(file: string)
    ensures var all := Lines(file, 255);
            Rotated(file).Some? <==> forall i :: 0 <= i < |all| && |all| - 100 <= i ==> |all[i]| <= 254
  {
    var all := Lines(file, LINE_ROOM);
    var kept := Kept(all);
    var d := |all| - |kept|;
    if Rotated(file).Some? {
      forall i | 0 <= i < |all| && |all| - 100 <= i
        ensures |all[i]| <= 254
      {
        assert FitsRow(kept[i - d]);
      }
    } else {
      var i :| 0 <= i < |kept| && !FitsRow(kept[i]);
      assert |all[d + i]| > 254;
    }
  }

  /** Rotating twice is rotating once exactly when there were a hundred lines or more; below that each
      rotation adds another header. */
  lemma RotationIdempotentIff(file: string)
    requires Rotated(file).Some?
    ensures Rotated(Rotated(file).value) == Rotated(file) <==> |Lines(file, 255)| >= 100
  {
    var kept := Kept(Lines(file, LINE_ROOM));
    RotatedLines(file);
    HeaderIsLine();
    if |kept| == KEPT_LINES {
      assert Kept([HEADER] + kept) == kept;
    } else {
      assert Kept([HEADER] + kept) == [HEADER] + kept;
      assert ([HEADER] + kept)[1..] == kept;
    }
  }

  // ---------- the ring ----------

  function Row(k: nat): (r: nat)
    ensures r < KEPT_LINES
  {
    k % KEPT_LINES
  }

  /** After count lines the rows hold the last hundred of them. */
  ghost predicate RingHolds(rows: seq<string>, all: seq<string>, count: nat) {
    && |rows| == KEPT_LINES && count <= |all|
    && forall k: nat :: k < count <= k + KEPT_LINES ==> rows[Row(k)] == all[k]
  }

  lemma RingStore(rows: seq<string>, all: seq<string>, count: nat)
    requires RingHolds(rows, all, count) && count < |all|
    ensures RingHolds(rows[Row(count) := all[count]], all, count + 1)
  {
    forall k: nat | k < count < k + KEPT_LINES
      ensures Row(k) != Row(count)
    {
    }
  }

  method FillRows(file: string, rows: array<string>) returns (count: nat)
    requires rows.Length == KEPT_LINES
    modifies rows
    ensures count == |Lines(file, LINE_ROOM)| && RingHolds(rows[..], Lines(file, LINE_ROOM), count)
  {
    ghost var all := Lines(file, LINE_ROOM);
    count := 0;
    var pos := 0;
    while pos < |file|
      invariant pos <= |file| && RingHolds(rows[..], all, count)
      invariant Lines(file[pos..], LINE_ROOM) == all[count..]
      decreases |file| - pos
    {
      var n := LineLength(file[pos..], LINE_ROOM);
      var buf := file[pos..][..n];
      assert file[pos..][n..] == file[pos + n..];
      assert all[count..] == [buf] + Lines(file[pos + n..], LINE_ROOM);
      assert buf == all[count];
      assert all[count..][1..] == all[count + 1..];
      RingStore(rows[..], all, count);
      ghost var before := rows[..];
      rows[count % KEPT_LINES] := buf;
      assert rows[..] == before[Row(count) := buf];
      count := count + 1;
      pos := pos + n;
    }
  }

  /** Printing from the computed start goes through the rows of the lines kept. */
  lemma StartRow(n: nat, i: nat)
    ensures Row((if n > KEPT_LINES then n % KEPT_LINES else 0) + i)
            == Row((if n > KEPT_LINES then n - KEPT_LINES else 0) + i)
  {
  }

  /** The i-th row printed is the i-th line kept. */
  lemma PrintedRow(rows: seq<string>, all: seq<string>, i: nat)
    requires RingHolds(rows, all, |all|) && i < |Kept(all)|
    ensures var start := if |all| > KEPT_LINES then |all| % KEPT_LINES else 0;
            rows[Row(start + i)] == Kept(all)[i]
  {
    StartRow(|all|, i);
    var k := if |all| > KEPT_LINES then |all| - KEPT_LINES + i else i;
    assert Kept(all)[i] == all[k];
    assert rows[Row(k)] == all[k];
  }

  lemma JoinAppend(ls: seq<string>, l: string)
    ensures Join(ls + [l]) == Join(ls) + l
  {
    JoinConcat(ls, [l]);
    assert Join([l]) == l + Join([]);
  }

  /** Prints the kept rows in order behind the header, up to one that lacks its terminator. */
  method PrintRows(rows: array<string>, count: nat, ghost all: seq<string>) returns (out: Option<string>)
    requires count == |all| && RingHolds(rows[..], all, count)
    ensures out == if AllFit(Kept(all)) then Some(HEADER + Join(Kept(all))) else None
  {
    ghost var kept, r := Kept(all), rows[..];
    var start := if count > KEPT_LINES then count % KEPT_LINES else 0;
    var total := if count > KEPT_LINES then KEPT_LINES else count;
    var body := "";
    for i := 0 to total
      invariant rows[..] == r
      invariant body == Join(kept[..i])
      invariant forall k :: 0 <= k < i ==> FitsRow(kept[k])
    {
      PrintedRow(r, all, i);
      var row := rows[(start + i) % KEPT_LINES];
      assert row == kept[i];
      if |row| >= LINE_ROOM {
        assert !FitsRow(kept[i]);
        return None;
      }
      assert kept[..i + 1] == kept[..i] + [row];
      JoinAppend(kept[..i], row);
      body := body + row;
    }
    assert kept[..total] == kept;
    out := Some(HEADER + body);
  }

  method RotateLog(file: string) returns (out: Option<string>)
    ensures out == Rotated(file)
  {
    var rows := new string[KEPT_LINES](_ => "");
    var count := FillRows(file, rows);
    out := PrintRows(rows, count, Lines(file, LINE_ROOM));
  }
}
