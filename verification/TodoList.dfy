/** The to-do list's file format and its edits. */
module TodoList {
  import opened KernelTypes
  import opened CText

  const MAX_TODOS := 50
  /** Characters fgets accepts into a 128-character text, and into the 136-character line buffer. */
  const TEXT_ROOM := 127
  const LINE_ROOM := 135

  datatype Todo = Todo(text: string, done: bool)

  function SaveLine(t: Todo): string {
    "[" + (if t.done then "X" else " ") + "] " + t.text + "\n"
  }

  function SaveLines(ts: seq<Todo>): (r: seq<string>)
    ensures |r| == |ts| && forall i :: 0 <= i < |ts| ==> r[i] == SaveLine(ts[i])
  {
    seq(|ts|, i requires 0 <= i < |ts| => SaveLine(ts[i]))
  }

  function SaveText(ts: seq<Todo>): string {
    Join(SaveLines(ts))
  }

  /** A line of the file: skipped, an item, or one whose text would be cut before its start. */
  datatype Loaded = Skipped | Item(todo: Todo) | Undefined

  function LoadLine(line: string): Loaded {
    if |line| == 0 || line[0] != '[' then Skipped
    else if |line| <= 4 then Undefined
    else
      var t := line[4..];
      var copy := if |t| <= TEXT_ROOM then t else t[..TEXT_ROOM];
      Item(Todo(copy[..|copy| - 1], line[1] == 'X'))
  }

  /** The load loop: it stops at the end of the file or when the list is full. */
  function LoadFrom(ts: seq<Todo>, file: string): Option<seq<Todo>>
    decreases |file|
  {
    if |file| == 0 || |ts| >= MAX_TODOS then Some(ts)
    else
      var n := LineLength(file, LINE_ROOM);
      match LoadLine(file[..n])
      case Undefined => None
      case Skipped => LoadFrom(ts, file[n..])
      case Item(t) => LoadFrom(ts + [t], file[n..])
  }

  /** What comes through a save and a load: the newline of its line takes one place of the copy. */
  predicate Survives(t: Todo) {
    '\n' !in t.text && |t.text| <= 126
  }

  predicate AllSurvive(ts: seq<Todo>) {
    forall i :: 0 <= i < |ts| ==> Survives(ts[i])
  }

  // ---------- one item ----------

  lemma SaveLineShape(t: Todo)
    ensures |SaveLine(t)| == |t.text| + 5
    ensures SaveLine(t)[0] == '[' && (SaveLine(t)[1] == 'X' <==> t.done) && SaveLine(t)[3] == ' '
    ensures SaveLine(t)[4..] == t.text + "\n"
    ensures forall i :: 0 <= i < 4 ==> SaveLine(t)[i] != '\n'
  {
  }

  lemma GoodItemLoads(t: Todo, rest: string)
    requires Survives(t)
    ensures var s := SaveLine(t) + rest;
            var n := LineLength(s, LINE_ROOM);
            s[..n] == SaveLine(t) && s[n..] == rest && LoadLine(s[..n]) == Item(t)
  {
    var l := SaveLine(t);
    SaveLineShape(t);
    assert l[..|l| - 1] == l[..4] + t.text;
    assert IsLine(l);
    LineLengthOf(l, rest, LINE_ROOM);
    var s := l + rest;
    assert s[..|l|] == l && s[|l|..] == rest;
    assert (t.text + "\n")[..|t.text|] == t.text;
  }

  /** The first newline ends a line. */
  lemma {:induction false} LineEndsAt(s: string, limit: nat, j: nat)
    requires j < |s| && s[j] == '\n' && j < limit
    ensures LineLength(s, limit) <= j + 1
  {
    if j > 0 && s[0] != '\n' {
      LineEndsAt(s[1..], limit - 1, j - 1);
    }
  }

  lemma {:induction false} LineLonger(s: string, limit: nat, k: nat)
    requires k < |s| && k < limit && forall i :: 0 <= i < k ==> s[i] != '\n'
    ensures LineLength(s, limit) > k
  {
    if k > 0 {
      LineLonger(s[1..], limit - 1, k - 1);
    }
  }

  /** A text with a newline in it, or too long, comes back shorter. */
  lemma BadItemShrinks(t: Todo, rest: string)
    requires !Survives(t)
    ensures var s := SaveLine(t) + rest;
            var l := LoadLine(s[..LineLength(s, LINE_ROOM)]);
            l.Item? && |l.todo.text| < |t.text|
  {
    var l := SaveLine(t);
    var s := l + rest;
    SaveLineShape(t);
    LineLonger(s, LINE_ROOM, 4);
    if |t.text| <= 126 {
      var j :| 0 <= j < |t.text| && t.text[j] == '\n';
      assert l[4..][j] == l[4 + j] == s[4 + j];
      LineEndsAt(s, LINE_ROOM, 4 + j);
    }
  }

  /** Any line of five characters or more that starts with a bracket is an item: its text runs from the fifth
      character to the last but one, or to the 130th if that comes first, and it is done exactly when the
      second character is an X. */
  lemma BracketLineLoads(line: string)
    requires |line| >= 5 && line[0] == '['
    ensures LoadLine(line) == Item(Todo(line[4..if |line| <= 131 then |line| - 1 else 130], line[1] == 'X'))
  {
    var t := line[4..];
    var n := if |line| <= 131 then |line| - 5 else 126;
    assert t[..n] == line[4..4 + n];
    assert |t| > TEXT_ROOM ==> t[..TEXT_ROOM][..n] == t[..n];
  }

  /** A line that does not start with a bracket is no item, a shorter one that does has no defined text. */
  lemma OtherLines(line: string)
    ensures LoadLine(line).Skipped? <==> line == "" || line[0] != '['
    ensures LoadLine(line).Undefined? <==> 1 <= |line| <= 4 && line[0] == '['
  {
  }

  /** What is written, character by character. */
  lemma SavedTexts()
    ensures SaveLine(Todo("Tea", true)) == "[X] Tea\n" && SaveLine(Todo("Tea", false)) == "[ ] Tea\n"
  {
  }

  // ---------- the list ----------

  /** Loading only adds behind what is there. */
  lemma {:induction false} LoadKeepsPrefix(ts: seq<Todo>, file: string)
    ensures LoadFrom(ts, file).Some? ==> ts <= LoadFrom(ts, file).value
    decreases |file|
  {
    if |file| != 0 && |ts| < MAX_TODOS {
      var n := LineLength(file, LINE_ROOM);
      match LoadLine(file[..n])
      case Undefined =>
      case Skipped => LoadKeepsPrefix(ts, file[n..]);
      case Item(t) => LoadKeepsPrefix(ts + [t], file[n..]);
    }
  }

  /** However long the file, the list never gets longer than 50. */
  lemma {:induction false} LoadedAtMost50(ts: seq<Todo>, file: string)
    requires |ts| <= 50
    ensures LoadFrom(ts, file).Some? ==> |LoadFrom(ts, file).value| <= 50
    decreases |file|
  {
    if |file| != 0 && |ts| < MAX_TODOS {
      var n := LineLength(file, LINE_ROOM);
      match LoadLine(file[..n])
      case Undefined =>
      case Skipped => LoadedAtMost50(ts, file[n..]);
      case Item(t) => LoadedAtMost50(ts + [t], file[n..]);
    }
  }

  /** A line that is no item adds nothing, and reading goes on behind its newline or 135th character. */
  lemma LoadSkips(ts: seq<Todo>, line: string, rest: string)
    requires |ts| < 50 && 0 < |line| <= 135 && line[0] != '['
    requires '\n' !in line[..|line| - 1] && (line[|line| - 1] == '\n' || |line| == 135)
    ensures LoadFrom(ts, line + rest) == LoadFrom(ts, rest)
  {
    LineLengthOfChunk(line, rest, 135);
    assert (line + rest)[..|line|] == line && (line + rest)[|line|..] == rest;
  }

  lemma LoadedItemSurvives(line: string)
    requires IsChunk(line, LINE_ROOM) && LoadLine(line).Item?
    ensures Survives(LoadLine(line).todo)
  {
    var text := LoadLine(line).todo.text;
    forall i | 0 <= i < |text|
      ensures text[i] != '\n'
    {
      assert text[i] == line[..|line| - 1][4 + i];
    }
  }

  /** Whatever the file holds, what is loaded from it would survive another round. */
  lemma {:induction false} LoadedSurvive(ts: seq<Todo>, file: string)
    requires AllSurvive(ts)
    ensures LoadFrom(ts, file).Some? ==> AllSurvive(LoadFrom(ts, file).value)
    decreases |file|
  {
    if |file| != 0 && |ts| < MAX_TODOS {
      var n := LineLength(file, LINE_ROOM);
      LineLengthShape(file, LINE_ROOM);
      match LoadLine(file[..n])
      case Undefined =>
      case Skipped => LoadedSurvive(ts, file[n..]);
      case Item(t) =>
        LoadedItemSurvives(file[..n]);
        LoadedSurvive(ts + [t], file[n..]);
    }
  }

  lemma SaveTextCons(t: Todo, ts: seq<Todo>)
    ensures SaveText([t] + ts) == SaveLine(t) + SaveText(ts)
  {
    assert SaveLines([t] + ts)[1..] == SaveLines(ts);
  }

  lemma LoadGoodHead(pre: seq<Todo>, t: Todo, rest: string)
    requires |pre| < MAX_TODOS && Survives(t)
    ensures LoadFrom(pre, SaveLine(t) + rest) == LoadFrom(pre + [t], rest)
  {
    GoodItemLoads(t, rest);
    SaveLineShape(t);
  }

  lemma LoadBadHead(pre: seq<Todo>, t: Todo, rest: string, ts: seq<Todo>)
    requires |pre| < MAX_TODOS && !Survives(t)
    ensures LoadFrom(pre, SaveLine(t) + rest) != Some(pre + ([t] + ts))
  {
    var s := SaveLine(t) + rest;
    SaveLineShape(t);
    BadItemShrinks(t, rest);
    var n := LineLength(s, LINE_ROOM);
    var got := LoadLine(s[..n]).todo;
    assert LoadFrom(pre, s) == LoadFrom(pre + [got], s[n..]);
    LoadKeepsPrefix(pre + [got], s[n..]);
    assert (pre + ([t] + ts))[|pre|] == t && (pre + [got])[|pre|] == got;
  }

  lemma AppendCons(pre: seq<Todo>, t: Todo, ts: seq<Todo>)
    ensures pre + [t] + ts == pre + ([t] + ts)
  {
  }

  lemma SurviveCons(t: Todo, ts: seq<Todo>)
    ensures AllSurvive([t] + ts) <==> Survives(t) && AllSurvive(ts)
  {
    assert ([t] + ts)[0] == t;
    assert forall i :: 0 <= i < |ts| ==> ([t] + ts)[i + 1] == ts[i];
  }

  lemma {:induction false} LoadAfterSave(pre: seq<Todo>, ts: seq<Todo>)
    requires |pre| + |ts| <= MAX_TODOS
    ensures LoadFrom(pre, SaveText(ts)) == Some(pre + ts) <==> AllSurvive(ts)
    decreases |ts|
  {
    if |ts| == 0 {
      assert pre + ts == pre;
    } else {
      var t, rest := ts[0], ts[1..];
      assert ts == [t] + rest;
      SaveTextCons(t, rest);
      SurviveCons(t, rest);
      if Survives(t) {
        LoadGoodHead(pre, t, SaveText(rest));
        AppendCons(pre, t, rest);
        LoadAfterSave(pre + [t], rest);
      } else {
        LoadBadHead(pre, t, SaveText(rest), rest);
      }
    }
  }

  /** Loading what was saved restores a list of at most 50 items exactly when each text is free of
      newlines and at most 126 characters long. */
  lemma SaveLoadIff(ts: seq<Todo>)
    requires |ts| <= 50
    ensures LoadFrom([], SaveText(ts)) == Some(ts) <==> AllSurvive(ts)
  {
    LoadAfterSave([], ts);
    assert [] + ts == ts;
  }

  // ---------- the program ----------

  class TodoStore {
    const todos: array<Todo>
    var todoCount: nat
    var file: string

    /** Every slot, also one behind the list that holds a text left over, would survive a save and
        load. */
    ghost predicate Valid()
      reads this, todos
    {
      todos.Length == MAX_TODOS && todoCount <= MAX_TODOS && AllSurvive(todos[..])
    }

    ghost function Items(): (items: seq<Todo>)
      requires Valid()
      reads this, todos
      ensures AllSurvive(items)
    {
      todos[..todoCount]
    }

    constructor (contents: string)
      ensures Valid() && Items() == [] && file == contents && fresh(todos)
    {
      todos := new Todo[MAX_TODOS](_ => Todo("", false));
      todoCount := 0;
      file := contents;
    }

    method StoreItem(t: Todo)
      requires Valid() && todoCount < MAX_TODOS && Survives(t)
      modifies todos, this`todoCount
      ensures Valid() && Items() == old(Items()) + [t]
    {
      ghost var items := Items();
      todos[todoCount] := t;
      todoCount := todoCount + 1;
      assert Items() == items + [t];
    }

    /** Takes one line of the file into the list; false where the program would cut a text before its
        start. */
    method LoadOne(line: string) returns (ok: bool)
      requires Valid() && todoCount < MAX_TODOS && IsChunk(line, LINE_ROOM)
      modifies todos, this`todoCount
      ensures Valid()
      ensures ok <==> !LoadLine(line).Undefined?
      ensures Items() == if LoadLine(line).Item? then old(Items()) + [LoadLine(line).todo] else old(Items())
    {
      ok := true;
      if line[0] == '[' {
        if |line| <= 4 {
          return false;
        }
        var t := line[4..];
        var copy := if |t| <= TEXT_ROOM then t else t[..TEXT_ROOM];
        LoadedItemSurvives(line);
        StoreItem(Todo(copy[..|copy| - 1], line[1] == 'X'));
      }
    }

    /** Reads the file behind what is in the list. */
    method LoadTodos() returns (ok: bool)
      requires Valid()
      modifies todos, this`todoCount
      ensures Valid()
      ensures ok <==> LoadFrom(old(Items()), file).Some?
      ensures ok ==> Items() == LoadFrom(old(Items()), file).value
    {
      ghost var goal := LoadFrom(Items(), file);
      var rest := file;
      while |rest| != 0 && todoCount < MAX_TODOS
        invariant Valid()
        invariant LoadFrom(Items(), rest) == goal
        decreases |rest|
      {
        var n := LineLength(rest, LINE_ROOM);
        LineLengthShape(rest, LINE_ROOM);
        ok := LoadOne(rest[..n]);
        if !ok {
          return;
        }
        rest := rest[n..];
      }
      ok := true;
    }

    method SaveTodos()
      requires Valid()
      modifies this`file
      ensures Valid() && file == SaveText(Items())
    {
      var text := "";
      for i := 0 to todoCount
        invariant text == Join(SaveLines(Items())[..i])
      {
        var line := "[" + (if todos[i].done then "X" else " ") + "] " + todos[i].text + "\n";
        ghost var ls := SaveLines(Items());
        assert ls[..i + 1] == ls[..i] + [line];
        JoinConcat(ls[..i], [line]);
        assert Join([line]) == line + Join([]);
        text := text + line;
      }
      assert SaveLines(Items())[..todoCount] == SaveLines(Items());
      file := text;
    }

    /** Adds what the user typed, cut at 127 characters, without its last character. At the end of the
        input nothing is typed, and the text left over in the slot is taken in its place; false where
        that text is empty and the program would cut it before its start. A full list is left as it
        is. */
    method Add(typed: string) returns (ok: bool)
      requires Valid()
      modifies todos, this`todoCount, this`file
      ensures Valid()
      ensures var line := if typed == "" && old(todoCount) < 50 then old(todos[..])[old(todoCount)].text
                          else typed[..LineLength(typed, 127)];
              && (ok <==> old(todoCount) == 50 || line != "")
              && Items() == if ok && old(todoCount) < 50
                            then old(Items()) + [Todo(line[..|line| - 1], false)] else old(Items())
      ensures file == if ok && old(todoCount) < 50 then SaveText(Items()) else old(file)
    {
      ok := true;
      if todoCount < MAX_TODOS {
        var line := todos[todoCount].text;
        if |typed| != 0 {
          line := typed[..LineLength(typed, TEXT_ROOM)];
          LineLengthShape(typed, TEXT_ROOM);
        } else if |line| == 0 {
          return false;
        }
        StoreItem(Todo(line[..|line| - 1], false));
        SaveTodos();
      }
    }

    method MarkDone(number: int)
      requires Valid()
      modifies todos, this`file
      ensures Valid()
      ensures file == if 1 <= number <= old(todoCount) then SaveText(Items()) else old(file)
      ensures var i := number - 1;
              Items() == if 0 <= i < old(todoCount)
                         then old(Items())[i := old(Items())[i].(done := true)] else old(Items())
    {
      var i := number - 1;
      if i >= 0 && i < todoCount {
        ghost var items := Items();
        todos[i] := todos[i].(done := true);
        assert Items() == items[i := todos[i]];
        SaveTodos();
      }
    }

    method Remove(number: int)
      requires Valid()
      modifies todos, this`todoCount, this`file
      ensures Valid()
      ensures file == if 1 <= number <= old(todoCount) then SaveText(Items()) else old(file)
      ensures var i := number - 1;
              Items() == if 0 <= i < old(todoCount)
                         then old(Items())[..i] + old(Items())[i + 1..] else old(Items())
    {
      var idx := number - 1;
      if idx >= 0 && idx < todoCount {
        ShiftDown(idx);
        SaveTodos();
      }
    }

    /** Copies every item behind idx one place down and forgets the last. */
    method ShiftDown(idx: nat)
      requires Valid() && idx < todoCount
      modifies todos, this`todoCount
      ensures Valid() && Items() == old(Items())[..idx] + old(Items())[idx + 1..]
    {
      ghost var items := Items();
      for i := idx to todoCount - 1
        invariant todoCount == |items|
        invariant forall x :: 0 <= x < MAX_TODOS ==> Survives(todos[x])
        invariant forall x :: 0 <= x < idx || i <= x < |items| ==> todos[x] == items[x]
        invariant forall x :: idx <= x < i ==> todos[x] == items[x + 1]
      {
        todos[i] := todos[i + 1];
      }
      todoCount := todoCount - 1;
      assert Items() == items[..idx] + items[idx + 1..];
    }
  }
}
