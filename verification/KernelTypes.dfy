/** The process control block, the constants, and the classification of task names. */
module KernelTypes {

  datatype Option<+T> = None | Some(value: T)

  const AGING_INTERVAL := 5
  const PROMOTE_THRESHOLD := 1

  /** The texts a PCB's state field ever holds; NoState is the constructor's empty text. */
  datatype RunState = NoState | Ready | Running | Blocked | Minimized {

    function Text(): string {
      match this
      case NoState => ""
      case Ready => "READY"
      case Running => "RUNNING"
      case Blocked => "BLOCKED"
      case Minimized => "MINIMIZED"
    }

    /** The character at position i of the state field; the terminator past the text. */
    function Letter(i: nat): char {
      if i < |Text()| then Text()[i] else '\0'
    }
  }

  /** The kernel tests states by their first one or two letters only. */
  lemma LettersDecide(s: RunState)
    ensures s.Letter(0) == 'R' <==> s.Ready? || s.Running?
    ensures s.Letter(0) == 'R' && s.Letter(1) == 'E' <==> s.Ready?
    ensures s.Letter(0) == 'R' && s.Letter(1) == 'U' <==> s.Running?
    ensures s.Letter(0) == 'B' <==> s.Blocked?
  {
    match s
    case NoState => assert s.Letter(0) == '\0';
    case Ready => assert s.Letter(0) == 'R' && s.Letter(1) == 'E';
    case Running => assert s.Letter(0) == 'R' && s.Letter(1) == 'U';
    case Blocked => assert s.Letter(0) == 'B';
    case Minimized => assert s.Letter(0) == 'M';
  }

  /** QUEUE_SYSTEM, QUEUE_INTERACTIVE and QUEUE_BACKGROUND. */
  datatype Level = System | Interactive | Background {

    function Rank(): nat {
      match this case System => 0 case Interactive => 1 case Background => 2
    }

    /** The priority a request of this level is created with. */
    function DefaultPriority(): int {
      match this case System => 0 case Interactive => 3 case Background => 6
    }
  }

  datatype Process = Process(
    pid: int,
    name: string,
    state: RunState,
    priority: int,
    level: Level,
    ram: int,
    hdd: int,
    arriveTime: int,
    waitTime: int,
    turnaround: int,
    core: int)

  const INTERACTIVE_TASKS: seq<string> := [
    "Calculator", "Notepad", "Calendar", "Minigame", "Dice Roller",
    "Task Manager", "Mini Terminal", "To-Do List", "Resource Dashboard",
    "Log Viewer", "Instruction Guide"]

  function QueueLevel(taskName: string): Level {
    if taskName == "Clock" || taskName == "Log Daemon" then System
    else if taskName in INTERACTIVE_TASKS then Interactive
    else Background
  }

  predicate IsSystemTask(n: string) {
    n == "Clock" || n == "Log Daemon"
  }

  predicate IsInteractiveTask(n: string) {
    || n == "Calculator" || n == "Notepad" || n == "Calendar" || n == "Minigame" || n == "Dice Roller"
    || n == "Task Manager" || n == "Mini Terminal" || n == "To-Do List" || n == "Resource Dashboard"
    || n == "Log Viewer" || n == "Instruction Guide"
  }

  /** Which task belongs to which level: two system tasks, eleven interactive ones, all others are
      background tasks. */
  lemma TaskLevels(n: string)
    ensures QueueLevel(n).System? <==> IsSystemTask(n)
    ensures QueueLevel(n).Interactive? <==> IsInteractiveTask(n)
    ensures QueueLevel(n).Background? <==> !IsSystemTask(n) && !IsInteractiveTask(n)
  {
    ListedTasks(n);
  }

  lemma ListedTasks(n: string)
    ensures n in INTERACTIVE_TASKS <==> IsInteractiveTask(n)
  {
    if IsInteractiveTask(n) {
      var i := if n == "Calculator" then 0 else if n == "Notepad" then 1 else if n == "Calendar" then 2
               else if n == "Minigame" then 3 else if n == "Dice Roller" then 4 else if n == "Task Manager" then 5
               else if n == "Mini Terminal" then 6 else if n == "To-Do List" then 7
               else if n == "Resource Dashboard" then 8 else if n == "Log Viewer" then 9 else 10;
      assert INTERACTIVE_TASKS[i] == n;
    }
  }
}
