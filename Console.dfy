/** The older operator terminal (terminal.h): each console line is split on
    single spaces, its first token is looked up in a fixed table of command
    words, and push, delete, edit and display act on the bare token lists the
    terminal shares, by pointer, with the render loop, or on the canvas's two
    output toggles.

    std::stoi is not part of this model: it is an uninterpreted function
    held by the terminal, giving an int or one of stoi's two exceptions. The
    mutex around the shared list is left out: each command is one atomic step. */
module Console {
  import opened CppInt
  import opened CppString
  import Display

  /** The terminal's Command enumeration. */
  datatype Command =
    | Push | Delete | Display | Help | Exit | Empty | Edit
    | True | False | Monitor | Vive | Invalid | PrintInstructions

  /** The table the constructor fills: every command word and its command. */
  const COMMAND_TABLE: map<string, Command> := map[
    "push" := Push, "delete" := Delete, "display" := Display, "help" := Help,
    "exit" := Exit, "" := Empty, "edit" := Edit, "true" := True, "false" := False,
    "monitor" := Monitor, "vive" := Vive, "print_instructions" := PrintInstructions]

  /** The word an operator types for each command (Invalid has none). */
  function Keyword(c: Command): string
    requires c != Invalid
  {
    match c
    case Push => "push"
    case Delete => "delete"
    case Display => "display"
    case Help => "help"
    case Exit => "exit"
    case Empty => ""
    case Edit => "edit"
    case True => "true"
    case False => "false"
    case Monitor => "monitor"
    case Vive => "vive"
    case PrintInstructions => "print_instructions"
  }

  /** getCommand: the table entry for the word, or Invalid when there is none. */
  function GetCommand(input: string): (c: Command)
    ensures c != Invalid ==> Keyword(c) == input
    ensures c == Invalid <==> forall k :: k != Invalid ==> Keyword(k) != input
  {
    if input in COMMAND_TABLE then COMMAND_TABLE[input] else Invalid
  }

  /** Every command word is recognised as its own command; the empty line is Empty. */
  lemma KeywordsRecognised(c: Command)
    requires c != Invalid
    ensures GetCommand(Keyword(c)) == c
  {
    var k := GetCommand(Keyword(c));
    assert k != Invalid;
    match c
    case Push =>
    case Delete =>
    case Display =>
    case Help =>
    case Exit =>
    case Empty =>
    case Edit =>
    case True =>
    case False =>
    case Monitor =>
    case Vive =>
    case PrintInstructions =>
  }

  /** std::stoi's outcome: a 32-bit value, or one of the two exceptions it throws. */
  datatype StoiResult = Parsed(value: int32) | InvalidArgument | OutOfRange

  /** A std::vector never holds more than PTRDIFF_MAX elements. */
  const VECTOR_LIMIT: int := 0x8000_0000_0000_0000

  /** The initial value of the size_t indices: std::size_t i = -1. */
  const NO_INDEX: int := SIZE_T_RANGE - 1

  /** A parsed negative int, stored in a size_t, is far above any vector size. */
  lemma NegativeIndexWraps(v: int32, size: nat)
    requires v < 0 && size < VECTOR_LIMIT
    ensures ToSizeT(v as int) > size && NO_INDEX > size
  {
  }

  /** push's index (a size_t) and whether command[1] supplied it: a parsed
      value, the initial -1 when stoi overflows, the list's end when token 1 is
      not a number (it then belongs to the instruction). */
  function PushIndex(size: nat, token: string, stoi: string -> StoiResult): (int, bool)
  {
    match stoi(token)
    case Parsed(v) => (ToSizeT(v as int), true)
    case OutOfRange => (NO_INDEX, false)
    case InvalidArgument => (size, false)
  }

  /** delete's and edit's index: the parsed value as a size_t, else the initial -1. */
  function ListIndex(token: string, stoi: string -> StoiResult): int
  {
    match stoi(token)
    case Parsed(v) => ToSizeT(v as int)
    case _ => NO_INDEX
  }

  /** pushInstruction on the shared list (isValidInstruction accepts everything). */
  function PushEffect(list: seq<seq<string>>, command: seq<string>, stoi: string -> StoiResult): seq<seq<string>>
  {
    if |command| > 1 then
      var (p, given) := PushIndex(|list|, command[1], stoi);
      if p <= |list| then list[..p] + [command[(if given then 2 else 1)..]] + list[p..] else list
    else list
  }

  /** deleteInstruction on the shared list. */
  function DeleteEffect(list: seq<seq<string>>, command: seq<string>, stoi: string -> StoiResult): seq<seq<string>>
  {
    if |command| == 2 then
      var d := ListIndex(command[1], stoi);
      if d < |list| then list[..d] + list[d + 1..] else list
    else list
  }

  /** editInstruction on the shared list. */
  function EditEffect(list: seq<seq<string>>, command: seq<string>, stoi: string -> StoiResult): seq<seq<string>>
  {
    if |command| > 2 then
      var e := ListIndex(command[1], stoi);
      if e < |list| then list[e := command[2..]] else list
    else list
  }

  /** push with fewer than two tokens changes nothing; a non-numeric token 1
      appends everything after `push`; a parsed index p with 0 <= p <= length
      inserts everything after `push p` at p, the rest keeping their order;
      a negative, too large or overflowing index changes nothing. */
  lemma PushCases(list: seq<seq<string>>, command: seq<string>, stoi: string -> StoiResult)
    requires |list| < VECTOR_LIMIT
    ensures |command| < 2 ==> PushEffect(list, command, stoi) == list
    ensures |command| >= 2 && stoi(command[1]) == InvalidArgument ==>
      PushEffect(list, command, stoi) == list + [command[1..]]
    ensures |command| >= 2 && stoi(command[1]).Parsed? && 0 <= stoi(command[1]).value as int <= |list| ==>
      var p := stoi(command[1]).value as int; var r := PushEffect(list, command, stoi);
      && |r| == |list| + 1 && r[p] == command[2..]
      && (forall k :: 0 <= k < p ==> r[k] == list[k])
      && (forall k :: p <= k < |list| ==> r[k + 1] == list[k])
    ensures |command| >= 2 && stoi(command[1]).Parsed? && !(0 <= stoi(command[1]).value as int <= |list|) ==>
      PushEffect(list, command, stoi) == list
    ensures |command| >= 2 && stoi(command[1]) == OutOfRange ==> PushEffect(list, command, stoi) == list
  {
    if |command| >= 2 && stoi(command[1]).Parsed? && stoi(command[1]).value < 0 {
      NegativeIndexWraps(stoi(command[1]).value, |list|);
    }
  }

  /** delete needs exactly two tokens and a parsed index below the length; it
      then removes exactly that element, and otherwise changes nothing. */
  lemma DeleteCases(list: seq<seq<string>>, command: seq<string>, stoi: string -> StoiResult)
    requires |list| < VECTOR_LIMIT
    ensures var r := DeleteEffect(list, command, stoi);
      if |command| == 2 && stoi(command[1]).Parsed? && 0 <= stoi(command[1]).value as int < |list| then
        var d := stoi(command[1]).value as int;
        && |r| == |list| - 1
        && (forall k :: 0 <= k < d ==> r[k] == list[k])
        && (forall k :: d <= k < |r| ==> r[k] == list[k + 1])
      else r == list
  {
    if |command| == 2 && stoi(command[1]).Parsed? && stoi(command[1]).value < 0 {
      NegativeIndexWraps(stoi(command[1]).value, |list|);
    }
  }

  /** edit needs more than two tokens and a parsed index below the length; it
      then replaces only that element, with everything after `edit INDEX`, and
      otherwise changes nothing. */
  lemma EditCases(list: seq<seq<string>>, command: seq<string>, stoi: string -> StoiResult)
    requires |list| < VECTOR_LIMIT
    ensures var r := EditEffect(list, command, stoi);
      if |command| > 2 && stoi(command[1]).Parsed? && 0 <= stoi(command[1]).value as int < |list| then
        var e := stoi(command[1]).value as int;
        && |r| == |list| && r[e] == command[2..]
        && (forall k :: 0 <= k < |list| && k != e ==> r[k] == list[k])
      else r == list
  {
    if |command| > 2 && stoi(command[1]).Parsed? && stoi(command[1]).value < 0 {
      NegativeIndexWraps(stoi(command[1]).value, |list|);
    }
  }

  /** `push p ...` at a valid index p followed by `delete p` restores the list. */
  lemma PushThenDelete(list: seq<seq<string>>, push: seq<string>, del: seq<string>, stoi: string -> StoiResult)
    requires |list| < VECTOR_LIMIT && |push| >= 2 && |del| == 2
    requires stoi(push[1]).Parsed? && 0 <= stoi(push[1]).value as int <= |list|
    requires stoi(del[1]) == stoi(push[1])
    ensures DeleteEffect(PushEffect(list, push, stoi), del, stoi) == list
  {
    var p := stoi(push[1]).value as int;
    var r := PushEffect(list, push, stoi);
    assert r == list[..p] + [push[2..]] + list[p..];
    assert r[..p] + r[p + 1..] == list[..p] + list[p..];
    assert list[..p] + list[p..] == list;
  }

  /** setDisplayOutput on the canvas's toggles and framebuffer logs. */
  function DisplayEffect(s: Display.Screens, command: seq<string>): Display.Screens
  {
    if |command| == 3 && GetCommand(command[2]) in {True, False} then
      var output := GetCommand(command[2]) == True;
      match GetCommand(command[1])
      case Monitor => Display.SetOutputSpec(s, output, s.vive)
      case Vive => Display.SetOutputSpec(s, s.monitor, output)
      case _ => s
    else s
  }

  /** `display monitor|vive true|false` sets exactly the named toggle to the
      named value and keeps the other; any other shape changes nothing. */
  lemma DisplayCases(s: Display.Screens, command: seq<string>)
    ensures var r := DisplayEffect(s, command);
      if |command| == 3 && command[2] in {"true", "false"} && command[1] in {"monitor", "vive"} then
        && (command[1] == "monitor" ==> r.monitor == (command[2] == "true") && r.vive == s.vive)
        && (command[1] == "vive" ==> r.vive == (command[2] == "true") && r.monitor == s.monitor)
      else r == s
  {
  }

  /** What one console line can change: the shared list, the run flag, the canvas. */
  datatype Session = Session(list: seq<seq<string>>, running: bool, screens: Display.Screens)

  /** One pass of terminalThread's loop body on a line already read. */
  function LineEffect(s: Session, input: string, stoi: string -> StoiResult): Session
  {
    var command := Split(input, " ");
    match GetCommand(command[0])
    case Push => s.(list := PushEffect(s.list, command, stoi))
    case Delete => s.(list := DeleteEffect(s.list, command, stoi))
    case Display => s.(screens := DisplayEffect(s.screens, command))
    case Exit => s.(running := false)
    case Edit => s.(list := EditEffect(s.list, command, stoi))
    case _ => s
  }

  /** terminalThread over a sequence of lines: stops once the run flag is cleared. */
  function RunEffect(s: Session, lines: seq<string>, stoi: string -> StoiResult): Session
    decreases |lines|
  {
    if !s.running || lines == [] then s
    else RunEffect(LineEffect(s, lines[0], stoi), lines[1..], stoi)
  }

  /** What one line changes, by the command its first token names. */
  lemma LineEffectByCommand(s: Session, input: string, stoi: string -> StoiResult)
    ensures var r := LineEffect(s, input, stoi); var c := GetCommand(Split(input, " ")[0]);
      && (c !in {Push, Delete, Edit} ==> r.list == s.list)
      && (c != Display ==> r.screens == s.screens)
      && r.running == (s.running && c != Exit)
  {
  }

  /** The words that select exit, display, and the three list commands. */
  lemma CommandWords(w: string)
    ensures GetCommand(w) == Exit <==> w == "exit"
    ensures GetCommand(w) == Display <==> w == "display"
    ensures GetCommand(w) in {Push, Delete, Edit} ==> w in {"push", "delete", "edit"}
  {
    KeywordsRecognised(Exit);
    KeywordsRecognised(Display);
    var c := GetCommand(w);
    if c != Invalid {
      assert w == Keyword(c);
    }
  }

  /** Only push, delete and edit lines touch the list, only display lines the
      canvas, only exit the run flag (which it clears). */
  lemma LineEffectFrame(s: Session, input: string, stoi: string -> StoiResult)
    ensures var r := LineEffect(s, input, stoi); var w := Split(input, " ")[0];
      && (w !in {"push", "delete", "edit"} ==> r.list == s.list)
      && (w != "display" ==> r.screens == s.screens)
      && r.running == (s.running && w != "exit")
  {
    LineEffectByCommand(s, input, stoi);
    CommandWords(Split(input, " ")[0]);
  }

  /** A line clears the run flag exactly when its first token is exit. */
  lemma LineEffectRunning(s: Session, input: string, stoi: string -> StoiResult)
    ensures LineEffect(s, input, stoi).running == (s.running && Split(input, " ")[0] != "exit")
  {
    LineEffectByCommand(s, input, stoi);
    CommandWords(Split(input, " ")[0]);
  }

  /** Lines after an exit line are never acted on. */
  lemma {:induction false} RunStopsAtExit(s: Session, lines: seq<string>, k: nat, stoi: string -> StoiResult)
    requires k < |lines| && Split(lines[k], " ")[0] == "exit"
    ensures !RunEffect(s, lines, stoi).running
    ensures RunEffect(s, lines, stoi) == RunEffect(s, lines[..k + 1], stoi)
    decreases k
  {
    if s.running {
      var s1 := LineEffect(s, lines[0], stoi);
      LineEffectRunning(s, lines[0], stoi);
      RunEffectCons(s, lines, stoi);
      RunEffectCons(s, lines[..k + 1], stoi);
      assert lines[..k + 1][0] == lines[0];
      if k == 0 {
        assert lines[..1][1..] == [];
      } else {
        assert lines[1..][k - 1] == lines[k];
        RunStopsAtExit(s1, lines[1..], k - 1, stoi);
        assert lines[..k + 1][1..] == lines[1..][..k];
      }
    }
  }

  /** A running session handles the first line, then the rest. */
  lemma RunEffectCons(s: Session, lines: seq<string>, stoi: string -> StoiResult)
    requires s.running && lines != []
    ensures RunEffect(s, lines, stoi) == RunEffect(LineEffect(s, lines[0], stoi), lines[1..], stoi)
  {
  }

  /** The vector of token lists the terminal and the render loop share. */
  class SharedList {
    var items: seq<seq<string>>

    constructor (items: seq<seq<string>>)
      ensures this.items == items
    {
      this.items := items;
    }
  }

  class Terminal {
    const canvas: Display.Canvas
    const instructionList: SharedList
    /** The run flag shared with the render loop; exit clears it. */
    var running: bool
    const stoi: string -> StoiResult

    /** The constructor (which fills the command table) together with the
        pointers terminalThread is handed. */
    constructor (c: Display.Canvas, il: SharedList, run: bool, stoi: string -> StoiResult)
      ensures canvas == c && instructionList == il && running == run && this.stoi == stoi
    {
      canvas := c;
      instructionList := il;
      running := run;
      this.stoi := stoi;
    }

    function State(): Session
      reads this, instructionList, canvas
    {
      Session(instructionList.items, running, canvas.State())
    }

    /** splitString: cut off the piece before each delimiter until none is left,
        then keep what remains as the last piece. */
    method SplitString(input: string, delim: string) returns (result: seq<string>)
      requires |delim| > 0
      ensures result == Split(input, delim)
      ensures |result| >= 1 && Join(result, delim) == input
      ensures forall k :: 0 <= k < |result| ==> !Contains(result[k], delim)
    {
      result := [];
      var rest := input;
      var delimPos := Find(rest, delim);
      while delimPos != -1
        invariant result + Split(rest, delim) == Split(input, delim)
        invariant delimPos == Find(rest, delim)
        decreases |rest|
      {
        SplitUnfold(rest, delim);
        result := result + [rest[..delimPos]];
        rest := rest[delimPos + |delim|..];
        delimPos := Find(rest, delim);
      }
      result := result + [rest];
      SplitJoin(input, delim);
      SplitPiecesClean(input, delim);
    }

    method PushInstruction(command: seq<string>)
      modifies instructionList
      ensures instructionList.items == PushEffect(old(instructionList.items), command, stoi)
    {
      if |command| > 1 {
        var pushIndex := NO_INDEX;
        var indexGiven := false;
        match stoi(command[1]) {
          case Parsed(v) =>
            pushIndex := ToSizeT(v as int);
            indexGiven := true;
          case OutOfRange =>
          case InvalidArgument =>
            pushIndex := |instructionList.items|;
        }
        // 0 <= pushIndex holds for every size_t
        if pushIndex <= |instructionList.items| {
          var instruction := command[(if indexGiven then 2 else 1)..];
          instructionList.items := instructionList.items[..pushIndex] + [instruction] + instructionList.items[pushIndex..];
        } else {
          // "Index out of range"
        }
      } else {
        // "Incorrect number of arguments"
      }
    }

    method DeleteInstruction(command: seq<string>)
      modifies instructionList
      ensures instructionList.items == DeleteEffect(old(instructionList.items), command, stoi)
    {
      if |command| == 2 {
        var delIndex := NO_INDEX;
        match stoi(command[1]) {
          case Parsed(v) => delIndex := ToSizeT(v as int);
          case OutOfRange =>
          case InvalidArgument => // "Invalid index"
        }
        if delIndex < |instructionList.items| {
          instructionList.items := instructionList.items[..delIndex] + instructionList.items[delIndex + 1..];
        } else {
          // "Index out of range"
        }
      } else {
        // "Incorrect number of arguments"
      }
    }

    method EditInstruction(command: seq<string>)
      modifies instructionList
      ensures instructionList.items == EditEffect(old(instructionList.items), command, stoi)
    {
      if |command| > 2 {
        var editIndex := NO_INDEX;
        match stoi(command[1]) {
          case Parsed(v) => editIndex := ToSizeT(v as int);
          case OutOfRange =>
          case InvalidArgument => // "Invalid index"
        }
        if editIndex < |instructionList.items| {
          var instruction := command[2..];
          instructionList.items := instructionList.items[editIndex := instruction];
        } else {
          // "Index out of range"
        }
      } else {
        // "Incorrect number of arguments"
      }
    }

    method SetDisplayOutput(command: seq<string>)
      modifies canvas
      ensures canvas.State() == DisplayEffect(old(canvas.State()), command)
    {
      if |command| == 3 {
        var output := false;
        var valid := true;
        match GetCommand(command[2]) {
          case True => output := true;
          case False => output := false;
          case _ => valid := false; // "Command not recognized"
        }
        if valid {
          match GetCommand(command[1]) {
            case Monitor => canvas.SetMonitorOutput(output);
            case Vive => canvas.SetViveOutput(output);
            case _ => // "Command not recognized"
          }
        }
      } else {
        // "Incorrect number of arguments"
      }
    }

    /** The body of terminalThread's loop for one line the operator typed. */
    method HandleLine(input: string)
      requires instructionList != canvas as object
      modifies this, instructionList, canvas
      ensures State() == LineEffect(old(State()), input, stoi)
    {
      var command := SplitString(input, " ");
      match GetCommand(command[0]) {
        case Push => PushInstruction(command);
        case Delete => DeleteInstruction(command);
        case Display => SetDisplayOutput(command);
        case Help => // prints the help text
        case Exit => running := false;
        case Empty =>
        case Edit => EditInstruction(command);
        case PrintInstructions => // prints the list
        case Invalid => // "Command not found"
        case _ =>
      }
    }

    /** terminalThread, with the operator's lines given in advance: act on each
        line while the run flag stays set. */
    method TerminalThread(lines: seq<string>)
      requires instructionList != canvas as object
      modifies this, instructionList, canvas
      ensures State() == RunEffect(old(State()), lines, stoi)
    {
      var i := 0;
      while running && i < |lines|
        invariant 0 <= i <= |lines|
        invariant RunEffect(State(), lines[i..], stoi) == RunEffect(old(State()), lines, stoi)
        decreases |lines| - i
      {
        assert lines[i..][1..] == lines[i + 1..];
        HandleLine(lines[i]);
        i := i + 1;
      }
    }
  }
}
