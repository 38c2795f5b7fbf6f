/**
 * The command processor of Command_processing/CommandProcessing.cpp: the
 * per-state command validator with its effect messages, the next-state
 * table, saving commands, and the adapter that reads commands from a file.
 *
 * The effect text is an `Effect` value naming the message's parts rather
 * than the message itself. Console input and the file system are
 * parameters.
 */
module CommandProcessing {
  import opened Wrappers
  import opened Text
  import opened Logging

  /** `enum class GameState` (Command_processing/CommandProcessing.h:15-23). */
  datatype GameState = Start | MapLoaded | MapValidated | PlayersAdded | AssignReinforcement | Win | Exit

  /**
   * The effect `validate` stores on a command: the success message (naming
   * the argument, if any, and the state it announces) or one of the error
   * messages. `NoEffect` is the empty effect of a new command.
   */
  datatype Effect =
    | NoEffect
    | Succeeded(argument: string, announced: GameState)
    | MissingArgument(command: string)
    | InvalidInState(command: string, state: GameState)

  /** The command name: the first word of the lower-cased command. */
  function CommandName(commandString: string): string
  {
    FirstWord(Lower(commandString))
  }

  /** The argument: the second word of the lower-cased command. */
  function Argument(commandString: string): string
  {
    SecondWord(Lower(commandString))
  }

  /** The command names each state accepts. */
  function Accepted(s: GameState): set<string>
  {
    match s
    case Start => {"loadmap", "quit"}
    case MapLoaded => {"validatemap", "loadmap", "quit"}
    case MapValidated => {"addplayer", "quit"}
    case PlayersAdded => {"addplayer", "gamestart", "quit"}
    case AssignReinforcement => {"replay", "quit"}
    case Win => {"replay", "quit"}
    case Exit => {}
  }

  /** Commands that must be followed by an argument. */
  predicate NeedsArgument(name: string)
  {
    name == "loadmap" || name == "addplayer"
  }

  /** The state a success message of `name` announces. */
  function Announced(name: string, s: GameState): GameState
  {
    if name == "loadmap" then MapLoaded
    else if name == "validatemap" then MapValidated
    else if name == "addplayer" then PlayersAdded
    else if name == "gamestart" then AssignReinforcement
    else if name == "replay" then Start
    else if name == "quit" then Exit
    else s
  }

  /** A success with an optional argument, or the missing-argument error. */
  function WithArgument(name: string, argument: string, announced: GameState): Effect
  {
    if argument == "" then MissingArgument(name) else Succeeded(argument, announced)
  }

  /**
   * The decision of `CommandProcessor::validate` for a command name and
   * the word after it in state `s` (Command_processing/CommandProcessing.cpp:159-276).
   * The command is accepted exactly when its name is one the state accepts
   * and, for `loadmap` and `addplayer`, an argument follows; `loadmap` or
   * `addplayer` alone get the missing-argument error, everything else the
   * wrong-state error.
   */
  function DecideFor(name: string, argument: string, s: GameState): (e: Effect)
    ensures e != NoEffect
    ensures e.Succeeded? <==> name in Accepted(s) && (NeedsArgument(name) ==> argument != "")
    ensures e.MissingArgument? <==> name in Accepted(s) && NeedsArgument(name) && argument == ""
    ensures e.MissingArgument? ==> e.command == name
    ensures e.InvalidInState? <==> name !in Accepted(s)
    ensures e.InvalidInState? ==> e == InvalidInState(name, s)
    ensures e.Succeeded? ==> e.announced == Announced(name, s)
    ensures e.Succeeded? && NeedsArgument(name) ==> e.argument == argument
  {
    match s
    case Start =>
      if name == "loadmap" then WithArgument(name, argument, MapLoaded)
      else if name == "quit" then Succeeded("", Exit)
      else InvalidInState(name, s)
    case MapLoaded =>
      if name == "validatemap" then Succeeded("", MapValidated)
      else if name == "loadmap" then WithArgument(name, argument, MapLoaded)
      else if name == "quit" then Succeeded("", Exit)
      else InvalidInState(name, s)
    case MapValidated =>
      if name == "addplayer" then WithArgument(name, argument, PlayersAdded)
      else if name == "quit" then Succeeded("", Exit)
      else InvalidInState(name, s)
    case PlayersAdded =>
      if name == "addplayer" then WithArgument(name, argument, PlayersAdded)
      else if name == "gamestart" then Succeeded("", AssignReinforcement)
      else if name == "quit" then Succeeded("", Exit)
      else InvalidInState(name, s)
    case AssignReinforcement =>
      if name == "replay" then Succeeded("", Start)
      else if name == "quit" then Succeeded("", Exit)
      else InvalidInState(name, s)
    case Win =>
      if name == "replay" then Succeeded("", Start)
      else if name == "quit" then Succeeded("", Exit)
      else InvalidInState(name, s)
    case Exit =>
      InvalidInState(name, s)
  }

  /**
   * The effect `CommandProcessor::validate` stores for a non-null command
   * (Command_processing/CommandProcessing.cpp:146-157): the decision for the
   * first two words of the lower-cased command.
   */
  function Decide(commandString: string, s: GameState): Effect
  {
    DecideFor(CommandName(commandString), Argument(commandString), s)
  }

  /**
   * `CommandProcessor::getNextState`'s table for a command name
   * (Command_processing/CommandProcessing.cpp:300-337): an unrecognised name
   * keeps the state, and EXIT is never left.
   */
  function NextStateFor(name: string, s: GameState): (r: GameState)
    ensures s == Exit ==> r == Exit
    ensures name !in Accepted(s) ==> r == s
    ensures name in Accepted(s) ==> r == Announced(name, s)
  {
    match s
    case Start =>
      if name == "loadmap" then MapLoaded
      else if name == "quit" then Exit
      else s
    case MapLoaded =>
      if name == "validatemap" then MapValidated
      else if name == "loadmap" then MapLoaded
      else if name == "quit" then Exit
      else s
    case MapValidated =>
      if name == "addplayer" then PlayersAdded
      else if name == "quit" then Exit
      else s
    case PlayersAdded =>
      if name == "addplayer" then PlayersAdded
      else if name == "gamestart" then AssignReinforcement
      else if name == "quit" then Exit
      else s
    case AssignReinforcement =>
      if name == "replay" then Start
      else if name == "quit" then Exit
      else s
    case Win =>
      if name == "replay" then Start
      else if name == "quit" then Exit
      else s
    case Exit =>
      Exit
  }

  /** `CommandProcessor::getNextState` for a non-null command (Command_processing/CommandProcessing.cpp:292-298). */
  function NextState(commandString: string, s: GameState): GameState
  {
    NextStateFor(CommandName(commandString), s)
  }

  /**
   * A command `validate` accepts moves to the state its success message
   * announces: the two switches agree.
   */
  lemma AcceptedMovesToAnnounced(commandString: string, s: GameState)
    requires Decide(commandString, s).Succeeded?
    ensures NextState(commandString, s) == Decide(commandString, s).announced
    ensures s != Exit
  {
    NameMovesToAnnounced(CommandName(commandString), Argument(commandString), s);
  }

  /** `AcceptedMovesToAnnounced` for a command already split into its name and argument. */
  lemma NameMovesToAnnounced(name: string, argument: string, s: GameState)
    requires DecideFor(name, argument, s).Succeeded?
    ensures NextStateFor(name, s) == DecideFor(name, argument, s).announced
    ensures s != Exit
  {
    assert name in Accepted(s);
  }

  /** The name of a command that starts with a lower-case word. */
  lemma CommandNameOfWord(w: string, rest: string)
    requires w != [] && forall i :: 0 <= i < |w| ==> 'a' <= w[i] <= 'z'
    requires rest == [] || IsStreamSpace(rest[0])
    ensures CommandName(w + rest) == w
  {
    LowerOfLowerWord(w, rest);
    FirstWordOfWordThenSpace(w, Lower(rest));
  }

  /** Lower-casing a lower-case word, a space and a lower-case word leaves them as they are. */
  lemma LowerOfWords(w: string, v: string, rest: string)
    requires forall i :: 0 <= i < |w| ==> 'a' <= w[i] <= 'z'
    requires forall i :: 0 <= i < |v| ==> 'a' <= v[i] <= 'z'
    ensures Lower(w + " " + v + rest) == w + " " + v + Lower(rest)
  {
    var s := w + " " + v + rest;
    var r := w + " " + v + Lower(rest);
    forall i | 0 <= i < |s|
      ensures Lower(s)[i] == r[i]
    {
      if i < |w| {
        assert s[i] == w[i] && r[i] == w[i];
      } else if i == |w| {
        assert s[i] == ' ' && r[i] == ' ';
      } else if i < |w| + 1 + |v| {
        assert s[i] == v[i - |w| - 1] && r[i] == v[i - |w| - 1];
      } else {
        assert s[i] == rest[i - |w| - 1 - |v|] && r[i] == Lower(rest)[i - |w| - 1 - |v|];
      }
    }
  }

  /** `>>` on a word followed by whitespace or the end reads the word and leaves what follows. */
  lemma NextWordOf(w: string, rest: string)
    requires w != [] && forall i :: 0 <= i < |w| ==> !IsStreamSpace(w[i])
    requires rest == [] || IsStreamSpace(rest[0])
    ensures NextWord(w + rest) == (w, rest)
  {
    assert SkipSpaces(w + rest) == w + rest;
    WordPrefixOf(w, rest);
    assert (w + rest)[|w|..] == rest;
  }

  /** `>>` skips a leading space. */
  lemma NextWordSkipsSpace(s: string)
    ensures NextWord(" " + s) == NextWord(s)
  {
    assert (" " + s)[1..] == s;
  }

  /** The second word read with `>>` from a word, a space and a word is that word. */
  lemma SecondWordOfWords(w: string, v: string, rest: string)
    requires w != [] && forall i :: 0 <= i < |w| ==> !IsStreamSpace(w[i])
    requires v != [] && forall i :: 0 <= i < |v| ==> !IsStreamSpace(v[i])
    requires rest == [] || IsStreamSpace(rest[0])
    ensures SecondWord(w + " " + v + rest) == v
  {
    var tail := " " + v + rest;
    WordsRegroup(w, v, rest);
    NextWordOf(w, tail);
    assert tail == " " + (v + rest);
    NextWordSkipsSpace(v + rest);
    NextWordOf(v, rest);
  }

  /**
   * A command made of a lower-case name, one space and a lower-case word
   * has that name and that word as its argument, whatever whitespace-led
   * text follows.
   */
  lemma ArgumentOfWords(w: string, v: string, rest: string)
    requires w != [] && forall i :: 0 <= i < |w| ==> 'a' <= w[i] <= 'z'
    requires v != [] && forall i :: 0 <= i < |v| ==> 'a' <= v[i] <= 'z'
    requires rest == [] || IsStreamSpace(rest[0])
    ensures CommandName(w + " " + v + rest) == w
    ensures Argument(w + " " + v + rest) == v
  {
    var low := w + " " + v + Lower(rest);
    LowerOfWords(w, v, rest);
    assert Lower(rest) == [] || IsStreamSpace(Lower(rest)[0]);
    assert forall i :: 0 <= i < |w| ==> !IsStreamSpace(w[i]);
    assert forall i :: 0 <= i < |v| ==> !IsStreamSpace(v[i]);
    SecondWordOfWords(w, v, Lower(rest));
    WordsRegroup(w, v, Lower(rest));
    NextWordOf(w, " " + v + Lower(rest));
  }

  /** The words of a command, grouped as the name and what follows it. */
  lemma WordsRegroup(w: string, v: string, rest: string)
    ensures w + " " + v + rest == w + (" " + v + rest)
  {
  }

  /**
   * A command that starts with a lower-case word is decided by that word:
   * `validate` and `getNextState` see it as the command name.
   */
  lemma DecidedByFirstWord(w: string, rest: string, s: GameState)
    requires w != [] && forall i :: 0 <= i < |w| ==> 'a' <= w[i] <= 'z'
    requires rest == [] || IsStreamSpace(rest[0])
    ensures Decide(w + rest, s) == DecideFor(w, Argument(w + rest), s)
    ensures NextState(w + rest, s) == NextStateFor(w, s)
  {
    CommandNameOfWord(w, rest);
  }

  /** `gamestart` in PLAYERS_ADDED leads to ASSIGN_REINFORCEMENT, whatever follows it. */
  lemma GameStartAssignsReinforcement(rest: string)
    requires rest == [] || IsStreamSpace(rest[0])
    ensures Decide("gamestart" + rest, PlayersAdded).Succeeded?
    ensures NextState("gamestart" + rest, PlayersAdded) == AssignReinforcement
  {
    DecidedByFirstWord("gamestart", rest, PlayersAdded);
  }

  /** A lone lower-case command word that the state accepts and that needs no argument succeeds and moves to the state it announces. */
  lemma AcceptedAlone(w: string, s: GameState)
    requires w != [] && forall i :: 0 <= i < |w| ==> 'a' <= w[i] <= 'z'
    requires w in Accepted(s) && !NeedsArgument(w)
    ensures Decide(w, s).Succeeded? && NextState(w, s) == Announced(w, s)
  {
    DecidedByFirstWord(w, [], s);
    assert w + [] == w;
  }

  /** A lone lower-case command word that the state does not accept is rejected as invalid in that state. */
  lemma RejectedAlone(w: string, s: GameState)
    requires w != [] && forall i :: 0 <= i < |w| ==> 'a' <= w[i] <= 'z'
    requires w !in Accepted(s)
    ensures Decide(w, s) == InvalidInState(w, s)
  {
    DecidedByFirstWord(w, [], s);
    assert w + [] == w;
  }

  /** `replay` is accepted after a win and starts over. */
  lemma ReplayAfterWin()
    ensures Decide("replay", Win).Succeeded? && NextState("replay", Win) == Start
  {
    AcceptedAlone("replay", Win);
  }

  /** `play` is rejected after a win: only `replay` and `quit` are accepted there. */
  lemma PlayAfterWin()
    ensures Decide("play", Win) == InvalidInState("play", Win)
  {
    RejectedAlone("play", Win);
  }

  /** Lower-casing a lower-case word followed by more text. */
  lemma LowerOfLowerWord(w: string, rest: string)
    requires forall i :: 0 <= i < |w| ==> 'a' <= w[i] <= 'z'
    requires rest == [] || IsStreamSpace(rest[0])
    ensures Lower(w + rest) == w + Lower(rest)
    ensures Lower(rest) == [] || IsStreamSpace(Lower(rest)[0])
  {
    var l := Lower(w + rest);
    assert |l| == |w + Lower(rest)|;
    forall i | 0 <= i < |l|
      ensures l[i] == (w + Lower(rest))[i]
    {
      if i < |w| {
        assert (w + rest)[i] == w[i];
      } else {
        assert (w + rest)[i] == rest[i - |w|];
      }
    }
  }

  class Command {
    var commandString: string
    var effect: Effect
    /** The observer list this command has as a `Subject`. */
    const subject: Subject

    /** `Command(cmd)` (Command_processing/CommandProcessing.cpp:14-17): no effect yet, no observers. */
    constructor (cmd: string)
      ensures commandString == cmd && effect == NoEffect
      ensures fresh(subject) && subject.observers == []
    {
      commandString := cmd;
      effect := NoEffect;
      subject := new Subject();
    }

    /**
     * The copy constructor (Command_processing/CommandProcessing.cpp:19-22):
     * copies the string and the effect; the `Subject` part is
     * default-constructed, so the copy has no observers.
     */
    constructor Copy(other: Command)
      ensures commandString == other.commandString && effect == other.effect
      ensures fresh(subject) && subject.observers == []
    {
      commandString := other.commandString;
      effect := other.effect;
      subject := new Subject();
    }

    /**
     * `saveEffect` (Command_processing/CommandProcessing.cpp:37-40): stores
     * the effect and notifies every observer of the command, in order.
     */
    method SaveEffect(e: Effect) returns (updated: seq<ObserverId>)
      modifies this
      ensures effect == e && commandString == old(commandString)
      ensures updated == subject.observers
    {
      effect := e;
      updated := subject.NotifyObservers(true);
    }
  }

  class CommandProcessor {
    var commands: seq<Command>
    /** The observer list this processor has as a `Subject`. */
    const subject: Subject

    /** `CommandProcessor()` (Command_processing/CommandProcessing.cpp:61-65): no commands saved. */
    constructor ()
      ensures commands == [] && fresh(subject) && subject.observers == []
    {
      commands := [];
      subject := new Subject();
    }

    /**
     * `saveCommand` (Command_processing/CommandProcessing.cpp:119-126): a
     * non-null command is appended and receives this processor's
     * observers; null is ignored.
     */
    method SaveCommand(cmd: Command?)
      requires cmd != null ==> cmd.subject != subject
      modifies this, if cmd != null then {cmd.subject} else {}
      ensures cmd == null ==> commands == old(commands)
      ensures cmd != null ==> commands == old(commands) + [cmd]
      ensures cmd != null ==> cmd.subject.observers == AttachedAll(old(cmd.subject.observers), subject.observers)
      ensures subject.observers == old(subject.observers)
    {
      if cmd != null {
        commands := commands + [cmd];
        subject.PropagateObserversTo(cmd.subject);
        var _ := subject.NotifyObservers(true);
      }
    }

    /**
     * The part of `CommandProcessor::getCommand` after reading
     * (Command_processing/CommandProcessing.cpp:131-138): an empty line
     * gives null, anything else becomes a new command that is saved.
     */
    method Submit(cmdStr: string) returns (cmd: Command?)
      modifies this
      ensures cmdStr == "" <==> cmd == null
      ensures cmd != null ==> fresh(cmd) && cmd.commandString == cmdStr && cmd.effect == NoEffect
      ensures cmd != null ==> commands == old(commands) + [cmd] && cmd.subject.observers == AttachedAll([], subject.observers)
      ensures cmd == null ==> commands == old(commands)
      ensures subject.observers == old(subject.observers)
    {
      if cmdStr == "" {
        return null;
      }
      cmd := new Command(cmdStr);
      SaveCommand(cmd);
    }

    /**
     * `CommandProcessor::getCommand` reading from the console: the line
     * typed (a parameter here) is trimmed of " \t\n\r"
     * (Command_processing/CommandProcessing.cpp:108-117) and submitted.
     */
    method GetCommand(input: string) returns (cmd: Command?)
      modifies this
      ensures cmd == null <==> Trim(input) == ""
      ensures cmd != null ==> fresh(cmd) && cmd.commandString == Trim(input) && commands == old(commands) + [cmd]
      ensures cmd == null ==> commands == old(commands)
    {
      cmd := Submit(Trim(input));
    }

    /**
     * `CommandProcessor::validate` (Command_processing/CommandProcessing.cpp:141-285):
     * false for null; otherwise the command's effect becomes the decision's
     * message, and the result says whether it was a success.
     */
    method Validate(cmd: Command?, s: GameState) returns (valid: bool)
      modifies cmd
      ensures cmd == null ==> !valid
      ensures cmd != null ==> cmd.effect == Decide(cmd.commandString, s) && cmd.commandString == old(cmd.commandString)
      ensures cmd != null ==> (valid <==> cmd.effect.Succeeded?)
    {
      if cmd == null {
        return false;
      }
      var e := Decide(cmd.commandString, s);
      var _ := cmd.SaveEffect(e);
      valid := e.Succeeded?;
    }

    /**
     * `CommandProcessor::getNextState` (Command_processing/CommandProcessing.cpp:287-338):
     * the current state for null, otherwise the state table's successor.
     */
    method GetNextState(cmd: Command?, s: GameState) returns (next: GameState)
      ensures cmd == null ==> next == s
      ensures cmd != null ==> next == NextState(cmd.commandString, s)
      ensures s == Exit ==> next == Exit
    {
      if cmd == null {
        return s;
      }
      next := NextState(cmd.commandString, s);
    }

    /**
     * `addObserver` (Command_processing/CommandProcessing.cpp:340-347): the
     * observer is attached to the processor and to every saved command; a
     * command saved twice is attached once. The processor's own list and
     * each command's list are distinct objects.
     */
    method AddObserver(o: ObserverId)
      requires forall c :: c in commands ==> c.subject != subject
      modifies subject, set c | c in commands :: c.subject
      ensures commands == old(commands)
      ensures subject.observers == Attached(old(subject.observers), o)
      ensures forall c :: c in commands ==> c.subject.observers == Attached(old(c.subject.observers), o)
    {
      subject.Attach(Some(o));
      AttachToCommands(commands, o);
    }

    /**
     * `removeObserver` (Command_processing/CommandProcessing.cpp:349-356):
     * the observer is detached from every saved command and then from the
     * processor; the other observers keep their order.
     */
    method RemoveObserver(o: ObserverId)
      requires forall c :: c in commands ==> c.subject != subject
      modifies subject, set c | c in commands :: c.subject
      ensures commands == old(commands)
      ensures subject.observers == Without(old(subject.observers), o)
      ensures forall c :: c in commands ==> c.subject.observers == Without(old(c.subject.observers), o)
    {
      DetachFromCommands(commands, o);
      subject.Detach(Some(o));
    }
  }

  /** The loop of `addObserver` over the saved commands `cs`, in order. */
  method AttachToCommands(cs: seq<Command>, o: ObserverId)
    modifies set c | c in cs :: c.subject
    ensures forall c :: c in cs ==> c.subject.observers == Attached(old(c.subject.observers), o)
  {
    for k := 0 to |cs|
      invariant forall j :: 0 <= j < |cs| ==>
                  Attached(cs[j].subject.observers, o) == Attached(old(cs[j].subject.observers), o)
      invariant forall j :: 0 <= j < k ==> o in cs[j].subject.observers
    {
      AttachIdempotent(cs[k].subject.observers, o);
      cs[k].subject.Attach(Some(o));
    }
  }

  /** The loop of `removeObserver` over the saved commands `cs`, in order. */
  method DetachFromCommands(cs: seq<Command>, o: ObserverId)
    modifies set c | c in cs :: c.subject
    ensures forall c :: c in cs ==> c.subject.observers == Without(old(c.subject.observers), o)
  {
    for k := 0 to |cs|
      invariant forall j :: 0 <= j < |cs| ==>
                  Without(cs[j].subject.observers, o) == Without(old(cs[j].subject.observers), o)
      invariant forall j :: 0 <= j < k ==> o !in cs[j].subject.observers
    {
      WithoutAbsent(Without(cs[k].subject.observers, o), o);
      cs[k].subject.Detach(Some(o));
    }
    forall c | c in cs
      ensures c.subject.observers == Without(old(c.subject.observers), o)
    {
      WithoutAbsent(c.subject.observers, o);
    }
  }

  /**
   * The commands a command file yields: each line trimmed of " \t\n\r",
   * in order, skipping empty lines and lines starting with '#'.
   */
  function CommandLines(lines: seq<string>): (r: seq<string>)
    ensures |r| <= |lines|
  {
    if lines == [] then []
    else
      var line := Trim(lines[0]);
      (if line == "" || line[0] == '#' then [] else [line]) + CommandLines(lines[1..])
  }

  /** Every command a file yields is non-empty, trimmed and not a comment. */
  lemma {:induction false} CommandLinesShape(lines: seq<string>)
    ensures forall k :: 0 <= k < |CommandLines(lines)| ==>
              var c := CommandLines(lines)[k]; c != "" && c[0] != '#' && IsTrimmed(c)
  {
    if lines != [] {
      CommandLinesShape(lines[1..]);
    }
  }

  /**
   * The `std::getline` loop of `readCommandInternal`
   * (Command_processing/CommandProcessing.cpp:450-461): from line `from`
   * on, the first line that is neither empty nor a comment once trimmed,
   * and the position after it; "" and the end of the file when there is none.
   */
  method NextCommandLine(lines: seq<string>, from: nat) returns (line: string, next: nat)
    requires from <= |lines|
    ensures from <= next <= |lines|
    ensures CommandLines(lines[from..]) == (if line == "" then [] else [line]) + CommandLines(lines[next..])
    ensures line == "" ==> next == |lines| && CommandLines(lines[from..]) == []
  {
    next := from;
    while next < |lines|
      invariant from <= next <= |lines|
      invariant CommandLines(lines[next..]) == CommandLines(lines[from..])
      decreases |lines| - next
    {
      var l := Trim(lines[next]);
      assert lines[next..] == [lines[next]] + lines[next + 1..];
      next := next + 1;
      if l == "" || l[0] == '#' {
        continue;
      }
      return l, next;
    }
    return "", next;
  }

  /**
   * `FileCommandProcessorAdapter`: a command processor reading its commands
   * from a file, given here by its lines and the position of the stream.
   */
  class FileCommandProcessorAdapter {
    const processor: CommandProcessor
    const lines: seq<string>
    var pos: nat
    var isOpen: bool
    var fileReadComplete: bool
    /** The command strings returned so far. */
    ghost var yielded: seq<string>

    /** The commands still to come. */
    ghost function Remaining(): seq<string>
      reads this
      requires pos <= |lines|
    {
      if isOpen then CommandLines(lines[pos..]) else []
    }

    /** What was yielded and what is still to come make up the file's commands. */
    ghost predicate Valid()
      reads this
    {
      && pos <= |lines|
      && yielded + Remaining() == CommandLines(lines)
      && (fileReadComplete ==> Remaining() == [])
    }

    /**
     * The constructor (Command_processing/CommandProcessing.cpp:369-380): a
     * file that cannot be opened completes the reading at once.
     */
    constructor (files: map<string, seq<string>>, filename: string)
      ensures Valid() && yielded == [] && fresh(processor) && processor.commands == []
      ensures fileReadComplete <==> filename !in files
      ensures filename in files ==> Remaining() == CommandLines(files[filename])
    {
      processor := new CommandProcessor();
      pos := 0;
      yielded := [];
      if filename in files {
        assert files[filename][0..] == files[filename];
        lines := files[filename];
        isOpen := true;
        fileReadComplete := false;
      } else {
        lines := [];
        isOpen := false;
        fileReadComplete := true;
      }
    }

    /**
     * `readCommandInternal` (Command_processing/CommandProcessing.cpp:443-466):
     * the next line that is neither empty nor a comment, trimmed; at the end
     * of the file the reading completes, the file is closed and the result
     * is empty.
     */
    method ReadCommandInternal() returns (line: string)
      requires Valid()
      modifies this
      ensures Valid() && yielded == old(yielded) + (if line == "" then [] else [line])
      ensures old(Remaining()) == [] ==> line == "" && fileReadComplete
      ensures old(Remaining()) != [] ==> line == old(Remaining())[0] && Remaining() == old(Remaining())[1..]
      ensures fileReadComplete == (old(fileReadComplete) || line == "")
    {
      if !isOpen {
        fileReadComplete := true;
        return "";
      }
      var l, p := NextCommandLine(lines, pos);
      if l != "" {
        Yield(l, p);
        return l;
      }
      Close();
      return "";
    }

    /** The stream moves to `p`, past the command `l`, which is yielded. */
    method Yield(l: string, p: nat)
      requires Valid() && isOpen && pos <= p <= |lines|
      requires CommandLines(lines[pos..]) == [l] + CommandLines(lines[p..])
      modifies this
      ensures Valid() && isOpen && pos == p && fileReadComplete == old(fileReadComplete)
      ensures yielded == old(yielded) + [l]
    {
      ghost var before := Remaining();
      pos := p;
      assert (yielded + [l]) + Remaining() == yielded + before;
      yielded := yielded + [l];
    }

    /** With no command left, the file is closed and its reading complete. */
    method Close()
      requires Valid() && isOpen && Remaining() == []
      modifies this
      ensures Valid() && !isOpen && fileReadComplete && pos == old(pos) && yielded == old(yielded)
    {
      fileReadComplete := true;
      isOpen := false;
    }

    /**
     * `FileCommandProcessorAdapter::getCommand` (Command_processing/CommandProcessing.cpp:432-441):
     * null for ever once the file is read; otherwise the next command of the
     * file, saved, or null and the reading complete when none is left.
     */
    method GetCommand() returns (cmd: Command?)
      requires Valid()
      modifies this, processor
      ensures Valid()
      ensures old(fileReadComplete) ==> cmd == null && fileReadComplete && yielded == old(yielded)
      ensures cmd == null ==> fileReadComplete && processor.commands == old(processor.commands)
      ensures cmd != null ==> fresh(cmd) && yielded == old(yielded) + [cmd.commandString]
      ensures cmd != null ==> processor.commands == old(processor.commands) + [cmd]
      ensures !old(fileReadComplete) && old(Remaining()) != [] ==> cmd != null && cmd.commandString == old(Remaining())[0]
    {
      if fileReadComplete {
        return null;
      }
      var line := ReadCommandInternal();
      cmd := processor.Submit(line);
      if cmd == null {
        fileReadComplete := true;
      }
    }
  }
}
