/**
 The parser in place: gc_block is filled word by word, and gc_state is written only once the whole
 line has passed its checks.
 */
module GcodeParser {
  import opened Axes
  import opened GcodeWords
  import opened GcodeBlock

  class Parser {
    // gc_state
    var modal: Modal
    var spindleSpeed: real
    var feedRate: real
    var tool: int
    var lineNumber: int
    var position: Point
    var coordSystem: Point
    var coordOffset: Point
    // gc_block, with the bit masks of its words as the keys of its maps
    var commands: map<Group, int>
    var values: map<char, real>
    var axisCommand: AxisCommand
    // the calls to the motion control, to the dwell and to the settings, in order
    var actions: seq<Action>

    constructor (modal: Modal, position: Point, coordSystem: Point)
      ensures GcState() == State(modal, 0.0, 0.0, 0, 0, position, coordSystem, Vec(0.0, 0.0, 0.0)) && actions == []
    {
      this.modal, this.position, this.coordSystem := modal, position, coordSystem;
      spindleSpeed, feedRate, tool, lineNumber := 0.0, 0.0, 0, 0;
      coordOffset := Vec(0.0, 0.0, 0.0);
      commands, values, axisCommand, actions := map[], map[], NoCommand, [];
    }

    function GcState(): State
      reads this
    {
      State(modal, spindleSpeed, feedRate, tool, lineNumber, position, coordSystem, coordOffset)
    }

    function GcBlock(): Block
      reads this
    {
      Block(commands, values, axisCommand)
    }

    /** Enters a command word into its modal group. */
    method EnterCommand(c: Command) returns (status: Status)
      modifies this`commands
      ensures status == Accepted <==> c.group !in old(commands)
      ensures if status == Accepted then Enter(old(GcBlock()), c) == Success(GcBlock())
              else Enter(old(GcBlock()), c) == Fail(status) && commands == old(commands)
    {
      if c.group in commands { return ModalGroupViolation; }
      commands := commands[c.group := c.code];
      return Accepted;
    }

    method ImportG(i: int, m: int) returns (status: Status)
      modifies this`commands, this`axisCommand
      ensures if status == Accepted then GWord(old(GcBlock()), i, m) == Success(GcBlock())
              else GWord(old(GcBlock()), i, m) == Fail(status)
    {
      var use := AxisUse(i, m);
      if use != NoCommand {
        if axisCommand != NoCommand { return AxisCommandConflict; }
        axisCommand := use;
      }
      match GCommand(i, m)
      case Fail(error) => status := error;
      case Success(c) => status := EnterCommand(c);
    }

    method ImportM(i: int, m: int) returns (status: Status)
      modifies this`commands
      ensures if status == Accepted then MWord(old(GcBlock()), i, m) == Success(GcBlock())
              else MWord(old(GcBlock()), i, m) == Fail(status)
    {
      match MCommand(i, m)
      case Fail(error) => status := error;
      case Success(c) => status := EnterCommand(c);
    }

    method ImportValue(letter: char, v: real) returns (status: Status)
      modifies this`values
      ensures if status == Accepted then ValueWord(old(GcBlock()), letter, v) == Success(GcBlock())
              else ValueWord(old(GcBlock()), letter, v) == Fail(status)
    {
      if !ValueLetter(letter) { return UnsupportedCommand; }
      if letter == 'T' && v > MAX_TOOL_NUMBER { return MaxValueExceeded; }
      if letter in values { return WordRepeated; }
      if letter in {'F', 'N', 'P', 'T', 'S'} && v < 0.0 { return NegativeValue; }
      values := values[letter := v];
      return Accepted;
    }

    method ImportWord(t: Token) returns (status: Status)
      modifies this`commands, this`values, this`axisCommand
      ensures if status == Accepted then Step(old(GcBlock()), t) == Success(GcBlock())
              else Step(old(GcBlock()), t) == Fail(status)
    {
      match t
      case NoLetter => status := ExpectedCommandLetter;
      case NoNumber => status := BadNumberFormat;
      case Word(letter, v) =>
        if letter == 'G' {
          status := ImportG(Significand(v), Mantissa(v));
        } else if letter == 'M' {
          status := ImportM(Significand(v), Mantissa(v));
        } else {
          status := ImportValue(letter, v);
        }
    }

    /** The import loop. */
    method ImportLine(words: seq<Token>) returns (status: Status)
      modifies this`commands, this`values, this`axisCommand
      ensures if status == Accepted then Import(Empty, words) == Success(GcBlock())
              else Import(Empty, words) == Fail(status)
    {
      commands, values, axisCommand := map[], map[], NoCommand;
      for n := 0 to |words|
        invariant Import(Empty, words) == Import(GcBlock(), words[n..])
      {
        assert words[n..][0] == words[n] && words[n..][1..] == words[n + 1..];
        status := ImportWord(words[n]);
        if status != Accepted { return; }
      }
      return Accepted;
    }

    /** Modes, rates and the coordinate system, in the order of execution. */
    method Settle(plan: Plan)
      modifies this`modal, this`spindleSpeed, this`feedRate, this`tool, this`lineNumber, this`coordSystem
      ensures GcState() == Settled(old(GcState()), GcBlock(), plan)
    {
      lineNumber := Trunc(Value(GcBlock(), 'N'));
      modal := modal.(feedRate := plan.modal.feedRate);
      feedRate := plan.feed;
      spindleSpeed := plan.speed;
      tool := Significand(Value(GcBlock(), 'T'));
      modal := modal.(spindle := plan.modal.spindle, coolant := plan.modal.coolant, units := plan.modal.units);
      if modal.coordSelect != plan.modal.coordSelect {
        modal := modal.(coordSelect := plan.modal.coordSelect);
        coordSystem := plan.coordSystem;
      }
      modal := modal.(distance := plan.modal.distance, motion := plan.modal.motion);
    }

    /** Dwell, stored coordinates, predefined positions and offsets. */
    method DoNonModal(plan: Plan)
      modifies this`position, this`coordSystem, this`coordOffset, this`actions
      ensures var (after, done) := NonModalDone(old(GcState()), GcBlock(), plan);
              GcState() == after && actions == old(actions) + done
    {
      var command := NonModalOf(GcBlock());
      var end := plan.end;
      if command == DWELL {
        actions := actions + [Dwell(Value(GcBlock(), 'P'))];
      } else if command == SET_COORDINATE_DATA {
        actions := actions + [Store(end.coordSelect, end.ijk)];
        if modal.coordSelect == end.coordSelect { coordSystem := end.ijk; }
      } else if command == GO_HOME_0 || command == GO_HOME_1 {
        if end.axisCommand != NoCommand {
          actions := actions + [Line(end.xyz, plan.feed, true, Inverse(plan.modal))];
        }
        actions := actions + [Line(end.ijk, plan.feed, true, Inverse(plan.modal))];
        position := end.ijk;
      } else if command == SET_HOME_0 {
        actions := actions + [Store(SETTING_INDEX_G28, position)];
      } else if command == SET_HOME_1 {
        actions := actions + [Store(SETTING_INDEX_G30, position)];
      } else if command == SET_COORDINATE_OFFSET {
        coordOffset := end.xyz;
      } else if command == RESET_COORDINATE_OFFSET {
        coordOffset := Vec(0.0, 0.0, 0.0);
      }
    }

    method DoMotion(plan: Plan, out: Outside)
      requires modal == plan.modal
      modifies this`position, this`actions
      ensures var (after, done) := MotionDone(old(GcState()), plan, out);
              GcState() == after && actions == old(actions) + done
    {
      var end := plan.end;
      if modal.motion != NO_MOTION && end.axisCommand == MotionMode {
        var update := ToTarget;
        if modal.motion == LINEAR || modal.motion == SEEK {
          actions := actions + [Line(end.xyz, plan.feed, modal.motion == SEEK, Inverse(plan.modal))];
        } else if modal.motion == CW_ARC || modal.motion == CCW_ARC {
          actions := actions +
            [Arc(end.xyz, end.ijk, end.r, modal.motion == CW_ARC, plan.feed, Inverse(plan.modal))];
        } else {
          actions := actions + [Probe(end.xyz, modal.motion, plan.feed)];
          update := out.probed(end.xyz);
        }
        match update
        case ToTarget => position := end.xyz;
        case ToMachine(machine) => position := machine;
        case Unmoved =>
      }
    }

    /**
     gc_execute_line. A line that is answered with an error has changed nothing and moved nothing, and
     an accepted jog has changed nothing but the position.
     */
    method GcExecuteLine(line: Input) returns (status: Status)
      modifies this
      ensures var r := ExecuteLine(old(GcState()), line);
              status == r.status && GcState() == r.state && actions == old(actions) + r.actions
      ensures status != Accepted ==> GcState() == old(GcState()) && actions == old(actions)
      ensures line.jog ==> GcState() == old(GcState()).(position := position)
    {
      status := ImportLine(line.words);
      if status != Accepted { return; }
      match Check(GcState(), GcBlock(), line.jog, line.out)
      case Fail(error) => status := error;
      case Success(plan) =>
        if line.jog {
          actions := actions + [Line(plan.end.xyz, plan.feed, false, false)];
          position := plan.end.xyz;
        } else {
          Settle(plan);
          DoNonModal(plan);
          DoMotion(plan, line.out);
        }
    }
  }
}
