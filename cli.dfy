/**
 * `CliModule`: the registry of commands held in place, the dispatch of the
 * command named by `argv[2]`, and the console output, kept as the sequence of
 * messages logged so far.
 */
module Cli {
  import opened Wrappers
  import opened Text
  import opened Registry
  import opened Arguments

  /** What one `invoke` did. */
  datatype Outcome =
    | NoCommand
    | NotFound(token: string)
    | Ran(command: Command, args: seq<string>)

  /** The branch `invoke` takes for a given `argv` and registry. */
  function Dispatch(argv: seq<string>, cmds: seq<Command>): (o: Outcome)
    ensures o.NoCommand? <==> |argv| <= 2
    ensures o.NotFound? <==> |argv| > 2 && forall j :: 0 <= j < |cmds| ==> cmds[j].name != Lower(argv[2])
    ensures o.NotFound? ==> o.token == argv[2]
    ensures o.Ran? ==> |argv| > 2 && o.command in cmds && o.command.name == Lower(argv[2])
    ensures o.Ran? ==> o.args == ArgumentList(argv)
  {
    if |argv| <= 2 then NoCommand
    else match GetCommand(cmds, argv[2])
      case None => NotFound(argv[2])
      case Some(c) => Ran(c, argv[3..])
  }

  const NoCommandNotice := "No command was specifed"

  const NotFoundPrefix := "Command \""
  const NotFoundSuffix := "\" could not be found"

  /** The notice for an unknown command; it names the token as typed. */
  function NotFoundNotice(token: string): (r: string)
    ensures |r| == |NotFoundPrefix| + |token| + |NotFoundSuffix|
    ensures r[|NotFoundPrefix|..|NotFoundPrefix| + |token|] == token
  {
    NotFoundPrefix + token + NotFoundSuffix
  }

  /** The messages an `invoke` with this outcome logs: one notice when no
      command runs, the listing when `help` runs, nothing for another callback. */
  function Notices(o: Outcome, cmds: seq<Command>): (r: seq<string>)
    ensures |r| <= 1
    ensures |r| == 0 <==> o.Ran? && o.command.handler.Callback?
  {
    match o
    case NoCommand => [NoCommandNotice]
    case NotFound(token) => [NotFoundNotice(token)]
    case Ran(c, _) => if c.handler.Help? then [HelpText(cmds)] else []
  }

  /** In a registry of distinct names, the command that runs is the one
      stored under the lower-cased token, with the tokens after it. */
  lemma RunsTheRegisteredCommand(argv: seq<string>, cmds: seq<Command>, i: nat)
    requires WellFormed(cmds)
    requires |argv| > 2 && i < |cmds| && cmds[i].name == Lower(argv[2])
    ensures Dispatch(argv, cmds) == Ran(cmds[i], argv[3..])
  {
  }

  /** In a valid registry `help` can always be run, in any letter case, and
      it logs the listing of the whole registry. */
  lemma HelpIsAlwaysAvailable(argv: seq<string>, cmds: seq<Command>)
    requires WellFormed(cmds) && |cmds| >= 1 && cmds[0] == HelpCommand
    requires |argv| > 2 && Lower(argv[2]) == "help"
    ensures Dispatch(argv, cmds) == Ran(HelpCommand, argv[3..])
    ensures Notices(Dispatch(argv, cmds), cmds) == [HelpText(cmds)]
  {
    RunsTheRegisteredCommand(argv, cmds, 0);
  }

  class CliModule {
    /** The process arguments, as `processModule.argv` supplies them. */
    const argv: seq<string>
    /** The registered commands, in registration order. */
    var commands: seq<Command>
    /** Everything passed to `consoleModule.log`, oldest first. */
    var log: seq<string>

    ghost predicate Valid()
      reads this
    {
      WellFormed(commands) && |commands| >= 1 && commands[0] == HelpCommand
    }

    /** Registers the `help` command before anything else. */
    constructor (argv: seq<string>)
      ensures Valid()
      ensures this.argv == argv && commands == [HelpCommand] && log == []
    {
      this.argv := argv;
      commands := [];
      log := [];
      new;
      var r := Register("help", Help, Some("Print this text"), None);
      assert Lower("help") == "help";
    }

    /** `register`: on a duplicate name, fails with the message of the thrown
        error and leaves the registry as it was; otherwise appends the command
        under its lower-cased name and returns this object. */
    method Register(name: string, handler: Handler, info: Option<string>, man: Option<string>)
      returns (r: Result<CliModule, string>)
      modifies this`commands
      ensures var expected := TryRegister(old(commands), name, handler, info, man);
              && (expected.Failure? ==> r == Failure(expected.error) && commands == old(commands))
              && (expected.Success? ==> r == Success(this) && commands == expected.value)
      ensures old(Valid()) ==> Valid()
    {
      if GetCommand(commands, name).Some? {
        return Failure(DuplicateMessage(name));
      }
      AddCommand(name, handler, info, man);
      return Success(this);
    }

    /** `addCommand`: appends the command under its lower-cased name. */
    method AddCommand(name: string, handler: Handler, info: Option<string>, man: Option<string>)
      modifies this`commands
      ensures commands == old(commands) + [Command(Lower(name), handler, info, man)]
    {
      commands := commands + [Command(Lower(name), handler, info, man)];
    }

    /** `invoke`: takes the branch `Dispatch` gives and logs what `Notices` gives;
        the `help` callback logs the listing of the registry as it stands. */
    method Invoke() returns (o: Outcome)
      modifies this`log
      ensures o == Dispatch(argv, commands)
      ensures log == old(log) + Notices(o, commands)
      ensures Valid() && o.Ran? ==>
                forall i :: 0 <= i < |commands| && commands[i].name == Lower(argv[2]) ==> o.command == commands[i]
    {
      var args := if |argv| >= 2 then argv[2..] else [];
      if |args| == 0 {
        log := log + [NoCommandNotice];
        return NoCommand;
      }
      var command := GetCommand(commands, args[0]);
      if command.None? {
        log := log + [NotFoundNotice(args[0])];
        return NotFound(args[0]);
      }
      var c := command.value;
      if c.handler.Help? {
        log := log + [HelpText(commands)];
      }
      o := Ran(c, args[1..]);
      forall i | 0 <= i < |commands| && commands[i].name == Lower(argv[2]) && Valid()
        ensures o.command == commands[i]
      {
        RunsTheRegisteredCommand(argv, commands, i);
      }
    }

    /** `print`: logs the message unchanged. */
    method Print(message: string)
      modifies this`log
      ensures log == old(log) + [message]
    {
      log := log + [message];
    }
  }
}
