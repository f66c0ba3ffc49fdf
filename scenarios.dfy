/**
 * The behaviours the repository's tests exercise, plus three scenarios with no
 * test of their own (an unknown command, `help` listing a registered command,
 * registering a name twice), for any command name other than a case variant of
 * `help`. The "no command" scenario fixes `argv` to a bare program invocation,
 * where the test relies on the host process's own `argv`. A user callback's own
 * effect (printing "foobar") is performed by the caller once `Invoke`
 * reports which callback ran.
 */
module Scenarios {
  import opened Wrappers
  import opened Text
  import opened Registry
  import opened Cli

  /** "Should be able to invoke": no command token, one notice, no failure. */
  method InvokeWithoutCommand(program: string, script: string) returns (o: Outcome, log: seq<string>)
    ensures o == NoCommand && log == ["No command was specifed"]
  {
    var cli := new CliModule([program, script]);
    o := cli.Invoke();
    log := cli.log;
  }

  /** An unknown command yields one notice naming the token as typed. */
  method InvokeUnknownCommand(token: string) returns (o: Outcome, log: seq<string>)
    requires Lower(token) != "help"
    ensures o == NotFound(token) && log == ["Command \"" + token + "\" could not be found"]
  {
    var cli := new CliModule(["", "", token]);
    o := cli.Invoke();
    log := cli.log;
  }

  /** "Should be able to invoke specific command": the registered callback runs
      and its print is the only thing logged. */
  method InvokeSpecificCommand(name: string, message: string) returns (log: seq<string>)
    requires Lower(name) != "help"
    ensures log == [message]
  {
    var cli := new CliModule(["", "", name]);
    var r := cli.Register(name, Callback(1), None, None);
    assert cli.commands == [HelpCommand, Command(Lower(name), Callback(1), None, None)];
    RunsTheRegisteredCommand(cli.argv, cli.commands, 1);
    var o := cli.Invoke();
    if o.command.handler == Callback(1) {
      cli.Print(message);
    }
    log := cli.log;
  }

  /** "Should be able to parse arguments": the callback receives the tokens
      after the command name, ["a", "b"] in the test. */
  method InvokeWithArguments(name: string, a: string, b: string) returns (args: seq<string>)
    requires Lower(name) != "help"
    ensures args == [a, b]
  {
    var cli := new CliModule(["", "", name, a, b]);
    var r := cli.Register(name, Callback(1), None, None);
    assert cli.commands == [HelpCommand, Command(Lower(name), Callback(1), None, None)];
    RunsTheRegisteredCommand(cli.argv, cli.commands, 1);
    var o := cli.Invoke();
    args := o.args;
  }

  /** Running `help` logs the listing of every command registered so far. */
  method InvokeHelp(name: string, info: string) returns (log: seq<string>)
    requires Lower(name) != "help"
    ensures log == [HelpText([HelpCommand, Command(Lower(name), Callback(1), Some(info), None)])]
  {
    var cli := new CliModule(["", "", "help"]);
    var r := cli.Register(name, Callback(1), Some(info), None);
    assert cli.commands == [HelpCommand, Command(Lower(name), Callback(1), Some(info), None)];
    assert Lower("help") == "help";
    RunsTheRegisteredCommand(cli.argv, cli.commands, 0);
    var o := cli.Invoke();
    log := cli.log;
  }

  /** Registering `a` and then `b` with the same lower-cased form (e.g. "Foo"
      then "foo", or "Help" then "HELP") fails on the second call with the
      thrown message. */
  method RegisterTwice(a: string, b: string) returns (second: Result<CliModule, string>)
    requires Lower(a) == Lower(b)
    ensures second == Failure("Command \"" + b + "\" is already registered")
  {
    var cli := new CliModule([]);
    var first := cli.Register(a, Callback(1), None, None);
    if first.Success? {
      assert cli.commands[|cli.commands| - 1].name == Lower(b);
    } else {
      assert cli.commands[0].name == Lower(b);
    }
    second := cli.Register(b, Callback(2), None, None);
  }
}
