/**
 * The command registry of `CliModule` as values: the stored commands, the
 * lookup by lower-cased name (`getCommand`), registration with its duplicate
 * check (`register` / `addCommand`) and the listing the built-in `help`
 * command prints.
 */
module Registry {
  import opened Wrappers
  import opened Text

  /** A command's callback. `Help` is the listing handler the constructor
      installs; any other callback is known only by an identifier. */
  datatype Handler = Help | Callback(id: nat)

  datatype Command = Command(name: string, handler: Handler, info: Option<string>, man: Option<string>)

  /** The command every registry starts with. */
  const HelpCommand := Command("help", Help, Some("Print this text"), None)

  /** What registration guarantees of the stored names: lower case and pairwise distinct. */
  ghost predicate WellFormed(cmds: seq<Command>) {
    && (forall i :: 0 <= i < |cmds| ==> IsLowerCase(cmds[i].name))
    && (forall i, j :: 0 <= i < j < |cmds| ==> cmds[i].name != cmds[j].name)
  }

  /** Index of the first command stored under exactly `key`. */
  function IndexOfName(cmds: seq<Command>, key: string): (r: Option<nat>)
    ensures r.Some? ==> r.value < |cmds| && cmds[r.value].name == key
    ensures r.Some? ==> forall j :: 0 <= j < r.value ==> cmds[j].name != key
    ensures r.None? <==> forall j :: 0 <= j < |cmds| ==> cmds[j].name != key
  {
    if cmds == [] then None
    else if cmds[0].name == key then Some(0)
    else match IndexOfName(cmds[1..], key)
      case None => None
      case Some(i) => Some(i + 1)
  }

  /** `getCommand`: the first command whose stored name equals the
      lower-cased query; no prefix or partial matching. */
  function GetCommand(cmds: seq<Command>, query: string): (r: Option<Command>)
    ensures r.Some? ==> exists i :: 0 <= i < |cmds| && cmds[i] == r.value && r.value.name == Lower(query)
                                    && forall j :: 0 <= j < i ==> cmds[j].name != Lower(query)
    ensures r.None? <==> forall j :: 0 <= j < |cmds| ==> cmds[j].name != Lower(query)
  {
    match IndexOfName(cmds, Lower(query))
    case None => None
    case Some(i) => Some(cmds[i])
  }

  const DuplicatePrefix := "Command \""
  const DuplicateSuffix := "\" is already registered"

  /** The message of the error `register` throws on a duplicate; it names
      the command as the caller typed it. */
  function DuplicateMessage(name: string): (r: string)
    ensures |r| == |DuplicatePrefix| + |name| + |DuplicateSuffix|
    ensures r[|DuplicatePrefix|..|DuplicatePrefix| + |name|] == name
  {
    DuplicatePrefix + name + DuplicateSuffix
  }

  /** `register` as a value: fails when a command is already stored under the
      lower-cased name, otherwise appends the new command at the end. */
  function TryRegister(cmds: seq<Command>, name: string, handler: Handler,
                       info: Option<string>, man: Option<string>): (r: Result<seq<Command>, string>)
    ensures r.Failure? <==> exists i :: 0 <= i < |cmds| && cmds[i].name == Lower(name)
    ensures r.Failure? ==> r.error == DuplicateMessage(name)
    ensures r.Success? ==> r.value == cmds + [Command(Lower(name), handler, info, man)]
    ensures r.Success? && WellFormed(cmds) ==> WellFormed(r.value)
  {
    if GetCommand(cmds, name).Some? then Failure(DuplicateMessage(name))
    else Success(cmds + [Command(Lower(name), handler, info, man)])
  }

  /** Names are case-insensitive: once `a` is registered, registering any
      `b` with the same lower-cased form fails and changes nothing. */
  lemma DuplicateIsCaseInsensitive(cmds: seq<Command>, a: string, b: string, handler: Handler, handler': Handler,
                                   info: Option<string>, info': Option<string>, man: Option<string>, man': Option<string>)
    requires TryRegister(cmds, a, handler, info, man).Success?
    requires Lower(a) == Lower(b)
    ensures TryRegister(TryRegister(cmds, a, handler, info, man).value, b, handler', info', man')
            == Failure(DuplicateMessage(b))
  {
    var cs := TryRegister(cmds, a, handler, info, man).value;
    assert cs[|cmds|].name == Lower(b);
  }

  lemma {:induction false} IndexOfNameSnoc(cmds: seq<Command>, c: Command, key: string)
    ensures IndexOfName(cmds + [c], key)
            == if IndexOfName(cmds, key).Some? then IndexOfName(cmds, key)
               else if c.name == key then Some(|cmds|) else None
  {
    if cmds != [] {
      assert (cmds + [c])[1..] == cmds[1..] + [c];
      IndexOfNameSnoc(cmds[1..], c, key);
    }
  }

  /** After a successful registration of `name`, a query with the same
      lower-cased form finds the new command. */
  lemma LookupNewCommand(cmds: seq<Command>, name: string, handler: Handler,
                         info: Option<string>, man: Option<string>, query: string)
    requires TryRegister(cmds, name, handler, info, man).Success?
    requires Lower(query) == Lower(name)
    ensures GetCommand(cmds + [Command(Lower(name), handler, info, man)], query)
            == Some(Command(Lower(name), handler, info, man))
  {
    IndexOfNameSnoc(cmds, Command(Lower(name), handler, info, man), Lower(query));
  }

  /** Registration changes the answer to no other lookup. */
  lemma LookupOtherCommand(cmds: seq<Command>, c: Command, query: string)
    requires c.name != Lower(query)
    ensures GetCommand(cmds + [c], query) == GetCommand(cmds, query)
  {
    IndexOfNameSnoc(cmds, c, Lower(query));
  }

  const Tabs := "\t\t\t"
  const HelpHeader := "COMMAND" + Tabs + "INFO"

  /** One line of the listing: the name, then tabs and the info when there is one. */
  function HelpLine(c: Command): (r: string)
    ensures |r| >= |c.name| && r[..|c.name|] == c.name
    ensures c.info.None? ==> r == c.name
    ensures c.info.Some? ==> r[|c.name|..] == Tabs + c.info.value
  {
    c.name + (if c.info.Some? then Tabs + c.info.value else "")
  }

  function HelpLines(cmds: seq<Command>): (r: seq<string>)
    ensures |r| == |cmds|
  {
    seq(|cmds|, i requires 0 <= i < |cmds| => HelpLine(cmds[i]))
  }

  /** The text the `help` command logs for the registry as it stands. */
  function HelpText(cmds: seq<Command>): (r: string)
    ensures |r| > |HelpHeader| && r[..|HelpHeader| + 1] == HelpHeader + "\n"
  {
    HelpHeader + "\n" + Join(HelpLines(cmds))
  }

  ghost predicate NoNewlines(cmds: seq<Command>) {
    forall i :: 0 <= i < |cmds| ==>
      '\n' !in cmds[i].name && (cmds[i].info.Some? ==> '\n' !in cmds[i].info.value)
  }

  /** Read line by line, the listing is the header followed by one line per
      command in registration order (an empty registry leaves one empty line). */
  lemma HelpTextLines(cmds: seq<Command>)
    requires NoNewlines(cmds)
    ensures Split(HelpText(cmds)) == [HelpHeader] + (if cmds == [] then [""] else HelpLines(cmds))
  {
    var lines := HelpLines(cmds);
    SplitAfterLine(HelpHeader, Join(lines));
    if cmds == [] {
      assert Join(lines) == "";
    } else {
      forall i | 0 <= i < |lines| ensures '\n' !in lines[i] {
        var c := cmds[i];
        if c.info.Some? {
          assert lines[i] == c.name + (Tabs + c.info.value);
        }
      }
      SplitJoin(lines);
    }
  }

  /** The listing is read when `help` runs: a command registered later adds
      its own line at the end. */
  lemma HelpTextSnoc(cmds: seq<Command>, c: Command)
    requires cmds != []
    ensures HelpText(cmds + [c]) == HelpText(cmds) + "\n" + HelpLine(c)
  {
    assert HelpLines(cmds + [c]) == HelpLines(cmds) + [HelpLine(c)];
    JoinSnoc(HelpLines(cmds), HelpLine(c));
  }
}
