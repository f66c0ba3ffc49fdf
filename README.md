# CLI command registry and dispatcher (Dafny model)

This project models `CliModule` from `src/modules/cli.module.ts`: a small command-line
dispatcher that keeps an ordered registry of named commands, pre-registers a `help` command
that prints a two-column listing, rejects duplicate names case-insensitively, and on
`invoke` runs the command named by the third process argument with the remaining arguments
(or logs a notice when there is no command token or no such command).

Layout:

- `wrappers.dfy` — `Option` and `Result` (a `Failure` stands for a thrown `Error`).
- `text.dfy` — ASCII `Lower` (for `toLowerCase`), `Join` (for `join("\n")`), its inverse
  `Split`, and `FirstIndexOf`.
- `registry.dfy` — `Command`, `Handler` (the built-in `Help` listing or a user callback known
  by an id), `GetCommand`, registration as a value (`TryRegister`) and the help listing.
- `arguments.dfy` — the argument list passed to a callback (`argv[3..]`) and a
  test-derived `key=value` argument dictionary.
- `cli.dfy` — `Dispatch` (which branch `invoke` takes), `Notices` (what it logs) and the
  class `CliModule` whose methods update `commands` and `log` in place.
- `scenarios.dfy` — the behaviours the repository's tests exercise, plus three further
  scenarios with no test of their own (an unknown command, `help` listing a registered
  command, registering a name twice), stated for any command name other than a case variant
  of `help` (for duplicate registration, any name at all). The test "Should be able to
  invoke" runs on the host process's own `argv`; `InvokeWithoutCommand` fixes `argv` to the
  two entries of a bare program invocation.

The console (`consoleModule.log`) is modelled as the field `log: seq<string>` of the class;
the process (`processModule.argv`) as the constant field `argv`.

Arguments and notices:

- The callback receives `argv[3..]`: `command.callback(...args.slice(1))` with
  `args = argv.slice(2)` (src/modules/cli.module.ts:59, 76).
- The class defines no `argumentList` or `argumentDictionary`; only the tests read them
  (src/modules/cli.module.spec.ts:59-89). `Arguments.Dictionary` and its coercion rules
  therefore come from those tests and are marked test-derived. The test fixes lower-case
  `true`/`false`, the integer `12`, plain text (also text holding a further `=`), a bare
  flag read as `true`, and that the last write wins. Reading booleans in any letter case
  (`TRUE`) and integers only from canonical numerals (so `007`, `-0` and `+5` stay text)
  are this model's choices, not fixed by the test.
- The "no command" notice is modelled verbatim, including the spelling "specifed"
  (`Cli.NoCommandNotice`, src/modules/cli.module.ts:63).

## Model

| member | source | states |
|---|---|---|
| `Text.Lower` | src/modules/cli.module.ts:106 | ASCII `toLowerCase`: same length, each upper-case letter lowered, others kept; the result is lower case and a lower-case input is returned unchanged |
| `Text.Split` | src/modules/cli.module.ts:40-41 | splitting at "\n" yields at least one piece and no piece contains a newline (inverse partner of the `join("\n")` used by the listing) |
| `Text.Join` | src/modules/cli.module.ts:41 | `join("\n")`: empty for no lines, begins with the first line, holds a newline once there are two; `JoinSplit`, `SplitJoin` and `JoinSnoc` state that splitting at newlines gives the lines back, and how appending a line extends the text |
| `Text.JoinSplit` | src/modules/cli.module.ts:40-41 | joining the pieces of any string with "\n" gives that string back |
| `Text.SplitJoin` | src/modules/cli.module.ts:40-41 | splitting the "\n"-join of a non-empty list of newline-free lines gives back exactly those lines, in order |
| `Text.JoinSnoc` | src/modules/cli.module.ts:40-41 | joining a non-empty list with one more line appends "\n" and that line |
| `Text.FirstIndexOf` | src/modules/cli.module.spec.ts:71 | returns the first position of the character, or none exactly when it does not occur |
| `Registry.IndexOfName` | src/modules/cli.module.ts:106 | index of the first command stored under exactly the key; none exactly when no command has that name |
| `Registry.GetCommand` | src/modules/cli.module.ts:105-107 | `getCommand` returns the first stored command whose name equals the lower-cased query, and none exactly when no stored name equals it (no prefix matching) |
| `Registry.TryRegister` | src/modules/cli.module.ts:45-53 | `register` fails with `Command "<name>" is already registered` exactly when some stored name equals the lower-cased name; otherwise appends one command under the lower-cased name at the end, earlier commands unchanged; lower-case distinct names stay so |
| `Registry.DuplicateIsCaseInsensitive` | src/modules/cli.module.ts:46-48 | after registering `a`, registering any `b` with the same lower-cased form fails |
| `Registry.LookupNewCommand` | src/modules/cli.module.ts:105-110 | after registering `name`, a query with the same lower-cased form finds the new command |
| `Registry.LookupOtherCommand` | src/modules/cli.module.ts:105-110 | appending a command changes the answer to no query whose lower-cased form differs from its name |
| `Registry.DuplicateMessage` | src/modules/cli.module.ts:47 | the thrown message is `Command "<name>" is already registered` and names the command exactly as typed |
| `Registry.HelpLine` | src/modules/cli.module.ts:41 | a listing line starts with the command's name; it is exactly the name without info, and the name followed by `\t\t\t` and the info otherwise |
| `Registry.HelpText` | src/modules/cli.module.ts:40-41 | the listing starts with the header `COMMAND\t\t\tINFO` and a newline; its line structure is stated by `HelpTextLines`, its growth by `HelpTextSnoc` |
| `Registry.HelpLines` | src/modules/cli.module.ts:40-41 | one listing line per registered command |
| `Registry.HelpTextLines` | src/modules/cli.module.ts:39-41 | the listing reads as the header `COMMAND\t\t\tINFO` followed by one line per command in registration order, each the name plus `\t\t\t` and the info when there is one, when no name or info contains a newline |
| `Registry.HelpTextSnoc` | src/modules/cli.module.ts:39-41 | the listing is computed when `help` runs: a command registered later adds its line at the end |
| `Arguments.ArgumentList` | src/modules/cli.module.ts:76 | the arguments a callback receives are the process arguments from index 3 on, in order, duplicates kept |
| `Arguments.NatToString` | src/modules/cli.module.spec.ts:72 | decimal printing yields digits only, with no leading zero |
| `Arguments.IntToString` | src/modules/cli.module.spec.ts:72 | (test-derived) `String(n)`: a leading `-` exactly for negative `n`, then a numeral without leading zero; round trip in `IntToStringRoundTrip` |
| `Arguments.ParseInt` | src/modules/cli.module.spec.ts:72 | (test-derived) base-10 parsing of a canonical numeral; negative exactly when it starts with `-`; round trip in `ParseIntRoundTrip` |
| `Arguments.IntToStringRoundTrip` | src/modules/cli.module.spec.ts:72 | (test-derived) every printed integer is a canonical numeral that parses back to it |
| `Arguments.ParseIntRoundTrip` | src/modules/cli.module.spec.ts:72 | (test-derived) a canonical numeral prints back to itself after parsing |
| `Arguments.Coerce` | src/modules/cli.module.spec.ts:80-85 | (test-derived: lower-case `true`/`false`, `12` and plain text; the letter-case and canonical-numeral rules are the model's choice) a boolean only for the words true/false in some letter case, an integer only when printing it gives the text back, otherwise the text unchanged; the converse directions are in `CoerceCases` |
| `Arguments.CoerceCases` | src/modules/cli.module.spec.ts:82-85 | (test-derived for lower-case `true`/`false`, `12` and plain text; any letter case and the canonical-numeral rule are the model's choice) a value is `true`/`false` exactly for those words in any case, an integer exactly when it is some integer's decimal text, and otherwise the text itself |
| `Arguments.CoerceIntToString` | src/modules/cli.module.spec.ts:82 | (test-derived) the decimal text of any integer is read as that integer |
| `Arguments.Key` | src/modules/cli.module.spec.ts:80-86 | (test-derived) the key is the longest `=`-free prefix of the token: the whole token when it has no `=`, else the text before the first `=` |
| `Arguments.EntryValue` | src/modules/cli.module.spec.ts:83-84 | (test-derived) a token without `=` gives `true`; a token with `=` gives `true` only when its value reads "true"; the full rule is `KeyValueToken` |
| `Arguments.Fold` | src/modules/cli.module.spec.ts:76-86 | (test-derived) writing each element's value under its key from left to right leaves exactly the elements' keys in the map |
| `Arguments.FoldLastWins` | src/modules/cli.module.spec.ts:85-86 | (test-derived) after the fold, a key holds the value of the last element carrying it |
| `Arguments.Dictionary` | src/modules/cli.module.spec.ts:68-89 | (test-derived) the fold over the tokens, keyed by the text before the first `=`: its keys are exactly the tokens' keys; values are stated by `LastWriteWins` |
| `Arguments.ArgumentDictionary` | src/modules/cli.module.spec.ts:79-88 | (test-derived) `argumentDictionary` is the fold over the arguments a callback receives (`argv[3..]`); its keys are exactly theirs |
| `Arguments.KeyValueToken` | src/modules/cli.module.spec.ts:80-81 | (test-derived) `k=v` splits at the first `=`; further `=` signs stay in the value |
| `Arguments.FlagToken` | src/modules/cli.module.spec.ts:83 | (test-derived) a token without `=` maps itself to `true` |
| `Arguments.LastWriteWins` | src/modules/cli.module.spec.ts:76-86 | (test-derived) a key maps to the value of the last token carrying it |
| `Cli.Dispatch` | src/modules/cli.module.ts:55-80 | no command exactly when there are at most two process arguments; not found (naming the token as typed) exactly when no stored name equals the lower-cased third argument; otherwise the command run is a registered one with that name and receives `argv[3..]` |
| `Cli.NotFoundNotice` | src/modules/cli.module.ts:72 | the notice is `Command "<token>" could not be found` and names the token exactly as typed |
| `Cli.Notices` | src/modules/cli.module.ts:59-80 | `invoke` itself logs at most one message, and none exactly when a user callback runs; a user callback's own output is the caller's (see Left out) |
| `Cli.RunsTheRegisteredCommand` | src/modules/cli.module.ts:68-76 | with distinct names, the command run is exactly the one stored under the lower-cased token, with the tokens after it |
| `Cli.HelpIsAlwaysAvailable` | src/modules/cli.module.ts:38-42 | in a valid registry, a token reading `help` in any letter case runs the built-in `help` command, which logs the listing of the whole registry |
| `Cli.CliModule.constructor` | src/modules/cli.module.ts:33-43 | a new module holds exactly the `help` command with info "Print this text", has logged nothing, and satisfies the registry invariant |
| `Cli.CliModule.Register` | src/modules/cli.module.ts:45-53 | on a duplicate, returns the thrown message and leaves `commands` unchanged; otherwise `commands` gains the command at the end and the method returns this object; the invariant (lower-case distinct names, `help` first) is kept |
| `Cli.CliModule.AddCommand` | src/modules/cli.module.ts:108-110 | appends the command under its lower-cased name |
| `Cli.CliModule.Invoke` | src/modules/cli.module.ts:55-80 | takes the branch `Dispatch` gives, appends exactly the notice `Notices` gives (the help listing of the registry as it stands when `help` runs) and changes nothing else; in a valid registry the command run is the one stored under the lower-cased token |
| `Cli.CliModule.Print` | src/modules/cli.module.ts:97-99 | appends the message unchanged to the log |
| `Scenarios.InvokeWithoutCommand` | src/modules/cli.module.spec.ts:23-31 | with no command token, `invoke` returns normally having logged only "No command was specifed" |
| `Scenarios.InvokeUnknownCommand` | src/modules/cli.module.ts:67-74 | an unknown token yields one notice `Command "<token>" could not be found` with the token as typed |
| `Scenarios.InvokeSpecificCommand` | src/modules/cli.module.spec.ts:32-48 | the registered command's callback runs, and its print is the only thing logged |
| `Scenarios.InvokeWithArguments` | src/modules/cli.module.spec.ts:59-66 | the callback receives exactly the two tokens after the command name |
| `Scenarios.InvokeHelp` | src/modules/cli.module.ts:38-42 | running `help` logs the listing of every command registered so far |
| `Scenarios.RegisterTwice` | src/modules/cli.module.ts:45-48 | registering two names with the same lower-cased form fails on the second call with the thrown message |

## Left out

- `prompt` (readline question/answer through a Promise): I/O only, nothing to state beyond returning the answer.
- `table`: a direct forward to the host console's `table`.
- The `IReadlineModule`, `IConsoleModule` and `IProcessModule` host objects: the console is the `log` sequence, the process is the `argv` constant.
- Cli.CliModule.Invoke: the `await` of a callback's Promise is not modelled; a callback runs as one synchronous step, and an error it throws (which `invoke` does not catch) is not modelled.
- Cli.CliModule.Invoke: a user callback's own effects are not modelled; `Invoke` reports which callback ran and with which arguments, and the caller performs the effect (as the scenarios do with `Print`).
- Cli.CliModule.Invoke: `argv` is fixed when the module is built; the host changing `process.argv` between construction and `invoke` is not modelled.
- Text.Lower: lower-cases ASCII letters only; JavaScript's `toLowerCase` also folds other Unicode letters.
- Arguments.Coerce: text that is not a canonical numeral stays text, including `NaN`, which JavaScript's `String(parseInt("NaN", 10))` gives back unchanged (the number NaN); the model reads integers only.
- Arguments.CoerceCases: integers are unbounded; JavaScript numbers lose precision beyond 2^53, so very long numerals would stay strings there.
- Cli.CliModule.Register: any caller may pass the `Help` handler. In the source, the help closure exists only inside the constructor, so users cannot register it; the model does not rule this out.
- The `man` text of a command is stored but never used by the code; `info` is used only in the listing.
