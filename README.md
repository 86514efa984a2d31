# Cosmo core, modelled in Dafny

Cosmo is a game-server plugin that embeds a JavaScript runtime and exposes
server objects to scripts. Almost all of it is glue over the closed host and
the external runtime. This project models the three pieces of sequential
logic in it that stand on their own, and proves what they do:

- **The spew colorizer** (`spew.dfy`, with `decimal.dfy`). This is the
  replacement spew output function. A message of type SPEW_LOG, or a message
  in default white whose type has no fallback colour, goes to the original
  output function unchanged. Any other message is wrapped in an ANSI 24-bit
  foreground escape (`ESC[38;2;R;G;Bm`), and the reset `ESC[0m` goes in
  front of a trailing newline. An independent reader, `Decolorize`, recovers
  the colour and the message from the output. Its round trip is the
  colorizer's main property. The console printer's mapping from log level
  to sink is in `printer.dfy`.
- **The nested send-table walk** (`send_tables.dfy`). `find_and_add_children`
  takes a map passed by reference. Here the map is an in/out value. The
  method is proved equal to a specification function, `Collect`. Lemmas
  then say exactly what `Collect` leaves in the map:
  - the old keys plus the name of every nested table reachable through
    DPT_DataTable properties;
  - each entry is either the old entry, or a reachable table filed under
    its own name.
- **The script command registry** (`commands.dfy`, `plugin.dfy`, with
  `js_value.dfy` and `host_state.dfy`). `CommandObject` holds the
  `m_commands` table, and its methods check their arguments as the native
  functions do. Dispatch marshals `argv[1..]` as strings and reports a
  throwing callback as a warning, or aborts the host when the thrown
  value cannot be converted to a string. Property reads and writes on a key that
  names a console variable go to the variable store. Unload unregisters
  every command from the host exactly once and empties the table. Host
  effects are small objects that record what was done to them:
  - command registration;
  - the Warning console;
  - the server command buffer;
  - the console-variable store.

`ReRegister` shows a consequence of `m_commands.set` replacing an entry.
When a name is registered twice, the first host command leaves the table
but stays registered with the host. Unload unregisters only the handles in
the table, so it never unregisters that command.

## Model

| member | source | states |
|---|---|---|
| `Decimal.ParseDigits` | src/Cosmo.cpp:155 | the decimal rendering of a colour channel reads back as the same number, and parsing stops exactly where the rendering ends |
| `Decimal.IntStringRoundTrip` | src/Scripting/Command.cpp:46 | the string form of an integral number parses back to that number |
| `Spew.ChosenColor` | src/Cosmo.cpp:131-147 | SPEW_LOG gets no colour; a colour other than (255,255,255) is kept; white is replaced by the type's slot in the default table, which may be empty |
| `Spew.Enclose` | src/Cosmo.cpp:158-168 | the output is the message followed by the reset, four characters longer (ESC `[0m`); if the message ends in a newline, the message without it comes first, then the reset, then that final newline |
| `Spew.Colorize` | src/Cosmo.cpp:128-171 | the message is passed through unchanged exactly when the type is SPEW_LOG, or the colour is white and the type's slot is empty; otherwise decolorizing the output gives back the chosen colour and the original message |
| `Spew.Forwarded` | src/Cosmo.cpp:131-132 | the original output function receives a SPEW_LOG message, or any untouched message, byte for byte |
| `Spew.DecolorizeWrap` | src/Cosmo.cpp:153-168 | stripping the escape prefix and the reset from a wrapped message yields the colour and the message |
| `Spew.RecoloredShape` | src/Cosmo.cpp:155-168 | the exact output: prefix, message without its newline, reset, newline; or prefix, message, reset; the output ends in a newline exactly when the message does |
| `Spew.EscapeColor` | src/Cosmo.cpp:19-24 | a non-white colour is the one in the escape; for white, SPEW_WARNING gives (255,90,90), SPEW_ASSERT (255,20,20), SPEW_ERROR (20,70,255), and SPEW_MESSAGE (empty slot) is passed through |
| `Spew.LogNeverTouched` | src/Cosmo.cpp:130-132 | a SPEW_LOG message is forwarded unchanged whatever the colour |
| `Printer.SinkFor` | src/Cosmo.cpp:46-68 | Debug goes to ConColorMsg (50,170,80); Error and Assert to ConColorMsg (255,0,0); Info to ConColorMsg (170,220,255); Warn and CountReset to Warning; every other level to Msg (each as an if-and-only-if) |
| `Printer.Print` | src/Cosmo.cpp:37-71 | a call with values emits, on its level's sink, the values joined by single spaces and then a newline, for every list of values; that text without its newline splits on spaces back into the values when none contains a space (just the newline for no values); group and trace arguments emit nothing |
| `Printer.SplitJoin` | src/Cosmo.cpp:44 | splitting the joined line on the separator gives back the values, when no value contains it |
| `SendTables.Child` | src/Cosmo.cpp:234-238 | a property leads the walk into a table exactly when it is of type DPT_DataTable and its table is not null |
| `SendTables.FindAndAddChildren` | src/Cosmo.cpp:230-245 | the loop over the properties, with its recursion, leaves the map equal to `Collect` of the map and the table |
| `SendTables.CollectContents` | src/Cosmo.cpp:230-245 | the keys afterwards are the old keys plus the names of all reachable nested tables; each entry is the untouched old entry (its name reaches no table) or a reachable table under its own name |
| `SendTables.ReachableRecorded` | src/Cosmo.cpp:240-241 | every nested table reachable through DPT_DataTable properties is in the map under its name |
| `SendTables.UniqueNameRecorded` | src/Cosmo.cpp:240 | a reachable table whose name no other reachable table shares is the map's entry for that name |
| `SendTables.CollectGrows` | src/Cosmo.cpp:230-245 | pre-existing keys remain and the map never shrinks |
| `SendTables.LeafAddsNothing` | src/Cosmo.cpp:232-235 | a table with no non-null DPT_DataTable property leaves the map as it was |
| `JsValue.Argument` | src/Scripting/Command.cpp:87 | a missing argument reads as undefined |
| `JsValue.ToString` | src/Scripting/Command.cpp:46 | converting a value to a string fails, with a TypeError, exactly for a symbol; a string converts to itself, a number to a rendering that parses back to it; every other value, error objects included, converts |
| `HostState.ConVarStore.FindVar` | src/Scripting/Command.cpp:25-26 | a variable is found exactly when the store has that name |
| `HostState.ConVarStore.SetValue` | src/Scripting/Command.cpp:47 | the variable takes the new string and keeps its flags; no other variable changes |
| `HostState.CommandHost.Register` | src/Scripting/Command.cpp:99 | creating a console command registers it under a fresh handle and changes nothing else |
| `HostState.CommandHost.Unregister` | src/Cosmo.cpp:121 | unregistering removes the handle and records the call |
| `HostState.Console.Warning` | src/Scripting/Command.cpp:66 | a warning appends one line to the console |
| `HostState.Engine.ServerCommand` | src/Scripting/Command.cpp:111-112 | the text is appended to the server command buffer |
| `HostState.Engine.ServerExecute` | src/Scripting/Command.cpp:113 | the buffer is executed after what was queued before |
| `Commands.Arg` | src/Scripting/Command.cpp:63 | the command name is word 0, or empty past the end |
| `Commands.MarshalArguments` | src/Scripting/Command.cpp:70-73 | the callback gets ArgC-1 string values equal to argv[1..ArgC-1], in order |
| `Commands.Execute` | src/Scripting/Command.cpp:105-116 | a non-string name throws NotAString and issues nothing; otherwise exactly `name + "\n"` is queued and then the buffer is executed |
| `Commands.CommandObject.constructor` | src/Scripting/Command.cpp:13-19 | the table starts empty; `register` and `execute` are read-only own properties |
| `Commands.CommandObject.Register` | src/Scripting/Command.cpp:85-103 | a non-string name throws NotAString, then a non-function callback throws NotAFunction, and neither changes the table or the host; success maps the name to a freshly registered host command and the callback, replacing an earlier entry and leaving all others unchanged |
| `Commands.CommandObject.Dispatch` | src/Scripting/Command.cpp:61-83 | an unknown argv[0] logs one warning and calls nothing; a known one calls its callback with the marshalled arguments, and a thrown value that converts to a string becomes one warning line and is not propagated, while one whose conversion throws (a symbol) aborts the host with no warning; Dispatch itself does not write the table |
| `Commands.CommandObject.OrdinaryGet` | src/Scripting/Command.cpp:35 | a key that is not an own property reads as undefined |
| `Commands.CommandObject.ConVarFor` | src/Scripting/Command.cpp:23-26 | only a string key that names a stored variable selects a console variable |
| `Commands.CommandObject.Get` | src/Scripting/Command.cpp:21-36 | reading throws exactly for a variable with FCVAR_NEVER_AS_STRING, any other variable reads as its string value; a key that names no variable falls through to the object |
| `Commands.CommandObject.Set` | src/Scripting/Command.cpp:38-53 | writing a variable stores the value's string form and returns true, after which reading it gives that string back (or throws if flagged); a failed conversion throws and stores nothing; other keys are set on the object and read back, except that a read-only property refuses with false |
| `Plugin.UnregisterAll` | src/Cosmo.cpp:120-121 | each entry's host command is unregistered exactly once and nothing else is |
| `Plugin.Plugin.Unload` | src/Cosmo.cpp:110-126 | the original spew function is put back and forgotten; every command in the table is unregistered exactly once; the table is then empty |
| `Plugin.ReRegister` | src/Scripting/Command.cpp:97-100 | after registering one name twice, the first host command is still registered under that name but is no longer among the table's handles, which are the only ones Unload unregisters |

## Left out

- `Plugin::Load` (src/Cosmo.cpp:73-108) is host interface lookup and spew hook installation, so it is not modelled. Unload's restoring of the spew function is modelled.
- `cosmo_run` (src/Cosmo.cpp:173-228) reads a file and runs it in the external runtime, so it is not modelled.
- `cosmo_dump` builds JSON and writes a file (src/Cosmo.cpp:247-313). Only the walk it calls is modelled.
- `visit_edges` is garbage-collector tracing, so it is not modelled.
- src/Scripting/Server.cpp, src/Types.h and src/Scripting/EntityPrototype.h are not part of this model. They are single host calls, a virtual-table slot call, and declarations.
- The code has no guard against revisiting a table, and the model follows the code. The walk is modelled over finite, acyclic tables, so a cyclic table graph, on which the code would not terminate, is outside the model.
- Spew.Enclose: in the branch without a trailing newline, the message passes through `appendff`, where it is read as a format string. Braces in such a message could be reinterpreted. The model appends the message verbatim.
- Spew.Colorize: models the text handed to the original output function. The return value of that function is passed back unchanged and is not modelled. The colour's alpha channel is never read.
- Printer.Print: the values arrive already rendered as text, because the runtime's value formatting is external. Levels the plugin does not name fall into the default branch. The joined text reaches the sink through `%s` as a C string, so the host prints it only up to the first U+0000; the model emits the whole joined text, so a value containing U+0000 is not modelled faithfully.
- Commands.CommandObject.Dispatch: the callback is a parameter that returns or throws. Its own effects are not modelled, so a callback that registers a command, and thereby changes the table, is outside the model. A thrown value is rendered by ToString, so only a symbol makes the rendering fail and abort the host; an object whose own `toString` throws, which aborts it too, is not modelled. The host never calls the handler with zero words, so `ensure_capacity(ArgC() - 1)` with ArgC 0 is not modelled.
- Commands.Execute: `ServerExecute` runs the buffered line at once. What that line does (a console variable set, another script command dispatched, any engine command) is not modelled; the model only records that the buffer was executed.
- Commands.Execute, Commands.CommandObject.Get, Commands.CommandObject.Set, Commands.CommandObject.Register, Commands.CommandObject.Dispatch: every string handed to the host (the queued line, the console-variable name and new value, the host command name, the warning text) is a C string, so the host reads it only up to the first U+0000. The model passes strings whole; a string containing U+0000 is therefore not modelled faithfully (for example, a key such as `sv_cheats` followed by U+0000 and more text finds `sv_cheats` in the host but no variable in the model).
- Commands.CommandObject.Register: the receiver conversion (`this_value` with `verify_cast`) is taken to succeed. The lifetime of the replaced host command object is not modelled.
- Commands.CommandObject.Get: the prototype chain, accessor properties and a receiver other than the object itself are not modelled. The store is looked up by exact name, so the host's case-insensitive lookup is not modelled. The runtime's classification of numeric strings as index keys is represented only by the key kind.
- Commands.CommandObject.OrdinaryGet: the prototype chain is not consulted, so a key that Object.prototype supplies (such as `toString`) reads as undefined here.
- Commands.CommandObject.Set: the same object-model simplifications as Get apply. The host's numeric parsing of the new value, its range clamping and its change callbacks are not modelled.
- JsValue.ToString: numbers are integers of magnitude at most 2^53 - 1 only; fractions, larger integers (which the runtime rounds and writes with trailing zeros or as `1e+21`) and NaN or infinities are not modelled. Objects other than functions and error objects, which would run user `toString` code, are not modelled.
