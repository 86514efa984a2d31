/**
 * The `Command` object of the scripting runtime: `register(name, callback)`
 * keeps a table from command name to (host command, callback) and creates a
 * host console command whose invocation calls the callback;
 * `execute(name)` runs a line through the server's command buffer; and
 * property reads and writes whose key names a console variable go to the
 * console-variable store instead of the object.
 */
module Commands {
  import opened Wrappers
  import opened JsValue
  import opened HostState

  /** A table entry: the host command's handle and the callback it runs. */
  datatype Entry = Entry(command: nat, callback: Value)

  /** A property key as the runtime classifies it. */
  datatype PropertyKey = StringKey(name: string) | NumberKey(index: nat) | SymbolKey(description: string)

  /** An own data property of the object. */
  datatype Property = Property(value: Value, writable: bool)

  /** How a callback returned: normally, or by throwing a value. */
  datatype CallOutcome = Returned(result: Value) | Threw(thrown: Value)

  const NotFoundWarning: string := "Script command handler was executed, but it couldn't find it's callback!\n"

  function CallbackWarning(description: string): string {
    "Script threw exception in it's command callback: " + description + "\n"
  }

  const NeverAsStringMessage: string := "ConVar has FCVAR_NEVER_AS_STRING flag"

  /** CCommand::Arg: the word at `i`, or the empty string past the end. */
  function Arg(argv: seq<string>, i: nat): (w: string)
    ensures i < |argv| ==> w == argv[i]
    ensures i >= |argv| ==> w == ""
  {
    if i < |argv| then argv[i] else ""
  }

  /** The callback's arguments: every word after the command name, as a string value, in order. */
  predicate IsMarshalled(argv: seq<string>, args: seq<Value>) {
    && |args| == (if |argv| == 0 then 0 else |argv| - 1)
    && forall i :: 0 <= i < |args| ==> args[i] == Str(argv[i + 1])
  }

  /** Builds the callback's argument vector from argv[1..ArgC-1]. */
  method MarshalArguments(argv: seq<string>) returns (args: seq<Value>)
    ensures IsMarshalled(argv, args)
  {
    args := [];
    var i := 1;
    while i < |argv|
      invariant 1 <= i <= |argv| || (|argv| == 0 && i == 1)
      invariant |args| == i - 1
      invariant forall j :: 0 <= j < |args| ==> args[j] == Str(argv[j + 1])
    {
      args := args + [Str(argv[i])];
      i := i + 1;
    }
  }

  /** Command.execute: queue `name` and a newline on the server command buffer, then run the buffer. */
  method Execute(engine: Engine, args: seq<Value>) returns (r: Completion<Value>)
    modifies engine
    ensures !Argument(args, 0).Str? ==>
              r == Throw(TypeError(NotAString, Argument(args, 0))) && engine.calls == old(engine.calls)
    ensures Argument(args, 0).Str? ==>
              && r == Normal(Undefined)
              && engine.calls == old(engine.calls) + [ServerCommand(Argument(args, 0).s + "\n"), ServerExecute]
  {
    var name := Argument(args, 0);
    if !name.Str? {
      return Throw(TypeError(NotAString, name));
    }
    engine.ServerCommand(name.s + "\n");
    engine.ServerExecute();
    r := Normal(Undefined);
  }

  class CommandObject {
    /** m_commands: command name to entry. */
    var commands: map<string, Entry>
    /** The object's own properties, for keys that are not console variables. */
    var properties: map<PropertyKey, Property>

    /**
     * Every entry holds a function and a host command that is still
     * registered under the entry's name; so no two entries share a handle.
     */
    ghost predicate Valid(host: CommandHost)
      reads this, host
    {
      && host.Valid()
      && forall name | name in commands ::
           && commands[name].callback.Function?
           && commands[name].command in host.registered
           && host.registered[commands[name].command] == name
    }

    /** `register` and `execute` are defined as read-only properties holding native functions. */
    constructor (host: CommandHost, registerFn: Value, executeFn: Value)
      requires host.Valid()
      ensures Valid(host)
      ensures commands == map[]
      ensures properties == map[StringKey("register") := Property(registerFn, false),
                                StringKey("execute") := Property(executeFn, false)]
    {
      commands := map[];
      properties := map[StringKey("register") := Property(registerFn, false),
                        StringKey("execute") := Property(executeFn, false)];
    }

    /** Command.register(name, callback). */
    method Register(host: CommandHost, args: seq<Value>) returns (r: Completion<Value>)
      requires Valid(host)
      modifies this`commands, host
      ensures Valid(host)
      ensures !Argument(args, 0).Str? ==>
                && r == Throw(TypeError(NotAString, Argument(args, 0)))
                && commands == old(commands) && unchanged(host)
      ensures Argument(args, 0).Str? && !Argument(args, 1).Function? ==>
                && r == Throw(TypeError(NotAFunction, Argument(args, 1)))
                && commands == old(commands) && unchanged(host)
      ensures Argument(args, 0).Str? && Argument(args, 1).Function? ==>
                && r == Normal(Undefined)
                && commands == old(commands)[Argument(args, 0).s := Entry(old(host.nextHandle), Argument(args, 1))]
                && host.registered == old(host.registered)[old(host.nextHandle) := Argument(args, 0).s]
                && host.nextHandle == old(host.nextHandle) + 1
                && host.unregistered == old(host.unregistered)
    {
      var name := Argument(args, 0);
      if !name.Str? {
        return Throw(TypeError(NotAString, name));
      }
      var callback := Argument(args, 1);
      if !callback.Function? {
        return Throw(TypeError(NotAFunction, callback));
      }
      var handle := host.Register(name.s);
      commands := commands[name.s := Entry(handle, callback)];
      r := Normal(Undefined);
    }

    /**
     * The handler every script command runs: find the entry for argv[0]
     * and call its callback with the remaining words. `invoke` stands for
     * the runtime calling a function; what the callback does besides
     * returning or throwing is not modelled. The call made, if any, is
     * returned. A thrown value is rendered with ToString under MUST, so a
     * value whose rendering throws aborts the host process (`aborted`)
     * before any warning is written.
     */
    method Dispatch(console: Console, argv: seq<string>, invoke: (Value, seq<Value>) -> CallOutcome)
      returns (call: Option<(Value, seq<Value>)>, aborted: bool)
      modifies console
      ensures Arg(argv, 0) !in commands ==>
                && call == None && !aborted
                && console.warnings == old(console.warnings) + [NotFoundWarning]
      ensures Arg(argv, 0) in commands ==>
                && call.Some?
                && call.value.0 == commands[Arg(argv, 0)].callback
                && IsMarshalled(argv, call.value.1)
                && match invoke(call.value.0, call.value.1)
                   case Returned(_) => !aborted && console.warnings == old(console.warnings)
                   case Threw(thrown) =>
                     match ToString(thrown)
                     case Normal(text) => !aborted && console.warnings == old(console.warnings) + [CallbackWarning(text)]
                     case Throw(_) => aborted && console.warnings == old(console.warnings)
    {
      aborted := false;
      var name := Arg(argv, 0);
      if name !in commands {
        console.Warning(NotFoundWarning);
        return None, false;
      }
      var entry := commands[name];
      var arguments := MarshalArguments(argv);
      call := Some((entry.callback, arguments));
      var outcome := invoke(entry.callback, arguments);
      if outcome.Threw? {
        var text := ToString(outcome.thrown);
        if text.Throw? {
          return call, true;
        }
        console.Warning(CallbackWarning(text.value));
      }
    }

    /** Reading an own property the ordinary way; a missing one reads as undefined. */
    function OrdinaryGet(key: PropertyKey): (v: Value)
      reads this
      ensures key !in properties ==> v == Undefined
    {
      if key in properties then properties[key].value else Undefined
    }

    /** The console variable a key names, if it is a string key naming one. */
    function ConVarFor(store: ConVarStore, key: PropertyKey): (r: Option<ConVar>)
      reads store
      ensures r.Some? <==> key.StringKey? && key.name in store.vars
    {
      if key.StringKey? then store.FindVar(key.name) else None
    }

    /** internal_get: console variables read as their string value unless flagged never-as-string. */
    function Get(store: ConVarStore, key: PropertyKey): (r: Completion<Value>)
      reads this, store
      ensures r.Throw? <==> ConVarFor(store, key).Some? && IsFlagSet(ConVarFor(store, key).value, FcvarNeverAsString)
      ensures r.Throw? ==> r.exception == Error(NeverAsStringMessage)
      ensures ConVarFor(store, key).Some? && !IsFlagSet(ConVarFor(store, key).value, FcvarNeverAsString) ==>
                r == Normal(Str(ConVarFor(store, key).value.value))
      ensures ConVarFor(store, key).None? ==> r == Normal(OrdinaryGet(key))
    {
      match ConVarFor(store, key)
      case Some(convar) =>
        if IsFlagSet(convar, FcvarNeverAsString) then Throw(Error(NeverAsStringMessage))
        else Normal(Str(convar.value))
      case None => Normal(OrdinaryGet(key))
    }

    /**
     * internal_set: a console variable takes the value's string form; any
     * other key is set on the object, which refuses to overwrite a
     * read-only property.
     */
    method Set(store: ConVarStore, key: PropertyKey, value: Value) returns (r: Completion<bool>)
      modifies this`properties, store
      ensures old(ConVarFor(store, key)).Some? ==>
                && properties == old(properties)
                && match ToString(value)
                   case Throw(e) => r == Throw(e) && store.vars == old(store.vars)
                   case Normal(text) =>
                     && r == Normal(true)
                     && store.vars == old(store.vars)[key.name := ConVar(text, old(store.vars)[key.name].flags)]
                     && Get(store, key) == if IsFlagSet(old(store.vars)[key.name], FcvarNeverAsString)
                                           then Throw(Error(NeverAsStringMessage)) else Normal(Str(text))
      ensures old(ConVarFor(store, key)).None? ==>
                && store.vars == old(store.vars)
                && if key in old(properties) && !old(properties)[key].writable
                   then r == Normal(false) && properties == old(properties)
                   else
                     && r == Normal(true)
                     && properties == old(properties)[key := Property(value, true)]
                     && Get(store, key) == Normal(value)
    {
      var convar := ConVarFor(store, key);
      if convar.Some? {
        var text := ToString(value);
        if text.Throw? {
          return Throw(text.exception);
        }
        store.SetValue(key.name, text.value);
        return Normal(true);
      }
      if key in properties && !properties[key].writable {
        return Normal(false);
      }
      properties := properties[key := Property(value, true)];
      r := Normal(true);
    }
  }
}
