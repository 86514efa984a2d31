/**
 * The parts of the game server the command bridge talks to, reduced to the
 * state they keep: the console-variable store, the console-command
 * registration surface, the console the Warning sink writes to, and the
 * engine's server command buffer. Each is a small object whose methods
 * record their effect and change nothing else.
 */
module HostState {
  import opened Wrappers

  /** FCVAR_NEVER_AS_STRING: the variable must not be read as a string. */
  const FcvarNeverAsString: bv32 := 0x1000

  datatype ConVar = ConVar(value: string, flags: bv32)

  predicate IsFlagSet(v: ConVar, flag: bv32) {
    v.flags & flag != 0
  }

  /** The console-variable store, by name. */
  class ConVarStore {
    var vars: map<string, ConVar>

    constructor (vars: map<string, ConVar>)
      ensures this.vars == vars
    {
      this.vars := vars;
    }

    function FindVar(name: string): (r: Option<ConVar>)
      reads this
      ensures r.Some? <==> name in vars
      ensures r.Some? ==> r.value == vars[name]
    {
      if name in vars then Some(vars[name]) else None
    }

    /** ConVar::SetValue with a string: stores the text, keeps the flags. */
    method SetValue(name: string, value: string)
      requires name in vars
      modifies this
      ensures vars == old(vars)[name := ConVar(value, old(vars)[name].flags)]
    {
      vars := vars[name := ConVar(value, vars[name].flags)];
    }
  }

  /** The host's console-command registration surface. */
  class CommandHost {
    /** Registered commands by handle, with the name each was created under. */
    var registered: map<nat, string>
    /** The handle the next registration receives. */
    var nextHandle: nat
    /** Every handle passed to UnregisterConCommandBase, in order. */
    var unregistered: seq<nat>

    ghost predicate Valid()
      reads this
    {
      forall h | h in registered :: h < nextHandle
    }

    constructor ()
      ensures Valid() && registered == map[] && nextHandle == 0 && unregistered == []
    {
      registered, nextHandle, unregistered := map[], 0, [];
    }

    /** Creating a ConCommand registers it with the host under a fresh handle. */
    method Register(name: string) returns (handle: nat)
      requires Valid()
      modifies this
      ensures Valid()
      ensures handle == old(nextHandle) && handle !in old(registered)
      ensures registered == old(registered)[handle := name]
      ensures nextHandle == old(nextHandle) + 1 && unregistered == old(unregistered)
    {
      handle := nextHandle;
      registered := registered[handle := name];
      nextHandle := nextHandle + 1;
    }

    method Unregister(handle: nat)
      requires Valid()
      modifies this
      ensures Valid()
      ensures registered == old(registered) - {handle}
      ensures unregistered == old(unregistered) + [handle]
      ensures nextHandle == old(nextHandle)
    {
      registered := registered - {handle};
      unregistered := unregistered + [handle];
    }
  }

  /** The server console, as far as the Warning sink writes to it. */
  class Console {
    var warnings: seq<string>

    constructor ()
      ensures warnings == []
    {
      warnings := [];
    }

    method Warning(text: string)
      modifies this
      ensures warnings == old(warnings) + [text]
    {
      warnings := warnings + [text];
    }
  }

  datatype EngineCall = ServerCommand(text: string) | ServerExecute

  /** The engine server's command buffer, as the calls made to it. */
  class Engine {
    var calls: seq<EngineCall>

    constructor ()
      ensures calls == []
    {
      calls := [];
    }

    method ServerCommand(text: string)
      modifies this
      ensures calls == old(calls) + [EngineCall.ServerCommand(text)]
    {
      calls := calls + [EngineCall.ServerCommand(text)];
    }

    method ServerExecute()
      modifies this
      ensures calls == old(calls) + [EngineCall.ServerExecute]
    {
      calls := calls + [EngineCall.ServerExecute];
    }
  }
}
