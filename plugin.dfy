/**
 * The plugin's teardown: put back the spew output function it replaced,
 * unregister every script command from the host, and empty the command
 * table.
 */
module Plugin {
  import opened Wrappers
  import opened HostState
  import opened JsValue
  import opened Commands

  /** tier0's spew output function: the host's own, or the colorizer. */
  datatype SpewOutputFunc = HostSpewOutput(id: nat) | ColorizingSpewOutput

  /** The handles of the commands in a table. */
  ghost function Handles(commands: map<string, Entry>): set<nat> {
    set name | name in commands :: commands[name].command
  }

  /** Distinct table entries hold distinct host commands. */
  ghost predicate DistinctHandles(commands: map<string, Entry>) {
    forall a, b | a in commands && b in commands && a != b :: commands[a].command != commands[b].command
  }

  /** `log` holds, position by position, the handle of each name in `order`. */
  ghost predicate LogFollows(log: seq<nat>, order: seq<string>, commands: map<string, Entry>) {
    && |log| == |order|
    && forall i | 0 <= i < |order| :: order[i] in commands && log[i] == commands[order[i]].command
  }

  /**
   * A log that follows an order visiting every name once holds every
   * entry's handle, each exactly once.
   */
  lemma LogCoversOnce(log: seq<nat>, order: seq<string>, commands: map<string, Entry>)
    requires LogFollows(log, order, commands) && DistinctHandles(commands)
    requires forall i, j | 0 <= i < j < |order| :: order[i] != order[j]
    requires forall k | k in commands :: k in order
    ensures forall name | name in commands :: commands[name].command in log
    ensures forall i, j | 0 <= i < j < |log| :: log[i] != log[j]
  {
    forall name | name in commands
      ensures commands[name].command in log
    {
      var i :| 0 <= i < |order| && order[i] == name;
      assert log[i] == commands[name].command;
    }
  }

  /**
   * Progress of the unregister loop: the names visited so far (`order`,
   * each once), the names still to visit, the handles passed to the host
   * (`log`, one per visited name) and the set of those handles (`done`).
   */
  ghost predicate Progress(commands: map<string, Entry>, remaining: set<string>, order: seq<string>,
                           log: seq<nat>, done: set<nat>)
  {
    && remaining <= commands.Keys
    && (forall k | k in order :: k !in remaining)
    && (forall k | k in commands :: k in remaining || k in order)
    && (forall i, j | 0 <= i < j < |order| :: order[i] != order[j])
    && LogFollows(log, order, commands)
    && done <= Handles(commands)
    && (forall k | k in order :: commands[k].command in done)
  }

  lemma ProgressStart(commands: map<string, Entry>)
    ensures Progress(commands, commands.Keys, [], [], {})
  {
  }

  lemma ProgressStep(commands: map<string, Entry>, remaining: set<string>, order: seq<string>,
                     log: seq<nat>, done: set<nat>, name: string)
    requires Progress(commands, remaining, order, log, done) && name in remaining
    ensures Progress(commands, remaining - {name}, order + [name], log + [commands[name].command],
                     done + {commands[name].command})
  {
    assert commands[name].command in Handles(commands);
  }

  /** When every name has been visited, the log holds each entry's handle exactly once. */
  lemma ProgressDone(commands: map<string, Entry>, order: seq<string>, log: seq<nat>, done: set<nat>)
    requires Progress(commands, {}, order, log, done) && DistinctHandles(commands)
    ensures done == Handles(commands)
    ensures |log| == |commands|
    ensures forall name | name in commands :: commands[name].command in log
    ensures forall i, j | 0 <= i < j < |log| :: log[i] != log[j]
  {
    LogCoversOnce(log, order, commands);
    DistinctCard(order, commands.Keys);
  }

  lemma {:induction false} DistinctCard<T>(s: seq<T>, keys: set<T>)
    requires forall i, j | 0 <= i < j < |s| :: s[i] != s[j]
    requires forall x | x in s :: x in keys
    requires forall x | x in keys :: x in s
    ensures |s| == |keys|
  {
    if |s| > 0 {
      var last := s[|s| - 1];
      var init := s[..|s| - 1];
      forall x | x in init
        ensures x in keys - {last}
      {
        var i :| 0 <= i < |init| && init[i] == x;
        assert s[i] == x;
      }
      DistinctCard(init, keys - {last});
    }
  }

  lemma RemoveOneMore(registered: map<nat, string>, done: set<nat>, handle: nat)
    ensures (registered - done) - {handle} == registered - (done + {handle})
  {
  }

  /**
   * The loop of Plugin::Unload: unregister the host command of every entry,
   * one call per entry, in an unspecified order.
   */
  method UnregisterAll(host: CommandHost, commands: map<string, Entry>)
    requires host.Valid() && DistinctHandles(commands)
    modifies host
    ensures host.Valid()
    ensures host.registered == old(host.registered) - Handles(commands)
    ensures host.nextHandle == old(host.nextHandle)
    ensures |host.unregistered| == |old(host.unregistered)| + |commands|
    ensures host.unregistered[..|old(host.unregistered)|] == old(host.unregistered)
    ensures forall name | name in commands :: commands[name].command in host.unregistered[|old(host.unregistered)|..]
    ensures forall i, j | |old(host.unregistered)| <= i < j < |host.unregistered| ::
              host.unregistered[i] != host.unregistered[j]
  {
    ghost var before, registeredBefore := host.unregistered, host.registered;
    var remaining := commands.Keys;
    ghost var order: seq<string> := [];
    ghost var log: seq<nat> := [];
    ghost var done: set<nat> := {};
    ProgressStart(commands);
    while remaining != {}
      invariant host.Valid() && host.nextHandle == old(host.nextHandle)
      invariant host.unregistered == before + log
      invariant host.registered == registeredBefore - done
      invariant Progress(commands, remaining, order, log, done)
      decreases remaining
    {
      var name :| name in remaining;
      var handle := commands[name].command;
      ProgressStep(commands, remaining, order, log, done, name);
      RemoveOneMore(registeredBefore, done, handle);
      host.Unregister(handle);
      order, log := order + [name], log + [handle];
      done := done + {handle};
      remaining := remaining - {name};
    }
    ProgressDone(commands, order, log, done);
    assert host.unregistered[|before|..] == log;
  }

  class Plugin {
    /** The spew output function tier0 currently calls. */
    var spewOutput: SpewOutputFunc
    /** s_original_spew_output_func: the function replaced by the colorizer, if it was. */
    var originalSpew: Option<SpewOutputFunc>
    const commandObject: CommandObject
    const host: CommandHost

    constructor (spewOutput: SpewOutputFunc, originalSpew: Option<SpewOutputFunc>,
                 commandObject: CommandObject, host: CommandHost)
      ensures this.spewOutput == spewOutput && this.originalSpew == originalSpew
      ensures this.commandObject == commandObject && this.host == host
    {
      this.spewOutput := spewOutput;
      this.originalSpew := originalSpew;
      this.commandObject := commandObject;
      this.host := host;
    }

    /**
     * Plugin::Unload. Every command in the table is unregistered from the
     * host exactly once (in the table's iteration order, which is not
     * specified), then the table is emptied.
     */
    method Unload() returns (ok: bool)
      requires commandObject.Valid(host)
      modifies this, commandObject`commands, host
      ensures ok
      ensures old(originalSpew).Some? ==> spewOutput == old(originalSpew).value && originalSpew == None
      ensures old(originalSpew).None? ==> spewOutput == old(spewOutput) && originalSpew == None
      ensures commandObject.commands == map[] && commandObject.Valid(host)
      ensures host.registered == old(host.registered) - Handles(old(commandObject.commands))
      ensures host.nextHandle == old(host.nextHandle)
      ensures |host.unregistered| == |old(host.unregistered)| + |old(commandObject.commands)|
      ensures host.unregistered[..|old(host.unregistered)|] == old(host.unregistered)
      ensures forall name | name in old(commandObject.commands) ::
                old(commandObject.commands)[name].command in host.unregistered[|old(host.unregistered)|..]
      ensures forall i, j | |old(host.unregistered)| <= i < j < |host.unregistered| ::
                host.unregistered[i] != host.unregistered[j]
    {
      if originalSpew.Some? {
        spewOutput := originalSpew.value;
        originalSpew := None;
      }

      UnregisterAll(host, commandObject.commands);
      commandObject.commands := map[];
      ok := true;
    }
  }

  /**
   * Registering a name a second time drops the first entry from the table
   * but leaves its host command registered; since Unload unregisters only
   * the handles in the table (Handles), that command outlives Unload.
   */
  method ReRegister(commandObject: CommandObject, host: CommandHost, name: string, first: Value, second: Value)
    returns (stale: nat)
    requires commandObject.Valid(host) && first.Function? && second.Function?
    modifies commandObject`commands, host
    ensures commandObject.Valid(host)
    ensures stale in host.registered && host.registered[stale] == name
    ensures stale !in Handles(commandObject.commands)
  {
    var args1, args2 := [Str(name), first], [Str(name), second];
    assert Argument(args1, 0) == Str(name) && Argument(args1, 1) == first;
    assert Argument(args2, 0) == Str(name) && Argument(args2, 1) == second;
    var r1 := commandObject.Register(host, args1);
    stale := commandObject.commands[name].command;
    var r2 := commandObject.Register(host, args2);
    assert stale in host.registered && host.registered[stale] == name;
    assert stale != commandObject.commands[name].command;
  }
}
