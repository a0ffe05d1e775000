/**
 * The plugin registry of the bot as values: the entries `{name, plugin}` it
 * keeps in load order, the command list they make up, and what the batch
 * operations (load all, unload all, reload) leave behind.
 */
module Plugins {
  import opened JsString

  /** Which command implementation a registered command runs. */
  datatype Handler = TagHandler | CodeHandler | PurgeHandler | QuoteHandler | GameHandler | EvalHandler

  datatype CommandEntry = CommandEntry(name: string, handler: Handler)

  /** One loaded plugin: its name and the commands its `init` registered. */
  datatype PluginEntry = PluginEntry(name: string, commands: seq<CommandEntry>)

  /** The errors the bot reports, to the caller or on its 'error' channel. */
  datatype BotError =
    | AlreadyLoaded(plugin: string)
    | ModuleNotFound(plugin: string)
    | InitFailed(plugin: string)
    | NoPlugin(plugin: string)
    | TeardownFailed(plugin: string)
    | RequestFailed(status: int)

  /** A message a command sends back to the channel: framed by `Util.wrap`,
      or as plain text. */
  datatype Reply = Wrapped(text: string) | Plain(text: string)

  /** The sub-command of a command's suffix, as the `tag` and `game` commands
      read it: the first space/newline-delimited token, lowercased. */
  function SubCommand(suffix: string): string {
    ToLower(FirstToken(suffix))
  }

  /** The plugin modules present under plugins/ and the commands each one's
      `init` registers, in registration order. Any other name fails to load
      because `require` finds no module. */
  function Catalog(name: string): Option<seq<CommandEntry>> {
    if name == "chat" then
      Some([CommandEntry("tag", TagHandler), CommandEntry("code", CodeHandler),
            CommandEntry("purge", PurgeHandler), CommandEntry("quote", QuoteHandler)])
    else if name == "status" then Some([CommandEntry("game", GameHandler)])
    else if name == "eval" then Some([CommandEntry("eval", EvalHandler)])
    else None
  }

  /** At most one entry per plugin name. */
  ghost predicate UniqueNames(plugins: seq<PluginEntry>) {
    forall i, j :: 0 <= i < j < |plugins| ==> plugins[i].name != plugins[j].name
  }

  ghost predicate HasPlugin(plugins: seq<PluginEntry>, name: string) {
    exists i :: 0 <= i < |plugins| && plugins[i].name == name
  }

  /** `plugins.findIndex(element => element.name === name)`. */
  function IndexOf(plugins: seq<PluginEntry>, name: string): (r: Option<nat>)
    ensures r.Some? ==> r.value < |plugins| && plugins[r.value].name == name
    ensures r.Some? ==> forall j :: 0 <= j < r.value ==> plugins[j].name != name
    ensures r.None? <==> !HasPlugin(plugins, name)
  {
    if plugins == [] then None
    else if plugins[0].name == name then Some(0)
    else
      match IndexOf(plugins[1..], name)
      case None => None
      case Some(k) => Some(k + 1)
  }

  /** The getter `commands`: each plugin's commands, concatenated in plugin order. */
  function Commands(plugins: seq<PluginEntry>): seq<CommandEntry> {
    if plugins == [] then [] else Commands(plugins[..|plugins| - 1]) + plugins[|plugins| - 1].commands
  }

  /** A command is visible exactly when some loaded plugin registered it. */
  lemma {:induction false} CommandsFromPlugins(plugins: seq<PluginEntry>, c: CommandEntry)
    ensures c in Commands(plugins) <==> exists i :: 0 <= i < |plugins| && c in plugins[i].commands
  {
    if plugins != [] {
      var init := plugins[..|plugins| - 1];
      CommandsFromPlugins(init, c);
      if c in Commands(plugins) && c !in plugins[|plugins| - 1].commands {
        var i :| 0 <= i < |init| && c in init[i].commands;
        assert plugins[i] == init[i];
      }
      if exists i :: 0 <= i < |plugins| && c in plugins[i].commands {
        var i :| 0 <= i < |plugins| && c in plugins[i].commands;
        if i < |init| {
          assert init[i] == plugins[i];
        }
      }
    }
  }

  /** Appending a plugin appends its commands after all earlier ones. */
  lemma {:induction false} CommandsAppend(plugins: seq<PluginEntry>, p: PluginEntry)
    ensures Commands(plugins + [p]) == Commands(plugins) + p.commands
  {
    assert (plugins + [p])[..|plugins|] == plugins;
  }

  // ---------------------------------------------------------------------
  // Loading.

  /** The registry after `load(name)`: unchanged when the name is taken or no
      module has that name; otherwise the new entry goes at the end. A failing
      `init` does not undo the push, so the registry does not depend on it. */
  function AfterLoad(plugins: seq<PluginEntry>, name: string): (r: seq<PluginEntry>)
    ensures |plugins| <= |r| <= |plugins| + 1 && r[..|plugins|] == plugins
    ensures |r| == |plugins| + 1 <==> !HasPlugin(plugins, name) && Catalog(name).Some?
  {
    if IndexOf(plugins, name).Some? || Catalog(name).None? then plugins
    else plugins + [PluginEntry(name, Catalog(name).value)]
  }

  /** The error `load(name)` fails with, if any. */
  function LoadError(plugins: seq<PluginEntry>, name: string, initOk: bool): (r: Option<BotError>)
    ensures r.None? <==> !HasPlugin(plugins, name) && Catalog(name).Some? && initOk
    ensures r.Some? && !r.value.InitFailed? ==> AfterLoad(plugins, name) == plugins
  {
    if IndexOf(plugins, name).Some? then Some(AlreadyLoaded(name))
    else if Catalog(name).None? then Some(ModuleNotFound(name))
    else if !initOk then Some(InitFailed(name))
    else None
  }

  /** The registry after `load()` walked `names` one by one. */
  ghost function AfterLoadAll(plugins: seq<PluginEntry>, names: seq<string>): (r: seq<PluginEntry>)
    ensures |plugins| <= |r| <= |plugins| + |names|
  {
    if names == [] then plugins
    else AfterLoad(AfterLoadAll(plugins, names[..|names| - 1]), names[|names| - 1])
  }

  /** The errors `load()` caught and reported, in order. */
  ghost function LoadAllErrors(plugins: seq<PluginEntry>, names: seq<string>, initOk: string -> bool): (r: seq<BotError>)
    ensures |r| <= |names|
  {
    if names == [] then []
    else
      var before := AfterLoadAll(plugins, names[..|names| - 1]);
      var last := names[|names| - 1];
      LoadAllErrors(plugins, names[..|names| - 1], initOk) + ErrorList(LoadError(before, last, initOk(last)))
  }

  /** The error a step reports, as a list of zero or one. */
  function ErrorList(e: Option<BotError>): seq<BotError> {
    match e
    case None => []
    case Some(err) => [err]
  }

  /** One more configured name, seen from the start of load-all. */
  lemma {:induction false} LoadAllStep(plugins: seq<PluginEntry>, names: seq<string>, i: nat, initOk: string -> bool)
    requires i < |names|
    ensures AfterLoadAll(plugins, names[..i + 1]) == AfterLoad(AfterLoadAll(plugins, names[..i]), names[i])
    ensures LoadAllErrors(plugins, names[..i + 1], initOk) ==
              LoadAllErrors(plugins, names[..i], initOk) +
              ErrorList(LoadError(AfterLoadAll(plugins, names[..i]), names[i], initOk(names[i])))
  {
    assert names[..i + 1][..i] == names[..i];
  }

  /** Load never registers a second entry under a name. */
  lemma {:induction false} AfterLoadKeepsUnique(plugins: seq<PluginEntry>, name: string)
    requires UniqueNames(plugins)
    ensures UniqueNames(AfterLoad(plugins, name))
  {
  }

  lemma {:induction false} AfterLoadAllKeepsUnique(plugins: seq<PluginEntry>, names: seq<string>)
    requires UniqueNames(plugins)
    ensures UniqueNames(AfterLoadAll(plugins, names))
  {
    if names != [] {
      AfterLoadAllKeepsUnique(plugins, names[..|names| - 1]);
      AfterLoadKeepsUnique(AfterLoadAll(plugins, names[..|names| - 1]), names[|names| - 1]);
    }
  }

  /** Load-all only appends: the entries that were there stay, in place. */
  lemma {:induction false} AfterLoadAllExtends(plugins: seq<PluginEntry>, names: seq<string>)
    ensures |plugins| <= |AfterLoadAll(plugins, names)|
    ensures AfterLoadAll(plugins, names)[..|plugins|] == plugins
  {
    if names != [] {
      AfterLoadAllExtends(plugins, names[..|names| - 1]);
    }
  }

  /** After load-all, a plugin is registered exactly when it was before or
      its name is listed and a module of that name exists. */
  lemma {:induction false} AfterLoadAllRegisters(plugins: seq<PluginEntry>, names: seq<string>, name: string)
    ensures HasPlugin(AfterLoadAll(plugins, names), name) <==>
            HasPlugin(plugins, name) || (name in names && Catalog(name).Some?)
  {
    if names != [] {
      var init := names[..|names| - 1];
      var before := AfterLoadAll(plugins, init);
      AfterLoadAllRegisters(plugins, init, name);
      assert names == init + [names[|names| - 1]];
      var after := AfterLoad(before, names[|names| - 1]);
      if HasPlugin(before, name) {
        var i :| 0 <= i < |before| && before[i].name == name;
        assert after[i] == before[i];
      }
      var last := names[|names| - 1];
      if !HasPlugin(before, name) {
        if name == last && Catalog(name).Some? {
          assert after[|before|].name == name;
        }
        if HasPlugin(after, name) {
          var i :| 0 <= i < |after| && after[i].name == name;
          assert i == |before| && name == last;
        }
      }
      assert name in names <==> name in init || name == last;
    }
  }

  /** Every entry load-all added is a listed name with the commands its
      module registers. */
  lemma {:induction false} AfterLoadAllEntries(plugins: seq<PluginEntry>, names: seq<string>, i: nat)
    requires |plugins| <= i < |AfterLoadAll(plugins, names)|
    ensures AfterLoadAll(plugins, names)[i].name in names
    ensures Catalog(AfterLoadAll(plugins, names)[i].name) == Some(AfterLoadAll(plugins, names)[i].commands)
  {
    var init := names[..|names| - 1];
    var before := AfterLoadAll(plugins, init);
    AfterLoadAllExtends(plugins, init);
    if i < |before| {
      AfterLoadAllEntries(plugins, init, i);
    }
  }

  // ---------------------------------------------------------------------
  // Unloading.

  /** The registry after `unload()` worked through a snapshot of `plugins`:
      exactly the entries whose teardown failed stay, in their order. */
  function Surviving(plugins: seq<PluginEntry>, teardownOk: string -> bool): (r: seq<PluginEntry>)
    ensures |r| <= |plugins|
  {
    if plugins == [] then []
    else
      var init := Surviving(plugins[..|plugins| - 1], teardownOk);
      var last := plugins[|plugins| - 1];
      if teardownOk(last.name) then init else init + [last]
  }

  /** The errors `unload()` caught and reported, in order. */
  function UnloadAllErrors(plugins: seq<PluginEntry>, teardownOk: string -> bool): (r: seq<BotError>)
    ensures |r| == |Surviving(plugins, teardownOk)|
    ensures forall i :: 0 <= i < |r| ==> r[i] == TeardownFailed(Surviving(plugins, teardownOk)[i].name)
  {
    if plugins == [] then []
    else
      var last := plugins[|plugins| - 1];
      UnloadAllErrors(plugins[..|plugins| - 1], teardownOk) +
      (if teardownOk(last.name) then [] else [TeardownFailed(last.name)])
  }

  /** An entry survives unload-all exactly when it was loaded and its own
      teardown failed, whatever the other teardowns do. */
  lemma {:induction false} SurvivingMembers(plugins: seq<PluginEntry>, teardownOk: string -> bool, p: PluginEntry)
    ensures p in Surviving(plugins, teardownOk) <==> p in plugins && !teardownOk(p.name)
  {
    if plugins != [] {
      var init := plugins[..|plugins| - 1];
      var last := plugins[|plugins| - 1];
      SurvivingMembers(init, teardownOk, p);
      assert plugins == init + [last];
      assert p in plugins <==> p in init || p == last;
    }
  }

  /** When every teardown succeeds, unload-all empties the registry. */
  lemma {:induction false} SurvivingAllOk(plugins: seq<PluginEntry>, teardownOk: string -> bool)
    requires forall p :: p in plugins ==> teardownOk(p.name)
    ensures Surviving(plugins, teardownOk) == []
  {
    if plugins != [] {
      SurvivingAllOk(plugins[..|plugins| - 1], teardownOk);
    }
  }

  /** Unload-all keeps names unique. */
  lemma {:induction false} SurvivingKeepsUnique(plugins: seq<PluginEntry>, teardownOk: string -> bool)
    requires UniqueNames(plugins)
    ensures UniqueNames(Surviving(plugins, teardownOk))
  {
    if plugins != [] {
      var init := plugins[..|plugins| - 1];
      var last := plugins[|plugins| - 1];
      SurvivingKeepsUnique(init, teardownOk);
      var s := Surviving(init, teardownOk);
      forall p | p in s
        ensures p.name != last.name
      {
        SurvivingMembers(init, teardownOk, p);
      }
    }
  }

  // ---------------------------------------------------------------------
  // Reloading.

  /** The registry after `reload()`: unload all, then load all of `names`. */
  ghost function AfterReload(plugins: seq<PluginEntry>, names: seq<string>, teardownOk: string -> bool): (r: seq<PluginEntry>)
    ensures var kept := Surviving(plugins, teardownOk); |kept| <= |r| && r[..|kept|] == kept
  {
    AfterLoadAllExtends(Surviving(plugins, teardownOk), names);
    AfterLoadAll(Surviving(plugins, teardownOk), names)
  }

  /** With teardowns that succeed, reload forgets the previous registry: its
      result depends only on the configured names. */
  lemma {:induction false} ReloadForgetsPrevious(plugins: seq<PluginEntry>, names: seq<string>, teardownOk: string -> bool)
    requires forall p :: p in plugins ==> teardownOk(p.name)
    ensures AfterReload(plugins, names, teardownOk) == AfterLoadAll([], names)
  {
    SurvivingAllOk(plugins, teardownOk);
  }

  /** Reloading twice with the same configuration gives the same registry,
      and so the same command set, as reloading once. */
  lemma {:induction false} ReloadIdempotent(plugins: seq<PluginEntry>, names: seq<string>, teardownOk: string -> bool)
    requires forall n :: teardownOk(n)
    ensures AfterReload(AfterReload(plugins, names, teardownOk), names, teardownOk) == AfterReload(plugins, names, teardownOk)
    ensures Commands(AfterReload(AfterReload(plugins, names, teardownOk), names, teardownOk)) ==
            Commands(AfterReload(plugins, names, teardownOk))
  {
    ReloadForgetsPrevious(plugins, names, teardownOk);
    ReloadForgetsPrevious(AfterReload(plugins, names, teardownOk), names, teardownOk);
  }

  /** The command set after a reload whose teardowns succeed: exactly the
      commands registered by the listed plugins that exist. */
  lemma {:induction false} ReloadCommandSet(plugins: seq<PluginEntry>, names: seq<string>, teardownOk: string -> bool, c: CommandEntry)
    requires forall p :: p in plugins ==> teardownOk(p.name)
    ensures c in Commands(AfterReload(plugins, names, teardownOk)) <==>
            exists n :: n in names && Catalog(n).Some? && c in Catalog(n).value
  {
    ReloadForgetsPrevious(plugins, names, teardownOk);
    var after := AfterLoadAll([], names);
    CommandsFromPlugins(after, c);
    if c in Commands(after) {
      var i :| 0 <= i < |after| && c in after[i].commands;
      AfterLoadAllEntries([], names, i);
    }
    if exists n :: n in names && Catalog(n).Some? && c in Catalog(n).value {
      var n :| n in names && Catalog(n).Some? && c in Catalog(n).value;
      AfterLoadAllRegisters([], names, n);
      var i :| 0 <= i < |after| && after[i].name == n;
      AfterLoadAllEntries([], names, i);
    }
  }

  // ---------------------------------------------------------------------
  // The batch walks as the code runs them.
  //
  // `load()` and `unload()` hand each failure to `.catch(this.error)`. The
  // method `error` is never bound to the bot, so the promise machinery calls
  // it with `this` undefined, and `this.emit` throws a TypeError before
  // anything is emitted. The walk's `yield` rethrows it, the loop ends at that
  // entry, and the call rejects. The functions above describe the walk that
  // reports each failure and goes on; the ones below describe the walk that
  // stops.

  /** What a walk as written leaves behind: the registry, and the failure it
      stopped at (`None` when it ran to the end). When it stopped, nothing was
      emitted and the call rejected. */
  datatype Walk = Walk(plugins: seq<PluginEntry>, stopped: Option<BotError>)

  /** `load()` as written: load the names in turn until one fails. */
  function LoadAllWalk(plugins: seq<PluginEntry>, names: seq<string>, initOk: string -> bool): (r: Walk)
    ensures |plugins| <= |r.plugins| && r.plugins[..|plugins|] == plugins
    decreases |names|
  {
    if names == [] then Walk(plugins, None)
    else
      var next := AfterLoad(plugins, names[0]);
      match LoadError(plugins, names[0], initOk(names[0]))
      case Some(e) => Walk(next, Some(e))
      case None => LoadAllWalk(next, names[1..], initOk)
  }

  lemma {:induction false} AfterLoadAllCons(plugins: seq<PluginEntry>, name: string, rest: seq<string>)
    ensures AfterLoadAll(plugins, [name] + rest) == AfterLoadAll(AfterLoad(plugins, name), rest)
    decreases |rest|
  {
    var names := [name] + rest;
    if rest == [] {
      assert names[..0] == [];
    } else {
      assert names[..|names| - 1] == [name] + rest[..|rest| - 1];
      AfterLoadAllCons(plugins, name, rest[..|rest| - 1]);
    }
  }

  lemma {:induction false} ErrorsAssoc(a: seq<BotError>, b: seq<BotError>, c: seq<BotError>)
    ensures a + b + c == a + (b + c)
  {
  }

  lemma {:induction false} LoadAllErrorsCons(plugins: seq<PluginEntry>, name: string, rest: seq<string>, initOk: string -> bool)
    ensures LoadAllErrors(plugins, [name] + rest, initOk) ==
              ErrorList(LoadError(plugins, name, initOk(name))) + LoadAllErrors(AfterLoad(plugins, name), rest, initOk)
    decreases |rest|
  {
    var names := [name] + rest;
    var first := ErrorList(LoadError(plugins, name, initOk(name)));
    if rest == [] {
      assert names[..0] == [];
      assert first + [] == first;
    } else {
      var init := rest[..|rest| - 1];
      var last := rest[|rest| - 1];
      assert names[..|names| - 1] == [name] + init;
      var next := AfterLoad(plugins, name);
      var tail := ErrorList(LoadError(AfterLoadAll(next, init), last, initOk(last)));
      assert LoadAllErrors(plugins, names, initOk) == LoadAllErrors(plugins, [name] + init, initOk) + tail by {
        AfterLoadAllCons(plugins, name, init);
      }
      assert LoadAllErrors(next, rest, initOk) == LoadAllErrors(next, init, initOk) + tail by {
        assert rest[..|rest| - 1] == init;
      }
      LoadAllErrorsCons(plugins, name, init, initOk);
      ErrorsAssoc(first, LoadAllErrors(next, init, initOk), tail);
    }
  }

  /** The walk as written is the intended walk cut short: it leaves the
      registry the intended walk leaves after the names up to the one it
      stopped at, and that stop is the one failure the intended walk reports
      over those names. When nothing stops it, the two walks agree and the
      intended one reports nothing. */
  lemma {:induction false} LoadAllWalkIsPrefix(plugins: seq<PluginEntry>, names: seq<string>, initOk: string -> bool)
    returns (k: nat)
    ensures k <= |names|
    ensures LoadAllWalk(plugins, names, initOk).plugins == AfterLoadAll(plugins, names[..k])
    ensures LoadAllErrors(plugins, names[..k], initOk) == ErrorList(LoadAllWalk(plugins, names, initOk).stopped)
    ensures LoadAllWalk(plugins, names, initOk).stopped.None? ==> k == |names|
    decreases |names|
  {
    if names == [] {
      assert names[..0] == [];
      return 0;
    }
    var name, rest := names[0], names[1..];
    assert names == [name] + rest;
    if LoadError(plugins, name, initOk(name)).Some? {
      LoadAllWalkStopsHere(plugins, names, initOk);
      return 1;
    }
    var j := LoadAllWalkIsPrefix(AfterLoad(plugins, name), rest, initOk);
    LoadAllWalkGoesOn(plugins, names, initOk, j);
    return j + 1;
  }

  lemma {:induction false} LoadAllWalkStopsHere(plugins: seq<PluginEntry>, names: seq<string>, initOk: string -> bool)
    requires names != [] && LoadError(plugins, names[0], initOk(names[0])).Some?
    ensures LoadAllWalk(plugins, names, initOk).plugins == AfterLoadAll(plugins, names[..1])
    ensures LoadAllErrors(plugins, names[..1], initOk) == ErrorList(LoadAllWalk(plugins, names, initOk).stopped)
  {
    var name := names[0];
    var e := LoadError(plugins, name, initOk(name));
    assert names[..1] == [name] + [];
    AfterLoadAllCons(plugins, name, []);
    LoadAllErrorsCons(plugins, name, [], initOk);
    assert ErrorList(e) + [] == ErrorList(e);
  }

  lemma {:induction false} LoadAllWalkNext(plugins: seq<PluginEntry>, names: seq<string>, initOk: string -> bool)
    requires names != [] && LoadError(plugins, names[0], initOk(names[0])).None?
    ensures LoadAllWalk(plugins, names, initOk) == LoadAllWalk(AfterLoad(plugins, names[0]), names[1..], initOk)
  {
  }

  lemma {:induction false} TakeCons(names: seq<string>, j: nat)
    requires j < |names|
    ensures names[..j + 1] == [names[0]] + names[1..][..j]
  {
  }

  lemma {:induction false} LoadAllWalkGoesOn(plugins: seq<PluginEntry>, names: seq<string>, initOk: string -> bool, j: nat)
    requires names != [] && LoadError(plugins, names[0], initOk(names[0])).None?
    requires j <= |names| - 1
    requires var r := LoadAllWalk(AfterLoad(plugins, names[0]), names[1..], initOk);
             && r.plugins == AfterLoadAll(AfterLoad(plugins, names[0]), names[1..][..j])
             && LoadAllErrors(AfterLoad(plugins, names[0]), names[1..][..j], initOk) == ErrorList(r.stopped)
    ensures LoadAllWalk(plugins, names, initOk).plugins == AfterLoadAll(plugins, names[..j + 1])
    ensures LoadAllErrors(plugins, names[..j + 1], initOk) == ErrorList(LoadAllWalk(plugins, names, initOk).stopped)
  {
    var name, rest := names[0], names[1..];
    var r := LoadAllWalk(plugins, names, initOk);
    LoadAllWalkNext(plugins, names, initOk);
    TakeCons(names, j);
    assert r.plugins == AfterLoadAll(plugins, names[..j + 1]) by {
      AfterLoadAllCons(plugins, name, rest[..j]);
    }
    assert LoadAllErrors(plugins, names[..j + 1], initOk) == ErrorList(r.stopped) by {
      LoadAllErrorsCons(plugins, name, rest[..j], initOk);
      assert [] + ErrorList(r.stopped) == ErrorList(r.stopped);
    }
  }

  /** A configured name with no module stops the walk as written: the plugin
      listed after it is never loaded, and nothing is registered, while the
      intended walk registers it. */
  lemma {:induction false} MissingStopsLoadAll(missing: string, next: string, initOk: string -> bool)
    requires Catalog(missing).None? && Catalog(next).Some?
    ensures LoadAllWalk([], [missing, next], initOk) == Walk([], Some(ModuleNotFound(missing)))
    ensures HasPlugin(AfterLoadAll([], [missing, next]), next)
  {
    assert !HasPlugin([], missing);
    AfterLoadAllRegisters([], [missing, next], next);
  }

  /** The configuration `["missing", "chat"]`: as written, `chat` is never
      loaded; the intended walk loads it. */
  lemma {:induction false} MissingThenChat(initOk: string -> bool)
    ensures LoadAllWalk([], ["missing", "chat"], initOk) == Walk([], Some(ModuleNotFound("missing")))
    ensures HasPlugin(AfterLoadAll([], ["missing", "chat"]), "chat")
  {
    assert Catalog("missing").None?;
    MissingStopsLoadAll("missing", "chat", initOk);
  }

  /** `unload()` as written: tear down the snapshot's entries in turn until
      one teardown fails; that entry and every later one stay. */
  function UnloadAllWalk(plugins: seq<PluginEntry>, teardownOk: string -> bool): (r: Walk)
    ensures |r.plugins| <= |plugins| && r.plugins == plugins[|plugins| - |r.plugins|..]
    ensures r.stopped.None? <==> r.plugins == []
  {
    if plugins == [] then Walk([], None)
    else if teardownOk(plugins[0].name) then UnloadAllWalk(plugins[1..], teardownOk)
    else Walk(plugins, Some(TeardownFailed(plugins[0].name)))
  }

  lemma {:induction false} SurvivingCons(p: PluginEntry, rest: seq<PluginEntry>, teardownOk: string -> bool)
    ensures Surviving([p] + rest, teardownOk) == (if teardownOk(p.name) then [] else [p]) + Surviving(rest, teardownOk)
    decreases |rest|
  {
    var all := [p] + rest;
    var head := if teardownOk(p.name) then [] else [p];
    if rest == [] {
      assert all[..0] == [];
      assert head + [] == head;
    } else {
      var init := rest[..|rest| - 1];
      var last := rest[|rest| - 1];
      assert all[..|all| - 1] == [p] + init;
      SurvivingCons(p, init, teardownOk);
      var tail := if teardownOk(last.name) then [] else [last];
      assert head + Surviving(init, teardownOk) + tail == head + (Surviving(init, teardownOk) + tail);
    }
  }

  /** The walk as written stops at the first entry the intended walk keeps,
      with the failure the intended walk reports first, and leaves that entry
      and everything after it, among them every entry the intended walk
      keeps. With no failed teardown both walks empty the registry. */
  lemma {:induction false} UnloadAllWalkStopsAtFirstSurvivor(plugins: seq<PluginEntry>, teardownOk: string -> bool)
    ensures var r := UnloadAllWalk(plugins, teardownOk);
            var kept := Surviving(plugins, teardownOk);
            && (kept == [] <==> r.stopped.None?)
            && (kept != [] ==> r.plugins[0] == kept[0] && r.stopped == Some(UnloadAllErrors(plugins, teardownOk)[0]))
            && Surviving(r.plugins, teardownOk) == kept
    decreases |plugins|
  {
    if plugins != [] {
      var p, rest := plugins[0], plugins[1..];
      assert plugins == [p] + rest;
      SurvivingCons(p, rest, teardownOk);
      if teardownOk(p.name) {
        assert [] + Surviving(rest, teardownOk) == Surviving(rest, teardownOk);
        UnloadAllWalkStopsAtFirstSurvivor(rest, teardownOk);
      }
    }
  }

  /** A failed teardown stops the walk as written: the entry after it stays
      although its own teardown would succeed, while the intended walk
      removes it. */
  lemma {:induction false} FailedTeardownStopsUnloadAll(a: PluginEntry, b: PluginEntry, teardownOk: string -> bool)
    requires !teardownOk(a.name) && teardownOk(b.name)
    ensures UnloadAllWalk([a, b], teardownOk) == Walk([a, b], Some(TeardownFailed(a.name)))
    ensures Surviving([a, b], teardownOk) == [a]
  {
    SurvivingCons(a, [b], teardownOk);
    SurvivingCons(b, [], teardownOk);
    assert [a, b] == [a] + [b] && [b] == [b] + [];
  }

  /** `reload()` as written: unload all; when that rejects, reload rejects
      before it reads the configuration again or loads anything; otherwise
      load all of `names`. */
  function ReloadWalk(plugins: seq<PluginEntry>, names: seq<string>, teardownOk: string -> bool, initOk: string -> bool): (r: Walk)
    ensures UnloadAllWalk(plugins, teardownOk).stopped.Some? ==> r == UnloadAllWalk(plugins, teardownOk)
    ensures UnloadAllWalk(plugins, teardownOk).stopped.None? ==> r == LoadAllWalk([], names, initOk)
  {
    var unloaded := UnloadAllWalk(plugins, teardownOk);
    if unloaded.stopped.Some? then unloaded else LoadAllWalk(unloaded.plugins, names, initOk)
  }

  /** With teardowns that succeed, the reload as written forgets the previous
      registry too, and where its load-all is not stopped it leaves exactly
      the registry, and so the command set, of the intended reload. */
  lemma {:induction false} ReloadWalkAgrees(plugins: seq<PluginEntry>, names: seq<string>, teardownOk: string -> bool,
                                            initOk: string -> bool, c: CommandEntry)
    requires forall p :: p in plugins ==> teardownOk(p.name)
    ensures ReloadWalk(plugins, names, teardownOk, initOk) == LoadAllWalk([], names, initOk)
    ensures LoadAllWalk([], names, initOk).stopped.None? ==>
              && ReloadWalk(plugins, names, teardownOk, initOk).plugins == AfterReload(plugins, names, teardownOk)
              && (c in Commands(ReloadWalk(plugins, names, teardownOk, initOk).plugins) <==>
                  exists n :: n in names && Catalog(n).Some? && c in Catalog(n).value)
  {
    SurvivingAllOk(plugins, teardownOk);
    UnloadAllWalkStopsAtFirstSurvivor(plugins, teardownOk);
    var k := LoadAllWalkIsPrefix([], names, initOk);
    assert names[..|names|] == names;
    ReloadForgetsPrevious(plugins, names, teardownOk);
    ReloadCommandSet(plugins, names, teardownOk, c);
  }
}
