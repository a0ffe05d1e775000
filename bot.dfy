/**
 * The bot object: its configuration, its plugin registry and its table of
 * per-channel action queues, with the operations that change them in place
 * (`load`, `unload`, `reload`, `pushQueue` and the steps of `executeQueue`).
 *
 * The transport, the plugin modules' hooks and the timer are not part of the
 * model: whatever they would decide (does `init` succeed, how did a request
 * end) arrives as a parameter.
 */
module BotCore {
  import opened JsString
  import opened Plugins
  import opened Router

  /** What `config.js` supplies: the command prefix and the plugins to load. */
  datatype Config = Config(prefix: string, plugins: seq<string>)

  /** A queued client call: a ticket standing for the caller's promise, the
      name of the client method and its arguments. */
  datatype Request = Request(ticket: nat, call: string, args: seq<string>)

  /** How one attempt at the head request ended: a result, or an error with
      its HTTP status and the server's `retry-after` delay. */
  datatype Outcome = Succeeded(value: string) | Failed(status: int, retryAfter: nat)

  /** A caller's promise being settled. */
  datatype Settlement = Resolved(request: Request, value: string) | Rejected(request: Request, status: int)

  /** The HTTP status the queue treats as "rate limited, try again". */
  const RateLimited: int := 429

  /** The queue a request joins: the resolved channel id, or `''` when the
      first argument does not resolve to a channel. */
  function QueueKey(channel: Option<string>): string {
    match channel
    case Some(id) => id
    case None => ""
  }

  /** The requests waiting under `key`; a missing queue is an empty one. */
  function Pending(queue: map<string, seq<Request>>, key: string): seq<Request> {
    if key in queue then queue[key] else []
  }

  /** One more entry of the snapshot walked by `unload()`. */
  lemma {:induction false} SurvivingStep(snapshot: seq<PluginEntry>, i: nat, teardownOk: string -> bool)
    requires i < |snapshot|
    ensures Surviving(snapshot[..i + 1], teardownOk) ==
              Surviving(snapshot[..i], teardownOk) + (if teardownOk(snapshot[i].name) then [] else [snapshot[i]])
  {
    assert snapshot[..i + 1][..i] == snapshot[..i];
  }

  /** While `unload()` walks its snapshot, the next entry to unload sits right
      after the survivors, and no survivor shares its name. */
  lemma {:induction false} NextIndex(snapshot: seq<PluginEntry>, i: nat, teardownOk: string -> bool)
    requires UniqueNames(snapshot) && i < |snapshot|
    ensures IndexOf(Surviving(snapshot[..i], teardownOk) + snapshot[i..], snapshot[i].name) ==
              Some(|Surviving(snapshot[..i], teardownOk)|)
  {
    var kept := Surviving(snapshot[..i], teardownOk);
    var current := kept + snapshot[i..];
    forall j | 0 <= j < |kept|
      ensures current[j].name != snapshot[i].name
    {
      SurvivingMembers(snapshot[..i], teardownOk, kept[j]);
      assert current[j] == kept[j];
    }
    assert current[|kept|] == snapshot[i];
  }

  /** One step of `unload()` over its snapshot, on the registry it walks:
      the next entry is found right after the survivors, and removing it or
      keeping it gives the registry of the next step. */
  lemma {:induction false} NextToUnload(snapshot: seq<PluginEntry>, i: nat, teardownOk: string -> bool)
    requires UniqueNames(snapshot) && i < |snapshot|
    ensures var current := Surviving(snapshot[..i], teardownOk) + snapshot[i..];
            var k := |Surviving(snapshot[..i], teardownOk)|;
            && HasPlugin(current, snapshot[i].name)
            && IndexOf(current, snapshot[i].name) == Some(k)
            && (teardownOk(snapshot[i].name) ==>
                  current[..k] + current[k + 1..] == Surviving(snapshot[..i + 1], teardownOk) + snapshot[i + 1..])
            && (!teardownOk(snapshot[i].name) ==>
                  current == Surviving(snapshot[..i + 1], teardownOk) + snapshot[i + 1..])
  {
    var kept := Surviving(snapshot[..i], teardownOk);
    NextIndex(snapshot, i, teardownOk);
    RemoveAfter(kept, snapshot[i..]);
    SurvivingStep(snapshot, i, teardownOk);
    KeepHead(kept, snapshot[i..]);
  }

  lemma {:induction false} ReportedStep(snapshot: seq<PluginEntry>, i: nat, teardownOk: string -> bool)
    requires i < |snapshot|
    ensures UnloadAllErrors(snapshot[..i + 1], teardownOk) ==
              UnloadAllErrors(snapshot[..i], teardownOk) +
              (if teardownOk(snapshot[i].name) then [] else [TeardownFailed(snapshot[i].name)])
  {
    assert snapshot[..i + 1][..i] == snapshot[..i];
  }

  lemma {:induction false} KeepHead(a: seq<PluginEntry>, b: seq<PluginEntry>)
    requires b != []
    ensures a + b == (a + [b[0]]) + b[1..]
  {
  }

  /** The walk as written over the snapshot from entry `i` on. */
  lemma {:induction false} WalkFrom(snapshot: seq<PluginEntry>, i: nat, teardownOk: string -> bool)
    requires i < |snapshot|
    ensures snapshot[i..] != [] && snapshot[i..][0] == snapshot[i]
    ensures UnloadAllWalk(snapshot[i..], teardownOk) ==
              if teardownOk(snapshot[i].name) then UnloadAllWalk(snapshot[i + 1..], teardownOk)
              else Walk(snapshot[i..], Some(TeardownFailed(snapshot[i].name)))
  {
    assert snapshot[i..][1..] == snapshot[i + 1..];
  }

  lemma {:induction false} AppendAssoc(a: seq<BotError>, b: seq<BotError>, e: BotError)
    ensures a + b + [e] == a + (b + [e])
  {
  }

  lemma {:induction false} RemoveAfter(a: seq<PluginEntry>, b: seq<PluginEntry>)
    requires b != []
    ensures (a + b)[..|a|] + (a + b)[|a| + 1..] == a + b[1..]
  {
    assert (a + b)[..|a|] == a;
    assert (a + b)[|a| + 1..] == b[1..];
  }

  /** What a chain of `executeQueue` runs does to one queue: the caller
      promises settled, the requests still waiting, the outcomes consumed and
      the errors reported. */
  datatype Drained = Drained(settlements: seq<Settlement>, remaining: seq<Request>, used: nat, failures: seq<BotError>)

  /** One run that settled `now` and reported `reported`, followed by `d`. */
  function Then(now: seq<Settlement>, reported: seq<BotError>, d: Drained): Drained {
    Drained(now + d.settlements, d.remaining, d.used + 1, reported + d.failures)
  }

  /** `d` preceded by runs that already settled `done`, reported `reported`
      and consumed `used` outcomes. */
  function Behind(done: seq<Settlement>, reported: seq<BotError>, used: nat, d: Drained): Drained {
    Drained(done + d.settlements, d.remaining, used + d.used, reported + d.failures)
  }

  /** The runs of `executeQueue` on the queue `pending`, each fed the next
      outcome, until the queue is empty or the outcomes run out. */
  function Drain(pending: seq<Request>, outcomes: seq<Outcome>): Drained
    decreases |outcomes|
  {
    if pending == [] || outcomes == [] then Drained([], pending, 0, [])
    else
      match outcomes[0]
      case Succeeded(v) => Then([Resolved(pending[0], v)], [], Drain(pending[1..], outcomes[1..]))
      case Failed(status, _) =>
        if status == RateLimited then Then([], [], Drain(pending, outcomes[1..]))
        else Then([Rejected(pending[0], status)], [RequestFailed(status)], Drain(pending[1..], outcomes[1..]))
  }

  lemma {:induction false} BehindThen(done: seq<Settlement>, reported: seq<BotError>, used: nat,
                   now: seq<Settlement>, more: seq<BotError>, d: Drained)
    ensures Behind(done, reported, used, Then(now, more, d)) == Behind(done + now, reported + more, used + 1, d)
  {
  }

  /** One more run, seen from the start of the chain. */
  lemma {:induction false} DrainStep(total: Drained, done: seq<Settlement>, reported: seq<BotError>, used: nat,
                  d: Drained, now: seq<Settlement>, more: seq<BotError>, next: Drained)
    requires total == Behind(done, reported, used, d) && d == Then(now, more, next)
    ensures total == Behind(done + now, reported + more, used + 1, next)
  {
    BehindThen(done, reported, used, now, more, next);
  }

  /** The queue is first in, first out: the settled requests are the head of
      the queue in order, the rest still waits, and the chain stops early only
      on an empty queue. */
  lemma {:induction false} DrainInOrder(pending: seq<Request>, outcomes: seq<Outcome>)
    ensures var d := Drain(pending, outcomes);
            && |d.settlements| <= |pending|
            && (forall i :: 0 <= i < |d.settlements| ==> d.settlements[i].request == pending[i])
            && d.remaining == pending[|d.settlements|..]
            && d.used <= |outcomes|
            && (d.used < |outcomes| ==> d.remaining == [])
    decreases |outcomes|
  {
    if pending != [] && outcomes != [] {
      match outcomes[0]
      case Succeeded(v) =>
        DrainInOrder(pending[1..], outcomes[1..]);
        InOrderAdvance(pending, outcomes, Resolved(pending[0], v), [], Drain(pending[1..], outcomes[1..]));
      case Failed(status, _) =>
        if status == RateLimited {
          DrainInOrder(pending, outcomes[1..]);
          InOrderRetry(pending, outcomes, Drain(pending, outcomes[1..]));
        } else {
          DrainInOrder(pending[1..], outcomes[1..]);
          InOrderAdvance(pending, outcomes, Rejected(pending[0], status), [RequestFailed(status)],
                         Drain(pending[1..], outcomes[1..]));
        }
    }
  }

  /** What `DrainInOrder` states about `d`, the drain of `pending` fed
      `outcomes`. */
  predicate InOrder(pending: seq<Request>, outcomes: seq<Outcome>, d: Drained) {
    && |d.settlements| <= |pending|
    && (forall i :: 0 <= i < |d.settlements| ==> d.settlements[i].request == pending[i])
    && d.remaining == pending[|d.settlements|..]
    && d.used <= |outcomes|
    && (d.used < |outcomes| ==> d.remaining == [])
  }

  /** The head settles and the rest drains in order behind it. */
  lemma {:induction false} InOrderAdvance(pending: seq<Request>, outcomes: seq<Outcome>, s: Settlement,
                                          more: seq<BotError>, d: Drained)
    requires pending != [] && outcomes != [] && s.request == pending[0]
    requires InOrder(pending[1..], outcomes[1..], d)
    ensures InOrder(pending, outcomes, Then([s], more, d))
  {
    var t := Then([s], more, d);
    forall i | 0 <= i < |t.settlements|
      ensures t.settlements[i].request == pending[i]
    {
      if i > 0 {
        assert t.settlements[i] == d.settlements[i - 1];
      }
    }
    assert pending[1..][|d.settlements|..] == pending[|t.settlements|..];
  }

  /** A retry settles nothing and uses one outcome. */
  lemma {:induction false} InOrderRetry(pending: seq<Request>, outcomes: seq<Outcome>, d: Drained)
    requires outcomes != [] && InOrder(pending, outcomes[1..], d)
    ensures InOrder(pending, outcomes, Then([], [], d))
  {
    assert [] + d.settlements == d.settlements;
  }

  /** A rate-limited call keeps its request: as long as every call is
      answered with 429, nothing is settled, dropped or reported. */
  lemma {:induction false} DrainRateLimited(pending: seq<Request>, outcomes: seq<Outcome>)
    requires forall i :: 0 <= i < |outcomes| ==> outcomes[i].Failed? && outcomes[i].status == RateLimited
    ensures Drain(pending, outcomes).settlements == []
    ensures Drain(pending, outcomes).remaining == pending
    ensures Drain(pending, outcomes).failures == []
    decreases |outcomes|
  {
    if pending != [] && outcomes != [] {
      DrainRateLimited(pending, outcomes[1..]);
    }
  }

  /** Exactly the rejected requests are reported on the error channel, with
      their status, in order. */
  lemma {:induction false} DrainReportsRejections(pending: seq<Request>, outcomes: seq<Outcome>)
    ensures Drain(pending, outcomes).failures == Rejections(Drain(pending, outcomes).settlements)
    decreases |outcomes|
  {
    if pending != [] && outcomes != [] {
      match outcomes[0]
      case Succeeded(v) =>
        DrainReportsRejections(pending[1..], outcomes[1..]);
        RejectionsCons(Resolved(pending[0], v), Drain(pending[1..], outcomes[1..]).settlements);
      case Failed(status, _) =>
        if status == RateLimited {
          DrainReportsRejections(pending, outcomes[1..]);
          var d := Drain(pending, outcomes[1..]);
          assert [] + d.settlements == d.settlements && [] + d.failures == d.failures;
        } else {
          DrainReportsRejections(pending[1..], outcomes[1..]);
          RejectionsCons(Rejected(pending[0], status), Drain(pending[1..], outcomes[1..]).settlements);
        }
    }
  }

  /** The error each rejection reports, in order. */
  function Rejections(settlements: seq<Settlement>): seq<BotError> {
    if settlements == [] then []
    else
      var init := Rejections(settlements[..|settlements| - 1]);
      match settlements[|settlements| - 1]
      case Resolved(_, _) => init
      case Rejected(_, status) => init + [RequestFailed(status)]
  }

  lemma {:induction false} RejectionsCons(s: Settlement, rest: seq<Settlement>)
    ensures Rejections([s] + rest) ==
            (if s.Rejected? then [RequestFailed(s.status)] else []) + Rejections(rest)
    decreases |rest|
  {
    if rest != [] {
      var init := rest[..|rest| - 1];
      assert ([s] + rest)[..|rest|] == [s] + init;
      RejectionsCons(s, init);
    } else {
      assert [s] + rest == [s];
      assert ([s] + rest)[..0] == [];
    }
  }

  /** When every call succeeds and there are enough of them, the queue
      empties and every request is resolved. */
  lemma {:induction false} DrainAllSucceed(pending: seq<Request>, outcomes: seq<Outcome>)
    requires |pending| <= |outcomes|
    requires forall i :: 0 <= i < |outcomes| ==> outcomes[i].Succeeded?
    ensures Drain(pending, outcomes).remaining == []
    ensures |Drain(pending, outcomes).settlements| == |pending|
    ensures forall i :: 0 <= i < |pending| ==> Drain(pending, outcomes).settlements[i].Resolved?
    ensures Drain(pending, outcomes).failures == []
    decreases |outcomes|
  {
    if pending != [] {
      DrainAllSucceed(pending[1..], outcomes[1..]);
    }
  }

  /** A request that is rate limited once and then succeeds, followed by
      requests that succeed: all of them resolve, in queue order, and
      nothing is reported. */
  lemma {:induction false} RetryThenSucceed(pending: seq<Request>, wait: nat, rest: seq<Outcome>)
    requires pending != [] && |pending| <= |rest|
    requires forall i :: 0 <= i < |rest| ==> rest[i].Succeeded?
    ensures var d := Drain(pending, [Failed(RateLimited, wait)] + rest);
            && d.remaining == [] && d.failures == [] && |d.settlements| == |pending|
            && forall i :: 0 <= i < |pending| ==> d.settlements[i].Resolved? && d.settlements[i].request == pending[i]
  {
    var outcomes := [Failed(RateLimited, wait)] + rest;
    assert outcomes[1..] == rest;
    var d := Drain(pending, rest);
    assert Drain(pending, outcomes) == Then([], [], d);
    assert [] + d.settlements == d.settlements && [] + d.failures == d.failures;
    DrainAllSucceed(pending, rest);
    DrainInOrder(pending, rest);
  }

  class Bot {
    /** The id of the account the bot runs as. */
    const selfUser: string
    var config: Config
    /** `this.plugins`: the loaded plugins in load order. */
    var plugins: seq<PluginEntry>
    /** `this.queue`: the pending requests of each channel, head first. */
    var queue: map<string, seq<Request>>
    /** Everything emitted on the bot's 'error' channel, oldest first. */
    var errors: seq<BotError>
    /** Every request ever pushed under each key, and those settled so far. */
    ghost var submitted: map<string, seq<Request>>
    ghost var settled: map<string, seq<Request>>

    /** Plugin names are unique, and each queue holds exactly the requests
        submitted under its key that are not yet settled, in submission order. */
    ghost predicate Valid()
      reads this
    {
      && UniqueNames(plugins)
      && queue.Keys == submitted.Keys && queue.Keys == settled.Keys
      && forall k :: k in queue ==> settled[k] + queue[k] == submitted[k]
    }

    constructor (selfUser: string, config: Config)
      ensures Valid()
      ensures this.selfUser == selfUser && this.config == config
      ensures plugins == [] && queue == map[] && errors == []
    {
      this.selfUser := selfUser;
      this.config := config;
      plugins := [];
      queue := map[];
      errors := [];
      submitted := map[];
      settled := map[];
    }

    // -------------------------------------------------------------------
    // Plugin registry.

    /** `load(name)`. `initOk` is whether the plugin's `load()` hook succeeds. */
    method Load(name: string, initOk: bool) returns (err: Option<BotError>)
      requires Valid()
      modifies this`plugins
      ensures Valid()
      ensures HasPlugin(old(plugins), name) ==> err == Some(AlreadyLoaded(name)) && plugins == old(plugins)
      ensures !HasPlugin(old(plugins), name) && Catalog(name).None? ==>
                err == Some(ModuleNotFound(name)) && plugins == old(plugins)
      ensures !HasPlugin(old(plugins), name) && Catalog(name).Some? ==>
                && plugins == old(plugins) + [PluginEntry(name, Catalog(name).value)]
                && err == (if initOk then None else Some(InitFailed(name)))
    {
      if IndexOf(plugins, name).Some? {
        return Some(AlreadyLoaded(name));
      }
      var found := Catalog(name);
      if found.None? {
        return Some(ModuleNotFound(name));
      }
      plugins := plugins + [PluginEntry(name, found.value)];
      if !initOk {
        return Some(InitFailed(name));
      }
      return None;
    }

    /** `load()` as its `.catch(this.error)` intends it: every configured
        plugin in turn, each failure reported on the error channel and the
        walk going on. The code as written stops at the first failure
        instead: that is `LoadAllAsWritten`. */
    method LoadAll(initOk: string -> bool)
      requires Valid()
      modifies this`plugins, this`errors
      ensures Valid()
      ensures plugins == AfterLoadAll(old(plugins), config.plugins)
      ensures errors == old(errors) + LoadAllErrors(old(plugins), config.plugins, initOk)
    {
      var names := config.plugins;
      for i := 0 to |names|
        invariant Valid()
        invariant plugins == AfterLoadAll(old(plugins), names[..i])
        invariant errors == old(errors) + LoadAllErrors(old(plugins), names[..i], initOk)
      {
        ghost var reported := LoadAllErrors(old(plugins), names[..i], initOk);
        LoadNext(names[i], initOk(names[i]));
        LoadAllStep(old(plugins), names, i, initOk);
        ErrorsAssoc(old(errors), reported, ErrorList(LoadError(AfterLoadAll(old(plugins), names[..i]), names[i], initOk(names[i]))));
      }
      assert names[..|names|] == names;
    }

    /** The body of the loop of `load()`: load one name, reporting its
        failure. */
    method LoadNext(name: string, initOk: bool)
      requires Valid()
      modifies this`plugins, this`errors
      ensures Valid() && plugins == AfterLoad(old(plugins), name)
      ensures errors == old(errors) + ErrorList(LoadError(old(plugins), name, initOk))
    {
      var err := Load(name, initOk);
      if err.Some? {
        errors := errors + [err.value];
      }
    }

    /** `unload(name)`. `teardownOk` is whether the plugin's `unload()` hook
        succeeds; when it fails the entry stays. */
    method Unload(name: string, teardownOk: bool) returns (err: Option<BotError>)
      requires Valid()
      modifies this`plugins
      ensures Valid()
      ensures !HasPlugin(old(plugins), name) ==> err == Some(NoPlugin(name)) && plugins == old(plugins)
      ensures HasPlugin(old(plugins), name) && !teardownOk ==>
                err == Some(TeardownFailed(name)) && plugins == old(plugins)
      ensures HasPlugin(old(plugins), name) && teardownOk ==>
                var k := IndexOf(old(plugins), name).value;
                err == None && plugins == old(plugins)[..k] + old(plugins)[k + 1..]
    {
      var index := IndexOf(plugins, name);
      if index.None? {
        return Some(NoPlugin(name));
      }
      if !teardownOk {
        return Some(TeardownFailed(name));
      }
      var k := index.value;
      plugins := plugins[..k] + plugins[k + 1..];
      forall i, j | 0 <= i < j < |plugins|
        ensures plugins[i].name != plugins[j].name
      {
        var i', j' := if i < k then i else i + 1, if j < k then j else j + 1;
        assert plugins[i] == old(plugins)[i'] && plugins[j] == old(plugins)[j'];
      }
      return None;
    }

    /** `unload()` as its `.catch(this.error)` intends it: every plugin of a
        snapshot of the registry in turn, each failure reported on the error
        channel and the walk going on. The code as written stops at the first
        failed teardown instead: that is `UnloadAllAsWritten`. */
    method UnloadAll(teardownOk: string -> bool)
      requires Valid()
      modifies this`plugins, this`errors
      ensures Valid()
      ensures plugins == Surviving(old(plugins), teardownOk)
      ensures errors == old(errors) + UnloadAllErrors(old(plugins), teardownOk)
    {
      var snapshot := plugins;
      for i := 0 to |snapshot|
        invariant Valid()
        invariant snapshot == old(plugins)
        invariant plugins == Surviving(snapshot[..i], teardownOk) + snapshot[i..]
        invariant errors == old(errors) + UnloadAllErrors(snapshot[..i], teardownOk)
      {
        ReportedStep(snapshot, i, teardownOk);
        ghost var reported := UnloadAllErrors(snapshot[..i], teardownOk);
        UnloadNext(snapshot, i, teardownOk);
        AppendAssoc(old(errors), reported, TeardownFailed(snapshot[i].name));
      }
      assert snapshot[..|snapshot|] == snapshot;
    }

    /** The body of the loop of the intended `unload()`: unload the next
        entry of the snapshot, reporting a failed teardown. */
    method UnloadNext(snapshot: seq<PluginEntry>, i: nat, teardownOk: string -> bool)
      requires Valid() && UniqueNames(snapshot) && i < |snapshot|
      requires plugins == Surviving(snapshot[..i], teardownOk) + snapshot[i..]
      modifies this`plugins, this`errors
      ensures Valid() && plugins == Surviving(snapshot[..i + 1], teardownOk) + snapshot[i + 1..]
      ensures errors == old(errors) + (if teardownOk(snapshot[i].name) then [] else [TeardownFailed(snapshot[i].name)])
    {
      var name := snapshot[i].name;
      NextToUnload(snapshot, i, teardownOk);
      var err := Unload(name, teardownOk(name));
      if !teardownOk(name) {
        errors := errors + [err.value];
      }
    }

    /** `reload()` over the intended walks: unload everything, read the
        configuration again (here: take `newConfig`), then load everything it
        lists. Not atomic: plugins whose teardown failed stay loaded. The code
        as written is `ReloadAsWritten`. */
    method Reload(newConfig: Config, teardownOk: string -> bool, initOk: string -> bool)
      requires Valid()
      modifies this`config, this`plugins, this`errors
      ensures Valid()
      ensures config == newConfig
      ensures plugins == AfterReload(old(plugins), newConfig.plugins, teardownOk)
      ensures errors == old(errors) + UnloadAllErrors(old(plugins), teardownOk) +
                        LoadAllErrors(Surviving(old(plugins), teardownOk), newConfig.plugins, initOk)
      ensures queue == old(queue)
    {
      UnloadAll(teardownOk);
      config := newConfig;
      LoadAll(initOk);
    }

    /** `load()` as written: the configured plugins in turn until one fails.
        That failure goes to the unbound `error`, which throws before it
        emits anything, so the walk ends there, `errors` is left alone and the
        call rejects; `stopped` is the failure it ended at. */
    method LoadAllAsWritten(initOk: string -> bool) returns (stopped: Option<BotError>)
      requires Valid()
      modifies this`plugins
      ensures Valid()
      ensures Walk(plugins, stopped) == LoadAllWalk(old(plugins), config.plugins, initOk)
    {
      var names := config.plugins;
      for i := 0 to |names|
        invariant Valid()
        invariant LoadAllWalk(plugins, names[i..], initOk) == LoadAllWalk(old(plugins), names, initOk)
      {
        var err := Load(names[i], initOk(names[i]));
        assert names[i..][0] == names[i] && names[i..][1..] == names[i + 1..];
        if err.Some? {
          return err;
        }
      }
      assert names[|names|..] == [];
      return None;
    }

    /** `unload()` as written: the entries of a snapshot of the registry in
        turn until a teardown fails. That failure is not emitted either; the
        entry and every later one stay, and `stopped` is the failure. */
    method UnloadAllAsWritten(teardownOk: string -> bool) returns (stopped: Option<BotError>)
      requires Valid()
      modifies this`plugins
      ensures Valid()
      ensures Walk(plugins, stopped) == UnloadAllWalk(old(plugins), teardownOk)
    {
      var snapshot := plugins;
      for i := 0 to |snapshot|
        invariant Valid()
        invariant plugins == snapshot[i..]
        invariant UnloadAllWalk(snapshot[i..], teardownOk) == UnloadAllWalk(snapshot, teardownOk)
      {
        WalkFrom(snapshot, i, teardownOk);
        var err := UnloadHead(teardownOk(snapshot[i].name));
        assert snapshot[i..][1..] == snapshot[i + 1..];
        if err.Some? {
          return err;
        }
      }
      return None;
    }

    /** `unload(name)` for the name of the first entry, as the walk as
        written meets it: the entry leaves unless its teardown fails. */
    method UnloadHead(teardownOk: bool) returns (err: Option<BotError>)
      requires Valid() && plugins != []
      modifies this`plugins
      ensures Valid()
      ensures teardownOk ==> err == None && plugins == old(plugins)[1..]
      ensures !teardownOk ==> err == Some(TeardownFailed(old(plugins)[0].name)) && plugins == old(plugins)
    {
      var name := plugins[0].name;
      assert IndexOf(plugins, name) == Some(0);
      err := Unload(name, teardownOk);
    }

    /** `reload()` as written: when unload-all rejects, reload rejects before
        it reads the configuration again; otherwise it takes `newConfig` and
        loads what it lists, stopping at the first failure. Nothing is
        emitted on the error channel. */
    method ReloadAsWritten(newConfig: Config, teardownOk: string -> bool, initOk: string -> bool)
      returns (stopped: Option<BotError>)
      requires Valid()
      modifies this`config, this`plugins
      ensures Valid()
      ensures Walk(plugins, stopped) == ReloadWalk(old(plugins), newConfig.plugins, teardownOk, initOk)
      ensures config == if UnloadAllWalk(old(plugins), teardownOk).stopped.Some? then old(config) else newConfig
    {
      stopped := UnloadAllAsWritten(teardownOk);
      if stopped.Some? {
        return;
      }
      config := newConfig;
      stopped := LoadAllAsWritten(initOk);
    }

    // -------------------------------------------------------------------
    // Action queue.

    /** `pushQueue(request)` once the channel resolution has settled:
        `channel` is the resolved channel id, `None` when resolution failed.
        The request joins the back of its queue, and a runner starts exactly
        when that queue was empty, so there is never a second runner. */
    method PushQueue(request: Request, channel: Option<string>) returns (key: string, starts: bool)
      requires Valid()
      modifies this`queue, this`submitted, this`settled
      ensures Valid()
      ensures key == QueueKey(channel)
      ensures queue == old(queue)[key := Pending(old(queue), key) + [request]]
      ensures starts <==> Pending(old(queue), key) == []
      ensures submitted == old(submitted)[key := Pending(old(submitted), key) + [request]]
      ensures settled == old(settled)[key := Pending(old(settled), key)]
    {
      key := QueueKey(channel);
      var pending := Pending(queue, key);
      ghost var done, all := Pending(settled, key), Pending(submitted, key);
      assert done + pending == all;
      assert (done + pending) + [request] == done + (pending + [request]);
      queue := queue[key := pending + [request]];
      submitted := submitted[key := all + [request]];
      settled := settled[key := done];
      starts := pending == [];
      forall k | k in queue
        ensures settled[k] + queue[k] == submitted[k]
      {
        if k != key {
          assert k in old(queue) && queue[k] == old(queue)[k];
        }
      }
    }

    /** One run of `executeQueue` on the queue of `key`, where `outcome` is
        how the call of the head request ended. An empty queue is left alone
        and nothing is settled. Success resolves the head and removes it; a
        429 keeps the head for a retry; any other error rejects the head,
        reports the error and removes the head. */
    method Step(key: string, outcome: Outcome) returns (settlement: Option<Settlement>)
      requires Valid()
      modifies this`queue, this`settled, this`errors
      ensures Valid()
      ensures Pending(old(queue), key) == [] ==> settlement == None && queue == old(queue) && errors == old(errors)
      ensures Pending(old(queue), key) != [] ==>
                var head := old(queue)[key][0];
                var rest := old(queue)[key][1..];
                match outcome
                case Succeeded(v) =>
                  settlement == Some(Resolved(head, v)) && queue == old(queue)[key := rest] && errors == old(errors)
                case Failed(status, _) =>
                  if status == RateLimited then
                    settlement == None && queue == old(queue) && errors == old(errors)
                  else
                    && settlement == Some(Rejected(head, status)) && queue == old(queue)[key := rest]
                    && errors == old(errors) + [RequestFailed(status)]
    {
      if key !in queue || queue[key] == [] {
        return None;
      }
      var head := queue[key][0];
      match outcome
      case Succeeded(v) =>
        settlement := Some(Resolved(head, v));
        Shift(key);
      case Failed(status, _) =>
        if status == RateLimited {
          settlement := None;
        } else {
          settlement := Some(Rejected(head, status));
          errors := errors + [RequestFailed(status)];
          Shift(key);
        }
    }

    /** `queue.shift()` on a non-empty queue: the head moves to the settled log. */
    method Shift(key: string)
      requires Valid() && key in queue && queue[key] != []
      modifies this`queue, this`settled
      ensures Valid()
      ensures queue == old(queue)[key := old(queue)[key][1..]]
      ensures settled == old(settled)[key := old(settled)[key] + [old(queue)[key][0]]]
    {
      ghost var head := queue[key][0];
      assert settled[key] + queue[key] == submitted[key];
      assert (settled[key] + [head]) + queue[key][1..] == settled[key] + queue[key];
      settled := settled[key := settled[key] + [head]];
      queue := queue[key := queue[key][1..]];
    }

    /** The chain of `executeQueue` continuations on the queue of `key`, fed
        the outcomes of the calls in the order they happen, until the queue
        is empty or the outcomes run out: it does what `Drain` describes, and
        no other queue moves. */
    method Execute(key: string, outcomes: seq<Outcome>) returns (settlements: seq<Settlement>, used: nat)
      requires Valid()
      modifies this`queue, this`settled, this`errors
      ensures Valid()
      ensures var d := Drain(Pending(old(queue), key), outcomes);
              && settlements == d.settlements && used == d.used
              && Pending(queue, key) == d.remaining
              && errors == old(errors) + d.failures
      ensures forall k :: k != key ==> Pending(queue, k) == Pending(old(queue), k)
    {
      settlements, used := [], 0;
      ghost var failures: seq<BotError> := [];
      ghost var start := Pending(queue, key);
      while used < |outcomes| && Pending(queue, key) != []
        invariant Valid()
        invariant used <= |outcomes|
        invariant errors == old(errors) + failures
        invariant Drain(start, outcomes) ==
                  Behind(settlements, failures, used, Drain(Pending(queue, key), outcomes[used..]))
        invariant forall k :: k != key ==> Pending(queue, k) == Pending(old(queue), k)
        decreases |outcomes| - used
      {
        settlements, failures := Advance(key, outcomes, used, settlements, failures, start, old(errors), old(queue));
        used := used + 1;
      }
      assert Drain(Pending(queue, key), outcomes[used..]) == Drained([], Pending(queue, key), 0, []);
    }

    /** One run of `executeQueue` on a non-empty queue, seen as the first step
        of `Drain`. */
    /** One pass of the loop of `Execute`: run the head against outcome
        `used` and account for what it settled and reported. */
    method Advance(key: string, outcomes: seq<Outcome>, used: nat, settlements: seq<Settlement>,
                   ghost failures: seq<BotError>, ghost start: seq<Request>,
                   ghost errors0: seq<BotError>, ghost queue0: map<string, seq<Request>>)
      returns (settlements': seq<Settlement>, ghost failures': seq<BotError>)
      requires Valid() && used < |outcomes| && Pending(queue, key) != []
      requires errors == errors0 + failures
      requires Drain(start, outcomes) == Behind(settlements, failures, used, Drain(Pending(queue, key), outcomes[used..]))
      requires forall k :: k != key ==> Pending(queue, k) == Pending(queue0, k)
      modifies this`queue, this`settled, this`errors
      ensures Valid() && errors == errors0 + failures'
      ensures Drain(start, outcomes) == Behind(settlements', failures', used + 1, Drain(Pending(queue, key), outcomes[used + 1..]))
      ensures forall k :: k != key ==> Pending(queue, k) == Pending(queue0, k)
    {
      ghost var before := Pending(queue, key);
      var now, reported := RunHead(key, outcomes[used..]);
      assert outcomes[used..][1..] == outcomes[used + 1..];
      DrainStep(Drain(start, outcomes), settlements, failures, used, Drain(before, outcomes[used..]),
                now, reported, Drain(Pending(queue, key), outcomes[used + 1..]));
      settlements', failures' := settlements + now, failures + reported;
    }

    method RunHead(key: string, outcomes: seq<Outcome>) returns (now: seq<Settlement>, ghost reported: seq<BotError>)
      requires Valid() && outcomes != [] && Pending(queue, key) != []
      modifies this`queue, this`settled, this`errors
      ensures Valid()
      ensures Drain(Pending(old(queue), key), outcomes) == Then(now, reported, Drain(Pending(queue, key), outcomes[1..]))
      ensures errors == old(errors) + reported
      ensures forall k :: k != key ==> Pending(queue, k) == Pending(old(queue), k)
    {
      var outcome := outcomes[0];
      var s := Step(key, outcome);
      now := if s.Some? then [s.value] else [];
      reported := if outcome.Failed? && outcome.status != RateLimited then [RequestFailed(outcome.status)] else [];
    }
  }

  /** Loading "chat" twice: the second load fails as already loaded and
      leaves a single "chat" entry. */
  method LoadChatTwice() returns (second: Option<BotError>, count: nat)
    ensures second == Some(AlreadyLoaded("chat"))
    ensures count == 1
  {
    var bot := new Bot("me", Config("!", []));
    var first := bot.Load("chat", true);
    assert bot.plugins == [PluginEntry("chat", Catalog("chat").value)];
    assert bot.plugins[0].name == "chat";
    second := bot.Load("chat", true);
    count := |bot.plugins|;
  }

  /** Three requests to channel "A": the first is rate limited once and then
      succeeds, the other two succeed. They settle strictly in push order. */
  method RetryThenDrain() returns (order: seq<nat>)
    ensures order == [1, 2, 3]
  {
    var settlements := PushThenDrain(Request(1, "sendMessage", ["A", "one"]), Request(2, "sendMessage", ["A", "two"]),
                                     Request(3, "sendMessage", ["A", "three"]), 50,
                                     [Succeeded("ok"), Succeeded("ok"), Succeeded("ok")]);
    order := seq(|settlements|, i requires 0 <= i < |settlements| => settlements[i].request.ticket);
  }

  /** Pushes `r1`, `r2`, `r3` onto the empty queue of channel `id`. */
  method PushThree(bot: Bot, id: string, r1: Request, r2: Request, r3: Request)
    requires bot.Valid() && Pending(bot.queue, id) == []
    modifies bot`queue, bot`submitted, bot`settled
    ensures bot.Valid() && Pending(bot.queue, id) == [r1, r2, r3]
  {
    PushOne(bot, id, r1);
    assert [] + [r1] == [r1];
    PushOne(bot, id, r2);
    PushOne(bot, id, r3);
    assert [r1] + [r2] + [r3] == [r1, r2, r3];
  }

  /** Pushes `r` onto the queue of channel `id`. */
  method PushOne(bot: Bot, id: string, r: Request)
    requires bot.Valid()
    modifies bot`queue, bot`submitted, bot`settled
    ensures bot.Valid() && Pending(bot.queue, id) == old(Pending(bot.queue, id)) + [r]
  {
    var key, starts := bot.PushQueue(r, Some(id));
  }

  /** Pushes `r1`, `r2`, `r3` onto the queue of channel "A" of a fresh bot and
      executes it against one rate limit answer followed by `rest`. */
  method PushThenDrain(r1: Request, r2: Request, r3: Request, wait: nat, rest: seq<Outcome>)
    returns (settlements: seq<Settlement>)
    requires |rest| >= 3 && forall i :: 0 <= i < |rest| ==> rest[i].Succeeded?
    ensures |settlements| == 3
    ensures settlements[0].request == r1 && settlements[1].request == r2 && settlements[2].request == r3
  {
    var bot := new Bot("me", Config("!", []));
    PushThree(bot, "A", r1, r2, r3);
    var pending := [r1, r2, r3];
    var outcomes := [Failed(RateLimited, wait)] + rest;
    RetryThenSucceed(pending, wait, rest);
    ghost var d := Drain(pending, outcomes);
    assert |d.settlements| == 3 && forall i :: 0 <= i < 3 ==> d.settlements[i].request == pending[i];
    var used;
    settlements, used := bot.Execute("A", outcomes);
    assert settlements == d.settlements;
  }
}
