/** The builder (`src/builder.rs`): the state an application configures
    before exporting bindings, and the context it hands to a backend. The
    invoke handler it also carries is runtime plumbing and is not part of the
    record. */
module Builder {
  import opened Wrappers
  import opened Strings
  import opened Specta
  import opened TauriSpecta

  /** `Builder`, without the invoke-handler half of its `commands` field. */
  datatype Builder = Builder(
    pluginName: Option<string>,
    commandTypes: seq<Function>,
    errorHandling: ErrorHandlingMode,
    events: map<string, DataType>,
    eventSids: set<SpectaId>,
    types: TypeMap,
    constants: map<string, Json>)

  /** `Builder::default` (and `Builder::new`). */
  function Default(): (b: Builder)
    ensures b.pluginName.None? && b.errorHandling == ErrorHandlingMode.Result
    ensures b.commandTypes == [] && b.events == map[] && b.eventSids == {}
    ensures b.types == map[] && b.constants == map[]
  {
    Builder(None, [], DefaultErrorHandlingMode, map[], {}, map[], map[])
  }

  /** `plugin_name`: sets the plugin name and nothing else. */
  function PluginName(b: Builder, name: string): (r: Builder)
    ensures r.pluginName == Some(name)
    ensures r.(pluginName := b.pluginName) == b
  {
    b.(pluginName := Some(name))
  }

  /** `error_handling`: sets the mode and nothing else. */
  function ErrorHandling(b: Builder, mode: ErrorHandlingMode): (r: Builder)
    ensures r.errorHandling == mode
    ensures r.(errorHandling := b.errorHandling) == b
  {
    b.(errorHandling := mode)
  }

  /** `commands`: collects the command signatures against the current type
      map. The new list replaces the old one; only the list and the type map
      change. */
  function WithCommands(b: Builder, commands: Commands): (r: Builder)
    ensures r.commandTypes == commands.collect(b.types).0
    ensures r.types == commands.collect(b.types).1
    ensures r.(commandTypes := b.commandTypes, types := b.types) == b
  {
    var (fs, types) := commands.collect(b.types);
    b.(commandTypes := fs, types := types)
  }

  /** What running a list of event builders produced: the payload type of
      each event, the identities of the event types, and the type map after
      the last builder. */
  datatype Built = Built(events: map<string, DataType>, sids: set<SpectaId>, types: TypeMap)

  /** The type map the `i`-th builder is given: the initial map, after each
      earlier builder has added its types. */
  function TypesBefore(list: seq<(string, EventBuild)>, types: TypeMap, i: nat): TypeMap
    requires i <= |list|
  {
    if i == 0 then types else list[i - 1].1(TypesBefore(list, types, i - 1)).2
  }

  /** What the `i`-th builder returns: identity, payload type, type map. */
  function Step(list: seq<(string, EventBuild)>, types: TypeMap, i: nat): (SpectaId, DataType, TypeMap)
    requires i < |list|
  {
    list[i].1(TypesBefore(list, types, i))
  }

  /** Runs the first `n` builders in list order, threading the type map from
      one to the next, and stores each payload type under its event name. */
  function BuildFirst(list: seq<(string, EventBuild)>, types: TypeMap, n: nat): (r: Built)
    requires n <= |list|
    ensures r.types == TypesBefore(list, types, n)
  {
    if n == 0 then
      Built(map[], {}, types)
    else
      var prev := BuildFirst(list, types, n - 1);
      var step := Step(list, types, n - 1);
      Built(prev.events[list[n - 1].0 := step.1], prev.sids + {step.0}, step.2)
  }

  /** No entry after `i` and before `n` has the name of entry `i`. */
  predicate LastOfName(list: seq<(string, EventBuild)>, i: nat, n: nat)
    requires i < n <= |list|
  {
    forall j :: i < j < n ==> list[j].0 != list[i].0
  }

  /** The events built are exactly the names run. */
  lemma {:induction false} BuildFirstNames(list: seq<(string, EventBuild)>, types: TypeMap, n: nat)
    requires n <= |list|
    ensures forall k :: k in BuildFirst(list, types, n).events <==> exists i :: 0 <= i < n && list[i].0 == k
  {
    if n > 0 {
      BuildFirstNames(list, types, n - 1);
      var r := BuildFirst(list, types, n);
      forall k | k in r.events
        ensures exists i :: 0 <= i < n && list[i].0 == k
      {
        if k != list[n - 1].0 {
          var i :| 0 <= i < n - 1 && list[i].0 == k;
        }
      }
    }
  }

  /** The identities collected are exactly those the builders returned. */
  lemma {:induction false} BuildFirstSids(list: seq<(string, EventBuild)>, types: TypeMap, n: nat)
    requires n <= |list|
    ensures forall s :: s in BuildFirst(list, types, n).sids <==> exists i :: 0 <= i < n && Step(list, types, i).0 == s
  {
    if n > 0 {
      BuildFirstSids(list, types, n - 1);
      var r := BuildFirst(list, types, n);
      forall s | s in r.sids
        ensures exists i :: 0 <= i < n && Step(list, types, i).0 == s
      {
        if s != Step(list, types, n - 1).0 {
          var i :| 0 <= i < n - 1 && Step(list, types, i).0 == s;
        }
      }
    }
  }

  /** The payload type stored under a name is the one its last builder
      returned. */
  lemma {:induction false} BuildFirstPayload(list: seq<(string, EventBuild)>, types: TypeMap, n: nat, i: nat)
    requires i < n <= |list| && LastOfName(list, i, n)
    ensures list[i].0 in BuildFirst(list, types, n).events
    ensures BuildFirst(list, types, n).events[list[i].0] == Step(list, types, i).1
  {
    if i < n - 1 {
      assert list[n - 1].0 != list[i].0;
      BuildFirstPayload(list, types, n - 1, i);
    }
  }

  /** Running a list of builders with distinct names. */
  lemma BuildAllContents(list: seq<(string, EventBuild)>, types: TypeMap)
    requires forall i, j :: 0 <= i < j < |list| ==> list[i].0 != list[j].0
    ensures var r := BuildFirst(list, types, |list|);
            && (forall k :: k in r.events <==> exists i :: 0 <= i < |list| && list[i].0 == k)
            && (forall s :: s in r.sids <==> exists i :: 0 <= i < |list| && Step(list, types, i).0 == s)
            && (forall i :: 0 <= i < |list| ==> list[i].0 in r.events && r.events[list[i].0] == Step(list, types, i).1)
  {
    BuildFirstNames(list, types, |list|);
    BuildFirstSids(list, types, |list|);
    forall i | 0 <= i < |list|
      ensures list[i].0 in BuildFirst(list, types, |list|).events
      ensures BuildFirst(list, types, |list|).events[list[i].0] == Step(list, types, i).1
    {
      BuildFirstPayload(list, types, |list|, i);
    }
  }

  /** The event list walked in name order, as the `BTreeMap` of builders is. */
  function EventList(events: Events): (list: seq<(string, EventBuild)>)
    ensures |list| == |events.builds.Keys|
    ensures forall i :: 0 <= i < |list| ==> list[i].0 in events.builds && list[i].1 == events.builds[list[i].0]
    ensures forall k :: k in events.builds ==> exists i :: 0 <= i < |list| && list[i].0 == k
    ensures forall i, j :: 0 <= i < j < |list| ==> list[i].0 != list[j].0
  {
    SortedEntries(events.builds)
  }

  /** Running a list that walks every registered event once builds one
      payload per event name. */
  lemma EventListContents(events: Events, list: seq<(string, EventBuild)>, types: TypeMap)
    requires forall i :: 0 <= i < |list| ==> list[i].0 in events.builds
    requires forall k :: k in events.builds ==> exists i :: 0 <= i < |list| && list[i].0 == k
    requires forall i, j :: 0 <= i < j < |list| ==> list[i].0 != list[j].0
    ensures var r := BuildFirst(list, types, |list|);
            && r.events.Keys == events.builds.Keys
            && (forall i :: 0 <= i < |list| ==> list[i].0 in r.events && r.events[list[i].0] == Step(list, types, i).1)
            && (forall s :: s in r.sids <==> exists i :: 0 <= i < |list| && Step(list, types, i).0 == s)
  {
    var r := BuildFirst(list, types, |list|);
    BuildAllContents(list, types);
    assert forall k :: k in r.events <==> k in events.builds;
  }

  /** `events`: runs every builder in name order against the type map, stores
      each payload type under its event name and collects the event types'
      identities; then drops the `Channel<()>` type (`channel`) from the type
      map. The new events and identities replace the old ones. */
  function WithEvents(b: Builder, events: Events, channel: SpectaId): (r: Builder)
    ensures var list := EventList(events);
            && r.events.Keys == events.builds.Keys
            && (forall i :: 0 <= i < |list| ==> r.events[list[i].0] == Step(list, b.types, i).1)
            && (forall s :: s in r.eventSids <==> exists i :: 0 <= i < |list| && Step(list, b.types, i).0 == s)
            && r.types == TypesBefore(list, b.types, |list|) - {channel}
    ensures channel !in r.types
    ensures r.(events := b.events, eventSids := b.eventSids, types := b.types) == b
  {
    var list := EventList(events);
    var built := BuildFirst(list, b.types, |list|);
    EventListContents(events, list, b.types);
    b.(events := built.events, eventSids := built.sids, types := built.types - {channel})
  }

  /** `typ` (and the deprecated `ty`): `define` computes the type's named
      declaration, registering the types it depends on; the declaration is then
      stored under the type's identity. */
  function Typ(b: Builder, sid: SpectaId, define: TypeMap -> (NamedDataType, TypeMap)): (r: Builder)
    ensures r.types.Keys == define(b.types).1.Keys + {sid}
    ensures r.types[sid] == define(b.types).0
    ensures forall s :: s in define(b.types).1 && s != sid ==> r.types[s] == define(b.types).1[s]
    ensures r.(types := b.types) == b
  {
    var (ndt, types) := define(b.types);
    b.(types := types[sid := ndt])
  }

  /** `constant`: stores the JSON value of a constant under its name.
      `value` is what `serde_json::to_value` gave: the value, or the `Debug`
      text of its error, which makes the `expect` panic. */
  function Constant(b: Builder, name: string, value: Result<Json, string>): (r: Result<Builder, Panic>)
    ensures r.Err? <==> value.Err?
    ensures r.Err? ==> r.error == Panic("Tauri Specta failed to serialize constant: " + value.error)
    ensures r.Ok? ==> r.value.constants.Keys == b.constants.Keys + {name}
    ensures r.Ok? ==> r.value.constants[name] == value.value
    ensures r.Ok? ==> forall k :: k in b.constants && k != name ==> r.value.constants[k] == b.constants[k]
    ensures r.Ok? ==> r.value.(constants := b.constants) == b
  {
    match value
    case Err(e) => Err(Panic("Tauri Specta failed to serialize constant: " + e))
    case Ok(v) => Ok(b.(constants := b.constants[name := v]))
  }

  /** Setting a constant twice keeps the last value: the builder is the same
      as if only the second call had been made. */
  lemma ConstantLastWriteWins(b: Builder, name: string, first: Json, second: Json)
    ensures Constant(Constant(b, name, Ok(first)).value, name, Ok(second)) == Constant(b, name, Ok(second))
  {
    var once := Constant(b, name, Ok(second)).value;
    var twice := Constant(Constant(b, name, Ok(first)).value, name, Ok(second)).value;
    assert twice.constants == once.constants;
  }

  /** Constants with different names can be set in either order. */
  lemma ConstantsCommute(b: Builder, n1: string, v1: Json, n2: string, v2: Json)
    requires n1 != n2
    ensures Constant(Constant(b, n1, Ok(v1)).value, n2, Ok(v2))
            == Constant(Constant(b, n2, Ok(v2)).value, n1, Ok(v1))
  {
    var x := Constant(Constant(b, n1, Ok(v1)).value, n2, Ok(v2)).value;
    var y := Constant(Constant(b, n2, Ok(v2)).value, n1, Ok(v1)).value;
    assert x.constants == y.constants;
  }

  /** `EventRegistryMeta`: what the runtime registry records for an event type. */
  datatype EventRegistryMeta = EventRegistryMeta(pluginName: Option<string>)

  /** `mount_events`, the registry update only: every event type the builder
      collected is recorded with the builder's plugin name; entries for other
      event types are left as they are. */
  method MountEvents(b: Builder, registry: map<SpectaId, EventRegistryMeta>)
    returns (r: map<SpectaId, EventRegistryMeta>)
    ensures r.Keys == registry.Keys + b.eventSids
    ensures forall sid :: sid in b.eventSids ==> r[sid] == EventRegistryMeta(b.pluginName)
    ensures forall sid :: sid in registry && sid !in b.eventSids ==> r[sid] == registry[sid]
  {
    r := registry;
    var remaining := b.eventSids;
    while remaining != {}
      invariant remaining <= b.eventSids
      invariant forall sid :: sid in r <==> sid in registry || (sid in b.eventSids && sid !in remaining)
      invariant forall sid :: sid in b.eventSids && sid !in remaining ==> r[sid] == EventRegistryMeta(b.pluginName)
      invariant forall sid :: sid in registry && (sid !in b.eventSids || sid in remaining) ==> r[sid] == registry[sid]
      decreases |remaining|
    {
      var sid :| sid in remaining;
      r := r[sid := EventRegistryMeta(b.pluginName)];
      remaining := remaining - {sid};
    }
  }

  /** The context `export_str` hands to the backend: exactly the builder's
      commands, mode, events, types, constants and plugin name. */
  function Context(b: Builder): (cfg: ExportContext)
    ensures cfg.pluginName == b.pluginName && cfg.commands == b.commandTypes
    ensures cfg.errorHandling == b.errorHandling && cfg.events == b.events
    ensures cfg.typeMap == b.types && cfg.constants == b.constants
  {
    ExportContext(b.pluginName, b.commandTypes, b.errorHandling, b.events, b.types, b.constants)
  }
}
