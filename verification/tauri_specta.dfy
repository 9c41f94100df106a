/** The crate root (`src/lib.rs`): wire names of plugin-scoped commands and
    events, the error-handling mode, the collected command and event sets, and
    the context handed to a language backend. */
module TauriSpecta {
  import opened Wrappers
  import opened Strings
  import opened Specta

  // ---------------------------------------------------------------------------
  // Wire names
  // ---------------------------------------------------------------------------

  datatype ItemType = Event | Command

  /** The character that separates the plugin name from the item name. */
  function Delimiter(itemType: ItemType): char {
    match itemType
    case Event => ':'
    case Command => '|'
  }

  /** `apply_as_prefix`: the wire name of an item that belongs to a plugin,
      `plugin:<plugin>:<event>` or `plugin:<plugin>|<command>`. */
  function ApplyAsPrefix(pluginName: string, s: string, itemType: ItemType): (r: string)
    ensures |r| == |"plugin:"| + |pluginName| + 1 + |s|
    ensures IsPrefix("plugin:", r)
    ensures r[7..7 + |pluginName|] == pluginName
    ensures r[7 + |pluginName|] == Delimiter(itemType)
    ensures IsSuffix(s, r)
  {
    "plugin:" + pluginName + [Delimiter(itemType)] + s
  }

  /** A plugin name that cannot be confused with the delimiter that follows it. */
  predicate NoDelimiter(name: string) {
    forall i :: 0 <= i < |name| ==> name[i] != ':' && name[i] != '|'
  }

  /** The first index at or after `from` holding a delimiter character. */
  function FindDelimiter(w: string, from: nat): (r: Option<nat>)
    ensures r.Some? ==> from <= r.value < |w| && (w[r.value] == ':' || w[r.value] == '|')
    ensures r.Some? ==> forall j :: from <= j < r.value ==> w[j] != ':' && w[j] != '|'
    ensures r.None? ==> forall j :: from <= j < |w| ==> w[j] != ':' && w[j] != '|'
    decreases |w| - from
  {
    if from >= |w| then None
    else if w[from] == ':' || w[from] == '|' then Some(from)
    else FindDelimiter(w, from + 1)
  }

  /** How the runtime reads a prefixed wire name back: plugin name, kind of
      item, and item name. */
  function ParsePrefixed(w: string): Option<(string, ItemType, string)> {
    if !IsPrefix("plugin:", w) then None
    else
      match FindDelimiter(w, 7)
      case None => None
      case Some(i) => Some((w[7..i], if w[i] == ':' then Event else Command, w[i + 1..]))
  }

  /** A prefixed wire name can be read back when the plugin name holds no
      delimiter character: the two delimiters keep commands and events apart. */
  lemma ParseApplyAsPrefix(pluginName: string, s: string, itemType: ItemType)
    requires NoDelimiter(pluginName)
    ensures ParsePrefixed(ApplyAsPrefix(pluginName, s, itemType)) == Some((pluginName, itemType, s))
  {
    var w := ApplyAsPrefix(pluginName, s, itemType);
    var i := 7 + |pluginName|;
    assert forall j :: 7 <= j < i ==> w[j] == pluginName[j - 7];
    FindDelimiterAt(w, 7, i);
    assert w[i + 1..] == s;
  }

  lemma {:induction false} FindDelimiterAt(w: string, from: nat, i: nat)
    requires from <= i < |w|
    requires w[i] == ':' || w[i] == '|'
    requires forall j :: from <= j < i ==> w[j] != ':' && w[j] != '|'
    ensures FindDelimiter(w, from) == Some(i)
    decreases i - from
  {
    if from < i {
      FindDelimiterAt(w, from + 1, i);
    }
  }

  /** Distinct (plugin, item, kind) triples get distinct wire names, as long as
      plugin names hold no delimiter character. */
  lemma ApplyAsPrefixInjective(p1: string, s1: string, t1: ItemType, p2: string, s2: string, t2: ItemType)
    requires NoDelimiter(p1) && NoDelimiter(p2)
    requires ApplyAsPrefix(p1, s1, t1) == ApplyAsPrefix(p2, s2, t2)
    ensures p1 == p2 && s1 == s2 && t1 == t2
  {
    ParseApplyAsPrefix(p1, s1, t1);
    ParseApplyAsPrefix(p2, s2, t2);
  }

  /** The event and the command form of one name differ exactly at the
      delimiter, whatever the plugin name. */
  lemma EventAndCommandFormsDiffer(pluginName: string, s: string)
    ensures ApplyAsPrefix(pluginName, s, Event) != ApplyAsPrefix(pluginName, s, Command)
    ensures forall j :: 0 <= j < |ApplyAsPrefix(pluginName, s, Event)| && j != 7 + |pluginName| ==>
              ApplyAsPrefix(pluginName, s, Event)[j] == ApplyAsPrefix(pluginName, s, Command)[j]
  {
    var e := ApplyAsPrefix(pluginName, s, Event);
    var c := ApplyAsPrefix(pluginName, s, Command);
    assert e[7 + |pluginName|] != c[7 + |pluginName|];
  }

  // ---------------------------------------------------------------------------
  // Error handling mode
  // ---------------------------------------------------------------------------

  /** `ErrorHandlingMode`: `Throw` makes a failing command throw; `Result` makes
      it return `{ status: "error", error }`. */
  datatype ErrorHandlingMode = Throw | Result

  /** `#[default]` on the `Result` variant. */
  const DefaultErrorHandlingMode: ErrorHandlingMode := ErrorHandlingMode.Result

  // ---------------------------------------------------------------------------
  // Collected commands and events
  // ---------------------------------------------------------------------------

  /** The type half of `Commands`: collects the command signatures, registering
      the types they reach in the type map. The invoke handler half is runtime
      plumbing and is not modelled. */
  datatype Commands = Commands(collect: TypeMap -> (seq<Function>, TypeMap))

  /** One event builder: given the type map, returns the event type's identity,
      the payload type, and the type map with the payload's types added. */
  type EventBuild = TypeMap -> (SpectaId, DataType, TypeMap)

  /** `Events`: event builders keyed by the event's `NAME`. */
  datatype Events = Events(builds: map<string, EventBuild>)

  /** `internal::register_event`: adds an event under its name; a name that is
      already registered is a panic. */
  function RegisterEvent(events: Events, name: string, build: EventBuild): (r: Result<Events, Panic>)
    ensures r.Err? <==> name in events.builds
    ensures r.Err? ==> r.error == Panic("Another event with name " + name + " is already registered!")
    ensures r.Ok? ==> r.value.builds.Keys == events.builds.Keys + {name}
    ensures r.Ok? ==> r.value.builds[name] == build
    ensures r.Ok? ==> forall k :: k in events.builds ==> r.value.builds[k] == events.builds[k]
  {
    if name in events.builds then
      Err(Panic("Another event with name " + name + " is already registered!"))
    else
      Ok(Events(events.builds[name := build]))
  }

  /** The event names of a list of registrations, in order. */
  function NamesOf(list: seq<(string, EventBuild)>): (names: seq<string>)
    ensures |names| == |list|
    ensures forall i :: 0 <= i < |list| ==> names[i] == list[i].0
  {
    if |list| == 0 then [] else [list[0].0] + NamesOf(list[1..])
  }

  predicate Distinct(names: seq<string>) {
    forall i, j :: 0 <= i < j < |names| ==> names[i] != names[j]
  }

  /** `register_event` applied to each registration in turn, as the
      `collect_events!` macro does. */
  function RegisterAll(events: Events, list: seq<(string, EventBuild)>): (r: Result<Events, Panic>)
    ensures r.Ok? <==> Distinct(NamesOf(list)) && forall i :: 0 <= i < |list| ==> list[i].0 !in events.builds
    ensures r.Ok? ==> r.value.builds.Keys == events.builds.Keys + (set n | n in NamesOf(list))
    ensures r.Ok? ==> forall i :: 0 <= i < |list| ==> r.value.builds[list[i].0] == list[i].1
    ensures r.Ok? ==> forall k :: k in events.builds ==> r.value.builds[k] == events.builds[k]
    decreases |list|
  {
    if |list| == 0 then
      Ok(events)
    else
      var next :- RegisterEvent(events, list[0].0, list[0].1);
      var rest := RegisterAll(next, list[1..]);
      assert forall i :: 1 <= i < |list| ==> list[i] == list[1..][i - 1];
      assert NamesOf(list) == [list[0].0] + NamesOf(list[1..]);
      rest
  }

  /** `collect_events![E1, E2, ...]`: starts from no events; two events with the
      same name make it panic. */
  function CollectEvents(list: seq<(string, EventBuild)>): (r: Result<Events, Panic>)
    ensures r.Ok? <==> Distinct(NamesOf(list))
    ensures r.Ok? ==> r.value.builds.Keys == set n | n in NamesOf(list)
    ensures r.Ok? ==> forall i :: 0 <= i < |list| ==> r.value.builds[list[i].0] == list[i].1
  {
    RegisterAll(Events(map[]), list)
  }

  // ---------------------------------------------------------------------------
  // What a language backend renders
  // ---------------------------------------------------------------------------

  /** `ExportContext`. `events` is keyed by event name (a `BTreeMap`, walked in
      key order); `constants` by constant name. */
  datatype ExportContext = ExportContext(
    pluginName: Option<string>,
    commands: seq<Function>,
    errorHandling: ErrorHandlingMode,
    events: map<string, DataType>,
    typeMap: TypeMap,
    constants: map<string, Json>)
}
