/** The two languages bindings can be exported to (`LanguageExt`, with its
    implementations in `src/lang/ts.rs` and `src/lang/js.rs`) and
    `Builder::export_str`, which renders the builder's state in one of them. */
module Lang {
  import opened Wrappers
  import opened Strings
  import opened Specta
  import opened TauriSpecta
  import opened JsTs
  import Ts
  import Js
  import Builder

  /** A language configuration: `specta_typescript::Typescript` or
      `specta_typescript::JSDoc`. */
  datatype Language = TypescriptLanguage(ts: Typescript) | JSDocLanguage(js: JSDoc)

  /** The texts of the bundled runtime helpers, `globals.ts` and `globals.js`. */
  datatype Globals = Globals(ts: string, js: string)

  /** The header a language configuration puts at the top of the document. */
  function Header(lang: Language): string {
    match lang
    case TypescriptLanguage(ts) => ts.header
    case JSDocLanguage(js) => js.inner.header
  }

  /** `LanguageExt::render`: each language renders with its own backend and
      its own bundled helpers. Whatever the language, a rendered document
      opens with the configured header, invokes every command by its wire
      name and maps every event to its wire name. */
  function Render(env: Env, lang: Language, cfg: ExportContext, globals: Globals): (r: Result<string, ExportError>)
    ensures r.Ok? ==> IsPrefix(Header(lang), r.value)
    ensures r.Ok? ==> forall i :: 0 <= i < |cfg.commands| ==>
              Contains(r.value, InvokeCall(InvokeName(cfg.pluginName, cfg.commands[i].name)))
    ensures r.Ok? ==> forall name :: name in cfg.events ==>
              Contains(r.value, EventMapEntry(env, name, cfg.pluginName))
  {
    match lang
    case TypescriptLanguage(ts) =>
      TsDocumentFacts(env, ts, cfg, globals.ts);
      Ts.Render(env, ts, cfg, globals.ts)
    case JSDocLanguage(js) =>
      JsDocumentFacts(env, js, cfg, globals.js);
      Js.Render(env, js, cfg, globals.js)
  }

  /** `export_str`: renders the context built from the builder, so every
      registered command is invoked and every registered event is mapped in
      the document. */
  function ExportStr(env: Env, b: Builder.Builder, lang: Language, globals: Globals): (r: Result<string, ExportError>)
    ensures r.Ok? ==> forall i :: 0 <= i < |b.commandTypes| ==>
              Contains(r.value, InvokeCall(InvokeName(b.pluginName, b.commandTypes[i].name)))
    ensures r.Ok? ==> forall name :: name in b.events ==>
              Contains(r.value, EventMapEntry(env, name, b.pluginName))
  {
    Render(env, lang, Builder.Context(b), globals)
  }

  /** The commands and the events sections of a rendered document occur in it. */
  lemma SectionsInDocument(header: string, commands: string, events: string, constants: string,
                           types: string, globals: string)
    ensures Contains(Concat(DocumentPieces(header, commands, events, constants, types, globals)), commands)
    ensures Contains(Concat(DocumentPieces(header, commands, events, constants, types, globals)), events)
  {
    var pieces := DocumentPieces(header, commands, events, constants, types, globals);
    DocumentSectionOrder(header, commands, events, constants, types, globals);
    assert OccursAt(commands, Concat(pieces), Offset(pieces, 2));
    assert OccursAt(events, Concat(pieces), Offset(pieces, 4));
  }

  /** A TypeScript document opens with its header, invokes every command and
      maps every event. */
  lemma TsDocumentFacts(env: Env, ts: Typescript, cfg: ExportContext, globals: string)
    ensures Ts.Render(env, ts, cfg, globals).Ok? ==>
            && IsPrefix(ts.header, Ts.Render(env, ts, cfg, globals).value)
            && (forall i :: 0 <= i < |cfg.commands| ==>
                  Contains(Ts.Render(env, ts, cfg, globals).value,
                           InvokeCall(InvokeName(cfg.pluginName, cfg.commands[i].name))))
            && (forall name :: name in cfg.events ==>
                  Contains(Ts.Render(env, ts, cfg, globals).value, EventMapEntry(env, name, cfg.pluginName)))
  {
    if Ts.Render(env, ts, cfg, globals).Ok? {
      var types := DependantTypes(env, cfg.typeMap, env.exportType).value;
      var commands := Ts.RenderCommands(env, cfg).value;
      var events := Ts.RenderEvents(env, cfg).value;
      DocumentSectionOrder(ts.header, commands, events, ConstantsSection(env, cfg.constants, true), types, globals);
      forall i | 0 <= i < |cfg.commands|
        ensures Contains(Ts.Render(env, ts, cfg, globals).value,
                         InvokeCall(InvokeName(cfg.pluginName, cfg.commands[i].name)))
      {
        TsInvokesCommand(env, ts, cfg, globals, i);
      }
      forall name | name in cfg.events
        ensures Contains(Ts.Render(env, ts, cfg, globals).value, EventMapEntry(env, name, cfg.pluginName))
      {
        TsMapsEvent(env, ts, cfg, globals, name);
      }
    }
  }

  lemma TsInvokesCommand(env: Env, ts: Typescript, cfg: ExportContext, globals: string, i: nat)
    requires i < |cfg.commands| && Ts.Render(env, ts, cfg, globals).Ok?
    ensures Contains(Ts.Render(env, ts, cfg, globals).value,
                     InvokeCall(InvokeName(cfg.pluginName, cfg.commands[i].name)))
  {
    var f := cfg.commands[i];
    var doc := Ts.Render(env, ts, cfg, globals).value;
    var call := InvokeCall(InvokeName(cfg.pluginName, f.name));
    var types := DependantTypes(env, cfg.typeMap, env.exportType).value;
    var commands := Ts.RenderCommands(env, cfg).value;
    var events := Ts.RenderEvents(env, cfg).value;
    var body := CommandBody(env, cfg.pluginName, f, true, cfg.errorHandling);
    var wrapper := Ts.CommandWrapper(env, cfg, f).value;
    CommandBodyInvokes(env, cfg.pluginName, f, true, cfg.errorHandling);
    ContainsTransitive(wrapper, body, call);
    ContainsTransitive(commands, wrapper, call);
    SectionsInDocument(ts.header, commands, events, ConstantsSection(env, cfg.constants, true), types, globals);
    ContainsTransitive(doc, commands, call);
  }

  lemma TsMapsEvent(env: Env, ts: Typescript, cfg: ExportContext, globals: string, name: string)
    requires name in cfg.events && Ts.Render(env, ts, cfg, globals).Ok?
    ensures Contains(Ts.Render(env, ts, cfg, globals).value, EventMapEntry(env, name, cfg.pluginName))
  {
    var doc := Ts.Render(env, ts, cfg, globals).value;
    var entry := EventMapEntry(env, name, cfg.pluginName);
    var eventsMap := EventsMap(env, cfg.events, cfg.pluginName);
    var types := DependantTypes(env, cfg.typeMap, env.exportType).value;
    var commands := Ts.RenderCommands(env, cfg).value;
    var events := Ts.RenderEvents(env, cfg).value;
    assert |cfg.events| > 0;
    ContainsTransitive(events, eventsMap, entry);
    SectionsInDocument(ts.header, commands, events, ConstantsSection(env, cfg.constants, true), types, globals);
    ContainsTransitive(doc, events, entry);
  }

  /** A JavaScript document opens with its header, invokes every command and
      maps every event. */
  lemma JsDocumentFacts(env: Env, js: JSDoc, cfg: ExportContext, globals: string)
    ensures Js.Render(env, js, cfg, globals).Ok? ==>
            && IsPrefix(js.inner.header, Js.Render(env, js, cfg, globals).value)
            && (forall i :: 0 <= i < |cfg.commands| ==>
                  Contains(Js.Render(env, js, cfg, globals).value,
                           InvokeCall(InvokeName(cfg.pluginName, cfg.commands[i].name))))
            && (forall name :: name in cfg.events ==>
                  Contains(Js.Render(env, js, cfg, globals).value, EventMapEntry(env, name, cfg.pluginName)))
  {
    if Js.Render(env, js, cfg, globals).Ok? {
      var types := DependantTypes(env, cfg.typeMap, env.typedefType).value;
      var commands := Js.RenderCommands(env, cfg).value;
      var events := Js.RenderEvents(env, cfg).value;
      DocumentSectionOrder(js.inner.header, commands, events, ConstantsSection(env, cfg.constants, false), types, globals);
      forall i | 0 <= i < |cfg.commands|
        ensures Contains(Js.Render(env, js, cfg, globals).value,
                         InvokeCall(InvokeName(cfg.pluginName, cfg.commands[i].name)))
      {
        JsInvokesCommand(env, js, cfg, globals, i);
      }
      forall name | name in cfg.events
        ensures Contains(Js.Render(env, js, cfg, globals).value, EventMapEntry(env, name, cfg.pluginName))
      {
        JsMapsEvent(env, js, cfg, globals, name);
      }
    }
  }

  lemma JsInvokesCommand(env: Env, js: JSDoc, cfg: ExportContext, globals: string, i: nat)
    requires i < |cfg.commands| && Js.Render(env, js, cfg, globals).Ok?
    ensures Contains(Js.Render(env, js, cfg, globals).value,
                     InvokeCall(InvokeName(cfg.pluginName, cfg.commands[i].name)))
  {
    var f := cfg.commands[i];
    var doc := Js.Render(env, js, cfg, globals).value;
    var call := InvokeCall(InvokeName(cfg.pluginName, f.name));
    var types := DependantTypes(env, cfg.typeMap, env.typedefType).value;
    var commands := Js.RenderCommands(env, cfg).value;
    var events := Js.RenderEvents(env, cfg).value;
    var body := CommandBody(env, cfg.pluginName, f, false, cfg.errorHandling);
    var wrapper := Js.CommandWrapper(env, cfg, f).value;
    CommandBodyInvokes(env, cfg.pluginName, f, false, cfg.errorHandling);
    ContainsTransitive(wrapper, body, call);
    ContainsTransitive(commands, wrapper, call);
    SectionsInDocument(js.inner.header, commands, events, ConstantsSection(env, cfg.constants, false), types, globals);
    ContainsTransitive(doc, commands, call);
  }

  lemma JsMapsEvent(env: Env, js: JSDoc, cfg: ExportContext, globals: string, name: string)
    requires name in cfg.events && Js.Render(env, js, cfg, globals).Ok?
    ensures Contains(Js.Render(env, js, cfg, globals).value, EventMapEntry(env, name, cfg.pluginName))
  {
    var doc := Js.Render(env, js, cfg, globals).value;
    var entry := EventMapEntry(env, name, cfg.pluginName);
    var eventsMap := EventsMap(env, cfg.events, cfg.pluginName);
    var types := DependantTypes(env, cfg.typeMap, env.typedefType).value;
    var commands := Js.RenderCommands(env, cfg).value;
    var events := Js.RenderEvents(env, cfg).value;
    assert |cfg.events| > 0;
    assert OccursAt(eventsMap, events, |Js.EventsOpen|);
    ContainsTransitive(events, eventsMap, entry);
    SectionsInDocument(js.inner.header, commands, events, ConstantsSection(env, cfg.constants, false), types, globals);
    ContainsTransitive(doc, events, entry);
  }

  /** In a successful export for a plugin, every event is announced under
      its plugin-scoped wire name, `plugin:<plugin>:<event>`, in both
      languages. */
  lemma PluginEventsUsePrefixedNames(env: Env, b: Builder.Builder, lang: Language, globals: Globals,
                                     plugin: string, name: string)
    requires b.pluginName == Some(plugin)
    requires name in b.events
    ensures ExportStr(env, b, lang, globals).Ok? ==>
            Contains(ExportStr(env, b, lang, globals).value,
                     env.lowerCamel(name) + ": \"" + ApplyAsPrefix(plugin, name, Event) + "\"")
  {
    assert EventMapEntry(env, name, b.pluginName)
           == env.lowerCamel(name) + ": \"" + ApplyAsPrefix(plugin, name, Event) + "\"";
  }

  /** In a successful export for a plugin, every command is invoked by its
      plugin-scoped wire name, `plugin:<plugin>|<command>`, in both
      languages. */
  lemma PluginCommandsInvokePrefixedNames(env: Env, b: Builder.Builder, lang: Language, globals: Globals,
                                          plugin: string, i: nat)
    requires b.pluginName == Some(plugin)
    requires i < |b.commandTypes|
    ensures ExportStr(env, b, lang, globals).Ok? ==>
            Contains(ExportStr(env, b, lang, globals).value,
                     InvokeCall(ApplyAsPrefix(plugin, b.commandTypes[i].name, Command)))
  {
    assert InvokeName(b.pluginName, b.commandTypes[i].name) == ApplyAsPrefix(plugin, b.commandTypes[i].name, Command);
  }
}
