/** The JavaScript (JSDoc) backend (`src/lang/js.rs`): type declarations
    through `typedef`, untyped parameters, no return annotation, an untyped
    `__makeEvents__` call, and constants without `as const`. */
module Js {
  import opened Wrappers
  import opened Strings
  import opened Specta
  import opened TauriSpecta
  import opened JsTs

  /** The wrapper of one command. The result type is still computed (its
      documentation comment is empty in this version), so a result type that
      fails to render fails the wrapper; argument types are never rendered. */
  function CommandWrapper(env: Env, cfg: ExportContext, f: Function): (r: Result<string, ExportError>)
    ensures var ret := HandleResult(env, f, cfg.typeMap, cfg.errorHandling);
            && (r.Ok? <==> ret.Ok?)
            && (r.Err? ==> r.error == ret.error)
            && (r.Ok? ==> IsPrefix(Signature("", env.lowerCamel(f.name), ArgNames(env, f.args), None), r.value))
            && (r.Ok? ==> Contains(r.value, CommandBody(env, cfg.pluginName, f, false, cfg.errorHandling)))
  {
    var _ :- HandleResult(env, f, cfg.typeMap, cfg.errorHandling);
    Ok(JsTs.Function("", env.lowerCamel(f.name), ArgNames(env, f.args), None,
                     CommandBody(env, cfg.pluginName, f, false, cfg.errorHandling)))
  }

  const CommandsOpen: string := "export const commands = {\n        "
  const CommandsClose: string := "\n    }"

  /** `render_commands`: the `commands` object holding every wrapper, in
      command order, separated by `,\n`; the first wrapper that fails is the
      result. */
  function RenderCommands(env: Env, cfg: ExportContext): (r: Result<string, ExportError>)
    ensures r.Ok? <==> forall i :: 0 <= i < |cfg.commands| ==> CommandWrapper(env, cfg, cfg.commands[i]).Ok?
    ensures r.Err? ==> exists i :: 0 <= i < |cfg.commands| && CommandWrapper(env, cfg, cfg.commands[i]) == Err(r.error)
                                   && forall j :: 0 <= j < i ==> CommandWrapper(env, cfg, cfg.commands[j]).Ok?
    ensures r.Ok? ==> IsPrefix(CommandsOpen, r.value) && IsSuffix(CommandsClose, r.value)
    ensures r.Ok? ==> forall i :: 0 <= i < |cfg.commands| ==>
              Contains(r.value, CommandWrapper(env, cfg, cfg.commands[i]).value)
    ensures r.Ok? ==> r.value == Framed(CommandsOpen, WrappedTexts(cfg.commands, Wrapper(env, cfg)), ",\n", CommandsClose)
  {
    CommandsSection(cfg.commands, Wrapper(env, cfg), CommandsOpen, CommandsClose)
  }

  /** `CommandWrapper` for one export context, as a function of the command. */
  function Wrapper(env: Env, cfg: ExportContext): Function -> Result<string, ExportError>
  {
    f => CommandWrapper(env, cfg, f)
  }

  /** The text before the map of wire names. The JSDoc type annotation that
      would sit on its first line is empty in this version. */
  const EventsOpen: string :=
    "\n    \n    const __typedMakeEvents__ = __makeEvents__;\n\n    export const events = __typedMakeEvents__({\n    "
  const EventsClose: string := "\n    })"

  /** `render_events`: nothing when there are no events; otherwise the untyped
      `__makeEvents__` call over the map of wire names. The payload types are
      still rendered, so one that fails fails the export. */
  function RenderEvents(env: Env, cfg: ExportContext): (r: Result<string, ExportError>)
    ensures |cfg.events| == 0 ==> r == Ok("")
    ensures |cfg.events| > 0 ==>
              var types := EventsTypes(env, cfg.events, cfg.typeMap);
              && (r.Ok? <==> types.Ok?)
              && (r.Err? ==> r.error == types.error)
              && (r.Ok? ==> IsPrefix(EventsOpen, r.value) && IsSuffix(EventsClose, r.value))
              && (r.Ok? ==> OccursAt(EventsMap(env, cfg.events, cfg.pluginName), r.value, |EventsOpen|))
              && (r.Ok? ==> r.value == EventsOpen + EventsMap(env, cfg.events, cfg.pluginName) + EventsClose)
  {
    if |cfg.events| == 0 then
      Ok("")
    else
      var data :- EventsData(env, cfg.events, cfg.pluginName, cfg.typeMap);
      var r := EventsOpen + data.1 + EventsClose;
      PrefixOfConcat(EventsOpen, data.1);
      PrefixAppend(EventsOpen, EventsOpen + data.1, EventsClose);
      SuffixOfConcat(EventsOpen + data.1, EventsClose);
      OccursInConcat(EventsOpen, data.1, EventsClose);
      Ok(r)
  }

  /** `render` for `JSDoc`: type declarations (through `typedef`) first, then
      the commands, then the events; the first of them that fails is the
      result, and otherwise the document is assembled with the inner
      configuration's header and constants without `as const`. `globals` is the
      text of the bundled `globals.js`. */
  function Render(env: Env, js: JSDoc, cfg: ExportContext, globals: string): (r: Result<string, ExportError>)
    ensures var types := DependantTypes(env, cfg.typeMap, env.typedefType);
            var commands := RenderCommands(env, cfg);
            var events := RenderEvents(env, cfg);
            && (r.Ok? <==> types.Ok? && commands.Ok? && events.Ok?)
            && (types.Err? ==> r == Err(types.error))
            && (types.Ok? && commands.Err? ==> r == Err(commands.error))
            && (types.Ok? && commands.Ok? && events.Err? ==> r == Err(events.error))
            && (r.Ok? ==> r.value == Concat(Sections(env, js, cfg, globals, types.value, commands.value, events.value)))
  {
    var types :- DependantTypes(env, cfg.typeMap, env.typedefType);
    var commands :- RenderCommands(env, cfg);
    var events :- RenderEvents(env, cfg);
    RenderAllParts(env, cfg, types, globals, js.inner.header, commands, events, false)
  }

  /** The pieces of the JavaScript document, given the rendered sections. */
  function Sections(env: Env, js: JSDoc, cfg: ExportContext, globals: string,
                    types: string, commands: string, events: string): seq<string> {
    DocumentPieces(js.inner.header, commands, events, ConstantsSection(env, cfg.constants, false), types, globals)
  }

  /** A wrapper's parameter list and its invocation payload hold the same
      names in the same order: the lower-camel-case argument names. */
  lemma ParamsMatchPayload(env: Env, cfg: ExportContext, f: Function)
    requires CommandWrapper(env, cfg, f).Ok?
    ensures var w := CommandWrapper(env, cfg, f).value;
            var names := ArgNames(env, f.args);
            && IsPrefix("async " + env.lowerCamel(f.name) + "(" + Join(names, ", ") + ") ", w)
            && (|names| > 0 ==> Contains(w, ", { " + Join(names, ", ") + " })"))
  {
    var names := ArgNames(env, f.args);
    SignatureWithoutType(env.lowerCamel(f.name), names);
    if |names| > 0 {
      WrapperPassesPayload(env, cfg, f);
    }
  }

  /** A JSDoc signature declares no return type. Kept apart from
      `ParamsMatchPayload` because unfolding `Signature` next to the whole
      wrapper leaves the solver too many terms to consider. */
  lemma SignatureWithoutType(name: string, names: seq<string>)
    ensures Signature("", name, names, None) == "async " + name + "(" + Join(names, ", ") + ") "
  {
    assert PromiseType(None) == "";
  }

  /** The invocation inside a wrapper passes the `{ a, b }` payload. */
  lemma WrapperPassesPayload(env: Env, cfg: ExportContext, f: Function)
    requires CommandWrapper(env, cfg, f).Ok?
    requires |f.args| > 0
    ensures Contains(CommandWrapper(env, cfg, f).value, ", { " + Join(ArgNames(env, f.args), ", ") + " })")
  {
    var names := ArgNames(env, f.args);
    var body := CommandBody(env, cfg.pluginName, f, false, cfg.errorHandling);
    BodyHasPayload(env, cfg.pluginName, f, cfg.errorHandling);
    assert ", " + ("{ " + Join(names, ", ") + " }") + ")" == ", { " + Join(names, ", ") + " })";
    ContainsTransitive(CommandWrapper(env, cfg, f).value, body, ", { " + Join(names, ", ") + " })");
  }

  lemma BodyHasPayload(env: Env, pluginName: Option<string>, f: Function, mode: ErrorHandlingMode)
    requires |f.args| > 0
    ensures Contains(CommandBody(env, pluginName, f, false, mode), ", " + ArgUsages(ArgNames(env, f.args)).value + ")")
  {
    var body := CommandBody(env, pluginName, f, false, mode);
    var call := InvokeCall(InvokeName(pluginName, f.name));
    var payload := ", " + ArgUsages(ArgNames(env, f.args)).value + ")";
    CommandBodyInvokes(env, pluginName, f, false, mode);
    ContainsRight(call, payload);
    ContainsTransitive(body, call + payload, payload);
  }

  /** The first command whose result type fails to render fails the whole
      export, once the type declarations have rendered. */
  lemma ReturnTypeErrorFailsExport(env: Env, js: JSDoc, cfg: ExportContext, globals: string, i: nat)
    requires DependantTypes(env, cfg.typeMap, env.typedefType).Ok?
    requires i < |cfg.commands|
    requires HandleResult(env, cfg.commands[i], cfg.typeMap, cfg.errorHandling).Err?
    requires forall j :: 0 <= j < i ==> HandleResult(env, cfg.commands[j], cfg.typeMap, cfg.errorHandling).Ok?
    ensures Render(env, js, cfg, globals) == Err(HandleResult(env, cfg.commands[i], cfg.typeMap, cfg.errorHandling).error)
  {
    CollectFirstFailure(cfg.commands, Wrapper(env, cfg), i);
  }

  /** Constants are emitted without `as const`. */
  lemma ConstantsWithoutAsConst(env: Env, constants: map<string, Json>)
    ensures forall i :: 0 <= i < |constants.Keys| ==>
              var e := SortedEntries(constants)[i];
              ConstantLines(env, constants, false)[i] == "export const " + e.0 + " = " + env.jsonText(e.1) + ";"
  {
    forall i | 0 <= i < |constants.Keys|
      ensures var e := SortedEntries(constants)[i];
              ConstantLines(env, constants, false)[i] == "export const " + e.0 + " = " + env.jsonText(e.1) + ";"
    {
      var e := SortedEntries(constants)[i];
      var text := "export const " + e.0 + " = " + env.jsonText(e.1);
      assert AsConstSuffix(e.1, false) == "";
      assert text + "" == text;
    }
  }

  /** The events section and the type declarations do not depend on the
      error-handling mode. */
  lemma EventsAndTypesIgnoreMode(env: Env, cfg: ExportContext, mode: ErrorHandlingMode)
    ensures RenderEvents(env, cfg.(errorHandling := mode)) == RenderEvents(env, cfg)
  {
    var other := cfg.(errorHandling := mode);
    assert other.events == cfg.events && other.pluginName == cfg.pluginName && other.typeMap == cfg.typeMap;
  }

  /** A wrapper that renders in `Result` mode renders in `Throw` mode too. */
  lemma WrapperSucceedsInThrowMode(env: Env, cfg: ExportContext, f: Function)
    ensures CommandWrapper(env, cfg.(errorHandling := ErrorHandlingMode.Result), f).Ok? ==>
            CommandWrapper(env, cfg.(errorHandling := Throw), f).Ok?
  {
    if CommandWrapper(env, cfg.(errorHandling := ErrorHandlingMode.Result), f).Ok? {
      assert HandleResult(env, f, cfg.typeMap, ErrorHandlingMode.Result).Ok?;
      assert HandleResult(env, f, cfg.typeMap, Throw).Ok?;
    }
  }

  /** Switching a successful `Result`-mode export to `Throw` mode cannot make
      it fail: `Throw` mode computes only the ok type of each `Result`, which
      `Result` mode computes too. */
  lemma ThrowModeSucceedsWhenResultModeDoes(env: Env, js: JSDoc, cfg: ExportContext, globals: string)
    ensures Render(env, js, cfg.(errorHandling := ErrorHandlingMode.Result), globals).Ok? ==>
            Render(env, js, cfg.(errorHandling := Throw), globals).Ok?
  {
    if Render(env, js, cfg.(errorHandling := ErrorHandlingMode.Result), globals).Ok? {
      var byResult := cfg.(errorHandling := ErrorHandlingMode.Result);
      var byThrow := cfg.(errorHandling := Throw);
      assert RenderCommands(env, byResult).Ok?;
      forall i | 0 <= i < |cfg.commands|
        ensures CommandWrapper(env, byThrow, cfg.commands[i]).Ok?
      {
        WrapperSucceedsInThrowMode(env, cfg, cfg.commands[i]);
      }
      assert RenderCommands(env, byThrow).Ok?;
      EventsAndTypesIgnoreMode(env, byResult, Throw);
    }
  }

  /** The wrapper of a command that does not return a `Result` is the same in
      both modes. */
  lemma WrapperIgnoresMode(env: Env, cfg: ExportContext, f: Function)
    requires !(f.result.Some? && f.result.value.Result?)
    ensures CommandWrapper(env, cfg.(errorHandling := Throw), f)
            == CommandWrapper(env, cfg.(errorHandling := ErrorHandlingMode.Result), f)
  {
    assert HandleResult(env, f, cfg.typeMap, Throw) == HandleResult(env, f, cfg.typeMap, ErrorHandlingMode.Result);
    assert CommandBody(env, cfg.pluginName, f, false, Throw)
           == CommandBody(env, cfg.pluginName, f, false, ErrorHandlingMode.Result);
  }

  /** When no command returns a `Result`, the commands section is the same in
      both modes. */
  lemma CommandsIgnoreMode(env: Env, cfg: ExportContext)
    requires forall i :: 0 <= i < |cfg.commands| ==>
               !(cfg.commands[i].result.Some? && cfg.commands[i].result.value.Result?)
    ensures RenderCommands(env, cfg.(errorHandling := Throw))
            == RenderCommands(env, cfg.(errorHandling := ErrorHandlingMode.Result))
  {
    var byResult := cfg.(errorHandling := ErrorHandlingMode.Result);
    var byThrow := cfg.(errorHandling := Throw);
    forall i | 0 <= i < |cfg.commands|
      ensures CommandWrapper(env, byThrow, cfg.commands[i]) == CommandWrapper(env, byResult, cfg.commands[i])
    {
      WrapperIgnoresMode(env, cfg, cfg.commands[i]);
    }
    CollectExtensional(cfg.commands, Wrapper(env, byThrow), Wrapper(env, byResult));
  }

  /** When no command returns a `Result`, the error-handling mode makes no
      difference to the exported document. */
  lemma ModeIrrelevantWithoutResultCommands(env: Env, js: JSDoc, cfg: ExportContext, globals: string)
    requires forall i :: 0 <= i < |cfg.commands| ==>
               !(cfg.commands[i].result.Some? && cfg.commands[i].result.value.Result?)
    ensures Render(env, js, cfg.(errorHandling := Throw), globals)
            == Render(env, js, cfg.(errorHandling := ErrorHandlingMode.Result), globals)
  {
    CommandsIgnoreMode(env, cfg);
    EventsAndTypesIgnoreMode(env, cfg.(errorHandling := ErrorHandlingMode.Result), Throw);
  }
}
