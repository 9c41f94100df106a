/** The TypeScript backend (`src/lang/ts.rs`): type declarations through
    `export`, typed parameters through `inline`, a `Promise<T>` annotation on
    every wrapper, a typed `__makeEvents__` call, and `as const` constants. */
module Ts {
  import opened Wrappers
  import opened Strings
  import opened Specta
  import opened TauriSpecta
  import opened JsTs

  /** One typed parameter: `camelName: Type`. */
  function ArgDef(env: Env, arg: (string, DataType), typeMap: TypeMap): (r: Result<string, ExportError>)
    ensures r.Ok? <==> env.inline(arg.1, typeMap).Ok?
    ensures r.Err? ==> r == Err(env.inline(arg.1, typeMap).error)
    ensures r.Ok? ==> r.value == env.lowerCamel(arg.0) + ": " + env.inline(arg.1, typeMap).value
  {
    var ty :- env.inline(arg.1, typeMap);
    Ok(env.lowerCamel(arg.0) + ": " + ty)
  }

  /** The typed parameter list of a wrapper, in argument order; the first
      argument type that fails to inline is the result. */
  function ArgDefs(env: Env, args: seq<(string, DataType)>, typeMap: TypeMap): (r: Result<seq<string>, ExportError>)
    ensures r.Ok? <==> forall i :: 0 <= i < |args| ==> env.inline(args[i].1, typeMap).Ok?
    ensures r.Ok? ==> |r.value| == |args|
    ensures r.Ok? ==> forall i :: 0 <= i < |args| ==>
              r.value[i] == env.lowerCamel(args[i].0) + ": " + env.inline(args[i].1, typeMap).value
    ensures r.Err? ==> exists i :: 0 <= i < |args| && env.inline(args[i].1, typeMap) == Err(r.error)
                                   && forall j :: 0 <= j < i ==> env.inline(args[j].1, typeMap).Ok?
  {
    Collect(args, a => ArgDef(env, a, typeMap))
  }

  /** The wrapper of one command: parameters typed, result declared as
      `Promise<T>` with `T` from `handle_result`, and the body cast `as any` in
      the error branch. Argument types are rendered before the result type, so
      an argument failure wins. */
  function CommandWrapper(env: Env, cfg: ExportContext, f: Function): (r: Result<string, ExportError>)
    ensures var args := ArgDefs(env, f.args, cfg.typeMap);
            var ret := HandleResult(env, f, cfg.typeMap, cfg.errorHandling);
            && (r.Ok? <==> args.Ok? && ret.Ok?)
            && (args.Err? ==> r == Err(args.error))
            && (args.Ok? && ret.Err? ==> r == Err(ret.error))
            && (r.Ok? ==> IsPrefix(Signature("", env.lowerCamel(f.name), args.value, Some(ret.value)), r.value))
            && (r.Ok? ==> Contains(r.value, ": Promise<" + ret.value + ">"))
            && (r.Ok? ==> Contains(r.value, CommandBody(env, cfg.pluginName, f, true, cfg.errorHandling)))
  {
    var args :- ArgDefs(env, f.args, cfg.typeMap);
    var ret :- HandleResult(env, f, cfg.typeMap, cfg.errorHandling);
    Ok(JsTs.Function("", env.lowerCamel(f.name), args, Some(ret),
                     CommandBody(env, cfg.pluginName, f, true, cfg.errorHandling)))
  }

  const CommandsOpen: string := "\nexport const commands = {\n"
  const CommandsClose: string := "\n}"

  /** `render_commands`: the `commands` object holding every wrapper, in
      command order, separated by `,\n`; the first wrapper that fails is the
      result. */
  function RenderCommands(env: Env, cfg: ExportContext): (r: Result<string, ExportError>)
    ensures r.Ok? <==> forall i :: 0 <= i < |cfg.commands| ==> CommandWrapper(env, cfg, cfg.commands[i]).Ok?
    ensures r.Err? ==> exists i :: 0 <= i < |cfg.commands| && CommandWrapper(env, cfg, cfg.commands[i]) == Err(r.error)
                                   && forall j :: 0 <= j < i ==> CommandWrapper(env, cfg, cfg.commands[j]).Ok?
    ensures r.Ok? ==> IsPrefix(CommandsOpen, r.value) && IsSuffix(CommandsClose, r.value)
    ensures r.Ok? ==> forall i :: 0 <= i < |cfg.commands| ==>
              Contains(r.value, CommandWrapper(env, cfg, cfg.commands[i]).value)
    ensures r.Ok? ==> r.value == Framed(CommandsOpen, WrappedTexts(cfg.commands, Wrapper(env, cfg)), ",\n", CommandsClose)
  {
    CommandsSection(cfg.commands, Wrapper(env, cfg), CommandsOpen, CommandsClose)
  }

  /** `CommandWrapper` for one export context, as a function of the command. */
  function Wrapper(env: Env, cfg: ExportContext): Function -> Result<string, ExportError>
  {
    f => CommandWrapper(env, cfg, f)
  }

  const EventsOpen: string := "\nexport const events = __makeEvents__<{\n"
  const EventsMiddle: string := "\n}>({\n"
  const EventsClose: string := "\n})"

  /** `render_events`: nothing when there are no events; otherwise the typed
      `__makeEvents__` call, its type argument listing every event's payload
      type and its value argument the map of wire names. */
  function RenderEvents(env: Env, cfg: ExportContext): (r: Result<string, ExportError>)
    ensures |cfg.events| == 0 ==> r == Ok("")
    ensures |cfg.events| > 0 ==>
              var types := EventsTypes(env, cfg.events, cfg.typeMap);
              && (r.Ok? <==> types.Ok?)
              && (r.Err? ==> r.error == types.error)
              && (r.Ok? ==> IsPrefix(EventsOpen, r.value) && IsSuffix(EventsClose, r.value))
              && (r.Ok? ==> Contains(r.value, Join(types.value, ",\n")))
              && (r.Ok? ==> Contains(r.value, EventsMap(env, cfg.events, cfg.pluginName)))
    ensures |cfg.events| > 0 && r.Ok? ==>
              r.value == EventsOpen + Join(EventsTypes(env, cfg.events, cfg.typeMap).value, ",\n") + EventsMiddle
                         + EventsMap(env, cfg.events, cfg.pluginName) + EventsClose
  {
    if |cfg.events| == 0 then
      Ok("")
    else
      var data :- EventsData(env, cfg.events, cfg.pluginName, cfg.typeMap);
      var types := Join(data.0, ",\n");
      var head := EventsOpen + types + EventsMiddle;
      var r := head + data.1 + EventsClose;
      PrefixOfConcat(EventsOpen, types);
      PrefixAppend(EventsOpen, EventsOpen + types, EventsMiddle);
      PrefixAppend(EventsOpen, head, data.1);
      PrefixAppend(EventsOpen, head + data.1, EventsClose);
      SuffixOfConcat(head + data.1, EventsClose);
      ContainsRight(EventsOpen, types);
      ContainsAppend(EventsOpen + types, types, EventsMiddle);
      ContainsAppend(head, types, data.1);
      ContainsAppend(head + data.1, types, EventsClose);
      OccursInConcat(head, data.1, EventsClose);
      Ok(r)
  }

  /** `render` for `Typescript`: type declarations (through `export`) first,
      then the commands, then the events; the first of them that fails is the
      result, and otherwise the document is assembled with `as const`
      constants. `globals` is the text of the bundled `globals.ts`. */
  function Render(env: Env, ts: Typescript, cfg: ExportContext, globals: string): (r: Result<string, ExportError>)
    ensures var types := DependantTypes(env, cfg.typeMap, env.exportType);
            var commands := RenderCommands(env, cfg);
            var events := RenderEvents(env, cfg);
            && (r.Ok? <==> types.Ok? && commands.Ok? && events.Ok?)
            && (types.Err? ==> r == Err(types.error))
            && (types.Ok? && commands.Err? ==> r == Err(commands.error))
            && (types.Ok? && commands.Ok? && events.Err? ==> r == Err(events.error))
            && (r.Ok? ==> r.value == Concat(Sections(env, ts, cfg, globals, types.value, commands.value, events.value)))
  {
    var types :- DependantTypes(env, cfg.typeMap, env.exportType);
    var commands :- RenderCommands(env, cfg);
    var events :- RenderEvents(env, cfg);
    RenderAllParts(env, cfg, types, globals, ts.header, commands, events, true)
  }

  /** The pieces of the TypeScript document, given the rendered sections. */
  function Sections(env: Env, ts: Typescript, cfg: ExportContext, globals: string,
                    types: string, commands: string, events: string): seq<string> {
    DocumentPieces(ts.header, commands, events, ConstantsSection(env, cfg.constants, true), types, globals)
  }

  /** The error-handling mode is read only by the command wrappers: the
      events section and the type declarations are the same in both modes. */
  lemma EventsAndTypesIgnoreMode(env: Env, cfg: ExportContext, mode: ErrorHandlingMode)
    ensures RenderEvents(env, cfg.(errorHandling := mode)) == RenderEvents(env, cfg)
  {
    var other := cfg.(errorHandling := mode);
    assert other.events == cfg.events && other.pluginName == cfg.pluginName && other.typeMap == cfg.typeMap;
  }

  /** A wrapper that renders in `Result` mode renders in `Throw` mode too. */
  lemma WrapperSucceedsInThrowMode(env: Env, cfg: ExportContext, f: Function)
    ensures CommandWrapper(env, cfg.(errorHandling := ErrorHandlingMode.Result), f).Ok? ==>
            CommandWrapper(env, cfg.(errorHandling := Throw), f).Ok?
  {
    if CommandWrapper(env, cfg.(errorHandling := ErrorHandlingMode.Result), f).Ok? {
      assert HandleResult(env, f, cfg.typeMap, ErrorHandlingMode.Result).Ok?;
      assert HandleResult(env, f, cfg.typeMap, Throw).Ok?;
    }
  }

  /** Switching a successful `Result`-mode export to `Throw` mode cannot make
      it fail: `Throw` mode renders only the ok type of each `Result`, which
      `Result` mode renders too. */
  lemma ThrowModeSucceedsWhenResultModeDoes(env: Env, ts: Typescript, cfg: ExportContext, globals: string)
    ensures Render(env, ts, cfg.(errorHandling := ErrorHandlingMode.Result), globals).Ok? ==>
            Render(env, ts, cfg.(errorHandling := Throw), globals).Ok?
  {
    if Render(env, ts, cfg.(errorHandling := ErrorHandlingMode.Result), globals).Ok? {
      var byResult := cfg.(errorHandling := ErrorHandlingMode.Result);
      var byThrow := cfg.(errorHandling := Throw);
      assert RenderCommands(env, byResult).Ok?;
      forall i | 0 <= i < |cfg.commands|
        ensures CommandWrapper(env, byThrow, cfg.commands[i]).Ok?
      {
        WrapperSucceedsInThrowMode(env, cfg, cfg.commands[i]);
      }
      assert RenderCommands(env, byThrow).Ok?;
      EventsAndTypesIgnoreMode(env, byResult, Throw);
    }
  }

  /** The wrapper of a command that does not return a `Result` is the same in
      both modes. */
  lemma WrapperIgnoresMode(env: Env, cfg: ExportContext, f: Function)
    requires !(f.result.Some? && f.result.value.Result?)
    ensures CommandWrapper(env, cfg.(errorHandling := Throw), f)
            == CommandWrapper(env, cfg.(errorHandling := ErrorHandlingMode.Result), f)
  {
    assert HandleResult(env, f, cfg.typeMap, Throw) == HandleResult(env, f, cfg.typeMap, ErrorHandlingMode.Result);
    assert CommandBody(env, cfg.pluginName, f, true, Throw)
           == CommandBody(env, cfg.pluginName, f, true, ErrorHandlingMode.Result);
  }

  /** When no command returns a `Result`, the commands section is the same in
      both modes. */
  lemma CommandsIgnoreMode(env: Env, cfg: ExportContext)
    requires forall i :: 0 <= i < |cfg.commands| ==>
               !(cfg.commands[i].result.Some? && cfg.commands[i].result.value.Result?)
    ensures RenderCommands(env, cfg.(errorHandling := Throw))
            == RenderCommands(env, cfg.(errorHandling := ErrorHandlingMode.Result))
  {
    var byResult := cfg.(errorHandling := ErrorHandlingMode.Result);
    var byThrow := cfg.(errorHandling := Throw);
    forall i | 0 <= i < |cfg.commands|
      ensures CommandWrapper(env, byThrow, cfg.commands[i]) == CommandWrapper(env, byResult, cfg.commands[i])
    {
      WrapperIgnoresMode(env, cfg, cfg.commands[i]);
    }
    CollectExtensional(cfg.commands, Wrapper(env, byThrow), Wrapper(env, byResult));
  }

  /** When no command returns a `Result`, the error-handling mode makes no
      difference to the exported document. */
  lemma ModeIrrelevantWithoutResultCommands(env: Env, ts: Typescript, cfg: ExportContext, globals: string)
    requires forall i :: 0 <= i < |cfg.commands| ==>
               !(cfg.commands[i].result.Some? && cfg.commands[i].result.value.Result?)
    ensures Render(env, ts, cfg.(errorHandling := Throw), globals)
            == Render(env, ts, cfg.(errorHandling := ErrorHandlingMode.Result), globals)
  {
    CommandsIgnoreMode(env, cfg);
    EventsAndTypesIgnoreMode(env, cfg.(errorHandling := ErrorHandlingMode.Result), Throw);
  }
}
