/** The text builders shared by the TypeScript and the JSDoc backends
    (`src/lang/js_ts.rs`). Every function here is pure string formatting over
    the export context; type rendering, case conversion and JSON text come from
    the `Env` collaborators. */
module JsTs {
  import opened Wrappers
  import opened Strings
  import opened Specta
  import opened TauriSpecta

  const DoNotEdit: string :=
    "// This file was generated by [tauri-specta](https://github.com/specta-rs/tauri-specta). Do not edit this file manually."

  // ---------------------------------------------------------------------------
  // Constants section
  // ---------------------------------------------------------------------------

  /** The suffix after a constant's JSON text: `" as const"` for every value
      except `null`, and only when the dialect asks for it. */
  function AsConstSuffix(value: Json, asConst: bool): (r: string)
    ensures r == " as const" <==> asConst && !value.Null?
    ensures r != " as const" ==> r == ""
  {
    if asConst then
      match value
      case Null => ""
      case Bool(_) => " as const"
      case Number(_) => " as const"
      case String(_) => " as const"
      case Array(_) => " as const"
      case Object(_) => " as const"
    else
      ""
  }

  function ConstantLine(env: Env, name: string, value: Json, asConst: bool): string {
    "export const " + name + " = " + env.jsonText(value) + AsConstSuffix(value, asConst) + ";"
  }

  /** One line per constant, in ascending name order (the order of
      `SortedEntries`). */
  function ConstantLines(env: Env, constants: map<string, Json>, asConst: bool): (lines: seq<string>)
    ensures |lines| == |constants.Keys|
    ensures forall i :: 0 <= i < |lines| ==>
              lines[i] == ConstantLine(env, SortedEntries(constants)[i].0, SortedEntries(constants)[i].1, asConst)
  {
    EntryLines(SortedEntries(constants), (e: (string, Json)) => ConstantLine(env, e.0, e.1, asConst))
  }

  /** One line per entry, in entry order. */
  function EntryLines<V>(entries: seq<(string, V)>, line: ((string, V)) -> string): (lines: seq<string>)
    ensures |lines| == |entries|
    ensures forall i :: 0 <= i < |entries| ==> lines[i] == line(entries[i])
  {
    seq(|entries|, i requires 0 <= i < |entries| => line(entries[i]))
  }

  function ConstantsSection(env: Env, constants: map<string, Json>, asConst: bool): string {
    Join(ConstantLines(env, constants, asConst), "\n")
  }

  // ---------------------------------------------------------------------------
  // Document assembly
  // ---------------------------------------------------------------------------

  /** The pieces of a bindings file, in order. The sections sit at indices
      0 (header), 2 (commands), 4 (events), 6 (constants), 8 (types) and
      10 (globals); the odd indices are the fixed banners between them. */
  function DocumentPieces(header: string, commands: string, events: string, constants: string,
                          types: string, globals: string): (pieces: seq<string>)
    ensures |pieces| == 11
    ensures pieces[0] == header && pieces[2] == commands && pieces[4] == events
    ensures pieces[6] == constants && pieces[8] == types && pieces[10] == globals
    ensures pieces[1] == "\n" + DoNotEdit + "\n\n/** user-defined commands **/\n\n"
  {
    [header,
     "\n" + DoNotEdit + "\n\n/** user-defined commands **/\n\n",
     commands,
     "\n\n/** user-defined events **/\n\n",
     events,
     "\n\n/** user-defined constants **/\n\n",
     constants,
     "\n\n/** user-defined types **/\n\n",
     types,
     "\n\n/** tauri-specta globals **/\n\n",
     globals]
  }

  /** `render_all_parts`: never fails; the constants section is built from the
      context's constants. */
  function RenderAllParts(env: Env, cfg: ExportContext, dependantTypes: string, globals: string,
                          header: string, commands: string, events: string, asConst: bool)
    : (r: Result<string, ExportError>)
    ensures r.Ok?
    ensures r.value == Concat(DocumentPieces(header, commands, events,
                                             ConstantsSection(env, cfg.constants, asConst),
                                             dependantTypes, globals))
  {
    Ok(Concat(DocumentPieces(header, commands, events, ConstantsSection(env, cfg.constants, asConst),
                             dependantTypes, globals)))
  }

  /** The six sections of a document appear in the fixed order header,
      commands, events, constants, types, globals, each at its own offset and
      separated by a non-empty banner. */
  lemma DocumentSectionOrder(header: string, commands: string, events: string, constants: string,
                             types: string, globals: string)
    ensures var pieces := DocumentPieces(header, commands, events, constants, types, globals);
            var doc := Concat(pieces);
            && OccursAt(header, doc, 0)
            && OccursAt(commands, doc, Offset(pieces, 2))
            && OccursAt(events, doc, Offset(pieces, 4))
            && OccursAt(constants, doc, Offset(pieces, 6))
            && OccursAt(types, doc, Offset(pieces, 8))
            && OccursAt(globals, doc, Offset(pieces, 10))
            && |header| < Offset(pieces, 2)
            && Offset(pieces, 2) + |commands| < Offset(pieces, 4)
            && Offset(pieces, 4) + |events| < Offset(pieces, 6)
            && Offset(pieces, 6) + |constants| < Offset(pieces, 8)
            && Offset(pieces, 8) + |types| < Offset(pieces, 10)
  {
    var pieces := DocumentPieces(header, commands, events, constants, types, globals);
    ConcatOrder(pieces);
    assert pieces[..0] == [];
    assert |pieces[1]| > 0 && |pieces[3]| > 0 && |pieces[5]| > 0 && |pieces[7]| > 0 && |pieces[9]| > 0;
  }

  // ---------------------------------------------------------------------------
  // Type declarations (the first step of both backends' `render`)
  // ---------------------------------------------------------------------------

  /** The declarations of every named type, walked in the type map's sorted
      order and joined with newlines; `declare` is the dialect's declaration
      renderer. The first declaration that fails is the result. */
  function DependantTypes(env: Env, typeMap: TypeMap, declare: (NamedDataType, TypeMap) -> Result<string, ExportError>)
    : (r: Result<string, ExportError>)
    ensures var types := env.sortedTypes(typeMap);
            && (r.Ok? <==> forall i :: 0 <= i < |types| ==> declare(types[i], typeMap).Ok?)
            && (r.Ok? ==> r.value == Join(seq(|types|, i requires 0 <= i < |types| => declare(types[i], typeMap).value), "\n"))
            && (r.Err? ==> exists i :: 0 <= i < |types| && declare(types[i], typeMap) == Err(r.error)
                                      && forall j :: 0 <= j < i ==> declare(types[j], typeMap).Ok?)
  {
    var types := env.sortedTypes(typeMap);
    var decls :- Collect(types, ndt => declare(ndt, typeMap));
    assert decls == seq(|types|, i requires 0 <= i < |types| => declare(types[i], typeMap).value);
    Ok(Join(decls, "\n"))
  }

  // ---------------------------------------------------------------------------
  // Command wrappers
  // ---------------------------------------------------------------------------

  /** `arg_names`: the lower-camel-case name of each argument, in order. */
  function ArgNames(env: Env, args: seq<(string, DataType)>): (names: seq<string>)
    ensures |names| == |args|
    ensures forall i :: 0 <= i < |args| ==> names[i] == env.lowerCamel(args[i].0)
  {
    seq(|args|, i requires 0 <= i < |args| => env.lowerCamel(args[i].0))
  }

  /** `arg_usages`: the `{ a, b }` payload of an invocation, absent when there
      are no arguments. */
  function ArgUsages(args: seq<string>): (r: Option<string>)
    ensures r.None? <==> |args| == 0
    ensures r.Some? ==> r.value == "{ " + Join(args, ", ") + " }"
  {
    if |args| == 0 then None else Some("{ " + Join(args, ", ") + " }")
  }

  function AsAnyCast(asAny: bool): string {
    if asAny then " as any" else ""
  }

  const TryOpen: string := "try {"

  /** `return_as_result_tuple`: the try/catch wrapper that turns a thrown
      application error into `{ status: "error", error }` and rethrows every
      `Error` instance. */
  function ReturnAsResultTuple(expr: string, asAny: bool): (r: string)
    ensures IsPrefix(TryOpen, r)
    ensures Contains(r, "return { status: \"ok\", data: " + expr + " };")
    ensures Contains(r, expr)
    ensures Contains(r, "if(e instanceof Error) throw e;")
    ensures IsSuffix("else return { status: \"error\", error: e " + AsAnyCast(asAny) + " };\n}", r)
  {
    var okReturn := "return { status: \"ok\", data: " + expr + " };";
    var rethrow := "if(e instanceof Error) throw e;";
    var err := "else return { status: \"error\", error: e " + AsAnyCast(asAny) + " };\n}";
    var m1 := "\n    " + okReturn;
    var m2 := m1 + "\n} catch (e) {\n    ";
    var m3 := m2 + rethrow;
    var mid := m3 + "\n    ";
    var r := TryOpen + mid + err;
    PrefixOfConcat(TryOpen, mid);
    PrefixAppend(TryOpen, TryOpen + mid, err);
    SuffixOfConcat(TryOpen + mid, err);
    ContainsRight("\n    ", okReturn);
    ContainsAppend(m1, okReturn, "\n} catch (e) {\n    ");
    ContainsAppend(m2, okReturn, rethrow);
    ContainsAppend(m3, okReturn, "\n    ");
    ContainsRight(m2, rethrow);
    ContainsAppend(m3, rethrow, "\n    ");
    ContainsPrepend(mid, okReturn, TryOpen);
    ContainsPrepend(mid, rethrow, TryOpen);
    ContainsAppend(TryOpen + mid, okReturn, err);
    ContainsAppend(TryOpen + mid, rethrow, err);
    OccursInConcat("return { status: \"ok\", data: ", expr, " };");
    ContainsTransitive(r, okReturn, expr);
    r
  }

  /** Whether a command's wrapper reports failures as values: it returns a
      `Result` and the mode is `Result`. */
  predicate ReturnsResultTuple(result: Option<FunctionResultVariant>, mode: ErrorHandlingMode) {
    result.Some? && result.value.Result? && mode == ErrorHandlingMode.Result
  }

  /** `maybe_return_as_result_tuple`: `return e;` for a value (and for a
      `Result` in `Throw` mode), `e;` for no result, and the try/catch wrapper
      for a `Result` in `Result` mode. */
  function MaybeReturnAsResultTuple(expr: string, result: Option<FunctionResultVariant>, asAny: bool,
                                    mode: ErrorHandlingMode): (r: string)
    ensures result.None? ==> r == expr + ";"
    ensures result.Some? && !ReturnsResultTuple(result, mode) ==> r == "return " + expr + ";"
    ensures ReturnsResultTuple(result, mode) ==> r == ReturnAsResultTuple(expr, asAny)
  {
    match result
    case Some(Result(_, _)) =>
      (match mode
       case Throw => "return " + expr + ";"
       case Result => ReturnAsResultTuple(expr, asAny))
    case Some(Value(_)) => "return " + expr + ";"
    case None => expr + ";"
  }

  function PromiseType(returnType: Option<string>): string {
    match returnType
    case Some(t) => ": Promise<" + t + ">"
    case None => ""
  }

  /** The line that opens a wrapper: docs, `async`, name, parameter list, and
      the `: Promise<T>` annotation when a return type is given. */
  function Signature(docs: string, name: string, args: seq<string>, returnType: Option<string>): string {
    docs + "async " + name + "(" + Join(args, ", ") + ") " + PromiseType(returnType)
  }

  /** `function`: an `async` method of the `commands` object whose block holds
      the body. */
  function Function(docs: string, name: string, args: seq<string>, returnType: Option<string>,
                    body: string): (r: string)
    ensures IsPrefix(Signature(docs, name, args, returnType), r)
    ensures IsSuffix(" {\n    " + body + "\n}", r)
    ensures Contains(r, body)
    ensures returnType.Some? ==> Contains(r, ": Promise<" + returnType.value + ">")
  {
    var head := docs + "async " + name + "(" + Join(args, ", ") + ") ";
    var block := " {\n    " + body + "\n}";
    var r := Signature(docs, name, args, returnType) + block;
    PrefixOfConcat(Signature(docs, name, args, returnType), block);
    SuffixOfConcat(Signature(docs, name, args, returnType), block);
    OccursInConcat(" {\n    ", body, "\n}");
    OccursInConcat(Signature(docs, name, args, returnType), block, "");
    assert Signature(docs, name, args, returnType) + block + "" == r;
    ContainsTransitive(r, block, body);
    assert returnType.Some? ==> Contains(r, PromiseType(returnType)) by {
      assert r == head + PromiseType(returnType) + block;
      OccursInConcat(head, PromiseType(returnType), block);
    }
    r
  }

  /** `tauri_invoke`: the awaited call of the runtime's invoke function, naming
      the command first. */
  function TauriInvoke(name: string, argUsages: Option<string>): (r: string)
    ensures IsPrefix(InvokeCall(name), r)
    ensures IsPrefix("await ", r)
  {
    var call := InvokeCall(name);
    PrefixOfConcat(call, PayloadSuffix(argUsages) + ")");
    AwaitPrefix(call, call + (PayloadSuffix(argUsages) + ")"));
    call + (PayloadSuffix(argUsages) + ")")
  }

  /** The call of the runtime's invoke function up to the command name. */
  function InvokeCall(name: string): (r: string)
    ensures IsPrefix("await ", r)
  {
    var r := "await TAURI_INVOKE(\"" + name + "\"";
    assert r[..6] == "await ";
    r
  }

  /** A text that starts with one that starts with `await ` starts with `await ` too,
      so it is not a try/catch wrapper. */
  lemma AwaitPrefix(p: string, s: string)
    requires IsPrefix("await ", p) && IsPrefix(p, s)
    ensures IsPrefix("await ", s)
    ensures !IsPrefix(TryOpen, s)
  {
    assert s[..6] == p[..6];
    assert s[0] == 'a';
  }

  /** The payload part of an invocation: `, { a, b }`, or nothing. */
  function PayloadSuffix(argUsages: Option<string>): string {
    match argUsages case Some(u) => ", " + u case None => ""
  }


  /** `handle_result`: the declared result type of a wrapper: `void` for no
      result, the ok type alone in `Throw` mode, `Result<ok, err>` in `Result`
      mode. The first failure of the type renderer is the result. */
  function HandleResult(env: Env, f: Function, typeMap: TypeMap, mode: ErrorHandlingMode)
    : (r: Result<string, ExportError>)
    ensures f.result.None? ==> r == Ok("void")
    ensures f.result.Some? && f.result.value.Value? ==>
              r == env.renderType(f.result.value.ty, typeMap)
    ensures f.result.Some? && f.result.value.Result? && mode == Throw ==>
              r == env.renderType(f.result.value.ok, typeMap)
    ensures ReturnsResultTuple(f.result, mode) ==>
              var ok := env.renderType(f.result.value.ok, typeMap);
              var err := env.renderType(f.result.value.err, typeMap);
              && (r.Ok? <==> ok.Ok? && err.Ok?)
              && (ok.Err? ==> r == ok)
              && (ok.Ok? && err.Err? ==> r == err)
              && (r.Ok? ==> r.value == "Result<" + ok.value + ", " + err.value + ">")
  {
    match f.result
    case Some(Result(t, e)) =>
      (match mode
       case Result =>
         var ok :- env.renderType(t, typeMap);
         var err :- env.renderType(e, typeMap);
         Ok("Result<" + ok + ", " + err + ">")
       case Throw => env.renderType(t, typeMap))
    case Some(Value(t)) => env.renderType(t, typeMap)
    case None => Ok("void")
  }

  /** The name a command is invoked by: plugin-prefixed when exporting for a
      plugin, the raw name otherwise. */
  function InvokeName(pluginName: Option<string>, name: string): (r: string)
    ensures pluginName.None? ==> r == name
    ensures pluginName.Some? ==> r == ApplyAsPrefix(pluginName.value, name, Command)
  {
    match pluginName
    case Some(n) => ApplyAsPrefix(n, name, Command)
    case None => name
  }

  /** The invocation a wrapper performs. */
  function Invocation(env: Env, pluginName: Option<string>, f: Function): string {
    TauriInvoke(InvokeName(pluginName, f.name), ArgUsages(ArgNames(env, f.args)))
  }

  /** `command_body`: the statement that performs the invocation, a try/catch
      wrapper exactly when the command reports failures as values. */
  function CommandBody(env: Env, pluginName: Option<string>, f: Function, asAny: bool,
                       mode: ErrorHandlingMode): (r: string)
    ensures Contains(r, Invocation(env, pluginName, f))
    ensures IsPrefix(TryOpen, r) <==> ReturnsResultTuple(f.result, mode)
  {
    var inv := Invocation(env, pluginName, f);
    AwaitPrefix(inv, inv);
    ReturnStatementParts(inv, f.result, asAny, mode);
    MaybeReturnAsResultTuple(inv, f.result, asAny, mode)
  }

  /** What an invocation is: the quoted command name, then the payload when
      there is one, then the closing parenthesis. */
  lemma TauriInvokeParts(name: string, argUsages: Option<string>)
    ensures var inv := TauriInvoke(name, argUsages);
            && Contains(inv, InvokeCall(name))
            && (argUsages.Some? ==> inv == InvokeCall(name) + (", " + argUsages.value + ")"))
            && (argUsages.None? ==> inv == InvokeCall(name) + ")")
  {
    var call := InvokeCall(name);
    var payload := PayloadSuffix(argUsages);
    ContainsLeft(call, payload + ")");
  }

  /** Every shape of return statement contains the expression it returns; only
      the try/catch wrapper starts with `try {`. */
  lemma ReturnStatementParts(expr: string, result: Option<FunctionResultVariant>, asAny: bool,
                             mode: ErrorHandlingMode)
    requires !IsPrefix(TryOpen, expr)
    ensures var stmt := MaybeReturnAsResultTuple(expr, result, asAny, mode);
            && Contains(stmt, expr)
            && (IsPrefix(TryOpen, stmt) <==> ReturnsResultTuple(result, mode))
  {
    var stmt := MaybeReturnAsResultTuple(expr, result, asAny, mode);
    if result.None? {
      ContainsLeft(expr, ";");
      if |expr| >= |TryOpen| {
        assert stmt[..|TryOpen|] == expr[..|TryOpen|];
      } else if |stmt| == |TryOpen| {
        assert stmt[|TryOpen| - 1] == ';' != TryOpen[|TryOpen| - 1];
      }
    } else if !ReturnsResultTuple(result, mode) {
      OccursInConcat("return ", expr, ";");
      assert stmt[0] == 'r';
    }
  }

  /** A command body invokes the (plugin-prefixed) command name with exactly the
      camel-case argument names as payload keys, in that one call, and is a
      try/catch wrapper exactly when it reports failures as values. */
  lemma CommandBodyInvokes(env: Env, pluginName: Option<string>, f: Function, asAny: bool,
                           mode: ErrorHandlingMode)
    ensures var body := CommandBody(env, pluginName, f, asAny, mode);
            var names := ArgNames(env, f.args);
            var call := InvokeCall(InvokeName(pluginName, f.name));
            && Contains(body, call)
            && (|names| > 0 ==> Contains(body, call + (", " + ArgUsages(names).value + ")")))
            && (|names| == 0 ==> Contains(body, call + ")"))
            && (IsPrefix(TryOpen, body) <==> ReturnsResultTuple(f.result, mode))
  {
    var body := CommandBody(env, pluginName, f, asAny, mode);
    var names := ArgNames(env, f.args);
    var name := InvokeName(pluginName, f.name);
    var inv := Invocation(env, pluginName, f);
    TauriInvokeParts(name, ArgUsages(names));
    ContainsTransitive(body, inv, InvokeCall(name));
  }

  /** The wrapper's return statement and its declared type follow one policy:
      the body is the try/catch wrapper exactly when the declared type is
      `Result<ok, err>` built from the ok and error types. */
  lemma ReturnPolicyMatchesTypePolicy(env: Env, pluginName: Option<string>, f: Function,
                                      typeMap: TypeMap, asAny: bool, mode: ErrorHandlingMode)
    requires HandleResult(env, f, typeMap, mode).Ok?
    ensures var ty := HandleResult(env, f, typeMap, mode).value;
            var body := CommandBody(env, pluginName, f, asAny, mode);
            IsPrefix(TryOpen, body) <==>
              (f.result.Some? && f.result.value.Result? && mode == ErrorHandlingMode.Result
               && ty == "Result<" + env.renderType(f.result.value.ok, typeMap).value + ", "
                        + env.renderType(f.result.value.err, typeMap).value + ">")
  {
    CommandBodyInvokes(env, pluginName, f, asAny, mode);
  }

  /** `render_commands`, shared by both dialects: every command's wrapper, in
      command order, between the section's opening and closing texts and
      separated by `,\n`; the first wrapper that fails is the result. */
  function CommandsSection(commands: seq<Function>, wrap: Function -> Result<string, ExportError>,
                           open: string, close: string): (r: Result<string, ExportError>)
    ensures r.Ok? <==> forall i :: 0 <= i < |commands| ==> wrap(commands[i]).Ok?
    ensures r.Err? ==> exists i :: 0 <= i < |commands| && wrap(commands[i]) == Err(r.error)
                                   && forall j :: 0 <= j < i ==> wrap(commands[j]).Ok?
    ensures r.Ok? ==> r.value == Framed(open, WrappedTexts(commands, wrap), ",\n", close)
  {
    var ws :- Collect(commands, wrap);
    assert ws == WrappedTexts(commands, wrap);
    Ok(Framed(open, ws, ",\n", close))
  }

  /** The text of every command's wrapper, in command order. */
  function WrappedTexts(commands: seq<Function>, wrap: Function -> Result<string, ExportError>): (ws: seq<string>)
    requires forall i :: 0 <= i < |commands| ==> wrap(commands[i]).Ok?
    ensures |ws| == |commands|
    ensures forall i :: 0 <= i < |commands| ==> ws[i] == wrap(commands[i]).value
  {
    seq(|commands|, i requires 0 <= i < |commands| => wrap(commands[i]).value)
  }

  // ---------------------------------------------------------------------------
  // Events section
  // ---------------------------------------------------------------------------

  /** An object literal (or call) that lists items: the opening text, the items
      separated by `sep`, and the closing text. */
  function Framed(open: string, items: seq<string>, sep: string, close: string): (r: string)
    ensures IsPrefix(open, r) && IsSuffix(close, r)
    ensures forall i :: 0 <= i < |items| ==> Contains(r, items[i])
  {
    var joined := Join(items, sep);
    PrefixOfConcat(open, joined);
    PrefixAppend(open, open + joined, close);
    SuffixOfConcat(open + joined, close);
    forall i | 0 <= i < |items|
      ensures Contains(open + joined + close, items[i])
    {
      JoinContains(items, sep, i);
      ContainsPrepend(joined, items[i], open);
      ContainsAppend(open + joined, items[i], close);
    }
    open + joined + close
  }

  /** The wire name of an event: plugin-prefixed when exporting for a plugin. */
  function EventWireName(pluginName: Option<string>, name: string): (r: string)
    ensures pluginName.None? ==> r == name
    ensures pluginName.Some? ==> r == ApplyAsPrefix(pluginName.value, name, Event)
  {
    match pluginName
    case Some(n) => ApplyAsPrefix(n, name, Event)
    case None => name
  }

  function EventMapEntry(env: Env, name: string, pluginName: Option<string>): string {
    env.lowerCamel(name) + ": \"" + EventWireName(pluginName, name) + "\""
  }

  /** One `camelName: "wire-name"` entry per event, in ascending name order. */
  function EventMapEntries(env: Env, events: map<string, DataType>, pluginName: Option<string>)
    : (entries: seq<string>)
    ensures |entries| == |events.Keys|
    ensures forall i :: 0 <= i < |entries| ==>
              entries[i] == EventMapEntry(env, SortedEntries(events)[i].0, pluginName)
  {
    EntryLines(SortedEntries(events), (e: (string, DataType)) => EventMapEntry(env, e.0, pluginName))
  }

  /** `events_map`: the event entries in ascending name order, joined by `,\n`;
      it lists the entry of every event, and nothing when there are
      no events. */
  function EventsMap(env: Env, events: map<string, DataType>, pluginName: Option<string>): (r: string)
    ensures |events| == 0 ==> r == ""
    ensures forall name :: name in events ==> Contains(r, EventMapEntry(env, name, pluginName))
    ensures r == Join(EventMapEntries(env, events, pluginName), ",\n")
  {
    var entries := EventMapEntries(env, events, pluginName);
    var sorted := SortedEntries(events);
    forall name | name in events
      ensures Contains(Join(entries, ",\n"), EventMapEntry(env, name, pluginName))
    {
      var k :| 0 <= k < |sorted| && sorted[k].0 == name;
      JoinContains(entries, ",\n", k);
    }
    Join(entries, ",\n")
  }

  function EventTypeEntry(env: Env, entry: (string, DataType), typeMap: TypeMap): (r: Result<string, ExportError>)
    ensures r.Ok? <==> env.renderType(entry.1, typeMap).Ok?
    ensures r.Ok? ==> r.value == env.lowerCamel(entry.0) + ": " + env.renderType(entry.1, typeMap).value
    ensures r.Err? ==> env.renderType(entry.1, typeMap) == Err(r.error)
  {
    var ty :- env.renderType(entry.1, typeMap);
    Ok(env.lowerCamel(entry.0) + ": " + ty)
  }

  /** The entries of a list of events, up to the first type that fails to render. */
  function EventTypeEntries(env: Env, entries: seq<(string, DataType)>, typeMap: TypeMap)
    : (r: Result<seq<string>, ExportError>)
    ensures r.Ok? <==> forall i :: 0 <= i < |entries| ==> env.renderType(entries[i].1, typeMap).Ok?
    ensures r.Ok? ==> |r.value| == |entries|
    ensures r.Ok? ==> forall i :: 0 <= i < |entries| ==>
              r.value[i] == env.lowerCamel(entries[i].0) + ": " + env.renderType(entries[i].1, typeMap).value
    ensures r.Err? ==>
              exists i :: 0 <= i < |entries| && env.renderType(entries[i].1, typeMap) == Err(r.error)
                          && forall j :: 0 <= j < i ==> env.renderType(entries[j].1, typeMap).Ok?
  {
    var r := Collect(entries, e => EventTypeEntry(env, e, typeMap));
    assert r.Err? ==>
             exists i :: 0 <= i < |entries| && env.renderType(entries[i].1, typeMap) == Err(r.error)
                         && forall j :: 0 <= j < i ==> env.renderType(entries[j].1, typeMap).Ok? by {
      if r.Err? {
        var i :| 0 <= i < |entries| && EventTypeEntry(env, entries[i], typeMap) == Err(r.error)
                 && forall j :: 0 <= j < i ==> EventTypeEntry(env, entries[j], typeMap).Ok?;
        assert env.renderType(entries[i].1, typeMap) == Err(r.error);
      }
    }
    r
  }

  /** Every event's type renders exactly when every sorted entry's type does. */
  lemma RendersAllEntries(env: Env, events: map<string, DataType>, typeMap: TypeMap)
    ensures (forall i :: 0 <= i < |SortedEntries(events)| ==> env.renderType(SortedEntries(events)[i].1, typeMap).Ok?)
       <==> (forall k :: k in events ==> env.renderType(events[k], typeMap).Ok?)
  {
    var entries := SortedEntries(events);
    forall k | k in events
      ensures (exists i :: 0 <= i < |entries| && entries[i].0 == k)
    {
    }
  }

  /** `events_types`: one `camelName: Type` entry per event, in ascending name
      order; the first type that fails to render is the result. */
  function EventsTypes(env: Env, events: map<string, DataType>, typeMap: TypeMap)
    : (r: Result<seq<string>, ExportError>)
    ensures r.Ok? <==> forall k :: k in events ==> env.renderType(events[k], typeMap).Ok?
    ensures r.Ok? ==> |r.value| == |events.Keys|
    ensures r.Ok? ==> forall i :: 0 <= i < |r.value| ==>
              r.value[i] == env.lowerCamel(SortedEntries(events)[i].0) + ": "
                            + env.renderType(SortedEntries(events)[i].1, typeMap).value
    ensures r.Err? ==>
              exists i :: 0 <= i < |SortedEntries(events)|
                          && env.renderType(SortedEntries(events)[i].1, typeMap) == Err(r.error)
                          && forall j :: 0 <= j < i ==> env.renderType(SortedEntries(events)[j].1, typeMap).Ok?
  {
    var entries := SortedEntries(events);
    var r := EventTypeEntries(env, entries, typeMap);
    RendersAllEntries(env, events, typeMap);
    r
  }

  /** `events_data`: the types and the map of the events section. */
  function EventsData(env: Env, events: map<string, DataType>, pluginName: Option<string>, typeMap: TypeMap)
    : (r: Result<(seq<string>, string), ExportError>)
    ensures r.Ok? <==> EventsTypes(env, events, typeMap).Ok?
    ensures r.Err? ==> r.error == EventsTypes(env, events, typeMap).error
    ensures r.Ok? ==> r.value == (EventsTypes(env, events, typeMap).value, EventsMap(env, events, pluginName))
  {
    var types :- EventsTypes(env, events, typeMap);
    Ok((types, EventsMap(env, events, pluginName)))
  }

  /** A single event gives a single map entry, with no separator. */
  lemma SingleEventMap(env: Env, name: string, payload: DataType, pluginName: Option<string>)
    ensures EventsMap(env, map[name := payload], pluginName) == EventMapEntry(env, name, pluginName)
  {
    var sorted := SortedEntries(map[name := payload]);
    assert |sorted| == 1;
    assert sorted[0].0 in map[name := payload];
  }
}
