# tauri-specta binding generator, modelled in Dafny

tauri-specta produces TypeScript or JSDoc bindings for the commands and events of a
Tauri application. Commands are Rust functions that the frontend invokes. Events are
typed messages the two sides send each other.

This project models the part of the library that decides what those bindings say:
- the wire names of plugin-scoped commands and events (`apply_as_prefix`);
- registering events, where a duplicate name panics;
- the `Builder`, which collects command signatures, event payload types, extra named
  types and constants, and hands them to a backend as an `ExportContext`;
- the text builders shared by both backends (`src/lang/js_ts.rs`), and the TypeScript
  and JSDoc `render`, `render_commands` and `render_events`;
- the error-handling mode. `Throw` makes a failing command throw. `Result`, the
  default, returns `{ status: "ok", data }` or `{ status: "error", error }`;
- the `Event` derive macro: its event name, its `impl` generics and its where clause;
- the `StaticCollection` of constants for other exporters.

The types, type map and type renderer come from the `specta` and `specta_typescript`
crates. Case conversion comes from `heck`, and JSON text from `serde_json`. All of
these are abstract in `specta.dfy`: the renderers receive them as the functions of an
`Env` record. Every property below therefore holds whatever those crates do.

A `panic!`, `expect` or `unwrap` in the source becomes an `Err(Panic(message))` result
carrying the same message. An `ExportError` from a type renderer propagates as an
`Err`, and the first failure in source order wins.

Files:
- `wrappers.dfy`: `Option`, `Result`, `Panic`, and `Collect`, which models `collect`
  into a `Result`.
- `strings.dfy`: joining, prefix and containment lemmas, and sorted map walks (how a
  `BTreeMap` or a sorted key list is traversed).
- `specta.dfy`: the abstract interface described above.
- `tauri_specta.dfy`: `src/lib.rs` and `collect_events!`.
- `js_ts.dfy`, `ts.dfy`, `js.dfy`: the backends.
- `builder.dfy`: `src/builder.rs`.
- `lang.dfy`: `LanguageExt` and `export_str`.
- `macros.dfy`: `macros/src/lib.rs`.
- `statics.dfy`: `src/statics.rs`.

Several properties connect the parts end to end:
- `ApplyAsPrefix` can be parsed back and is injective, and its command and event forms
  differ only at the delimiter.
- In either language, a successful document opens with the configured header,
  invokes every command by its wire name and maps every event to its wire name.
- In a successful export for a plugin, every command is invoked by
  `plugin:<plugin>|<command>` and every event is announced as
  `plugin:<plugin>:<event>`, in both languages.
- In both languages, switching the error-handling mode cannot change the output when
  no command returns a `Result`, and `Throw` mode succeeds whenever `Result` mode
  does.

Facts about the code that the model keeps:
- A plugin command's wire name is `plugin:<plugin>|<command>`, and a plugin event's
  is `plugin:<plugin>:<event>`.
- The invoke payload is the shorthand object `{ a, b }` of the camel-cased argument
  names, so the camel-cased name is the key on the wire.
- The runtime helpers (`globals.ts` / `globals.js`) are appended to every document,
  whether or not any event or `Result` command exists.
- One field stands for the type map that the backends read as `cfg.types` and that
  `ExportContext` declares as `type_map` (src/lib.rs:257). One type stands for the
  command result that the backends import as `FunctionReturnType` and `js_ts.rs`
  as `FunctionResultVariant`.

## Model

| member | source | states |
|---|---|---|
| TauriSpecta.ApplyAsPrefix | src/lib.rs:295-305 | the wire name is `plugin:`, the plugin name, the item kind's delimiter (`:` for events, `\|` for commands), then the item name, with the length of these parts |
| TauriSpecta.ParseApplyAsPrefix | src/lib.rs:295-305 | reading a prefixed name back at its first delimiter recovers the plugin name, the kind and the item name when the plugin name holds no delimiter |
| TauriSpecta.ApplyAsPrefixInjective | src/lib.rs:295-305 | distinct (plugin, name, kind) triples get distinct wire names when plugin names hold no delimiter |
| TauriSpecta.EventAndCommandFormsDiffer | src/lib.rs:299-302 | the event and the command wire name of one item differ, and only at the delimiter position |
| TauriSpecta.RegisterEvent | src/lib.rs:337-346 | registering fails with the "Another event with name … is already registered!" panic exactly when the name is taken; otherwise it adds that one entry and keeps the others |
| TauriSpecta.RegisterAll | src/lib.rs:337-346 | registering a list succeeds iff its names are distinct and all new; the result holds the old entries plus each listed builder under its name |
| TauriSpecta.CollectEvents | src/macros.rs:39-44 | `collect_events!` succeeds iff the event names are distinct, and then maps exactly those names to their builders |
| Builder.Default | src/builder.rs:95-107 | a new builder has no plugin name, `Result` error handling and no commands, events, event identities, types or constants |
| Builder.PluginName | src/builder.rs:119-124 | sets the plugin name and leaves every other field unchanged |
| Builder.ErrorHandling | src/builder.rs:242-245 | sets the mode and leaves every other field unchanged |
| Builder.WithCommands | src/builder.rs:143-149 | replaces the command list with the collected signatures and the type map with the one collection produced; nothing else changes |
| Builder.BuildFirst | src/builder.rs:169-177 | running the first n event builders threads the type map through them in order |
| Builder.BuildFirstNames | src/builder.rs:169-177 | after n builders, the recorded events are exactly the first n names |
| Builder.BuildFirstSids | src/builder.rs:169-177 | after n builders, the collected identities are exactly those the first n builders returned |
| Builder.BuildFirstPayload | src/builder.rs:169-177 | the payload recorded under a name is the one returned by the last builder of that name, run on the type map left by the builders before it |
| Builder.BuildAllContents | src/builder.rs:169-177 | after all builders of a name-distinct list, every name maps to its own builder's payload and the identities are exactly those returned |
| Builder.EventList | src/builder.rs:169-172 | the builders are walked once per registered name, with distinct names, each with its own builder |
| Builder.EventListContents | src/builder.rs:169-177 | running the walk of a registration map records every registered name with its own builder's payload |
| Builder.WithEvents | src/builder.rs:167-187 | the events are exactly the registered names with their payloads; the identities are those the builders returned; the `Channel<()>` type is removed from the resulting type map; other fields are unchanged |
| Builder.Typ | src/builder.rs:215-219 | the type map is what the definition produced, plus the type's declaration under its identity; other fields are unchanged |
| Builder.Constant | src/builder.rs:233-239 | a value that does not serialise gives the "Tauri Specta failed to serialize constant" panic; otherwise the value is stored under its name, other constants are kept, and nothing else changes |
| Builder.ConstantLastWriteWins | src/builder.rs:234-237 | setting the same constant twice gives the same builder as setting only the second value |
| Builder.ConstantsCommute | src/builder.rs:234-237 | constants with different names can be set in either order |
| Builder.MountEvents | src/builder.rs:278-290 | every collected event identity is recorded with the builder's plugin name, and all other registry entries are kept |
| Builder.Context | src/builder.rs:315-323 | the export context carries exactly the builder's commands, mode, events, type map, constants and plugin name |
| JsTs.AsConstSuffix | src/lang/js_ts.rs:33-43 | ` as const` follows a constant exactly when the dialect asks for it and the value is not `null`; otherwise nothing follows |
| JsTs.ConstantLines | src/lang/js_ts.rs:28-53 | one `export const` line per constant, in ascending name order, each with the constant's JSON text and suffix |
| JsTs.RenderAllParts | src/lang/js_ts.rs:19-79 | rendering never fails and yields the header, the do-not-edit banner and the commands, events, constants, types and globals sections joined by their fixed separators |
| JsTs.DocumentSectionOrder | src/lang/js_ts.rs:55-78 | the header, commands, events, constants, types and globals occur in that order, at increasing offsets |
| JsTs.DependantTypes | src/lang/ts.rs:12-17 | the type declarations are produced in the type map's sorted order and joined by newlines; the first declaration that fails is the error |
| JsTs.ArgNames | src/lang/js_ts.rs:81-85 | one lower-camel-case name per argument, in order |
| JsTs.ArgUsages | src/lang/js_ts.rs:87-89 | no payload exactly when there are no arguments; otherwise `{ a, b }` of the names |
| JsTs.ReturnAsResultTuple | src/lang/js_ts.rs:91-102 | the wrapper opens with `try {`, returns `{ status: "ok", data: <expr> }`, rethrows `Error` exceptions, and ends by returning `{ status: "error", error: e }` (cast to `any` in TypeScript) |
| JsTs.MaybeReturnAsResultTuple | src/lang/js_ts.rs:104-120 | no result gives a bare statement; a value, or a `Result` in `Throw` mode, gives `return`; a `Result` in `Result` mode gives the try/catch wrapper |
| JsTs.ReturnStatementParts | src/lang/js_ts.rs:104-120 | for an expression that is not itself a try/catch block, every return statement contains it, and starts with `try {` exactly when the command reports failures as values |
| JsTs.Function | src/lang/js_ts.rs:122-139 | a wrapper opens with its signature, declares `Promise<type>` when it has a type, and ends with a block holding the body |
| JsTs.TauriInvoke | src/lang/js_ts.rs:141-145 | an invocation is an awaited expression that opens with the `TAURI_INVOKE` call of the quoted command name |
| JsTs.TauriInvokeParts | src/lang/js_ts.rs:141-145 | an invocation is exactly `await TAURI_INVOKE("<name>"` followed by `, <payload>)` when there are arguments and by `)` alone otherwise |
| JsTs.HandleResult | src/lang/js_ts.rs:147-171 | the declared type is `void` with no result, the rendered type for a value, the ok type in `Throw` mode, and `Result<ok, err>` in `Result` mode; a failing type rendering is the error |
| JsTs.InvokeName | src/lang/js_ts.rs:179-182 | a command is invoked by its own name, or by its `plugin:<plugin>\|<name>` form for a plugin |
| JsTs.CommandBody | src/lang/js_ts.rs:173-196 | a command body contains the invocation it performs, and starts with `try {` exactly when the command reports failures as values |
| JsTs.CommandBodyInvokes | src/lang/js_ts.rs:173-196 | a command body holds one call that invokes the (prefixed) name with exactly the argument payload, or with no payload when there are no arguments, and starts with `try {` exactly when the command reports failures as values |
| JsTs.ReturnPolicyMatchesTypePolicy | src/lang/js_ts.rs:147-171 | the body wraps failures in a result object exactly when the declared type is the `Result<ok, err>` union |
| JsTs.Framed | src/lang/ts.rs:72-80 | a section opens and closes with its fixed texts, and every item joined into it occurs in it |
| JsTs.CommandsSection | src/lang/ts.rs:34-80 | shared by both dialects (also src/lang/js.rs:84-90): succeeds iff every wrapper does, failing with the first failure in command order; otherwise exactly the section's opening text, the wrappers in command order separated by `,\n`, and the closing text |
| JsTs.EventWireName | src/lang/js_ts.rs:205-208 | an event keeps its name, or takes its `plugin:<plugin>:<name>` form for a plugin |
| JsTs.EventMapEntries | src/lang/js_ts.rs:198-215 | one `camelName: "wire-name"` entry per event, in ascending name order |
| JsTs.EventsMap | src/lang/js_ts.rs:198-215 | the map is exactly the event entries in ascending name order joined by `,\n`; it is empty without events and holds the `camelName: "wire-name"` entry of every event |
| JsTs.SingleEventMap | src/lang/js_ts.rs:198-215 | a single event's map is that event's entry, with no separator |
| JsTs.EventTypeEntry | src/lang/js_ts.rs:224-230 | an event type entry is the camel-cased name and the rendered payload type, and fails when the payload type does |
| JsTs.EventTypeEntries | src/lang/js_ts.rs:217-232 | succeeds iff every listed payload type renders; then one `camelName: Type` entry per event in list order; otherwise the error of the first payload that fails |
| JsTs.EventsTypes | src/lang/js_ts.rs:217-232 | succeeds iff every payload type renders; then one entry per event in name order; otherwise the error is that of the first payload, in name order, that fails to render |
| JsTs.EventsData | src/lang/js_ts.rs:234-244 | the event types, failing as they do, paired with the wire-name map |
| Ts.ArgDef | src/lang/ts.rs:42-45 | a parameter is the camel-cased name, `: `, and the inlined type, and fails when inlining does |
| Ts.ArgDefs | src/lang/ts.rs:39-46 | succeeds iff every argument type inlines; then one definition per argument in order; otherwise the first failure |
| Ts.CommandWrapper | src/lang/ts.rs:38-71 | succeeds iff the parameters and the result type render, with parameter errors first; the wrapper declares `Promise<type>` and holds the TypeScript command body |
| Ts.RenderCommands | src/lang/ts.rs:31-81 | succeeds iff every wrapper does, failing with the first; the section is exactly the `export const commands = {` frame around the wrappers in command order, separated by `,\n` |
| Ts.RenderEvents | src/lang/ts.rs:83-101 | no events give an empty section; otherwise it fails iff a payload type fails, with that error, and is exactly the `__makeEvents__` call with the joined event types as its type argument and the event map as its value argument |
| Ts.Render | src/lang/ts.rs:11-28 | the document is the types, commands and events sections in the shared layout; the first failure among them, in that order, is the error |
| Ts.WrapperSucceedsInThrowMode | src/lang/ts.rs:38-71 | a wrapper that renders in `Result` mode also renders in `Throw` mode |
| Ts.ThrowModeSucceedsWhenResultModeDoes | src/lang/ts.rs:11-28 | a TypeScript export that succeeds in `Result` mode also succeeds in `Throw` mode |
| Ts.ModeIrrelevantWithoutResultCommands | src/lang/ts.rs:11-28 | when no command returns a `Result`, both modes give the same document or the same error |
| Js.CommandWrapper | src/lang/js.rs:41-82 | fails iff the result type fails to render; the method takes the camel-cased names and holds the JSDoc command body |
| Js.RenderCommands | src/lang/js.rs:34-91 | succeeds iff every wrapper does, failing with the first; the section is exactly the `export const commands = {` frame around the wrappers in command order, separated by `,\n` |
| Js.RenderEvents | src/lang/js.rs:93-122 | no events give an empty section; otherwise it fails iff a payload type fails, with that error, and is exactly the `__typedMakeEvents__({ map })` call around the event map |
| Js.Render | src/lang/js.rs:14-31 | the document is the `@typedef` types, commands and events sections in the shared layout without `as const`; the first failure is the error |
| Js.ParamsMatchPayload | src/lang/js.rs:74-81 | a JSDoc wrapper's parameter list and its invoke payload name the same camel-cased arguments |
| Js.WrapperPassesPayload | src/lang/js.rs:74-81 | a JSDoc wrapper of a command with arguments passes them as the `{ a, b }` payload |
| Js.ReturnTypeErrorFailsExport | src/lang/js.rs:41-43 | when a command's result type fails to render, so does the JSDoc commands section, with that error |
| Js.ConstantsWithoutAsConst | src/lang/js.rs:22-30 | JSDoc constants never carry ` as const` |
| Js.WrapperSucceedsInThrowMode | src/lang/js.rs:41-82 | a JSDoc wrapper that renders in `Result` mode also renders in `Throw` mode |
| Js.ThrowModeSucceedsWhenResultModeDoes | src/lang/js.rs:14-31 | a JSDoc export that succeeds in `Result` mode also succeeds in `Throw` mode |
| Js.ModeIrrelevantWithoutResultCommands | src/lang/js.rs:14-31 | when no command returns a `Result`, both modes give the same JSDoc document or the same error |
| Lang.Render | src/lib.rs:266-271 | in either language, a successful document opens with the configured header, invokes every command by its wire name and maps every event to its wire name |
| Lang.TsDocumentFacts | src/lang/ts.rs:11-28 | a TypeScript document opens with its header, invokes every command and maps every event |
| Lang.JsDocumentFacts | src/lang/js.rs:14-31 | a JSDoc document opens with its header, invokes every command and maps every event |
| Lang.ExportStr | src/builder.rs:311-324 | a successful export invokes every command registered on the builder by its wire name and maps every registered event |
| Lang.PluginCommandsInvokePrefixedNames | src/builder.rs:311-323 | in a successful plugin export in either language, every command is invoked by `plugin:<plugin>\|<command>` |
| Lang.PluginEventsUsePrefixedNames | src/builder.rs:311-323 | in a successful plugin export in either language, every event is announced as `camelName: "plugin:<plugin>:<event>"` |
| Statics.Extend | src/statics.rs:17-27 | the merged collection has the keys of both; a key in the other collection takes its value, and any other key keeps its own |
| Statics.Register | src/statics.rs:30-38 | a value that does not serialise gives the `unwrap` panic; otherwise the value is stored under its name and the other entries are kept |
| Statics.RegisterIsExtend | src/statics.rs:30-38 | registering one value is extending with a one-entry collection |
| Statics.ExtendMonoid | src/statics.rs:17-27 | merging is associative and the empty collection is its identity on both sides |
| Statics.ExtendIdempotent | src/statics.rs:17-27 | extending twice with the same collection is the same as extending once |
| Macros.GenericsWithIdentAndBoundsOnly | macros/src/lib.rs:60-87 | nothing exactly when the type has no generic parameters; otherwise each parameter in order with its own bounds |
| Macros.GenericsWithIdentOnly | macros/src/lib.rs:89-100 | nothing exactly when the type has no generic parameters; otherwise each parameter's name in order |
| Macros.ParamListsAgree | macros/src/lib.rs:47-53 | the impl's parameter list and the type's argument list are both present or both absent, and pair up parameter by parameter |
| Macros.AngleBracketed | macros/src/lib.rs:86 | the list is `<`, then the comma-separated entries, then `>` |
| Macros.CommaSeparated | macros/src/lib.rs:86 | every entry occurs in order, each starting just after the previous entry and a comma; a comma sits between each pair of neighbours, and the length is the entries' total plus one comma per gap |
| Macros.TypeParamIdents | macros/src/lib.rs:103-110 | the identifiers are exactly those of the type parameters, and empty iff there are none |
| Macros.AddTypeToWhereClause | macros/src/lib.rs:102-121 | without type parameters, the original clause; with them, no clause for none and a clause with the same predicates otherwise |
| Macros.WhereClauseUnchanged | macros/src/lib.rs:102-121 | in every case the emitted where clause is the type's own |
| Macros.EventName | macros/src/lib.rs:41-44 | the event name is the attribute's value when given, otherwise the kebab case of the type name |
| Macros.DeriveEvent | macros/src/lib.rs:27-58 | the derive fails exactly for unions; otherwise the impl names the type, uses the chosen event name, has generics exactly when the type does, and keeps its where clause |
| Wrappers.Collect | src/lang/ts.rs:39-46 | collecting succeeds iff every element does, keeping their values in order; otherwise the error is the first element's failure |
| Strings.SortedEntries | src/lang/js_ts.rs:28-29 | a map's entries, exactly one per key, each with its value |
| Strings.SortedEntriesAscending | src/lang/js_ts.rs:28-29 | those entries are visited in strictly ascending key order, as `sort_by(a.cmp(b))` and a `BTreeMap` walk them |

## Left out

- File output: `export`, formatting, and writing the file to disk. Only `export_str`
  is modelled.
- The runtime side of commands and events: the invoke handler, `Commands`' handler
  half, Tauri's `Manager`, listening and emitting, and the lock around the event
  registry. `mount_events` is modelled as its update of the registry map.
- The bundled `globals.ts` and `globals.js` helpers: their text is a parameter.
- `specta`, `specta_typescript`, `heck` and `serde_json`: these are the abstract `Env`
  functions.
- The identity of `Channel<()>`: it is the `channel` parameter of `WithEvents`.
- Documentation comments on wrappers, and the JSDoc event type annotation: the source
  leaves both empty (marked TODO), so they are the empty string.
- The deprecated `ty`: it does exactly what `typ` does, and `Builder.Typ` models both.
- JsTs.ConstantLines: JSON text is a total function. So the `expect` around
  `serde_json::to_string` in `render_all_parts` never fails here.
- Specta.Json: numbers are kept as their decimal text; floating point is not modelled.
- Macros.DeriveEvent: of `darling`'s errors, only rejecting a union is modelled.
  Malformed or unknown attributes are not.
- Macros.DeriveEvent: token streams are sequences of token texts, and spans are not
  modelled.
- The `Event` trait's runtime methods and `EventRegistry::get_or_manage`: runtime
  plumbing. Only the `NAME` the derive chooses is modelled.
