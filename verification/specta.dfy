/** The interface of the crates the binding generator calls but does not
    implement: `specta` (type descriptions, the type map, function signatures),
    `specta_typescript` (rendering a type to TypeScript text), `heck` (case
    conversion) and `serde_json` (constant values and their text).

    Their behaviour is not modelled: the types are abstract and the functions
    are fields of `Env`, so every property proved about the generator holds
    whatever those collaborators do. */
module Specta {
  import opened Wrappers

  /** `specta::datatype::DataType`: a structural type description. */
  type DataType(==)

  /** `specta::datatype::NamedDataType`: a named type declaration. */
  type NamedDataType(==)

  /** `specta::SpectaID`: the stable, opaque identity of a named type. */
  type SpectaId(==, !new)

  /** `specta::TypeMap`: every named type collected so far, by identity. */
  type TypeMap = map<SpectaId, NamedDataType>

  /** `FunctionResultVariant` (called `FunctionReturnType` in the dialect files):
      what a command returns, when it returns anything. */
  datatype FunctionResultVariant =
    | Value(ty: DataType)
    | Result(ok: DataType, err: DataType)

  /** `specta::datatype::Function`: one collected command signature. */
  datatype Function = Function(
    name: string,
    args: seq<(string, DataType)>,
    result: Option<FunctionResultVariant>,
    docs: string,
    deprecated: Option<string>,
    asynchronous: bool)

  /** `serde_json::Value`. Numbers are kept as their decimal text. */
  datatype Json =
    | Null
    | Bool(b: bool)
    | Number(digits: string)
    | String(s: string)
    | Array(items: seq<Json>)
    | Object(fields: map<string, Json>)

  /** `specta_typescript::ExportError` / `specta_typescript::Error` (one type here). */
  datatype ExportError = ExportError(message: string)

  /** The external functions the renderers call, fixed for one exporter
      configuration (`Typescript` or `JSDoc` value).
      - `renderType`: `specta_typescript::datatype(cfg, &FunctionResultVariant::Value(t), type_map)`
      - `inline`: `primitives::inline(cfg, type_map, t)`
      - `exportType`: `primitives::export(cfg, type_map, ndt)` (a TypeScript declaration)
      - `typedefType`: `primitives::typedef(cfg, type_map, ndt)` (a JSDoc `@typedef`)
      - `sortedTypes`: `TypeMap::into_sorted_iter`
      - `lowerCamel`, `kebab`: `heck`'s `to_lower_camel_case`, `to_kebab_case`
      - `jsonText`: `serde_json::to_string` on a `Value` */
  datatype Env = Env(
    renderType: (DataType, TypeMap) -> Result<string, ExportError>,
    inline: (DataType, TypeMap) -> Result<string, ExportError>,
    exportType: (NamedDataType, TypeMap) -> Result<string, ExportError>,
    typedefType: (NamedDataType, TypeMap) -> Result<string, ExportError>,
    sortedTypes: TypeMap -> seq<NamedDataType>,
    lowerCamel: string -> string,
    kebab: string -> string,
    jsonText: Json -> string)

  /** `specta_typescript::Typescript`: the exporter configuration; only its
      header is read by the binding generator. */
  datatype Typescript = Typescript(header: string)

  /** `specta_typescript::JSDoc`: a wrapper around a `Typescript` configuration
      (`inner_ref`). */
  datatype JSDoc = JSDoc(inner: Typescript)
}
