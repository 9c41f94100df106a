/** The `Event` derive (`macros/src/lib.rs`): the event name it chooses and
    the pieces of the `impl Event` header it builds from the type's generics.
    Token streams are modelled as sequences of token texts; parsing by `syn`
    and option handling by `darling` are not modelled beyond the fields read
    here. */
module Macros {
  import opened Wrappers

  type Token = string

  /** `syn::GenericParam`, with the fields the derive reads. */
  datatype GenericParam =
    | TypeParam(ident: string, colon: bool, bounds: seq<seq<Token>>)
    | LifetimeParam(lifetime: string, colon: bool, lifetimeBounds: seq<string>)
    | ConstParam(ident: string, ty: seq<Token>)

  /** `syn::WhereClause`: its predicates, each a token sequence. */
  datatype WhereClause = WhereClause(predicates: seq<seq<Token>>)

  /** `syn::Generics`. */
  datatype Generics = Generics(params: seq<GenericParam>, whereClause: Option<WhereClause>)

  /** `#colon_token`: the `:` token when present. */
  function Colon(colon: bool): seq<Token> {
    if colon then [":"] else []
  }

  /** A `+`-punctuated list, as `Punctuated<_, Token![+]>` prints. */
  function PlusSeparated(items: seq<seq<Token>>): (r: seq<Token>)
    ensures |items| == 0 ==> r == []
    decreases |items|
  {
    if |items| == 0 then []
    else if |items| == 1 then items[0]
    else items[0] + ["+"] + PlusSeparated(items[1..])
  }

  /** One parameter with its bounds: `T: A + B`, `'a: 'b`, `const N: usize`.
      Defaults and attributes are dropped. */
  function WithBounds(p: GenericParam): seq<Token>
  {
    match p
    case TypeParam(ident, colon, bounds) => [ident] + Colon(colon) + PlusSeparated(bounds)
    case LifetimeParam(lifetime, colon, bs) =>
      [lifetime] + Colon(colon) + PlusSeparated(seq(|bs|, i requires 0 <= i < |bs| => [bs[i]]))
    case ConstParam(ident, ty) => ["const", ident, ":"] + ty
  }

  /** The name of a parameter as a type argument: `T`, `'a`, `N`. */
  function ParamName(p: GenericParam): Token {
    match p
    case TypeParam(ident, _, _) => ident
    case LifetimeParam(lifetime, _, _) => lifetime
    case ConstParam(ident, _) => ident
  }

  /** `generics_with_ident_and_bounds_only`, before the `<...>` wrapping: one
      entry per parameter, in order; `None` exactly when there are no
      parameters. */
  function GenericsWithIdentAndBoundsOnly(g: Generics): (r: Option<seq<seq<Token>>>)
    ensures r.None? <==> |g.params| == 0
    ensures r.Some? ==> |r.value| == |g.params|
    ensures r.Some? ==> forall i :: 0 <= i < |g.params| ==> r.value[i] == WithBounds(g.params[i])
  {
    if |g.params| == 0 then None
    else Some(seq(|g.params|, i requires 0 <= i < |g.params| => WithBounds(g.params[i])))
  }

  /** `generics_with_ident_only`, before the `<...>` wrapping: the name of
      each parameter, in order; `None` exactly when there are no parameters. */
  function GenericsWithIdentOnly(g: Generics): (r: Option<seq<seq<Token>>>)
    ensures r.None? <==> |g.params| == 0
    ensures r.Some? ==> |r.value| == |g.params|
    ensures r.Some? ==> forall i :: 0 <= i < |g.params| ==> r.value[i] == [ParamName(g.params[i])]
  {
    if |g.params| == 0 then None
    else Some(seq(|g.params|, i requires 0 <= i < |g.params| => [ParamName(g.params[i])]))
  }

  /** `<#(#gs),*>`: the entries separated by commas inside angle brackets. */
  function AngleBracketed(entries: seq<seq<Token>>): (r: seq<Token>)
    ensures |r| >= 2 && r[0] == "<" && r[|r| - 1] == ">"
    ensures r[1..|r| - 1] == CommaSeparated(entries)
  {
    var r := ["<"] + CommaSeparated(entries) + [">"];
    assert r[1..|r| - 1] == CommaSeparated(entries);
    r
  }

  /** Where entry `i` starts in the comma-separated list: after each earlier
      entry and its comma. */
  function EntryStart(entries: seq<seq<Token>>, i: nat): nat
    requires i <= |entries|
  {
    if i == 0 then 0 else EntryStart(entries, i - 1) + |entries[i - 1]| + 1
  }

  /** Where an entry starts depends only on the entries before it. */
  lemma EntryStartOfPrefix(entries: seq<seq<Token>>, n: nat, i: nat)
    requires i <= n <= |entries|
    ensures EntryStart(entries[..n], i) == EntryStart(entries, i)
  {
    if i > 0 {
      EntryStartOfPrefix(entries, n, i - 1);
    }
  }

  /** Entry `e` sits in `r` at position `at`. */
  predicate EntryAt(r: seq<Token>, e: seq<Token>, at: nat) {
    at + |e| <= |r| && r[at..at + |e|] == e
  }

  /** A comma sits in `r` just before position `at`. */
  predicate CommaBefore(r: seq<Token>, at: nat) {
    0 < at <= |r| && r[at - 1] == ","
  }

  /** Every entry sits in `r` at its start. */
  predicate EntriesInPlace(entries: seq<seq<Token>>, r: seq<Token>) {
    forall i {:trigger EntryAt(r, entries[i], EntryStart(entries, i))} ::
      0 <= i < |entries| ==> EntryAt(r, entries[i], EntryStart(entries, i))
  }

  /** A comma sits just before every entry but the first. */
  predicate CommasBetween(entries: seq<seq<Token>>, r: seq<Token>) {
    forall i {:trigger CommaBefore(r, EntryStart(entries, i))} ::
      0 < i < |entries| ==> CommaBefore(r, EntryStart(entries, i))
  }

  /** `r` lists every entry in order, each at its start, with a comma between
      each pair of neighbours and nothing else. */
  predicate Separated(entries: seq<seq<Token>>, r: seq<Token>) {
    && (|entries| == 0 ==> r == [])
    && (|entries| > 0 ==> |r| + 1 == EntryStart(entries, |entries|))
    && EntriesInPlace(entries, r)
    && CommasBetween(entries, r)
  }

  /** `#(#gs),*`: the entries joined by commas. */
  function CommaSeparated(entries: seq<seq<Token>>): (r: seq<Token>)
    ensures Separated(entries, r)
    decreases |entries|
  {
    if |entries| == 0 then []
    else if |entries| == 1 then entries[0]
    else
      var n := |entries| - 1;
      var p := CommaSeparated(entries[..n]);
      EntryStartOfPrefix(entries, n, n);
      EntriesInPlaceSnoc(entries, p);
      CommasBetweenSnoc(entries, p);
      p + ([","] + entries[n])
  }

  /** Appending a comma and one more entry keeps the others in place and puts
      the new one right after the comma. */
  lemma EntriesInPlaceSnoc(entries: seq<seq<Token>>, p: seq<Token>)
    requires |entries| > 1 && EntriesInPlace(entries[..|entries| - 1], p)
    requires |p| + 1 == EntryStart(entries, |entries| - 1)
    ensures EntriesInPlace(entries, p + ([","] + entries[|entries| - 1]))
  {
    EarlierEntriesKept(entries, p);
    LastEntryAt(p, entries[|entries| - 1]);
  }

  lemma EarlierEntriesKept(entries: seq<seq<Token>>, p: seq<Token>)
    requires |entries| > 1 && EntriesInPlace(entries[..|entries| - 1], p)
    ensures forall i :: 0 <= i < |entries| - 1 ==>
              EntryAt(p + ([","] + entries[|entries| - 1]), entries[i], EntryStart(entries, i))
  {
    var n := |entries| - 1;
    forall i | 0 <= i < n
      ensures EntryAt(p + ([","] + entries[n]), entries[i], EntryStart(entries, i))
    {
      EarlierEntryKept(entries, p, [","] + entries[n], i);
    }
  }

  /** Appending a comma and one more entry keeps the other commas and puts one
      before the new entry. */
  lemma CommasBetweenSnoc(entries: seq<seq<Token>>, p: seq<Token>)
    requires |entries| > 1 && CommasBetween(entries[..|entries| - 1], p)
    requires |p| + 1 == EntryStart(entries, |entries| - 1)
    ensures CommasBetween(entries, p + ([","] + entries[|entries| - 1]))
  {
    EarlierCommasKept(entries, p);
    LastComma(p, entries[|entries| - 1]);
  }

  lemma EarlierCommasKept(entries: seq<seq<Token>>, p: seq<Token>)
    requires |entries| > 1 && CommasBetween(entries[..|entries| - 1], p)
    ensures forall i :: 0 < i < |entries| - 1 ==>
              CommaBefore(p + ([","] + entries[|entries| - 1]), EntryStart(entries, i))
  {
    var n := |entries| - 1;
    forall i | 0 < i < n
      ensures CommaBefore(p + ([","] + entries[n]), EntryStart(entries, i))
    {
      EarlierCommaKept(entries, p, [","] + entries[n], i);
    }
  }

  lemma EarlierEntryKept(entries: seq<seq<Token>>, p: seq<Token>, tail: seq<Token>, i: nat)
    requires i < |entries| - 1
    requires EntryAt(p, entries[..|entries| - 1][i], EntryStart(entries[..|entries| - 1], i))
    ensures EntryAt(p + tail, entries[i], EntryStart(entries, i))
  {
    EntryStartOfPrefix(entries, |entries| - 1, i);
    assert entries[..|entries| - 1][i] == entries[i];
    EntryKept(p, tail, EntryStart(entries, i), entries[i]);
  }

  lemma EarlierCommaKept(entries: seq<seq<Token>>, p: seq<Token>, tail: seq<Token>, i: nat)
    requires i < |entries| - 1
    requires CommaBefore(p, EntryStart(entries[..|entries| - 1], i))
    ensures CommaBefore(p + tail, EntryStart(entries, i))
  {
    EntryStartOfPrefix(entries, |entries| - 1, i);
    CommaKept(p, tail, EntryStart(entries, i));
  }

  /** A piece of `p` at `a` is still there once something is appended. */
  lemma EntryKept(p: seq<Token>, q: seq<Token>, a: nat, e: seq<Token>)
    requires EntryAt(p, e, a)
    ensures EntryAt(p + q, e, a)
  {
    assert (p + q)[a..a + |e|] == p[a..a + |e|];
  }

  /** A comma of `p` is still there once something is appended. */
  lemma CommaKept(p: seq<Token>, q: seq<Token>, a: nat)
    requires CommaBefore(p, a)
    ensures CommaBefore(p + q, a)
  {
    assert (p + q)[a - 1] == p[a - 1];
  }

  lemma LastEntryAt(p: seq<Token>, e: seq<Token>)
    ensures EntryAt(p + ([","] + e), e, |p| + 1)
  {
    var r := p + ([","] + e);
    assert r[|p| + 1..|r|] == e;
  }

  lemma LastComma(p: seq<Token>, e: seq<Token>)
    ensures CommaBefore(p + ([","] + e), |p| + 1)
  {
    assert (p + ([","] + e))[|p|] == ",";
  }

  /** The impl's parameter list and the type's argument list agree: both have
      one entry per parameter, and each type argument is the name that opens
      the matching bounded entry (after `const` for a const parameter). */
  lemma ParamListsAgree(g: Generics)
    ensures GenericsWithIdentAndBoundsOnly(g).None? <==> GenericsWithIdentOnly(g).None?
    ensures GenericsWithIdentOnly(g).Some? ==>
              forall i :: 0 <= i < |g.params| ==>
                var bounded := GenericsWithIdentAndBoundsOnly(g).value[i];
                var name := GenericsWithIdentOnly(g).value[i][0];
                if g.params[i].ConstParam? then |bounded| > 1 && bounded[1] == name
                else |bounded| > 0 && bounded[0] == name
  {
    if |g.params| > 0 {
      forall i | 0 <= i < |g.params|
        ensures var bounded := GenericsWithIdentAndBoundsOnly(g).value[i];
                var name := GenericsWithIdentOnly(g).value[i][0];
                if g.params[i].ConstParam? then |bounded| > 1 && bounded[1] == name
                else |bounded| > 0 && bounded[0] == name
      {
        var p := g.params[i];
        assert GenericsWithIdentAndBoundsOnly(g).value[i] == WithBounds(p);
        assert GenericsWithIdentOnly(g).value[i] == [ParamName(p)];
      }
    }
  }

  /** The identifiers of the type parameters, in order (the `filter_map`). */
  function TypeParamIdents(params: seq<GenericParam>): (r: seq<string>)
    ensures |r| == 0 <==> forall i :: 0 <= i < |params| ==> !params[i].TypeParam?
    ensures forall x :: x in r <==> exists i :: 0 <= i < |params| && params[i].TypeParam? && params[i].ident == x
    decreases |params|
  {
    if |params| == 0 then []
    else
      var rest := TypeParamIdents(params[1..]);
      assert forall i :: 1 <= i < |params| ==> params[i] == params[1..][i - 1];
      if params[0].TypeParam? then [params[0].ident] + rest else rest
  }

  /** `add_type_to_where_clause`: with no type parameter, the original clause;
      otherwise no clause when there was none, and a clause rebuilt from the
      same predicates when there was one. */
  function AddTypeToWhereClause(g: Generics): (r: Option<WhereClause>)
    ensures |TypeParamIdents(g.params)| == 0 ==> r == g.whereClause
    ensures |TypeParamIdents(g.params)| > 0 && g.whereClause.None? ==> r.None?
    ensures |TypeParamIdents(g.params)| > 0 && g.whereClause.Some? ==>
              r.Some? && r.value.predicates == g.whereClause.value.predicates
  {
    var genericTypes := TypeParamIdents(g.params);
    if |genericTypes| == 0 then g.whereClause
    else
      match g.whereClause
      case None => None
      case Some(w) => Some(WhereClause(w.predicates))
  }

  /** Whatever the parameters, the where clause the derive emits is the
      type's own: no bound is added. */
  lemma WhereClauseUnchanged(g: Generics)
    ensures AddTypeToWhereClause(g) == g.whereClause
  {
    if |TypeParamIdents(g.params)| > 0 && g.whereClause.Some? {
      assert AddTypeToWhereClause(g).value == g.whereClause.value;
    }
  }

  /** The shape of the item the derive is applied to; `darling` accepts
      structs and enums only. */
  datatype Shape = Struct | Enum | Union

  /** What `EventOpts::from_derive_input` reads: the identifier, the
      generics and the optional `#[tauri_specta(event_name = "...")]`. */
  datatype DeriveInput = DeriveInput(ident: string, generics: Generics, shape: Shape, eventName: Option<string>)

  datatype DeriveError = UnsupportedShape

  /** The emitted `impl #bounds Event for #ident #type_args #where_bound { const NAME = #name_lit; }`. */
  datatype EventImpl = EventImpl(
    bounds: Option<seq<Token>>,
    ident: string,
    typeArgs: Option<seq<Token>>,
    whereBound: Option<WhereClause>,
    name: string)

  /** The event name: the attribute value when given, otherwise the kebab
      case of the type identifier. */
  function EventName(eventName: Option<string>, ident: string, kebab: string -> string): (r: string)
    ensures eventName.Some? ==> r == eventName.value
    ensures eventName.None? ==> r == kebab(ident)
  {
    match eventName
    case Some(name) => name
    case None => kebab(ident)
  }

  function MapOption<A, B>(o: Option<A>, f: A -> B): (r: Option<B>)
    ensures r.None? <==> o.None?
    ensures r.Some? ==> r.value == f(o.value)
  {
    match o
    case None => None
    case Some(v) => Some(f(v))
  }

  /** `derive_type`: rejects unions; otherwise builds the impl from the
      chosen name and the generics helpers. */
  function DeriveEvent(input: DeriveInput, kebab: string -> string): (r: Result<EventImpl, DeriveError>)
    ensures r.Err? <==> input.shape == Union
    ensures r.Ok? ==> r.value.name == EventName(input.eventName, input.ident, kebab)
    ensures r.Ok? ==> r.value.ident == input.ident
    ensures r.Ok? ==> (r.value.bounds.None? <==> |input.generics.params| == 0)
    ensures r.Ok? ==> (r.value.typeArgs.None? <==> |input.generics.params| == 0)
    ensures r.Ok? ==> r.value.whereBound == input.generics.whereClause
  {
    if input.shape == Union then
      Err(UnsupportedShape)
    else
      WhereClauseUnchanged(input.generics);
      Ok(EventImpl(
        MapOption(GenericsWithIdentAndBoundsOnly(input.generics), AngleBracketed),
        input.ident,
        MapOption(GenericsWithIdentOnly(input.generics), AngleBracketed),
        AddTypeToWhereClause(input.generics),
        EventName(input.eventName, input.ident, kebab)))
  }
}
