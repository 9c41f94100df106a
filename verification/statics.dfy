/** Static values for exporters of other languages (`src/statics.rs`): a
    map from name to JSON value with register and merge operations. */
module Statics {
  import opened Wrappers
  import opened Specta

  /** `StaticCollection`. */
  datatype StaticCollection = StaticCollection(statics: map<string, Json>)

  /** `StaticCollection::default`. */
  const Empty: StaticCollection := StaticCollection(map[])

  /** `extend`: merges `other` into `c`. Every key of either collection is
      kept; on a key in both, the value from `other` wins. `other` is taken
      by value here, so it cannot change. */
  function Extend(c: StaticCollection, other: StaticCollection): (r: StaticCollection)
    ensures r.statics.Keys == c.statics.Keys + other.statics.Keys
    ensures forall k :: k in other.statics ==> r.statics[k] == other.statics[k]
    ensures forall k :: k in c.statics && k !in other.statics ==> r.statics[k] == c.statics[k]
  {
    StaticCollection(c.statics + other.statics)
  }

  /** `register`: stores a value under a name, replacing any earlier one.
      `value` is what `serde_json::to_value` gave: the value, or the `Debug`
      text of its error, which makes the `unwrap` panic. */
  function Register(c: StaticCollection, name: string, value: Result<Json, string>): (r: Result<StaticCollection, Panic>)
    ensures r.Err? <==> value.Err?
    ensures r.Err? ==> r.error == Panic("called `Result::unwrap()` on an `Err` value: " + value.error)
    ensures r.Ok? ==> r.value.statics.Keys == c.statics.Keys + {name}
    ensures r.Ok? ==> r.value.statics[name] == value.value
    ensures r.Ok? ==> forall k :: k in c.statics && k != name ==> r.value.statics[k] == c.statics[k]
  {
    match value
    case Err(e) => Err(Panic("called `Result::unwrap()` on an `Err` value: " + e))
    case Ok(v) => Ok(StaticCollection(c.statics[name := v]))
  }

  /** Registering one value is extending with a one-entry collection. */
  lemma RegisterIsExtend(c: StaticCollection, name: string, v: Json)
    ensures Register(c, name, Ok(v)) == Ok(Extend(c, StaticCollection(map[name := v])))
  {
    var r := Register(c, name, Ok(v)).value;
    var e := Extend(c, StaticCollection(map[name := v]));
    assert r.statics.Keys == e.statics.Keys;
    assert r.statics == e.statics;
  }

  /** Merging is associative and has the empty collection on both sides as
      identity: the grouping of several `extend` calls does not matter. */
  lemma ExtendMonoid(a: StaticCollection, b: StaticCollection, c: StaticCollection)
    ensures Extend(Extend(a, b), c) == Extend(a, Extend(b, c))
    ensures Extend(Empty, a) == a && Extend(a, Empty) == a
  {
    var left := Extend(Extend(a, b), c);
    var right := Extend(a, Extend(b, c));
    assert left.statics.Keys == right.statics.Keys;
    assert left.statics == right.statics;
    assert Extend(Empty, a).statics == a.statics;
    assert Extend(a, Empty).statics == a.statics;
  }

  /** Extending with a collection twice changes nothing the second time. */
  lemma ExtendIdempotent(a: StaticCollection, b: StaticCollection)
    ensures Extend(Extend(a, b), b) == Extend(a, b)
  {
    assert Extend(Extend(a, b), b).statics == Extend(a, b).statics;
  }
}
