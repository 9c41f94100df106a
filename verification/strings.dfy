/** String helpers used by the renderers: joining, concatenation of a fixed list
    of pieces, substring occurrence, and Rust's ordering of `str` values together
    with the key order in which a `BTreeMap` (or a sorted `Vec`) is walked. */
module Strings {

  /** `xs.join(sep)`. */
  function Join(xs: seq<string>, sep: string): (r: string)
    ensures |xs| == 0 ==> r == ""
    ensures |xs| == 1 ==> r == xs[0]
    ensures |xs| >= 1 ==> IsPrefix(xs[0], r)
  {
    if |xs| == 0 then ""
    else if |xs| == 1 then xs[0]
    else xs[0] + sep + Join(xs[1..], sep)
  }

  /** Every element of a joined list occurs in the joined text. */
  lemma {:induction false} JoinContains(xs: seq<string>, sep: string, i: nat)
    requires i < |xs|
    ensures Contains(Join(xs, sep), xs[i])
  {
    if i == 0 {
      PrefixContains(xs[0], Join(xs, sep));
    } else {
      JoinContains(xs[1..], sep, i - 1);
      ContainsPrepend(Join(xs[1..], sep), xs[i], xs[0] + sep);
    }
  }

  /** The concatenation of a list of pieces, in order. */
  function Concat(pieces: seq<string>): (r: string)
    ensures |r| == TotalLength(pieces)
  {
    if |pieces| == 0 then "" else pieces[0] + Concat(pieces[1..])
  }

  function TotalLength(pieces: seq<string>): nat {
    if |pieces| == 0 then 0 else |pieces[0]| + TotalLength(pieces[1..])
  }

  /** Where piece `k` starts inside `Concat(pieces)`. */
  function Offset(pieces: seq<string>, k: nat): nat
    requires k <= |pieces|
  {
    TotalLength(pieces[..k])
  }

  /** Concatenation distributes over appending lists of pieces. */
  lemma {:induction false} ConcatAppend(a: seq<string>, b: seq<string>)
    ensures Concat(a + b) == Concat(a) + Concat(b)
  {
    if |a| == 0 {
      assert a + b == b;
    } else {
      assert (a + b)[1..] == a[1..] + b;
      ConcatAppend(a[1..], b);
    }
  }

  lemma SliceMiddle(a: string, b: string, c: string)
    ensures (a + b + c)[|a|..|a| + |b|] == b
  {
    assert forall i :: 0 <= i < |b| ==> (a + b + c)[|a|..|a| + |b|][i] == b[i];
  }

  /** Piece `k` of a concatenation sits at `Offset(pieces, k)`, and the offsets
      grow with `k`: the pieces appear in the order they are listed. */
  lemma ConcatPieceAt(pieces: seq<string>, k: nat)
    requires k < |pieces|
    ensures Offset(pieces, k) + |pieces[k]| == Offset(pieces, k + 1)
    ensures Offset(pieces, k + 1) <= |Concat(pieces)|
    ensures Concat(pieces)[Offset(pieces, k)..Offset(pieces, k + 1)] == pieces[k]
  {
    var pre, piece, post := pieces[..k], [pieces[k]], pieces[k + 1..];
    assert pieces == pre + piece + post;
    assert pieces[..k + 1] == pre + piece;
    assert Concat(piece) == pieces[k] by {
      assert piece[1..] == [];
    }
    ConcatAppend(pre + piece, post);
    ConcatAppend(pre, piece);
    SliceMiddle(Concat(pre), pieces[k], Concat(post));
  }

  predicate IsPrefix(p: string, s: string) {
    |p| <= |s| && s[..|p|] == p
  }

  predicate IsSuffix(p: string, s: string) {
    |p| <= |s| && s[|s| - |p|..] == p
  }

  /** `sub` occurs in `s` starting at index `at`. */
  predicate OccursAt(sub: string, s: string, at: nat) {
    at + |sub| <= |s| && s[at..at + |sub|] == sub
  }

  predicate Contains(s: string, sub: string) {
    exists at: nat | at <= |s| :: OccursAt(sub, s, at)
  }

  /** Occurrence survives putting text on either side. */
  lemma OccursInConcat(a: string, sub: string, b: string)
    ensures OccursAt(sub, a + sub + b, |a|)
    ensures Contains(a + sub + b, sub)
  {
    assert (a + sub + b)[|a|..|a| + |sub|] == sub;
    assert OccursAt(sub, a + sub + b, |a|);
  }

  lemma PrefixOfConcat(a: string, b: string)
    ensures IsPrefix(a, a + b)
  {
    assert (a + b)[..|a|] == a;
  }

  lemma SuffixOfConcat(a: string, b: string)
    ensures IsSuffix(b, a + b)
  {
    assert (a + b)[|a|..] == b;
  }

  lemma ContainsLeft(a: string, b: string)
    ensures Contains(a + b, a)
  {
    assert (a + b)[0..|a|] == a;
    assert OccursAt(a, a + b, 0);
  }

  lemma ContainsRight(a: string, b: string)
    ensures Contains(a + b, b)
  {
    assert (a + b)[|a|..|a| + |b|] == b;
    assert OccursAt(b, a + b, |a|);
  }

  lemma ContainsAppend(s: string, u: string, t: string)
    requires Contains(s, u)
    ensures Contains(s + t, u)
  {
    var i: nat :| i <= |s| && OccursAt(u, s, i);
    assert (s + t)[i..i + |u|] == s[i..i + |u|];
    assert OccursAt(u, s + t, i);
  }

  lemma ContainsPrepend(s: string, u: string, t: string)
    requires Contains(s, u)
    ensures Contains(t + s, u)
  {
    var i: nat :| i <= |s| && OccursAt(u, s, i);
    assert (t + s)[|t| + i..|t| + i + |u|] == s[i..i + |u|];
    assert OccursAt(u, t + s, |t| + i);
  }

  lemma PrefixAppend(p: string, s: string, t: string)
    requires IsPrefix(p, s)
    ensures IsPrefix(p, s + t)
  {
    assert (s + t)[..|p|] == s[..|p|];
  }

  lemma PrefixContains(p: string, s: string)
    requires IsPrefix(p, s)
    ensures Contains(s, p)
  {
    assert OccursAt(p, s, 0);
  }

  lemma {:induction false} ContainsTransitive(s: string, t: string, u: string)
    requires Contains(s, t) && Contains(t, u)
    ensures Contains(s, u)
  {
    var i: nat :| i <= |s| && OccursAt(t, s, i);
    var j: nat :| j <= |t| && OccursAt(u, t, j);
    assert forall k :: 0 <= k < |t| ==> s[i + k] == t[k] by {
      forall k | 0 <= k < |t|
        ensures s[i + k] == t[k]
      {
        assert s[i..i + |t|][k] == t[k];
      }
    }
    assert forall k :: 0 <= k < |u| ==> t[j + k] == u[k] by {
      forall k | 0 <= k < |u|
        ensures t[j + k] == u[k]
      {
        assert t[j..j + |u|][k] == u[k];
      }
    }
    assert s[i + j..i + j + |u|] == u;
    assert OccursAt(u, s, i + j);
  }

  /** Ordered concatenation, proved once for any list of pieces: piece `k` sits
      at `Offset(pieces, k)` and ends where piece `k + 1` starts. */
  lemma ConcatOrder(pieces: seq<string>)
    ensures forall k :: 0 <= k < |pieces| ==> OccursAt(pieces[k], Concat(pieces), Offset(pieces, k))
    ensures forall k :: 0 <= k < |pieces| ==> Offset(pieces, k) + |pieces[k]| == Offset(pieces, k + 1)
  {
    forall k | 0 <= k < |pieces|
      ensures OccursAt(pieces[k], Concat(pieces), Offset(pieces, k))
      ensures Offset(pieces, k) + |pieces[k]| == Offset(pieces, k + 1)
    {
      ConcatPieceAt(pieces, k);
    }
  }

  // ---------------------------------------------------------------------------
  // Ordering of strings. Rust orders `str` values by their UTF-8 bytes, which is
  // the lexicographic order of their code points; Dafny's `char` is a code point.
  // ---------------------------------------------------------------------------

  /** `a <= b` in lexicographic order: a proper prefix comes first, otherwise the
      first differing character decides. */
  predicate LessEq(a: string, b: string) {
    |a| == 0 || (|b| > 0 && (a[0] < b[0] || (a[0] == b[0] && LessEq(a[1..], b[1..]))))
  }

  predicate Less(a: string, b: string) {
    LessEq(a, b) && a != b
  }

  lemma {:induction false} LessEqReflexive(a: string)
    ensures LessEq(a, a)
  {
    if |a| > 0 {
      LessEqReflexive(a[1..]);
    }
  }

  lemma {:induction false} LessEqAntisymmetric(a: string, b: string)
    requires LessEq(a, b) && LessEq(b, a)
    ensures a == b
  {
    if |a| > 0 && |b| > 0 {
      LessEqAntisymmetric(a[1..], b[1..]);
      assert a == [a[0]] + a[1..];
      assert b == [b[0]] + b[1..];
    }
  }

  lemma {:induction false} LessEqTransitive(a: string, b: string, c: string)
    requires LessEq(a, b) && LessEq(b, c)
    ensures LessEq(a, c)
  {
    if |a| > 0 && |b| > 0 && |c| > 0 && a[0] == b[0] && b[0] == c[0] {
      LessEqTransitive(a[1..], b[1..], c[1..]);
    }
  }

  lemma {:induction false} LessEqTotal(a: string, b: string)
    ensures LessEq(a, b) || LessEq(b, a)
  {
    if |a| > 0 && |b| > 0 && a[0] == b[0] {
      LessEqTotal(a[1..], b[1..]);
    }
  }

  predicate IsMinimum(x: string, s: set<string>) {
    x in s && forall y :: y in s ==> LessEq(x, y)
  }

  lemma {:induction false} MinimumExists(s: set<string>)
    requires s != {}
    ensures exists x :: IsMinimum(x, s)
  {
    var y :| y in s;
    if s == {y} {
      LessEqReflexive(y);
      assert IsMinimum(y, s);
    } else {
      MinimumExists(s - {y});
      var m :| IsMinimum(m, s - {y});
      LessEqTotal(m, y);
      if LessEq(m, y) {
        assert IsMinimum(m, s);
      } else {
        LessEqReflexive(y);
        forall z | z in s
          ensures LessEq(y, z)
        {
          if z != y {
            LessEqTransitive(y, m, z);
          }
        }
        assert IsMinimum(y, s);
      }
    }
  }

  lemma MinimumUnique(s: set<string>)
    ensures forall x, y :: IsMinimum(x, s) && IsMinimum(y, s) ==> x == y
  {
    forall x, y | IsMinimum(x, s) && IsMinimum(y, s)
      ensures x == y
    {
      LessEqAntisymmetric(x, y);
    }
  }

  /** The least string of a non-empty set. */
  function Minimum(s: set<string>): (m: string)
    requires s != {}
    ensures IsMinimum(m, s)
  {
    MinimumExists(s);
    MinimumUnique(s);
    var m :| IsMinimum(m, s);
    m
  }

  /** Every other element of a set is greater than its minimum. */
  lemma MinimumLess(s: set<string>, y: string)
    requires y in s && y != Minimum(s)
    ensures Less(Minimum(s), y)
  {
    assert IsMinimum(Minimum(s), s);
  }

  /** Each element is smaller than the next. */
  predicate StrictlyAscending(xs: seq<string>) {
    forall i :: 0 < i < |xs| ==> Less(xs[i - 1], xs[i])
  }

  /** The keys of a `BTreeMap<&str, _>` (or of a `Vec` sorted with `a.cmp(b)`) in
      the order they are visited: every key exactly once (ascending, by
      `SortedKeysAscending`). */
  function SortedKeys(s: set<string>): (r: seq<string>)
    ensures |r| == |s|
    ensures forall k :: k in s <==> k in r
    ensures forall i, j :: 0 <= i < j < |r| ==> r[i] != r[j]
    decreases |s|
  {
    if s == {} then
      []
    else
      var m := Minimum(s);
      var rest := SortedKeys(s - {m});
      assert m !in rest;
      [m] + rest
  }

  /** Each key visited is smaller than every later one. */
  lemma {:induction false} SortedKeysAscending(s: set<string>)
    ensures StrictlyAscending(SortedKeys(s))
    decreases |s|
  {
    if s != {} {
      var m := Minimum(s);
      var rest := SortedKeys(s - {m});
      SortedKeysAscending(s - {m});
      var r := SortedKeys(s);
      assert r == [m] + rest;
      forall i | 0 < i < |r|
        ensures Less(r[i - 1], r[i])
      {
        if i == 1 {
          assert r[1] == rest[0];
          assert r[1] in s - {m};
          MinimumLess(s, r[1]);
        } else {
          assert r[i - 1] == rest[i - 2] && r[i] == rest[i - 1];
        }
      }
    }
  }

  /** The entries of a string-keyed map in ascending key order: one entry per
      key, each with its value (the order is `SortedEntriesAscending`). */
  function SortedEntries<V>(m: map<string, V>): (r: seq<(string, V)>)
    ensures |r| == |m.Keys|
    ensures forall i :: 0 <= i < |r| ==> r[i].0 in m && r[i].1 == m[r[i].0]
    ensures forall k :: k in m ==> exists i :: 0 <= i < |r| && r[i].0 == k
    ensures forall i, j :: 0 <= i < j < |r| ==> r[i].0 != r[j].0
  {
    var keys := SortedKeys(m.Keys);
    EntriesOfKeys(keys, m);
    EntriesOf(keys, m)
  }

  lemma EntriesOfKeys<V>(keys: seq<string>, m: map<string, V>)
    requires forall i :: 0 <= i < |keys| ==> keys[i] in m
    requires forall k :: k in m ==> k in keys
    requires forall i, j :: 0 <= i < j < |keys| ==> keys[i] != keys[j]
    ensures forall k :: k in m ==> exists i :: 0 <= i < |EntriesOf(keys, m)| && EntriesOf(keys, m)[i].0 == k
    ensures forall i, j :: 0 <= i < j < |EntriesOf(keys, m)| ==> EntriesOf(keys, m)[i].0 != EntriesOf(keys, m)[j].0
  {
    forall k | k in m
      ensures exists i :: 0 <= i < |EntriesOf(keys, m)| && EntriesOf(keys, m)[i].0 == k
    {
      EntryOfKey(keys, m, k);
    }
    forall i, j | 0 <= i < j < |EntriesOf(keys, m)|
      ensures EntriesOf(keys, m)[i].0 != EntriesOf(keys, m)[j].0
    {
      assert EntriesOf(keys, m)[i].0 == keys[i] && EntriesOf(keys, m)[j].0 == keys[j];
    }
  }

  lemma EntryOfKey<V>(keys: seq<string>, m: map<string, V>, k: string)
    requires forall i :: 0 <= i < |keys| ==> keys[i] in m
    requires k in keys
    ensures exists i :: 0 <= i < |EntriesOf(keys, m)| && EntriesOf(keys, m)[i].0 == k
  {
    var i :| 0 <= i < |keys| && keys[i] == k;
    assert EntriesOf(keys, m)[i] == (keys[i], m[keys[i]]);
  }

  /** `SortedEntries` walks the keys in strictly ascending order. */
  lemma SortedEntriesAscending<V>(m: map<string, V>)
    ensures forall i :: 0 < i < |SortedEntries(m)| ==> Less(SortedEntries(m)[i - 1].0, SortedEntries(m)[i].0)
  {
    var keys := SortedKeys(m.Keys);
    SortedKeysAscending(m.Keys);
    var r := SortedEntries(m);
    assert r == EntriesOf(keys, m);
    forall i | 0 < i < |r|
      ensures Less(r[i - 1].0, r[i].0)
    {
      assert r[i - 1].0 == keys[i - 1] && r[i].0 == keys[i];
    }
  }

  /** Pairs each key with its value. */
  function EntriesOf<V>(keys: seq<string>, m: map<string, V>): (r: seq<(string, V)>)
    requires forall i :: 0 <= i < |keys| ==> keys[i] in m
    ensures |r| == |keys|
    ensures forall i :: 0 <= i < |r| ==> r[i] == (keys[i], m[keys[i]])
  {
    seq(|keys|, i requires 0 <= i < |keys| => (keys[i], m[keys[i]]))
  }
}
