/**
 * `_split_levels`: a list of dotted paths becomes the names addressed at
 * this level and, per name, the remainders to hand one level down.
 */
module Levels {
  import opened Wrappers
  import opened Strings

  /** The name a path addresses at this level: its text before the first '.', or the whole path. */
  function RootOf(p: string): string {
    Before(p, '.')
  }

  /** The set of names addressed at this level. */
  function RootSet(paths: seq<string>): set<string> {
    set p | p in paths :: RootOf(p)
  }

  /** The names that some dotted path continues below. */
  function NestedKeys(paths: seq<string>): set<string> {
    set p | p in paths && '.' in p :: RootOf(p)
  }

  /** The remainders of the dotted paths rooted at `name`, in input order. */
  function Continuations(paths: seq<string>, name: string): seq<string> {
    if paths == [] then []
    else
      var p := paths[|paths| - 1];
      Continuations(paths[..|paths| - 1], name)
        + (if '.' in p && RootOf(p) == name then [After(p, '.')] else [])
  }

  /** The pair `_split_levels` returns: the root set and the `defaultdict(list)` of remainders. */
  datatype Levels = Levels(roots: set<string>, nested: map<string, seq<string>>)

  /** What `_split_levels(paths)` returns. */
  function LevelsOf(paths: seq<string>): Levels {
    Levels(RootSet(paths), map k | k in NestedKeys(paths) :: Continuations(paths, k))
  }

  /** `nested.get(name, None)`: a `defaultdict` read through `.get` creates no entry. */
  function NestedGet(l: Levels, name: string): Option<seq<string>> {
    if name in l.nested then Some(l.nested[name]) else None
  }

  /** One more path, piece by piece: its root joins the roots, and a dotted one files its remainder last. */
  lemma SnocPieces(paths: seq<string>, p: string)
    ensures RootSet(paths + [p]) == RootSet(paths) + {RootOf(p)}
    ensures NestedKeys(paths + [p]) == NestedKeys(paths) + (if '.' in p then {RootOf(p)} else {})
  {
    var ps := paths + [p];
    assert ps[..|ps| - 1] == paths;
    assert ps[|ps| - 1] == p;
  }

  /** One more path appends its remainder to the remainders of its root, and to no other name's. */
  lemma ContinuationsSnoc(paths: seq<string>, p: string, name: string)
    ensures Continuations(paths + [p], name)
      == Continuations(paths, name) + (if '.' in p && RootOf(p) == name then [After(p, '.')] else [])
  {
    var ps := paths + [p];
    assert ps[..|ps| - 1] == paths;
  }

  /** The remainder map of `LevelsOf`, key by key. */
  lemma NestedOf(paths: seq<string>)
    ensures LevelsOf(paths).nested.Keys == NestedKeys(paths)
    ensures forall k :: k in NestedKeys(paths) ==> LevelsOf(paths).nested[k] == Continuations(paths, k)
  {
  }

  /** Two maps with the same keys and the same value at every key are equal. */
  lemma MapEq(a: map<string, seq<string>>, b: map<string, seq<string>>)
    requires a.Keys == b.Keys
    requires forall k :: k in a ==> a[k] == b[k]
    ensures a == b
  {
  }

  /** A dotless path leaves the remainder map as it was. */
  lemma SnocDotless(paths: seq<string>, p: string)
    requires '.' !in p
    ensures LevelsOf(paths + [p]).nested == LevelsOf(paths).nested
  {
    var ps := paths + [p];
    SnocPieces(paths, p);
    NestedOf(paths);
    NestedOf(ps);
    var a, b := LevelsOf(ps).nested, LevelsOf(paths).nested;
    assert a.Keys == b.Keys;
    forall k | k in a ensures a[k] == b[k] {
      ContinuationsSnoc(paths, p, k);
      assert Continuations(ps, k) == Continuations(paths, k) + [];
    }
    MapEq(a, b);
  }

  /** Reading the remainder map with `[]` as the default gives the remainders of the name. */
  lemma NestedOrEmpty(paths: seq<string>, name: string)
    ensures (if name in LevelsOf(paths).nested then LevelsOf(paths).nested[name] else []) == Continuations(paths, name)
  {
    NestedOf(paths);
    if name !in NestedKeys(paths) {
      ContinuationsEmptyOutsideKeys(paths, name);
    }
  }

  /** The remainder map after a dotted path, written as an update of the one before. */
  function SnocNested(l: Levels, p: string): map<string, seq<string>>
    requires '.' in p
  {
    var h := RootOf(p);
    l.nested[h := (if h in l.nested then l.nested[h] else []) + [After(p, '.')]]
  }

  /** A dotted path adds its root to the keys of the remainder map. */
  lemma SnocDottedKeys(paths: seq<string>, p: string)
    requires '.' in p
    ensures LevelsOf(paths + [p]).nested.Keys == SnocNested(LevelsOf(paths), p).Keys
  {
    SnocPieces(paths, p);
    NestedOf(paths);
    NestedOf(paths + [p]);
  }

  /** A dotted path extends the entry of its root and leaves every other entry as it was. */
  lemma SnocDottedAt(paths: seq<string>, p: string, k: string)
    requires '.' in p
    requires k in LevelsOf(paths + [p]).nested
    requires k in SnocNested(LevelsOf(paths), p)
    ensures LevelsOf(paths + [p]).nested[k] == SnocNested(LevelsOf(paths), p)[k]
  {
    var ps := paths + [p];
    SnocPieces(paths, p);
    NestedOf(paths);
    NestedOf(ps);
    ContinuationsSnoc(paths, p, k);
    if k == RootOf(p) {
      NestedOrEmpty(paths, k);
    } else {
      assert Continuations(ps, k) == Continuations(paths, k) + [];
    }
  }

  /** A dotted path appends its remainder under its root. */
  lemma SnocDotted(paths: seq<string>, p: string)
    requires '.' in p
    ensures LevelsOf(paths + [p]).nested == SnocNested(LevelsOf(paths), p)
  {
    var a, m := LevelsOf(paths + [p]).nested, SnocNested(LevelsOf(paths), p);
    SnocDottedKeys(paths, p);
    forall k | k in a ensures a[k] == m[k] {
      SnocDottedAt(paths, p, k);
    }
    MapEq(a, m);
  }

  /** How one more path changes the result: a dotted path adds its root and appends its remainder, a dotless one only adds itself. */
  lemma LevelsOfSnoc(paths: seq<string>, p: string)
    ensures '.' !in p ==> LevelsOf(paths + [p]) == Levels(LevelsOf(paths).roots + {p}, LevelsOf(paths).nested)
    ensures '.' in p ==>
      var l := LevelsOf(paths);
      var h := RootOf(p);
      LevelsOf(paths + [p])
        == Levels(l.roots + {h}, l.nested[h := (if h in l.nested then l.nested[h] else []) + [After(p, '.')]])
  {
    SnocPieces(paths, p);
    if '.' !in p {
      assert RootOf(p) == p;
      SnocDotless(paths, p);
    } else {
      SnocDotted(paths, p);
    }
  }

  /** A name no dotted path is rooted at has no remainders. */
  lemma {:induction false} ContinuationsEmptyOutsideKeys(paths: seq<string>, name: string)
    requires name !in NestedKeys(paths)
    ensures Continuations(paths, name) == []
  {
    if paths != [] {
      var init := paths[..|paths| - 1];
      assert NestedKeys(init) <= NestedKeys(paths);
      ContinuationsEmptyOutsideKeys(init, name);
    }
  }

  /** `_split_levels` as the source writes it: one pass filling a set and a `defaultdict(list)`. */
  method SplitLevels(paths: seq<string>) returns (roots: set<string>, nested: map<string, seq<string>>)
    ensures Levels(roots, nested) == LevelsOf(paths)
  {
    roots, nested := {}, map[];
    for i := 0 to |paths|
      invariant Levels(roots, nested) == LevelsOf(paths[..i])
    {
      var e := paths[i];
      LevelsOfSnoc(paths[..i], e);
      assert paths[..i + 1] == paths[..i] + [e];
      if '.' in e {
        var first, next := Before(e, '.'), After(e, '.');
        roots := roots + {first};
        nested := nested[first := (if first in nested then nested[first] else []) + [next]];
      } else {
        roots := roots + {e};
      }
    }
    assert paths[..|paths|] == paths;
  }

  /** Every name with remainders is also a root. */
  lemma NestedKeysAreRoots(paths: seq<string>)
    ensures LevelsOf(paths).nested.Keys <= LevelsOf(paths).roots
  {
  }

  /** Every remainder filed under `name`, glued back on, is one of the input paths. */
  lemma {:induction false} ContinuationSound(paths: seq<string>, name: string, rest: string)
    requires rest in Continuations(paths, name)
    ensures '.' !in name
    ensures name + "." + rest in paths
  {
    var p := paths[|paths| - 1];
    var init := paths[..|paths| - 1];
    assert paths == init + [p];
    if rest in Continuations(init, name) {
      ContinuationSound(init, name, rest);
    } else {
      SplitFirstRoundTrip(p, '.');
    }
  }

  /** Every dotted input path leaves its remainder, later dots intact, under its root. */
  lemma {:induction false} ContinuationComplete(paths: seq<string>, p: string)
    requires p in paths && '.' in p
    ensures After(p, '.') in Continuations(paths, RootOf(p))
  {
    var last := paths[|paths| - 1];
    var init := paths[..|paths| - 1];
    assert paths == init + [last];
    if p != last {
      ContinuationComplete(init, p);
    }
  }

  /** `nested.get(name)` is present exactly when some dotted path is rooted at `name`. */
  lemma NestedGetPresent(paths: seq<string>, name: string)
    ensures NestedGet(LevelsOf(paths), name).Some?
      <==> exists p :: p in paths && '.' in p && RootOf(p) == name
  {
  }

  /** A dotless path adds only itself to the roots, however it is placed among the others. */
  lemma DotlessPathOnlyRoot(paths: seq<string>, p: string, name: string)
    requires '.' !in p
    ensures p in LevelsOf(paths + [p]).roots
    ensures NestedGet(LevelsOf(paths + [p]), name) == NestedGet(LevelsOf(paths), name)
  {
    LevelsOfSnoc(paths, p);
  }
}
