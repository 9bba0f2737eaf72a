/**
 * One level of field resolution: which fields survive the include and
 * exclude paths, what configuration each survivor hands down, and how the
 * `required` / `allow_null` overrides rewrite its flags.
 */
module Resolution {
  import opened Wrappers
  import opened Strings
  import opened Conf
  import opened Levels
  import opened FieldTree

  /**
   * `_is_field_included`: the exclusion rule first, then the allow-list
   * rule. A field stays exactly when neither rule removes it.
   */
  predicate IsFieldIncluded(
    name: string, excluded: set<string>, included: set<string>, nestedExcluded: map<string, seq<string>>)
    : (keep: bool)
    ensures keep ==> name !in excluded || name in nestedExcluded
    ensures keep ==> |included| == 0 || name in included
    ensures (name !in excluded || name in nestedExcluded) && (|included| == 0 || name in included) ==> keep
  {
    if name in excluded && name !in nestedExcluded then false
    else if |included| > 0 && name !in included then false
    else true
  }

  /** The fields `_clean_fields` leaves behind, in their original order. */
  function Clean(
    fields: seq<Entry>, excluded: set<string>, included: set<string>, nestedExcluded: map<string, seq<string>>)
    : (kept: seq<Entry>)
    ensures |kept| <= |fields|
  {
    if fields == [] then []
    else if IsFieldIncluded(fields[0].name, excluded, included, nestedExcluded) then
      [fields[0]] + Clean(fields[1..], excluded, included, nestedExcluded)
    else
      Clean(fields[1..], excluded, included, nestedExcluded)
  }

  /** `fields.pop(name)` on a dict that holds `name`. */
  function Pop(fields: seq<Entry>, name: string): seq<Entry>
    requires name in Names(fields)
  {
    DropNames(fields, {name})
  }

  /** The fields whose names are not in `dropped`. */
  function DropNames(fields: seq<Entry>, dropped: set<string>): seq<Entry> {
    if fields == [] then []
    else if fields[0].name in dropped then DropNames(fields[1..], dropped)
    else [fields[0]] + DropNames(fields[1..], dropped)
  }

  /** Dropping no name drops nothing. */
  lemma {:induction false} DropNoNames(fields: seq<Entry>)
    ensures DropNames(fields, {}) == fields
  {
    if fields != [] {
      DropNoNames(fields[1..]);
    }
  }

  /** Dropping names one at a time drops their union. */
  lemma {:induction false} DropNamesTwice(fields: seq<Entry>, dropped: set<string>, more: set<string>)
    ensures DropNames(DropNames(fields, dropped), more) == DropNames(fields, dropped + more)
  {
    if fields != [] {
      DropNamesTwice(fields[1..], dropped, more);
      var rest := DropNames(fields[1..], dropped);
      assert ([fields[0]] + rest)[0] == fields[0];
      assert ([fields[0]] + rest)[1..] == rest;
    }
  }

  /** A name survives `DropNames` exactly when it was there and is not dropped. */
  lemma {:induction false} DropNamesNames(fields: seq<Entry>, dropped: set<string>, name: string)
    ensures name in Names(DropNames(fields, dropped)) <==> name in Names(fields) && name !in dropped
  {
    if fields != [] {
      DropNamesNames(fields[1..], dropped, name);
      var rest := DropNames(fields[1..], dropped);
      assert ([fields[0]] + rest)[1..] == rest;
    }
  }

  /** Dropping exactly the names that fail `_is_field_included` is what `Clean` keeps. */
  lemma {:induction false} DropNamesIsClean(
    fields: seq<Entry>, dropped: set<string>,
    excluded: set<string>, included: set<string>, nestedExcluded: map<string, seq<string>>)
    requires forall k :: 0 <= k < |fields| ==>
      (fields[k].name in dropped <==> !IsFieldIncluded(fields[k].name, excluded, included, nestedExcluded))
    ensures DropNames(fields, dropped) == Clean(fields, excluded, included, nestedExcluded)
  {
    if fields != [] {
      assert forall k :: 0 <= k < |fields[1..]| ==> fields[1..][k] == fields[k + 1];
      DropNamesIsClean(fields[1..], dropped, excluded, included, nestedExcluded);
    }
  }

  /**
   * The first loop of `_clean_fields`: the names `_is_field_included`
   * rejects, each once, in dict order.
   */
  method RejectedNames(
    fields: seq<Entry>, excluded: set<string>, included: set<string>, nestedExcluded: map<string, seq<string>>)
    returns (toRemove: seq<string>)
    requires DistinctNames(fields)
    ensures forall n :: n in toRemove ==> n in Names(fields) && !IsFieldIncluded(n, excluded, included, nestedExcluded)
    ensures forall k :: 0 <= k < |fields| && !IsFieldIncluded(fields[k].name, excluded, included, nestedExcluded) ==>
      fields[k].name in toRemove
    ensures forall a, b :: 0 <= a < b < |toRemove| ==> toRemove[a] != toRemove[b]
  {
    toRemove := [];
    for i := 0 to |fields|
      invariant forall n :: n in toRemove ==> n in Names(fields) && !IsFieldIncluded(n, excluded, included, nestedExcluded)
      invariant forall k :: 0 <= k < i && !IsFieldIncluded(fields[k].name, excluded, included, nestedExcluded) ==>
        fields[k].name in toRemove
      invariant forall k :: i <= k < |fields| ==> fields[k].name !in toRemove
      invariant forall a, b :: 0 <= a < b < |toRemove| ==> toRemove[a] != toRemove[b]
    {
      if !IsFieldIncluded(fields[i].name, excluded, included, nestedExcluded) {
        toRemove := toRemove + [fields[i].name];
      }
    }
  }

  /**
   * The second loop of `_clean_fields`: pop each collected name. Every pop
   * finds its key, and the dict loses exactly those names.
   */
  method PopAll(fields: seq<Entry>, toRemove: seq<string>) returns (kept: seq<Entry>)
    requires forall n :: n in toRemove ==> n in Names(fields)
    requires forall a, b :: 0 <= a < b < |toRemove| ==> toRemove[a] != toRemove[b]
    ensures kept == DropNames(fields, Elems(toRemove))
  {
    kept := fields;
    DropNoNames(fields);
    for j := 0 to |toRemove|
      invariant kept == DropNames(fields, Elems(toRemove[..j]))
    {
      var name := toRemove[j];
      assert toRemove[..j + 1][..j] == toRemove[..j];
      PopStep(fields, Elems(toRemove[..j]), name);
      kept := Pop(kept, name);
    }
    assert toRemove[..|toRemove|] == toRemove;
  }

  /** The names a list holds, as a set. */
  function Elems(s: seq<string>): (e: set<string>)
    ensures forall n :: n in e <==> n in s
  {
    if s == [] then {} else Elems(s[..|s| - 1]) + {s[|s| - 1]}
  }

  /** Popping a name not yet dropped finds it, and drops it too. */
  lemma PopStep(fields: seq<Entry>, dropped: set<string>, name: string)
    requires name in Names(fields) && name !in dropped
    ensures name in Names(DropNames(fields, dropped))
    ensures Pop(DropNames(fields, dropped), name) == DropNames(fields, dropped + {name})
  {
    DropNamesNames(fields, dropped, name);
    DropNamesTwice(fields, dropped, {name});
  }

  /**
   * `_clean_fields` as the source writes it: collect the names that fail,
   * then pop them. The dict is left holding exactly `Clean(fields)`.
   */
  method CleanFields(
    fields: seq<Entry>, excluded: set<string>, included: set<string>, nestedExcluded: map<string, seq<string>>)
    returns (kept: seq<Entry>)
    requires DistinctNames(fields)
    ensures kept == Clean(fields, excluded, included, nestedExcluded)
  {
    var toRemove := RejectedNames(fields, excluded, included, nestedExcluded);
    kept := PopAll(fields, toRemove);
    ghost var dropped := Elems(toRemove);
    assert forall k :: 0 <= k < |fields| ==>
      (fields[k].name in dropped <==> !IsFieldIncluded(fields[k].name, excluded, included, nestedExcluded));
    DropNamesIsClean(fields, dropped, excluded, included, nestedExcluded);
  }

  /** `a` is `b` with some items left out, the rest in their order. */
  predicate IsSubsequence<T(==)>(a: seq<T>, b: seq<T>) {
    if a == [] then true
    else if b == [] then false
    else if a[0] == b[0] then IsSubsequence(a[1..], b[1..])
    else IsSubsequence(a, b[1..])
  }

  /** `Clean` keeps a name exactly when `_is_field_included` accepts it. */
  lemma {:induction false} CleanNames(
    fields: seq<Entry>, excluded: set<string>, included: set<string>, nestedExcluded: map<string, seq<string>>,
    name: string)
    ensures name in Names(Clean(fields, excluded, included, nestedExcluded))
      <==> name in Names(fields) && IsFieldIncluded(name, excluded, included, nestedExcluded)
  {
    if fields != [] {
      CleanNames(fields[1..], excluded, included, nestedExcluded, name);
      var rest := Clean(fields[1..], excluded, included, nestedExcluded);
      assert ([fields[0]] + rest)[1..] == rest;
    }
  }

  /** Looking a name up after `Clean` finds the original field, or nothing when the name fails. */
  lemma {:induction false} CleanFind(
    fields: seq<Entry>, excluded: set<string>, included: set<string>, nestedExcluded: map<string, seq<string>>,
    name: string)
    ensures Find(Clean(fields, excluded, included, nestedExcluded), name)
      == if IsFieldIncluded(name, excluded, included, nestedExcluded) then Find(fields, name) else None
  {
    if fields != [] {
      CleanFind(fields[1..], excluded, included, nestedExcluded, name);
      var rest := Clean(fields[1..], excluded, included, nestedExcluded);
      assert ([fields[0]] + rest)[1..] == rest;
    }
  }

  /** `Clean` only removes: the names left are the original names in their original order. */
  lemma {:induction false} CleanIsSubsequence(
    fields: seq<Entry>, excluded: set<string>, included: set<string>, nestedExcluded: map<string, seq<string>>)
    ensures IsSubsequence(Names(Clean(fields, excluded, included, nestedExcluded)), Names(fields))
  {
    if fields != [] {
      var rest := Clean(fields[1..], excluded, included, nestedExcluded);
      CleanIsSubsequence(fields[1..], excluded, included, nestedExcluded);
      assert Names(fields)[1..] == Names(fields[1..]);
      if IsFieldIncluded(fields[0].name, excluded, included, nestedExcluded) {
        assert Names([fields[0]] + rest)[1..] == Names(rest);
      } else {
        SubsequenceDropFront(Names(rest), Names(fields));
      }
    }
  }

  /** A subsequence of the tail is a subsequence of the whole. */
  lemma {:induction false} SubsequenceDropFront<T>(a: seq<T>, b: seq<T>)
    requires b != [] && IsSubsequence(a, b[1..])
    ensures IsSubsequence(a, b)
    decreases |b|, |a|, 1
  {
    if a != [] && a[0] == b[0] {
      SubsequenceTail(a, b[1..]);
    }
  }

  /** Dropping the head of a subsequence keeps it a subsequence. */
  lemma {:induction false} SubsequenceTail<T>(a: seq<T>, b: seq<T>)
    requires a != [] && IsSubsequence(a, b)
    ensures IsSubsequence(a[1..], b)
    decreases |b|, |a|, 0
  {
    if a[0] == b[0] {
      if a[1..] != [] {
        SubsequenceDropFront(a[1..], b);
      }
    } else {
      SubsequenceTail(a, b[1..]);
      if a[1..] != [] {
        SubsequenceDropFront(a[1..], b);
      }
    }
  }

  /** The configuration `fields` builds for a child: its remainders, and no `required` / `allow_null` overrides. */
  function ChildConfig(inc: Levels, exc: Levels, name: string): Config {
    Config(NestedGet(inc, name), NestedGet(exc, name), None, None)
  }

  /**
   * `_apply_dynamic_properties_for_field`: a present `required_fields`
   * decides `required` by membership, a present `non_nullable_fields`
   * decides `allow_null` by non-membership; an absent list leaves its flag.
   */
  function ApplyDynamicProperties(f: Field, name: string, c: Config): (g: Field)
    ensures g.node == f.node
    ensures c.required.None? ==> g.required == f.required
    ensures c.required.Some? ==> (g.required <==> name in c.required.value)
    ensures c.nonNullable.None? ==> g.allowNull == f.allowNull
    ensures c.nonNullable.Some? ==> (g.allowNull <==> name !in c.nonNullable.value)
  {
    f.(required := if c.required.Some? then name in c.required.value else f.required,
       allowNull := if c.nonNullable.Some? then name !in c.nonNullable.value else f.allowNull)
  }

  /** One pass of the loop in `fields`: hand down the child configuration, then apply the overrides. */
  function Decorate(e: Entry, c: Config, inc: Levels, exc: Levels): Entry {
    var node := SetDfConfForField(e.field.node, ChildConfig(inc, exc, e.name));
    Entry(e.name, ApplyDynamicProperties(e.field.(node := node), e.name, c))
  }

  /** The whole loop in `fields`. */
  function DecorateAll(fields: seq<Entry>, c: Config, inc: Levels, exc: Levels): (r: seq<Entry>)
    ensures |r| == |fields|
  {
    if fields == [] then [] else [Decorate(fields[0], c, inc, exc)] + DecorateAll(fields[1..], c, inc, exc)
  }

  /** The loop rewrites each field where it stands and keeps every name. */
  lemma {:induction false} DecorateAllAt(fields: seq<Entry>, c: Config, inc: Levels, exc: Levels)
    ensures |DecorateAll(fields, c, inc, exc)| == |fields|
    ensures forall k :: 0 <= k < |fields| ==> DecorateAll(fields, c, inc, exc)[k] == Decorate(fields[k], c, inc, exc)
    ensures Names(DecorateAll(fields, c, inc, exc)) == Names(fields)
  {
    if fields != [] {
      DecorateAllAt(fields[1..], c, inc, exc);
    }
  }

  /** Looking a name up after the loop finds the rewritten field. */
  lemma {:induction false} FindDecorateAll(fields: seq<Entry>, c: Config, inc: Levels, exc: Levels, name: string)
    ensures Find(DecorateAll(fields, c, inc, exc), name)
      == if Find(fields, name).Some? then Some(Decorate(Entry(name, Find(fields, name).value), c, inc, exc).field)
         else None
  {
    if fields != [] {
      FindDecorateAll(fields[1..], c, inc, exc, name);
    }
  }

  /** The levels of the include paths (`included_fields or []`). */
  function IncludedLevels(c: Config): Levels {
    LevelsOf(c.included.GetOr([]))
  }

  /** The levels of the exclude paths (`excluded_fields or []`). */
  function ExcludedLevels(c: Config): Levels {
    LevelsOf(c.excluded.GetOr([]))
  }

  /** What the `fields` property of a dynamic serializer returns for its declared fields under `c`. */
  function Resolve(declared: seq<Entry>, c: Config): (r: seq<Entry>)
    ensures |r| <= |declared|
    ensures c.included.GetOr([]) == [] && c.excluded.GetOr([]) == [] ==> |r| == |declared|
  {
    assert RootSet([]) == {};
    var inc := IncludedLevels(c);
    var exc := ExcludedLevels(c);
    var kept := if |inc.roots| != 0 || |exc.roots| != 0 then Clean(declared, exc.roots, inc.roots, exc.nested)
                else declared;
    DecorateAll(kept, c, inc, exc)
  }

  /** The decision `Resolve` takes for one name. */
  predicate Survives(c: Config, name: string) {
    IsFieldIncluded(name, ExcludedLevels(c).roots, IncludedLevels(c).roots, ExcludedLevels(c).nested)
  }

  /** The fields `Resolve` keeps, before their rewriting. */
  lemma ResolveKept(declared: seq<Entry>, c: Config)
    ensures Resolve(declared, c)
      == DecorateAll(Clean(declared, ExcludedLevels(c).roots, IncludedLevels(c).roots, ExcludedLevels(c).nested),
                     c, IncludedLevels(c), ExcludedLevels(c))
  {
    var inc := IncludedLevels(c);
    var exc := ExcludedLevels(c);
    if |inc.roots| == 0 && |exc.roots| == 0 {
      NestedKeysAreRoots(c.excluded.GetOr([]));
      CleanKeepsAll(declared, exc.nested);
    }
  }

  /** Skipping `_clean_fields` when both root sets are empty changes nothing. */
  lemma {:induction false} CleanKeepsAll(fields: seq<Entry>, nestedExcluded: map<string, seq<string>>)
    ensures Clean(fields, {}, {}, nestedExcluded) == fields
  {
    if fields != [] {
      CleanKeepsAll(fields[1..], nestedExcluded);
    }
  }

  /** The names `Resolve` returns are those `Clean` keeps. */
  lemma NamesOfResolve(declared: seq<Entry>, c: Config)
    ensures Names(Resolve(declared, c))
      == Names(Clean(declared, ExcludedLevels(c).roots, IncludedLevels(c).roots, ExcludedLevels(c).nested))
  {
    var inc := IncludedLevels(c);
    var exc := ExcludedLevels(c);
    ResolveKept(declared, c);
    DecorateAllAt(Clean(declared, exc.roots, inc.roots, exc.nested), c, inc, exc);
  }

  /** A field survives exactly when it is declared and `_is_field_included` accepts it. */
  lemma ResolveNames(declared: seq<Entry>, c: Config, name: string)
    ensures name in Names(Resolve(declared, c)) <==> name in Names(declared) && Survives(c, name)
  {
    var inc := IncludedLevels(c);
    var exc := ExcludedLevels(c);
    ResolveKept(declared, c);
    DecorateAllAt(Clean(declared, exc.roots, inc.roots, exc.nested), c, inc, exc);
    CleanNames(declared, exc.roots, inc.roots, exc.nested, name);
  }

  /** The surviving fields keep their declaration order. */
  lemma ResolveOrder(declared: seq<Entry>, c: Config)
    ensures IsSubsequence(Names(Resolve(declared, c)), Names(declared))
  {
    var inc := IncludedLevels(c);
    var exc := ExcludedLevels(c);
    ResolveKept(declared, c);
    DecorateAllAt(Clean(declared, exc.roots, inc.roots, exc.nested), c, inc, exc);
    CleanIsSubsequence(declared, exc.roots, inc.roots, exc.nested);
  }

  /**
   * Each surviving field: `required` is membership in `required_fields`
   * when that list is given and unchanged otherwise; `allow_null` is
   * non-membership in `non_nullable_fields` when given and unchanged
   * otherwise; and its node has received the child configuration.
   */
  lemma ResolvedField(declared: seq<Entry>, c: Config, name: string)
    requires name in Names(Resolve(declared, c))
    ensures Find(declared, name).Some?
    ensures
      var before := Find(declared, name).value;
      var after := Find(Resolve(declared, c), name).value;
      && after.required == (if c.required.Some? then name in c.required.value else before.required)
      && after.allowNull == (if c.nonNullable.Some? then name !in c.nonNullable.value else before.allowNull)
      && after.node == SetDfConfForField(before.node, ChildConfig(IncludedLevels(c), ExcludedLevels(c), name))
  {
    var inc := IncludedLevels(c);
    var exc := ExcludedLevels(c);
    var kept := Clean(declared, exc.roots, inc.roots, exc.nested);
    ResolveKept(declared, c);
    ResolveNames(declared, c, name);
    CleanFind(declared, exc.roots, inc.roots, exc.nested, name);
    FindDecorateAll(kept, c, inc, exc, name);
  }

  /** A resolved dict is still a dict: no name appears twice. */
  lemma ResolveDistinct(declared: seq<Entry>, c: Config)
    requires DistinctNames(declared)
    ensures DistinctNames(Resolve(declared, c))
  {
    var r := Resolve(declared, c);
    ResolveOrder(declared, c);
    SubsequenceDistinct(Names(r), Names(declared));
  }

  /** A subsequence of a repetition-free sequence is repetition-free. */
  lemma {:induction false} SubsequenceDistinct<T>(a: seq<T>, b: seq<T>)
    requires IsSubsequence(a, b)
    requires forall i, j :: 0 <= i < j < |b| ==> b[i] != b[j]
    ensures forall i, j :: 0 <= i < j < |a| ==> a[i] != a[j]
    ensures forall x :: x in a ==> x in b
    decreases |b|
  {
    if a != [] && b != [] {
      if a[0] == b[0] {
        SubsequenceDistinct(a[1..], b[1..]);
        forall j | 0 < j < |a| ensures a[0] != a[j] {
          assert a[j] == a[1..][j - 1];
          assert a[j] in a[1..];
          var k :| 0 <= k < |b[1..]| && b[1..][k] == a[j];
          assert b[k + 1] == a[j];
        }
        forall x | x in a ensures x in b {
          if x != a[0] { assert x in a[1..]; }
        }
      } else {
        SubsequenceDistinct(a, b[1..]);
      }
    }
  }
}
