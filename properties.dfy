/**
 * What one level of resolution promises, stated in terms of the dotted
 * paths a caller writes rather than the root sets derived from them.
 */
module Properties {
  import opened Wrappers
  import opened Strings
  import opened Conf
  import opened Levels
  import opened FieldTree
  import opened Resolution

  /** A dotless excluded name with no excluded path continuing below it is removed, even if it is also included. */
  lemma ExcludedPathRemovesField(declared: seq<Entry>, c: Config, name: string)
    requires '.' !in name
    requires name in c.excluded.GetOr([])
    requires forall p :: p in c.excluded.GetOr([]) && '.' in p ==> RootOf(p) != name
    ensures name !in Names(Resolve(declared, c))
  {
    assert RootOf(name) == name;
    assert name in ExcludedLevels(c).roots;
    ResolveNames(declared, c, name);
  }

  /**
   * An excluded path that continues below `name` (`foo.integer`) never
   * removes `name` itself: it survives exactly when the allow-list lets it.
   */
  lemma NestedExclusionKeepsField(declared: seq<Entry>, c: Config, name: string, rest: string)
    requires '.' !in name
    requires name in Names(declared)
    requires name + "." + rest in c.excluded.GetOr([])
    ensures name in Names(Resolve(declared, c))
      <==> (IncludedLevels(c).roots == {} || name in IncludedLevels(c).roots)
  {
    var p := name + "." + rest;
    SplitFirstOfJoined(name, '.', rest);
    assert RootOf(p) == name;
    assert name in NestedKeys(c.excluded.GetOr([]));
    ResolveNames(declared, c, name);
  }

  /** With a non-empty allow-list, every surviving name is the root of some included path. */
  lemma AllowListKeepsOnlyRoots(declared: seq<Entry>, c: Config, name: string)
    requires IncludedLevels(c).roots != {}
    requires name in Names(Resolve(declared, c))
    ensures exists p :: p in c.included.GetOr([]) && RootOf(p) == name
  {
    ResolveNames(declared, c, name);
  }

  /**
   * An included path that continues below `name` (`foo.char`) keeps `name`
   * at this level, unless an exclusion without continuation removes it.
   */
  lemma NestedInclusionKeepsField(declared: seq<Entry>, c: Config, name: string, rest: string)
    requires '.' !in name
    requires name in Names(declared)
    requires name + "." + rest in c.included.GetOr([])
    requires forall p :: p in c.excluded.GetOr([]) ==> RootOf(p) != name
    ensures name in Names(Resolve(declared, c))
  {
    SplitFirstOfJoined(name, '.', rest);
    assert name in IncludedLevels(c).roots;
    ResolveNames(declared, c, name);
  }

  /**
   * The configuration handed to the field `name` carries, as its include
   * (exclude) list, exactly the remainders of the include (exclude) paths
   * rooted at `name`, or `None` when there are none; it never carries
   * `required_fields` or `non_nullable_fields`.
   */
  lemma ChildConfigFromPaths(c: Config, name: string, rest: string)
    ensures
      var child := ChildConfig(IncludedLevels(c), ExcludedLevels(c), name);
      && child.required.None? && child.nonNullable.None?
      && (child.included.Some? <==> exists p :: p in c.included.GetOr([]) && '.' in p && RootOf(p) == name)
      && (child.excluded.Some? <==> exists p :: p in c.excluded.GetOr([]) && '.' in p && RootOf(p) == name)
      && (child.included.Some? ==> (rest in child.included.value <==> name + "." + rest in c.included.GetOr([])))
      && (child.excluded.Some? ==> (rest in child.excluded.value <==> name + "." + rest in c.excluded.GetOr([])))
  {
    var child := ChildConfig(IncludedLevels(c), ExcludedLevels(c), name);
    NestedGetPresent(c.included.GetOr([]), name);
    NestedGetPresent(c.excluded.GetOr([]), name);
    if child.included.Some? {
      ContinuationBothWays(c.included.GetOr([]), name, rest);
    }
    if child.excluded.Some? {
      ContinuationBothWays(c.excluded.GetOr([]), name, rest);
    }
  }

  /** A remainder is filed under `name` exactly when `name.remainder` is one of the paths. */
  lemma ContinuationBothWays(paths: seq<string>, name: string, rest: string)
    requires NestedGet(LevelsOf(paths), name).Some?
    ensures rest in Continuations(paths, name) <==> name + "." + rest in paths
  {
    NestedGetPresent(paths, name);
    var p :| p in paths && '.' in p && RootOf(p) == name;
    SplitFirstRoundTrip(p, '.');
    if rest in Continuations(paths, name) {
      ContinuationSound(paths, name, rest);
    }
    if name + "." + rest in paths {
      SplitFirstOfJoined(name, '.', rest);
      ContinuationComplete(paths, name + "." + rest);
    }
  }

  /** `required_fields=[]` makes every surviving field optional. */
  lemma EmptyRequiredMakesAllOptional(declared: seq<Entry>, c: Config, name: string)
    requires c.required == Some([])
    requires name in Names(Resolve(declared, c))
    ensures !Find(Resolve(declared, c), name).value.required
  {
    ResolvedField(declared, c, name);
  }

  /** `non_nullable_fields=[]` makes every surviving field nullable. */
  lemma EmptyNonNullableMakesAllNullable(declared: seq<Entry>, c: Config, name: string)
    requires c.nonNullable == Some([])
    requires name in Names(Resolve(declared, c))
    ensures Find(Resolve(declared, c), name).value.allowNull
  {
    ResolvedField(declared, c, name);
  }

  /** Without override lists every surviving field keeps its declared `required` and `allow_null`. */
  lemma AbsentOverridesKeepFlags(declared: seq<Entry>, c: Config, name: string)
    requires c.required.None? && c.nonNullable.None?
    requires name in Names(Resolve(declared, c))
    ensures Find(declared, name).Some?
    ensures Find(Resolve(declared, c), name).value.required == Find(declared, name).value.required
    ensures Find(Resolve(declared, c), name).value.allowNull == Find(declared, name).value.allowNull
  {
    ResolvedField(declared, c, name);
  }

  /**
   * `DynamicFieldsConfig()` keeps every field, flags and order; it only
   * hands the empty configuration to the fields that accept one. So the
   * result equals the input exactly when those already hold it.
   */
  lemma ResolveEmptyConfig(declared: seq<Entry>)
    ensures Names(Resolve(declared, EmptyConfig())) == Names(declared)
    ensures forall k :: 0 <= k < |declared| ==>
      Resolve(declared, EmptyConfig())[k]
        == Entry(declared[k].name,
                 declared[k].field.(node := SetDfConfForField(declared[k].field.node, EmptyConfig())))
    ensures Resolve(declared, EmptyConfig()) == declared
      <==> forall k :: 0 <= k < |declared| ==>
             SetDfConfForField(declared[k].field.node, EmptyConfig()) == declared[k].field.node
  {
    ResolveEmptyConfigAt(declared);
    OnlyNodesConfigured(declared, Resolve(declared, EmptyConfig()));
  }

  /** Under `DynamicFieldsConfig()` every field stays where it is and only receives the empty configuration. */
  lemma ResolveEmptyConfigAt(declared: seq<Entry>)
    ensures |Resolve(declared, EmptyConfig())| == |declared|
    ensures forall k :: 0 <= k < |declared| ==>
      Resolve(declared, EmptyConfig())[k]
        == Entry(declared[k].name,
                 declared[k].field.(node := SetDfConfForField(declared[k].field.node, EmptyConfig())))
  {
    var c := EmptyConfig();
    var none := LevelsOf([]);
    ResolveWithoutConfig(declared);
    DecorateAllAt(declared, c, none, none);
    forall k | 0 <= k < |declared|
      ensures Resolve(declared, c)[k]
        == Entry(declared[k].name, declared[k].field.(node := SetDfConfForField(declared[k].field.node, c)))
    {
      DecorateWithoutConfig(declared[k]);
    }
  }

  /**
   * A dict that differs from `declared` only by handing each field the
   * empty configuration has the same names, and equals `declared` exactly
   * when no field changes by it.
   */
  lemma OnlyNodesConfigured(declared: seq<Entry>, r: seq<Entry>)
    requires |r| == |declared|
    requires forall k :: 0 <= k < |declared| ==>
      r[k] == Entry(declared[k].name,
                    declared[k].field.(node := SetDfConfForField(declared[k].field.node, EmptyConfig())))
    ensures Names(r) == Names(declared)
    ensures r == declared
      <==> forall k :: 0 <= k < |declared| ==>
             SetDfConfForField(declared[k].field.node, EmptyConfig()) == declared[k].field.node
  {
    assert forall k :: 0 <= k < |r| ==> Names(r)[k] == Names(declared)[k];
    if forall k :: 0 <= k < |declared| ==> SetDfConfForField(declared[k].field.node, EmptyConfig()) == declared[k].field.node {
      assert forall k :: 0 <= k < |declared| ==> r[k] == declared[k];
    }
    if r == declared {
      forall k | 0 <= k < |declared|
        ensures SetDfConfForField(declared[k].field.node, EmptyConfig()) == declared[k].field.node
      {
        assert r[k].field.node == declared[k].field.node;
      }
    }
  }

  /** With no configuration nothing is cleaned: only the loop of `fields` runs. */
  lemma ResolveWithoutConfig(declared: seq<Entry>)
    ensures Resolve(declared, EmptyConfig()) == DecorateAll(declared, EmptyConfig(), LevelsOf([]), LevelsOf([]))
  {
    var c := EmptyConfig();
    var none := LevelsOf([]);
    assert IncludedLevels(c) == none && ExcludedLevels(c) == none;
    ResolveKept(declared, c);
    CleanKeepsAll(declared, none.nested);
  }

  /** Under the empty configuration the loop of `fields` only hands the empty configuration down. */
  lemma DecorateWithoutConfig(e: Entry)
    ensures Decorate(e, EmptyConfig(), LevelsOf([]), LevelsOf([]))
      == Entry(e.name, e.field.(node := SetDfConfForField(e.field.node, EmptyConfig())))
  {
    assert NestedKeys([]) == {};
    assert ChildConfig(LevelsOf([]), LevelsOf([]), e.name) == EmptyConfig();
  }

  /** Resolving an already resolved field list again with no configuration keeps the same names. */
  lemma ResolveIdempotentNames(declared: seq<Entry>, c: Config)
    ensures Names(Resolve(Resolve(declared, c), EmptyConfig())) == Names(Resolve(declared, c))
  {
    ResolveEmptyConfig(Resolve(declared, c));
  }

  /** A surviving nested dynamic serializer resolves its own fields under the child configuration. */
  lemma NestedResolution(declared: seq<Entry>, c: Config, name: string)
    requires name in Names(Resolve(declared, c))
    requires Find(declared, name).Some? && Find(declared, name).value.node.Dynamic?
    ensures
      var inner := Find(declared, name).value.node;
      Find(Resolve(declared, c), name).value.node
        == Dynamic(ChildConfig(IncludedLevels(c), ExcludedLevels(c), name), inner.declared)
  {
    ResolvedField(declared, c, name);
  }
}
