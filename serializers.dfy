/**
 * The two serializer mixins as objects: a dynamic serializer holds its
 * configuration and computes its field dict once; a polymorphic one
 * forwards a configuration to the serializers of its mapping.
 */
module Serializers {
  import opened Wrappers
  import opened Conf
  import opened Levels
  import opened FieldTree
  import opened Resolution

  /** A serializer built on DynamicFieldsSerializerMixin. */
  class DynamicFieldsSerializer {
    /** What the base serializer's `fields` yields: the declared fields, freshly copied for this instance. */
    const declared: seq<Entry>
    /** `_df_conf`. */
    var conf: Config
    /** The slot `cached_property` fills on the first read of `fields`. */
    var cache: Option<seq<Entry>>

    /** The object invariant: the declared fields form a dict, and so does a computed field dict. */
    ghost predicate Valid()
      reads this
    {
      DistinctNames(declared) && (cache.Some? ==> DistinctNames(cache.value))
    }

    /** `__init__`: the four keyword arguments, each `None` when not passed, become the configuration. */
    constructor (declared: seq<Entry>, kwargs: Config)
      requires DistinctNames(declared)
      ensures Valid()
      ensures this.declared == declared && conf == kwargs && cache.None?
    {
      this.declared := declared;
      conf := kwargs;
      cache := None;
    }

    /** `set_df_config`: replaces the configuration; a field dict already computed is kept as it is. */
    method SetDfConfig(c: Config)
      requires Valid()
      modifies this`conf
      ensures Valid()
      ensures conf == c && cache == old(cache)
    {
      conf := c;
    }

    /**
     * The `fields` property: on the first read, split both path lists,
     * clean the dict when either root set is non-empty, then hand each
     * surviving field its child configuration and apply the overrides;
     * later reads return the stored dict.
     */
    method Fields() returns (r: seq<Entry>)
      requires Valid()
      modifies this`cache
      ensures Valid()
      ensures old(cache).Some? ==> r == old(cache).value
      ensures old(cache).None? ==> r == Resolve(declared, conf)
      ensures cache == Some(r)
    {
      if cache.Some? {
        return cache.value;
      }
      var inRoots, inNested := SplitLevels(conf.included.GetOr([]));
      var exRoots, exNested := SplitLevels(conf.excluded.GetOr([]));
      var fields := declared;
      if |inRoots| != 0 || |exRoots| != 0 {
        fields := CleanFields(fields, exRoots, inRoots, exNested);
      }
      r := PropagateConfig(fields, conf, Levels(inRoots, inNested), Levels(exRoots, exNested));
      ResolveDistinct(declared, conf);
      cache := Some(r);
    }
  }

  /**
   * The loop at the end of `fields`: each field, where it stands, receives
   * the remainders filed under its name and then the overrides.
   */
  method PropagateConfig(fields: seq<Entry>, c: Config, inc: Levels, exc: Levels) returns (r: seq<Entry>)
    ensures r == DecorateAll(fields, c, inc, exc)
  {
    r := fields;
    for i := 0 to |r|
      invariant |r| == |fields|
      invariant forall k :: 0 <= k < i ==> r[k] == Decorate(fields[k], c, inc, exc)
      invariant forall k :: i <= k < |r| ==> r[k] == fields[k]
    {
      var name := r[i].name;
      var child := Config(
        if name in inc.nested then Some(inc.nested[name]) else None,
        if name in exc.nested then Some(exc.nested[name]) else None,
        None, None);
      var field := r[i].field.(node := SetDfConfForField(r[i].field.node, child));
      r := r[i := Entry(name, ApplyDynamicProperties(field, name, c))];
    }
    DecorateAllAt(fields, c, inc, exc);
  }

  /** A serializer built on DynamicFieldsPolymorphicSerializerMixin, once its mapping holds serializer instances. */
  class PolymorphicSerializer {
    /** `model_serializer_mapping`. */
    var members: seq<Member>

    constructor (members: seq<Member>)
      ensures this.members == members
    {
      this.members := members;
    }

    /** `set_df_config`: hands `c` to every serializer of the mapping that has the dynamic flag, skipping the rest. */
    method SetDfConfig(c: Config)
      modifies this
      ensures members == ForwardConfig(old(members), c)
      ensures Polymorphic(members) == FieldTree.SetDfConfig(Polymorphic(old(members)), c)
    {
      ghost var before := members;
      for i := 0 to |members|
        invariant |members| == |before|
        invariant forall k :: 0 <= k < i ==> members[k] == ForwardMember(before[k], c)
        invariant forall k :: i <= k < |members| ==> members[k] == before[k]
      {
        if HasDynamicFlag(members[i].node) {
          members := members[i := Member(members[i].model, FieldTree.SetDfConfig(members[i].node, c))];
        }
      }
      ForwardConfigAt(before, c);
    }
  }
}
