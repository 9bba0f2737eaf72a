/**
 * The fields of a serializer as values: each named field carries its
 * `required` and `allow_null` flags and what kind of field it is, which
 * decides whether a configuration can be handed to it.
 */
module FieldTree {
  import opened Wrappers
  import opened Conf

  /** What stands behind a field name. */
  datatype Node =
    /** A field without the `dynamic_fields` flag: a scalar field or an ordinary serializer. */
    | Plain
    /** A serializer built on DynamicFieldsSerializerMixin: its configuration and its declared fields. */
    | Dynamic(conf: Config, declared: seq<Entry>)
    /** A serializer built on DynamicFieldsPolymorphicSerializerMixin: its model-to-serializer mapping. */
    | Polymorphic(members: seq<Member>)
    /** A list serializer (`many=True`); `exact` when its type is `ListSerializer` itself, not a subclass. */
    | ListOf(exact: bool, child: Node)

  /** One entry of a polymorphic serializer's `model_serializer_mapping`. */
  datatype Member = Member(model: string, node: Node)

  /** The attributes of a field the core reads or writes. */
  datatype Field = Field(required: bool, allowNull: bool, node: Node)

  /** One item of a serializer's ordered field dict. */
  datatype Entry = Entry(name: string, field: Field)

  /** `getattr(x, "dynamic_fields", False)`. */
  predicate HasDynamicFlag(n: Node) {
    n.Dynamic? || n.Polymorphic?
  }

  /** The field names, in order. */
  function Names(fields: seq<Entry>): (names: seq<string>)
    ensures |names| == |fields|
    ensures forall k :: 0 <= k < |fields| ==> names[k] == fields[k].name
  {
    if fields == [] then [] else [fields[0].name] + Names(fields[1..])
  }

  /** `fields.get(name)`: the first field with that name. */
  function Find(fields: seq<Entry>, name: string): (r: Option<Field>)
    ensures r.Some? <==> name in Names(fields)
    ensures r.Some? ==> Entry(name, r.value) in fields
  {
    if fields == [] then None
    else if fields[0].name == name then Some(fields[0].field)
    else Find(fields[1..], name)
  }

  /** No name occurs twice (the keys of a dict). */
  predicate DistinctNames(fields: seq<Entry>) {
    forall i, j :: 0 <= i < j < |fields| ==> fields[i].name != fields[j].name
  }

  /** Every serializer reached by `set_df_config` on `n` now holds `c`. */
  predicate ReceivesConfig(n: Node, c: Config)
    decreases n
  {
    match n
    case Dynamic(conf, _) => conf == c
    case Polymorphic(ms) =>
      forall k :: 0 <= k < |ms| ==> HasDynamicFlag(ms[k].node) ==> ReceivesConfig(ms[k].node, c)
    case _ => false
  }

  /** `b` is `a` with, at most, other configurations on the serializers `set_df_config` reaches. */
  predicate SameShape(a: Node, b: Node)
    decreases a
  {
    match a
    case Dynamic(_, d) => b.Dynamic? && b.declared == d
    case Polymorphic(ms) =>
      && b.Polymorphic?
      && |b.members| == |ms|
      && forall k :: 0 <= k < |ms| ==>
           && b.members[k].model == ms[k].model
           && (if HasDynamicFlag(ms[k].node) then SameShape(ms[k].node, b.members[k].node)
               else b.members[k].node == ms[k].node)
    case _ => b == a
  }

  /**
   * `set_df_config(c)` on a serializer with the dynamic flag: a dynamic
   * serializer stores `c`; a polymorphic one forwards `c` to each serializer
   * of its mapping that has the flag and skips the others.
   */
  function SetDfConfig(n: Node, c: Config): (r: Node)
    requires HasDynamicFlag(n)
    ensures HasDynamicFlag(r)
    ensures ReceivesConfig(r, c) && SameShape(n, r)
    decreases n, 1
  {
    match n
    case Dynamic(_, d) => Dynamic(c, d)
    case Polymorphic(ms) => Polymorphic(ForwardConfig(ms, c))
  }

  /** The loop of the polymorphic `set_df_config` over the mapping. */
  function ForwardConfig(ms: seq<Member>, c: Config): (rs: seq<Member>)
    ensures |rs| == |ms|
    ensures forall k :: 0 <= k < |ms| ==>
      && rs[k].model == ms[k].model
      && (if HasDynamicFlag(ms[k].node)
          then ReceivesConfig(rs[k].node, c) && SameShape(ms[k].node, rs[k].node)
          else rs[k] == ms[k])
    decreases ms, 0
  {
    if ms == [] then []
    else [ForwardMember(ms[0], c)] + ForwardConfig(ms[1..], c)
  }

  /** One step of that loop. */
  function ForwardMember(m: Member, c: Config): (r: Member)
    ensures r.model == m.model
    ensures HasDynamicFlag(m.node) ==> ReceivesConfig(r.node, c) && SameShape(m.node, r.node)
    ensures !HasDynamicFlag(m.node) ==> r == m
    decreases m, 0
  {
    if HasDynamicFlag(m.node) then Member(m.model, SetDfConfig(m.node, c)) else m
  }

  /** `ForwardConfig` is `ForwardMember` applied to each member in place. */
  lemma {:induction false} ForwardConfigAt(ms: seq<Member>, c: Config)
    ensures forall k :: 0 <= k < |ms| ==> ForwardConfig(ms, c)[k] == ForwardMember(ms[k], c)
  {
    if ms != [] {
      ForwardConfigAt(ms[1..], c);
    }
  }

  /** A field `_set_df_conf_for_field` hands a configuration to: one with the flag, or an exact list serializer whose child has it. */
  predicate AcceptsConfig(n: Node) {
    HasDynamicFlag(n) || (n.ListOf? && n.exact && HasDynamicFlag(n.child))
  }

  /** `_set_df_conf_for_field`. */
  function SetDfConfForField(n: Node, c: Config): (r: Node)
    ensures HasDynamicFlag(n) ==> ReceivesConfig(r, c) && SameShape(n, r)
    ensures n.ListOf? && AcceptsConfig(n) ==>
      r.ListOf? && r.exact && ReceivesConfig(r.child, c) && SameShape(n.child, r.child)
    ensures !AcceptsConfig(n) ==> r == n
  {
    if HasDynamicFlag(n) then SetDfConfig(n, c)
    else if n.ListOf? && n.exact && HasDynamicFlag(n.child) then ListOf(true, SetDfConfig(n.child, c))
    else n
  }

  /** The shape and the configuration received determine the result of `set_df_config` completely. */
  lemma {:induction false} SetDfConfigUnique(n: Node, m: Node, c: Config)
    requires HasDynamicFlag(n)
    requires SameShape(n, m) && ReceivesConfig(m, c)
    ensures m == SetDfConfig(n, c)
    decreases n
  {
    match n
    case Dynamic(_, _) =>
    case Polymorphic(ms) =>
      var rs := ForwardConfig(ms, c);
      forall k | 0 <= k < |ms| ensures m.members[k] == rs[k] {
        if HasDynamicFlag(ms[k].node) {
          SetDfConfigUnique(ms[k].node, m.members[k].node, c);
          SetDfConfigUnique(ms[k].node, rs[k].node, c);
        }
      }
      assert m.members == rs;
  }

  /** Configuring twice is configuring once with the later configuration. */
  lemma SetDfConfigLastWins(n: Node, c1: Config, c2: Config)
    requires HasDynamicFlag(n)
    ensures SetDfConfig(SetDfConfig(n, c1), c2) == SetDfConfig(n, c2)
  {
    var m1 := SetDfConfig(n, c1);
    var m2 := SetDfConfig(m1, c2);
    SameShapeTrans(n, m1, m2);
    SetDfConfigUnique(n, m2, c2);
  }

  /** Shapes compose. */
  lemma {:induction false} SameShapeTrans(a: Node, b: Node, c: Node)
    requires SameShape(a, b) && SameShape(b, c)
    ensures SameShape(a, c)
    decreases a
  {
    match a
    case Polymorphic(ms) =>
      forall k | 0 <= k < |ms| && HasDynamicFlag(ms[k].node)
        ensures SameShape(ms[k].node, c.members[k].node)
      {
        SameShapeFlag(ms[k].node, b.members[k].node);
        SameShapeTrans(ms[k].node, b.members[k].node, c.members[k].node);
      }
    case _ =>
  }

  /** Same shape keeps the dynamic flag. */
  lemma SameShapeFlag(a: Node, b: Node)
    requires SameShape(a, b)
    ensures HasDynamicFlag(a) <==> HasDynamicFlag(b)
  {
  }
}
