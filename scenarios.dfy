/**
 * The repository's own test cases, replayed on the model: a `Foo`
 * serializer with two required, non-nullable fields, and a `Bar`
 * serializer that nests it.
 */
module Scenarios {
  import opened Wrappers
  import opened Strings
  import opened Conf
  import opened Levels
  import opened FieldTree
  import opened Resolution
  import opened Properties
  import opened Views

  /** `char` and `integer`, both `required=True, allow_null=False`. */
  function FooFields(): seq<Entry> {
    [Entry("char", Field(true, false, Plain)), Entry("integer", Field(true, false, Plain))]
  }

  /** `boolean`, then `foo = FooSerializer()`. */
  function BarFields(): seq<Entry> {
    [Entry("boolean", Field(true, false, Plain)), Entry("foo", Field(true, false, Dynamic(EmptyConfig(), FooFields())))]
  }

  /** The levels of a single path. */
  lemma LevelsOfOne(p: string)
    ensures '.' !in p ==> LevelsOf([p]) == Levels({p}, map[])
    ensures '.' in p ==> LevelsOf([p]) == Levels({RootOf(p)}, map[RootOf(p) := [After(p, '.')]])
  {
    assert [] + [p] == [p];
    assert RootSet([]) == {} && NestedKeys([]) == {};
    LevelsOfSnoc([], p);
    if '.' in p {
      assert [] + [After(p, '.')] == [After(p, '.')];
    }
  }

  lemma FooDotChar()
    ensures '.' in "foo.char" && RootOf("foo.char") == "foo" && After("foo.char", '.') == "char"
  {
    SplitFirstOfJoined("foo", '.', "char");
    assert "foo" + ['.'] + "char" == "foo.char";
  }

  lemma FooDotInteger()
    ensures '.' in "foo.integer" && RootOf("foo.integer") == "foo" && After("foo.integer", '.') == "integer"
  {
    SplitFirstOfJoined("foo", '.', "integer");
    assert "foo" + ['.'] + "integer" == "foo.integer";
  }

  /** `Clean` on a two-field dict, one decision per field. */
  lemma CleanPair(
    a: Entry, b: Entry, excluded: set<string>, included: set<string>, nestedExcluded: map<string, seq<string>>)
    ensures Clean([a, b], excluded, included, nestedExcluded)
      == (if IsFieldIncluded(a.name, excluded, included, nestedExcluded) then [a] else [])
       + (if IsFieldIncluded(b.name, excluded, included, nestedExcluded) then [b] else [])
  {
    assert [a, b][1..] == [b];
    assert [b][1..] == [];
    assert Clean([], excluded, included, nestedExcluded) == [];
    assert [b] + [] == [b];
    var last := Clean([b], excluded, included, nestedExcluded);
    assert last == (if IsFieldIncluded(b.name, excluded, included, nestedExcluded) then [b] else []);
    if IsFieldIncluded(a.name, excluded, included, nestedExcluded) {
      assert Clean([a, b], excluded, included, nestedExcluded) == [a] + last;
    } else {
      assert Clean([a, b], excluded, included, nestedExcluded) == last;
      assert [] + last == last;
    }
  }

  /*
   * Each test below takes its configuration as a parameter pinned down by
   * `requires`, so that the verifier reasons from the lemmas it is given
   * rather than evaluating the whole resolution on constants.
   */

  /** A single dotless include path: one root, nothing to hand down. */
  lemma LevelsOfIncludedName(c: Config, name: string)
    requires '.' !in name
    requires c == NewConfig(included := Some([name]))
    ensures IncludedLevels(c) == Levels({name}, map[])
    ensures ExcludedLevels(c) == Levels({}, map[])
  {
    LevelsOfOne(name);
  }

  /** A single dotless exclude path: one root, nothing to hand down. */
  lemma LevelsOfExcludedName(c: Config, name: string)
    requires '.' !in name
    requires c == NewConfig(excluded := Some([name]))
    ensures IncludedLevels(c) == Levels({}, map[])
    ensures ExcludedLevels(c) == Levels({name}, map[])
  {
    LevelsOfOne(name);
  }

  /** `included_fields=["boolean"]` leaves only `boolean`. */
  lemma IncludedFieldsRoot(c: Config)
    requires c == NewConfig(included := Some(["boolean"]))
    ensures Names(Resolve(BarFields(), c)) == ["boolean"]
  {
    LevelsOfIncludedName(c, "boolean");
    CleanPair(BarFields()[0], BarFields()[1], {}, {"boolean"}, map[]);
    NamesFromClean(BarFields(), c, ["boolean"]);
  }

  /** `included_fields=["foo.char"]` keeps `foo`, which then shows only `char`. */
  lemma IncludedFieldsNested(c: Config, child: Config)
    requires c == NewConfig(included := Some(["foo.char"]))
    requires child == NewConfig(included := Some(["char"]))
    ensures Names(Resolve(BarFields(), c)) == ["foo"]
    ensures Find(Resolve(BarFields(), c), "foo").value.node == Dynamic(child, FooFields())
    ensures Names(Resolve(FooFields(), child)) == ["char"]
  {
    IncludedFooCharParent(c);
    IncludedFooCharNode(c, child);
    IncludedCharChild(child);
  }

  lemma IncludedFooCharParent(c: Config)
    requires c == NewConfig(included := Some(["foo.char"]))
    ensures Names(Resolve(BarFields(), c)) == ["foo"]
  {
    LevelsOfFooChar(c);
    CleanPair(BarFields()[0], BarFields()[1], {}, {"foo"}, map[]);
    NamesFromClean(BarFields(), c, ["foo"]);
  }

  lemma IncludedFooCharNode(c: Config, child: Config)
    requires c == NewConfig(included := Some(["foo.char"]))
    requires child == NewConfig(included := Some(["char"]))
    ensures "foo" in Names(Resolve(BarFields(), c))
    ensures Find(Resolve(BarFields(), c), "foo").value.node == Dynamic(child, FooFields())
  {
    IncludedFooCharParent(c);
    LevelsOfFooChar(c);
    NestedResolution(BarFields(), c, "foo");
  }

  lemma IncludedCharChild(child: Config)
    requires child == NewConfig(included := Some(["char"]))
    ensures Names(Resolve(FooFields(), child)) == ["char"]
  {
    LevelsOfIncludedName(child, "char");
    CleanPair(FooFields()[0], FooFields()[1], {}, {"char"}, map[]);
    NamesFromClean(FooFields(), child, ["char"]);
  }

  lemma LevelsOfFooChar(c: Config)
    requires c == NewConfig(included := Some(["foo.char"]))
    ensures IncludedLevels(c) == Levels({"foo"}, map["foo" := ["char"]])
    ensures ExcludedLevels(c) == Levels({}, map[])
    ensures ChildConfig(IncludedLevels(c), ExcludedLevels(c), "foo") == NewConfig(included := Some(["char"]))
  {
    FooDotChar();
    LevelsOfOne("foo.char");
  }

  /** The names `Resolve` keeps are read off `Clean` on the configuration's root sets. */
  lemma NamesFromClean(declared: seq<Entry>, c: Config, expected: seq<string>)
    requires Names(Clean(declared, ExcludedLevels(c).roots, IncludedLevels(c).roots, ExcludedLevels(c).nested))
      == expected
    ensures Names(Resolve(declared, c)) == expected
  {
    NamesOfResolve(declared, c);
  }

  /** `excluded_fields=["boolean"]` leaves `foo` with both its fields. */
  lemma ExcludedFieldsRoot(c: Config)
    requires c == NewConfig(excluded := Some(["boolean"]))
    ensures Names(Resolve(BarFields(), c)) == ["foo"]
    ensures Find(Resolve(BarFields(), c), "foo").value.node == Dynamic(EmptyConfig(), FooFields())
    ensures Names(Resolve(FooFields(), EmptyConfig())) == ["char", "integer"]
  {
    ExcludedBooleanParent(c);
    ExcludedBooleanNode(c);
    ResolveEmptyConfig(FooFields());
  }

  lemma ExcludedBooleanParent(c: Config)
    requires c == NewConfig(excluded := Some(["boolean"]))
    ensures Names(Resolve(BarFields(), c)) == ["foo"]
  {
    LevelsOfExcludedName(c, "boolean");
    CleanPair(BarFields()[0], BarFields()[1], {"boolean"}, {}, map[]);
    NamesFromClean(BarFields(), c, ["foo"]);
  }

  lemma ExcludedBooleanNode(c: Config)
    requires c == NewConfig(excluded := Some(["boolean"]))
    ensures "foo" in Names(Resolve(BarFields(), c))
    ensures Find(Resolve(BarFields(), c), "foo").value.node == Dynamic(EmptyConfig(), FooFields())
  {
    ExcludedBooleanParent(c);
    LevelsOfExcludedName(c, "boolean");
    assert ChildConfig(IncludedLevels(c), ExcludedLevels(c), "foo") == EmptyConfig();
    NestedResolution(BarFields(), c, "foo");
  }

  /** `excluded_fields=["foo.integer"]` keeps `boolean` and `foo`, and `foo` drops `integer`. */
  lemma ExcludedFieldsNested(c: Config, child: Config)
    requires c == NewConfig(excluded := Some(["foo.integer"]))
    requires child == NewConfig(excluded := Some(["integer"]))
    ensures Names(Resolve(BarFields(), c)) == ["boolean", "foo"]
    ensures Find(Resolve(BarFields(), c), "foo").value.node == Dynamic(child, FooFields())
    ensures Names(Resolve(FooFields(), child)) == ["char"]
  {
    ExcludedFooIntegerParent(c);
    ExcludedFooIntegerNode(c, child);
    ExcludedIntegerChild(child);
  }

  lemma ExcludedFooIntegerParent(c: Config)
    requires c == NewConfig(excluded := Some(["foo.integer"]))
    ensures Names(Resolve(BarFields(), c)) == ["boolean", "foo"]
  {
    LevelsOfFooInteger(c);
    NestedExclusionKeepsBar();
    NamesFromClean(BarFields(), c, ["boolean", "foo"]);
  }

  /** Excluding `foo` with a path continuing below it keeps both fields of `Bar`. */
  lemma NestedExclusionKeepsBar()
    ensures Names(Clean(BarFields(), {"foo"}, {}, map["foo" := ["integer"]])) == ["boolean", "foo"]
  {
    CleanPair(BarFields()[0], BarFields()[1], {"foo"}, {}, map["foo" := ["integer"]]);
  }

  lemma ExcludedFooIntegerNode(c: Config, child: Config)
    requires c == NewConfig(excluded := Some(["foo.integer"]))
    requires child == NewConfig(excluded := Some(["integer"]))
    ensures "foo" in Names(Resolve(BarFields(), c))
    ensures Find(Resolve(BarFields(), c), "foo").value.node == Dynamic(child, FooFields())
  {
    ExcludedFooIntegerParent(c);
    LevelsOfFooInteger(c);
    NestedResolution(BarFields(), c, "foo");
  }

  lemma ExcludedIntegerChild(child: Config)
    requires child == NewConfig(excluded := Some(["integer"]))
    ensures Names(Resolve(FooFields(), child)) == ["char"]
  {
    LevelsOfExcludedName(child, "integer");
    CleanPair(FooFields()[0], FooFields()[1], {"integer"}, {}, map[]);
    NamesFromClean(FooFields(), child, ["char"]);
  }

  lemma LevelsOfFooInteger(c: Config)
    requires c == NewConfig(excluded := Some(["foo.integer"]))
    ensures IncludedLevels(c) == Levels({}, map[])
    ensures ExcludedLevels(c) == Levels({"foo"}, map["foo" := ["integer"]])
    ensures ChildConfig(IncludedLevels(c), ExcludedLevels(c), "foo") == NewConfig(excluded := Some(["integer"]))
  {
    FooDotInteger();
    LevelsOfOne("foo.integer");
  }

  /** `required_fields=[]` makes both fields of `Foo` optional, so empty input validates. */
  lemma RequiredFieldsEmpty(c: Config)
    requires c == NewConfig(required := Some([]))
    ensures Names(Resolve(FooFields(), c)) == ["char", "integer"]
    ensures !Find(Resolve(FooFields(), c), "char").value.required
    ensures !Find(Resolve(FooFields(), c), "integer").value.required
  {
    assert IncludedLevels(c) == Levels({}, map[]) && ExcludedLevels(c) == Levels({}, map[]);
    NamesOfResolve(FooFields(), c);
    CleanKeepsAll(FooFields(), map[]);
    EmptyRequiredMakesAllOptional(FooFields(), c, "char");
    EmptyRequiredMakesAllOptional(FooFields(), c, "integer");
  }

  /** `non_nullable_fields=[]` makes both fields of `Foo` nullable, so null values validate. */
  lemma NonNullableFieldsEmpty(c: Config)
    requires c == NewConfig(nonNullable := Some([]))
    ensures Names(Resolve(FooFields(), c)) == ["char", "integer"]
    ensures Find(Resolve(FooFields(), c), "char").value.allowNull
    ensures Find(Resolve(FooFields(), c), "integer").value.allowNull
  {
    assert IncludedLevels(c) == Levels({}, map[]) && ExcludedLevels(c) == Levels({}, map[]);
    NamesOfResolve(FooFields(), c);
    CleanKeepsAll(FooFields(), map[]);
    EmptyNonNullableMakesAllNullable(FooFields(), c, "char");
    EmptyNonNullableMakesAllNullable(FooFields(), c, "integer");
  }

  /** With no configuration both fields stay required and non-nullable, so `{}` and nulls are rejected. */
  lemma DefaultFlagsKept()
    ensures Resolve(FooFields(), EmptyConfig()) == FooFields()
  {
    ResolveEmptyConfig(FooFields());
  }

  /**
   * A nested serializer declared with its own configuration loses it:
   * resolving the parent, even with no configuration, hands the nested
   * serializer an all-`None` configuration, so `integer` comes back.
   */
  lemma NestedOwnConfigOverwritten()
    ensures
      var parent := [Entry("foo", Field(true, false, Dynamic(NewConfig(excluded := Some(["integer"])), FooFields())))];
      && Find(Resolve(parent, EmptyConfig()), "foo").value.node == Dynamic(EmptyConfig(), FooFields())
      && Names(Resolve(FooFields(), EmptyConfig())) == ["char", "integer"]
  {
    var parent := [Entry("foo", Field(true, false, Dynamic(NewConfig(excluded := Some(["integer"])), FooFields())))];
    ResolveEmptyConfig(parent);
    ResolveEmptyConfig(FooFields());
  }

  /** The view of the view tests: a dynamic serializer with a `char` field, reached by a request. */
  function TestView(defaultIncluded: Option<seq<string>>, defaultExcluded: Option<seq<string>>, r: Request): View {
    View(SerializerClass(true, [Entry("char", Field(true, false, Plain))]), defaultIncluded, defaultExcluded, Some(r))
  }

  /** A serializer class without the flag makes `get_serializer` raise. */
  lemma NonDynamicSerializerClassRaises(r: Request)
    ensures SerializerConfig(View(SerializerClass(false, []), None, None, Some(r)), DefaultSettings, EmptyConfig())
      == Failure(SerializerDoesNotSupportDynamicFields)
  {
  }

  /** `GET /?fields=char` configures `included_fields=["char"]`. */
  lemma QueryParamIncluded()
    ensures SerializerConfig(TestView(None, None, Request("GET", map["fields" := "char"])), DefaultSettings, EmptyConfig())
      == Success(NewConfig(included := Some(["char"])))
  {
    assert ',' !in "char";
  }

  /** `GET /?exclude=char` configures `excluded_fields=["char"]`. */
  lemma QueryParamExcluded()
    ensures SerializerConfig(TestView(None, None, Request("GET", map["exclude" := "char"])), DefaultSettings, EmptyConfig())
      == Success(NewConfig(excluded := Some(["char"])))
  {
    assert ',' !in "char";
  }

  /** Without query parameters the view's defaults apply on a GET. */
  lemma DefaultsApply()
    ensures SerializerConfig(TestView(Some(["char"]), None, Request("GET", map[])), DefaultSettings, EmptyConfig())
      == Success(NewConfig(included := Some(["char"])))
    ensures SerializerConfig(TestView(None, Some(["char"]), Request("GET", map[])), DefaultSettings, EmptyConfig())
      == Success(NewConfig(excluded := Some(["char"])))
    ensures SerializerConfig(TestView(None, None, Request("GET", map[])), DefaultSettings, EmptyConfig())
      == Success(EmptyConfig())
  {
  }

  /** A POST ignores the view's defaults. */
  lemma PostIgnoresDefaults()
    ensures SerializerConfig(TestView(None, Some(["char"]), Request("POST", map[])), DefaultSettings, EmptyConfig())
      == Success(EmptyConfig())
  {
  }
}
