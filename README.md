# Dynamic fields for Django REST Framework serializers, modelled in Dafny

This project models the field-resolution core of `drf-dynamic-serializers`.
A serializer built on `DynamicFieldsSerializerMixin` receives dotted include
and exclude paths (`included_fields=["foo.char"]`, `excluded_fields=["foo.integer"]`)
and two optional override lists (`required_fields`, `non_nullable_fields`).
When its `fields` property is first read, it

1. splits each path list on the first `.` into the names addressed at this
   level and the remainders for the next level (`_split_levels`);
2. if either root set is non-empty, removes the fields that
   `_is_field_included` rejects (`_clean_fields`): an excluded name goes
   unless some excluded path continues below it, then a non-empty include
   set keeps only its own names;
3. hands each surviving field a child configuration made of its remainders
   (`_set_df_conf_for_field`): a dynamic serializer stores it, a polymorphic
   one forwards it to the dynamic serializers of its mapping, an exact
   `ListSerializer` passes it to its dynamic child, any other field is left
   alone;
4. overwrites `required` and `allow_null` of each surviving field when the
   matching override list is present, even when it is empty
   (`_apply_dynamic_properties_for_field`).

`DynamicFieldsViewMixin.get_serializer` builds that configuration from the
request: it raises `SerializerDoesNotSupportDynamicFields` for a serializer
class without the `dynamic_fields` flag, and on a GET it sets the include
and exclude lists from the `fields` / `exclude` query parameters (split on
`,`), falling back to the view's `default_included_fields` /
`default_excluded_fields`.

Modules, one concept each:

- `Wrappers` (`wrappers.dfy`): `Option`, `Result`.
- `Strings` (`strings.dfy`): the Python string operations used (`in`, `split(".", 1)`, `split(",")`).
- `Conf` (`conf.dfy`): `DynamicFieldsConfig` as the value `Config`; the query-parameter names (`fields`, `exclude`).
- `Levels` (`levels.dfy`): `_split_levels`, a loop proved equal to the function `LevelsOf`.
- `FieldTree` (`field_tree.dfy`): fields as values (`Entry`, `Field`, `Node`); `set_df_config` and `_set_df_conf_for_field`.
- `Resolution` (`resolution.dfy`): `_is_field_included`, `_clean_fields` (a two-phase loop proved equal to the filter `Clean`), the per-field rewrite, and `Resolve`, the value `fields` returns.
- `Properties` (`properties.dfy`): the promises of one resolution step stated on the caller's paths.
- `Serializers` (`serializers.dfy`): the two serializer mixins as classes with in-place state (`_df_conf`, the cached field dict, the polymorphic mapping).
- `Views` (`views.dfy`): `DynamicFieldsViewMixin`.
- `Scenarios` (`scenarios.dfy`): the repository's test cases replayed on the model.

A serializer's field dict is an ordered `seq<Entry>`. Field objects are
values: DRF deep-copies the declared fields for every serializer instance,
so no field object is shared between two dicts. The top-level serializer
and the polymorphic serializer are classes, because the source assigns
their attributes in place.

### Behaviour worth knowing

- A nested dynamic serializer always receives a child configuration from
  its parent, even when no path addresses it. That configuration is all
  `None`, and it replaces whatever configuration the nested serializer was
  declared with (mixins.py:119-127). Resolving with `DynamicFieldsConfig()`
  therefore returns the declared fields unchanged exactly when every
  configurable field already holds the empty configuration
  (`Properties.ResolveEmptyConfig`, `Scenarios.NestedOwnConfigOverwritten`).
- On a GET, `get_serializer` sets `included_fields` and `excluded_fields`
  from the query parameters or the view defaults, replacing whatever the
  caller passed (mixins.py:261-263; `Views.GetOverridesCallerLists`).
- On any other request, or without a request, neither the query
  parameters nor the view defaults are read: the caller's arguments are
  used as they are (mixins.py:259-265; `Views.NonGetKeepsCallerConfig`).
- The path lists are lists, not sets: remainders keep input order and duplicates.

## Model

| member | source | states |
|---|---|---|
| `Conf.NewConfig` | drf_dynamic_serializers/conf.py:27-37 | the constructor stores each of its four arguments unchanged |
| `Conf.EmptyConfig` | drf_dynamic_serializers/conf.py:27-33 | `DynamicFieldsConfig()` has all four attributes `None` |
| `Conf.SameConfig` | drf_dynamic_serializers/conf.py:39-46 | `__eq__` between two configurations holds exactly when they are the same record |
| `Conf.DefaultQueryParamNames` | drf_dynamic_serializers/conf.py:13-15 | unless the settings override them, the include list comes from `fields` and the exclude list from `exclude`, two different parameters |
| `Conf.SameConfigIsEquality` | drf_dynamic_serializers/conf.py:39-46 | `__eq__` holds exactly when the four attributes are equal; it is reflexive, symmetric and transitive |
| `Strings.IndexOf` | drf_dynamic_serializers/mixins.py:213-215 | the first separator position: every earlier character differs from it, and it is the length when the separator is absent |
| `Strings.SplitFirstRoundTrip` | drf_dynamic_serializers/mixins.py:215 | `split(".", 1)` yields a dot-free head and a tail that rebuild the path with one `.` |
| `Strings.SplitFirstOfJoined` | drf_dynamic_serializers/mixins.py:215 | conversely, splitting `head + "." + tail` with a dot-free head gives back `head` and `tail` |
| `Strings.JoinSplit` | drf_dynamic_serializers/mixins.py:314 | joining the pieces of `value.split(",")` with `,` gives back `value` |
| `Strings.SplitJoin` | drf_dynamic_serializers/mixins.py:314 | splitting a `,`-join of comma-free pieces gives back the pieces |
| `Levels.SplitLevels` | drf_dynamic_serializers/mixins.py:204-221 | the loop returns the root set and the remainder map of `LevelsOf(paths)` |
| `Levels.LevelsOfSnoc` | drf_dynamic_serializers/mixins.py:212-219 | one more path: a dotted one adds its root and appends its remainder under it, a dotless one only adds itself to the roots |
| `Levels.NestedKeysAreRoots` | drf_dynamic_serializers/mixins.py:212-219 | every key of the remainder map is in the root set |
| `Levels.ContinuationSound` | drf_dynamic_serializers/mixins.py:215-217 | every remainder filed under a name, glued back with `.`, is one of the input paths, and the name has no `.` |
| `Levels.ContinuationComplete` | drf_dynamic_serializers/mixins.py:215-217 | every dotted input path leaves its remainder, later dots intact, under its root |
| `Levels.NestedGetPresent` | drf_dynamic_serializers/mixins.py:124-125 | `nested.get(name)` is present exactly when some dotted path is rooted at `name` |
| `Levels.DotlessPathOnlyRoot` | drf_dynamic_serializers/mixins.py:218-219 | a dotless path enters the root set and changes no remainder list |
| `FieldTree.Find` | drf_dynamic_serializers/mixins.py:145 | `fields[name]` is found exactly for a name in the dict, and is that entry's field |
| `FieldTree.SetDfConfig` | drf_dynamic_serializers/mixins.py:66-73 | `set_df_config` leaves the configuration on every serializer it reaches (a polymorphic one forwards it) and changes nothing else |
| `FieldTree.ForwardConfig` | drf_dynamic_serializers/mixins.py:71-73 | every mapping entry with the dynamic flag receives the configuration, every other entry is unchanged, the models stay in place |
| `FieldTree.ForwardMember` | drf_dynamic_serializers/mixins.py:72-73 | one entry: configured when it has the dynamic flag, untouched otherwise |
| `FieldTree.ForwardConfigAt` | drf_dynamic_serializers/mixins.py:71-73 | the forwarding acts on each mapping entry where it stands |
| `FieldTree.SetDfConfForField` | drf_dynamic_serializers/mixins.py:223-234 | a flagged field, or the dynamic child of an exact `ListSerializer`, receives the configuration; any other field is returned unchanged |
| `FieldTree.SetDfConfigUnique` | drf_dynamic_serializers/mixins.py:66-73 | the shape plus the configuration received determine the result of `set_df_config` completely |
| `FieldTree.SetDfConfigLastWins` | drf_dynamic_serializers/mixins.py:133-137 | configuring twice equals configuring once with the later configuration |
| `Resolution.IsFieldIncluded` | drf_dynamic_serializers/mixins.py:181-202 | a field stays exactly when it is not excluded without an excluded path continuing below it, and the include set is empty or holds it |
| `Resolution.Clean` | drf_dynamic_serializers/mixins.py:164-179 | the filter `_clean_fields` applies; it never adds a field (what it keeps is stated by `CleanNames`, `CleanFind`, `CleanIsSubsequence`) |
| `Resolution.RejectedNames` | drf_dynamic_serializers/mixins.py:164-176 | the first loop collects each name `_is_field_included` rejects, once, and nothing else |
| `Resolution.PopAll` | drf_dynamic_serializers/mixins.py:178-179 | every pop finds its key, and the dict loses exactly the collected names |
| `Resolution.PopStep` | drf_dynamic_serializers/mixins.py:178-179 | popping a name not yet removed finds it and removes it alone |
| `Resolution.CleanFields` | drf_dynamic_serializers/mixins.py:153-179 | the collect-then-pop loops leave exactly `Clean(fields)`, and every pop finds its key |
| `Resolution.DropNamesIsClean` | drf_dynamic_serializers/mixins.py:174-179 | popping exactly the rejected names leaves what `_is_field_included` accepts |
| `Resolution.CleanNames` | drf_dynamic_serializers/mixins.py:164-179 | a name survives cleaning exactly when it was present and `_is_field_included` accepts it |
| `Resolution.CleanFind` | drf_dynamic_serializers/mixins.py:164-179 | a surviving field is the original field, unchanged |
| `Resolution.CleanIsSubsequence` | drf_dynamic_serializers/mixins.py:164-179 | cleaning only removes fields; the rest keep their order |
| `Resolution.CleanKeepsAll` | drf_dynamic_serializers/mixins.py:110-117 | with both root sets empty, cleaning would remove nothing, so skipping it is equivalent |
| `Resolution.ApplyDynamicProperties` | drf_dynamic_serializers/mixins.py:139-151 | a present `required_fields` makes `required` membership in it, a present `non_nullable_fields` makes `allow_null` non-membership in it, an absent list keeps its flag; the node is untouched |
| `Resolution.DecorateAll` | drf_dynamic_serializers/mixins.py:119-129 | the loop in `fields` neither adds nor removes a field |
| `Resolution.DecorateAllAt` | drf_dynamic_serializers/mixins.py:119-129 | the loop in `fields` rewrites each field in place and keeps every name |
| `Resolution.FindDecorateAll` | drf_dynamic_serializers/mixins.py:119-129 | after the loop, each name maps to its rewritten field |
| `Resolution.ResolveKept` | drf_dynamic_serializers/mixins.py:110-117 | `fields` equals cleaning unconditionally and then rewriting |
| `Resolution.NamesOfResolve` | drf_dynamic_serializers/mixins.py:96-131 | the names `fields` returns are those cleaning keeps |
| `Resolution.Resolve` | drf_dynamic_serializers/mixins.py:96-131 | the dict `fields` returns: never longer than the declared one, and as long when neither path list has an entry |
| `Resolution.ResolveNames` | drf_dynamic_serializers/mixins.py:96-131 | a field survives exactly when it is declared and `_is_field_included` accepts it on the two root sets and the excluded remainder map |
| `Resolution.ResolveOrder` | drf_dynamic_serializers/mixins.py:164-179 | the surviving names are the declared names in declaration order, some left out |
| `Resolution.ResolvedField` | drf_dynamic_serializers/mixins.py:119-151 | each survivor: `required` is membership in `required_fields` when present, else unchanged; `allow_null` is non-membership in `non_nullable_fields` when present, else unchanged; its node has received the child configuration |
| `Resolution.ResolveDistinct` | drf_dynamic_serializers/mixins.py:164-179 | the result is still a dict: no name twice |
| `Properties.ExcludedPathRemovesField` | drf_dynamic_serializers/mixins.py:193-196 | an excluded dotless name with no excluded path continuing below it is removed, whatever the include list says |
| `Properties.NestedExclusionKeepsField` | drf_dynamic_serializers/mixins.py:193-200 | an excluded path continuing below a name never removes the name; it survives exactly when the include set is empty or holds it |
| `Properties.AllowListKeepsOnlyRoots` | drf_dynamic_serializers/mixins.py:198-200 | with a non-empty include set, every survivor is the root of some include path |
| `Properties.NestedInclusionKeepsField` | drf_dynamic_serializers/mixins.py:198-200 | an include path continuing below a declared name keeps that name when no exclude path is rooted at it |
| `Properties.ChildConfigFromPaths` | drf_dynamic_serializers/mixins.py:120-127 | the child configuration lists exactly the remainders of the paths rooted at the field, `None` when there are none, and never carries `required_fields` or `non_nullable_fields` |
| `Properties.ContinuationBothWays` | drf_dynamic_serializers/mixins.py:212-219 | a remainder is filed under a name exactly when `name.remainder` is an input path |
| `Properties.EmptyRequiredMakesAllOptional` | drf_dynamic_serializers/mixins.py:143-145 | `required_fields=[]` makes every surviving field optional |
| `Properties.EmptyNonNullableMakesAllNullable` | drf_dynamic_serializers/mixins.py:147-151 | `non_nullable_fields=[]` makes every surviving field nullable |
| `Properties.AbsentOverridesKeepFlags` | drf_dynamic_serializers/mixins.py:139-151 | without override lists every survivor keeps its declared `required` and `allow_null` |
| `Properties.ResolveEmptyConfig` | drf_dynamic_serializers/mixins.py:96-131 | the empty configuration keeps every field, flag and position and only hands configurable fields the empty configuration; the result is the input exactly when they already hold it |
| `Properties.DecorateWithoutConfig` | drf_dynamic_serializers/mixins.py:119-129 | under the empty configuration the per-field rewrite only hands down the empty configuration |
| `Properties.ResolveIdempotentNames` | drf_dynamic_serializers/mixins.py:96-131 | resolving a resolved field list again with no configuration keeps the same names |
| `Properties.NestedResolution` | drf_dynamic_serializers/mixins.py:228-230 | a surviving nested dynamic serializer holds the child configuration and its own declared fields, so it resolves lazily under it |
| `Serializers.DynamicFieldsSerializer.constructor` | drf_dynamic_serializers/mixins.py:86-94 | the popped keyword arguments become `_df_conf`; no field dict is computed yet |
| `Serializers.DynamicFieldsSerializer.SetDfConfig` | drf_dynamic_serializers/mixins.py:133-137 | `_df_conf` becomes the given configuration; a field dict already computed is kept |
| `Serializers.DynamicFieldsSerializer.Fields` | drf_dynamic_serializers/mixins.py:96-131 | the first read computes `Resolve(declared, _df_conf)` and stores it; later reads return the stored dict; the dict keeps distinct names |
| `Serializers.PropagateConfig` | drf_dynamic_serializers/mixins.py:119-129 | the loop leaves every field where it stands, configured with the remainders under its name and then overridden: `DecorateAll` of the cleaned dict |
| `Serializers.PolymorphicSerializer.SetDfConfig` | drf_dynamic_serializers/mixins.py:66-73 | the loop over the mapping leaves `ForwardConfig` of the old mapping |
| `Views.IsEligible` | drf_dynamic_serializers/mixins.py:301-307 | eligible exactly when there is a request and its method is GET |
| `Views.Or` | drf_dynamic_serializers/mixins.py:271-276 | Python's `or` on the parsed value: the value when it is a non-empty list, the default otherwise |
| `Views.ParseQueryParam` | drf_dynamic_serializers/mixins.py:309-314 | present exactly for a present non-empty value; the pieces are comma-free and join back to the value |
| `Views.IncludedFields` | drf_dynamic_serializers/mixins.py:267-276 | the parsed `fields` value when there is one, else `default_included_fields` (or `None`) |
| `Views.ExcludedFields` | drf_dynamic_serializers/mixins.py:278-287 | the parsed `exclude` value when there is one, else `default_excluded_fields` (or `None`) |
| `Views.SerializerConfig` | drf_dynamic_serializers/mixins.py:250-265 | fails exactly for a serializer class without the dynamic flag; on a GET the include and exclude lists become `IncludedFields` and `ExcludedFields`; otherwise the caller's arguments are returned unchanged; the override lists are never touched |
| `Views.GetSerializer` | drf_dynamic_serializers/mixins.py:250-265 | raises exactly for a class without the flag; otherwise a new serializer over the class's declared fields holding `SerializerConfig` |
| `Views.ParsedNeverEmpty` | drf_dynamic_serializers/mixins.py:271-276 | a parsed query value is never an empty list, so the `or` falls back exactly when the value is missing or empty |
| `Views.NonGetKeepsCallerConfig` | drf_dynamic_serializers/mixins.py:301-307 | a request that is not a GET, or no request, passes the caller's arguments through, ignoring query and defaults |
| `Views.GetOverridesCallerLists` | drf_dynamic_serializers/mixins.py:261-263 | on a GET the caller's include and exclude arguments do not affect the result |
| `Views.QueryBeforeDefault` | drf_dynamic_serializers/mixins.py:267-299 | on a GET, each of the include and exclude lists is the query value split on `,` when the parameter is present and non-empty, and the view's default otherwise |
| `Scenarios.IncludedFieldsRoot` | tests/tests_mixins.py:20-23 | `included_fields=["boolean"]` leaves only `boolean` |
| `Scenarios.IncludedFieldsNested` | tests/tests_mixins.py:25-28 | `included_fields=["foo.char"]` leaves `foo`, configured to show only `char` |
| `Scenarios.ExcludedFieldsRoot` | tests/tests_mixins.py:30-33 | `excluded_fields=["boolean"]` leaves `foo` with both its fields |
| `Scenarios.ExcludedFieldsNested` | tests/tests_mixins.py:35-38 | `excluded_fields=["foo.integer"]` keeps `boolean` and `foo`, and `foo` shows only `char` |
| `Scenarios.RequiredFieldsEmpty` | tests/tests_mixins.py:40-43 | `required_fields=[]` makes both fields of `Foo` optional |
| `Scenarios.NonNullableFieldsEmpty` | tests/tests_mixins.py:45-48 | `non_nullable_fields=[]` makes both fields of `Foo` nullable |
| `Scenarios.DefaultFlagsKept` | tests/tests_mixins.py:50-65 | with no configuration `Foo`'s fields stay required and non-nullable |
| `Scenarios.NestedOwnConfigOverwritten` | drf_dynamic_serializers/mixins.py:119-127 | a nested serializer's own `excluded_fields` is replaced by the parent's all-`None` child configuration |
| `Scenarios.NonDynamicSerializerClassRaises` | tests/tests_views.py:27-34 | a serializer class without the flag makes `get_serializer` raise |
| `Scenarios.QueryParamIncluded` | tests/tests_views.py:37-46 | `GET /?fields=char` gives `included_fields=["char"]` |
| `Scenarios.QueryParamExcluded` | tests/tests_views.py:48-56 | `GET /?exclude=char` gives `excluded_fields=["char"]` |
| `Scenarios.DefaultsApply` | tests/tests_views.py:58-82 | without query parameters a GET takes the view defaults, or nothing |
| `Scenarios.PostIgnoresDefaults` | tests/tests_views.py:84-92 | a POST yields the empty configuration although a default exists |

## Left out

- `DynamicFieldsPolymorphicSerializerMixin.__init__` (mixins.py:29-64): it instantiates the mapped serializer classes through django-rest-polymorphic (`to_resource_type`, `model_serializer_mapping`); the model starts from the mapping of instances.
- Django REST Framework itself: `Serializer.fields`, deep copying of declared fields, `ListSerializer`, serialization (`.data`) and validation (`is_valid`). Fields are values with `required`, `allow_null` and a kind; the tests' observations through `.data` and `is_valid` are stated on the names and flags.
- `cached_property` is modelled as a slot filled on the first read, not as Django's descriptor.
- The request is a method string and one string per query parameter; a parameter repeated in the query string (where `QueryDict.get` returns the last value) is not modelled.
- `get_serializer`'s positional arguments, `context` and other keyword arguments pass to DRF untouched and are not modelled; `get_serializer_class` is a given class.
- The `AppConf` settings loading: the two query-parameter names are a `Settings` value with the defaults `fields` and `exclude`.
- The `dynamic_fields` flag is a boolean; a class attribute holding another falsy value (which `is False` would not reject) is not modelled.
- `DynamicFieldsConfig.__eq__` against an object of another type (always unequal) is not modelled: both arguments are configurations.
- apps.py, views.py, serializers.py and exceptions.py are thin subclass or registration wrappers; the exception is the error value `SerializerDoesNotSupportDynamicFields`.
- Nested serializer objects are values, so aliasing of one field object between two serializers is not modelled.
