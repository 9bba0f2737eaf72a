/**
 * The configuration record handed to every dynamic serializer, and the
 * names of the query parameters a view reads it from.
 */
module Conf {
  import opened Wrappers

  /**
   * DynamicFieldsConfig. Each list is optional: `None` means "leave this
   * aspect alone", while a present list, even an empty one, takes effect.
   */
  datatype Config = Config(
    included: Option<seq<string>>,
    excluded: Option<seq<string>>,
    required: Option<seq<string>>,
    nonNullable: Option<seq<string>>)

  /** The constructor, each keyword argument defaulting to `None`. */
  function NewConfig(
    included: Option<seq<string>> := None,
    excluded: Option<seq<string>> := None,
    required: Option<seq<string>> := None,
    nonNullable: Option<seq<string>> := None): (c: Config)
    ensures c.included == included && c.excluded == excluded
    ensures c.required == required && c.nonNullable == nonNullable
  {
    Config(included, excluded, required, nonNullable)
  }

  /** `DynamicFieldsConfig()`: nothing to include, exclude or override. */
  function EmptyConfig(): (c: Config)
    ensures c.included.None? && c.excluded.None?
    ensures c.required.None? && c.nonNullable.None?
  {
    NewConfig()
  }

  /** `DynamicFieldsConfig.__eq__`: attribute-by-attribute comparison. */
  predicate SameConfig(a: Config, b: Config): (same: bool)
    ensures same <==> a == b
  {
    && a.included == b.included
    && a.excluded == b.excluded
    && a.required == b.required
    && a.nonNullable == b.nonNullable
  }

  /** `__eq__` holds exactly for identical records, so it is an equivalence relation. */
  lemma SameConfigIsEquality(a: Config, b: Config, c: Config)
    ensures SameConfig(a, b) <==> a == b
    ensures SameConfig(a, a)
    ensures SameConfig(a, b) ==> SameConfig(b, a)
    ensures SameConfig(a, b) && SameConfig(b, c) ==> SameConfig(a, c)
  {
  }

  /** The two query-parameter names the view reads (the `AppConf` settings). */
  datatype Settings = Settings(queryParamIncluded: string, queryParamExcluded: string)

  /** The names used unless the project settings override them. */
  const DefaultSettings: Settings := Settings("fields", "exclude")

  /** Unless overridden, the include list is read from `fields` and the exclude list from `exclude`. */
  lemma DefaultQueryParamNames()
    ensures DefaultSettings.queryParamIncluded == "fields"
    ensures DefaultSettings.queryParamExcluded == "exclude"
    ensures DefaultSettings.queryParamIncluded != DefaultSettings.queryParamExcluded
  {
    assert "fields"[0] != "exclude"[0];
  }
}
