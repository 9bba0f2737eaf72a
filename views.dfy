/**
 * DynamicFieldsViewMixin: how a view derives the configuration of the
 * serializer it builds from the request's query parameters and its own
 * defaults.
 */
module Views {
  import opened Wrappers
  import opened Strings
  import opened Conf
  import opened FieldTree
  import opened Serializers

  /** The parts of a request the mixin reads: its method and `query_params.get`. */
  datatype Request = Request(httpMethod: string, queryParams: map<string, string>)

  /** A serializer class: whether it carries the `dynamic_fields` flag, and its declared fields. */
  datatype SerializerClass = SerializerClass(dynamicFields: bool, declared: seq<Entry>)

  /** The view attributes the mixin reads; an unset `default_*_fields` attribute is `None`. */
  datatype View = View(
    serializerClass: SerializerClass,
    defaultIncluded: Option<seq<string>>,
    defaultExcluded: Option<seq<string>>,
    request: Option<Request>)

  /** SerializerDoesNotSupportDynamicFields. */
  datatype ViewError = SerializerDoesNotSupportDynamicFields

  /** `_is_eligible_for_dynamic_fields`: there is a request and it is a GET. */
  predicate IsEligible(v: View): (eligible: bool)
    ensures eligible ==> v.request.Some?
    ensures eligible <==> v.request.Some? && v.request.value.httpMethod == "GET"
  {
    v.request.Some? && v.request.value.httpMethod == "GET"
  }

  /** `_parse_query_params_for_field`: the parameter split on ',', or `None` when missing or empty. */
  function ParseQueryParam(r: Request, name: string): (parsed: Option<seq<string>>)
    ensures parsed.Some? <==> name in r.queryParams && r.queryParams[name] != ""
    ensures parsed.Some? ==> |parsed.value| >= 1 && Join(parsed.value, ',') == r.queryParams[name]
    ensures parsed.Some? ==> forall k :: 0 <= k < |parsed.value| ==> ',' !in parsed.value[k]
  {
    if name in r.queryParams && r.queryParams[name] != "" then
      JoinSplit(r.queryParams[name], ',');
      Some(Split(r.queryParams[name], ','))
    else
      None
  }

  /** Python's `a or b` on optional lists: `a` when it is a non-empty list, `b` otherwise. */
  function Or(a: Option<seq<string>>, b: Option<seq<string>>): (r: Option<seq<string>>)
    ensures r == a || r == b
    ensures a.Some? && a.value != [] ==> r == a
    ensures a.None? || a.value == [] ==> r == b
  {
    if a.Some? && a.value != [] then a else b
  }

  /** `_get_included_fields`: the query value when given, else the view's default. */
  function IncludedFields(v: View, s: Settings): (r: Option<seq<string>>)
    requires v.request.Some?
    ensures ParseQueryParam(v.request.value, s.queryParamIncluded).Some?
      ==> r == ParseQueryParam(v.request.value, s.queryParamIncluded)
    ensures ParseQueryParam(v.request.value, s.queryParamIncluded).None? ==> r == v.defaultIncluded
  {
    Or(ParseQueryParam(v.request.value, s.queryParamIncluded), v.defaultIncluded)
  }

  /** `_get_excluded_fields`: the query value when given, else the view's default. */
  function ExcludedFields(v: View, s: Settings): (r: Option<seq<string>>)
    requires v.request.Some?
    ensures ParseQueryParam(v.request.value, s.queryParamExcluded).Some?
      ==> r == ParseQueryParam(v.request.value, s.queryParamExcluded)
    ensures ParseQueryParam(v.request.value, s.queryParamExcluded).None? ==> r == v.defaultExcluded
  {
    Or(ParseQueryParam(v.request.value, s.queryParamExcluded), v.defaultExcluded)
  }

  /**
   * The configuration `get_serializer` constructs the serializer with, from
   * the caller's keyword arguments: an error for a class without the
   * flag; on a GET, the include and exclude lists are replaced by the
   * derived ones whatever the caller passed; otherwise the caller's
   * arguments stand.
   */
  function SerializerConfig(v: View, s: Settings, kwargs: Config): (r: Result<Config, ViewError>)
    ensures r.Failure? <==> !v.serializerClass.dynamicFields
    ensures r.Success? ==> r.value.required == kwargs.required && r.value.nonNullable == kwargs.nonNullable
    ensures r.Success? && IsEligible(v) ==>
      r.value.included == IncludedFields(v, s) && r.value.excluded == ExcludedFields(v, s)
    ensures r.Success? && !IsEligible(v) ==> r.value == kwargs
  {
    if !v.serializerClass.dynamicFields then Failure(SerializerDoesNotSupportDynamicFields)
    else if IsEligible(v) then Success(kwargs.(included := IncludedFields(v, s), excluded := ExcludedFields(v, s)))
    else Success(kwargs)
  }

  /** `get_serializer`: builds the serializer, or raises for a class without dynamic fields. */
  method GetSerializer(v: View, s: Settings, kwargs: Config) returns (r: Result<DynamicFieldsSerializer, ViewError>)
    requires DistinctNames(v.serializerClass.declared)
    ensures r.Failure? <==> !v.serializerClass.dynamicFields
    ensures r.Success? ==>
      && fresh(r.value) && r.value.Valid()
      && r.value.declared == v.serializerClass.declared
      && Success(r.value.conf) == SerializerConfig(v, s, kwargs)
      && r.value.cache.None?
  {
    if !v.serializerClass.dynamicFields {
      return Failure(SerializerDoesNotSupportDynamicFields);
    }
    var args := kwargs;
    if IsEligible(v) {
      args := args.(included := IncludedFields(v, s), excluded := ExcludedFields(v, s));
    }
    var serializer := new DynamicFieldsSerializer(v.serializerClass.declared, args);
    r := Success(serializer);
  }

  /** A parsed query value is never an empty list, so `or` falls back exactly when the value is missing or empty. */
  lemma ParsedNeverEmpty(r: Request, name: string)
    ensures ParseQueryParam(r, name) != Some([])
  {
  }

  /** On a request that is not a GET (or no request), the caller's arguments pass through untouched, defaults and query ignored. */
  lemma NonGetKeepsCallerConfig(v: View, s: Settings, kwargs: Config)
    requires v.serializerClass.dynamicFields
    requires !IsEligible(v)
    ensures SerializerConfig(v, s, kwargs) == Success(kwargs)
  {
  }

  /** On a GET, the caller's include and exclude arguments have no effect on the result. */
  lemma GetOverridesCallerLists(v: View, s: Settings, kwargs1: Config, kwargs2: Config)
    requires v.serializerClass.dynamicFields && IsEligible(v)
    requires kwargs1.required == kwargs2.required && kwargs1.nonNullable == kwargs2.nonNullable
    ensures SerializerConfig(v, s, kwargs1) == SerializerConfig(v, s, kwargs2)
  {
  }

  /**
   * On a GET, each list is the query value split on ',' when the parameter
   * is present and non-empty, and the view's default otherwise.
   */
  lemma QueryBeforeDefault(v: View, s: Settings, kwargs: Config)
    requires v.serializerClass.dynamicFields && IsEligible(v)
    ensures
      var q := v.request.value.queryParams;
      var inc := SerializerConfig(v, s, kwargs).value.included;
      && ((s.queryParamIncluded in q && q[s.queryParamIncluded] != "") ==>
            inc == Some(Split(q[s.queryParamIncluded], ',')) && Join(inc.value, ',') == q[s.queryParamIncluded])
      && (!(s.queryParamIncluded in q && q[s.queryParamIncluded] != "") ==> inc == v.defaultIncluded)
    ensures
      var q := v.request.value.queryParams;
      var exc := SerializerConfig(v, s, kwargs).value.excluded;
      && ((s.queryParamExcluded in q && q[s.queryParamExcluded] != "") ==>
            exc == Some(Split(q[s.queryParamExcluded], ',')) && Join(exc.value, ',') == q[s.queryParamExcluded])
      && (!(s.queryParamExcluded in q && q[s.queryParamExcluded] != "") ==> exc == v.defaultExcluded)
  {
  }
}
