/** Turning the arguments of a find query into a store filter and query
    options: paging and sorting numbers go to the options, the three filter
    operators become operator values on the field they name, and every
    other argument passes through as an equality filter. */
module SearchParams {
  import opened Core

  /** The list argument of `_in` and `_nin`. */
  datatype ListArg = ListArg(fieldName: string, values: seq<string>)

  /** The argument of `_like`; the pattern is kept as its source text. */
  datatype LikeArg = LikeArg(fieldName: string, regExpStr: string)

  /** What a filter holds for one field: the caller's own value, or one of
      the three operators. */
  datatype Value =
    | Given(text: string)
    | InValues(values: seq<string>)
    | NotInValues(values: seq<string>)
    | Matching(regExpStr: string)

  /** The arguments of a find query: the six reserved ones and the entity
      fields the caller filters on by equality. */
  datatype FindArgs = FindArgs(
    skip: Option<int>,
    sort: Option<int>,
    limit: Option<int>,
    inArg: Option<ListArg>,
    ninArg: Option<ListArg>,
    likeArg: Option<LikeArg>,
    fields: map<string, Value>)

  datatype Options = Options(skip: Option<int>, sort: Option<int>, limit: Option<int>)

  datatype SearchParams = SearchParams(args: map<string, Value>, options: Options)

  const Reserved: set<string> := {"_skip", "_sort", "_limit", "_in", "_nin", "_like"}

  /** The entity fields never reuse a reserved name: those are split off
      first. */
  predicate FieldsUnreserved(a: FindArgs) {
    forall k :: k in a.fields ==> k !in Reserved
  }

  /** The store calls the identifier `_id`; every other name is kept. */
  function FieldName(name: string): (r: string)
    ensures name == "id" ==> r == "_id"
    ensures name != "id" ==> r == name
    ensures r != "id"
  {
    if name == "id" then "_id" else name
  }

  /** Renaming twice is renaming once, and only `id` and `_id` land on
      `_id`. */
  lemma FieldNameProperties(a: string, b: string)
    ensures FieldName(FieldName(a)) == FieldName(a)
    ensures FieldName(a) == FieldName(b) <==> a == b || (a in {"id", "_id"} && b in {"id", "_id"})
  {
  }

  /** The operator value a field ends up with: the last of `_in`, `_nin`,
      `_like` that names it, looked up from the last one backwards. */
  function Decided(a: FindArgs, k: string): Option<Value> {
    if a.likeArg.Some? && FieldName(a.likeArg.value.fieldName) == k then Some(Matching(a.likeArg.value.regExpStr))
    else if a.ninArg.Some? && FieldName(a.ninArg.value.fieldName) == k then Some(NotInValues(a.ninArg.value.values))
    else if a.inArg.Some? && FieldName(a.inArg.value.fieldName) == k then Some(InValues(a.inArg.value.values))
    else None
  }

  /** The fields named by the three operators. */
  function FilteredFields(a: FindArgs): (r: set<string>)
    ensures forall k :: k in r <==> Decided(a, k).Some?
  {
    (if a.inArg.Some? then {FieldName(a.inArg.value.fieldName)} else {})
    + (if a.ninArg.Some? then {FieldName(a.ninArg.value.fieldName)} else {})
    + (if a.likeArg.Some? then {FieldName(a.likeArg.value.fieldName)} else {})
  }

  /** Build the filter: start from the entity fields and let `_in`, `_nin`
      and `_like`, in that order, each set the field it names. */
  method GetArgs(a: FindArgs) returns (rest: map<string, Value>)
    ensures rest.Keys == a.fields.Keys + FilteredFields(a)
    ensures forall k :: k in rest && Decided(a, k).Some? ==> rest[k] == Decided(a, k).value
    ensures forall k :: k in a.fields && Decided(a, k).None? ==> k in rest && rest[k] == a.fields[k]
  {
    rest := a.fields;
    if a.inArg.Some? {
      rest := rest[FieldName(a.inArg.value.fieldName) := InValues(a.inArg.value.values)];
    }
    if a.ninArg.Some? {
      rest := rest[FieldName(a.ninArg.value.fieldName) := NotInValues(a.ninArg.value.values)];
    }
    if a.likeArg.Some? {
      rest := rest[FieldName(a.likeArg.value.fieldName) := Matching(a.likeArg.value.regExpStr)];
    }
  }

  /** Split the query arguments into the filter and the options; a zero
      skip, sort or limit is dropped like a missing one. */
  method GetSearchParams(a: FindArgs) returns (r: SearchParams)
    ensures r.options.skip.Some? <==> a.skip.Some? && a.skip.value != 0
    ensures r.options.sort.Some? <==> a.sort.Some? && a.sort.value != 0
    ensures r.options.limit.Some? <==> a.limit.Some? && a.limit.value != 0
    ensures r.options.skip.Some? ==> r.options.skip == a.skip
    ensures r.options.sort.Some? ==> r.options.sort == a.sort
    ensures r.options.limit.Some? ==> r.options.limit == a.limit
    ensures r.args.Keys == a.fields.Keys + FilteredFields(a)
    ensures forall k :: k in r.args && Decided(a, k).Some? ==> r.args[k] == Decided(a, k).value
    ensures forall k :: k in a.fields && Decided(a, k).None? ==> k in r.args && r.args[k] == a.fields[k]
    ensures FieldsUnreserved(a) ==> forall k :: k in r.args && k in Reserved ==> Decided(a, k).Some?
  {
    var options := Options(None, None, None);
    if a.skip.Some? && a.skip.value != 0 {
      options := options.(skip := a.skip);
    }
    if a.sort.Some? && a.sort.value != 0 {
      options := options.(sort := a.sort);
    }
    if a.limit.Some? && a.limit.value != 0 {
      options := options.(limit := a.limit);
    }
    var args := GetArgs(a);
    r := SearchParams(args, options);
  }

  /** A field's value in the filter is decided by its last operator, so a
      later operator overrides an earlier one and any operator overrides a
      plain value; `id` itself never reaches the filter through an
      operator. */
  lemma LastOperatorWins(a: FindArgs, f: string, values: seq<string>, pattern: string)
    ensures var b := a.(inArg := Some(ListArg(f, values)), likeArg := Some(LikeArg(f, pattern)));
            Decided(b, FieldName(f)) == Some(Matching(pattern))
    ensures var b := a.(inArg := Some(ListArg(f, values)), ninArg := Some(ListArg(f, values)), likeArg := None);
            Decided(b, FieldName(f)) == Some(NotInValues(values))
    ensures Decided(a, "id").None?
  {
  }
}
