/**
 Canonicalising structured audience conditions. A raw value is whatever JSON held under each name;
 `Numeric` stands for what Python's `float` parses.
 */
module AudienceConditions {
  import opened Wrappers
  import opened JsonValues
  import opened Text
  import opened Sorting
  import opened FilterValues
  import opened FilterTheorems

  const EVENT_NAMES := {
    "page_view", "hotel_search", "hotel_click", "hotel_detail_view", "promotion_impression",
    "promotion_click", "campaign_redirect_click", "campaign_landing", "booking_start",
    "booking_complete", "booking_cancel"
  }
  const PROPERTY_KEYS := {
    "deal", "free_cancellation", "breakfast_included", "age_group", "gender", "region",
    "preferred_category", "user_segment", "adult_count", "child_count", "rooms", "hotel_id",
    "hotel_name", "hotel_city", "hotel_country", "hotel_market", "hotel_cluster",
    "hotel_star_rating", "hotel_guest_rating", "price", "property_type", "room_type", "revenue"
  }
  const OPERATORS := { "equals", "in", "contains", "exists", "gte", "lte" }

  const MAX_ITEMS := 8
  const MAX_VALUE := 200
  const MAX_TEXT := 120
  const MAX_COUNT := 10_000

  datatype RawFilter = FilterObject(key: Json, operator: Json, value: Json) | NotAFilter
  datatype RawList<T> = List(items: seq<T>) | NotAList

  /** An absent list of months or filters reads as an empty one. */
  datatype RawCondition =
    | ConditionObject(eventName: Json, caption: Json, minimum: Json, maximum: Json, destination: Json,
                      months: RawList<Json>, filters: RawList<RawFilter>)
    | NotACondition

  datatype Filter = Filter(key: string, operator: string, value: string)
  datatype Condition = Condition(title: string, event: string, minimum: int, maximum: Option<int>,
                                 destination: Option<string>, months: seq<int>, filters: seq<Filter>)

  datatype Reason =
    | WrongItemCount | NotAnObject | UnsupportedEvent | InvalidLabel | InvalidMinimum | InvalidMaximum
    | InvalidDestination | InvalidMonths | InvalidFilters | InvalidFilter | UnsupportedProperty
    | UnsupportedOperator | InvalidValue | NotNumeric | TooFewAlternatives

  /** The registered names, and what is left to Python: case folding and number parsing. */
  datatype Env = Env(fold: Folding, numeric: string -> bool, events: set<string>, properties: set<string>)

  function Registered(fold: Folding, numeric: string -> bool): Env {
    Env(fold, numeric, EVENT_NAMES, PROPERTY_KEYS)
  }

  // ---------------------------------------------------------------------------
  // Filters
  // ---------------------------------------------------------------------------

  predicate TextWithin(j: Json, limit: nat) {
    j.Str? && 1 <= |Strip(j.text)| <= limit
  }

  function CanonicalFilter(raw: RawFilter, env: Env): Outcome<Filter, Reason> {
    match raw
    case NotAFilter => Raised(InvalidFilter)
    case FilterObject(key, operator, value) =>
      if !(key.Str? && key.text in env.properties) then Raised(UnsupportedProperty)
      else if !(operator.Str? && operator.text in OPERATORS) then Raised(UnsupportedOperator)
      else if !TextWithin(value, MAX_VALUE) then Raised(InvalidValue)
      else
        var canonical := Strip(value.text);
        if operator.text in {"gte", "lte"} && !env.numeric(canonical) then Raised(NotNumeric)
        else if operator.text == "in" then
          var alternatives := Alternatives(canonical, env.fold);
          if |alternatives| < 2 then Raised(TooFewAlternatives)
          else Done(Filter(key.text, operator.text, Join(alternatives)))
        else Done(Filter(key.text, operator.text, canonical))
  }

  function CanonicalFiltersBelow(items: seq<RawFilter>, env: Env): Outcome<seq<Filter>, Reason> {
    if items == [] then Done([])
    else
      match CanonicalFiltersBelow(items[..|items| - 1], env)
      case Raised(e) => Raised(e)
      case Done(before) =>
        match CanonicalFilter(items[|items| - 1], env)
        case Raised(e) => Raised(e)
        case Done(filter) => Done(before + [filter])
  }

  function CanonicalFilters(raw: RawList<RawFilter>, env: Env): Outcome<seq<Filter>, Reason> {
    if raw.NotAList? || |raw.items| > MAX_ITEMS then Raised(InvalidFilters)
    else CanonicalFiltersBelow(raw.items, env)
  }

  /** `_canonical_custom_property_filters`. */
  method CanonicalCustomPropertyFilters(raw: RawList<RawFilter>, env: Env)
    returns (r: Outcome<seq<Filter>, Reason>)
    ensures r == CanonicalFilters(raw, env)
  {
    if raw.NotAList? || |raw.items| > MAX_ITEMS {
      return Raised(InvalidFilters);
    }
    var filters: seq<Filter> := [];
    for i := 0 to |raw.items|
      invariant CanonicalFiltersBelow(raw.items[..i], env) == Done(filters)
    {
      var filter := CanonicalFilter(raw.items[i], env);
      NextFilter(raw.items, env, i, filters, filter);
      if filter.Raised? {
        return Raised(filter.error);
      }
      filters := filters + [filter.value];
    }
    assert raw.items[..|raw.items|] == raw.items;
    r := Done(filters);
  }

  lemma NextFilter(items: seq<RawFilter>, env: Env, i: nat, before: seq<Filter>, r: Outcome<Filter, Reason>)
    requires i < |items| && CanonicalFiltersBelow(items[..i], env) == Done(before)
    requires r == CanonicalFilter(items[i], env)
    ensures r.Raised? ==> CanonicalFiltersBelow(items, env) == Raised(r.error)
    ensures r.Done? ==> CanonicalFiltersBelow(items[..i + 1], env) == Done(before + [r.value])
  {
    assert items[..i + 1][..i] == items[..i];
    if r.Raised? {
      FilterRefused(items, env, i + 1);
    }
  }

  lemma {:induction false} FilterRefused(items: seq<RawFilter>, env: Env, n: nat)
    requires n <= |items| && CanonicalFiltersBelow(items[..n], env).Raised?
    ensures CanonicalFiltersBelow(items, env) == CanonicalFiltersBelow(items[..n], env)
    decreases |items|
  {
    if n == |items| {
      assert items[..n] == items;
    } else {
      assert items[..|items| - 1][..n] == items[..n];
      FilterRefused(items[..|items| - 1], env, n);
    }
  }

  // ---------------------------------------------------------------------------
  // Months
  // ---------------------------------------------------------------------------

  function Wholes(items: seq<Json>): seq<int>
    requires forall i :: 0 <= i < |items| ==> items[i].Int?
  {
    seq(|items|, i requires 0 <= i < |items| => items[i].whole)
  }

  /** `sorted(set(months))`. */
  function SortedMonths(months: seq<Json>): (r: seq<int>)
    requires forall i :: 0 <= i < |months| ==> months[i].Int?
    ensures Increasing(r)
    ensures forall x :: x in r <==> Int(x) in months
  {
    assert forall i :: 0 <= i < |months| ==> months[i] == Int(Wholes(months)[i]);
    SortDistinct(Wholes(months))
  }

  predicate MonthsValid(raw: RawList<Json>) {
    && raw.List? && |raw.items| <= 12
    && forall i :: 0 <= i < |raw.items| ==> raw.items[i].Int? && 1 <= raw.items[i].whole <= 12
  }

  // ---------------------------------------------------------------------------
  // Conditions
  // ---------------------------------------------------------------------------

  predicate CountWithin(j: Json, least: int) {
    j.Int? && least <= j.whole <= MAX_COUNT
  }

  function CanonicalCondition(raw: RawCondition, env: Env): Outcome<Condition, Reason> {
    match raw
    case NotACondition => Raised(NotAnObject)
    case ConditionObject(event, name, minimum, maximum, destination, months, filters) =>
      if !(event.Str? && event.text in env.events) then Raised(UnsupportedEvent)
      else if !TextWithin(name, MAX_TEXT) then Raised(InvalidLabel)
      else if !CountWithin(minimum, 0) then Raised(InvalidMinimum)
      else if maximum != Null && !CountWithin(maximum, minimum.whole) then Raised(InvalidMaximum)
      else if destination != Null && !TextWithin(destination, MAX_TEXT) then Raised(InvalidDestination)
      else if !MonthsValid(months) then Raised(InvalidMonths)
      else
        match CanonicalFilters(filters, env)
        case Raised(e) => Raised(e)
        case Done(canonical) =>
          Done(Condition(Strip(name.text), event.text, minimum.whole,
                         if maximum.Null? then None else Some(maximum.whole),
                         if destination.Null? then None else Some(Strip(destination.text)),
                         SortedMonths(months.items), canonical))
  }

  function CanonicalConditionsBelow(items: seq<RawCondition>, env: Env): Outcome<seq<Condition>, Reason> {
    if items == [] then Done([])
    else
      match CanonicalConditionsBelow(items[..|items| - 1], env)
      case Raised(e) => Raised(e)
      case Done(before) =>
        match CanonicalCondition(items[|items| - 1], env)
        case Raised(e) => Raised(e)
        case Done(condition) => Done(before + [condition])
  }

  function CanonicalConditions(raw: RawList<RawCondition>, allowEmpty: bool, env: Env)
    : Outcome<seq<Condition>, Reason>
  {
    if raw.NotAList? || |raw.items| > MAX_ITEMS || (raw.items == [] && !allowEmpty) then Raised(WrongItemCount)
    else CanonicalConditionsBelow(raw.items, env)
  }

  /** `_canonical_custom_conditions`. */
  method CanonicalCustomConditions(raw: RawList<RawCondition>, allowEmpty: bool, env: Env)
    returns (r: Outcome<seq<Condition>, Reason>)
    ensures r == CanonicalConditions(raw, allowEmpty, env)
  {
    var minimumItems := if allowEmpty then 0 else 1;
    if raw.NotAList? || !(minimumItems <= |raw.items| <= MAX_ITEMS) {
      return Raised(WrongItemCount);
    }
    r := CollectConditions(raw.items, env);
  }

  /** The loop over conditions. */
  method CollectConditions(items: seq<RawCondition>, env: Env) returns (r: Outcome<seq<Condition>, Reason>)
    ensures r == CanonicalConditionsBelow(items, env)
  {
    var conditions: seq<Condition> := [];
    for i := 0 to |items|
      invariant CanonicalConditionsBelow(items[..i], env) == Done(conditions)
    {
      var condition := CanonicalCustomCondition(items[i], env);
      NextCondition(items, env, i, conditions, condition);
      if condition.Raised? {
        return Raised(condition.error);
      }
      conditions := conditions + [condition.value];
    }
    assert items[..|items|] == items;
    r := Done(conditions);
  }

  lemma NextCondition(items: seq<RawCondition>, env: Env, i: nat, before: seq<Condition>,
                      r: Outcome<Condition, Reason>)
    requires i < |items| && CanonicalConditionsBelow(items[..i], env) == Done(before)
    requires r == CanonicalCondition(items[i], env)
    ensures r.Raised? ==> CanonicalConditionsBelow(items, env) == Raised(r.error)
    ensures r.Done? ==> CanonicalConditionsBelow(items[..i + 1], env) == Done(before + [r.value])
  {
    assert items[..i + 1][..i] == items[..i];
    if r.Raised? {
      ConditionRefused(items, env, i + 1);
    }
  }

  /** The body of the loop over conditions. */
  method CanonicalCustomCondition(raw: RawCondition, env: Env) returns (r: Outcome<Condition, Reason>)
    ensures r == CanonicalCondition(raw, env)
  {
    if raw.NotACondition? {
      return Raised(NotAnObject);
    }
    if !(raw.eventName.Str? && raw.eventName.text in env.events) {
      return Raised(UnsupportedEvent);
    }
    if !TextWithin(raw.caption, MAX_TEXT) {
      return Raised(InvalidLabel);
    }
    if !CountWithin(raw.minimum, 0) {
      return Raised(InvalidMinimum);
    }
    if raw.maximum != Null && !CountWithin(raw.maximum, raw.minimum.whole) {
      return Raised(InvalidMaximum);
    }
    if raw.destination != Null && !TextWithin(raw.destination, MAX_TEXT) {
      return Raised(InvalidDestination);
    }
    if !MonthsValid(raw.months) {
      return Raised(InvalidMonths);
    }
    var filters := CanonicalCustomPropertyFilters(raw.filters, env);
    if filters.Raised? {
      return Raised(filters.error);
    }
    r := Done(Condition(Strip(raw.caption.text), raw.eventName.text, raw.minimum.whole,
                        if raw.maximum.Null? then None else Some(raw.maximum.whole),
                        if raw.destination.Null? then None else Some(Strip(raw.destination.text)),
                        SortedMonths(raw.months.items), filters.value));
  }

  lemma {:induction false} ConditionRefused(items: seq<RawCondition>, env: Env, n: nat)
    requires n <= |items| && CanonicalConditionsBelow(items[..n], env).Raised?
    ensures CanonicalConditionsBelow(items, env) == CanonicalConditionsBelow(items[..n], env)
    decreases |items|
  {
    if n == |items| {
      assert items[..n] == items;
    } else {
      assert items[..|items| - 1][..n] == items[..n];
      ConditionRefused(items[..|items| - 1], env, n);
    }
  }

  // ---------------------------------------------------------------------------
  // Offering a canonical value again
  // ---------------------------------------------------------------------------

  function FilterAsRaw(f: Filter): RawFilter {
    FilterObject(Str(f.key), Str(f.operator), Str(f.value))
  }

  function FiltersAsRaw(filters: seq<Filter>): seq<RawFilter> {
    seq(|filters|, i requires 0 <= i < |filters| => FilterAsRaw(filters[i]))
  }

  function MonthsAsRaw(months: seq<int>): seq<Json> {
    seq(|months|, i requires 0 <= i < |months| => Int(months[i]))
  }

  function AsRaw(c: Condition): RawCondition {
    ConditionObject(Str(c.event), Str(c.title), Int(c.minimum),
                    if c.maximum.Some? then Int(c.maximum.value) else Null,
                    if c.destination.Some? then Str(c.destination.value) else Null,
                    List(MonthsAsRaw(c.months)), List(FiltersAsRaw(c.filters)))
  }

  function AllAsRaw(conditions: seq<Condition>): seq<RawCondition> {
    seq(|conditions|, i requires 0 <= i < |conditions| => AsRaw(conditions[i]))
  }

  predicate FilterFits(f: Filter) {
    |f.value| <= MAX_VALUE
  }

  predicate ConditionFits(c: Condition) {
    forall i :: 0 <= i < |c.filters| ==> FilterFits(c.filters[i])
  }

  /** A canonical filter is its own canonical form, or too long for the length check. */
  lemma FilterComesBack(raw: RawFilter, env: Env)
    requires Folds(env.fold) && CanonicalFilter(raw, env).Done?
    ensures var f := CanonicalFilter(raw, env).value;
            (CanonicalFilter(FilterAsRaw(f), env)
             == if FilterFits(f) then Done(f) else Raised(InvalidValue))
  {
    var f := CanonicalFilter(raw, env).value;
    SettledValue(raw, env, f);
    SettledFilterStays(f, env);
  }

  /** What is true of every canonical filter value. */
  ghost predicate ValueSettled(f: Filter, env: Env) {
    && f.key in env.properties && f.operator in OPERATORS
    && f.value != "" && Strip(f.value) == f.value
    && (f.operator in {"gte", "lte"} ==> env.numeric(f.value))
    && (f.operator == "in" ==>
          && |Alternatives(f.value, env.fold)| >= 2
          && Join(Alternatives(f.value, env.fold)) == f.value)
  }

  lemma SettledValue(raw: RawFilter, env: Env, f: Filter)
    requires Folds(env.fold) && CanonicalFilter(raw, env) == Done(f)
    ensures ValueSettled(f, env)
  {
    var canonical := Strip(raw.value.text);
    StripTwice(raw.value.text);
    if raw.operator.text == "in" {
      AlternativesComeBack(canonical, env.fold);
    }
  }

  lemma SettledFilterStays(f: Filter, env: Env)
    requires ValueSettled(f, env)
    ensures CanonicalFilter(FilterAsRaw(f), env) == if FilterFits(f) then Done(f) else Raised(InvalidValue)
  {
  }

  /** Only `in` filters can be too long, and none is when folding keeps lengths. */
  lemma FilterAlwaysFits(raw: RawFilter, env: Env)
    requires Folds(env.fold) && CanonicalFilter(raw, env).Done?
    ensures raw.operator.text != "in" || LengthPreserving(env.fold) ==> FilterFits(CanonicalFilter(raw, env).value)
  {
    if raw.operator.text == "in" && LengthPreserving(env.fold) {
      CanonicalIsNoLonger(Strip(raw.value.text), env.fold);
    }
  }

  lemma {:induction false} FiltersComeBack(items: seq<RawFilter>, env: Env)
    requires Folds(env.fold) && CanonicalFiltersBelow(items, env).Done?
    ensures var fs := CanonicalFiltersBelow(items, env).value;
            && |fs| == |items|
            && (CanonicalFiltersBelow(FiltersAsRaw(fs), env)
                == if forall i :: 0 <= i < |fs| ==> FilterFits(fs[i]) then Done(fs) else Raised(InvalidValue))
    ensures LengthPreserving(env.fold) ==>
              forall i :: 0 <= i < |items| ==> FilterFits(CanonicalFiltersBelow(items, env).value[i])
  {
    if items != [] {
      var front, last := items[..|items| - 1], items[|items| - 1];
      FiltersComeBack(front, env);
      FilterComesBack(last, env);
      FilterAlwaysFits(last, env);
      FiltersComeBackStep(CanonicalFiltersBelow(front, env).value, CanonicalFilter(last, env).value, env);
    }
  }

  lemma FiltersComeBackStep(before: seq<Filter>, f: Filter, env: Env)
    requires (CanonicalFiltersBelow(FiltersAsRaw(before), env)
              == if forall i :: 0 <= i < |before| ==> FilterFits(before[i]) then Done(before) else Raised(InvalidValue))
    requires (CanonicalFilter(FilterAsRaw(f), env)
              == if FilterFits(f) then Done(f) else Raised(InvalidValue))
    ensures var fs := before + [f];
            (CanonicalFiltersBelow(FiltersAsRaw(fs), env)
             == if forall i :: 0 <= i < |fs| ==> FilterFits(fs[i]) then Done(fs) else Raised(InvalidValue))
  {
    var fs := before + [f];
    var raws := FiltersAsRaw(fs);
    assert raws[..|raws| - 1] == FiltersAsRaw(before);
    assert raws[|raws| - 1] == FilterAsRaw(f);
    assert fs[|before|] == f && forall i :: 0 <= i < |before| ==> fs[i] == before[i];
  }

  lemma IncreasingMonthsStay(months: seq<int>)
    requires Increasing(months)
    ensures SortedMonths(MonthsAsRaw(months)) == months
  {
    assert Wholes(MonthsAsRaw(months)) == months;
    IncreasingStays(months);
  }

  lemma MonthsStayValid(raw: RawList<Json>)
    requires MonthsValid(raw)
    ensures MonthsValid(List(MonthsAsRaw(SortedMonths(raw.items))))
  {
    var months := SortedMonths(raw.items);
    forall i | 0 <= i < |months| ensures 1 <= months[i] <= 12 {
      assert months[i] in months;
      assert Int(months[i]) in raw.items;
    }
    AtMostTwelve(months, 12);
  }

  lemma {:induction false} AtMostTwelve(months: seq<int>, top: nat)
    requires Increasing(months) && forall i :: 0 <= i < |months| ==> 1 <= months[i] <= top
    ensures |months| <= top
  {
    if months != [] {
      AtMostTwelve(months[..|months| - 1], months[|months| - 1] - 1);
    }
  }

  lemma TextStays(j: Json, limit: nat)
    requires TextWithin(j, limit)
    ensures TextWithin(Str(Strip(j.text)), limit) && Strip(Strip(j.text)) == Strip(j.text)
  {
    StripTwice(j.text);
  }

  lemma FilterListComesBack(raw: RawList<RawFilter>, env: Env)
    requires Folds(env.fold) && CanonicalFilters(raw, env).Done?
    ensures var fs := CanonicalFilters(raw, env).value;
            && (CanonicalFilters(List(FiltersAsRaw(fs)), env)
                == if forall i :: 0 <= i < |fs| ==> FilterFits(fs[i]) then Done(fs) else Raised(InvalidValue))
            && (LengthPreserving(env.fold) ==> forall i :: 0 <= i < |fs| ==> FilterFits(fs[i]))
  {
    FiltersComeBack(raw.items, env);
  }

  /** The checks before the filters, in the order in which they are made. */
  predicate HeadValid(raw: RawCondition, env: Env) {
    && raw.ConditionObject?
    && raw.eventName.Str? && raw.eventName.text in env.events
    && TextWithin(raw.caption, MAX_TEXT)
    && CountWithin(raw.minimum, 0)
    && (raw.maximum == Null || CountWithin(raw.maximum, raw.minimum.whole))
    && (raw.destination == Null || TextWithin(raw.destination, MAX_TEXT))
    && MonthsValid(raw.months)
  }

  lemma AcceptedHeadIsValid(raw: RawCondition, env: Env)
    requires CanonicalCondition(raw, env).Done?
    ensures HeadValid(raw, env) && CanonicalFilters(raw.filters, env).Done?
    ensures CanonicalCondition(raw, env).value.filters == CanonicalFilters(raw.filters, env).value
  {
  }

  lemma HeadStaysValid(raw: RawCondition, env: Env)
    requires CanonicalCondition(raw, env).Done?
    ensures HeadValid(AsRaw(CanonicalCondition(raw, env).value), env)
    ensures var months := CanonicalCondition(raw, env).value.months;
            SortedMonths(MonthsAsRaw(months)) == months
  {
    AcceptedHeadIsValid(raw, env);
    TextStays(raw.caption, MAX_TEXT);
    if raw.destination.Str? {
      TextStays(raw.destination, MAX_TEXT);
    }
    MonthsStayValid(raw.months);
    IncreasingMonthsStay(SortedMonths(raw.months.items));
  }

  lemma TextsStay(raw: RawCondition, env: Env)
    requires CanonicalCondition(raw, env).Done?
    ensures var c := CanonicalCondition(raw, env).value;
            && Strip(c.title) == c.title
            && (c.destination.Some? ==> Strip(c.destination.value) == c.destination.value)
  {
    AcceptedHeadIsValid(raw, env);
    TextStays(raw.caption, MAX_TEXT);
    if raw.destination.Str? {
      TextStays(raw.destination, MAX_TEXT);
    }
  }

  /** A canonical condition with a valid head comes back as its filters do. */
  lemma HeadComesBack(c: Condition, env: Env)
    requires HeadValid(AsRaw(c), env) && Strip(c.title) == c.title
    requires c.destination.Some? ==> Strip(c.destination.value) == c.destination.value
    requires SortedMonths(MonthsAsRaw(c.months)) == c.months
    ensures (CanonicalCondition(AsRaw(c), env)
             == match CanonicalFilters(List(FiltersAsRaw(c.filters)), env)
                case Raised(e) => Raised(e)
                case Done(filters) => Done(c.(filters := filters)))
  {
  }

  lemma ConditionComesBack(raw: RawCondition, env: Env)
    requires Folds(env.fold) && CanonicalCondition(raw, env).Done?
    ensures var c := CanonicalCondition(raw, env).value;
            (CanonicalCondition(AsRaw(c), env)
             == if ConditionFits(c) then Done(c) else Raised(InvalidValue))
    ensures LengthPreserving(env.fold) ==> ConditionFits(CanonicalCondition(raw, env).value)
  {
    var c := CanonicalCondition(raw, env).value;
    AcceptedHeadIsValid(raw, env);
    FilterListComesBack(raw.filters, env);
    HeadStaysValid(raw, env);
    TextsStay(raw, env);
    HeadComesBack(c, env);
  }

  lemma {:induction false} ConditionsComeBack(items: seq<RawCondition>, env: Env)
    requires Folds(env.fold) && CanonicalConditionsBelow(items, env).Done?
    ensures var cs := CanonicalConditionsBelow(items, env).value;
            && |cs| == |items|
            && (CanonicalConditionsBelow(AllAsRaw(cs), env)
                == if forall i :: 0 <= i < |cs| ==> ConditionFits(cs[i]) then Done(cs) else Raised(InvalidValue))
    ensures LengthPreserving(env.fold) ==>
              forall i :: 0 <= i < |items| ==> ConditionFits(CanonicalConditionsBelow(items, env).value[i])
  {
    if items != [] {
      var front, last := items[..|items| - 1], items[|items| - 1];
      ConditionsComeBack(front, env);
      ConditionComesBack(last, env);
      ConditionsComeBackStep(CanonicalConditionsBelow(front, env).value, CanonicalCondition(last, env).value, env);
    }
  }

  lemma ConditionsComeBackStep(before: seq<Condition>, c: Condition, env: Env)
    requires (CanonicalConditionsBelow(AllAsRaw(before), env)
              == if forall i :: 0 <= i < |before| ==> ConditionFits(before[i]) then Done(before)
                 else Raised(InvalidValue))
    requires (CanonicalCondition(AsRaw(c), env)
              == if ConditionFits(c) then Done(c) else Raised(InvalidValue))
    ensures var cs := before + [c];
            (CanonicalConditionsBelow(AllAsRaw(cs), env)
             == if forall i :: 0 <= i < |cs| ==> ConditionFits(cs[i]) then Done(cs) else Raised(InvalidValue))
  {
    var cs := before + [c];
    var raws := AllAsRaw(cs);
    assert raws[..|raws| - 1] == AllAsRaw(before);
    assert raws[|raws| - 1] == AsRaw(c);
    assert cs[|before|] == c && forall i :: 0 <= i < |before| ==> cs[i] == before[i];
  }

  /**
   Every accepted list of conditions, offered again in its canonical form, is accepted and returned
   unchanged exactly when no canonical filter value exceeds the length limit.
   */
  lemma CanonicalIsAFixedPointIff(raw: RawList<RawCondition>, allowEmpty: bool, env: Env)
    requires Folds(env.fold) && CanonicalConditions(raw, allowEmpty, env).Done?
    ensures var cs := CanonicalConditions(raw, allowEmpty, env).value;
            (CanonicalConditions(List(AllAsRaw(cs)), allowEmpty, env)
             == if forall i :: 0 <= i < |cs| ==> ConditionFits(cs[i]) then Done(cs) else Raised(InvalidValue))
  {
    ConditionsComeBack(raw.items, env);
  }

  /** With a folding that keeps lengths, canonicalising is idempotent without exception. */
  lemma CanonicalisingIsIdempotent(raw: RawList<RawCondition>, allowEmpty: bool, env: Env)
    requires Folds(env.fold) && LengthPreserving(env.fold)
    requires CanonicalConditions(raw, allowEmpty, env).Done?
    ensures var cs := CanonicalConditions(raw, allowEmpty, env).value;
            CanonicalConditions(List(AllAsRaw(cs)), allowEmpty, env) == Done(cs)
  {
    ConditionsComeBack(raw.items, env);
  }

  // ---------------------------------------------------------------------------
  // A value that grows
  // ---------------------------------------------------------------------------

  const SHARP_S := '\U{00DF}'

  function Repeat(c: char, n: nat): (s: string)
    ensures |s| == n && forall i :: 0 <= i < n ==> s[i] == c
  {
    if n == 0 then "" else Repeat(c, n - 1) + [c]
  }

  lemma {:induction false} FoldedSharps(fold: Folding, n: nat)
    requires fold(SHARP_S) == "ss"
    ensures FoldText(Repeat(SHARP_S, n), fold) == Repeat('s', 2 * n)
  {
    if n > 0 {
      FoldedSharps(fold, n - 1);
      assert Repeat(SHARP_S, n)[..n - 1] == Repeat(SHARP_S, n - 1);
      assert Repeat('s', 2 * n) == Repeat('s', 2 * n - 2) + ['s'] + ['s'];
    }
  }

  lemma SharpParts(n: nat)
    requires n > 0
    ensures Split(Normalized(Repeat(SHARP_S, n) + "," + "a")) == [Repeat(SHARP_S, n), "a"]
  {
    var run := Repeat(SHARP_S, n);
    assert forall c :: c in run + "," + "a" ==> c == SHARP_S || c == ',' || c == 'a';
    PlainIsNormalized(run + "," + "a");
    SplitAtComma(run, "a");
    SplitWhole("a");
  }

  lemma SharpItems(fold: Folding, n: nat)
    requires fold(SHARP_S) == "ss" && fold('a') == "a" && n > 0
    ensures Items([Repeat(SHARP_S, n), "a"], fold) == [Repeat('s', 2 * n), "a"]
  {
    StripFixed(Repeat(SHARP_S, n));
    StripFixed("a");
    FoldedSharps(fold, n);
    assert FoldText("a", fold) == "a" by {
      assert "a"[..0] == "";
    }
    var parts := [Repeat(SHARP_S, n), "a"];
    assert parts[1..] == ["a"] && ["a"][1..] == [];
    assert Items(["a"], fold) == ["a"];
  }

  /** The alternatives of a run of sharp s and one other letter. */
  lemma SharpAlternatives(fold: Folding, n: nat)
    requires Folds(fold) && fold(SHARP_S) == "ss" && fold('a') == "a" && n > 0
    ensures Alternatives(Repeat(SHARP_S, n) + "," + "a", fold) == ["a", Repeat('s', 2 * n)]
  {
    SharpParts(n);
    SharpItems(fold, n);
    TwoSorted(Repeat('s', 2 * n));
  }

  lemma TwoSorted(long: string)
    requires long != "" && long[0] == 's'
    ensures SortOnce([long, "a"]) == ["a", long]
  {
    assert Less("a", long) && !Less(long, "a") && long != "a";
    assert [long, "a"][..1] == [long] && [long][..0] == [];
    assert SortOnce([long]) == [long];
    assert InsertOnce([], "a") == ["a"];
  }

  lemma RunIsWithin(n: nat)
    requires 0 < n <= 198
    ensures TextWithin(Str(Repeat(SHARP_S, n) + "," + "a"), MAX_VALUE)
    ensures Strip(Repeat(SHARP_S, n) + "," + "a") == Repeat(SHARP_S, n) + "," + "a"
  {
    StripFixed(Repeat(SHARP_S, n) + "," + "a");
  }

  /**
   Full case folding writes sharp s as two letters, so a run of n of them and one more alternative,
   accepted at n + 2 characters, becomes one of 2n + 2 and is refused when it is offered again.
   */
  lemma GrowingValueIsRefused(env: Env, key: string, n: nat)
    requires Folds(env.fold) && env.fold(SHARP_S) == "ss" && env.fold('a') == "a"
    requires key in env.properties && 100 <= n <= 198
    ensures var raw := FilterObject(Str(key), Str("in"), Str(Repeat(SHARP_S, n) + "," + "a"));
            && CanonicalFilter(raw, env).Done?
            && CanonicalFilter(FilterAsRaw(CanonicalFilter(raw, env).value), env) == Raised(InvalidValue)
  {
    var value := Repeat(SHARP_S, n) + "," + "a";
    RunIsWithin(n);
    SharpAlternatives(env.fold, n);
    var raw := FilterObject(Str(key), Str("in"), Str(value));
    var alternatives := ["a", Repeat('s', 2 * n)];
    TwoJoined("a", Repeat('s', 2 * n));
    InFilterAccepted(raw, env, value, alternatives);
    FilterComesBack(raw, env);
  }

  lemma TwoJoined(a: string, b: string)
    ensures |Join([a, b])| == |a| + |b| + 1
  {
    assert [a, b][1..] == [b];
  }

  lemma InFilterAccepted(raw: RawFilter, env: Env, value: string, alternatives: seq<string>)
    requires raw.FilterObject? && raw.key.Str? && raw.key.text in env.properties
    requires raw.operator == Str("in") && raw.value == Str(value)
    requires TextWithin(Str(value), MAX_VALUE) && Strip(value) == value
    requires Alternatives(value, env.fold) == alternatives && |alternatives| == 2
    ensures CanonicalFilter(raw, env) == Done(Filter(raw.key.text, "in", Join(alternatives)))
  {
  }

  /** One of the registered properties is affected, whatever else Python's folding and parsing do. */
  lemma RegisteredValueIsRefused(fold: Folding, numeric: string -> bool, n: nat)
    requires Folds(fold) && fold(SHARP_S) == "ss" && fold('a') == "a" && 100 <= n <= 198
    ensures var env := Registered(fold, numeric);
            var raw := FilterObject(Str("region"), Str("in"), Str(Repeat(SHARP_S, n) + "," + "a"));
            && CanonicalFilter(raw, env).Done?
            && CanonicalFilter(FilterAsRaw(CanonicalFilter(raw, env).value), env) == Raised(InvalidValue)
  {
    var env := Registered(fold, numeric);
    assert "region" in env.properties;
    GrowingValueIsRefused(env, "region", n);
  }
}
