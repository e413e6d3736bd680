/** What is accepted as a structured condition and what it becomes, in the columns of the raw values. */
module ConditionMeaning {
  import opened Wrappers
  import opened JsonValues
  import opened Text
  import opened Sorting
  import opened FilterValues
  import opened FilterMeaning
  import opened AudienceConditions

  /** Text that is between one and `most` characters long once it is trimmed to `v`. */
  ghost predicate TextOf(j: Json, most: nat, v: string) {
    j.Str? && Trims(j.text, v) && 1 <= |v| <= most
  }

  ghost predicate HasText(j: Json, most: nat) {
    exists v :: TextOf(j, most, v)
  }

  lemma TextIs(j: Json, most: nat, v: string)
    ensures TextOf(j, most, v) <==> TextWithin(j, most) && v == Strip(j.text)
  {
    if j.Str? {
      StripIff(j.text, v);
    }
  }

  lemma HasTextIff(j: Json, most: nat)
    ensures HasText(j, most) <==> TextWithin(j, most)
  {
    if TextWithin(j, most) {
      TextIs(j, most, Strip(j.text));
    }
    if v :| TextOf(j, most, v) {
      TextIs(j, most, v);
    }
  }

  // ---------------------------------------------------------------------------
  // Filters
  // ---------------------------------------------------------------------------

  /** The first of these that holds refuses the filter. */
  ghost function FilterRefusal(raw: RawFilter, env: Env): Option<Reason> {
    if raw.NotAFilter? then Some(InvalidFilter)
    else if !raw.key.Str? || raw.key.text !in env.properties then Some(UnsupportedProperty)
    else if !raw.operator.Str?
            || raw.operator.text !in {"equals", "in", "contains", "exists", "gte", "lte"} then
      Some(UnsupportedOperator)
    else if !HasText(raw.value, 200) then Some(InvalidValue)
    else if raw.operator.text in {"gte", "lte"}
            && exists v :: TextOf(raw.value, 200, v) && !env.numeric(v) then
      Some(NotNumeric)
    else if raw.operator.text == "in"
            && exists v :: TextOf(raw.value, 200, v) && |Alternatives(v, env.fold)| < 2 then
      Some(TooFewAlternatives)
    else None
  }

  /** The filter keeps its key and operator; its value is trimmed, or the joined alternatives. */
  ghost predicate FilterIs(raw: RawFilter, env: Env, f: Filter) {
    && raw.FilterObject? && raw.key == Str(f.key) && raw.operator == Str(f.operator)
    && exists v :: TextOf(raw.value, 200, v)
         && f.value == (if f.operator == "in" then Join(Alternatives(v, env.fold)) else v)
  }

  lemma FilterOutcome(raw: RawFilter, env: Env)
    ensures match CanonicalFilter(raw, env)
            case Raised(reason) => FilterRefusal(raw, env) == Some(reason)
            case Done(f) => FilterRefusal(raw, env).None? && FilterIs(raw, env, f)
  {
    if raw.FilterObject? {
      HasTextIff(raw.value, 200);
      forall v
        ensures TextOf(raw.value, 200, v) <==> TextWithin(raw.value, 200) && v == Strip(raw.value.text)
      {
        TextIs(raw.value, 200, v);
      }
    }
  }

  // ---------------------------------------------------------------------------
  // Conditions
  // ---------------------------------------------------------------------------

  predicate CountFrom(j: Json, least: int) {
    j.Int? && least <= j.whole <= 10_000
  }

  /** At most twelve months, each a whole number from one to twelve. */
  predicate MonthsInOrder(months: RawList<Json>) {
    && months.List? && |months.items| <= 12
    && forall m :: m in months.items ==> m.Int? && 1 <= m.whole <= 12
  }

  /** The first of these that holds refuses the condition, before its filters are looked at. */
  ghost function ConditionRefusal(raw: RawCondition, env: Env): Option<Reason> {
    if raw.NotACondition? then Some(NotAnObject)
    else if !raw.eventName.Str? || raw.eventName.text !in env.events then Some(UnsupportedEvent)
    else if !HasText(raw.caption, 120) then Some(InvalidLabel)
    else if !CountFrom(raw.minimum, 0) then Some(InvalidMinimum)
    else if raw.maximum != Null && !CountFrom(raw.maximum, raw.minimum.whole) then
      Some(InvalidMaximum)
    else if raw.destination != Null && !HasText(raw.destination, 120) then Some(InvalidDestination)
    else if !MonthsInOrder(raw.months) then Some(InvalidMonths)
    else if raw.filters.NotAList? || |raw.filters.items| > 8 then Some(InvalidFilters)
    else None
  }

  /** Each filter is accepted, in its place. */
  ghost predicate AllFilters(items: seq<RawFilter>, env: Env, filters: seq<Filter>) {
    if items == [] then filters == []
    else
      && filters != [] && AllFilters(items[..|items| - 1], env, filters[..|filters| - 1])
      && AcceptedAs(items[|items| - 1], env, filters[|filters| - 1])
  }

  ghost predicate AcceptedAs(raw: RawFilter, env: Env, f: Filter) {
    FilterRefusal(raw, env).None? && FilterIs(raw, env, f)
  }

  /** A filter is refused for the reason after all before it were accepted. */
  ghost predicate FirstRefused(items: seq<RawFilter>, env: Env, reason: Reason) {
    items != [] &&
    var front := items[..|items| - 1];
    || FirstRefused(front, env, reason)
    || ((exists filters :: AllFilters(front, env, filters)) && RefusedFor(items[|items| - 1], env, reason))
  }

  ghost predicate RefusedFor(raw: RawFilter, env: Env, reason: Reason) {
    FilterRefusal(raw, env) == Some(reason)
  }

  lemma OneFilter(raw: RawFilter, env: Env, r: Outcome<Filter, Reason>)
    requires r == CanonicalFilter(raw, env)
    ensures match r case Raised(reason) => RefusedFor(raw, env, reason) case Done(f) => AcceptedAs(raw, env, f)
  {
    FilterOutcome(raw, env);
  }

  lemma {:induction false} FiltersOutcome(items: seq<RawFilter>, env: Env)
    ensures match CanonicalFiltersBelow(items, env)
            case Raised(reason) => FirstRefused(items, env, reason)
            case Done(filters) => AllFilters(items, env, filters)
  {
    if items != [] {
      var front, last := items[..|items| - 1], CanonicalFilter(items[|items| - 1], env);
      FiltersOutcome(front, env);
      OneFilter(items[|items| - 1], env, last);
      OneFilterMore(items, env, CanonicalFiltersBelow(front, env), last);
    }
  }

  lemma OneFilterMore(items: seq<RawFilter>, env: Env, before: Outcome<seq<Filter>, Reason>,
                      last: Outcome<Filter, Reason>)
    requires items != []
    requires before.Raised? ==> FirstRefused(items[..|items| - 1], env, before.error)
    requires before.Done? ==> AllFilters(items[..|items| - 1], env, before.value)
    requires last.Raised? ==> RefusedFor(items[|items| - 1], env, last.error)
    requires last.Done? ==> AcceptedAs(items[|items| - 1], env, last.value)
    ensures before.Raised? ==> FirstRefused(items, env, before.error)
    ensures before.Done? && last.Raised? ==> FirstRefused(items, env, last.error)
    ensures before.Done? && last.Done? ==> AllFilters(items, env, before.value + [last.value])
  {
    if before.Done? && last.Done? {
      var all := before.value + [last.value];
      assert all[..|all| - 1] == before.value;
    }
  }

  /** Every column of the condition, from the columns of the raw one. */
  ghost predicate ConditionIs(raw: RawCondition, env: Env, c: Condition) {
    && raw.ConditionObject? && raw.eventName == Str(c.event) && TextOf(raw.caption, 120, c.title)
    && raw.minimum == Int(c.minimum)
    && (match c.maximum case None => raw.maximum == Null case Some(n) => raw.maximum == Int(n))
    && (match c.destination
        case None => raw.destination == Null
        case Some(v) => TextOf(raw.destination, 120, v))
    && raw.months.List? && (forall i, j :: 0 <= i < j < |c.months| ==> c.months[i] < c.months[j])
    && (forall m :: m in c.months <==> Int(m) in raw.months.items)
    && raw.filters.List? && AllFilters(raw.filters.items, env, c.filters)
  }

  lemma MonthsIff(months: RawList<Json>)
    ensures MonthsValid(months) <==> MonthsInOrder(months)
  {
    if months.List? && MonthsInOrder(months) {
      forall i | 0 <= i < |months.items|
        ensures months.items[i].Int? && 1 <= months.items[i].whole <= 12
      {
        assert months.items[i] in months.items;
      }
    }
  }

  /** The condition is refused for the reason: its own first one, or that of its first bad filter. */
  ghost predicate ConditionRefusedFor(raw: RawCondition, env: Env, reason: Reason) {
    || ConditionRefusal(raw, env) == Some(reason)
    || (ConditionRefusal(raw, env).None? && FirstRefused(raw.filters.items, env, reason))
  }

  ghost predicate ConditionAcceptedAs(raw: RawCondition, env: Env, c: Condition) {
    ConditionRefusal(raw, env).None? && ConditionIs(raw, env, c)
  }

  /** What the canonical condition is made of, once its own checks are passed. */
  lemma OwnChecks(raw: RawCondition, env: Env)
    ensures match ConditionRefusal(raw, env)
            case Some(reason) => CanonicalCondition(raw, env) == Raised(reason)
            case None =>
              && raw.ConditionObject? && raw.filters.List? && MonthsValid(raw.months)
              && raw.eventName.Str? && TextWithin(raw.caption, 120) && raw.minimum.Int?
              && (raw.maximum == Null || raw.maximum.Int?)
              && (raw.destination == Null || TextWithin(raw.destination, 120))
              && (match CanonicalFiltersBelow(raw.filters.items, env)
                  case Raised(reason) => CanonicalCondition(raw, env) == Raised(reason)
                  case Done(filters) =>
                    CanonicalCondition(raw, env)
                    == Done(Condition(Strip(raw.caption.text), raw.eventName.text, raw.minimum.whole,
                                      if raw.maximum == Null then None else Some(raw.maximum.whole),
                                      if raw.destination == Null then None
                                      else Some(Strip(raw.destination.text)),
                                      SortedMonths(raw.months.items), filters)))
  {
    if raw.ConditionObject? {
      HasTextIff(raw.caption, 120);
      HasTextIff(raw.destination, 120);
      MonthsIff(raw.months);
    }
  }

  lemma ColumnsAre(raw: RawCondition, env: Env, filters: seq<Filter>, c: Condition)
    requires raw.ConditionObject? && raw.filters.List? && MonthsValid(raw.months)
    requires raw.eventName.Str? && TextWithin(raw.caption, 120) && raw.minimum.Int?
    requires raw.maximum == Null || raw.maximum.Int?
    requires raw.destination == Null || TextWithin(raw.destination, 120)
    requires AllFilters(raw.filters.items, env, filters)
    requires c == Condition(Strip(raw.caption.text), raw.eventName.text, raw.minimum.whole,
                            if raw.maximum == Null then None else Some(raw.maximum.whole),
                            if raw.destination == Null then None else Some(Strip(raw.destination.text)),
                            SortedMonths(raw.months.items), filters)
    ensures ConditionIs(raw, env, c)
  {
    TextIs(raw.caption, 120, c.title);
    if raw.destination != Null {
      TextIs(raw.destination, 120, c.destination.value);
    }
    assert Increasing(c.months);
  }

  /** A condition is refused for the first reason that holds, or has exactly these columns. */
  lemma ConditionOutcome(raw: RawCondition, env: Env, r: Outcome<Condition, Reason>)
    requires r == CanonicalCondition(raw, env)
    ensures match r
            case Raised(reason) => ConditionRefusedFor(raw, env, reason)
            case Done(c) => ConditionAcceptedAs(raw, env, c)
  {
    OwnChecks(raw, env);
    if ConditionRefusal(raw, env).None? {
      FiltersOutcome(raw.filters.items, env);
      if r.Done? {
        ColumnsAre(raw, env, CanonicalFiltersBelow(raw.filters.items, env).value, r.value);
      }
    }
  }

  ghost predicate AllConditions(items: seq<RawCondition>, env: Env, conditions: seq<Condition>) {
    if items == [] then conditions == []
    else
      && conditions != []
      && AllConditions(items[..|items| - 1], env, conditions[..|conditions| - 1])
      && ConditionAcceptedAs(items[|items| - 1], env, conditions[|conditions| - 1])
  }

  /** A condition is refused for the reason after all before it were accepted. */
  ghost predicate FirstConditionRefused(items: seq<RawCondition>, env: Env, reason: Reason) {
    items != [] &&
    var front := items[..|items| - 1];
    || FirstConditionRefused(front, env, reason)
    || ((exists conditions :: AllConditions(front, env, conditions))
        && ConditionRefusedFor(items[|items| - 1], env, reason))
  }

  lemma OneConditionMore(items: seq<RawCondition>, env: Env, before: Outcome<seq<Condition>, Reason>,
                         last: Outcome<Condition, Reason>)
    requires items != []
    requires before.Raised? ==> FirstConditionRefused(items[..|items| - 1], env, before.error)
    requires before.Done? ==> AllConditions(items[..|items| - 1], env, before.value)
    requires last.Raised? ==> ConditionRefusedFor(items[|items| - 1], env, last.error)
    requires last.Done? ==> ConditionAcceptedAs(items[|items| - 1], env, last.value)
    ensures before.Raised? ==> FirstConditionRefused(items, env, before.error)
    ensures before.Done? && last.Raised? ==> FirstConditionRefused(items, env, last.error)
    ensures before.Done? && last.Done? ==> AllConditions(items, env, before.value + [last.value])
  {
    if before.Done? && last.Done? {
      var all := before.value + [last.value];
      assert all[..|all| - 1] == before.value;
    }
  }

  lemma {:induction false} ConditionsOutcome(items: seq<RawCondition>, env: Env)
    ensures match CanonicalConditionsBelow(items, env)
            case Raised(reason) => FirstConditionRefused(items, env, reason)
            case Done(conditions) => AllConditions(items, env, conditions)
  {
    if items != [] {
      var front, last := items[..|items| - 1], CanonicalCondition(items[|items| - 1], env);
      ConditionsOutcome(front, env);
      ConditionOutcome(items[|items| - 1], env, last);
      OneConditionMore(items, env, CanonicalConditionsBelow(front, env), last);
    }
  }

  /**
   The list as a whole: refused for its length or for its first refused condition, or every condition
   accepted in its place.
   */
  lemma ListOutcome(raw: RawList<RawCondition>, allowEmpty: bool, env: Env)
    ensures var r := CanonicalConditions(raw, allowEmpty, env);
            if raw.NotAList? || |raw.items| > 8 || (|raw.items| == 0 && !allowEmpty) then
              r == Raised(WrongItemCount)
            else
              && (r.Raised? ==> FirstConditionRefused(raw.items, env, r.error))
              && (r.Done? ==> AllConditions(raw.items, env, r.value))
  {
    if raw.List? {
      ConditionsOutcome(raw.items, env);
    }
  }
}
