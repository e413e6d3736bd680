/**
 The two selections of the kernel screen: the settings not dominated in latency and recall, and
 the cohort size from which approximate retrieval keeps passing.
 */
module ParetoCrossover {
  import opened Wrappers
  import opened Sorting

  /** A screened setting; rows are told apart by their place in the input. */
  datatype Setting = Setting(p95: real, recall: real, efSearch: int, tag: nat)

  /** `a` is at least as fast and as accurate as `b`, and better in one of the two. */
  predicate Dominates(a: Setting, b: Setting) {
    && a.p95 <= b.p95 && a.recall >= b.recall
    && (a.p95 < b.p95 || a.recall > b.recall)
  }

  predicate Dominated(rows: seq<Setting>, b: Setting) {
    exists a :: a in rows && Dominates(a, b)
  }

  /** The undominated rows among the first `n`, in input order. */
  function Undominated(rows: seq<Setting>, n: nat): seq<Setting>
    requires n <= |rows|
  {
    if n == 0 then []
    else
      Undominated(rows, n - 1) + (if Dominated(rows, rows[n - 1]) then [] else [rows[n - 1]])
  }

  /** The order of the result: latency, then recall from the best, then ef_search. */
  predicate Precedes(a: Setting, b: Setting) {
    || a.p95 < b.p95
    || (a.p95 == b.p95 && a.recall > b.recall)
    || (a.p95 == b.p95 && a.recall == b.recall && a.efSearch <= b.efSearch)
  }

  lemma PrecedesIsAnOrder()
    ensures TotalOrder(Precedes)
  {
  }

  /** `pareto_kernel_settings`. */
  method ParetoKernelSettings(rows: seq<Setting>) returns (chosen: seq<Setting>)
    ensures SortedBy(chosen, Precedes)
    ensures multiset(chosen) == multiset(Undominated(rows, |rows|))
  {
    chosen := [];
    for n := 0 to |rows|
      invariant chosen == Undominated(rows, n)
    {
      var dominated := false;
      for k := 0 to |rows|
        invariant dominated <==> Dominated(rows[..k], rows[n])
      {
        assert rows[..k + 1] == rows[..k] + [rows[k]];
        if Dominates(rows[k], rows[n]) {
          assert rows[k] in rows[..k + 1];
          dominated := true;
        }
      }
      assert rows[..|rows|] == rows;
      if !dominated {
        chosen := chosen + [rows[n]];
      }
    }
    PrecedesIsAnOrder();
    chosen := Sort(chosen, Precedes);
  }

  lemma {:induction false} UndominatedIs(rows: seq<Setting>, n: nat, x: Setting)
    requires n <= |rows|
    ensures x in Undominated(rows, n) <==> x in rows[..n] && !Dominated(rows, x)
  {
    if n > 0 {
      UndominatedIs(rows, n - 1, x);
      assert rows[..n] == rows[..n - 1] + [rows[n - 1]];
    }
  }

  function Dominators(rows: seq<Setting>, x: Setting): set<Setting> {
    set a | a in rows && Dominates(a, x)
  }

  /** Dominance is well founded on the rows: whoever is dominated is dominated by a kept row. */
  lemma {:induction false} KeptDominator(rows: seq<Setting>, x: Setting) returns (a: Setting)
    requires Dominated(rows, x)
    ensures a in rows && Dominates(a, x) && !Dominated(rows, a)
    decreases Dominators(rows, x)
  {
    a :| a in rows && Dominates(a, x);
    if Dominated(rows, a) {
      assert Dominators(rows, a) < Dominators(rows, x) by {
        assert a in Dominators(rows, x) && a !in Dominators(rows, a);
      }
      a := KeptDominator(rows, a);
    }
  }

  /** In numbers: kept is what no row is at least as fast and as accurate as, and better in one. */
  lemma KeptInNumbers(rows: seq<Setting>, chosen: seq<Setting>, x: Setting)
    requires multiset(chosen) == multiset(Undominated(rows, |rows|))
    ensures x in chosen
       <==> && x in rows
            && forall a :: a in rows && a.p95 <= x.p95 && a.recall >= x.recall ==>
                 a.p95 == x.p95 && a.recall == x.recall
  {
    SameElements(chosen, Undominated(rows, |rows|), x);
    UndominatedIs(rows, |rows|, x);
    assert rows[..|rows|] == rows;
  }

  /** In numbers: faster first, of equal latency the more accurate, then the smaller ef_search. */
  lemma OrderInNumbers(chosen: seq<Setting>)
    requires SortedBy(chosen, Precedes)
    ensures forall i, j :: 0 <= i < j < |chosen| ==>
              && chosen[i].p95 <= chosen[j].p95
              && (chosen[i].p95 == chosen[j].p95 ==> chosen[i].recall >= chosen[j].recall)
              && (chosen[i].p95 == chosen[j].p95 && chosen[i].recall == chosen[j].recall ==>
                    chosen[i].efSearch <= chosen[j].efSearch)
  {
    forall i, j | 0 <= i < j < |chosen|
      ensures Precedes(chosen[i], chosen[j])
    {
    }
  }

  /**
   Something is always kept, no kept row dominates another, and every row dropped is dominated by
   a kept one.
   */
  lemma KeptIsParetoFront(rows: seq<Setting>, chosen: seq<Setting>)
    requires multiset(chosen) == multiset(Undominated(rows, |rows|))
    ensures rows != [] ==> chosen != []
    ensures forall a, b :: a in chosen && b in chosen ==> !Dominates(a, b)
    ensures forall x :: x in rows && x !in chosen ==> exists a :: a in chosen && Dominates(a, x)
    ensures forall x :: x in chosen ==> x in rows
  {
    forall x ensures x in chosen <==> x in rows && !Dominated(rows, x) {
      UndominatedIs(rows, |rows|, x);
      assert rows[..|rows|] == rows;
      assert x in chosen <==> x in multiset(chosen);
    }
    forall x | x in rows && x !in chosen ensures exists a :: a in chosen && Dominates(a, x) {
      var a := KeptDominator(rows, x);
    }
    if rows != [] {
      assert rows[0] in rows;
    }
  }

  /** Down the list latency and recall rise together, so each slower setting buys accuracy. */
  lemma FrontIsStaircase(rows: seq<Setting>, chosen: seq<Setting>, i: nat, j: nat)
    requires multiset(chosen) == multiset(Undominated(rows, |rows|)) && SortedBy(chosen, Precedes)
    requires i < j < |chosen|
    ensures chosen[i].p95 < chosen[j].p95 ==> chosen[i].recall < chosen[j].recall
    ensures chosen[i].p95 == chosen[j].p95 ==> chosen[i].recall == chosen[j].recall
    ensures chosen[i].p95 <= chosen[j].p95
  {
    NeitherDominates(rows, chosen, chosen[i], chosen[j]);
  }

  lemma NeitherDominates(rows: seq<Setting>, chosen: seq<Setting>, a: Setting, b: Setting)
    requires multiset(chosen) == multiset(Undominated(rows, |rows|)) && a in chosen && b in chosen
    ensures !Dominates(a, b) && !Dominates(b, a)
  {
    KeptIsParetoFront(rows, chosen);
  }

  // ---------------------------------------------------------------------------
  // Crossover
  // ---------------------------------------------------------------------------

  datatype Cohort = Cohort(users: int, passed: bool)

  predicate NoLarger(a: Cohort, b: Cohort) {
    a.users <= b.users
  }

  function SortCohorts(items: seq<Cohort>): (r: seq<Cohort>)
    ensures SortedBy(r, NoLarger) && multiset(r) == multiset(items)
  {
    Sort(items, NoLarger)
  }

  /** Position `p` of the ordered cohorts is where failing ends for good. */
  predicate TurnsAt(ordered: seq<Cohort>, p: nat) {
    && 0 < p < |ordered|
    && !ordered[p - 1].passed
    && forall j :: p <= j < |ordered| ==> ordered[j].passed
  }

  /** The search of `crossover_report` within one group of rows. */
  method CrossoverSize(items: seq<Cohort>, independent: bool) returns (r: Option<int>)
    ensures var ordered := SortCohorts(items);
            if independent && exists p: nat :: TurnsAt(ordered, p)
            then exists p: nat :: TurnsAt(ordered, p) && r == Some(ordered[p].users)
            else r.None?
  {
    var ordered := SortCohorts(items);
    for position := 0 to |ordered|
      invariant independent ==> forall p :: 0 <= p < position ==> !TurnsAt(ordered, p)
    {
      var previousFailed := position > 0 && !ordered[position - 1].passed;
      var subsequentPassed := true;
      for later := position to |ordered|
        invariant subsequentPassed <==> forall j :: position <= j < later ==> ordered[j].passed
      {
        if !ordered[later].passed {
          subsequentPassed := false;
        }
      }
      if ordered[position].passed && previousFailed && subsequentPassed && independent {
        assert TurnsAt(ordered, position);
        return Some(ordered[position].users);
      }
    }
    r := None;
  }

  /** There is at most one such position. */
  lemma TurnIsUnique(ordered: seq<Cohort>, p: nat, q: nat)
    requires TurnsAt(ordered, p) && TurnsAt(ordered, q)
    ensures p == q
  {
    if p < q {
      NoLaterTurn(ordered, p, q);
    } else if q < p {
      NoLaterTurn(ordered, q, p);
    }
  }

  lemma NoLaterTurn(ordered: seq<Cohort>, p: nat, q: nat)
    requires TurnsAt(ordered, p) && p < q <= |ordered|
    ensures !TurnsAt(ordered, q)
  {
    assert ordered[q - 1].passed;
  }

  /** It exists exactly when the largest cohort passes and some cohort fails. */
  lemma TurnExistsIff(ordered: seq<Cohort>)
    ensures ((exists p: nat :: TurnsAt(ordered, p))
             <==> |ordered| > 0 && ordered[|ordered| - 1].passed
                  && exists i :: 0 <= i < |ordered| && !ordered[i].passed)
  {
    if |ordered| > 0 && ordered[|ordered| - 1].passed && exists i :: 0 <= i < |ordered| && !ordered[i].passed {
      var i :| 0 <= i < |ordered| && !ordered[i].passed;
      LastFailure(ordered, i);
    }
  }

  lemma {:induction false} LastFailure(ordered: seq<Cohort>, i: nat)
    requires i < |ordered| && !ordered[i].passed && ordered[|ordered| - 1].passed
    ensures exists p: nat :: TurnsAt(ordered, p)
    decreases |ordered| - i
  {
    if j :| i < j < |ordered| && !ordered[j].passed {
      LastFailure(ordered, j);
    } else {
      assert TurnsAt(ordered, i + 1);
    }
  }

  predicate DistinctSizes(items: seq<Cohort>) {
    forall x, y :: x in items && y in items && x.users == y.users ==> x == y
  }

  /** What the report promises of a size: it and every larger one passes, its predecessor fails. */
  ghost predicate Crosses(items: seq<Cohort>, n: int) {
    && Cohort(n, true) in items
    && (forall x :: x in items && x.users >= n ==> x.passed)
    && exists x :: x in items && x.users < n && !x.passed
                   && forall y :: y in items && y.users < n ==> y.users <= x.users
  }

  lemma SortedHas(items: seq<Cohort>, x: Cohort)
    ensures x in SortCohorts(items) <==> x in items
  {
    assert x in multiset(SortCohorts(items)) <==> x in multiset(items);
  }

  lemma SideOfTurn(ordered: seq<Cohort>, p: nat, x: Cohort)
    requires SortedBy(ordered, NoLarger) && TurnsAt(ordered, p) && x in ordered
    requires ordered[p - 1].users != ordered[p].users
    ensures x.users >= ordered[p].users ==> x.passed
    ensures x.users < ordered[p].users ==> x.users <= ordered[p - 1].users
  {
    var j :| 0 <= j < |ordered| && ordered[j] == x;
    assert j < p ==> x.users <= ordered[p - 1].users;
  }

  /**
   The size reported keeps the promise exactly when the failing cohort just before it in the order
   is strictly smaller. With distinct sizes it always is.
   */
  lemma ReportIsCrossoverIff(items: seq<Cohort>, p: nat)
    requires TurnsAt(SortCohorts(items), p)
    ensures var ordered := SortCohorts(items);
            Crosses(items, ordered[p].users) <==> ordered[p - 1].users != ordered[p].users
  {
    var ordered := SortCohorts(items);
    var before, at := ordered[p - 1], ordered[p];
    SortedHas(items, before);
    SortedHas(items, at);
    if before.users != at.users {
      forall x | x in items
        ensures x.users >= at.users ==> x.passed
        ensures x.users < at.users ==> x.users <= before.users
      {
        SortedHas(items, x);
        SideOfTurn(ordered, p, x);
      }
      CrossesAt(items, before, at.users);
    }
  }

  lemma CrossesAt(items: seq<Cohort>, before: Cohort, n: int)
    requires Cohort(n, true) in items && before in items && before.users < n && !before.passed
    requires forall x :: x in items && x.users >= n ==> x.passed
    requires forall x :: x in items && x.users < n ==> x.users <= before.users
    ensures Crosses(items, n)
  {
  }

  /** At most one size is a crossover. */
  lemma CrossoverIsUnique(items: seq<Cohort>, m: int, n: int)
    requires Crosses(items, m) && Crosses(items, n)
    ensures m == n
  {
    if m < n {
      NoLargerCrossover(items, m, n);
    } else if n < m {
      NoLargerCrossover(items, n, m);
    }
  }

  lemma NoLargerCrossover(items: seq<Cohort>, m: int, n: int)
    requires Crosses(items, m) && m < n
    ensures !Crosses(items, n)
  {
    assert forall x :: x in items && !x.passed ==> x.users < m;
    assert Cohort(m, true) in items && Cohort(m, true).users == m;
  }

  /** For distinct sizes the report is a crossover, and there is none when nothing is reported. */
  lemma DistinctSizesCross(items: seq<Cohort>, p: nat)
    requires DistinctSizes(items) && TurnsAt(SortCohorts(items), p)
    ensures Crosses(items, SortCohorts(items)[p].users)
  {
    var ordered := SortCohorts(items);
    SortedHas(items, ordered[p - 1]);
    SortedHas(items, ordered[p]);
    ReportIsCrossoverIff(items, p);
  }

  lemma NothingReportedMeansNone(items: seq<Cohort>, n: int)
    requires Crosses(items, n)
    ensures exists p: nat :: TurnsAt(SortCohorts(items), p)
  {
    var ordered := SortCohorts(items);
    var x :| x in items && x.users < n && !x.passed;
    SortedHas(items, x);
    SortedHas(items, Cohort(n, true));
    var i :| 0 <= i < |ordered| && ordered[i] == Cohort(n, true);
    var last := ordered[|ordered| - 1];
    SortedHas(items, last);
    assert last in ordered && last.users >= n;
    TurnExistsIff(ordered);
  }

  /** Two rows of one size, the first failing: the size is reported although one of its rows failed. */
  lemma RepeatedSizeMisreports()
    ensures var items := [Cohort(10, false), Cohort(10, true)];
            TurnsAt(SortCohorts(items), 1) && SortCohorts(items)[1].users == 10 && !Crosses(items, 10)
  {
    var items := [Cohort(10, false), Cohort(10, true)];
    assert items[..1] == [Cohort(10, false)] && items[..1][..0] == [];
    assert SortCohorts(items[..1]) == [Cohort(10, false)];
    assert SortCohorts(items) == items;
    assert items[0] in items;
  }
}
