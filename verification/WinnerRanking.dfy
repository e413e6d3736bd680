/**
 Who is allocated to which segment, in the columns of the stored rows: the policy order of the
 templates, the threshold and the margin of a source, the fit of a member, and the join that keeps a
 user out.
 */
module WinnerRanking {
  import opened Wrappers
  import opened AudienceTables
  import opened WinnerSelection

  /** Earlier templates are served first. */
  const POLICY_ORDER: seq<Template> :=
    [CustomStructured, DestinationAffinity, FunnelRecovery, BenefitValueSeeker, PromotionResponsive,
     GeneralExplorer, IntentMatched]

  ghost predicate ServedBefore(t: Template, r: Template) {
    exists i, j :: 0 <= i < j < |POLICY_ORDER| && POLICY_ORDER[i] == t && POLICY_ORDER[j] == r
  }

  /** How far a fit lies above the threshold, in margins: compared without dividing. */
  predicate FartherAbove(a: Source, f: real, b: Source, g: real) {
    (f - a.threshold) * b.margin > (g - b.threshold) * a.margin
  }

  /** The user's row in `a`, of fit `f`, goes before the one in `b`, of fit `g`. */
  ghost predicate GoesBefore(a: Source, f: Fit, b: Source, g: Fit) {
    || ServedBefore(a.template, b.template)
    || (a.template == b.template && f.Some? && g.None?)
    || (a.template == b.template && f.Some? && g.Some? && FartherAbove(a, f.value, b, g.value))
    || (a.template == b.template && a.segment < b.segment && TiedFits(a, f, b, g))
  }

  predicate TiedFits(a: Source, f: Fit, b: Source, g: Fit) {
    || (f.None? && g.None?)
    || (f.Some? && g.Some?
        && (f.value - a.threshold) * b.margin == (g.value - b.threshold) * a.margin)
  }

  lemma TemplatesInOrder(t: Template, r: Template)
    ensures ServedBefore(t, r) <==> Priority(t) < Priority(r)
    ensures t == r <==> Priority(t) == Priority(r)
  {
    assert POLICY_ORDER[Priority(t) + 1] == t && POLICY_ORDER[Priority(r) + 1] == r;
  }

  lemma QuotientsCompare(x: real, m: real, y: real, n: real)
    requires m > 0.0 && n > 0.0
    ensures x / m > y / n <==> x * n > y * m
    ensures x / m == y / n <==> x * n == y * m
  {
    var p, q := x / m, y / n;
    assert x == p * m && y == q * n;
    assert x * n == p * (m * n) && y * m == q * (m * n);
    assert m * n > 0.0;
    if p > q {
      assert (p - q) * (m * n) > 0.0;
    } else if p < q {
      assert (q - p) * (m * n) > 0.0;
    }
  }

  /** The ranked query's order, in plain numbers. */
  lemma BeatsIff(db: Db, u: UserId, a: Source, b: Source)
    requires u in SourceMembers(db, a) && u in SourceMembers(db, b)
    ensures Beats(db, u, a, b)
       <==> GoesBefore(a, SourceMembers(db, a)[u], b, SourceMembers(db, b)[u])
  {
    var f, g := SourceMembers(db, a)[u], SourceMembers(db, b)[u];
    TemplatesInOrder(a.template, b.template);
    if f.Some? && g.Some? {
      QuotientsCompare(f.value - a.threshold, a.margin, g.value - b.threshold, b.margin);
    }
  }

  /** No two rows of a user go before each other. */
  lemma OneGoesBefore(a: Source, f: Fit, b: Source, g: Fit)
    ensures !(GoesBefore(a, f, b, g) && GoesBefore(b, g, a, f))
  {
    TemplatesInOrder(a.template, b.template);
    TemplatesInOrder(b.template, a.template);
  }

  /** The stored row of `u` in the snapshot of `s`. */
  predicate Lists(db: Db, s: Source, u: UserId) {
    SourceSnapshot(s.snapshot) in db.members && u in db.members[SourceSnapshot(s.snapshot)]
  }

  function FitIn(db: Db, s: Source, u: UserId): Fit
    requires Lists(db, s, u)
  {
    db.members[SourceSnapshot(s.snapshot)][u]
  }

  /** A reserved or consumed row whose target is its own, not stopped and not of a run that is over. */
  predicate KeptOut(db: Db, u: UserId) {
    && u in db.ledger
    && db.ledger[u].state in {Reserved, Consumed}
    && db.ledger[u].target in db.targets
    && var row, k := db.ledger[u], db.ledger[u].target;
       var t := db.targets[k];
       && t.plan == Some(row.plan) && t.snapshot == Some(row.snapshot) && !t.stopped
       && !(&& k in db.bindings
            && db.bindings[k].plan == row.plan && db.bindings[k].snapshot == row.snapshot
            && (db.bindings[k].run in db.runs ==>
                  db.runs[db.bindings[k].run]
                  in {GoalMet, GoalNotMet, PartialGoalMet, InsufficientData, Stopped}))
  }

  lemma KeptOutIff(db: Db, u: UserId)
    ensures KeptOut(db, u) <==> Excluded(db, u)
  {
  }

  /**
   A confirmation or a preview of these sources allocates the user to `w` exactly when the user is
   not kept out and the row in `w` goes before the user's row in every other source.
   */
  lemma AllocatedIff(db: Db, sources: seq<Source>, u: UserId, w: Source)
    requires Distinct(sources)
    ensures u in Winners(db, sources) && Winners(db, sources)[u] == w
       <==> && w in sources && Lists(db, w, u) && !KeptOut(db, u)
            && forall s :: s in sources && s != w && Lists(db, s, u) ==>
                 GoesBefore(w, FitIn(db, w, u), s, FitIn(db, s, u))
  {
    KeptOutIff(db, u);
    if w in sources && Lists(db, w, u) && !KeptOut(db, u) {
      assert u in Pool(db, sources);
      var best := Winners(db, sources)[u];
      BestGoesFirst(db, sources, u);
      if best != w {
        OneGoesBefore(best, FitIn(db, best, u), w, FitIn(db, w, u));
      }
    } else if u in Winners(db, sources) {
      assert u in SourceMembers(db, Winners(db, sources)[u]);
    }
  }

  lemma BestGoesFirst(db: Db, sources: seq<Source>, u: UserId)
    requires Distinct(sources) && u in Pool(db, sources)
    ensures var best := Winners(db, sources)[u];
            && best in sources && Lists(db, best, u)
            && forall s :: s in sources && s != best && Lists(db, s, u) ==>
                 GoesBefore(best, FitIn(db, best, u), s, FitIn(db, s, u))
  {
    var best := Winners(db, sources)[u];
    assert u in SourceMembers(db, best);
    forall s | s in sources && s != best && Lists(db, s, u)
      ensures GoesBefore(best, FitIn(db, best, u), s, FitIn(db, s, u))
    {
      WinnerBeatsAll(db, sources, u, s);
      BeatsIff(db, u, best, s);
    }
  }
}
