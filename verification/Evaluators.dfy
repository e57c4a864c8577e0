/** `seed_recommended_evaluators`: installing the recommended catalog into a workspace. */
module Evaluators {
  datatype Template = Template(score: string, recommended: bool)

  datatype Evaluator = Evaluator(project: nat, score: string)

  /** The score names a workspace has. */
  function Names(rows: seq<Evaluator>, project: nat): set<string> {
    set e | e in rows && e.project == project :: e.score
  }

  /** The catalog entries to install, in catalog order. */
  function Missing(catalog: seq<Template>, existing: set<string>): seq<string> {
    if catalog == [] then []
    else
      var before, t := Missing(catalog[..|catalog| - 1], existing), catalog[|catalog| - 1];
      if t.recommended && t.score !in existing then before + [t.score] else before
  }

  function Installed(project: nat, scores: seq<string>): seq<Evaluator> {
    seq(|scores|, i requires 0 <= i < |scores| => Evaluator(project, scores[i]))
  }

  class Catalog {
    var rows: seq<Evaluator>

    /** One pass over the catalog, against the names present when it began. */
    method Seed(catalog: seq<Template>, project: nat) returns (added: nat)
      modifies this
      ensures var scores := Missing(catalog, Names(old(rows), project));
              rows == old(rows) + Installed(project, scores) && added == |scores|
    {
      var existing := Names(rows, project);
      added := 0;
      assert rows + Installed(project, []) == rows;
      for i := 0 to |catalog|
        invariant rows == old(rows) + Installed(project, Missing(catalog[..i], existing))
        invariant added == |Missing(catalog[..i], existing)|
      {
        assert catalog[..i + 1][..i] == catalog[..i];
        var t := catalog[i];
        if t.recommended && t.score !in existing {
          rows := rows + [Evaluator(project, t.score)];
          added := added + 1;
        }
      }
      assert catalog[..|catalog|] == catalog;
    }
  }

  lemma {:induction false} MissingHolds(catalog: seq<Template>, existing: set<string>, s: string)
    ensures s in Missing(catalog, existing) <==> s !in existing && exists t <- catalog :: t.recommended && t.score == s
  {
    if catalog != [] {
      MissingHolds(catalog[..|catalog| - 1], existing, s);
      assert catalog == catalog[..|catalog| - 1] + [catalog[|catalog| - 1]];
    }
  }

  lemma NamesAfter(rows: seq<Evaluator>, project: nat, scores: seq<string>, p: nat, s: string)
    ensures s in Names(rows + Installed(project, scores), p) <==> s in Names(rows, p) || (p == project && s in scores)
  {
    var rows' := rows + Installed(project, scores);
    if p == project && s in scores {
      var i :| 0 <= i < |scores| && scores[i] == s;
      assert rows'[|rows| + i] == Evaluator(project, s);
    }
    if s in Names(rows, p) {
      var e :| e in rows && e.project == p && e.score == s;
      assert e in rows';
    }
  }

  /** The workspace then has every recommended evaluator, keeps the ones it had, and gains no others; other
      workspaces gain none. */
  lemma SeedInstallsExactly(catalog: seq<Template>, rows: seq<Evaluator>, project: nat, p: nat, s: string)
    ensures var rows' := rows + Installed(project, Missing(catalog, Names(rows, project)));
            s in Names(rows', p) <==> s in Names(rows, p) || (p == project && exists t <- catalog :: t.recommended && t.score == s)
  {
    NamesAfter(rows, project, Missing(catalog, Names(rows, project)), p, s);
    MissingHolds(catalog, Names(rows, project), s);
  }

  /** Seeding again adds nothing. */
  lemma SecondSeedAddsNothing(catalog: seq<Template>, rows: seq<Evaluator>, project: nat)
    ensures var rows' := rows + Installed(project, Missing(catalog, Names(rows, project)));
            Missing(catalog, Names(rows', project)) == []
  {
    var rows' := rows + Installed(project, Missing(catalog, Names(rows, project)));
    var again := Missing(catalog, Names(rows', project));
    if again != [] {
      MissingHolds(catalog, Names(rows', project), again[0]);
      SeedInstallsExactly(catalog, rows, project, project, again[0]);
    }
  }

  /** They are installed in catalog order. */
  lemma {:induction false} MissingInOrder(a: seq<Template>, b: seq<Template>, existing: set<string>)
    ensures Missing(a + b, existing) == Missing(a, existing) + Missing(b, existing)
    decreases |b|
  {
    if b == [] {
      assert a + b == a;
    } else {
      assert (a + b)[..|a + b| - 1] == a + b[..|b| - 1];
      MissingInOrder(a, b[..|b| - 1], existing);
    }
  }
}
