/**
 * Benchmark scoring: every finding an agent produced for a project is shown to a judge,
 * the ground-truth ids the judge names are collected, and the ground-truth findings whose
 * id was never named are reported as missed.
 */
module Bench {
  import opened Wrappers
  import opened Seqs

  /** A reported or ground-truth vulnerability; only ground-truth entries carry an `id`. */
  datatype Finding = Finding(id: Option<int>, title: string, description: string, proofOfConcept: string)

  /**
   * The outcome of one judge call: the nullable id the judge answered with, or a thrown
   * error (a failed call or a reply that does not fit the requested shape).
   */
  datatype Verdict = Judged(id: Option<int>) | JudgeFailed

  /** The judge, as seen by the scoring code: ground truth and one agent finding in, a verdict out. */
  type Judge = (seq<Finding>, Finding) -> Verdict

  /** The report written for one project. */
  datatype BenchResult = BenchResult(matchedFindings: seq<int>, missedFindings: seq<Finding>)

  /** One entry of the batch summary: the two lengths of a project's report. */
  datatype Summary = Summary(projectName: string, matchedFindings: nat, missedFindings: nat)

  /**
   * One benchmarked project: its name, and the two reads of `benchProject`: its ground truth
   * and the findings the agent produced. A read is None when it throws (a missing file, text
   * that is not JSON, or a ground-truth file without `findings`).
   */
  datatype BenchInput = BenchInput(projectName: string, correctFindings: Option<seq<Finding>>,
                                   agentFindings: Option<seq<Finding>>)

  /** What a batch run writes: the per-project reports, and the summary when every project finished. */
  datatype BenchRun = BenchRun(reports: seq<(string, BenchResult)>, results: Option<seq<Summary>>)

  /** The truthiness test on the judge's id: `null` and `0` are falsy. */
  predicate Truthy(id: Option<int>) {
    id.Some? && id.value != 0
  }

  /** What one verdict adds to the matched ids. */
  function Recorded(id: Option<int>): seq<int> {
    if Truthy(id) then [id.value] else []
  }

  /**
   * The matched ids after judging `agent` in order, or None when some judge call threw
   * (the error leaves the loop and the project).
   */
  function MatchedIds(correct: seq<Finding>, agent: seq<Finding>, judge: Judge): Option<seq<int>>
  {
    if agent == [] then Some([])
    else
      match MatchedIds(correct, agent[..|agent| - 1], judge)
      case None => None
      case Some(ms) =>
        match judge(correct, agent[|agent| - 1])
        case JudgeFailed => None
        case Judged(id) => Some(ms + Recorded(id))
  }

  /** `matchedFindings.some(m => m === id)`: a number equal to the id was matched (never true of `undefined`). */
  predicate IsMatched(matched: seq<int>, id: Option<int>) {
    id.Some? && id.value in matched
  }

  /** The filter callback that keeps a ground-truth finding nobody matched. */
  function NotMatchedBy(matched: seq<int>): Finding -> bool {
    (c: Finding) => !IsMatched(matched, c.id)
  }

  /** The ground-truth findings whose id no matched id equals, in ground-truth order. */
  function Missed(correct: seq<Finding>, matched: seq<int>): (r: seq<Finding>)
    ensures |r| <= |correct|
    ensures forall c :: c in r ==> c in correct && !IsMatched(matched, c.id)
    ensures forall c :: c in correct && !IsMatched(matched, c.id) ==> c in r
  {
    Filter(correct, NotMatchedBy(matched))
  }

  /** The report for one project, or None when a judge call threw. */
  function BenchProjectOf(correct: seq<Finding>, agent: seq<Finding>, judge: Judge): Option<BenchResult>
  {
    match MatchedIds(correct, agent, judge)
    case None => None
    case Some(ms) => Some(BenchResult(ms, Missed(correct, ms)))
  }

  /** Once a judge call has thrown, judging more findings does not bring the project back. */
  lemma {:induction false} MatchedIdsStaysFailed(correct: seq<Finding>, agent: seq<Finding>, more: seq<Finding>, judge: Judge)
    requires MatchedIds(correct, agent, judge).None?
    ensures MatchedIds(correct, agent + more, judge).None?
  {
    if more == [] {
      assert agent + more == agent;
    } else {
      var whole := agent + more;
      assert whole[..|whole| - 1] == agent + more[..|more| - 1];
      MatchedIdsStaysFailed(correct, agent, more[..|more| - 1], judge);
    }
  }

  /** Scores one project: the judging loop and the missed-findings filter. */
  method BenchProject(correct: seq<Finding>, agent: seq<Finding>, judge: Judge) returns (r: Option<BenchResult>)
    ensures r == BenchProjectOf(correct, agent, judge)
  {
    var matchedFindings: seq<int> := [];
    for i := 0 to |agent|
      invariant MatchedIds(correct, agent[..i], judge) == Some(matchedFindings)
    {
      var upto := agent[..i + 1];
      assert upto[..|upto| - 1] == agent[..i] && upto[|upto| - 1] == agent[i];
      var verdict := judge(correct, agent[i]);
      ghost var old_m := matchedFindings;
      if verdict.JudgeFailed? {
        assert upto + agent[i + 1..] == agent;
        MatchedIdsStaysFailed(correct, upto, agent[i + 1..], judge);
        return None;
      }
      if verdict.id.Some? && verdict.id.value != 0 {
        matchedFindings := matchedFindings + [verdict.id.value];
      }
      assert matchedFindings == old_m + Recorded(verdict.id);
      assert MatchedIds(correct, upto, judge) == Some(old_m + Recorded(verdict.id));
    }
    assert agent[..|agent|] == agent;
    var missedFindings := Missed(correct, matchedFindings);
    r := Some(BenchResult(matchedFindings, missedFindings));
  }

  /** The judging loop fails exactly when one of the judge calls throws. */
  lemma {:induction false} MatchedIdsFailure(correct: seq<Finding>, agent: seq<Finding>, judge: Judge)
    ensures MatchedIds(correct, agent, judge).None?
        <==> exists i :: 0 <= i < |agent| && judge(correct, agent[i]).JudgeFailed?
  {
    if agent != [] {
      var init := agent[..|agent| - 1];
      MatchedIdsFailure(correct, init, judge);
      assert forall i :: 0 <= i < |init| ==> init[i] == agent[i];
    }
  }

  /**
   * Judging `a` and then `b` matches what judging each gives, one after the other: ids are
   * collected in visiting order, duplicates kept, and a throw anywhere fails the whole.
   */
  lemma {:induction false} MatchedIdsAppend(correct: seq<Finding>, a: seq<Finding>, b: seq<Finding>, judge: Judge)
    ensures MatchedIds(correct, a + b, judge).Some?
        <==> MatchedIds(correct, a, judge).Some? && MatchedIds(correct, b, judge).Some?
    ensures MatchedIds(correct, a + b, judge).Some? ==>
        MatchedIds(correct, a + b, judge).value == MatchedIds(correct, a, judge).value + MatchedIds(correct, b, judge).value
  {
    if b == [] {
      assert a + b == a;
    } else {
      var ab := a + b;
      var binit := b[..|b| - 1];
      assert ab[..|ab| - 1] == a + binit;
      assert ab[|ab| - 1] == b[|b| - 1];
      MatchedIdsAppend(correct, a, binit, judge);
      if MatchedIds(correct, a + b, judge).Some? {
        assert MatchedIds(correct, a, judge).value + MatchedIds(correct, b, judge).value
            == (MatchedIds(correct, a, judge).value + MatchedIds(correct, binit, judge).value)
               + Recorded(judge(correct, b[|b| - 1]).id);
      }
    }
  }

  /**
   * A successful judging loop records at most one id per agent finding, never a falsy one;
   * every recorded id is the answer to some agent finding, and every truthy answer is recorded.
   */
  lemma {:induction false} MatchedIdsContents(correct: seq<Finding>, agent: seq<Finding>, judge: Judge)
    requires MatchedIds(correct, agent, judge).Some?
    ensures |MatchedIds(correct, agent, judge).value| <= |agent|
    ensures 0 !in MatchedIds(correct, agent, judge).value
    ensures forall x :: x in MatchedIds(correct, agent, judge).value ==>
        exists i :: 0 <= i < |agent| && judge(correct, agent[i]) == Judged(Some(x))
    ensures forall i :: 0 <= i < |agent| && judge(correct, agent[i]).Judged? && Truthy(judge(correct, agent[i]).id) ==>
        judge(correct, agent[i]).id.value in MatchedIds(correct, agent, judge).value
  {
    if agent != [] {
      var init := agent[..|agent| - 1];
      MatchedIdsContents(correct, init, judge);
      assert forall i :: 0 <= i < |init| ==> init[i] == agent[i];
      var last := |agent| - 1;
      var v := judge(correct, agent[last]);
      assert MatchedIds(correct, agent, judge).value == MatchedIds(correct, init, judge).value + Recorded(v.id);
      if Truthy(v.id) {
        assert v == Judged(Some(v.id.value));
      }
    }
  }

  /** Judge answers that are `null` or `0` leave no trace: only truthy answers count. */
  lemma {:induction false} FalsyVerdictIgnored(correct: seq<Finding>, a: seq<Finding>, f: Finding, b: seq<Finding>, judge: Judge)
    requires judge(correct, f).Judged? && !Truthy(judge(correct, f).id)
    ensures MatchedIds(correct, a + [f] + b, judge) == MatchedIds(correct, a + b, judge)
  {
    var one := [f];
    assert MatchedIds(correct, one, judge) == Some([]) by {
      assert one[..|one| - 1] == [] && one[|one| - 1] == f;
      var v := judge(correct, f);
      assert [] + Recorded(v.id) == [];
    }
    MatchedIdsAppend(correct, a, one, judge);
    MatchedIdsAppend(correct, a + one, b, judge);
    MatchedIdsAppend(correct, a, b, judge);
    if MatchedIds(correct, a + b, judge).Some? {
      var x := MatchedIds(correct, a, judge).value;
      assert MatchedIds(correct, a + one, judge).value == x + [] == x;
    }
  }

  /** With no agent findings nothing is matched and the whole ground truth is missed. */
  lemma NoAgentFindings(correct: seq<Finding>, judge: Judge)
    ensures BenchProjectOf(correct, [], judge) == Some(BenchResult([], correct))
  {
    FilterKeepsAll(correct, NotMatchedBy([]));
  }

  /** Missed findings keep ground-truth order: the filter distributes over concatenation. */
  lemma MissedAppend(a: seq<Finding>, b: seq<Finding>, matched: seq<int>)
    ensures Missed(a + b, matched) == Missed(a, matched) + Missed(b, matched)
  {
    FilterAppend(a, b, NotMatchedBy(matched));
  }

  /** Missed findings depend only on which ids were matched, not on how often or in which order. */
  lemma MissedIgnoresDuplicates(correct: seq<Finding>, m1: seq<int>, m2: seq<int>)
    requires forall x :: x in m1 <==> x in m2
    ensures Missed(correct, m1) == Missed(correct, m2)
  {
    forall c | c in correct ensures NotMatchedBy(m1)(c) == NotMatchedBy(m2)(c) {
      if c.id.Some? {
        var k: int := c.id.value;
        assert k in m1 <==> k in m2;
      }
    }
    FilterCongruent(correct, NotMatchedBy(m1), NotMatchedBy(m2));
  }

  /**
   * A ground-truth finding without an id, or with id 0, is always missed: the matched ids
   * are numbers, and 0 is never recorded.
   */
  lemma UnmatchableAlwaysMissed(correct: seq<Finding>, agent: seq<Finding>, judge: Judge, c: Finding)
    requires BenchProjectOf(correct, agent, judge).Some?
    requires c in correct && (c.id.None? || c.id == Some(0))
    ensures c in BenchProjectOf(correct, agent, judge).value.missedFindings
  {
    MatchedIdsContents(correct, agent, judge);
  }

  /** Ground truth as the benchmark expects it: every entry has an id, and no two share one. */
  predicate WellFormedGroundTruth(correct: seq<Finding>) {
    (forall i :: 0 <= i < |correct| ==> correct[i].id.Some?) &&
    (forall i, j :: 0 <= i < j < |correct| ==> correct[i].id != correct[j].id)
  }

  /** The ids the ground truth carries. */
  function IdsOf(correct: seq<Finding>): set<int> {
    set c | c in correct && c.id.Some? :: c.id.value
  }

  /** The judge keeps its contract: every id it answers with is one of the ground-truth ids. */
  predicate HonestJudge(correct: seq<Finding>, agent: seq<Finding>, judge: Judge) {
    forall i :: 0 <= i < |agent| && judge(correct, agent[i]).Judged? && judge(correct, agent[i]).id.Some? ==>
      judge(correct, agent[i]).id.value in IdsOf(correct)
  }

  /** The set of matched ids, ignoring repetitions and order. */
  function MatchedSet(matched: seq<int>): set<int> {
    set x | x in matched
  }

  /** The ids of a ground truth that starts with `c` are `c`'s id and those of the rest. */
  lemma IdsOfCons(c: Finding, rest: seq<Finding>)
    ensures IdsOf([c] + rest) == (if c.id.Some? then {c.id.value} else {}) + IdsOf(rest)
  {
    var s := [c] + rest;
    assert forall d :: d in s <==> d == c || d in rest;
  }

  /** Filtering a ground truth that starts with `c` decides `c` first. */
  lemma MissedCons(c: Finding, rest: seq<Finding>, matched: seq<int>)
    ensures Missed([c] + rest, matched) == (if IsMatched(matched, c.id) then [] else [c]) + Missed(rest, matched)
  {
    var s := [c] + rest;
    assert s[0] == c && s[1..] == rest;
  }

  /** Well-formed ground truth stays well-formed without its first entry, whose id no other entry has. */
  lemma WellFormedTail(correct: seq<Finding>)
    requires WellFormedGroundTruth(correct) && correct != []
    ensures WellFormedGroundTruth(correct[1..])
    ensures correct[0].id.value !in IdsOf(correct[1..])
  {
    var rest := correct[1..];
    assert forall i :: 0 <= i < |rest| ==> rest[i] == correct[i + 1];
    forall d | d in rest && d.id.Some?
      ensures d.id != correct[0].id
    {
      var j :| 0 <= j < |rest| && rest[j] == d;
      assert correct[j + 1] == d;
    }
  }

  /**
   * On well-formed ground truth every entry is either missed or has its id among the matched
   * ids, never both: the missed count and the number of ground-truth ids matched add up to
   * the size of the ground truth.
   */
  lemma {:induction false} MissedCount(correct: seq<Finding>, matched: seq<int>)
    requires WellFormedGroundTruth(correct)
    ensures |Missed(correct, matched)| + |MatchedSet(matched) * IdsOf(correct)| == |correct|
  {
    if correct == [] {
      assert IdsOf(correct) == {};
    } else {
      var c, rest := correct[0], correct[1..];
      assert correct == [c] + rest;
      var k: int := c.id.value;
      WellFormedTail(correct);
      MissedCount(rest, matched);
      IdsOfCons(c, rest);
      MissedCons(c, rest, matched);
      CountStep(MatchedSet(matched), IdsOf(rest), k);
      assert k in MatchedSet(matched) <==> k in matched;
    }
  }

  /** Adding a fresh id to the ground-truth ids adds one to the matched ones exactly when it is matched. */
  lemma CountStep(m: set<int>, ids: set<int>, k: int)
    requires k !in ids
    ensures |m * ({k} + ids)| == |m * ids| + (if k in m then 1 else 0)
  {
    assert m * ({k} + ids) == (m * {k}) + (m * ids);
    assert k !in m * ids;
    if k in m {
      assert m * {k} == {k};
    } else {
      assert m * {k} == {};
    }
  }

  /**
   * With an honest judge and well-formed ground truth, every matched id names a ground-truth
   * entry, and the distinct matched ids and the missed findings together account for the
   * whole ground truth.
   */
  lemma ScoreAccounting(correct: seq<Finding>, agent: seq<Finding>, judge: Judge)
    requires WellFormedGroundTruth(correct)
    requires HonestJudge(correct, agent, judge)
    requires BenchProjectOf(correct, agent, judge).Some?
    ensures forall x :: x in BenchProjectOf(correct, agent, judge).value.matchedFindings ==> x in IdsOf(correct)
    ensures |BenchProjectOf(correct, agent, judge).value.missedFindings|
          + |MatchedSet(BenchProjectOf(correct, agent, judge).value.matchedFindings)| == |correct|
  {
    var ms := MatchedIds(correct, agent, judge).value;
    MatchedIdsContents(correct, agent, judge);
    forall x | x in ms ensures x in IdsOf(correct) {
      var i :| 0 <= i < |agent| && judge(correct, agent[i]) == Judged(Some(x));
      assert judge(correct, agent[i]).id.value == x;
    }
    var m := MatchedSet(ms);
    assert m * IdsOf(correct) == m;
    MissedCount(correct, ms);
  }

  /**
   * Two ground-truth findings with ids 1 and 2, one agent finding judged to match id 1 and one
   * judged to match nothing.
   */
  lemma ScenarioOneMatchOneMiss(g1: Finding, g2: Finding, fa: Finding, fb: Finding, judge: Judge)
    requires g1.id == Some(1) && g2.id == Some(2)
    requires judge([g1, g2], fa) == Judged(Some(1)) && judge([g1, g2], fb) == Judged(None)
    ensures BenchProjectOf([g1, g2], [fa, fb], judge) == Some(BenchResult([1], [g2]))
  {
    var agent, first := [fa, fb], [fa];
    assert agent[..|agent| - 1] == first && agent[|agent| - 1] == fb;
    assert first[..|first| - 1] == [] && first[|first| - 1] == fa;
    assert [] + [1] == [1] && [1] + [] == [1];
    assert MatchedIds([g1, g2], first, judge) == Some([] + Recorded(Some(1)));
    assert MatchedIds([g1, g2], agent, judge) == Some([1] + Recorded(None));
    assert Missed([g1, g2], [1]) == [g2] by {
      assert [g1, g2][1..] == [g2] && [g2][1..] == [];
    }
  }

  /**
   * Two agent findings judged to match the same ground-truth id are both recorded: the
   * reported matched count can exceed the number of ground-truth findings it covers.
   */
  lemma ScenarioDuplicateMatch(g: Finding, fa: Finding, fb: Finding, judge: Judge)
    requires g.id == Some(1)
    requires judge([g], fa) == Judged(Some(1)) && judge([g], fb) == Judged(Some(1))
    ensures BenchProjectOf([g], [fa, fb], judge) == Some(BenchResult([1, 1], []))
  {
    var agent, first := [fa, fb], [fa];
    assert agent[..|agent| - 1] == first && agent[|agent| - 1] == fb;
    assert first[..|first| - 1] == [] && first[|first| - 1] == fa;
    assert [] + [1] == [1] && [1] + [1] == [1, 1];
    assert MatchedIds([g], first, judge) == Some([] + Recorded(Some(1)));
    assert MatchedIds([g], agent, judge) == Some([1] + Recorded(Some(1)));
    assert Missed([g], [1, 1]) == [] by {
      assert [g][1..] == [];
    }
  }

  /** How the batch scores one project: its report, or None when scoring it throws. */
  type Scorer = BenchInput -> Option<BenchResult>

  /**
   * The scorer of `bench`: `benchProject` reads the ground truth and the agent findings, a
   * failed read throwing, and scores the project on them.
   */
  function ScoreUnder(judge: Judge): Scorer {
    (p: BenchInput) =>
      if p.correctFindings.None? || p.agentFindings.None? then None
      else BenchProjectOf(p.correctFindings.value, p.agentFindings.value, judge)
  }

  /**
   * The batch run over `projects` in directory order: reports for the projects scored so far,
   * and the summary only when none of them threw (a throw ends the whole run).
   */
  function BenchAll(projects: seq<BenchInput>, score: Scorer): BenchRun
  {
    if projects == [] then BenchRun([], Some([]))
    else
      var run := BenchAll(projects[..|projects| - 1], score);
      var p := projects[|projects| - 1];
      if run.results.None? then run
      else
        match score(p)
        case None => BenchRun(run.reports, None)
        case Some(r) =>
          BenchRun(run.reports + [(p.projectName, r)],
                   Some(run.results.value + [Summary(p.projectName, |r.matchedFindings|, |r.missedFindings|)]))
  }

  /** Once a project has thrown, later projects are neither scored nor summarised. */
  lemma {:induction false} BenchAllStaysFailed(projects: seq<BenchInput>, more: seq<BenchInput>, score: Scorer)
    requires BenchAll(projects, score).results.None?
    ensures BenchAll(projects + more, score) == BenchAll(projects, score)
  {
    if more == [] {
      assert projects + more == projects;
    } else {
      var whole := projects + more;
      assert whole[..|whole| - 1] == projects + more[..|more| - 1];
      BenchAllStaysFailed(projects, more[..|more| - 1], score);
      BenchAllOutcome(whole, score);
    }
  }

  /** One more project: the run succeeds exactly when the run before it did and the project was scored. */
  lemma BenchAllOutcome(projects: seq<BenchInput>, score: Scorer)
    requires projects != []
    ensures var before := BenchAll(projects[..|projects| - 1], score);
      before.results.None? ==> BenchAll(projects, score) == before
    ensures BenchAll(projects, score).results.Some?
        <==> BenchAll(projects[..|projects| - 1], score).results.Some? && score(projects[|projects| - 1]).Some?
  {
  }

  /** Scores every project in order and collects the summary entries. */
  method Bench(projects: seq<BenchInput>, judge: Judge) returns (run: BenchRun)
    ensures run == BenchAll(projects, ScoreUnder(judge))
  {
    var reports: seq<(string, BenchResult)> := [];
    var results: seq<Summary> := [];
    for i := 0 to |projects|
      invariant BenchAll(projects[..i], ScoreUnder(judge)) == BenchRun(reports, Some(results))
    {
      var upto := projects[..i + 1];
      assert upto[..|upto| - 1] == projects[..i] && upto[|upto| - 1] == projects[i];
      var p := projects[i];
      var result: Option<BenchResult> := None;
      if p.correctFindings.Some? && p.agentFindings.Some? {
        result := BenchProject(p.correctFindings.value, p.agentFindings.value, judge);
      }
      assert ScoreUnder(judge)(p) == result;
      if result.None? {
        assert upto + projects[i + 1..] == projects;
        BenchAllStaysFailed(upto, projects[i + 1..], ScoreUnder(judge));
        return BenchRun(reports, None);
      }
      reports := reports + [(p.projectName, result.value)];
      results := results + [Summary(p.projectName, |result.value.matchedFindings|, |result.value.missedFindings|)];
    }
    assert projects[..|projects|] == projects;
    run := BenchRun(reports, Some(results));
  }

  /** A batch run produces a summary exactly when no project throws. */
  lemma {:induction false} BenchAllSucceeds(projects: seq<BenchInput>, score: Scorer)
    ensures BenchAll(projects, score).results.Some? <==> AllScored(projects, score)
  {
    if projects != [] {
      BenchAllSucceeds(projects[..|projects| - 1], score);
      BenchAllOutcome(projects, score);
      AllScoredStep(projects, score);
    }
  }

  /** Every project of the batch is scored without a throw. */
  predicate AllScored(projects: seq<BenchInput>, score: Scorer) {
    forall i :: 0 <= i < |projects| ==> score(projects[i]).Some?
  }

  /** All of a non-empty batch is scored exactly when all but its last project are and the last is. */
  lemma AllScoredStep(projects: seq<BenchInput>, score: Scorer)
    requires projects != []
    ensures AllScored(projects, score)
        <==> AllScored(projects[..|projects| - 1], score) && score(projects[|projects| - 1]).Some?
  {
    var init := projects[..|projects| - 1];
    assert forall i :: 0 <= i < |init| ==> init[i] == projects[i];
  }

  /** A successful run over a non-empty batch extends the run over all but its last project by one entry. */
  lemma BenchAllStep(projects: seq<BenchInput>, score: Scorer)
    requires projects != [] && BenchAll(projects, score).results.Some?
    ensures var before, p := BenchAll(projects[..|projects| - 1], score), projects[|projects| - 1];
      before.results.Some? && score(p).Some? &&
      BenchAll(projects, score)
        == BenchRun(before.reports + [(p.projectName, score(p).value)],
                    Some(before.results.value + [Summary(p.projectName,
                                                         |score(p).value.matchedFindings|,
                                                         |score(p).value.missedFindings|)]))
  {
  }

  /** A successful batch run wrote one report per project, in directory order. */
  lemma {:induction false} BenchAllReports(projects: seq<BenchInput>, score: Scorer)
    requires BenchAll(projects, score).results.Some?
    ensures |BenchAll(projects, score).reports| == |projects|
    ensures forall i :: 0 <= i < |projects| ==>
        score(projects[i]).Some? &&
        BenchAll(projects, score).reports[i] == (projects[i].projectName, score(projects[i]).value)
  {
    if projects != [] {
      var init := projects[..|projects| - 1];
      BenchAllStep(projects, score);
      BenchAllReports(init, score);
      assert forall i :: 0 <= i < |init| ==> projects[i] == init[i];
    }
  }

  /**
   * A successful batch summary has one entry per project, in directory order, holding the
   * lengths of that project's report.
   */
  lemma {:induction false} BenchAllSummaries(projects: seq<BenchInput>, score: Scorer)
    requires BenchAll(projects, score).results.Some?
    ensures |BenchAll(projects, score).results.value| == |projects|
    ensures forall i :: 0 <= i < |projects| ==>
        score(projects[i]).Some? &&
        BenchAll(projects, score).results.value[i]
          == Summary(projects[i].projectName,
                     |score(projects[i]).value.matchedFindings|,
                     |score(projects[i]).value.missedFindings|)
  {
    if projects != [] {
      var init := projects[..|projects| - 1];
      BenchAllStep(projects, score);
      BenchAllSummaries(init, score);
      assert forall i :: 0 <= i < |init| ==> projects[i] == init[i];
    }
  }

  /**
   * When project `k` is the first to throw, the run has no summary and its reports are exactly
   * those of the projects before `k`.
   */
  lemma BenchAllFirstFailure(projects: seq<BenchInput>, score: Scorer, k: nat)
    requires k < |projects|
    requires forall i :: 0 <= i < k ==> score(projects[i]).Some?
    requires score(projects[k]).None?
    ensures BenchAll(projects, score).results.None?
    ensures BenchAll(projects, score).reports == BenchAll(projects[..k], score).reports
    ensures |BenchAll(projects, score).reports| == k
  {
    var before := projects[..k];
    assert forall i :: 0 <= i < k ==> before[i] == projects[i];
    assert AllScored(before, score);
    BenchAllSucceeds(before, score);
    BenchAllReports(before, score);
    var upto := projects[..k + 1];
    assert upto[..|upto| - 1] == before && upto[|upto| - 1] == projects[k];
    assert upto + projects[k + 1..] == projects;
    BenchAllStaysFailed(upto, projects[k + 1..], score);
  }

  /**
   * A project whose ground truth or agent findings cannot be read ends the run like a throwing
   * judge: no summary, and only the reports of the projects before it.
   */
  lemma UnreadableProjectEndsRun(projects: seq<BenchInput>, judge: Judge, k: nat)
    requires k < |projects|
    requires forall i :: 0 <= i < k ==> ScoreUnder(judge)(projects[i]).Some?
    requires projects[k].correctFindings.None? || projects[k].agentFindings.None?
    ensures BenchAll(projects, ScoreUnder(judge)).results.None?
    ensures |BenchAll(projects, ScoreUnder(judge)).reports| == k
  {
    BenchAllFirstFailure(projects, ScoreUnder(judge), k);
  }
}
