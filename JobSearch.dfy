/**
 * The public filter pipeline of the job board (src/pages/Index.tsx): the
 * canonical job list is narrowed, one optional criterion after another, by
 * industry, location, experience band, salary band and a free-text query.
 * Every stage is a stable `Array.prototype.filter`.
 */
module JobSearch {
  import opened Common
  import opened JobTypes

  /**
   * The filter criteria held by the index page. A selection is a
   * `string | null`; a selection is active when it is truthy (neither null
   * nor "").
   */
  datatype Criteria = Criteria(
    industry: Option<string>,
    location: Option<string>,
    experience: Option<string>,
    salary: Option<string>,
    query: string)

  const NoCriteria := Criteria(None, None, None, None, "")

  /** The five stages of the pipeline, one per criterion. */
  datatype Stage = IndustryStage | LocationStage | ExperienceStage | SalaryStage | QueryStage

  /** The order in which Index.tsx applies the stages. */
  const SourceOrder: seq<Stage> := [IndustryStage, LocationStage, ExperienceStage, SalaryStage, QueryStage]

  // ---------------------------------------------------------------------------
  // the tests of the stages
  // ---------------------------------------------------------------------------

  /** `job.keySkills.some(skill => skill.toLowerCase().includes(q))` */
  predicate AnySkillContains(skills: seq<string>, q: string) {
    exists k :: 0 <= k < |skills| && Contains(Lower(skills[k]), q)
  }

  /** The text test of the search stage, for a lower-cased query `q`. */
  predicate TextMatches(job: Job, q: string) {
    Contains(Lower(job.title), q) || AnySkillContains(job.keySkills, q) ||
    Contains(Lower(job.description), q)
  }

  /** The experience stage applies only when the id names a known band. */
  predicate ExperienceActive(c: Criteria) {
    Truthy(c.experience) && FindFirst(ExperienceRanges, ExperienceId, c.experience.value).Some?
  }

  /**
   * Whether a stage runs: a selection must be truthy (the experience id must
   * also name a known band), and the query must not be blank after `trim()`.
   */
  predicate Active(c: Criteria, st: Stage) {
    match st
    case IndustryStage => Truthy(c.industry)
    case LocationStage => Truthy(c.location)
    case ExperienceStage => ExperienceActive(c)
    case SalaryStage => Truthy(c.salary)
    case QueryStage => !IsBlank(c.query)
  }

  /**
   * The test a running stage applies to one job. The query is lower-cased but
   * not trimmed. A job with a null salary band never passes the salary test.
   */
  predicate Test(c: Criteria, st: Stage, job: Job)
    requires Active(c, st)
  {
    match st
    case IndustryStage => job.industry.id == c.industry.value
    case LocationStage => job.location.id == c.location.value
    case ExperienceStage => job.experience.id == c.experience.value
    case SalaryStage => job.salaryRange.Some? && job.salaryRange.value.id == c.salary.value
    case QueryStage => TextMatches(job, Lower(c.query))
  }

  /** A stage keeps a job when it does not run or when the job passes its test. */
  predicate Keep(c: Criteria, st: Stage, job: Job) {
    Active(c, st) ==> Test(c, st, job)
  }

  /** Every stage of `stages` keeps the job. */
  predicate KeepAll(c: Criteria, stages: seq<Stage>, job: Job) {
    forall k :: 0 <= k < |stages| ==> Keep(c, stages[k], job)
  }

  /** A job passes the filters iff every active criterion accepts it. */
  predicate Matches(c: Criteria, job: Job) {
    KeepAll(c, SourceOrder, job)
  }

  // ---------------------------------------------------------------------------
  // stable filtering
  // ---------------------------------------------------------------------------

  /**
   * `s.filter(job => every stage of stages keeps job)`: the elements of `s`
   * that pass, in their order.
   */
  function Select(c: Criteria, stages: seq<Stage>, s: seq<Job>): (r: seq<Job>)
    ensures |r| <= |s|
    ensures forall k :: 0 <= k < |r| ==> r[k] in s && KeepAll(c, stages, r[k])
  {
    if |s| == 0 then []
    else if KeepAll(c, stages, s[0]) then [s[0]] + Select(c, stages, s[1..])
    else Select(c, stages, s[1..])
  }

  /** One step of the pipeline: `if (active) result = result.filter(test)`. */
  function RunStage(c: Criteria, st: Stage, s: seq<Job>): seq<Job> {
    if Active(c, st) then Select(c, [st], s) else s
  }

  /** The stages run one after another, each on the previous stage's result. */
  function RunStages(c: Criteria, stages: seq<Stage>, s: seq<Job>): seq<Job>
    decreases |stages|
  {
    if |stages| == 0 then s else RunStages(c, stages[1..], RunStage(c, stages[0], s))
  }

  /** The pipeline of Index.tsx, stages in the source's order. */
  function ApplyFilters(jobs: seq<Job>, c: Criteria): seq<Job> {
    var byIndustry := RunStage(c, IndustryStage, jobs);
    var byLocation := RunStage(c, LocationStage, byIndustry);
    var byExperience := RunStage(c, ExperienceStage, byLocation);
    var bySalary := RunStage(c, SalaryStage, byExperience);
    RunStage(c, QueryStage, bySalary)
  }

  /** `a` is `b` with some elements left out, the rest in their order. */
  predicate IsSubsequence(a: seq<Job>, b: seq<Job>)
    decreases |b|
  {
    if |a| == 0 then true
    else if |b| == 0 then false
    else (a[0] == b[0] && IsSubsequence(a[1..], b[1..])) || IsSubsequence(a, b[1..])
  }

  // ---------------------------------------------------------------------------
  // properties of the stable filter
  // ---------------------------------------------------------------------------

  lemma {:induction false} SelectIsSubsequence(c: Criteria, stages: seq<Stage>, s: seq<Job>)
    ensures IsSubsequence(Select(c, stages, s), s)
  {
    if |s| > 0 {
      SelectIsSubsequence(c, stages, s[1..]);
      if KeepAll(c, stages, s[0]) {
        assert Select(c, stages, s)[1..] == Select(c, stages, s[1..]);
      }
    }
  }

  /**
   * Filtering keeps every occurrence of a job that passes and drops every
   * occurrence of one that does not.
   */
  lemma {:induction false} SelectCounts(c: Criteria, stages: seq<Stage>, s: seq<Job>, j: Job)
    ensures multiset(Select(c, stages, s))[j] == if KeepAll(c, stages, j) then multiset(s)[j] else 0
  {
    if |s| > 0 {
      SelectCounts(c, stages, s[1..], j);
      assert s == [s[0]] + s[1..];
    }
  }

  /** A filter that every element passes changes nothing. */
  lemma {:induction false} SelectAllKept(c: Criteria, stages: seq<Stage>, s: seq<Job>)
    requires forall k :: 0 <= k < |s| ==> KeepAll(c, stages, s[k])
    ensures Select(c, stages, s) == s
  {
    if |s| > 0 {
      SelectAllKept(c, stages, s[1..]);
    }
  }

  /** Two stage lists that keep the same elements filter alike. */
  lemma {:induction false} SelectSameKeep(c: Criteria, a: seq<Stage>, d: Criteria, b: seq<Stage>, s: seq<Job>)
    requires forall k :: 0 <= k < |s| ==> KeepAll(c, a, s[k]) == KeepAll(d, b, s[k])
    ensures Select(c, a, s) == Select(d, b, s)
  {
    if |s| > 0 {
      SelectSameKeep(c, a, d, b, s[1..]);
    }
  }

  lemma KeepAllConcat(c: Criteria, a: seq<Stage>, b: seq<Stage>, job: Job)
    ensures KeepAll(c, a + b, job) == (KeepAll(c, a, job) && KeepAll(c, b, job))
  {
    if KeepAll(c, a, job) && KeepAll(c, b, job) {
      forall k | 0 <= k < |a + b| ensures Keep(c, (a + b)[k], job) {
        if k >= |a| { assert (a + b)[k] == b[k - |a|]; }
      }
    }
    if KeepAll(c, a + b, job) {
      forall k | 0 <= k < |b| ensures Keep(c, b[k], job) {
        assert (a + b)[|a| + k] == b[k];
      }
      forall k | 0 <= k < |a| ensures Keep(c, a[k], job) {
        assert (a + b)[k] == a[k];
      }
    }
  }

  /** Filtering by `a` and then by `b` is filtering once by both. */
  lemma {:induction false} SelectFuse(c: Criteria, a: seq<Stage>, b: seq<Stage>, s: seq<Job>)
    ensures Select(c, b, Select(c, a, s)) == Select(c, a + b, s)
  {
    if |s| > 0 {
      SelectFuse(c, a, b, s[1..]);
      KeepAllConcat(c, a, b, s[0]);
    }
  }

  /** A stage that does not run keeps everything, so each step is one filter. */
  lemma RunStageIsSelect(c: Criteria, st: Stage, s: seq<Job>)
    ensures RunStage(c, st, s) == Select(c, [st], s)
  {
    if !Active(c, st) {
      SelectAllKept(c, [st], s);
    }
  }

  /** Running the stages one after another is one filter by all of them. */
  lemma {:induction false} RunStagesIsSelect(c: Criteria, stages: seq<Stage>, s: seq<Job>)
    ensures RunStages(c, stages, s) == Select(c, stages, s)
    decreases |stages|
  {
    if |stages| == 0 {
      SelectAllKept(c, stages, s);
    } else {
      var first := RunStage(c, stages[0], s);
      RunStageIsSelect(c, stages[0], s);
      RunStagesIsSelect(c, stages[1..], first);
      SelectFuse(c, [stages[0]], stages[1..], s);
      assert [stages[0]] + stages[1..] == stages;
    }
  }

  /** The nested pipeline of the source is the run of the stages in source order. */
  lemma ApplyFiltersIsRun(jobs: seq<Job>, c: Criteria)
    ensures ApplyFilters(jobs, c) == RunStages(c, SourceOrder, jobs)
  {
  }

  /** The whole pipeline is one stable filter by the conjunction of the stages. */
  lemma ApplyFiltersIsConjunction(jobs: seq<Job>, c: Criteria)
    ensures ApplyFilters(jobs, c) == Select(c, SourceOrder, jobs)
  {
    ApplyFiltersIsRun(jobs, c);
    RunStagesIsSelect(c, SourceOrder, jobs);
  }

  // ---------------------------------------------------------------------------
  // properties of the pipeline
  // ---------------------------------------------------------------------------

  /**
   * The stages commute: running any list of stages that mentions the same
   * stages as another gives the same jobs, in whatever order they run.
   */
  lemma AnyOrderAgrees(c: Criteria, a: seq<Stage>, b: seq<Stage>, s: seq<Job>)
    requires forall st :: st in a <==> st in b
    ensures RunStages(c, a, s) == RunStages(c, b, s)
  {
    RunStagesIsSelect(c, a, s);
    RunStagesIsSelect(c, b, s);
    forall k | 0 <= k < |s| ensures KeepAll(c, a, s[k]) == KeepAll(c, b, s[k]) {
      if KeepAll(c, a, s[k]) {
        forall m | 0 <= m < |b| ensures Keep(c, b[m], s[k]) {
          assert b[m] in a;
        }
      }
      if KeepAll(c, b, s[k]) {
        forall m | 0 <= m < |a| ensures Keep(c, a[m], s[k]) {
          assert a[m] in b;
        }
      }
    }
    SelectSameKeep(c, a, c, b, s);
  }

  /** In particular the reverse of the source's order gives the same list. */
  lemma ReversedOrderAgrees(jobs: seq<Job>, c: Criteria)
    ensures RunStages(c, [QueryStage, SalaryStage, ExperienceStage, LocationStage, IndustryStage], jobs) ==
            ApplyFilters(jobs, c)
  {
    var rev := [QueryStage, SalaryStage, ExperienceStage, LocationStage, IndustryStage];
    forall st ensures st in rev <==> st in SourceOrder {
      match st
      case IndustryStage => assert SourceOrder[0] == st && rev[4] == st;
      case LocationStage => assert SourceOrder[1] == st && rev[3] == st;
      case ExperienceStage => assert SourceOrder[2] == st && rev[2] == st;
      case SalaryStage => assert SourceOrder[3] == st && rev[1] == st;
      case QueryStage => assert SourceOrder[4] == st && rev[0] == st;
    }
    AnyOrderAgrees(c, rev, SourceOrder, jobs);
    ApplyFiltersIsRun(jobs, c);
  }

  lemma MatchesUnfold(c: Criteria, job: Job)
    ensures Matches(c, job) <==>
      Keep(c, IndustryStage, job) && Keep(c, LocationStage, job) && Keep(c, ExperienceStage, job) &&
      Keep(c, SalaryStage, job) && Keep(c, QueryStage, job)
  {
    assert SourceOrder[0] == IndustryStage && SourceOrder[1] == LocationStage;
    assert SourceOrder[2] == ExperienceStage && SourceOrder[3] == SalaryStage;
    assert SourceOrder[4] == QueryStage;
  }

  /**
   * Soundness: every listed job comes from the input and satisfies every
   * active criterion; with a salary selected, a job without a salary band is
   * never listed.
   */
  lemma ApplyFiltersSound(jobs: seq<Job>, c: Criteria, job: Job)
    requires job in ApplyFilters(jobs, c)
    ensures job in jobs
    ensures Truthy(c.industry) ==> job.industry.id == c.industry.value
    ensures Truthy(c.location) ==> job.location.id == c.location.value
    ensures ExperienceActive(c) ==> job.experience.id == c.experience.value
    ensures Truthy(c.salary) ==> job.salaryRange.Some? && job.salaryRange.value.id == c.salary.value
    ensures !IsBlank(c.query) ==> TextMatches(job, Lower(c.query))
  {
    ApplyFiltersIsConjunction(jobs, c);
    MatchesUnfold(c, job);
  }

  /**
   * Completeness, with multiplicity: every occurrence of a job that satisfies
   * every active criterion is kept, and nothing else is.
   */
  lemma ApplyFiltersComplete(jobs: seq<Job>, c: Criteria, job: Job)
    ensures multiset(ApplyFilters(jobs, c))[job] == if Matches(c, job) then multiset(jobs)[job] else 0
    ensures job in jobs && Matches(c, job) ==> job in ApplyFilters(jobs, c)
  {
    ApplyFiltersIsConjunction(jobs, c);
    SelectCounts(c, SourceOrder, jobs, job);
  }

  /** Filtering never adds or reorders jobs. */
  lemma ApplyFiltersSubsequence(jobs: seq<Job>, c: Criteria)
    ensures IsSubsequence(ApplyFilters(jobs, c), jobs)
  {
    ApplyFiltersIsConjunction(jobs, c);
    SelectIsSubsequence(c, SourceOrder, jobs);
  }

  /** With no criterion active the list is shown unchanged. */
  lemma NoCriteriaKeepsAll(jobs: seq<Job>, c: Criteria)
    requires !Truthy(c.industry) && !Truthy(c.location) && !Truthy(c.experience)
    requires !Truthy(c.salary) && IsBlank(c.query)
    ensures ApplyFilters(jobs, c) == jobs
  {
  }

  /** An experience id that names no known band filters nothing. */
  lemma UnknownExperienceIgnored(jobs: seq<Job>, c: Criteria)
    requires Truthy(c.experience)
    requires forall k :: 0 <= k < |ExperienceRanges| ==> ExperienceRanges[k].id != c.experience.value
    ensures ApplyFilters(jobs, c) == ApplyFilters(jobs, c.(experience := None))
  {
    var d := c.(experience := None);
    ApplyFiltersIsConjunction(jobs, c);
    ApplyFiltersIsConjunction(jobs, d);
    forall k | 0 <= k < |jobs| ensures Matches(c, jobs[k]) == Matches(d, jobs[k]) {
      MatchesUnfold(c, jobs[k]);
      MatchesUnfold(d, jobs[k]);
    }
    SelectSameKeep(c, SourceOrder, d, SourceOrder, jobs);
  }

  /** A blank query filters nothing, however many white-space characters it has. */
  lemma BlankQueryIgnored(jobs: seq<Job>, c: Criteria)
    requires IsBlank(c.query)
    ensures ApplyFilters(jobs, c) == ApplyFilters(jobs, c.(query := ""))
  {
    var d := c.(query := "");
    ApplyFiltersIsConjunction(jobs, c);
    ApplyFiltersIsConjunction(jobs, d);
    forall k | 0 <= k < |jobs| ensures Matches(c, jobs[k]) == Matches(d, jobs[k]) {
      MatchesUnfold(c, jobs[k]);
      MatchesUnfold(d, jobs[k]);
    }
    SelectSameKeep(c, SourceOrder, d, SourceOrder, jobs);
  }

  /** The query is not trimmed: a padded query does not match the bare word. */
  lemma UntrimmedQueryExample(job: Job)
    requires job.title == "React" && job.keySkills == [] && job.description == ""
    ensures !Matches(NoCriteria.(query := " react"), job)
    ensures Matches(NoCriteria.(query := "react"), job)
  {
    var q := Lower(" react");
    assert q == " react";
    assert !IsJsWhitespace(" react"[1]);
    assert !IsBlank(" react");
    assert Lower("React") == "react";
    assert !Contains(Lower("React"), q) by {
      ContainsAt("react", q);
    }
    assert !Contains(Lower(""), q);
    assert !AnySkillContains([], q);
    assert Lower("react") == "react";
    assert "react" <= Lower("React");
    MatchesUnfold(NoCriteria.(query := " react"), job);
    MatchesUnfold(NoCriteria.(query := "react"), job);
  }
}
