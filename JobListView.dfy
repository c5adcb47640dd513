/**
 * The job list (src/components/JobList.tsx): a spinner while loading, a
 * "No jobs found" panel for an empty list, otherwise the first
 * `displayCount` jobs and a "Load More Jobs" button while more remain.
 */
module JobListView {
  import opened JobTypes

  /** The page size: the initial count and the step of "Load More Jobs". */
  const PageSize: nat := 6

  function Min(a: nat, b: nat): nat {
    if a <= b then a else b
  }

  /** What the list renders. */
  datatype View =
    | Spinner
    | NoJobsFound
    | Listing(total: nat, showing: nat, cards: seq<Job>, loadMore: bool)

  /** The rendering for the given props and display count. */
  function Render(isLoading: bool, jobs: seq<Job>, displayCount: nat): (v: View)
    ensures v.Spinner? <==> isLoading
    ensures v.NoJobsFound? <==> !isLoading && |jobs| == 0
    ensures v.Listing? ==>
      && v.total == |jobs|
      && v.showing == |v.cards|
      && |v.cards| == Min(displayCount, |jobs|)
      && v.cards <= jobs
      && (v.loadMore <==> displayCount < |jobs|)
  {
    if isLoading then Spinner
    else if |jobs| == 0 then NoJobsFound
    else Listing(|jobs|, Min(displayCount, |jobs|), jobs[..Min(displayCount, |jobs|)], displayCount < |jobs|)
  }

  /** Loading more shows exactly the next page of jobs after the ones shown. */
  lemma LoadMoreShowsNextPage(jobs: seq<Job>, displayCount: nat)
    requires displayCount < |jobs|
    ensures Render(false, jobs, displayCount + PageSize).cards ==
            Render(false, jobs, displayCount).cards + jobs[displayCount..Min(displayCount + PageSize, |jobs|)]
  {
    assert jobs[..Min(displayCount + PageSize, |jobs|)] ==
           jobs[..displayCount] + jobs[displayCount..Min(displayCount + PageSize, |jobs|)];
  }

  /** Once the count reaches the length, every job is shown and the button is gone. */
  lemma AllShownWhenCountReachesLength(jobs: seq<Job>, displayCount: nat)
    requires |jobs| > 0 && displayCount >= |jobs|
    ensures Render(false, jobs, displayCount) == Listing(|jobs|, |jobs|, jobs, false)
  {
  }

  class JobList {
    /** The props from the index page. */
    var filteredJobs: seq<Job>
    var isLoading: bool
    /** The component's own state. */
    var displayCount: nat

    /** The display count is always a positive multiple of the page size. */
    ghost predicate Valid()
      reads this
    {
      displayCount > 0 && displayCount % PageSize == 0
    }

    function View(): View
      reads this
    {
      Render(isLoading, filteredJobs, displayCount)
    }

    /** Mounting with the given props: the count starts at one page. */
    constructor (jobs: seq<Job>, loading: bool)
      ensures Valid()
      ensures filteredJobs == jobs && isLoading == loading && displayCount == PageSize
    {
      filteredJobs, isLoading, displayCount := jobs, loading, PageSize;
    }

    /** A new `filteredJobs` prop: the effect resets the count to one page. */
    method ReceiveJobs(jobs: seq<Job>)
      requires Valid()
      modifies this
      ensures Valid()
      ensures filteredJobs == jobs && isLoading == old(isLoading) && displayCount == PageSize
    {
      filteredJobs := jobs;
      displayCount := PageSize;
    }

    /** A new `isLoading` prop; the count is untouched. */
    method ReceiveLoading(loading: bool)
      requires Valid()
      modifies this
      ensures Valid()
      ensures filteredJobs == old(filteredJobs) && isLoading == loading && displayCount == old(displayCount)
    {
      isLoading := loading;
    }

    /** "Load More Jobs": the count grows by exactly one page. */
    method LoadMore()
      requires Valid()
      modifies this
      ensures Valid()
      ensures displayCount == old(displayCount) + PageSize
      ensures filteredJobs == old(filteredJobs) && isLoading == old(isLoading)
    {
      displayCount := displayCount + PageSize;
    }
  }
}
