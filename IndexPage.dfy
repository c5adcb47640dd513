/**
 * The public index page (src/pages/Index.tsx): it owns the filter criteria,
 * re-derives the filtered list from the canonical job list whenever a
 * criterion changes, passes it to the job list, and opens the application
 * form for a chosen job.
 */
module IndexPage {
  import opened Common
  import opened JobTypes
  import opened JobSearch
  import opened JobFiltersPanel
  import opened JobListView

  class JobBoard {
    /** The canonical job list (the mock jobs of mockData.ts). */
    const allJobs: seq<Job>
    const filters: FilterState
    const list: JobList
    var isFormOpen: bool
    var selectedJobId: Option<string>

    ghost predicate Valid()
      reads this, list
    {
      list.Valid()
    }

    /**
     * Mounting: no criteria, the full list shown, not loading, the form closed.
     */
    constructor (jobs: seq<Job>)
      ensures Valid() && fresh(filters) && fresh(list)
      ensures allJobs == jobs && filters.Criteria() == NoCriteria
      ensures list.filteredJobs == jobs && !list.isLoading && list.displayCount == PageSize
      ensures !isFormOpen && selectedJobId == None
    {
      allJobs := jobs;
      filters := new FilterState();
      list := new JobList(jobs, false);
      isFormOpen := false;
      selectedJobId := None;
    }

    /** The effect starts on a criteria change: the list shows the spinner. */
    method BeginApply()
      requires Valid()
      modifies list
      ensures Valid()
      ensures list.isLoading && list.filteredJobs == old(list.filteredJobs)
      ensures list.displayCount == old(list.displayCount)
    {
      list.ReceiveLoading(true);
    }

    /**
     * The effect's delayed callback: the list becomes the pipeline's result
     * over the canonical list for the current criteria, loading ends, and the
     * list's display count is reset to one page.
     */
    method CompleteApply()
      requires Valid()
      modifies list
      ensures Valid()
      ensures list.filteredJobs == ApplyFilters(allJobs, filters.Criteria())
      ensures !list.isLoading && list.displayCount == PageSize
    {
      var result := ApplyFilters(allJobs, filters.Criteria());
      list.ReceiveJobs(result);
      list.ReceiveLoading(false);
    }

    /** `handleApply(jobId)`: remember the job and open the form. */
    method HandleApply(jobId: string)
      modifies this
      ensures isFormOpen && selectedJobId == Some(jobId)
    {
      selectedJobId := Some(jobId);
      isFormOpen := true;
    }

    /** `closeForm()`: close the form and forget the job. */
    method CloseForm()
      modifies this
      ensures !isFormOpen && selectedJobId == None
    {
      isFormOpen := false;
      selectedJobId := None;
    }
  }
}
