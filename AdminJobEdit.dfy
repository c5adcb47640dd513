/**
 * The job edit page (src/pages/AdminJobEdit.tsx): on mount it loads the
 * stored row into the form, and a submit updates the row named by the route,
 * without touching the posting time or the author.
 */
module AdminJobEdit {
  import opened Common
  import opened JobFormMapping

  const UpdateFallbackMessage := "Failed to update job."
  const LoginPath := "/admin/login"

  /** The route id and row the page updates, when it updates one. */
  function UpdateTarget(submitted: JobFormValues, user: Option<string>, routeId: Option<string>): Option<(string, JobRowData)> {
    if SchemaAccepts(submitted) && user.Some? && Truthy(routeId) then Some((routeId.value, UpdateRow(submitted))) else None
  }

  /** How a submit of the edit page ends. */
  function UpdateOutcome(submitted: JobFormValues, user: Option<string>, routeId: Option<string>, answer: DbAnswer): SaveOutcome {
    if !SchemaAccepts(submitted) then SchemaRejected(Violations(submitted, SchemaFields))
    else if user.None? then NotAuthenticated
    else if !Truthy(routeId) then NoRouteId
    else SaveResult(answer, UpdateFallbackMessage)
  }

  /**
   * The schema, the user and the route id are checked in that order; only a
   * submit that passes all three reaches the database, and it is saved
   * exactly when the update succeeds.
   */
  lemma UpdateOutcomeCases(submitted: JobFormValues, user: Option<string>, routeId: Option<string>, answer: DbAnswer)
    ensures var o := UpdateOutcome(submitted, user, routeId, answer);
      && (o.SchemaRejected? <==> !SchemaAccepts(submitted))
      && (o.SchemaRejected? ==> |o.fields| > 0 && forall f :: f in o.fields <==> f in SchemaFields && TooShort(submitted, f))
      && (o.NotAuthenticated? <==> SchemaAccepts(submitted) && user.None?)
      && (o.NoRouteId? <==> SchemaAccepts(submitted) && user.Some? && !Truthy(routeId))
      && (o.Saved? <==> UpdateTarget(submitted, user, routeId).Some? && answer.DbOk?)
      && (o.SaveFailed? <==> UpdateTarget(submitted, user, routeId).Some? && answer.DbFailed?)
  {
    ViolationsSpec(submitted, SchemaFields);
  }

  /**
   * An update names the route's id and never carries `dateposted` or
   * `user_id`, whoever is signed in.
   */
  lemma UpdateTargetRow(submitted: JobFormValues, user: Option<string>, routeId: Option<string>)
    ensures var t := UpdateTarget(submitted, user, routeId);
      && (t.Some? <==> SchemaAccepts(submitted) && user.Some? && Truthy(routeId))
      && (t.Some? ==> t.value.0 == routeId.value && t.value.0 != "")
      && (t.Some? ==> t.value.1.dateposted.None? && t.value.1.userId.None?)
  {
  }

  class EditPage {
    /** The route's `id` parameter. */
    const routeId: Option<string>
    /** The form's current values. */
    var values: JobFormValues
    var isLoading: bool
    var isInitializing: bool
    var navigatedTo: Option<string>

    constructor (routeId: Option<string>)
      ensures this.routeId == routeId
      ensures values == DefaultValues && !isLoading && isInitializing && navigatedTo.None?
    {
      this.routeId := routeId;
      values := DefaultValues;
      isLoading := false;
      isInitializing := true;
      navigatedTo := None;
    }

    /**
     * `fetchJobData` with the query's answer (None for an error or no row):
     * a row is written into the form field by field; a missing row leaves
     * the form as it was and navigates back. Initialising ends either way.
     */
    method FetchJobData(answer: Option<JobRecord>)
      modifies this
      ensures answer.Some? ==> values == LoadValues(old(values), answer.value) && navigatedTo == old(navigatedTo)
      ensures answer.None? ==> values == old(values) && navigatedTo == Some(AdminPath)
      ensures !isInitializing && isLoading == old(isLoading)
    {
      if answer.None? {
        navigatedTo := Some(AdminPath);
        isInitializing := false;
        return;
      }
      var job := answer.value;
      values := values.(position := job.position);
      values := values.(jobId := OrElse(job.jobId, ""));
      var locationId := RefId(job.location);
      if locationId.Some? {
        values := values.(location := locationId.value);
      }
      var experienceId := RefId(job.experience);
      if experienceId.Some? {
        values := values.(experience := experienceId.value);
      }
      var industryId := RefId(job.industry);
      if industryId.Some? {
        values := values.(industry := industryId.value);
      }
      values := values.(description := job.description);
      if job.keyskills.Some? {
        values := values.(keySkills := Join(job.keyskills.value, '\n'));
      }
      values := values.(status := StatusFlag(job.status));
      isInitializing := false;
    }

    /**
     * The mount effect: without a session the page goes to the login; with
     * one and a route id it loads the row; with a session and no id it
     * stops initialising and goes back to the list.
     */
    method Mount(hasSession: bool, answer: Option<JobRecord>)
      modifies this
      ensures !hasSession ==> navigatedTo == Some(LoginPath) && values == old(values) && isInitializing == old(isInitializing)
      ensures hasSession && Truthy(routeId) ==>
        && !isInitializing
        && values == (if answer.Some? then LoadValues(old(values), answer.value) else old(values))
        && navigatedTo == (if answer.Some? then old(navigatedTo) else Some(AdminPath))
      ensures hasSession && !Truthy(routeId) ==> !isInitializing && values == old(values) && navigatedTo == Some(AdminPath)
      ensures isLoading == old(isLoading)
    {
      if !hasSession {
        navigatedTo := Some(LoginPath);
        return;
      }
      if Truthy(routeId) {
        FetchJobData(answer);
      } else {
        isInitializing := false;
        navigatedTo := Some(AdminPath);
      }
    }

    /**
     * A submit: the schema check, then `handleSubmit` with the signed-in
     * user's id and the database's answer. The loading flag is reset after
     * an update; only a successful update navigates to the admin list.
     */
    method Submit(submitted: JobFormValues, user: Option<string>, answer: DbAnswer)
      returns (outcome: SaveOutcome, updated: Option<(string, JobRowData)>)
      modifies this
      ensures outcome == UpdateOutcome(submitted, user, routeId, answer)
      ensures updated == UpdateTarget(submitted, user, routeId)
      ensures isLoading == if updated.Some? then false else old(isLoading)
      ensures navigatedTo == if outcome.Saved? then Some(AdminPath) else old(navigatedTo)
      ensures values == old(values) && isInitializing == old(isInitializing)
    {
      updated := None;
      var violations := Violations(submitted, SchemaFields);
      if |violations| > 0 {
        outcome := SchemaRejected(violations);
        return;
      }
      if user.None? {
        outcome := NotAuthenticated;
        return;
      }
      if !Truthy(routeId) {
        outcome := NoRouteId;
        return;
      }
      isLoading := true;
      var jobData := UpdateRow(submitted);
      updated := Some((routeId.value, jobData));
      outcome := SaveResult(answer, UpdateFallbackMessage);
      if outcome.Saved? {
        navigatedTo := Some(AdminPath);
      }
      isLoading := false;
    }
  }
}
