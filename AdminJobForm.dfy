/**
 * The job creation page (src/pages/AdminJobForm.tsx): the schema gates the
 * submit, a signed-in user is required, and the row is inserted with the
 * posting time and the author; `isLoading` is reset on every path past the
 * guard.
 */
module AdminJobCreate {
  import opened Common
  import opened JobFormMapping

  const CreateFallbackMessage := "Failed to create job."

  /** The row the page inserts, when it inserts one. */
  function CreateInsert(values: JobFormValues, user: Option<string>, nowIso: string): Option<JobRowData> {
    if SchemaAccepts(values) && user.Some? then Some(CreateRow(values, nowIso, user.value)) else None
  }

  /** How a submit of the creation page ends. */
  function CreateOutcome(values: JobFormValues, user: Option<string>, answer: DbAnswer): SaveOutcome {
    if !SchemaAccepts(values) then SchemaRejected(Violations(values, SchemaFields))
    else if user.None? then NotAuthenticated
    else SaveResult(answer, CreateFallbackMessage)
  }

  /**
   * The schema is checked first, then the user; only a submit that passes
   * both reaches the database, and it is saved exactly when the insert
   * succeeds.
   */
  lemma CreateOutcomeCases(values: JobFormValues, user: Option<string>, nowIso: string, answer: DbAnswer)
    ensures var o := CreateOutcome(values, user, answer);
      && (o.SchemaRejected? <==> !SchemaAccepts(values))
      && (o.SchemaRejected? ==> |o.fields| > 0 && forall f :: f in o.fields <==> f in SchemaFields && TooShort(values, f))
      && (o.NotAuthenticated? <==> SchemaAccepts(values) && user.None?)
      && !o.NoRouteId?
      && (o.Saved? <==> CreateInsert(values, user, nowIso).Some? && answer.DbOk?)
      && (o.SaveFailed? <==> CreateInsert(values, user, nowIso).Some? && answer.DbFailed?)
  {
    ViolationsSpec(values, SchemaFields);
  }

  /**
   * An inserted row carries the posting time and the author, and agrees
   * with the submitted values on every shared column.
   */
  lemma CreateInsertRow(values: JobFormValues, user: Option<string>, nowIso: string)
    ensures var ins := CreateInsert(values, user, nowIso);
      && (ins.Some? <==> SchemaAccepts(values) && user.Some?)
      && (ins.Some? ==>
            && ins.value.dateposted == Some(nowIso) && ins.value.userId == user
            && ins.value.(dateposted := None, userId := None) == UpdateRow(values))
  {
  }

  class CreatePage {
    var isLoading: bool
    /** Where the page last navigated, if anywhere. */
    var navigatedTo: Option<string>

    constructor ()
      ensures !isLoading && navigatedTo.None?
    {
      isLoading := false;
      navigatedTo := None;
    }

    /**
     * A submit of the form: the resolver's schema check, then
     * `handleSubmit` with the signed-in user's id (None when signed out),
     * the clock's ISO text and the database's answer. The loading flag is
     * reset after an insert; only a successful insert navigates to the
     * admin list.
     */
    method Submit(values: JobFormValues, user: Option<string>, nowIso: string, answer: DbAnswer)
      returns (outcome: SaveOutcome, inserted: Option<JobRowData>)
      modifies this
      ensures outcome == CreateOutcome(values, user, answer)
      ensures inserted == CreateInsert(values, user, nowIso)
      ensures isLoading == if inserted.Some? then false else old(isLoading)
      ensures navigatedTo == if outcome.Saved? then Some(AdminPath) else old(navigatedTo)
    {
      inserted := None;
      var violations := Violations(values, SchemaFields);
      if |violations| > 0 {
        outcome := SchemaRejected(violations);
        return;
      }
      if user.None? {
        outcome := NotAuthenticated;
        return;
      }
      isLoading := true;
      var jobData := CreateRow(values, nowIso, user.value);
      inserted := Some(jobData);
      outcome := SaveResult(answer, CreateFallbackMessage);
      if outcome.Saved? {
        navigatedTo := Some(AdminPath);
      }
      isLoading := false;
    }
  }
}
