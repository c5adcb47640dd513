/**
 * The application dialog (src/components/ApplicationForm.tsx): the form's
 * state, its input, select and file handlers, and the submit pipeline
 * validate → upload → absolute URL → webhook → job id lookup → insert →
 * reset. The answers of the uploader, the webhook, the job lookup and the
 * insert, and the browser's origin, page URL and clock texts, are
 * parameters; what the pipeline asks of the outside world is returned as a
 * list of effects.
 */
module ApplicationForm {
  import opened Common
  import opened JobTypes
  import opened FileUploader
  import opened UrlEncoding

  // ---------------------------------------------------------------------------
  // form data
  // ---------------------------------------------------------------------------

  /** The form's state (`ApplicationForm` of src/data/jobTypes.ts). */
  datatype FormData = FormData(
    fullName: string,
    email: string,
    phone: string,
    yearsOfExperience: string,
    currentCompany: string,
    currentDesignation: string,
    currentCtc: string,
    currentTakeHome: string,
    expectedCtc: string,
    noticePeriod: string,
    location: string,
    department: string,
    otherDepartment: string,
    resume: Option<ResumeFile>,
    jobId: string)

  /** The text fields a change handler can name. */
  datatype TextField =
    | FullName | Email | Phone | YearsOfExperience | CurrentCompany | CurrentDesignation
    | CurrentCtc | CurrentTakeHome | ExpectedCtc | NoticePeriod | Location | Department
    | OtherDepartment | JobId

  function Text(f: FormData, field: TextField): string {
    match field
    case FullName => f.fullName
    case Email => f.email
    case Phone => f.phone
    case YearsOfExperience => f.yearsOfExperience
    case CurrentCompany => f.currentCompany
    case CurrentDesignation => f.currentDesignation
    case CurrentCtc => f.currentCtc
    case CurrentTakeHome => f.currentTakeHome
    case ExpectedCtc => f.expectedCtc
    case NoticePeriod => f.noticePeriod
    case Location => f.location
    case Department => f.department
    case OtherDepartment => f.otherDepartment
    case JobId => f.jobId
  }

  /** `{ ...formData, [name]: value }`: the named field takes the value and nothing else changes. */
  function WithText(f: FormData, field: TextField, value: string): (r: FormData)
    ensures Text(r, field) == value
    ensures forall other :: other != field ==> Text(r, other) == Text(f, other)
    ensures r.resume == f.resume
  {
    match field
    case FullName => f.(fullName := value)
    case Email => f.(email := value)
    case Phone => f.(phone := value)
    case YearsOfExperience => f.(yearsOfExperience := value)
    case CurrentCompany => f.(currentCompany := value)
    case CurrentDesignation => f.(currentDesignation := value)
    case CurrentCtc => f.(currentCtc := value)
    case CurrentTakeHome => f.(currentTakeHome := value)
    case ExpectedCtc => f.(expectedCtc := value)
    case NoticePeriod => f.(noticePeriod := value)
    case Location => f.(location := value)
    case Department => f.(department := value)
    case OtherDepartment => f.(otherDepartment := value)
    case JobId => f.(jobId := value)
  }

  /** A form is determined by its text fields and its résumé. */
  lemma FormDataExtensionality(f: FormData, g: FormData)
    requires forall field :: Text(f, field) == Text(g, field)
    requires f.resume == g.resume
    ensures f == g
  {
    assert Text(f, FullName) == Text(g, FullName) && Text(f, Email) == Text(g, Email);
    assert Text(f, Phone) == Text(g, Phone) && Text(f, YearsOfExperience) == Text(g, YearsOfExperience);
    assert Text(f, CurrentCompany) == Text(g, CurrentCompany);
    assert Text(f, CurrentDesignation) == Text(g, CurrentDesignation);
    assert Text(f, CurrentCtc) == Text(g, CurrentCtc) && Text(f, CurrentTakeHome) == Text(g, CurrentTakeHome);
    assert Text(f, ExpectedCtc) == Text(g, ExpectedCtc) && Text(f, NoticePeriod) == Text(g, NoticePeriod);
    assert Text(f, TextField.Location) == Text(g, TextField.Location) && Text(f, Department) == Text(g, Department);
    assert Text(f, OtherDepartment) == Text(g, OtherDepartment) && Text(f, JobId) == Text(g, JobId);
  }

  /** Writing a field's own value back changes nothing. */
  lemma WithTextOwnValue(f: FormData, field: TextField)
    ensures WithText(f, field, Text(f, field)) == f
  {
    FormDataExtensionality(WithText(f, field, Text(f, field)), f);
  }

  /** `initialFormData`: every text empty, no résumé. */
  const InitialFormData := FormData("", "", "", "", "", "", "", "", "", "", "", "", "", None, "")

  /** The generic "submit your profile" job. */
  const GenericJobId := "AHS000"

  /** `job?.id === "AHS000"`. */
  predicate IsGenericApplication(job: Option<Job>) {
    job.Some? && job.value.id == GenericJobId
  }

  /** `job?.id || ""`. */
  function JobIdOrEmpty(job: Option<Job>): string {
    if job.Some? then job.value.id else ""
  }

  // ---------------------------------------------------------------------------
  // résumé selection
  // ---------------------------------------------------------------------------

  const PdfType := "application/pdf"
  const MsWordType := "application/msword"
  const DocxType := "application/vnd.openxmlformats-officedocument.wordprocessingml.document"

  /** 3 MiB. */
  const MaxResumeBytes: nat := 3 * 1024 * 1024

  const WrongTypeMessage := "Please upload a PDF or Word document"
  const TooLargeMessage := "File size should be less than 3MB"

  predicate IsAcceptedType(mimeType: string) {
    mimeType == PdfType || mimeType == MsWordType || mimeType == DocxType
  }

  /**
   * The selection check: the type test first, then the size test; None
   * for an accepted file.
   */
  function ResumeSelectionError(file: ResumeFile): (r: Option<string>)
    ensures r.None? <==> IsAcceptedType(file.mimeType) && file.size <= MaxResumeBytes
    ensures !IsAcceptedType(file.mimeType) ==> r == Some(WrongTypeMessage)
    ensures IsAcceptedType(file.mimeType) && file.size > MaxResumeBytes ==> r == Some(TooLargeMessage)
  {
    if !IsAcceptedType(file.mimeType) then Some(WrongTypeMessage)
    else if file.size > MaxResumeBytes then Some(TooLargeMessage)
    else None
  }

  /** A file of exactly 3 MiB is accepted; one byte more is not. */
  lemma SizeBoundIsInclusive(name: string, mimeType: string)
    requires IsAcceptedType(mimeType)
    ensures ResumeSelectionError(ResumeFile(name, mimeType, 3145728)).None?
    ensures ResumeSelectionError(ResumeFile(name, mimeType, 3145729)) == Some(TooLargeMessage)
  {
  }

  // ---------------------------------------------------------------------------
  // validation
  // ---------------------------------------------------------------------------

  /** The twelve fields that must be non-empty, in the order they are checked. */
  const RequiredFields: seq<TextField> := [
    FullName, Email, Phone, YearsOfExperience, CurrentCompany, CurrentDesignation,
    CurrentCtc, CurrentTakeHome, ExpectedCtc, NoticePeriod, TextField.Location, Department
  ]

  /** `requiredFields.filter(field => !formData[field])`. */
  function MissingFields(f: FormData, fields: seq<TextField>): (r: seq<TextField>)
    ensures |r| <= |fields|
  {
    if |fields| == 0 then []
    else
      var rest := MissingFields(f, fields[1..]);
      if Text(f, fields[0]) == "" then [fields[0]] + rest else rest
  }

  /** The missing fields are exactly the empty ones among those checked. */
  lemma {:induction false} MissingFieldsSpec(f: FormData, fields: seq<TextField>)
    ensures forall k :: 0 <= k < |MissingFields(f, fields)| ==>
              MissingFields(f, fields)[k] in fields && Text(f, MissingFields(f, fields)[k]) == ""
    ensures forall k :: 0 <= k < |fields| && Text(f, fields[k]) == "" ==> fields[k] in MissingFields(f, fields)
    decreases |fields|
  {
    if |fields| > 0 {
      MissingFieldsSpec(f, fields[1..]);
      assert forall x :: x in fields[1..] ==> x in fields;
      forall k | 0 <= k < |fields| && Text(f, fields[k]) == "" ensures fields[k] in MissingFields(f, fields) {
        if k > 0 { assert fields[k] == fields[1..][k - 1]; }
      }
    }
  }

  /** What submit ends with. */
  datatype SubmitOutcome =
    | MissingInformation
    | MissingOtherDepartment
    | ResumeRequired
    | UploadError(message: string)
    | UuidFetchFailed
    | InvalidJobId
    | DatabaseError
    | Submitted

  predicate IsValidationFailure(o: SubmitOutcome) {
    o.MissingInformation? || o.MissingOtherDepartment? || o.ResumeRequired?
  }

  /** The three checks before anything is sent, in the source's order. */
  function ValidationError(f: FormData): (r: Option<SubmitOutcome>)
    ensures r.Some? ==> IsValidationFailure(r.value)
    ensures r.None? ==> f.resume.Some?
  {
    if |MissingFields(f, RequiredFields)| > 0 then Some(MissingInformation)
    else if f.department == "Other" && f.otherDepartment == "" then Some(MissingOtherDepartment)
    else if f.resume.None? then Some(ResumeRequired)
    else None
  }

  /**
   * Validation passes exactly when the twelve required fields are
   * non-empty, an "Other" department is specified, and a résumé is chosen;
   * it reports missing information exactly when a required field is empty.
   */
  lemma ValidationErrorSpec(f: FormData)
    ensures ValidationError(f).None? <==>
      && (forall k :: 0 <= k < |RequiredFields| ==> Text(f, RequiredFields[k]) != "")
      && (f.department == "Other" ==> f.otherDepartment != "")
      && f.resume.Some?
    ensures ValidationError(f) == Some(MissingInformation) <==>
      exists k :: 0 <= k < |RequiredFields| && Text(f, RequiredFields[k]) == ""
  {
    var missing := MissingFields(f, RequiredFields);
    MissingFieldsSpec(f, RequiredFields);
    if |missing| > 0 {
      assert Text(f, missing[0]) == "";
      assert exists k :: 0 <= k < |RequiredFields| && RequiredFields[k] == missing[0];
    }
  }

  // ---------------------------------------------------------------------------
  // the stored URL and the webhook payload
  // ---------------------------------------------------------------------------

  /** `${origin}/${path}` with at most one leading '/' of the path removed. */
  function AbsoluteResumeUrl(origin: string, relative: string): string {
    var pathSegment := if StartsWith(relative, "/") then relative[1..] else relative;
    origin + "/" + pathSegment
  }

  /**
   * The origin is followed by exactly the relative path when it starts with
   * '/', and by '/' and the path otherwise; a second leading '/' is kept.
   */
  lemma AbsoluteResumeUrlSpec(origin: string, relative: string)
    ensures StartsWith(relative, "/") ==> AbsoluteResumeUrl(origin, relative) == origin + relative
    ensures !StartsWith(relative, "/") ==> AbsoluteResumeUrl(origin, relative) == origin + "/" + relative
  {
    if StartsWith(relative, "/") {
      assert relative == "/" + relative[1..];
    }
  }

  /** The browser values the payload and the URL are read from. */
  datatype Environment = Environment(origin: string, pageUrl: string, dateText: string, timeText: string)

  /** The payload's keys, in the order `Object.keys` lists them. */
  const PayloadKeys: seq<string> := [
    "Full Name", "Email", "Contact Number", "Years Of Experience", "Current Company Name",
    "Current Designation", "Current CTC (per annum)", "Current Take Home Salary (per month)",
    "Expected CTC (per annum)", "What is your notice period ?(in days)",
    "What is your current location ?", "In which department are you searching for job ?",
    "Other", "Upload Resume", "job_id", "job_title", "Date", "Time", "Page URL", "form_name"
  ]

  /** `formData.department === "Other" ? formData.otherDepartment : ''`. */
  function OtherValue(f: FormData): string {
    if f.department == "Other" then f.otherDepartment else ""
  }

  /**
   * The webhook payload object: one value per key of `PayloadKeys`, in the
   * same order.
   */
  datatype Payload = Payload(
    fullName: string,
    email: string,
    contactNumber: string,
    yearsOfExperience: string,
    currentCompanyName: string,
    currentDesignation: string,
    currentCtc: string,
    currentTakeHome: string,
    expectedCtc: string,
    noticePeriod: string,
    currentLocation: string,
    department: string,
    other: string,
    uploadResume: string,
    jobId: string,
    jobTitle: string,
    date: string,
    time: string,
    pageUrl: string,
    formName: string)

  /** The `form_name` value for each kind of application. */
  function FormName(job: Option<Job>): string {
    if IsGenericApplication(job) then "General Profile Submission" else "Job Application Form"
  }

  /** The payload the form posts for these values, this URL and this page. */
  function WebhookPayload(f: FormData, job: Option<Job>, resumeUrl: string, env: Environment): Payload {
    Payload(
      f.fullName, f.email, f.phone, f.yearsOfExperience, f.currentCompany, f.currentDesignation,
      f.currentCtc, f.currentTakeHome, f.expectedCtc, f.noticePeriod, f.location, f.department,
      OtherValue(f), resumeUrl, JobIdOrEmpty(job), if job.Some? then job.value.title else "",
      env.dateText, Lower(env.timeText), env.pageUrl, FormName(job))
  }

  /** The payload as key/value pairs in insertion order. */
  function PayloadPairs(p: Payload): seq<(string, string)> {
    [
      ("Full Name", p.fullName),
      ("Email", p.email),
      ("Contact Number", p.contactNumber),
      ("Years Of Experience", p.yearsOfExperience),
      ("Current Company Name", p.currentCompanyName),
      ("Current Designation", p.currentDesignation),
      ("Current CTC (per annum)", p.currentCtc),
      ("Current Take Home Salary (per month)", p.currentTakeHome),
      ("Expected CTC (per annum)", p.expectedCtc),
      ("What is your notice period ?(in days)", p.noticePeriod),
      ("What is your current location ?", p.currentLocation),
      ("In which department are you searching for job ?", p.department),
      ("Other", p.other),
      ("Upload Resume", p.uploadResume),
      ("job_id", p.jobId),
      ("job_title", p.jobTitle),
      ("Date", p.date),
      ("Time", p.time),
      ("Page URL", p.pageUrl),
      ("form_name", p.formName)
    ]
  }

  /** The URL-encoded request body. */
  function WebhookBody(p: Payload): string {
    FormBody(PayloadPairs(p))
  }

  /** The payload has one pair per key, in key order. */
  lemma PayloadKeysInOrder(p: Payload)
    ensures |PayloadPairs(p)| == |PayloadKeys| == 20
    ensures forall k :: 0 <= k < 20 ==> PayloadPairs(p)[k].0 == PayloadKeys[k]
  {
  }

  /**
   * The body splits on '&' into one `key=value` item per key, in key order
   * (no encoded key or value holds '&' or '='), and the receiving end
   * decodes every key and value of the payload.
   */
  lemma WebhookBodyItems(p: Payload)
    ensures var pairs := PayloadPairs(p);
      var items := Split(WebhookBody(p), '&');
      && |items| == 20
      && (forall k :: 0 <= k < 20 ==>
            Split(items[k], '=') == [EncodeURIComponent(PayloadKeys[k]), EncodeURIComponent(pairs[k].1)])
      && ParseForm(WebhookBody(p)) == Some(Utf8Pairs(pairs))
  {
    var pairs := PayloadPairs(p);
    PayloadKeysInOrder(p);
    FormBodySplits(pairs);
    ParseFormBody(pairs);
    forall k | 0 <= k < 20
      ensures Split(Items(pairs)[k], '=') == [EncodeURIComponent(PayloadKeys[k]), EncodeURIComponent(pairs[k].1)]
    {
      ItemSplits(pairs[k].0, pairs[k].1);
    }
  }

  /**
   * The payload carries the form's values, the twelve required fields under
   * the first twelve keys in the same order, the URL as given, the job's id
   * and title (empty without a job), the page's date and URL and the
   * lower-cased time; its 'Other' value is the other department only when
   * the department is "Other".
   */
  lemma PayloadValues(f: FormData, job: Option<Job>, resumeUrl: string, env: Environment)
    ensures var p := WebhookPayload(f, job, resumeUrl, env);
      && (forall k :: 0 <= k < 12 ==> PayloadPairs(p)[k].1 == Text(f, RequiredFields[k]))
      && p.fullName == f.fullName && p.email == f.email && p.contactNumber == f.phone
      && p.department == f.department && p.uploadResume == resumeUrl
      && p.jobId == JobIdOrEmpty(job) && (job.None? ==> p.jobTitle == "")
      && (job.Some? ==> p.jobTitle == job.value.title)
      && p.date == env.dateText && p.pageUrl == env.pageUrl
      && p.time == Lower(env.timeText) && |p.time| == |env.timeText|
      && (p.other != "" ==> f.department == "Other" && p.other == f.otherDepartment)
      && (f.department == "Other" ==> p.other == f.otherDepartment)
      && (p.formName == "General Profile Submission" <==> IsGenericApplication(job))
  {
  }

  /** The 'Other' pair carries the other department only when the department is "Other". */
  lemma OtherItem(p: Payload, f: FormData, job: Option<Job>, resumeUrl: string, env: Environment)
    requires p == WebhookPayload(f, job, resumeUrl, env)
    ensures PayloadPairs(p)[12] == ("Other", if f.department == "Other" then f.otherDepartment else "")
  {
  }

  // ---------------------------------------------------------------------------
  // the submit pipeline
  // ---------------------------------------------------------------------------

  datatype Table = GeneralProfiles | Applications

  /** A row of `general_profiles` or `applications` (the latter adds `job_id`). */
  datatype ApplicantRow = ApplicantRow(
    fullname: string,
    email: string,
    phone: string,
    yearsofexperience: string,
    currentcompany: string,
    currentdesignation: string,
    currentctc: string,
    currenttakehome: string,
    expectedctc: string,
    noticeperiod: string,
    location: string,
    department: string,
    otherdepartment: Option<string>,
    resumeUrl: string,
    processed: bool)

  /** The row both tables receive for this form and URL. */
  function RowFor(f: FormData, resumeUrl: string): (r: ApplicantRow)
    ensures !r.processed && r.resumeUrl == resumeUrl
    ensures r.otherdepartment.Some? <==> f.department == "Other"
    ensures r.otherdepartment.Some? ==> r.otherdepartment.value == f.otherDepartment
  {
    ApplicantRow(
      f.fullName, f.email, f.phone, f.yearsOfExperience, f.currentCompany, f.currentDesignation,
      f.currentCtc, f.currentTakeHome, f.expectedCtc, f.noticePeriod, f.location, f.department,
      if f.department == "Other" then Some(f.otherDepartment) else None,
      resumeUrl, false)
  }

  /**
   * What the pipeline asks of the outside world, in order. The webhook post
   * sends `WebhookBody` of its payload.
   */
  datatype Effect =
    | Upload(file: ResumeFile, jobId: string, fullName: string)
    | WebhookPost(payload: Payload)
    | JobLookup(jobId: string)
    | Insert(table: Table, jobUuid: Option<string>, row: ApplicantRow)

  /**
   * The outside world's answers: the uploader's result, whether the webhook
   * request succeeded, the `id` the job lookup returned (None for an error
   * or no row) and whether the insert succeeded.
   */
  datatype Backend = Backend(upload: UploadResult, webhookOk: bool, jobLookup: Option<string>, insertOk: bool)

  datatype SubmitResult = SubmitResult(outcome: SubmitOutcome, effects: seq<Effect>)

  const UploadFallbackMessage := "Failed to upload resume. Please try again."

  /** `job?.id || 'default'`, the job id the uploader is given. */
  function UploadJobId(job: Option<Job>): string {
    if job.Some? && job.value.id != "" then job.value.id else "default"
  }

  /** The upload result is usable: success and a non-empty `resume_url`. */
  predicate UploadUsable(u: UploadResult) {
    u.success && Truthy(u.resumeUrl)
  }

  /** The job lookup resolved to a usable id. */
  predicate JobResolved(job: Option<Job>, be: Backend) {
    job.Some? && job.value.id != "" && Truthy(be.jobLookup)
  }

  /** The insert step onwards, for an already posted webhook. */
  function InsertStep(f: FormData, job: Option<Job>, be: Backend, url: string, sent: seq<Effect>): SubmitResult {
    var row := RowFor(f, url);
    if IsGenericApplication(job) then
      var effects := sent + [Insert(GeneralProfiles, None, row)];
      SubmitResult(if be.insertOk then Submitted else DatabaseError, effects)
    else if job.Some? && job.value.id != "" then
      var looked := sent + [JobLookup(job.value.id)];
      if be.jobLookup.None? then SubmitResult(UuidFetchFailed, looked)
      else if be.jobLookup.value == "" then SubmitResult(InvalidJobId, looked)
      else
        var effects := looked + [Insert(Applications, be.jobLookup, row)];
        SubmitResult(if be.insertOk then Submitted else DatabaseError, effects)
    else SubmitResult(InvalidJobId, sent)
  }

  /** The whole of `handleSubmit` for a form, a job, the browser's values and the answers. */
  function Submit(f: FormData, job: Option<Job>, env: Environment, be: Backend): SubmitResult {
    var invalid := ValidationError(f);
    if invalid.Some? then SubmitResult(invalid.value, [])
    else
      var up := Upload(f.resume.value, UploadJobId(job), f.fullName);
      if !UploadUsable(be.upload) then
        SubmitResult(UploadError(OrElse(be.upload.error, UploadFallbackMessage)), [up])
      else
        var url := AbsoluteResumeUrl(env.origin, be.upload.resumeUrl.value);
        InsertStep(f, job, be, url, [up, WebhookPost(WebhookPayload(f, job, url, env))])
  }

  predicate InsertsInto(effects: seq<Effect>, t: Table) {
    exists k :: 0 <= k < |effects| && effects[k].Insert? && effects[k].table == t
  }

  predicate HasInsert(effects: seq<Effect>) {
    exists k :: 0 <= k < |effects| && effects[k].Insert?
  }

  /** A failed validation sends nothing and reports the first failing check. */
  lemma ValidationStopsEverything(f: FormData, job: Option<Job>, env: Environment, be: Backend)
    requires ValidationError(f).Some?
    ensures Submit(f, job, env, be) == SubmitResult(ValidationError(f).value, [])
  {
  }

  /**
   * An unusable upload result ends the pipeline after the upload: nothing is
   * posted or inserted, and the uploader's error, or the fallback message
   * when it has none, is reported.
   */
  lemma UploadFailureStopsInsert(f: FormData, job: Option<Job>, env: Environment, be: Backend)
    requires ValidationError(f).None? && !UploadUsable(be.upload)
    ensures Submit(f, job, env, be).effects == [Upload(f.resume.value, UploadJobId(job), f.fullName)]
    ensures !HasInsert(Submit(f, job, env, be).effects)
    ensures Submit(f, job, env, be).outcome == UploadError(OrElse(be.upload.error, UploadFallbackMessage))
  {
  }

  /** The effects of `InsertStep` begin with what was already sent. */
  lemma InsertStepExtends(f: FormData, job: Option<Job>, be: Backend, url: string, sent: seq<Effect>)
    ensures var r := InsertStep(f, job, be, url, sent);
      && sent <= r.effects
      && |r.effects| <= |sent| + 2
      && (forall k :: |sent| <= k < |r.effects| ==> r.effects[k].JobLookup? || r.effects[k].Insert?)
  {
  }

  /**
   * Routing: the generic job inserts into `general_profiles` and never looks
   * a job up; any other job inserts into `applications` exactly when its id
   * resolved; a missing job or a failed lookup inserts nothing. Both need a
   * passed validation and a usable upload.
   */
  lemma {:induction false} SubmitRouting(f: FormData, job: Option<Job>, env: Environment, be: Backend)
    ensures var effects := Submit(f, job, env, be).effects;
      && (InsertsInto(effects, GeneralProfiles) <==>
            ValidationError(f).None? && UploadUsable(be.upload) && IsGenericApplication(job))
      && (InsertsInto(effects, Applications) <==>
            ValidationError(f).None? && UploadUsable(be.upload) && !IsGenericApplication(job) && JobResolved(job, be))
  {
    var r := Submit(f, job, env, be);
    if ValidationError(f).None? && UploadUsable(be.upload) {
      var url := AbsoluteResumeUrl(env.origin, be.upload.resumeUrl.value);
      var sent := [Upload(f.resume.value, UploadJobId(job), f.fullName), WebhookPost(WebhookPayload(f, job, url, env))];
      assert r == InsertStep(f, job, be, url, sent);
      var row := RowFor(f, url);
      if IsGenericApplication(job) {
        assert r.effects[2] == Insert(GeneralProfiles, None, row);
        assert !InsertsInto(r.effects, Applications);
      } else if JobResolved(job, be) {
        assert r.effects[3] == Insert(Applications, be.jobLookup, row);
        assert !InsertsInto(r.effects, GeneralProfiles);
      } else {
        assert !HasInsert(r.effects);
      }
    } else {
      assert !HasInsert(r.effects);
    }
  }

  /**
   * Submission succeeds exactly when validation passes, the upload is
   * usable, the job is generic or its id resolved, and the insert succeeds.
   */
  lemma SubmittedIff(f: FormData, job: Option<Job>, env: Environment, be: Backend)
    ensures Submit(f, job, env, be).outcome == Submitted <==>
      && ValidationError(f).None?
      && UploadUsable(be.upload)
      && (IsGenericApplication(job) || JobResolved(job, be))
      && be.insertOk
  {
  }

  /**
   * Every inserted row is unprocessed, stores the absolute URL of the
   * uploaded résumé, and holds the other department only when the
   * department is "Other"; it is written after the webhook post.
   */
  lemma {:induction false} InsertedRowsWellFormed(f: FormData, job: Option<Job>, env: Environment, be: Backend, k: nat)
    requires k < |Submit(f, job, env, be).effects| && Submit(f, job, env, be).effects[k].Insert?
    ensures var e := Submit(f, job, env, be).effects[k];
      && !e.row.processed
      && UploadUsable(be.upload)
      && e.row.resumeUrl == AbsoluteResumeUrl(env.origin, be.upload.resumeUrl.value)
      && (e.row.otherdepartment.Some? <==> f.department == "Other")
      && k >= 2 && Submit(f, job, env, be).effects[1].WebhookPost?
  {
    var r := Submit(f, job, env, be);
    if ValidationError(f).None? && UploadUsable(be.upload) {
      var url := AbsoluteResumeUrl(env.origin, be.upload.resumeUrl.value);
      var sent := [Upload(f.resume.value, UploadJobId(job), f.fullName), WebhookPost(WebhookPayload(f, job, url, env))];
      assert r == InsertStep(f, job, be, url, sent);
      InsertStepExtends(f, job, be, url, sent);
      assert r.effects[1] == sent[1];
    }
  }

  /** The webhook's answer plays no part in what submit does. */
  lemma WebhookNeverBlocks(f: FormData, job: Option<Job>, env: Environment, be: Backend, ok: bool)
    ensures Submit(f, job, env, be.(webhookOk := ok)) == Submit(f, job, env, be)
  {
  }

  /**
   * With the live uploader, which does not throw, the upload step always
   * passes, and the posted 'Upload Resume' value is the origin, '/', and
   * the uploader's path unchanged.
   */
  lemma LiveUploadIsUsable(f: FormData, job: Option<Job>, env: Environment, be: Backend, nowMs: nat)
    requires ValidationError(f).None?
    requires be.upload == UploadResume(f.resume.value, UploadJobId(job), f.fullName, nowMs, false)
    ensures UploadUsable(be.upload)
    ensures AbsoluteResumeUrl(env.origin, be.upload.resumeUrl.value) ==
            env.origin + "/" + MockResumeUrl(f.resume.value, UploadJobId(job), f.fullName, nowMs)
    ensures Submit(f, job, env, be).effects[1] ==
            WebhookPost(WebhookPayload(f, job, env.origin + "/" + MockResumeUrl(f.resume.value, UploadJobId(job), f.fullName, nowMs), env))
  {
    var url := be.upload.resumeUrl.value;
    assert !StartsWith(url, "/") by {
      assert url[0] != '/';
    }
    AbsoluteResumeUrlSpec(env.origin, url);
  }

  // ---------------------------------------------------------------------------
  // the component
  // ---------------------------------------------------------------------------

  class ApplicationFormState {
    /** The `job` prop. */
    const job: Option<Job>
    var formData: FormData
    var fileError: Option<string>
    var isSubmitting: bool

    /** Mounting: the initial data with the job's id, no error, not submitting. */
    constructor (job: Option<Job>)
      ensures this.job == job
      ensures formData == InitialFormData.(jobId := JobIdOrEmpty(job))
      ensures fileError.None? && !isSubmitting
    {
      this.job := job;
      formData := InitialFormData.(jobId := JobIdOrEmpty(job));
      fileError := None;
      isSubmitting := false;
    }

    /** `handleInputChange` and `handleSelectChange`: only the named field changes. */
    method HandleFieldChange(field: TextField, value: string)
      modifies this
      ensures formData == WithText(old(formData), field, value)
      ensures fileError == old(fileError) && isSubmitting == old(isSubmitting)
    {
      formData := WithText(formData, field, value);
    }

    /**
     * `handleFileChange`: the error is cleared first; a rejected file sets
     * the error and leaves the résumé as it was; an accepted file replaces
     * only the résumé; no file changes nothing else.
     */
    method HandleFileChange(file: Option<ResumeFile>)
      modifies this
      ensures file.None? ==> fileError.None? && formData == old(formData)
      ensures file.Some? ==> fileError == ResumeSelectionError(file.value)
      ensures file.Some? && fileError.None? ==> formData == old(formData).(resume := file)
      ensures file.Some? && fileError.Some? ==> formData == old(formData)
      ensures isSubmitting == old(isSubmitting)
    {
      fileError := None;
      if file.Some? {
        var f := file.value;
        if !IsAcceptedType(f.mimeType) {
          fileError := Some(WrongTypeMessage);
          return;
        }
        if f.size > MaxResumeBytes {
          fileError := Some(TooLargeMessage);
          return;
        }
        formData := formData.(resume := file);
      }
    }

    /** `handleClearFile`: no résumé and no error; every text field is kept. */
    method HandleClearFile()
      modifies this
      ensures formData == old(formData).(resume := None) && fileError.None?
      ensures isSubmitting == old(isSubmitting)
    {
      formData := formData.(resume := None);
      fileError := None;
    }

    /**
     * Step 3 of `handleSubmit`: the generic job's profile insert, or the
     * job lookup and the application insert, each with its early exit.
     * This is the step-by-step form of `InsertStep`.
     */
    method InsertApplicant(f: FormData, be: Backend, url: string, sent: seq<Effect>)
      returns (outcome: SubmitOutcome, effects: seq<Effect>)
      ensures SubmitResult(outcome, effects) == InsertStep(f, job, be, url, sent)
    {
      effects := sent;
      var row := RowFor(f, url);
      if IsGenericApplication(job) {
        effects := effects + [Insert(GeneralProfiles, None, row)];
        outcome := if be.insertOk then Submitted else DatabaseError;
        return;
      }
      var actualJobUuid: Option<string> := None;
      if job.Some? && job.value.id != "" {
        effects := effects + [JobLookup(job.value.id)];
        if be.jobLookup.None? {
          outcome := UuidFetchFailed;
          return;
        }
        actualJobUuid := be.jobLookup;
      }
      if !Truthy(actualJobUuid) {
        outcome := InvalidJobId;
        return;
      }
      effects := effects + [Insert(Applications, actualJobUuid, row)];
      outcome := if be.insertOk then Submitted else DatabaseError;
    }

    /**
     * `handleSubmit`, step by step with its early returns. It does what
     * `Submit` describes; the form is reset exactly on success, and once
     * validation has passed `isSubmitting` is false again on every exit.
     */
    method HandleSubmit(env: Environment, be: Backend) returns (outcome: SubmitOutcome, effects: seq<Effect>)
      modifies this
      ensures SubmitResult(outcome, effects) == Submit(old(formData), job, env, be)
      ensures formData == if outcome.Submitted? then InitialFormData else old(formData)
      ensures isSubmitting == if IsValidationFailure(outcome) then old(isSubmitting) else false
      ensures fileError == old(fileError)
    {
      var f := formData;
      effects := [];
      var invalid := Validate(f);
      if invalid.Some? {
        outcome := invalid.value;
        return;
      }
      isSubmitting := true;
      outcome, effects := SendAndInsert(f, env, be);
      if outcome.Submitted? {
        formData := InitialFormData;
      }
      isSubmitting := false;
    }

    /** The three checks, in order, each with its early exit: the step-by-step form of `ValidationError`. */
    method Validate(f: FormData) returns (invalid: Option<SubmitOutcome>)
      ensures invalid == ValidationError(f)
    {
      var missing := MissingFields(f, RequiredFields);
      if |missing| > 0 {
        return Some(MissingInformation);
      }
      if f.department == "Other" && f.otherDepartment == "" {
        return Some(MissingOtherDepartment);
      }
      if f.resume.None? {
        return Some(ResumeRequired);
      }
      return None;
    }

    /** Steps 1 to 3 of `handleSubmit`, for a form that passed validation. */
    method SendAndInsert(f: FormData, env: Environment, be: Backend) returns (outcome: SubmitOutcome, effects: seq<Effect>)
      requires ValidationError(f).None?
      ensures SubmitResult(outcome, effects) == Submit(f, job, env, be)
    {
      // step 1: the upload and the absolute URL
      effects := [Upload(f.resume.value, UploadJobId(job), f.fullName)];
      var uploadResult := be.upload;
      if !uploadResult.success || !Truthy(uploadResult.resumeUrl) {
        outcome := UploadError(OrElse(uploadResult.error, UploadFallbackMessage));
        return;
      }
      var uploadedResumeUrl := AbsoluteResumeUrl(env.origin, uploadResult.resumeUrl.value);

      // step 2: the webhook, whose answer is only logged
      var payload := WebhookPayload(f, job, uploadedResumeUrl, env);
      effects := effects + [WebhookPost(payload)];

      // step 3: the job lookup and the insert
      outcome, effects := InsertApplicant(f, be, uploadedResumeUrl, effects);
    }
  }
}
