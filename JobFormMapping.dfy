/**
 * What the two admin pages share (src/pages/AdminJobForm.tsx and
 * src/pages/AdminJobEdit.tsx hold identical copies): the form schema, the
 * form → row mapping with its look-ups, and the stored row → form mapping
 * used when editing.
 */
module JobFormMapping {
  import opened Common
  import opened JobTypes

  /** The values of the job form. */
  datatype JobFormValues = JobFormValues(
    position: string,
    jobId: string,
    location: string,
    experience: string,
    industry: string,
    description: string,
    keySkills: string,
    status: bool)

  /** The form's `defaultValues`. */
  const DefaultValues := JobFormValues("", "", "", "", "", "", "", false)

  // ---------------------------------------------------------------------------
  // the schema
  // ---------------------------------------------------------------------------

  datatype FormField = PositionField | JobIdField | LocationField | ExperienceField
                     | IndustryField | DescriptionField | KeySkillsField

  function FieldText(v: JobFormValues, field: FormField): string {
    match field
    case PositionField => v.position
    case JobIdField => v.jobId
    case LocationField => v.location
    case ExperienceField => v.experience
    case IndustryField => v.industry
    case DescriptionField => v.description
    case KeySkillsField => v.keySkills
  }

  /** The `min` of each string field: 2, or 10 for the two long texts. */
  function MinLength(field: FormField): nat {
    if field == DescriptionField || field == KeySkillsField then 10 else 2
  }

  /** The message each field's check reports. */
  function Message(field: FormField): string {
    match field
    case PositionField => "Job title must be at least 2 characters."
    case JobIdField => "Job ID must be at least 2 characters."
    case LocationField => "Please select a location."
    case ExperienceField => "Please select an experience range."
    case IndustryField => "Please select an industry."
    case DescriptionField => "Description must be at least 10 characters."
    case KeySkillsField => "Key skills must be at least 10 characters."
  }

  /** The fields in schema order. */
  const SchemaFields: seq<FormField> := [
    PositionField, JobIdField, LocationField, ExperienceField, IndustryField, DescriptionField, KeySkillsField
  ]

  /** A field fails its `min` check; lengths are JavaScript lengths. */
  predicate TooShort(v: JobFormValues, field: FormField) {
    Utf16Length(FieldText(v, field)) < MinLength(field)
  }

  /** The failing fields among `fields`, in order. */
  function Violations(v: JobFormValues, fields: seq<FormField>): seq<FormField> {
    if |fields| == 0 then []
    else
      var rest := Violations(v, fields[1..]);
      if TooShort(v, fields[0]) then [fields[0]] + rest else rest
  }

  /** The reported fields are exactly the failing ones among those checked. */
  lemma {:induction false} ViolationsSpec(v: JobFormValues, fields: seq<FormField>)
    ensures forall k :: 0 <= k < |Violations(v, fields)| ==>
              Violations(v, fields)[k] in fields && TooShort(v, Violations(v, fields)[k])
    ensures forall k :: 0 <= k < |fields| && TooShort(v, fields[k]) ==> fields[k] in Violations(v, fields)
    decreases |fields|
  {
    if |fields| > 0 {
      ViolationsSpec(v, fields[1..]);
      assert forall x :: x in fields[1..] ==> x in fields;
      forall k | 0 <= k < |fields| && TooShort(v, fields[k]) ensures fields[k] in Violations(v, fields) {
        if k > 0 { assert fields[k] == fields[1..][k - 1]; }
      }
    }
  }

  /** The schema accepts the values when no field fails. */
  predicate SchemaAccepts(v: JobFormValues) {
    |Violations(v, SchemaFields)| == 0
  }

  /**
   * The schema accepts exactly the values whose position, job id, location,
   * experience and industry have at least 2 characters and whose
   * description and key skills have at least 10; the status plays no part.
   */
  lemma SchemaAcceptsIff(v: JobFormValues)
    ensures SchemaAccepts(v) <==> LongEnough(v)
    ensures LongEnough(v) <==>
      && Utf16Length(v.position) >= 2 && Utf16Length(v.jobId) >= 2
      && Utf16Length(v.location) >= 2 && Utf16Length(v.experience) >= 2
      && Utf16Length(v.industry) >= 2
      && Utf16Length(v.description) >= 10 && Utf16Length(v.keySkills) >= 10
  {
    SchemaAcceptsEveryField(v);
    LongEnoughIff(v);
  }

  /** Every field reaches its minimum length. */
  predicate LongEnough(v: JobFormValues) {
    forall f :: !TooShort(v, f)
  }

  lemma LongEnoughIff(v: JobFormValues)
    ensures LongEnough(v) <==>
      && Utf16Length(v.position) >= 2 && Utf16Length(v.jobId) >= 2
      && Utf16Length(v.location) >= 2 && Utf16Length(v.experience) >= 2
      && Utf16Length(v.industry) >= 2
      && Utf16Length(v.description) >= 10 && Utf16Length(v.keySkills) >= 10
  {
    if Utf16Length(v.position) < 2 { assert TooShort(v, PositionField); }
    else if Utf16Length(v.jobId) < 2 { assert TooShort(v, JobIdField); }
    else if Utf16Length(v.location) < 2 { assert TooShort(v, LocationField); }
    else if Utf16Length(v.experience) < 2 { assert TooShort(v, ExperienceField); }
    else if Utf16Length(v.industry) < 2 { assert TooShort(v, IndustryField); }
    else if Utf16Length(v.description) < 10 { assert TooShort(v, DescriptionField); }
    else if Utf16Length(v.keySkills) < 10 { assert TooShort(v, KeySkillsField); }
    else {
      forall f: FormField ensures !TooShort(v, f) {
        match f
        case PositionField =>
        case JobIdField =>
        case LocationField =>
        case ExperienceField =>
        case IndustryField =>
        case DescriptionField =>
        case KeySkillsField =>
      }
    }
  }

  /** The schema checks every field, so it accepts exactly when no field is too short. */
  lemma SchemaAcceptsEveryField(v: JobFormValues)
    ensures SchemaAccepts(v) <==> LongEnough(v)
  {
    NoViolationsIff(v, SchemaFields);
    forall f: FormField ensures f in SchemaFields {
      match f
      case PositionField => assert SchemaFields[0] == f;
      case JobIdField => assert SchemaFields[1] == f;
      case LocationField => assert SchemaFields[2] == f;
      case ExperienceField => assert SchemaFields[3] == f;
      case IndustryField => assert SchemaFields[4] == f;
      case DescriptionField => assert SchemaFields[5] == f;
      case KeySkillsField => assert SchemaFields[6] == f;
    }
  }

  /** No field is reported exactly when every checked field passes. */
  lemma NoViolationsIff(v: JobFormValues, fields: seq<FormField>)
    ensures |Violations(v, fields)| == 0 <==> forall f :: f in fields ==> !TooShort(v, f)
  {
    ViolationsSpec(v, fields);
    var bad := Violations(v, fields);
    if |bad| > 0 {
      assert bad[0] in fields && TooShort(v, bad[0]);
    }
    if exists f :: f in fields && TooShort(v, f) {
      var f :| f in fields && TooShort(v, f);
      var k :| 0 <= k < |fields| && fields[k] == f;
      assert fields[k] in bad;
    }
  }

  /** The defaults are rejected, and the status defaults to false. */
  lemma DefaultsRejected()
    ensures !SchemaAccepts(DefaultValues) && !DefaultValues.status
  {
    assert TooShort(DefaultValues, SchemaFields[0]);
  }

  // ---------------------------------------------------------------------------
  // form → row
  // ---------------------------------------------------------------------------

  /** `table.find(x => key(x) === id) || table[0]`. */
  function FindOrFirst<T>(table: seq<T>, key: T -> string, id: string): (r: T)
    requires |table| > 0
    ensures r in table
  {
    var found := FindFirst(table, key, id);
    if found.Some? then found.value else table[0]
  }

  /** The entry with the key when some entry has it, else the first entry. */
  lemma FindOrFirstSpec<T>(table: seq<T>, key: T -> string, id: string)
    requires |table| > 0
    ensures (exists k :: 0 <= k < |table| && key(table[k]) == id) ==> key(FindOrFirst(table, key, id)) == id
    ensures (forall k :: 0 <= k < |table| ==> key(table[k]) != id) ==> FindOrFirst(table, key, id) == table[0]
  {
    FindFirstSpec(table, key, id);
  }

  /** `status ? 'Published' : 'Draft'`. */
  function StatusText(published: bool): string {
    if published then "Published" else "Draft"
  }

  /** `status === 'Published'`. */
  predicate StatusFlag(status: string) {
    status == "Published"
  }

  /** What is written to the `jobs` table; the last two are absent on update. */
  datatype JobRowData = JobRowData(
    position: string,
    jobId: string,
    location: Location,
    experience: Experience,
    industry: Industry,
    description: string,
    keyskills: seq<string>,
    status: string,
    dateposted: Option<string>,
    userId: Option<string>)

  /** The columns both pages write. */
  function RowFields(v: JobFormValues): JobRowData {
    JobRowData(
      v.position, v.jobId,
      FindOrFirst(Locations, LocationId, v.location),
      FindOrFirst(ExperienceRanges, ExperienceId, v.experience),
      FindOrFirst(Industries, IndustryId, v.industry),
      v.description, Split(v.keySkills, '\n'), StatusText(v.status), None, None)
  }

  /**
   * The shared columns: the texts as entered; each reference the table
   * entry with the entered id, or the first entry when none has it; one
   * skill per newline-separated piece (so one more than the newlines); and
   * 'Published' exactly for a true status, 'Draft' otherwise.
   */
  lemma RowFieldsSpec(v: JobFormValues)
    ensures var r := RowFields(v);
      && r.position == v.position && r.jobId == v.jobId && r.description == v.description
      && r.location in Locations && r.experience in ExperienceRanges && r.industry in Industries
      && ((exists k :: 0 <= k < |Locations| && Locations[k].id == v.location) ==> r.location.id == v.location)
      && ((forall k :: 0 <= k < |Locations| ==> Locations[k].id != v.location) ==> r.location == Locations[0])
      && ((exists k :: 0 <= k < |ExperienceRanges| && ExperienceRanges[k].id == v.experience) ==>
            r.experience.id == v.experience)
      && ((forall k :: 0 <= k < |ExperienceRanges| ==> ExperienceRanges[k].id != v.experience) ==>
            r.experience == ExperienceRanges[0])
      && ((exists k :: 0 <= k < |Industries| && Industries[k].id == v.industry) ==> r.industry.id == v.industry)
      && ((forall k :: 0 <= k < |Industries| ==> Industries[k].id != v.industry) ==> r.industry == Industries[0])
      && r.keyskills == Split(v.keySkills, '\n')
      && |r.keyskills| == Count(v.keySkills, '\n') + 1
      && (r.status == "Published" <==> v.status)
      && (r.status == "Draft" <==> !v.status)
  {
    FindOrFirstSpec(Locations, LocationId, v.location);
    FindOrFirstSpec(ExperienceRanges, ExperienceId, v.experience);
    FindOrFirstSpec(Industries, IndustryId, v.industry);
  }

  /** The create page's row: the shared columns plus the posting time and the author. */
  function CreateRow(v: JobFormValues, nowIso: string, userId: string): (r: JobRowData)
    ensures r.dateposted == Some(nowIso) && r.userId == Some(userId)
  {
    RowFields(v).(dateposted := Some(nowIso), userId := Some(userId))
  }

  /** The edit page's row never carries `dateposted` or `user_id`. */
  function UpdateRow(v: JobFormValues): (r: JobRowData)
    ensures r.dateposted.None? && r.userId.None?
  {
    RowFields(v)
  }

  /** Creating and updating write the same columns apart from those two. */
  lemma CreateAndUpdateAgree(v: JobFormValues, nowIso: string, userId: string)
    ensures CreateRow(v, nowIso, userId).(dateposted := None, userId := None) == UpdateRow(v)
  {
  }

  // ---------------------------------------------------------------------------
  // saving
  // ---------------------------------------------------------------------------

  /** The database's answer to an insert or an update. */
  datatype DbAnswer = DbOk | DbFailed(message: Option<string>)

  /** How a submit of either page ends. */
  datatype SaveOutcome =
    | SchemaRejected(fields: seq<FormField>)
    | NotAuthenticated
    | NoRouteId
    | Saved
    | SaveFailed(message: string)

  /** The admin list, where both pages navigate after a save. */
  const AdminPath := "/admin"

  /**
   * The end of a save that reached the database: saved on success, else
   * the database's message or, when it has none, the page's fallback text.
   */
  function SaveResult(answer: DbAnswer, fallback: string): (r: SaveOutcome)
    ensures r.Saved? <==> answer.DbOk?
    ensures !r.Saved? ==> r.SaveFailed? && r.message == OrElse(answer.message, fallback)
    ensures answer.DbFailed? && answer.message.Some? && answer.message.value != "" ==> r == SaveFailed(answer.message.value)
  {
    if answer.DbOk? then Saved else SaveFailed(OrElse(answer.message, fallback))
  }

  // ---------------------------------------------------------------------------
  // the round trips
  // ---------------------------------------------------------------------------

  /** bool → string → bool is the identity. */
  lemma StatusFlagOfText(b: bool)
    ensures StatusFlag(StatusText(b)) == b
  {
  }

  /** string → bool → string is the identity exactly on 'Published' and 'Draft'. */
  lemma StatusTextOfFlag(s: string)
    ensures StatusText(StatusFlag(s)) == s <==> s == "Published" || s == "Draft"
  {
  }

  /** join then split gives back any non-empty list of skills without newlines. */
  lemma SkillsSplitJoin(skills: seq<string>)
    requires |skills| >= 1
    requires forall k :: 0 <= k < |skills| ==> '\n' !in skills[k]
    ensures Split(Join(skills, '\n'), '\n') == skills
  {
    SplitJoin(skills, '\n');
  }

  /** The empty list does not come back: it joins to "" and "" splits to one empty skill. */
  lemma EmptySkillsComeBackAsOne()
    ensures Split(Join([], '\n'), '\n') == [""]
  {
  }

  /** split then join gives back every text. */
  lemma SkillsJoinSplit(text: string)
    ensures Join(Split(text, '\n'), '\n') == text
  {
    JoinSplit(text, '\n');
  }

  // ---------------------------------------------------------------------------
  // row → form
  // ---------------------------------------------------------------------------

  /**
   * A stored JSON column for a location, experience or industry: an object
   * with a possibly missing `id`, or anything else (a string, null).
   */
  datatype StoredRef = RefObject(id: Option<string>) | RefOther

  /** The stored `jobs` row, as the edit page reads it. */
  datatype JobRecord = JobRecord(
    position: string,
    jobId: Option<string>,
    location: StoredRef,
    experience: StoredRef,
    industry: StoredRef,
    description: string,
    keyskills: Option<seq<string>>,
    status: string)

  /** `obj && obj.id`: the stored id when the value is an object with a truthy one. */
  function RefId(r: StoredRef): (id: Option<string>)
    ensures id.Some? <==> r.RefObject? && Truthy(r.id)
    ensures id.Some? ==> id == r.id
  {
    if r.RefObject? && Truthy(r.id) then r.id else None
  }

  /** `form.setValue` for one optional field: only a present value is written. */
  function SetIfPresent(current: string, value: Option<string>): string {
    if value.Some? then value.value else current
  }

  /**
   * The values `fetchJobData` writes into the form: position, job id (""
   * for null), description and status always; a location, experience or
   * industry only when it is stored as an object with an id; the skills
   * only when they are stored as an array.
   */
  function LoadValues(current: JobFormValues, rec: JobRecord): (v: JobFormValues)
    ensures v.position == rec.position && v.jobId == OrElse(rec.jobId, "")
    ensures v.description == rec.description
    ensures v.location == (if RefId(rec.location).Some? then RefId(rec.location).value else current.location)
    ensures v.experience == (if RefId(rec.experience).Some? then RefId(rec.experience).value else current.experience)
    ensures v.industry == (if RefId(rec.industry).Some? then RefId(rec.industry).value else current.industry)
    ensures v.keySkills == (if rec.keyskills.Some? then Join(rec.keyskills.value, '\n') else current.keySkills)
    ensures v.status <==> rec.status == "Published"
  {
    JobFormValues(
      rec.position,
      OrElse(rec.jobId, ""),
      SetIfPresent(current.location, RefId(rec.location)),
      SetIfPresent(current.experience, RefId(rec.experience)),
      SetIfPresent(current.industry, RefId(rec.industry)),
      rec.description,
      if rec.keyskills.Some? then Join(rec.keyskills.value, '\n') else current.keySkills,
      StatusFlag(rec.status))
  }

  /** How a written row is stored: the looked-up entries as objects with their ids. */
  function Stored(row: JobRowData): JobRecord {
    JobRecord(
      row.position, Some(row.jobId),
      RefObject(Some(row.location.id)), RefObject(Some(row.experience.id)), RefObject(Some(row.industry.id)),
      row.description, Some(row.keyskills), row.status)
  }

  /** The ids of each lookup table are distinct. */
  lemma TableIdsDistinct()
    ensures forall i, j :: 0 <= i < j < |Locations| ==> LocationId(Locations[i]) != LocationId(Locations[j])
    ensures forall i, j :: 0 <= i < j < |ExperienceRanges| ==>
              ExperienceId(ExperienceRanges[i]) != ExperienceId(ExperienceRanges[j])
    ensures forall i, j :: 0 <= i < j < |Industries| ==> IndustryId(Industries[i]) != IndustryId(Industries[j])
  {
  }

  /** In a table with distinct keys, looking up the key of an entry finds that entry. */
  lemma {:induction false} LookupOwnKey<T>(table: seq<T>, key: T -> string, x: T)
    requires x in table
    requires forall i, j :: 0 <= i < j < |table| ==> key(table[i]) != key(table[j])
    ensures FindOrFirst(table, key, key(x)) == x
  {
    var r := FindOrFirst(table, key, key(x));
    FindOrFirstSpec(table, key, key(x));
    var k :| 0 <= k < |table| && table[k] == x;
    var j :| 0 <= j < |table| && table[j] == r;
    assert key(table[j]) == key(table[k]);
  }

  /**
   * Saving, loading and saving again writes the same row: the edit page's
   * mapping gives back what either page wrote, whatever form it started from.
   */
  lemma SaveLoadSave(v: JobFormValues, start: JobFormValues)
    ensures UpdateRow(LoadValues(start, Stored(RowFields(v)))) == UpdateRow(v)
  {
    var row := RowFields(v);
    var w := LoadValues(start, Stored(row));
    TableIdsDistinct();
    JoinSplit(v.keySkills, '\n');
    LookupOwnKey(Locations, LocationId, row.location);
    LookupOwnKey(ExperienceRanges, ExperienceId, row.experience);
    LookupOwnKey(Industries, IndustryId, row.industry);
    assert row.location.id != "" && row.experience.id != "" && row.industry.id != "";
    assert w.location == row.location.id;
    assert w.experience == row.experience.id;
    assert w.industry == row.industry.id;
    assert RowFields(w).keyskills == row.keyskills;
  }
}
