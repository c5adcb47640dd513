# A verified model of the hiring job board

The project models four parts of the job board:

- **The public board.** The filter pipeline on the index page narrows the job list by industry, location, experience band, salary band and a free-text query. The job list shows its results six at a time. The filter panel keeps the criteria.
- **The application dialog.** It covers the résumé selection check, the required-field validation and the submit pipeline. In order, that pipeline runs: validate, upload, build the absolute URL, post the URL-encoded webhook, look up the job, insert into `general_profiles` or `applications`, and reset.
- **The two admin pages** that create and edit a job. They share a minimum-length schema, a form → row mapping (look-up with a first-entry fallback, skills split on newlines, the status flag shown as text) and, on edit, a row → form mapping.
- **Résumé naming.** Both the browser-side uploader (`src/utils/fileUploader.ts`) and the PHP endpoint (`upload.php`) build the stored path `uploads/resumes/<jobId>/<name>_<stamp>.<ext>`.

Modules and what they hold:

| module | file | what it holds |
|---|---|---|
| `Common` | `Common.dfy` | JavaScript `split`/`join` on one character, `includes`, ASCII `toLowerCase`, `trim() === ""`, decimal rendering, UTF-16 length |
| `JobTypes` | `JobTypes.dfy` | the entities of `src/data/jobTypes.ts`, the lookup tables of `src/data/mockData.ts`, and `find` |
| `JobSearch` | `JobSearch.dfy` | the filter pipeline of `Index.tsx` as a stable filter, with soundness, completeness, subsequence and commutation lemmas |
| `JobFiltersPanel` | `JobFiltersPanel.dfy` | the criteria as a class with the panel's handlers |
| `JobListView` | `JobListView.dfy` | the job list's rendering and `displayCount` counter |
| `IndexPage` | `IndexPage.dfy` | the index page: the filter effect, `handleApply` and `closeForm` |
| `ResumeNaming` | `ResumeNaming.dfy` | the name sanitiser, both extension rules, `basename`, and path assembly |
| `FileUploader` | `FileUploader.dfy` | the live path of `uploadResume` |
| `UploadScript` | `UploadScript.dfy` | `upload.php` as one request handler |
| `UrlEncoding` | `UrlEncoding.dfy` | `encodeURIComponent` over UTF-8 with its partner, a percent-decoder, and the `key=value&…` body |
| `ApplicationForm` | `ApplicationForm.dfy` | the dialog's state class, its handlers and the submit pipeline |
| `JobFormMapping` | `JobFormMapping.dfy` | the admin schema and both row mappings |
| `AdminJobCreate` | `AdminJobForm.dfy` | the creation page |
| `AdminJobEdit` | `AdminJobEdit.dfy` | the edit page |

Code that changes state step by step is a `class` with `modifies` clauses:

- the application dialog;
- the job list's counter;
- the filter criteria;
- the index page;
- both admin pages.

Each such method is tied by its `ensures` to a specification function of the old state. For example, `HandleSubmit` returns `Submit(old(formData), …)`. Lemmas then state what the source promises about that function. The pure string and mapping code is modelled as functions and lemmas.

The outside world enters as parameters:

- the answers of the uploader, the webhook, the job lookup, the database, `file_exists` and `move_uploaded_file`;
- the signed-in user and the session;
- the clock readings (`Date.now()`, `time()`, `new Date().toISOString()`, the locale date and time texts);
- the page origin and URL.

What a handler asks of that world is returned as a list of effects:

- the upload, the webhook post, the job lookup and the insert;
- `mkdir` and `move_uploaded_file`;
- the row inserted or updated;
- the page navigated to.

## Model

| member | source | states |
|---|---|---|
| Common.OrElse | src/pages/AdminJobForm.tsx:141 | `a \|\| b` on a string: the first operand when it is truthy (non-null and non-empty), else the fallback |
| Common.Split | src/pages/AdminJobForm.tsx:118 | `split` on one character: one piece more than there are separators, and no piece holds the separator |
| Common.JoinSplit | src/pages/AdminJobEdit.tsx:143-145 | joining the pieces of a split gives back every string |
| Common.SplitJoin | src/pages/AdminJobEdit.tsx:196 | splitting the join of a non-empty list of separator-free pieces gives back the list |
| Common.ContainsAt | src/pages/Index.tsx:65-67 | `includes` holds exactly when the needle occurs at some position of the text |
| Common.Lower | src/pages/Index.tsx:63 | `toLowerCase` keeps the length, lowers each character, and leaves no upper-case letter |
| Common.LowerIdempotent | src/pages/Index.tsx:63 | lowering twice is lowering once |
| Common.Decimal | src/utils/fileUploader.ts:21 | the rendered time stamp is a non-empty string of digits, with a leading '0' only for zero |
| Common.DecimalValue | src/utils/fileUploader.ts:21 | the rendered digits read back as the number |
| Common.Utf16Length | src/pages/AdminJobForm.tsx:30-53 | the length the schema measures lies between the character count and twice it, and equals the character count on ASCII |
| JobTypes.FindFirst | src/components/JobFilters.tsx:168 | `find` returns only an entry of the table whose key is the id |
| JobTypes.FindFirstSpec | src/pages/Index.tsx:48 | `find` gives nothing exactly when no entry has the id; otherwise it gives the entry at the first index with that id |
| JobSearch.Select | src/pages/Index.tsx:38 | a stable `filter` is no longer than its input, and each kept element comes from the input and passes every test |
| JobSearch.SelectIsSubsequence | src/pages/Index.tsx:38 | a stable filter's result is a subsequence of its input |
| JobSearch.SelectCounts | src/pages/Index.tsx:38 | every occurrence of a passing job is kept, and a failing job never appears |
| JobSearch.SelectAllKept | src/pages/Index.tsx:37-39 | a filter that every element passes changes nothing, so an inactive stage is the identity |
| JobSearch.SelectSameKeep | src/pages/Index.tsx:34-69 | two tests that agree on every element filter alike |
| JobSearch.KeepAllConcat | src/pages/Index.tsx:34-69 | passing the stages of `a + b` is passing those of `a` and those of `b` |
| JobSearch.SelectFuse | src/pages/Index.tsx:34-69 | filtering by `a` and then by `b` is one filter by both |
| JobSearch.RunStageIsSelect | src/pages/Index.tsx:37-69 | each guarded `result = result.filter(…)` step is one stable filter by its stage |
| JobSearch.RunStagesIsSelect | src/pages/Index.tsx:34-69 | running stages one after another is one filter by all of them |
| JobSearch.ApplyFiltersIsRun | src/pages/Index.tsx:34-69 | the nested pipeline runs the five stages in the source's order |
| JobSearch.ApplyFiltersIsConjunction | src/pages/Index.tsx:34-69 | the pipeline is one stable filter by the conjunction of the active criteria |
| JobSearch.AnyOrderAgrees | src/pages/Index.tsx:37-69 | the stages commute: any two lists of the same stages give the same result |
| JobSearch.ReversedOrderAgrees | src/pages/Index.tsx:37-69 | the stages run in reverse order give the source's result |
| JobSearch.MatchesUnfold | src/pages/Index.tsx:34-69 | a job matches exactly when each of the five stages keeps it |
| JobSearch.ApplyFiltersSound | src/pages/Index.tsx:34-69 | a listed job comes from the input. Its industry and location ids equal the truthy selections. Its experience id equals a selection that names a known band. With a salary selected it has a salary band with that id. For a non-blank query, its lowered title, one of its lowered skills, or its lowered description contains the lowered query |
| JobSearch.ApplyFiltersComplete | src/pages/Index.tsx:34-69 | a job appears as often as in the input when it matches every active criterion, and not at all otherwise |
| JobSearch.ApplyFiltersSubsequence | src/pages/Index.tsx:34-69 | filtering never adds or reorders jobs |
| JobSearch.NoCriteriaKeepsAll | src/pages/Index.tsx:34-69 | with no truthy selection and a blank query the full list is shown |
| JobSearch.UnknownExperienceIgnored | src/pages/Index.tsx:47-52 | an experience id that names no band in `experienceRanges` filters nothing |
| JobSearch.BlankQueryIgnored | src/pages/Index.tsx:62 | a query of white space only filters nothing |
| JobSearch.UntrimmedQueryExample | src/pages/Index.tsx:62-68 | the query is lowered but not trimmed: " react" does not match a job titled "React", and "react" does |
| JobFiltersPanel.SelectionValue | src/components/JobFilters.tsx:64 | `value \|\| null`: the empty option stores null, any other value is stored as it is and is truthy |
| JobFiltersPanel.WithSlot | src/components/JobFilters.tsx:166 | replacing one selection changes that slot only; the other slots and the query are kept |
| JobFiltersPanel.BadgeRowVisible | src/components/JobFilters.tsx:161 | the badge row shows exactly when some selection is truthy |
| JobFiltersPanel.BadgeRowIgnoresQuery | src/components/JobFilters.tsx:161 | the search query plays no part in the badge row |
| JobFiltersPanel.BadgeLabelSpec | src/components/JobFilters.tsx:168-195 | a badge has a label exactly when its slot's table has an entry with the selected id |
| JobFiltersPanel.FilterState.constructor | src/pages/Index.tsx:13-17 | the page starts with no criteria |
| JobFiltersPanel.FilterState.ClearFilters | src/components/JobFilters.tsx:44-50 | "Clear Filters" sets the four selections to null and the query to "", which hides the badge row |
| JobFiltersPanel.FilterState.Select | src/components/JobFilters.tsx:64 | a drop-down change stores `value \|\| null` in its own slot and nothing else changes |
| JobFiltersPanel.FilterState.ClearBadge | src/components/JobFilters.tsx:166-196 | a badge click clears that one selection and leaves the other criteria unchanged |
| JobFiltersPanel.FilterState.SetQuery | src/pages/Index.tsx:17 | typing stores the raw query; the selections are kept |
| JobListView.Render | src/components/JobList.tsx:26-67 | a spinner exactly while loading and "No jobs found" exactly for an empty list. Otherwise the first min(displayCount, length) jobs in order, with "Load More" exactly when `displayCount < length` |
| JobListView.LoadMoreShowsNextPage | src/components/JobList.tsx:59-67 | "Load More" appends exactly the next page of jobs to those shown |
| JobListView.AllShownWhenCountReachesLength | src/components/JobList.tsx:59-64 | once the count reaches the length, every job is shown and the button is gone |
| JobListView.JobList.constructor | src/components/JobList.tsx:19 | the count starts at 6 |
| JobListView.JobList.ReceiveJobs | src/components/JobList.tsx:22-24 | a new job list resets the count to 6, keeping it a positive multiple of 6 |
| JobListView.JobList.ReceiveLoading | src/components/JobList.tsx:17 | a new loading flag leaves the jobs and the count as they were |
| JobListView.JobList.LoadMore | src/components/JobList.tsx:67 | "Load More" adds exactly 6 to the count, which stays a positive multiple of 6 |
| IndexPage.JobBoard.constructor | src/pages/Index.tsx:13-25 | mounting: no criteria, the full list, a count of one page, and the form closed |
| IndexPage.JobBoard.BeginApply | src/pages/Index.tsx:30 | a criteria change first shows the spinner, keeping the list and the count |
| IndexPage.JobBoard.CompleteApply | src/pages/Index.tsx:33-73 | the delayed callback shows the pipeline's result over the full list for the current criteria, ends loading, and resets the count to one page |
| IndexPage.JobBoard.HandleApply | src/pages/Index.tsx:79-82 | `handleApply` opens the form with the given job id |
| IndexPage.JobBoard.CloseForm | src/pages/Index.tsx:84-87 | `closeForm` closes the form and clears the job id |
| ResumeNaming.Units | src/utils/fileUploader.ts:21 | each character is at least one unit of the runtime, and an ASCII character is exactly one |
| ResumeNaming.Underscores | upload.php:32 | n underscores |
| ResumeNaming.SanitizeChar | src/utils/fileUploader.ts:21 | a character of `[a-zA-Z0-9_-]` is kept; any other becomes one '_' per unit the runtime sees |
| ResumeNaming.Sanitize | src/utils/fileUploader.ts:21 | the replace yields as many characters as the runtime sees units. All of them are in `[a-zA-Z0-9_-]`, and a name already in the class is left unchanged |
| ResumeNaming.SanitizeConcat | src/utils/fileUploader.ts:21 | the replace works character by character: it distributes over concatenation |
| ResumeNaming.SanitizeIdempotent | src/utils/fileUploader.ts:21 | sanitising twice is sanitising once |
| ResumeNaming.SanitizeFixedPoints | src/utils/fileUploader.ts:21 | a name is unchanged exactly when all its characters are in the class |
| ResumeNaming.SanitizeAscii | src/utils/fileUploader.ts:21 | on ASCII names the length is kept and each character maps to itself when in the class or to '_' |
| ResumeNaming.RuntimesAgreeOnAscii | upload.php:32 | on ASCII names the browser and PHP produce the same name |
| ResumeNaming.BrowserUnitsAreLength | src/utils/fileUploader.ts:21 | in the browser the sanitised length is the name's JavaScript `length` |
| ResumeNaming.RuntimesDifferOffAscii | upload.php:32 | a non-ASCII character of the Basic Multilingual Plane becomes one '_' in the browser and at least two in PHP |
| ResumeNaming.LastPieceIsSuffix | src/utils/fileUploader.ts:21 | a name with a '.' is the join of all but its last '.'-piece, a '.', and the last piece |
| ResumeNaming.ExtensionBySplitSpec | src/utils/fileUploader.ts:21 | `split('.').pop()` holds no '.'. It is the whole name when the name has no '.', and otherwise the name ends in '.' followed by it |
| ResumeNaming.ExtensionRulesCompared | upload.php:30-31 | `pathinfo` and split-and-pop agree on names with a '.'; without one, PHP gives "" and the browser the whole name |
| ResumeNaming.Basename | upload.php:30 | `basename` holds no '/' |
| ResumeNaming.DropTrailingSlashes | upload.php:30 | trailing '/' characters are removed, and only they |
| ResumeNaming.BasenameOfPlainName | upload.php:30 | a name without '/' is its own basename |
| ResumeNaming.ResumePathIsRelative | src/utils/fileUploader.ts:21 | the stored path starts with `uploads/resumes/` and never with '/' |
| ResumeNaming.ResumePathSegments | src/utils/fileUploader.ts:21 | for a job id and an extension without '/', the path has the four segments `uploads`, `resumes`, the job id and the stored name |
| ResumeNaming.PathSegments | upload.php:22-33 | a path built from two '/'-free parts splits into its four segments |
| ResumeNaming.StoredFileNameAlphabet | src/utils/fileUploader.ts:21 | only the extension can bring a '/' into the stored name, and the part before the extension holds no '.' |
| ResumeNaming.StoredNameKeepsExtension | src/utils/fileUploader.ts:21 | under either rule, reading the extension back from the stored name gives the extension it was built with |
| FileUploader.UploadResume | src/utils/fileUploader.ts:6-81 | success exactly when nothing is thrown. On success, no error and a non-empty path starting with `uploads/resumes/` and not with '/'. On a throw, no path and the fixed network error |
| FileUploader.ExtensionFromName | src/utils/fileUploader.ts:21 | the extension holds no character the file name lacks |
| FileUploader.MockResumeUrlShape | src/utils/fileUploader.ts:21 | for '/'-free job id and file name, the path is `uploads/resumes/<jobId>/<stored>`, and the stored name's extension is the file's |
| UploadScript.JobIdOf | upload.php:21 | an unset `jobId` gives 'default'; a set one, even empty, is kept |
| UploadScript.HandleRequest | upload.php:9-44 | OPTIONS is answered at once with no body. A missing or failed upload gets 400 with its error and touches nothing. Otherwise the directory is made only when absent and the file is moved to the target path; success answers 200 with that path, failure 500 with the move error |
| UploadScript.TargetPathShape | upload.php:22-33 | the target path is `uploads/resumes/<jobId>/<stored name>` with the PHP extension of the basename. It lies inside the upload directory and starts with `uploads/resumes/` |
| UploadScript.StoredNameMatchesBrowser | upload.php:32 | for an ASCII name the endpoint stores the name the browser's uploader builds from the same stamp and extension |
| UploadScript.ExtensionlessNameExample | upload.php:30-31 | a client file named `resume` gets the extension "" from the endpoint and `resume` from the browser |
| UrlEncoding.Utf8Bytes | src/components/ApplicationForm.tsx:234-236 | a character encodes to its UTF-8 width in bytes, itself for ASCII |
| UrlEncoding.Utf8CharReadsBack | src/components/ApplicationForm.tsx:234-236 | a character's first UTF-8 byte announces the sequence's length, and the sequence decodes to the character |
| UrlEncoding.Utf8Length | src/components/ApplicationForm.tsx:234-236 | every character gives at least one byte |
| UrlEncoding.Utf8Injective | src/components/ApplicationForm.tsx:234-236 | different strings have different UTF-8 encodings |
| UrlEncoding.HexDigit | src/components/ApplicationForm.tsx:234-236 | a hexadecimal digit is an unreserved character |
| UrlEncoding.HexValue | src/components/ApplicationForm.tsx:234-236 | a hexadecimal digit's value is below 16 |
| UrlEncoding.HexValueOfDigit | src/components/ApplicationForm.tsx:234-236 | the upper-case digit of a value reads back as that value |
| UrlEncoding.PercentBytes | src/components/ApplicationForm.tsx:234-236 | each byte becomes three characters, '%' and two unreserved digits |
| UrlEncoding.EncodeURIComponent | src/components/ApplicationForm.tsx:234-236 | `encodeURIComponent` writes only unreserved characters and '%', so never '&' or '=' |
| UrlEncoding.PrependAssoc | src/components/ApplicationForm.tsx:234-236 | prepending bytes to a decoding result is associative |
| UrlEncoding.DecodeTriple | src/components/ApplicationForm.tsx:234-236 | a `%XX` triple decodes to its byte |
| UrlEncoding.DecodePercentBytes | src/components/ApplicationForm.tsx:234-236 | percent-written bytes decode to those bytes |
| UrlEncoding.DecodeEncodeChar | src/components/ApplicationForm.tsx:234-236 | an encoded character decodes to its UTF-8 bytes |
| UrlEncoding.DecodeEncode | src/components/ApplicationForm.tsx:234-236 | decoding an encoded component gives the UTF-8 bytes of the original |
| UrlEncoding.EncodeInjective | src/components/ApplicationForm.tsx:234-236 | different strings have different encodings |
| UrlEncoding.Items | src/components/ApplicationForm.tsx:234-236 | one `key=value` item per pair, in the pairs' order |
| UrlEncoding.ItemSplits | src/components/ApplicationForm.tsx:234-236 | an item split on '=' gives its encoded key and encoded value |
| UrlEncoding.FormBodySplits | src/components/ApplicationForm.tsx:234-236 | a body of at least one pair split on '&' gives its items in order |
| UrlEncoding.DecodeItemsOfPairs | src/components/ApplicationForm.tsx:234-236 | decoding the items gives every key and value as UTF-8 bytes, in order |
| UrlEncoding.ParseFormBody | src/components/ApplicationForm.tsx:234-236 | the receiving end parses the body back into the pairs' UTF-8 bytes |
| ApplicationForm.WithText | src/components/ApplicationForm.tsx:83-96 | `{...formData, [name]: value}`: the named field takes the value; every other field and the résumé are kept |
| ApplicationForm.FormDataExtensionality | src/data/jobTypes.ts:43-59 | a form is determined by its text fields and its résumé |
| ApplicationForm.WithTextOwnValue | src/components/ApplicationForm.tsx:83-96 | writing a field's own value back changes nothing |
| ApplicationForm.ResumeSelectionError | src/components/ApplicationForm.tsx:104-117 | a file is accepted exactly when its type is PDF, Word or DOCX and its size is at most 3 MiB. A wrong type reports the type error (checked first); an accepted type over the bound reports the size error |
| ApplicationForm.SizeBoundIsInclusive | src/components/ApplicationForm.tsx:114 | a file of exactly 3 MiB is accepted; one byte more is not |
| ApplicationForm.MissingFields | src/components/ApplicationForm.tsx:138-144 | the filter reports no more fields than it checks |
| ApplicationForm.MissingFieldsSpec | src/components/ApplicationForm.tsx:138-144 | the reported fields are exactly the empty ones among those checked |
| ApplicationForm.ValidationError | src/components/ApplicationForm.tsx:146-172 | a validation error is one of the three validation failures, and passing validation means a résumé is chosen |
| ApplicationForm.ValidationErrorSpec | src/components/ApplicationForm.tsx:138-172 | validation passes exactly when the twelve required fields are non-empty, an "Other" department is specified, and a résumé is chosen. It reports missing information exactly when a required field is empty |
| ApplicationForm.AbsoluteResumeUrlSpec | src/components/ApplicationForm.tsx:197-199 | origin + "/" + path with at most one leading '/' of the path removed |
| ApplicationForm.PayloadKeysInOrder | src/components/ApplicationForm.tsx:211-232 | the payload has twenty pairs, and their keys are the source's keys in insertion order |
| ApplicationForm.WebhookBodyItems | src/components/ApplicationForm.tsx:211-236 | the body splits on '&' into twenty items in key order. Each item splits on '=' into its encoded key and value, and the receiving end decodes every key and value |
| ApplicationForm.PayloadValues | src/components/ApplicationForm.tsx:211-232 | the payload carries the twelve required form values under the first twelve keys in order, the URL as given, the job's id and title (empty without a job), the page's date and URL, and the lowered time. Its 'Other' value is the other department exactly when the department is "Other", and `form_name` is the general profile text exactly for the generic job |
| ApplicationForm.OtherItem | src/components/ApplicationForm.tsx:224 | the 'Other' pair is empty unless the department is "Other" |
| ApplicationForm.RowFor | src/components/ApplicationForm.tsx:266-281 | an inserted row is unprocessed, stores the given URL, and holds the other department exactly when the department is "Other" |
| ApplicationForm.ValidationStopsEverything | src/components/ApplicationForm.tsx:146-172 | a failed validation sends nothing and reports the first failing check |
| ApplicationForm.UploadFailureStopsInsert | src/components/ApplicationForm.tsx:181-195 | an unusable upload result (no success or an empty path) ends after the upload: nothing is posted or inserted, and the uploader's error or the fallback message is reported |
| ApplicationForm.InsertStepExtends | src/components/ApplicationForm.tsx:262-360 | the insert step only appends at most a job lookup and an insert to what was sent |
| ApplicationForm.SubmitRouting | src/components/ApplicationForm.tsx:81 | the generic job "AHS000" inserts into `general_profiles`. Any other job inserts into `applications` exactly when its id resolved. A missing job or failed lookup inserts nothing. Both inserts need a passed validation and a usable upload |
| ApplicationForm.SubmittedIff | src/components/ApplicationForm.tsx:134-373 | submission succeeds exactly when validation passes, the upload is usable, the job is generic or resolved, and the insert succeeds |
| ApplicationForm.InsertedRowsWellFormed | src/components/ApplicationForm.tsx:197-360 | every inserted row is unprocessed and stores the absolute résumé URL. It holds the other department exactly when the department is "Other", and it comes after the webhook post |
| ApplicationForm.WebhookNeverBlocks | src/components/ApplicationForm.tsx:240-259 | the webhook's answer plays no part in what submit does |
| ApplicationForm.LiveUploadIsUsable | src/components/ApplicationForm.tsx:181-199 | with the live uploader the upload always passes, and the stored URL is origin + "/" + the uploader's path unchanged (the leading-slash strip never fires) |
| ApplicationForm.ApplicationFormState.constructor | src/components/ApplicationForm.tsx:71-78 | the initial data with `job?.id \|\| ""`, no file error, not submitting |
| ApplicationForm.ApplicationFormState.HandleFieldChange | src/components/ApplicationForm.tsx:83-96 | only the named field changes |
| ApplicationForm.ApplicationFormState.HandleFileChange | src/components/ApplicationForm.tsx:98-124 | the error is cleared first. A rejected file sets its error and keeps the résumé; an accepted file replaces only the résumé |
| ApplicationForm.ApplicationFormState.HandleClearFile | src/components/ApplicationForm.tsx:126-132 | no résumé and no error; every text field is kept |
| ApplicationForm.ApplicationFormState.Validate | src/components/ApplicationForm.tsx:138-172 | the three checks in order give `ValidationError` |
| ApplicationForm.ApplicationFormState.InsertApplicant | src/components/ApplicationForm.tsx:262-360 | the insert step and its early exits do what `InsertStep` describes |
| ApplicationForm.ApplicationFormState.SendAndInsert | src/components/ApplicationForm.tsx:174-360 | for a valid form, upload, URL, webhook, lookup and insert do what `Submit` describes |
| ApplicationForm.ApplicationFormState.HandleSubmit | src/components/ApplicationForm.tsx:134-373 | `handleSubmit` does what `Submit` describes. The form is reset exactly on success, and past validation `isSubmitting` ends false on every exit |
| JobFormMapping.ViolationsSpec | src/pages/AdminJobForm.tsx:30-53 | the reported fields are exactly the failing ones among those checked |
| JobFormMapping.SchemaAcceptsIff | src/pages/AdminJobForm.tsx:30-53 | the schema accepts exactly when position, job id, location, experience and industry have length ≥ 2 and description and key skills ≥ 10; the status plays no part |
| JobFormMapping.LongEnoughIff | src/pages/AdminJobEdit.tsx:30-53 | every field reaching its minimum is the explicit list of length bounds |
| JobFormMapping.SchemaAcceptsEveryField | src/pages/AdminJobEdit.tsx:30-53 | the schema checks every field |
| JobFormMapping.NoViolationsIff | src/pages/AdminJobForm.tsx:30-53 | nothing is reported exactly when every checked field passes |
| JobFormMapping.DefaultsRejected | src/pages/AdminJobForm.tsx:80-89 | the default values are rejected, and the status defaults to false |
| JobFormMapping.FindOrFirst | src/pages/AdminJobForm.tsx:105-107 | `find(…) \|\| table[0]` is always an entry of the non-empty table |
| JobFormMapping.FindOrFirstSpec | src/pages/AdminJobForm.tsx:105-107 | the entry with the id when one exists, otherwise the first entry |
| JobFormMapping.RowFieldsSpec | src/pages/AdminJobForm.tsx:105-119 | the written texts are as entered. Each reference is the table entry with the entered id, or the first entry. The skills are the newline pieces, one more than the newlines. The status is 'Published' exactly for true and 'Draft' otherwise |
| JobFormMapping.CreateRow | src/pages/AdminJobForm.tsx:120-121 | the created row carries the posting time and the author |
| JobFormMapping.UpdateRow | src/pages/AdminJobEdit.tsx:189-199 | the updated row carries neither `dateposted` nor `user_id` |
| JobFormMapping.CreateAndUpdateAgree | src/pages/AdminJobEdit.tsx:189-199 | creating and updating write the same columns apart from those two |
| JobFormMapping.SaveResult | src/pages/AdminJobForm.tsx:124-143 | saved exactly when the database succeeds; otherwise the database's message, or the page's fallback when it has none |
| JobFormMapping.StatusFlagOfText | src/pages/AdminJobEdit.tsx:148 | bool → status text → bool is the identity |
| JobFormMapping.StatusTextOfFlag | src/pages/AdminJobEdit.tsx:197 | status text → bool → text is the identity exactly on 'Published' and 'Draft' |
| JobFormMapping.SkillsSplitJoin | src/pages/AdminJobEdit.tsx:143-145 | join then split gives back any non-empty skill list without newlines |
| JobFormMapping.EmptySkillsComeBackAsOne | src/pages/AdminJobEdit.tsx:143-145 | an empty skill list comes back as one empty skill |
| JobFormMapping.SkillsJoinSplit | src/pages/AdminJobEdit.tsx:196 | split then join gives back every skills text |
| JobFormMapping.RefId | src/pages/AdminJobEdit.tsx:124-137 | an id is read only from a stored object with a truthy `id` |
| JobFormMapping.LoadValues | src/pages/AdminJobEdit.tsx:120-148 | position, job id ("" for null), description and status (true exactly for 'Published') are always written. Location, experience and industry are written only from a stored object with an id, and the skills only from a stored array, joined with newlines |
| JobFormMapping.TableIdsDistinct | src/data/mockData.ts:5-31 | the ids of each lookup table are distinct |
| JobFormMapping.LookupOwnKey | src/pages/AdminJobForm.tsx:105-107 | in a table with distinct ids, looking up an entry's id finds that entry |
| JobFormMapping.SaveLoadSave | src/pages/AdminJobEdit.tsx:120-199 | saving, loading into the edit form and saving again writes the same row, whatever the form held before |
| AdminJobCreate.CreateOutcomeCases | src/pages/AdminJobForm.tsx:92-147 | the schema is checked first, then the user. A rejection names exactly the failing fields. Only a submit that passes both reaches the database, and it is saved exactly when the insert succeeds |
| AdminJobCreate.CreateInsertRow | src/pages/AdminJobForm.tsx:93-122 | an insert happens exactly for accepted values and a signed-in user. It carries the posting time and the user id and agrees with the update row on every other column |
| AdminJobCreate.CreatePage.constructor | src/pages/AdminJobForm.tsx:59 | not loading and not navigated |
| AdminJobCreate.CreatePage.Submit | src/pages/AdminJobForm.tsx:92-147 | the outcome and the inserted row are those of `CreateOutcome` and `CreateInsert`. `isLoading` ends false once the insert is attempted, and the page navigates to `/admin` exactly on success |
| AdminJobEdit.UpdateOutcomeCases | src/pages/AdminJobEdit.tsx:162-225 | the schema, then the user, then the route id. Only a submit that passes all three reaches the database, and it is saved exactly when the update succeeds |
| AdminJobEdit.UpdateTargetRow | src/pages/AdminJobEdit.tsx:163-208 | an update happens exactly for accepted values, a user and a truthy route id. It names the route id and never carries `dateposted` or `user_id` |
| AdminJobEdit.EditPage.constructor | src/pages/AdminJobEdit.tsx:55-75 | the default values, not loading, initialising |
| AdminJobEdit.EditPage.FetchJobData | src/pages/AdminJobEdit.tsx:107-160 | a found row is loaded into the form by `LoadValues`; a missing one leaves the form and navigates to `/admin`; initialising ends on both paths |
| AdminJobEdit.EditPage.Mount | src/pages/AdminJobEdit.tsx:78-105 | without a session, go to the login. With one and a route id, load the row, staying on the page when it is found and going to `/admin` when it is not. With one and no id, stop initialising and go back to the list |
| AdminJobEdit.EditPage.Submit | src/pages/AdminJobEdit.tsx:162-225 | the outcome and the update are those of `UpdateOutcome` and `UpdateTarget`. `isLoading` ends false once the update is attempted, the page navigates to `/admin` exactly on success, and the form values are kept |

## Left out

- Network and vendor calls are abstract answers, not modelled calls:
  - Supabase queries, inserts, updates and auth;
  - the webhook `fetch`;
  - the browser's upload.
  
  The webhook effect records the payload value. `WebhookBody` of that payload is the body sent. The webhook's URL (four URLs concatenated, src/components/ApplicationForm.tsx:238) is not modelled.
- The commented-out upload request in src/utils/fileUploader.ts:29-76 is not live and is not modelled. The upload result the form sees is a parameter that covers any answer; `LiveUploadIsUsable` ties it to the live path.
- Timers and clocks are parameters: the `setTimeout` delays (src/pages/Index.tsx:33-73, src/utils/fileUploader.ts:18), `Date.now()`, `time()`, `toISOString()` and the locale date and time texts. The index page's delayed filter is split into `BeginApply` and `CompleteApply`.
- Toasts, `console` logging, the JSX, the dialog's `onClose` call (src/components/ApplicationForm.tsx:373) and the creation page's `isAuthenticated` spinner are presentation and are left out. The creation page's mount check, which redirects to `/admin/login` without a session (src/pages/AdminJobForm.tsx:62-76), is left out too; its submit guard on the user is modelled.
- The outer `catch` of `handleSubmit` (src/components/ApplicationForm.tsx:375-383) cannot be reached with the modelled collaborators, which answer rather than throw, so it is left out.
- The "Resume Missing" branch (src/components/ApplicationForm.tsx:200-208) is dead, because a résumé is required at line 165. It is left out.
- The webhook's failure is only logged, and the model follows the code: the pipeline waits for the webhook's answer, and `WebhookNeverBlocks` shows the answer changes nothing.
- `upload.php`:
  - CORS headers are left out.
  - The blank line before `<?php` is left out.
  - The JSON text is left out; bodies are the values they encode.
  - `mkdir` and `move_uploaded_file` are actions whose only modelled result is success or failure.
  - The unsanitised `jobId` in the path (upload.php:22) is kept as it is; directory traversal is not modelled.
- Lower: `toLowerCase` is modelled on ASCII letters only; Unicode case folding is left out.
- Strings are sequences of Unicode scalar values, so lone surrogates in JavaScript strings are not represented. JavaScript `length` counts UTF-16 code units (`Utf16Length`). The sanitiser's per-runtime unit count is the `Runtime` parameter.
- The jobs of src/data/mockData.ts:43-196 are a parameter of the index page (`JobBoard`'s `allJobs`), not a constant; the four lookup tables are constants.
- The prop mismatch between src/pages/Index.tsx (it passes `jobId`) and src/components/ApplicationForm.tsx:34 (it expects `job`) is not modelled. The dialog is modelled against its own `job` prop.
- The auth context, the protected route, the hard-coded admin login, the `sessionStorage` flag of the admin page, the header, footer and card components, the generated database types, the storage-bucket edge function and the lint configuration are outside the model.
- The zod resolver's field-by-field error display is reduced to the list of failing fields. The messages are constants in `JobFormMapping.Message`.
- Dates on the form (`JobDetailsDialog` formatting) and the webhook's `Date` text are parameters.
