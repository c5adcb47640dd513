/**
 * The client-side résumé uploader (src/utils/fileUploader.ts). Its live path
 * waits, then answers success with a path built from the job id, the
 * sanitised applicant name, the current time in milliseconds and the file's
 * extension; the request to the endpoint is not made. Only an exception in
 * that path turns into a failure result.
 */
module FileUploader {
  import opened Common
  import opened ResumeNaming

  /** The browser `File` the form holds: its name, MIME type and size in bytes. */
  datatype ResumeFile = ResumeFile(name: string, mimeType: string, size: nat)

  /** `{ success, resume_url?, error? }`. */
  datatype UploadResult = UploadResult(success: bool, resumeUrl: Option<string>, error: Option<string>)

  const NetworkErrorMessage := "Network or server error occurred"

  /** The path the live path answers with. */
  function MockResumeUrl(file: ResumeFile, jobId: string, fullName: string, nowMs: nat): string {
    ResumePath(jobId, StoredFileName(fullName, nowMs, ExtensionBySplit(file.name), Browser))
  }

  /**
   * `uploadResume(file, jobId, fullName)`, with the clock reading `nowMs`
   * and `raised` saying whether the awaited body threw. Success carries a
   * non-empty relative path and no error; a throw carries the fixed message
   * and no path.
   */
  function UploadResume(file: ResumeFile, jobId: string, fullName: string, nowMs: nat, raised: bool): (r: UploadResult)
    ensures r.success <==> !raised
    ensures r.success ==>
      && r.error.None? && r.resumeUrl.Some?
      && StartsWith(r.resumeUrl.value, "uploads/resumes/")
      && |r.resumeUrl.value| > 0 && r.resumeUrl.value[0] != '/'
    ensures !r.success ==> r.resumeUrl.None? && r.error == Some(NetworkErrorMessage)
  {
    if raised then UploadResult(false, None, Some(NetworkErrorMessage))
    else
      var url := MockResumeUrl(file, jobId, fullName, nowMs);
      ResumePathIsRelative(jobId, StoredFileName(fullName, nowMs, ExtensionBySplit(file.name), Browser));
      UploadResult(true, Some(url), None)
  }

  /** The extension read by split-and-pop holds no character the name lacks. */
  lemma ExtensionFromName(name: string, c: char)
    requires c !in name
    ensures c !in ExtensionBySplit(name)
  {
    ExtensionBySplitSpec(name);
    if '.' in name {
      var stem :| name == stem + "." + ExtensionBySplit(name);
      var ext := ExtensionBySplit(name);
      forall i | 0 <= i < |ext| ensures ext[i] != c {
        assert ext[i] == name[|stem| + 1 + i];
      }
    }
  }

  /**
   * For a job id and a file name without '/', the answered path is
   * `uploads/resumes/<jobId>/<file>`, and reading the file's extension back
   * with the same rule gives the original file's extension.
   */
  lemma MockResumeUrlShape(file: ResumeFile, jobId: string, fullName: string, nowMs: nat)
    requires '/' !in jobId && '/' !in file.name
    ensures var stored := StoredFileName(fullName, nowMs, ExtensionBySplit(file.name), Browser);
      && Split(MockResumeUrl(file, jobId, fullName, nowMs), '/') == ["uploads", "resumes", jobId, stored]
      && ExtensionBySplit(stored) == ExtensionBySplit(file.name)
  {
    var ext := ExtensionBySplit(file.name);
    ExtensionFromName(file.name, '/');
    ExtensionBySplitSpec(file.name);
    ResumePathSegments(jobId, fullName, nowMs, ext, Browser);
    StoredNameKeepsExtension(fullName, nowMs, ext, Browser);
  }
}
