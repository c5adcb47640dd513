/**
 * The upload endpoint (upload.php) as one request handler: a pre-flight
 * request ends at once, a missing or failed upload is refused, otherwise the
 * directory for the job is made when absent and the file is moved to its
 * stored path. The file system's answers are parameters; what the handler
 * asks of the file system is returned as a list of actions.
 */
module UploadScript {
  import opened Common
  import opened ResumeNaming

  /** One entry of `$_FILES`: the client's file name, the error code and the temporary path. */
  datatype UploadedFile = UploadedFile(name: string, errorCode: int, tmpName: string)

  /** What the handler reads from the request; None for an unset field. */
  datatype Request = Request(
    requestMethod: string,
    resume: Option<UploadedFile>,
    jobIdField: Option<string>,
    fullNameField: Option<string>)

  /** The JSON body written, as the value it encodes. */
  datatype Body = NoBody | ErrorJson(message: string) | SuccessJson(resumeUrl: string)

  datatype Response = Response(status: nat, body: Body)

  datatype FsAction = MakeDirectory(path: string) | MoveUploadedFile(from: string, to: string)

  const UploadErrOk := 0
  const NoFileMessage := "No file uploaded or upload error"
  const MoveFailedMessage := "Failed to move uploaded file"

  /** The file field is present and reports no error. */
  predicate HasValidUpload(req: Request) {
    req.resume.Some? && req.resume.value.errorCode == UploadErrOk
  }

  /** `isset($_POST['jobId']) ? $_POST['jobId'] : 'default'`: an empty value is kept. */
  function JobIdOf(req: Request): (r: string)
    ensures req.jobIdField.None? ==> r == "default"
    ensures req.jobIdField.Some? ==> r == req.jobIdField.value
  {
    match req.jobIdField
    case None => "default"
    case Some(v) => v
  }

  /** An unset `fullName` reaches the replace as null, which yields "". */
  function FullNameOf(req: Request): string {
    match req.fullNameField
    case None => ""
    case Some(v) => v
  }

  function UploadDir(jobId: string): string {
    "uploads/resumes/" + jobId + "/"
  }

  /** `$targetPath`, for the time stamp `now` in seconds. */
  function TargetPath(req: Request, now: nat): string
    requires HasValidUpload(req)
  {
    var ext := PhpExtension(Basename(req.resume.value.name));
    UploadDir(JobIdOf(req)) + StoredFileName(FullNameOf(req), now, ext, Php)
  }

  /**
   * The handler. `dirExists` is the answer of `file_exists` and
   * `moveSucceeds` that of `move_uploaded_file`.
   */
  method HandleRequest(req: Request, now: nat, dirExists: bool, moveSucceeds: bool)
    returns (resp: Response, actions: seq<FsAction>)
    ensures req.requestMethod == "OPTIONS" ==> resp == Response(200, NoBody) && actions == []
    ensures req.requestMethod != "OPTIONS" && !HasValidUpload(req) ==>
      resp == Response(400, ErrorJson(NoFileMessage)) && actions == []
    ensures req.requestMethod != "OPTIONS" && HasValidUpload(req) ==>
      && actions == (if dirExists then [] else [MakeDirectory(UploadDir(JobIdOf(req)))]) +
                    [MoveUploadedFile(req.resume.value.tmpName, TargetPath(req, now))]
      && resp == if moveSucceeds then Response(200, SuccessJson(TargetPath(req, now)))
                 else Response(500, ErrorJson(MoveFailedMessage))
  {
    actions := [];
    if req.requestMethod == "OPTIONS" {
      resp := Response(200, NoBody);
      return;
    }
    if req.resume.None? || req.resume.value.errorCode != UploadErrOk {
      resp := Response(400, ErrorJson(NoFileMessage));
      return;
    }
    var jobId := JobIdOf(req);
    var uploadDir := UploadDir(jobId);
    if !dirExists {
      actions := actions + [MakeDirectory(uploadDir)];
    }
    var filename := Basename(req.resume.value.name);
    var fileExt := PhpExtension(filename);
    var safeFilename := Sanitize(FullNameOf(req), Php) + "_" + Decimal(now) + "." + fileExt;
    var targetPath := uploadDir + safeFilename;
    actions := actions + [MoveUploadedFile(req.resume.value.tmpName, targetPath)];
    if moveSucceeds {
      resp := Response(200, SuccessJson(targetPath));
    } else {
      resp := Response(500, ErrorJson(MoveFailedMessage));
    }
  }

  /**
   * The target path is the stored path for the job, so it begins with
   * `uploads/resumes/` and lies inside the directory the handler makes.
   */
  lemma TargetPathShape(req: Request, now: nat)
    requires HasValidUpload(req)
    ensures TargetPath(req, now) ==
      ResumePath(JobIdOf(req), StoredFileName(FullNameOf(req), now, PhpExtension(Basename(req.resume.value.name)), Php))
    ensures StartsWith(TargetPath(req, now), UploadDir(JobIdOf(req)))
    ensures StartsWith(TargetPath(req, now), "uploads/resumes/")
  {
    var f := StoredFileName(FullNameOf(req), now, PhpExtension(Basename(req.resume.value.name)), Php);
    ResumePathIsRelative(JobIdOf(req), f);
    assert TargetPath(req, now)[..|UploadDir(JobIdOf(req))|] == UploadDir(JobIdOf(req));
  }

  /**
   * For an ASCII applicant name the endpoint's stored name is the one the
   * browser's uploader would build from the same stamp and extension.
   */
  lemma StoredNameMatchesBrowser(fullName: string, stamp: nat, ext: string)
    requires IsAscii(fullName)
    ensures StoredFileName(fullName, stamp, ext, Php) == StoredFileName(fullName, stamp, ext, Browser)
  {
    RuntimesAgreeOnAscii(fullName);
  }

  /**
   * A client file named `resume` (no '.') is stored by the endpoint with an
   * empty extension, while the browser's rule would give `resume`.
   */
  lemma ExtensionlessNameExample()
    ensures PhpExtension(Basename("resume")) == ""
    ensures ExtensionBySplit("resume") == "resume"
  {
    BasenameOfPlainName("resume");
    ExtensionRulesCompared("resume");
  }
}
