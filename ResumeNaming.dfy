/**
 * How a résumé's stored path is formed from the job id, the applicant's name,
 * a time stamp and the uploaded file's name. The same character rule is
 * applied by the client-side uploader (src/utils/fileUploader.ts) and by the
 * upload endpoint (upload.php), but each sees the name in its own units and
 * each takes the extension in its own way.
 */
module ResumeNaming {
  import opened Common

  /** The characters of the class `[a-zA-Z0-9_-]`. */
  predicate IsNameChar(c: char) {
    ('a' <= c <= 'z') || ('A' <= c <= 'Z') || ('0' <= c <= '9') || c == '_' || c == '-'
  }

  predicate AllNameChars(s: string) {
    forall i :: 0 <= i < |s| ==> IsNameChar(s[i])
  }

  /**
   * Where the regular expression runs. Neither pattern is Unicode-aware:
   * JavaScript's matches UTF-16 code units, PHP's `preg_replace` without the
   * `u` flag matches UTF-8 bytes. A character outside the class is therefore
   * replaced by one '_' per unit.
   */
  datatype Runtime = Browser | Php

  function Units(c: char, rt: Runtime): (r: nat)
    ensures r >= 1
    ensures c as int < 0x80 ==> r == 1
  {
    match rt
    case Browser => Utf16Units(c)
    case Php => Utf8Width(c)
  }

  function Underscores(n: nat): (r: string)
    ensures |r| == n
    ensures forall i :: 0 <= i < n ==> r[i] == '_'
  {
    if n == 0 then "" else "_" + Underscores(n - 1)
  }

  /** The number of units the runtime sees in `s`. */
  function EncodedLength(s: string, rt: Runtime): nat {
    if |s| == 0 then 0 else Units(s[0], rt) + EncodedLength(s[1..], rt)
  }

  /** One character's replacement. */
  function SanitizeChar(c: char, rt: Runtime): (r: string)
    ensures IsNameChar(c) ==> r == [c]
    ensures !IsNameChar(c) ==> r == Underscores(Units(c, rt))
  {
    if IsNameChar(c) then [c] else Underscores(Units(c, rt))
  }

  /**
   * The global replace of `[^a-zA-Z0-9_-]` by '_': as many characters as the
   * runtime sees units, all of them in the class, and a string already in the
   * class is left as it is.
   */
  function Sanitize(s: string, rt: Runtime): (r: string)
    ensures |r| == EncodedLength(s, rt)
    ensures AllNameChars(r)
    ensures AllNameChars(s) ==> r == s
  {
    if |s| == 0 then ""
    else
      var rest := Sanitize(s[1..], rt);
      assert AllNameChars(s) ==> AllNameChars(s[1..]) && IsNameChar(s[0]);
      assert AllNameChars(s) ==> s == [s[0]] + s[1..];
      SanitizeChar(s[0], rt) + rest
  }

  /** The replacement works character by character. */
  lemma {:induction false} SanitizeConcat(a: string, b: string, rt: Runtime)
    ensures Sanitize(a + b, rt) == Sanitize(a, rt) + Sanitize(b, rt)
    decreases |a|
  {
    if |a| > 0 {
      assert (a + b)[0] == a[0];
      assert (a + b)[1..] == a[1..] + b;
      SanitizeConcat(a[1..], b, rt);
    } else {
      assert a + b == b;
    }
  }

  /** Sanitising twice is sanitising once. */
  lemma SanitizeIdempotent(s: string, rt: Runtime)
    ensures Sanitize(Sanitize(s, rt), rt) == Sanitize(s, rt)
  {
  }

  /** A name is left unchanged exactly when it is already in the class. */
  lemma SanitizeFixedPoints(s: string, rt: Runtime)
    ensures Sanitize(s, rt) == s <==> AllNameChars(s)
  {
  }

  /**
   * On ASCII names the replacement keeps the length and maps each character
   * to itself or '_', so both runtimes produce the same name.
   */
  lemma {:induction false} SanitizeAscii(s: string, rt: Runtime)
    requires IsAscii(s)
    ensures |Sanitize(s, rt)| == |s|
    ensures forall i :: 0 <= i < |s| ==> Sanitize(s, rt)[i] == if IsNameChar(s[i]) then s[i] else '_'
  {
    if |s| > 0 {
      assert IsAscii(s[1..]) by {
        forall i | 0 <= i < |s[1..]| ensures s[1..][i] as int < 0x80 {
          assert s[1..][i] == s[i + 1];
        }
      }
      SanitizeAscii(s[1..], rt);
      assert s[0] as int < 0x80;
      var r := Sanitize(s, rt);
      assert r == SanitizeChar(s[0], rt) + Sanitize(s[1..], rt);
      assert |SanitizeChar(s[0], rt)| == 1;
      forall i | 0 <= i < |s| ensures r[i] == if IsNameChar(s[i]) then s[i] else '_' {
        if i > 0 {
          assert r[i] == Sanitize(s[1..], rt)[i - 1];
          assert s[1..][i - 1] == s[i];
        }
      }
    }
  }

  lemma RuntimesAgreeOnAscii(s: string)
    requires IsAscii(s)
    ensures Sanitize(s, Browser) == Sanitize(s, Php)
  {
    SanitizeAscii(s, Browser);
    SanitizeAscii(s, Php);
  }

  /** The browser's unit count is JavaScript's `length`. */
  lemma {:induction false} BrowserUnitsAreLength(s: string)
    ensures EncodedLength(s, Browser) == Utf16Length(s)
    decreases |s|
  {
    if |s| > 0 {
      BrowserUnitsAreLength(s[1..]);
    }
  }

  /**
   * Off ASCII the runtimes differ: a character of the Basic Multilingual
   * Plane beyond ASCII (an accented letter, say) is one code unit but two or
   * three bytes, so it becomes one '_' in the browser and several in PHP.
   */
  lemma RuntimesDifferOffAscii(c: char)
    requires 0x80 <= c as int < 0x10000
    ensures Sanitize([c], Browser) == "_"
    ensures |Sanitize([c], Php)| >= 2
    ensures Sanitize([c], Browser) != Sanitize([c], Php)
  {
    assert [c][1..] == [];
    assert !IsNameChar(c);
  }

  /**
   * `name.split('.').pop()`: the text after the last '.', or the whole name
   * when it has no '.'.
   */
  function ExtensionBySplit(name: string): string {
    Last(Split(name, '.'))
  }

  /**
   * `pathinfo($filename, PATHINFO_EXTENSION)`: the text after the last '.',
   * or "" when there is no '.'.
   */
  function PhpExtension(name: string): string {
    if '.' in name then Last(Split(name, '.')) else ""
  }

  /** Split pieces of a name with a '.' rebuild it around the last '.'. */
  lemma LastPieceIsSuffix(name: string)
    requires '.' in name
    ensures var pieces := Split(name, '.');
      |pieces| >= 2 && name == Join(pieces[..|pieces| - 1], '.') + "." + Last(pieces)
  {
    var pieces := Split(name, '.');
    CountPositive(name, '.');
    var n := |pieces|;
    JoinSplit(name, '.');
    assert pieces == pieces[..n - 1] + [pieces[n - 1]];
    JoinSnoc(pieces[..n - 1], pieces[n - 1], '.');
  }

  /**
   * The split-and-pop extension contains no '.'; it is the whole name when
   * the name has no '.', and otherwise the name ends in '.' followed by it.
   */
  lemma ExtensionBySplitSpec(name: string)
    ensures '.' !in ExtensionBySplit(name)
    ensures '.' !in name ==> ExtensionBySplit(name) == name
    ensures '.' in name ==> exists stem :: name == stem + "." + ExtensionBySplit(name)
  {
    if '.' !in name {
      SplitWithoutSeparator(name, '.');
    } else {
      LastPieceIsSuffix(name);
      var pieces := Split(name, '.');
      var stem := Join(pieces[..|pieces| - 1], '.');
      assert name == stem + "." + ExtensionBySplit(name);
    }
  }

  /**
   * The two extension rules agree on every name with a '.', and differ on
   * every non-empty name without one: the client keeps the whole name, the
   * endpoint takes "".
   */
  lemma ExtensionRulesCompared(name: string)
    ensures '.' in name ==> PhpExtension(name) == ExtensionBySplit(name)
    ensures '.' !in name ==> PhpExtension(name) == "" && ExtensionBySplit(name) == name
  {
    ExtensionBySplitSpec(name);
  }

  /** PHP `basename` on a '/'-separated path: trailing '/' dropped, then the last component. */
  function Basename(path: string): (r: string)
    ensures '/' !in r
  {
    Last(Split(DropTrailingSlashes(path), '/'))
  }

  function DropTrailingSlashes(s: string): (r: string)
    ensures |r| <= |s| && r == s[..|r|]
    ensures |r| > 0 ==> r[|r| - 1] != '/'
    ensures forall i :: |r| <= i < |s| ==> s[i] == '/'
  {
    if |s| > 0 && s[|s| - 1] == '/' then DropTrailingSlashes(s[..|s| - 1]) else s
  }

  /** A plain file name (no '/') is its own basename. */
  lemma BasenameOfPlainName(name: string)
    requires '/' !in name
    ensures Basename(name) == name
  {
    if |name| > 0 {
      assert name[|name| - 1] in name;
    }
    assert DropTrailingSlashes(name) == name;
    SplitWithoutSeparator(name, '/');
  }

  /** `<name>_<stamp>.<ext>`, the stored file name. */
  function StoredFileName(fullName: string, stamp: nat, ext: string, rt: Runtime): string {
    Sanitize(fullName, rt) + "_" + Decimal(stamp) + "." + ext
  }

  /** `uploads/resumes/<jobId>/<file>`, the stored path. */
  function ResumePath(jobId: string, fileName: string): string {
    "uploads/resumes/" + jobId + "/" + fileName
  }

  /** The stored path is relative: it begins with `uploads/resumes/`, never with '/'. */
  lemma ResumePathIsRelative(jobId: string, fileName: string)
    ensures StartsWith(ResumePath(jobId, fileName), "uploads/resumes/")
    ensures |ResumePath(jobId, fileName)| > 0 && ResumePath(jobId, fileName)[0] != '/'
  {
    assert ResumePath(jobId, fileName)[..16] == "uploads/resumes/";
  }

  /**
   * With a job id and an extension free of '/', the path has exactly four
   * '/'-separated segments, the last of them the stored file name.
   */
  lemma ResumePathSegments(jobId: string, fullName: string, stamp: nat, ext: string, rt: Runtime)
    requires '/' !in jobId && '/' !in ext
    ensures Split(ResumePath(jobId, StoredFileName(fullName, stamp, ext, rt)), '/') ==
            ["uploads", "resumes", jobId, StoredFileName(fullName, stamp, ext, rt)]
  {
    StoredFileNameAlphabet(fullName, stamp, ext, rt);
    PathSegments(jobId, StoredFileName(fullName, stamp, ext, rt));
  }

  /** A path built from two '/'-free parts splits into its four segments. */
  lemma PathSegments(jobId: string, fileName: string)
    requires '/' !in jobId && '/' !in fileName
    ensures Split(ResumePath(jobId, fileName), '/') == ["uploads", "resumes", jobId, fileName]
  {
    var f := fileName;
    var xs := ["uploads", "resumes", jobId, f];
    assert Join(xs, '/') == ResumePath(jobId, f) by {
      assert xs[1..] == ["resumes", jobId, f];
      assert xs[1..][1..] == [jobId, f];
      assert xs[1..][1..][1..] == [f];
      assert Join([f], '/') == f;
      assert Join([jobId, f], '/') == jobId + "/" + f;
      assert Join(["resumes", jobId, f], '/') == "resumes" + "/" + (jobId + "/" + f);
      assert Join(xs, '/') == "uploads" + "/" + ("resumes" + "/" + (jobId + "/" + f));
    }
    SplitJoin(xs, '/');
  }

  /** Only the extension can bring a '.' or a '/' into the stored file name. */
  lemma StoredFileNameAlphabet(fullName: string, stamp: nat, ext: string, rt: Runtime)
    ensures '/' !in ext ==> '/' !in StoredFileName(fullName, stamp, ext, rt)
    ensures '.' !in Sanitize(fullName, rt) + "_" + Decimal(stamp)
  {
    var d := Decimal(stamp);
    var stem := Sanitize(fullName, rt) + "_" + d;
    forall i | 0 <= i < |stem| ensures stem[i] != '.' && stem[i] != '/' {
      if i < |Sanitize(fullName, rt)| {
        assert IsNameChar(Sanitize(fullName, rt)[i]);
      } else if i > |Sanitize(fullName, rt)| {
        assert IsDigit(d[i - |Sanitize(fullName, rt)| - 1]);
      }
    }
  }

  /**
   * The stored name keeps the extension it was given, under either rule of
   * reading an extension back.
   */
  lemma StoredNameKeepsExtension(fullName: string, stamp: nat, ext: string, rt: Runtime)
    requires '.' !in ext
    ensures ExtensionBySplit(StoredFileName(fullName, stamp, ext, rt)) == ext
    ensures PhpExtension(StoredFileName(fullName, stamp, ext, rt)) == ext
  {
    var stem := Sanitize(fullName, rt) + "_" + Decimal(stamp);
    StoredFileNameAlphabet(fullName, stamp, ext, rt);
    assert Join([stem, ext], '.') == StoredFileName(fullName, stamp, ext, rt);
    SplitJoin([stem, ext], '.');
    assert '.' in StoredFileName(fullName, stamp, ext, rt) by {
      assert StoredFileName(fullName, stamp, ext, rt)[|stem|] == '.';
    }
  }
}
