/**
  The attachment routes: the signed-URL request with its field, size and
  content-type checks; the local upload that stores a file as
  `<fileId>-<filename>` in the upload directory; and the local download that
  serves the first file whose name starts with `<fileId>-`.
*/
module Attachments {
  import opened Wrappers
  import opened Wire
  import opened JsText
  import AuthMiddleware
  import S3

  /** 10 MiB. */
  const MaxSize := 10 * 1024 * 1024

  /** The content-type prefixes accepted. */
  const AllowedTypes := ["image/", "video/", "audio/", "application/pdf", "text/"]

  predicate IsAllowedType(contentType: string) {
    exists i :: 0 <= i < |AllowedTypes| && StartsWith(contentType, AllowedTypes[i])
  }

  /** The query of a signed-URL request. */
  datatype SignedUrlQuery = SignedUrlQuery(filename: Option<string>, contentType: Option<string>,
                                           conversationId: Option<string>, size: Option<string>)

  /** `parseInt(req.query.size || '0')`; `None` is `NaN`. */
  function DeclaredSize(q: SignedUrlQuery): Option<int> {
    ParseInt(OrElse(q.size, Some("0")).value)
  }

  /**
    GET /signed-url behind `requireAuth`. The checks run in order: the three
    fields, the declared size, the content type; `presignOk` is false when
    presigning throws.
  */
  function SignedUrl(header: Option<string>, verify: string -> Option<Claims>, q: SignedUrlQuery, cfg: S3.Config,
                     random: seq<byte>, presign: (string, string) -> string, presignOk: bool): (r: Result<S3.UploadTarget, HttpError>)
    requires |random| == 16
    ensures AuthMiddleware.RequireAuth(header, verify).Failure? ==> r == Failure(AuthMiddleware.RequireAuth(header, verify).error)
    ensures AuthMiddleware.RequireAuth(header, verify).Success? &&
            !(Truthy(q.filename) && Truthy(q.contentType) && Truthy(q.conversationId)) ==>
      r == Failure(HttpError(400, "filename, contentType, and conversationId required"))
    ensures r.Success? <==>
      AuthMiddleware.RequireAuth(header, verify).Success? &&
      Truthy(q.filename) && Truthy(q.contentType) && Truthy(q.conversationId) &&
      !(DeclaredSize(q).Some? && DeclaredSize(q).value > MaxSize) &&
      IsAllowedType(q.contentType.value) && (S3.UseS3(cfg) ==> presignOk)
    ensures r.Success? ==>
      r.value == S3.GetSignedUploadUrl(cfg, q.filename.value, q.contentType.value, q.conversationId.value, random, presign)
  {
    var auth := AuthMiddleware.RequireAuth(header, verify);
    if auth.Failure? then Failure(auth.error)
    else if !(Truthy(q.filename) && Truthy(q.contentType) && Truthy(q.conversationId)) then
      Failure(HttpError(400, "filename, contentType, and conversationId required"))
    else if DeclaredSize(q).Some? && DeclaredSize(q).value > MaxSize then
      Failure(HttpError(400, "File size exceeds 10MB limit"))
    else if !IsAllowedType(q.contentType.value) then
      Failure(HttpError(400, "File type not allowed"))
    else if S3.UseS3(cfg) && !presignOk then
      Failure(HttpError(500, "server_error"))
    else
      Success(S3.GetSignedUploadUrl(cfg, q.filename.value, q.contentType.value, q.conversationId.value, random, presign))
  }

  /** An absent size counts as 0 and passes the size check. */
  lemma AbsentSizeIsZero(q: SignedUrlQuery)
    requires q.size.None?
    ensures DeclaredSize(q) == Some(0)
  {
    assert OrElse(q.size, Some("0")).value == "0";
    assert !IsJsWhitespace('0');
    assert TrimStart("0") == "0";
    assert DigitPrefix("0"[1..], 10) == "";
    assert DigitPrefix("0", 10) == "0";
    assert DigitsValue("0", 10) == 0;
  }

  /** A size that does not parse as a number (`NaN`) is not "above the limit" and passes the size check. */
  lemma UnparsableSizePasses(q: SignedUrlQuery)
    requires q.size.Some? && q.size.value != "" && ParseInt(q.size.value).None?
    ensures !(DeclaredSize(q).Some? && DeclaredSize(q).value > MaxSize)
  {
  }

  /** A content type is accepted exactly when it begins with one of the five prefixes, compared case-sensitively. */
  lemma AllowedTypePrefixes(contentType: string)
    ensures IsAllowedType(contentType) <==>
      StartsWith(contentType, "image/") || StartsWith(contentType, "video/") || StartsWith(contentType, "audio/") ||
      StartsWith(contentType, "application/pdf") || StartsWith(contentType, "text/")
  {
    if StartsWith(contentType, "image/") { assert StartsWith(contentType, AllowedTypes[0]); }
    if StartsWith(contentType, "video/") { assert StartsWith(contentType, AllowedTypes[1]); }
    if StartsWith(contentType, "audio/") { assert StartsWith(contentType, AllowedTypes[2]); }
    if StartsWith(contentType, "application/pdf") { assert StartsWith(contentType, AllowedTypes[3]); }
    if StartsWith(contentType, "text/") { assert StartsWith(contentType, AllowedTypes[4]); }
  }

  /** The name a local upload is stored under: `${fileId}-${filename}`. */
  function StoredName(fileId: string, filename: Option<string>): (name: string)
    ensures StartsWith(name, fileId + "-")
  {
    fileId + "-" + ToStr(filename)
  }

  /** `files[i]` is the first listed name that starts with `<fileId>-`. */
  predicate FirstMatchAt(files: seq<string>, fileId: string, i: int) {
    0 <= i < |files| && StartsWith(files[i], fileId + "-") &&
    forall j :: 0 <= j < i ==> !StartsWith(files[j], fileId + "-")
  }

  /** The first listed name that starts with `<fileId>-`. */
  function FindFile(files: seq<string>, fileId: string): (r: Option<string>)
    ensures r.Some? ==> r.value in files && StartsWith(r.value, fileId + "-")
    ensures r.None? <==> forall i :: 0 <= i < |files| ==> !StartsWith(files[i], fileId + "-")
    ensures r.Some? ==> exists i :: FirstMatchAt(files, fileId, i) && files[i] == r.value
  {
    if |files| == 0 then None
    else if StartsWith(files[0], fileId + "-") then
      assert FirstMatchAt(files, fileId, 0);
      Some(files[0])
    else
      var r := FindFile(files[1..], fileId);
      if r.Some? then FirstMatchShifts(files, fileId, r.value); r else r
  }

  /** A first match in the tail, behind a head that does not match, is the first match of the whole list. */
  lemma FirstMatchShifts(files: seq<string>, fileId: string, name: string)
    requires |files| > 0 && !StartsWith(files[0], fileId + "-")
    requires exists i :: FirstMatchAt(files[1..], fileId, i) && files[1..][i] == name
    ensures exists i :: FirstMatchAt(files, fileId, i) && files[i] == name
  {
    var i :| FirstMatchAt(files[1..], fileId, i) && files[1..][i] == name;
    forall j | 0 < j < i + 1
      ensures !StartsWith(files[j], fileId + "-")
    {
      assert files[j] == files[1..][j - 1];
    }
    assert FirstMatchAt(files, fileId, i + 1) && files[i + 1] == name;
  }

  /**
    `strcmp` order on names, the order in which a directory listing
    (`fs.readdirSync`, through libuv's `scandir`) returns them: code point by
    code point, a proper prefix first.
  */
  predicate Precedes(a: string, b: string)
    decreases |a|
  {
    if |a| == 0 then |b| > 0
    else if |b| == 0 then false
    else if a[0] != b[0] then a[0] < b[0]
    else Precedes(a[1..], b[1..])
  }

  /** Two different names are ordered one way or the other, and never both ways. */
  lemma {:induction false} PrecedesTotal(a: string, b: string)
    ensures a != b <==> Precedes(a, b) || Precedes(b, a)
    ensures !(Precedes(a, b) && Precedes(b, a))
    decreases |a|
  {
    if |a| > 0 && |b| > 0 && a[0] == b[0] {
      PrecedesTotal(a[1..], b[1..]);
      assert a == [a[0]] + a[1..] && b == [b[0]] + b[1..];
    }
  }

  /** A listing in name order, without repeats. */
  predicate Listed(files: seq<string>) {
    forall i, j :: 0 <= i < j < |files| ==> Precedes(files[i], files[j])
  }

  /** The listing after a file named `name` is written: in name order, replacing a file of that name. */
  function Insert(files: seq<string>, name: string): (r: seq<string>)
    requires Listed(files)
    ensures Listed(r)
    ensures forall x :: x in r <==> x in files || x == name
    ensures name in files ==> r == files
    ensures |r| == if name in files then |files| else |files| + 1
  {
    if |files| == 0 then [name]
    else if files[0] == name then files
    else if Precedes(name, files[0]) then
      assert forall j :: 0 < j < |files| ==> Precedes(files[0], files[j]);
      InsertBefore(files, name);
      [name] + files
    else
      PrecedesTotal(name, files[0]);
      var rest := Insert(files[1..], name);
      assert forall x :: x in rest ==> Precedes(files[0], x) by {
        forall x | x in rest
          ensures Precedes(files[0], x)
        {
          if x != name {
            var j :| 0 <= j < |files[1..]| && files[1..][j] == x;
            assert files[j + 1] == x;
          }
        }
      }
      assert name !in files ==> name !in files[1..];
      assert files == [files[0]] + files[1..];
      [files[0]] + rest
  }

  /** A name that precedes the first of a listing precedes all of it, and is not in it. */
  lemma InsertBefore(files: seq<string>, name: string)
    requires Listed(files) && |files| > 0 && Precedes(name, files[0])
    ensures name !in files
    ensures Listed([name] + files)
  {
    forall j | 0 <= j < |files|
      ensures Precedes(name, files[j])
    {
      if j > 0 { PrecedesTransitive(name, files[0], files[j]); }
    }
    forall x | x in files
      ensures x != name
    {
      var j :| 0 <= j < |files| && files[j] == x;
      PrecedesTotal(name, x);
    }
  }

  lemma {:induction false} PrecedesTransitive(a: string, b: string, c: string)
    requires Precedes(a, b) && Precedes(b, c)
    ensures Precedes(a, c)
    decreases |a|
  {
    if |a| > 0 && a[0] == b[0] && b[0] == c[0] {
      PrecedesTransitive(a[1..], b[1..], c[1..]);
    }
  }

  /** On a listing in name order the first match is the least matching name. */
  lemma FirstMatchIsLeast(files: seq<string>, fileId: string)
    requires Listed(files) && FindFile(files, fileId).Some?
    ensures forall x :: x in files && StartsWith(x, fileId + "-") && x != FindFile(files, fileId).value ==>
      Precedes(FindFile(files, fileId).value, x)
  {
    var i :| FirstMatchAt(files, fileId, i) && files[i] == FindFile(files, fileId).value;
    forall x | x in files && StartsWith(x, fileId + "-") && x != files[i]
      ensures Precedes(files[i], x)
    {
      var j :| 0 <= j < |files| && files[j] == x;
      assert i < j;
    }
  }

  /** The upload directory; `files` is its listing, in name order. */
  class UploadDir {
    var files: seq<string>

    ghost predicate Valid()
      reads this
    {
      Listed(files)
    }

    constructor(files: seq<string>)
      requires Listed(files)
      ensures Valid() && this.files == files
    {
      this.files := files;
    }

    /**
      PUT /upload/:fileId behind `requireAuth`, then multer, which writes a
      sent file into the directory under its own random name `tempName`
      before the handler runs. The handler refuses when S3 is configured or no
      file came with the request; otherwise it moves the file to its stored
      name, replacing a file of that name. `renameOk` is false when the move
      throws. A refused or failed upload leaves multer's file behind.
    */
    method Upload(header: Option<string>, verify: string -> Option<Claims>, cfg: S3.Config,
                  fileId: string, filename: Option<string>, hasFile: bool, tempName: string, renameOk: bool)
      returns (r: Result<string, HttpError>)
      requires Valid()
      modifies this
      ensures Valid()
      ensures AuthMiddleware.RequireAuth(header, verify).Failure? ==>
        r == Failure(AuthMiddleware.RequireAuth(header, verify).error) && files == old(files)
      ensures AuthMiddleware.RequireAuth(header, verify).Success? && S3.UseS3(cfg) ==>
        r == Failure(HttpError(400, "S3 configured, use signed URL directly"))
      ensures AuthMiddleware.RequireAuth(header, verify).Success? && !S3.UseS3(cfg) && !hasFile ==>
        r == Failure(HttpError(400, "No file uploaded"))
      ensures AuthMiddleware.RequireAuth(header, verify).Success? && !S3.UseS3(cfg) && hasFile && !renameOk ==>
        r == Failure(HttpError(500, "upload_failed"))
      ensures r.Success? <==> AuthMiddleware.RequireAuth(header, verify).Success? && !S3.UseS3(cfg) && hasFile && renameOk
      ensures r.Success? ==> r.value == fileId
      ensures r.Success? ==> files == Insert(old(files), StoredName(fileId, filename))
      ensures r.Failure? && AuthMiddleware.RequireAuth(header, verify).Success? && hasFile ==> files == Insert(old(files), tempName)
      ensures r.Failure? && !(AuthMiddleware.RequireAuth(header, verify).Success? && hasFile) ==> files == old(files)
    {
      var auth := AuthMiddleware.RequireAuth(header, verify);
      if auth.Failure? {
        return Failure(auth.error);
      }
      var listed := files;
      if hasFile {
        files := Insert(files, tempName);
      }
      if S3.UseS3(cfg) {
        return Failure(HttpError(400, "S3 configured, use signed URL directly"));
      }
      if !hasFile {
        return Failure(HttpError(400, "No file uploaded"));
      }
      if !renameOk {
        return Failure(HttpError(500, "upload_failed"));
      }
      files := Insert(listed, StoredName(fileId, filename));
      r := Success(fileId);
    }

    /**
      GET /:fileId: 404 when S3 is configured or no name matches, 500 when the
      directory cannot be read; otherwise the first matching file.
    */
    function Serve(cfg: S3.Config, fileId: string, readable: bool): (r: Result<string, HttpError>)
      reads this
      ensures S3.UseS3(cfg) ==> r == Failure(HttpError(404, "File not found"))
      ensures r.Success? <==> !S3.UseS3(cfg) && readable && FindFile(files, fileId).Some?
      ensures !S3.UseS3(cfg) && !readable ==> r == Failure(HttpError(500, "server_error"))
      ensures !S3.UseS3(cfg) && readable && FindFile(files, fileId).None? ==> r == Failure(HttpError(404, "File not found"))
      ensures r.Success? ==> r.value == FindFile(files, fileId).value
      ensures r.Success? ==> r.value in files && StartsWith(r.value, fileId + "-")
    {
      if S3.UseS3(cfg) then Failure(HttpError(404, "File not found"))
      else if !readable then Failure(HttpError(500, "server_error"))
      else match FindFile(files, fileId)
        case None => Failure(HttpError(404, "File not found"))
        case Some(f) => Success(f)
    }
  }

  /** Without a competing name, a file uploaded under an id is the one served for that id. */
  lemma {:induction false} UploadedFileIsServed(files: seq<string>, fileId: string, filename: Option<string>)
    requires Listed(files)
    requires forall i :: 0 <= i < |files| ==> !StartsWith(files[i], fileId + "-")
    ensures FindFile(Insert(files, StoredName(fileId, filename)), fileId) == Some(StoredName(fileId, filename))
    decreases |files|
  {
    var name := StoredName(fileId, filename);
    if |files| > 0 && files[0] != name && !Precedes(name, files[0]) {
      UploadedFileIsServed(files[1..], fileId, filename);
    }
  }

  /** Writing a file whose name does not match an id leaves that id's lookup as it was. */
  lemma {:induction false} FindInsertedOther(files: seq<string>, fileId: string, name: string)
    requires Listed(files) && !StartsWith(name, fileId + "-")
    ensures FindFile(Insert(files, name), fileId) == FindFile(files, fileId)
    decreases |files|
  {
    if |files| > 0 && files[0] != name && !Precedes(name, files[0]) {
      FindInsertedOther(files[1..], fileId, name);
    }
  }

  /**
    The served file is the least matching name, not the earliest upload: after
    `z.txt` and then `a.txt` are uploaded under the id `f`, `f-a.txt` is served.
  */
  lemma LeastNameIsServed()
    ensures FindFile(Insert(Insert([], "f-z.txt"), "f-a.txt"), "f") == Some("f-a.txt")
  {
    assert Precedes("f-a.txt", "f-z.txt") by {
      assert "f-a.txt"[1..] == "-a.txt" && "f-z.txt"[1..] == "-z.txt";
      assert "-a.txt"[1..] == "a.txt" && "-z.txt"[1..] == "z.txt";
    }
    assert Insert(["f-z.txt"], "f-a.txt") == ["f-a.txt", "f-z.txt"];
    assert "f-a.txt"[..2] == "f-";
  }

  /**
    Lookup is by prefix only: a file stored under the id `a-b` is served for
    the id `a` as well.
  */
  lemma DashedIdsCollide(filename: Option<string>)
    ensures FindFile([StoredName("a-b", filename)], "a") == Some(StoredName("a-b", filename))
  {
    assert StoredName("a-b", filename)[..2] == "a-";
  }
}
