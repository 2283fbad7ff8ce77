/**
  Upload targets for attachments: the file id, the sanitised file name, the
  object key, and the two kinds of target — a presigned S3 PUT when S3 is
  configured, the server's own upload route otherwise. Presigning is a
  parameter.
*/
module S3 {
  import opened Wrappers
  import opened JsText

  /** The environment the module reads at load time. */
  datatype Config = Config(accessKeyId: Option<string>, secretAccessKey: Option<string>,
                           bucket: Option<string>, region: Option<string>)

  /** `USE_S3`: all three of access key, secret and bucket are set. */
  predicate UseS3(cfg: Config) {
    Truthy(cfg.accessKeyId) && Truthy(cfg.secretAccessKey) && Truthy(cfg.bucket)
  }

  /** The characters `[a-zA-Z0-9.-]` a file name keeps. */
  predicate IsKeptChar(c: char) {
    'a' <= c <= 'z' || 'A' <= c <= 'Z' || '0' <= c <= '9' || c == '.' || c == '-'
  }

  /** `filename.replace(/[^a-zA-Z0-9.-]/g, '_')`. */
  function Sanitize(name: string): (r: string)
    ensures |r| == |name|
    ensures forall i :: 0 <= i < |name| ==> r[i] == if IsKeptChar(name[i]) then name[i] else '_'
  {
    if |name| == 0 then "" else [if IsKeptChar(name[0]) then name[0] else '_'] + Sanitize(name[1..])
  }

  /** Sanitising a sanitised name changes nothing, and leaves no '/' or other unsafe character. */
  lemma SanitizeIdempotent(name: string)
    ensures Sanitize(Sanitize(name)) == Sanitize(name)
    ensures forall i :: 0 <= i < |Sanitize(name)| ==> IsKeptChar(Sanitize(name)[i]) || Sanitize(name)[i] == '_'
  {
  }

  /** `crypto.randomBytes(16).toString('hex')`, for the random bytes given. */
  function FileId(random: seq<byte>): (id: string)
    requires |random| == 16
    ensures |id| == 32 && forall i :: 0 <= i < |id| ==> IsLowerHexDigit(id[i])
  {
    Hex(random)
  }

  /** `conversations/<conversationId>/<fileId>-<sanitised name>`. */
  function ObjectKey(conversationId: string, fileId: string, sanitized: string): string {
    "conversations/" + conversationId + "/" + fileId + "-" + sanitized
  }

  lemma NoSlashInName(fileId: string, sanitized: string)
    requires forall i :: 0 <= i < |fileId| ==> IsLowerHexDigit(fileId[i])
    requires forall i :: 0 <= i < |sanitized| ==> IsKeptChar(sanitized[i]) || sanitized[i] == '_'
    ensures '/' !in fileId + "-" + sanitized
  {
    var last := fileId + "-" + sanitized;
    forall i | 0 <= i < |last|
      ensures last[i] != '/'
    {
      if i < |fileId| {
        assert last[i] == fileId[i];
      } else if i > |fileId| {
        assert last[i] == sanitized[i - |fileId| - 1];
      }
    }
  }

  lemma ThreeSegments(a: string, b: string, c: string)
    requires '/' !in a && '/' !in b && '/' !in c
    ensures Split(a + "/" + b + "/" + c, '/') == [a, b, c]
  {
    assert a + "/" + b + "/" + c == a + ['/'] + (b + ['/'] + c);
    SplitByAppend(a, '/', b + ['/'] + c, IsChar('/'));
    SplitByAppend(b, '/', c, IsChar('/'));
    SplitByNoSeparator(c, IsChar('/'));
  }

  /**
    A key splits on '/' into exactly its three parts whenever the conversation
    id holds no '/': the sanitised name cannot add a path segment.
  */
  lemma ObjectKeySegments(conversationId: string, random: seq<byte>, filename: string)
    requires |random| == 16 && '/' !in conversationId
    ensures Split(ObjectKey(conversationId, FileId(random), Sanitize(filename)), '/') ==
      ["conversations", conversationId, FileId(random) + "-" + Sanitize(filename)]
  {
    SanitizeIdempotent(filename);
    NoSlashInName(FileId(random), Sanitize(filename));
    var last := FileId(random) + "-" + Sanitize(filename);
    assert ObjectKey(conversationId, FileId(random), Sanitize(filename)) == "conversations" + "/" + conversationId + "/" + last;
    ThreeSegments("conversations", conversationId, last);
  }

  /** What `getSignedUploadUrl` returns. */
  datatype UploadTarget = UploadTarget(uploadUrl: string, publicUrl: string, fileId: string)

  /**
    `getSignedUploadUrl`. `random` is the 16 random bytes and `presign` the
    presigner's URL for a PUT of the key with the content type, valid 300 s.
  */
  function GetSignedUploadUrl(cfg: Config, filename: string, contentType: string, conversationId: string,
                              random: seq<byte>, presign: (string, string) -> string): (t: UploadTarget)
    requires |random| == 16
    ensures t.fileId == FileId(random)
    ensures UseS3(cfg) ==>
      t.uploadUrl == presign(ObjectKey(conversationId, t.fileId, Sanitize(filename)), contentType) &&
      t.publicUrl == "https://" + cfg.bucket.value + ".s3." + OrElse(cfg.region, Some("us-east-1")).value +
                     ".amazonaws.com/" + ObjectKey(conversationId, t.fileId, Sanitize(filename))
    ensures !UseS3(cfg) ==>
      t.publicUrl == "/api/attachments/" + t.fileId &&
      t.uploadUrl == "/api/attachments/upload/" + t.fileId + "?filename=" + Sanitize(filename) +
                     "&contentType=" + EncodeURIComponent(contentType)
  {
    var fileId := FileId(random);
    var sanitized := Sanitize(filename);
    var key := ObjectKey(conversationId, fileId, sanitized);
    if UseS3(cfg) then
      var region := OrElse(cfg.region, Some("us-east-1")).value;
      UploadTarget(presign(key, contentType),
                   "https://" + cfg.bucket.value + ".s3." + region + ".amazonaws.com/" + key, fileId)
    else
      assert forall i :: 0 <= i < |sanitized| ==> IsUriUnreserved(sanitized[i]);
      EncodeUnreservedUnchanged(sanitized);
      UploadTarget("/api/attachments/upload/" + fileId + "?filename=" + EncodeURIComponent(sanitized) +
                   "&contentType=" + EncodeURIComponent(contentType),
                   "/api/attachments/" + fileId, fileId)
  }
}
