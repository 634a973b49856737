/** The checks and the storage key shared by the two upload paths, the tRPC
    `getUploadUrl` procedure and the REST upload route: only PDF and plain
    text, at most 10 MiB, and an object key built from the upload time and
    the file name with every character outside `[A-Za-z0-9.-]` replaced by
    `_`. */
module Upload {
  import opened Wrappers
  import opened Text

  const AllowedTypes: seq<string> := ["application/pdf", "text/plain"]
  /** 10 MiB; a file of exactly this size is accepted. */
  const MaxFileSize: int := 10 * 1024 * 1024
  const UnsupportedTypeMessage: string := "File type not supported. Only PDF and TXT files are allowed."
  const TooLargeMessage: string := "File too large. Maximum size is 10MB."
  /** The default `S3_UPLOAD_PREFIX` the presigned upload URL puts before
      the key it is given. */
  const UploadPrefix: string := "uploads/"

  /** `[a-zA-Z0-9.-]`. */
  predicate KeyChar(c: char) {
    ('a' <= c <= 'z') || ('A' <= c <= 'Z') || ('0' <= c <= '9') || c == '.' || c == '-'
  }

  /** `fileName.replace(/[^a-zA-Z0-9.-]/g, "_")`: same length, every key
      character kept where it is, every other character replaced by `_`. */
  function Sanitize(name: string): (r: string)
    ensures |r| == |name|
    ensures forall i :: 0 <= i < |r| ==> (if KeyChar(name[i]) then r[i] == name[i] else r[i] == '_')
    decreases |name|
  {
    if name == [] then []
    else Sanitize(name[..|name| - 1]) + [if KeyChar(name[|name| - 1]) then name[|name| - 1] else '_']
  }

  /** Sanitising twice is sanitising once, and a name made of key characters
      only is left as it is. */
  lemma SanitizeIdempotent(name: string)
    ensures Sanitize(Sanitize(name)) == Sanitize(name)
    ensures (forall i :: 0 <= i < |name| ==> KeyChar(name[i])) ==> Sanitize(name) == name
  {
  }

  /** `${timestamp}-${sanitizedFileName}`: the key the presigned URL is asked
      for. */
  function ObjectName(timestamp: nat, fileName: string): string {
    NatToString(timestamp) + "-" + Sanitize(fileName)
  }

  /** `uploads/${s3Key}`: the key the document records. */
  function StorageKey(timestamp: nat, fileName: string): string {
    UploadPrefix + ObjectName(timestamp, fileName)
  }

  /** The recorded key is the upload prefix followed by the digits of the
      time, a hyphen and the sanitised name; the name's length is kept. */
  lemma StorageKeyShape(timestamp: nat, fileName: string)
    ensures var key := StorageKey(timestamp, fileName);
      && StartsWith(key, UploadPrefix)
      && |key| == |UploadPrefix| + |NatToString(timestamp)| + 1 + |fileName|
      && EndsWith(key, Sanitize(fileName))
  {
    var key := StorageKey(timestamp, fileName);
    var name := Sanitize(fileName);
    assert key == UploadPrefix + (NatToString(timestamp) + "-" + name);
    assert key[..|UploadPrefix|] == UploadPrefix;
    assert key[|key| - |name|..] == name;
  }

  /** The part after the prefix holds no `/` and no whitespace, so the key
      names one object directly under `uploads/` whatever the file name
      holds. */
  lemma StorageKeyChars(timestamp: nat, fileName: string)
    ensures var key := StorageKey(timestamp, fileName);
      forall i :: |UploadPrefix| <= i < |key| ==> key[i] != '/' && !IsSpace(key[i])
  {
    var name := ObjectName(timestamp, fileName);
    var digits := NatToString(timestamp);
    var clean := Sanitize(fileName);
    forall j | 0 <= j < |name|
      ensures name[j] != '/' && !IsSpace(name[j])
    {
      if j < |digits| {
        assert name[j] == digits[j];
      } else if j > |digits| {
        assert name[j] == clean[j - |digits| - 1];
      }
    }
    var key := StorageKey(timestamp, fileName);
    forall i | |UploadPrefix| <= i < |key|
      ensures key[i] != '/' && !IsSpace(key[i])
    {
      assert key[i] == name[i - |UploadPrefix|];
    }
  }

  /** The type and size checks, in that order. */
  function CheckFile(fileType: string, fileSize: int): (r: Result<()>)
    ensures r.Ok? <==> fileType in AllowedTypes && fileSize <= MaxFileSize
    ensures fileType !in AllowedTypes ==> r == Err(UnsupportedTypeMessage)
    ensures fileType in AllowedTypes && fileSize > MaxFileSize ==> r == Err(TooLargeMessage)
  {
    if fileType !in AllowedTypes then Err(UnsupportedTypeMessage)
    else if fileSize > MaxFileSize then Err(TooLargeMessage)
    else Ok(())
  }
}
