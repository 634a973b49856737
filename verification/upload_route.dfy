/** `POST /api/documents/upload`: the REST twin of `getUploadUrl`. It checks
    the session and the body, creates the document record under
    `uploads/<time>-<sanitised name>` and answers with a presigned upload
    URL; it never records browser-extracted text. */
module UploadRoute {
  import opened Wrappers
  import opened Store
  import opened Upload

  const UnauthorizedError: string := "Unauthorized"
  const InvalidRequestError: string := "Invalid request data"
  const FailedError: string := "Failed to create upload URL"

  /** The request body: not JSON at all, or a JSON value with the three
      fields, each `None` when missing or of the wrong type. */
  datatype RequestBody = NotJson | Json(fileName: Option<string>, fileType: Option<string>, fileSize: Option<int>)

  datatype UploadRequest = UploadRequest(fileName: string, fileType: string, fileSize: int)

  datatype Body =
    | ErrorBody(error: string)
    | UploadBody(documentId: string, uploadUrl: string, s3Key: string)

  datatype Response = Response(status: nat, body: Body)

  /** `uploadSchema.parse(body)` on a JSON body. */
  function ParseUpload(fileName: Option<string>, fileType: Option<string>, fileSize: Option<int>): (r: Option<UploadRequest>)
    ensures r.Some? <==>
      && fileName.Some? && |fileName.value| >= 1
      && fileType.Some? && |fileType.value| >= 1
      && fileSize.Some? && fileSize.value > 0
    ensures r.Some? ==> r.value == UploadRequest(fileName.value, fileType.value, fileSize.value)
  {
    if fileName.Some? && |fileName.value| >= 1 && fileType.Some? && |fileType.value| >= 1 && fileSize.Some? && fileSize.value > 0
    then Some(UploadRequest(fileName.value, fileType.value, fileSize.value))
    else None
  }

  /** The route. `session` is the signed-in user's id, if any; `newId` the
      id the database generates, `timestamp` the clock reading and `presign`
      the signing service, called with the full object key. Any error that
      is not a zod error (a body that is not JSON, a failed insert, a failed
      signing) is a 500; the record stays when only the signing failed. */
  method Post(store: DocumentStore, session: Option<string>, body: RequestBody, newId: string, timestamp: nat,
              presign: (string, string) -> Result<string>)
    returns (resp: Response)
    requires store.Valid()
    modifies store
    ensures store.Valid() && store.chunks == old(store.chunks)
    ensures resp.status != 200 <==> resp.body.ErrorBody?
    ensures session.None? ==> resp == Response(401, ErrorBody(UnauthorizedError)) && store.documents == old(store.documents)
    ensures session.Some? && body.NotJson? ==> resp == Response(500, ErrorBody(FailedError)) && store.documents == old(store.documents)
    ensures session.Some? && body.Json? && ParseUpload(body.fileName, body.fileType, body.fileSize).None? ==>
      resp == Response(400, ErrorBody(InvalidRequestError)) && store.documents == old(store.documents)
    ensures session.Some? && body.Json? && ParseUpload(body.fileName, body.fileType, body.fileSize).Some? ==>
      var req := ParseUpload(body.fileName, body.fileType, body.fileSize).value;
      var check := CheckFile(req.fileType, req.fileSize);
      && (check.Err? ==> resp == Response(400, ErrorBody(check.message)) && store.documents == old(store.documents))
      && (check.Ok? && FindDocument(old(store.documents), newId).Some? ==>
            resp == Response(500, ErrorBody(FailedError)) && store.documents == old(store.documents))
      && (check.Ok? && FindDocument(old(store.documents), newId).None? ==>
            var key := StorageKey(timestamp, req.fileName);
            && store.documents == old(store.documents) +
                 [Document(newId, req.fileName, key, session.value, PENDING, None,
                           DocumentMetadata(req.fileName, req.fileType, req.fileSize, None), old(store.clock))]
            && resp == match presign(key, req.fileType)
                       case Err(_) => Response(500, ErrorBody(FailedError))
                       case Ok(url) => Response(200, UploadBody(newId, url, key)))
  {
    if session.None? {
      return Response(401, ErrorBody(UnauthorizedError));
    }
    if body.NotJson? {
      return Response(500, ErrorBody(FailedError));
    }
    var parsed := ParseUpload(body.fileName, body.fileType, body.fileSize);
    if parsed.None? {
      return Response(400, ErrorBody(InvalidRequestError));
    }
    var req := parsed.value;
    var check := CheckFile(req.fileType, req.fileSize);
    if check.Err? {
      return Response(400, ErrorBody(check.message));
    }
    var objectName := ObjectName(timestamp, req.fileName);
    var created := store.CreateDocument(newId, req.fileName, "uploads/" + objectName, session.value,
                                        DocumentMetadata(req.fileName, req.fileType, req.fileSize, None));
    if created.Err? {
      return Response(500, ErrorBody(FailedError));
    }
    var url := presign(UploadPrefix + objectName, req.fileType);
    if url.Err? {
      return Response(500, ErrorBody(FailedError));
    }
    return Response(200, UploadBody(created.value.id, url.value, created.value.s3Key));
  }
}
