/** `submit_form` (POST /submit): check that the photograph is an image,
    name its blob, upload it, insert a row, send a queue message, and answer
    with the new id and blob URL. Every exception on the way, the 400 raised
    for a non-image included, is caught by one handler and answered with a
    500. Nothing already done is undone. */
module Submission {
  import opened Outcomes
  import opened Text
  import opened Naming

  /** Blob container the photographs go to. */
  const Container := "form-images"
  /** Service Bus queue the notifications go to. */
  const Queue := "form-submission-job"
  const SuccessMessage := "Form submitted successfully"
  const ImagePrefix := "image/"
  /** `str(HTTPException(400, "File must be an image"))`. */
  const NotImageText := "400: File must be an image"
  /** `str(e)` for the AttributeError of calling `startswith` on None. */
  const NoContentTypeText := "'NoneType' object has no attribute 'startswith'"
  const ServerErrorPrefix := "Internal server error: "

  /** The uploaded photograph: client file name, declared content type
      (None when the part carries no Content-Type header) and its bytes. */
  datatype Photo = Photo(filename: string, contentType: Option<string>, content: seq<bv8>)

  /** The values inserted into `form_submissions`. */
  datatype Row = Row(
    name: string,
    address: string,
    idNumber: string,
    imageFilename: string,
    blobUrl: string)

  /** The body of the queue message, before JSON encoding. */
  datatype QueueMessage = QueueMessage(
    submissionId: int,
    name: string,
    address: string,
    idNumber: string,
    imageFilename: string,
    blobUrl: string,
    timestamp: string)

  /** One call into a collaborator, in the order made. There is no delete
      of any kind: nothing is ever rolled back. */
  datatype Call =
    | UploadBlob(container: string, blobName: string, content: seq<bv8>, overwrite: bool)
    | InsertRow(row: Row)
    | SendMessage(queue: string, message: QueueMessage)

  /** What each collaborator call does when made: the upload returns the
      blob's URL or raises, the insert returns the new row's id or raises,
      the send returns or raises. */
  datatype Collaborators = Collaborators(
    upload: Result<string>,
    insert: Result<int>,
    send: Outcome)

  /** The HTTP answer: the JSON body of a 200, or an HTTPException. */
  datatype Response =
    | Submitted(message: string, submissionId: int, blobUrl: string)
    | HttpError(status: int, detail: string)

  /** `content_type.startswith('image/')`. */
  predicate IsImage(contentType: string)
  {
    StartsWith(contentType, ImagePrefix)
  }

  /** The handler at the end: `HTTPException(500, f"Internal server error: {e}")`. */
  function ServerError(exceptionText: string): Response
  {
    HttpError(500, ServerErrorPrefix + exceptionText)
  }

  /** `submit_form(name, address, id_number, photograph)`. `uuid` stands for
      `str(uuid.uuid4())` and `timestamp` for `datetime.utcnow().isoformat()`.
      `calls` lists the collaborator calls made, in order. */
  method SubmitForm(
    name: string, address: string, idNumber: string, photo: Photo,
    uuid: string, timestamp: string, services: Collaborators)
    returns (response: Response, calls: seq<Call>)
    // A missing content type raises an AttributeError before any call; a
    // non-image one raises the 400, which the handler turns into a 500.
    ensures photo.contentType.None? ==>
              calls == [] && response == ServerError(NoContentTypeText)
    ensures photo.contentType.Some? && !IsImage(photo.contentType.value) ==>
              calls == [] && response == ServerError(NotImageText)
    // Calls happen strictly in order, each only once the one before returned.
    ensures |calls| <= 3
    ensures |calls| >= 1 <==> photo.contentType.Some? && IsImage(photo.contentType.value)
    ensures |calls| >= 2 <==> |calls| >= 1 && services.upload.Ok?
    ensures |calls| == 3 <==> |calls| >= 2 && services.insert.Ok?
    // What flows into each call.
    ensures var blobName := BlobName(uuid, Extension(photo.filename));
            |calls| >= 1 ==> calls[0] == UploadBlob(Container, blobName, photo.content, true)
    ensures var blobName := BlobName(uuid, Extension(photo.filename));
            |calls| >= 2 ==>
              calls[1] == InsertRow(Row(name, address, idNumber, blobName, services.upload.value))
    ensures var blobName := BlobName(uuid, Extension(photo.filename));
            |calls| == 3 ==>
              calls[2] == SendMessage(Queue, QueueMessage(services.insert.value, name, address, idNumber,
                                                          blobName, services.upload.value, timestamp))
    // The answer: success only when every call returned, else the failing
    // call's own message behind the 500 prefix.
    ensures response.Submitted? <==> |calls| == 3 && services.send.Pass?
    ensures response.HttpError? ==> response.status == 500
    ensures response.Submitted? ==>
              response == Submitted(SuccessMessage, services.insert.value, services.upload.value)
    ensures |calls| == 1 && services.upload.Err? ==> response == ServerError(services.upload.message)
    ensures |calls| == 2 && services.insert.Err? ==> response == ServerError(services.insert.message)
    ensures |calls| == 3 && services.send.Fail? ==> response == ServerError(services.send.message)
  {
    calls := [];
    if photo.contentType.None? {
      return ServerError(NoContentTypeText), calls;
    }
    if !IsImage(photo.contentType.value) {
      return ServerError(NotImageText), calls;
    }

    var extension := Extension(photo.filename);
    var blobName := BlobName(uuid, extension);

    calls := calls + [UploadBlob(Container, blobName, photo.content, true)];
    if services.upload.Err? {
      return ServerError(services.upload.message), calls;
    }
    var blobUrl := services.upload.value;

    calls := calls + [InsertRow(Row(name, address, idNumber, blobName, blobUrl))];
    if services.insert.Err? {
      return ServerError(services.insert.message), calls;
    }
    var submissionId := services.insert.value;

    var message := QueueMessage(submissionId, name, address, idNumber, blobName, blobUrl, timestamp);
    calls := calls + [SendMessage(Queue, message)];
    if services.send.Fail? {
      return ServerError(services.send.message), calls;
    }

    response := Submitted(SuccessMessage, submissionId, blobUrl);
  }
}
