/** The boundary-facing errors and the (status, JSON body) each one becomes. */
module HttpErrors {
  import opened Wrappers
  import JwtLibrary

  /** An HTTP status code, as the `http` crate admits them. */
  type StatusCode = c: int | 100 <= c <= 999 witness 400

  const BAD_REQUEST: StatusCode := 400
  const UNAUTHORIZED: StatusCode := 401
  const INTERNAL_SERVER_ERROR: StatusCode := 500

  /** The per-field payload of a validation failure; it never reaches the response. */
  datatype ValidationErrorsKind = StructErrors | ListErrors | FieldErrors(codes: seq<string>)

  datatype HttpError =
    | ParsingError(text: string, rejectionStatus: StatusCode)
    | InvalidFieldsError(errors: map<string, ValidationErrorsKind>)
    | Simple(code: StatusCode, msg: string)
    | DatabaseError

  /**
   * The JSON body `{"success": .., "error": .., "fields": [..]}`; `fields` is
   * present only when it is `Some`. The field list comes from a hash map, so
   * its order is unspecified and it is modelled as a set.
   */
  datatype Body = Body(success: bool, error: string, fields: Option<set<string>>)

  datatype Response = Response(status: StatusCode, body: Body)

  /** `IntoResponse for HttpError`. */
  function IntoResponse(e: HttpError): (r: Response)
    ensures !r.body.success
    ensures r.body.fields.Some? <==> e.InvalidFieldsError?
    ensures e.ParsingError? ==> r.status == BAD_REQUEST && r.body.error == e.text
    ensures e.InvalidFieldsError? ==>
      r.status == BAD_REQUEST && r.body.error == "invalid_fields" && r.body.fields == Some(e.errors.Keys)
    ensures e.Simple? ==> r.status == e.code && r.body.error == e.msg
    ensures e.DatabaseError? ==> r.status == INTERNAL_SERVER_ERROR && r.body.error == "fatal_error"
  {
    match e
    case ParsingError(text, _) => Response(BAD_REQUEST, Body(false, text, None))
    case InvalidFieldsError(errors) =>
      Response(BAD_REQUEST, Body(false, "invalid_fields", Some(errors.Keys)))
    case Simple(code, msg) => Response(code, Body(false, msg, None))
    case DatabaseError => Response(INTERNAL_SERVER_ERROR, Body(false, "fatal_error", None))
  }

  /** A parsing error answers 400 whatever status the rejection itself carried. */
  lemma ParsingStatusIgnored(text: string, s1: StatusCode, s2: StatusCode)
    ensures IntoResponse(ParsingError(text, s1)) == IntoResponse(ParsingError(text, s2))
    ensures IntoResponse(ParsingError(text, s1)).status == BAD_REQUEST
  {
  }

  /** Only a database error, or a `Simple` error carrying 500, answers 500. */
  lemma ServerErrorSources(e: HttpError)
    ensures IntoResponse(e).status == INTERNAL_SERVER_ERROR <==>
      e.DatabaseError? || (e.Simple? && e.code == INTERNAL_SERVER_ERROR)
  {
  }

  /** Axum's rejection of a request body that is not the expected JSON. */
  datatype JsonRejection = JsonRejection(status: StatusCode)

  /** `From<JsonRejection> for HttpError`. */
  function FromJsonRejection(err: JsonRejection): (e: HttpError)
    ensures e.ParsingError? && e.text == "invalid_body" && e.rejectionStatus == err.status
    ensures IntoResponse(e) == Response(BAD_REQUEST, Body(false, "invalid_body", None))
  {
    ParsingError("invalid_body", err.status)
  }

  /** The `validator` crate's failures, by field name. */
  datatype ValidationErrors = ValidationErrors(errors: map<string, ValidationErrorsKind>)

  /** `From<validator::ValidationErrors> for HttpError`. */
  function FromValidationErrors(err: ValidationErrors): (e: HttpError)
    ensures e.InvalidFieldsError? && e.errors == err.errors
    ensures IntoResponse(e) == Response(BAD_REQUEST, Body(false, "invalid_fields", Some(err.errors.Keys)))
  {
    InvalidFieldsError(err.errors)
  }

  /** A failed blocking task: cancelled or panicked. */
  datatype JoinError = Cancelled | TaskPanicked

  /** `From<tokio::task::JoinError> for HttpError`. */
  function FromJoinError(err: JoinError): (e: HttpError)
    ensures IntoResponse(e) == Response(INTERNAL_SERVER_ERROR, Body(false, "async_error", None))
  {
    Simple(INTERNAL_SERVER_ERROR, "async_error")
  }

  /** `From<jsonwebtoken::errors::Error> for HttpError`: the crate's message is dropped. */
  function FromJwtError(err: JwtLibrary.Error): (e: HttpError)
    ensures IntoResponse(e) == Response(INTERNAL_SERVER_ERROR, Body(false, "bad_jwt", None))
  {
    Simple(INTERNAL_SERVER_ERROR, "bad_jwt")
  }

  /** A failed rqlite request, with its `to_string()` text. */
  datatype RequestError = RequestError(message: string)

  /** `From<rqlite_rs::error::RequestError> for HttpError`. */
  function FromRqliteError(err: RequestError): (e: HttpError)
    ensures IntoResponse(e) ==
      Response(INTERNAL_SERVER_ERROR, Body(false, "bad_rqlite_request: " + err.message, None))
  {
    Simple(INTERNAL_SERVER_ERROR, "bad_rqlite_request: " + err.message)
  }
}
