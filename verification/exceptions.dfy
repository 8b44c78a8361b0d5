/** The uniform error envelope. The global exception handler classifies an
    exception by the first class in a fixed chain that it is an instance
    of, and answers with `{success: false, status_code, message, details}`
    under that status. */
module Exceptions {

  /** The exception classes the handler tests for, plus Http404 (what
      get_object raises for a row outside the visible queryset) and
      AttributeError (a plain Python error). */
  datatype ExcClass =
    | ValidationErrorClass
    | AuthenticationFailedClass
    | NotAuthenticatedClass
    | PermissionDeniedClass
    | NotFoundClass
    | ObjectDoesNotExistClass
    | DatabaseErrorClass
    | ApiExceptionClass
    | Http404Class
    | AttributeErrorClass

  /** An exception object: the classes it is an instance of, the status
      code it carries as an API exception, its `detail`, whether that
      detail is plain text, its `str()` and its full details. */
  datatype Exc = Exc(
    classes: set<ExcClass>,
    apiStatus: int,
    detail: string,
    detailIsText: bool,
    text: string,
    fullDetails: string)

  datatype Envelope = Envelope(success: bool, statusCode: int, message: string, details: string)

  /** The response the handler returns: its HTTP status and its body. */
  datatype Response = Response(status: int, body: Envelope)

  /** The API-exception subclasses always carry their standard status. */
  predicate WellFormed(e: Exc)
  {
    && (ValidationErrorClass in e.classes ==> ApiExceptionClass in e.classes && e.apiStatus == 400)
    && (AuthenticationFailedClass in e.classes ==> ApiExceptionClass in e.classes && e.apiStatus == 401)
    && (NotAuthenticatedClass in e.classes ==> ApiExceptionClass in e.classes && e.apiStatus == 401)
    && (PermissionDeniedClass in e.classes ==> ApiExceptionClass in e.classes && e.apiStatus == 403)
    && (NotFoundClass in e.classes ==> ApiExceptionClass in e.classes && e.apiStatus == 404)
  }

  // Exceptions the views raise.

  function ValidationError(detail: string): (e: Exc)
    ensures WellFormed(e)
  {
    Exc({ValidationErrorClass, ApiExceptionClass}, 400, detail, true, detail, detail)
  }

  function PermissionDenied(detail: string): (e: Exc)
    ensures WellFormed(e)
  {
    Exc({PermissionDeniedClass, ApiExceptionClass}, 403, detail, true, detail, detail)
  }

  /** What get_object raises for a primary key outside the queryset. */
  function Http404(): (e: Exc)
    ensures WellFormed(e)
  {
    var d := Http404Detail;
    Exc({Http404Class}, 0, d, true, d, d)
  }

  function AttributeError(detail: string): (e: Exc)
    ensures WellFormed(e)
  {
    Exc({AttributeErrorClass}, 0, detail, true, detail, detail)
  }

  // ---------------------------------------------------------------------
  // The classification chain, as written.

  // The envelope messages of the chain and the fallback views.
  const GenericMessage := "Something went wrong on our side. Please try again later."
  const InvalidFieldsMessage := "Some fields are invalid. Please correct them and try again."
  const InvalidCredentialsMessage := "Invalid credentials. Please log in again."
  const LoginNeededMessage := "You need to log in to access this resource."
  const ForbiddenMessage := "You don’t have permission to perform this action."
  const NotFoundMessage := "The requested resource was not found."
  const NoSuchItemMessage := "The item you’re looking for doesn’t exist."
  const DatabaseMessage := "A database error occurred. Please try again later."
  const ApiErrorMessage := "An API error occurred."
  const Http404Detail := "No object matches the given query."
  const InternalErrorDetail := "Internal server error."

  /** The envelope for an exception: the first class of the chain that the
      exception belongs to decides the status, message and details. */
  function Classify(e: Exc): (env: Envelope)
    ensures !env.success
    ensures ValidationErrorClass in e.classes ==> env.statusCode == 400 && env.details == e.detail
    ensures ValidationErrorClass !in e.classes
            && (AuthenticationFailedClass in e.classes || NotAuthenticatedClass in e.classes)
            ==> env.statusCode == 401 && env.details == e.text
    ensures env.statusCode in {400, 401, 403, 404, 500} || env.statusCode == e.apiStatus
  {
    var c := e.classes;
    if ValidationErrorClass in c then
      Envelope(false, 400, InvalidFieldsMessage, e.detail)
    else if AuthenticationFailedClass in c then
      Envelope(false, 401, InvalidCredentialsMessage, e.text)
    else if NotAuthenticatedClass in c then
      Envelope(false, 401, LoginNeededMessage, e.text)
    else if PermissionDeniedClass in c then
      Envelope(false, 403, ForbiddenMessage, e.text)
    else if NotFoundClass in c then
      Envelope(false, 404, NotFoundMessage, e.text)
    else if ObjectDoesNotExistClass in c then
      Envelope(false, 404, NoSuchItemMessage, e.text)
    else if DatabaseErrorClass in c then
      Envelope(false, 500, DatabaseMessage, e.text)
    else if ApiExceptionClass in c then
      Envelope(false, e.apiStatus, if e.detailIsText then e.detail else ApiErrorMessage, e.fullDetails)
    else
      Envelope(false, 500, GenericMessage, e.text)
  }

  /** The handler's response: whether or not the framework built one, the
      envelope becomes the body and its status code the HTTP status. */
  function Handle(e: Exc): (r: Response)
    ensures r.status == r.body.statusCode && !r.body.success
  {
    var env := Classify(e);
    Response(env.statusCode, env)
  }

  /** The handler does not change the status of a well-formed API
      exception that is not also a database or does-not-exist error. */
  lemma ApiStatusKept(e: Exc)
    requires WellFormed(e) && ApiExceptionClass in e.classes
    requires ObjectDoesNotExistClass !in e.classes && DatabaseErrorClass !in e.classes
    ensures Handle(e).status == e.apiStatus
  {
  }

  /** Permission and not-found errors of the framework map to 403 and 404;
      database errors and exceptions outside the framework map to 500 with
      the generic message. */
  lemma KnownStatuses(e: Exc)
    ensures PermissionDenied(e.text).classes == {PermissionDeniedClass, ApiExceptionClass}
            && Handle(PermissionDenied(e.text)).status == 403
    ensures var c := e.classes;
            ValidationErrorClass !in c && AuthenticationFailedClass !in c && NotAuthenticatedClass !in c
            && PermissionDeniedClass !in c && (NotFoundClass in c || ObjectDoesNotExistClass in c)
            ==> Handle(e).status == 404
    ensures (e.classes == {DatabaseErrorClass} || e.classes == {AttributeErrorClass}) ==> Handle(e).status == 500
    ensures e.classes == {AttributeErrorClass} ==> Handle(e).body.message == GenericMessage
  {
  }

  /** As written, an object outside the visible queryset is reported as an
      internal error: Http404 is none of the chain's classes, so it falls
      to the last branch. */
  lemma HiddenObjectReportedAs500()
    ensures Handle(Http404()).status == 500
    ensures Handle(Http404()).body.message == GenericMessage
  {
  }

  // ---------------------------------------------------------------------
  // The evidently intended chain: Http404 is classified as not found.

  function ClassifyIntended(e: Exc): (env: Envelope)
    ensures Http404Class in e.classes && ValidationErrorClass !in e.classes && AuthenticationFailedClass !in e.classes
            && NotAuthenticatedClass !in e.classes && PermissionDeniedClass !in e.classes
            ==> env.statusCode == 404
    ensures Http404Class !in e.classes ==> env == Classify(e)
  {
    var c := e.classes;
    if Http404Class in c && ValidationErrorClass !in c && AuthenticationFailedClass !in c
       && NotAuthenticatedClass !in c && PermissionDeniedClass !in c
    then Envelope(false, 404, NotFoundMessage, e.text)
    else Classify(e)
  }

  function HandleIntended(e: Exc): (r: Response)
    ensures r.status == r.body.statusCode && !r.body.success
  {
    var env := ClassifyIntended(e);
    Response(env.statusCode, env)
  }

  /** With the intended chain a hidden object is a 404, as the handler's
      not-found branch and the not-found view both say. */
  lemma HiddenObjectIntended404()
    ensures HandleIntended(Http404()).status == 404
    ensures HandleIntended(Http404()).body == NotFoundView(Http404Detail).body
  {
  }

  // ---------------------------------------------------------------------
  // The fallback views for unrouted URLs and server errors.

  function NotFoundView(exceptionText: string): (r: Response)
    ensures r.status == 404 && r.body == Envelope(false, 404, NotFoundMessage, exceptionText)
  {
    Response(404, Envelope(false, 404, NotFoundMessage, exceptionText))
  }

  function ServerErrorView(): (r: Response)
    ensures r.status == 500 && !r.body.success && r.body.statusCode == 500 && r.body.message == GenericMessage
  {
    Response(500, Envelope(false, 500, GenericMessage, InternalErrorDetail))
  }
}
