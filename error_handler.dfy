/**
 * The front end's error classification and user message
 * (src/utils/errorHandler.js). An error either has no HTTP response (a
 * network failure) or a response with an optional status and an optional
 * body; the body may carry a map of validation errors, given here as its
 * values in insertion order, and an error string. Translation through t()
 * is the identity here; the toast and the console log are not part of this
 * model.
 */
module ErrorHandler {
  import opened Common

  datatype ErrorType = NetworkError | ValidationError | AuthError | NotFoundError | ForbiddenError | UnknownError

  datatype Body = Body(errors: Option<seq<string>>, error: Option<string>)
  datatype Response = Response(status: Option<int>, data: Option<Body>)
  datatype HttpError = HttpError(response: Option<Response>)

  /** categorizeError: no response is a network error, then 400/401/403/404, anything else unknown. */
  function CategorizeError(e: HttpError): (t: ErrorType)
    ensures t == NetworkError <==> e.response.None?
    ensures e.response.Some? ==>
      var s := e.response.value.status;
      && (t == ValidationError <==> s == Some(400))
      && (t == AuthError <==> s == Some(401))
      && (t == ForbiddenError <==> s == Some(403))
      && (t == NotFoundError <==> s == Some(404))
  {
    if e.response.None? then NetworkError
    else match e.response.value.status
      case Some(400) => ValidationError
      case Some(401) => AuthError
      case Some(403) => ForbiddenError
      case Some(404) => NotFoundError
      case _ => UnknownError
  }

  /** Array.prototype.join(', '). */
  function Join(values: seq<string>): (r: string)
  {
    if values == [] then ""
    else if |values| == 1 then values[0]
    else Join(values[..|values| - 1]) + ", " + values[|values| - 1]
  }

  /** Joining n values adds two characters per separator. */
  lemma {:induction false} JoinLength(values: seq<string>)
    ensures |Join(values)| == Sum(values) + (if values == [] then 0 else 2 * (|values| - 1))
    decreases |values|
  {
    if |values| > 1 {
      var init := values[..|values| - 1];
      JoinLength(init);
      SumSnoc(init, values[|values| - 1]);
      assert init + [values[|values| - 1]] == values;
    } else if |values| == 1 {
      SumSnoc([], values[0]);
      assert [] + [values[0]] == values;
    }
  }

  /** The total length of the values. */
  function Sum(values: seq<string>): nat
  {
    if values == [] then 0 else |values[0]| + Sum(values[1..])
  }

  lemma {:induction false} SumSnoc(values: seq<string>, last: string)
    ensures Sum(values + [last]) == Sum(values) + |last|
    decreases |values|
  {
    if values == [] {
      assert [] + [last] == [last];
      assert [last][1..] == [];
    } else {
      assert (values + [last])[1..] == values[1..] + [last];
      SumSnoc(values[1..], last);
    }
  }

  /** Joining two non-empty lists is joining each and putting one separator between them. */
  lemma {:induction false} JoinConcat(a: seq<string>, b: seq<string>)
    requires a != [] && b != []
    ensures Join(a + b) == Join(a) + ", " + Join(b)
    decreases |b|
  {
    var init := b[..|b| - 1];
    assert (a + b)[..|a + b| - 1] == a + init;
    if init != [] {
      JoinConcat(a, init);
    }
  }

  const NetworkMessage := "Netzwerkfehler. Bitte prüfen Sie Ihre Verbindung."
  const AuthMessage := "Sie sind nicht angemeldet. Bitte laden Sie die Seite neu."
  const ForbiddenMessage := "Sie haben keine Berechtigung für diese Aktion."
  const NotFoundMessage := "Der angeforderte Eintrag wurde nicht gefunden."
  const ValidationMessage := "Ungültige Eingabe. Bitte überprüfen Sie Ihre Daten."
  const ContextPrefix := "Fehler bei: "
  const UnknownMessage := "Ein unbekannter Fehler ist aufgetreten."

  /** The message chosen by type when the server sent no text of its own. */
  function TypeMessage(t: ErrorType, context: string): (m: string)
    ensures t == UnknownError && context != "" ==> m == ContextPrefix + context
    ensures t != UnknownError ==> m != UnknownMessage
  {
    match t
    case NetworkError => NetworkMessage
    case AuthError => AuthMessage
    case ForbiddenError => ForbiddenMessage
    case NotFoundError => NotFoundMessage
    case ValidationError => ValidationMessage
    case UnknownError => if context != "" then ContextPrefix + context else UnknownMessage
  }

  /** Each known type has its own message, so the message tells the type apart. */
  lemma TypeMessagesDistinct(a: ErrorType, b: ErrorType, context: string)
    requires a != UnknownError && b != UnknownError && a != b
    ensures TypeMessage(a, context) != TypeMessage(b, context)
  {
    assert |NetworkMessage| == 49 && |AuthMessage| == 57 && |ValidationMessage| == 51;
    assert |ForbiddenMessage| == |NotFoundMessage| == 46;
    assert ForbiddenMessage[43] != NotFoundMessage[43];
  }

  /**
   * getErrorMessage: the server's validation errors joined by ", " win, then
   * the server's error string when it is not empty, then the message for the
   * error's type.
   */
  function GetErrorMessage(e: HttpError, context: string): (m: string)
    ensures var body := if e.response.Some? then e.response.value.data else None;
      && (body.Some? && body.value.errors.Some? ==> m == Join(body.value.errors.value))
      && (body.Some? && body.value.errors.None? && body.value.error.Some? && body.value.error.value != "" ==>
            m == body.value.error.value)
      && (body.None? || (body.value.errors.None? && (body.value.error.None? || body.value.error.value == "")) ==>
            m == TypeMessage(CategorizeError(e), context))
  {
    var t := CategorizeError(e);
    if e.response.Some? && e.response.value.data.Some? && e.response.value.data.value.errors.Some? then
      Join(e.response.value.data.value.errors.value)
    else if e.response.Some? && e.response.value.data.Some? && e.response.value.data.value.error.Some?
            && e.response.value.data.value.error.value != "" then
      e.response.value.data.value.error.value
    else TypeMessage(t, context)
  }

  /** A network failure always reads as the network message, whatever the context. */
  lemma NetworkMessageAlways(context: string)
    ensures GetErrorMessage(HttpError(None), context) == NetworkMessage
  {
  }
}
