/** `contact_delete`: a bodiless DELETE on the contact's path, and a
    confirmation the handler writes itself instead of returning what the
    remote service sent. */
module ContactDelete {
  import opened Wrappers
  import opened JsonValues
  import opened Text
  import opened Http

  /** A failure the transport raises: a non-success status and the remote
      error body. */
  datatype ApiError = ApiError(status: int, body: Json)

  /** The result object `{success, message}`. */
  datatype DeleteConfirmation = DeleteConfirmation(success: bool, message: string)

  /** The request: DELETE on the path that names the contact, no query, no body. */
  function DeleteRequest(resourceName: string): (r: Request)
    ensures r.verb == DELETE && r.query == [] && r.body.None?
    ensures r.path == "/" + resourceName + ":deleteContact"
    ensures ResourceOf(r.path, "deleteContact") == Some(resourceName)
  {
    ActionPathRoundTrip(resourceName, "deleteContact");
    var prefix := "/" + resourceName;
    assert ":" + "deleteContact" == ":deleteContact";
    assert prefix + ":" + "deleteContact" == prefix + (":" + "deleteContact");
    Request(DELETE, ActionPath(resourceName, "deleteContact"), [], None)
  }

  function DeleteMessage(resourceName: string): string {
    "Contact " + resourceName + " deleted successfully"
  }

  /** The tool's result: a transport failure propagates unchanged; any
      success, whatever its body, becomes the fixed confirmation. */
  function DeleteOutcome(resourceName: string, response: Result<Json, ApiError>): (r: Result<DeleteConfirmation, ApiError>)
    ensures r.Success? <==> response.Success?
    ensures response.Failure? ==> r == Failure(response.error)
    ensures r.Success? ==> r.value.success && r.value.message == "Contact " + resourceName + " deleted successfully"
  {
    match response
    case Failure(e) => Failure(e)
    case Success(_) => Success(DeleteConfirmation(true, DeleteMessage(resourceName)))
  }

  /** The confirmation depends on the resource name alone, never on the
      remote response body. */
  lemma DeleteIgnoresResponse(resourceName: string, a: Json, b: Json)
    ensures DeleteOutcome(resourceName, Success(a)) == DeleteOutcome(resourceName, Success(b))
  {
  }

  /** Different contacts get different confirmation messages. */
  lemma DeleteMessageNamesContact(a: string, b: string)
    requires DeleteMessage(a) == DeleteMessage(b)
    ensures a == b
  {
    MiddleCancels("Contact ", a, b, " deleted successfully");
  }
}
