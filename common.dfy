/**
 * Shared result types of the contract manager model.
 *
 * The PHP services signal failures with exceptions (NotFoundException,
 * ForbiddenException, ValidationException); the model returns them as values.
 */
module Common {

  datatype Option<+T> = None | Some(value: T)
  {
    function GetOr(default: T): T
    {
      match this
      case Some(v) => v
      case None => default
    }
  }

  /** The exceptions a service call can end with. */
  datatype Failure =
    | NotFound
    | Forbidden
      /** field name -> message, as carried by ValidationException */
    | Invalid(errors: map<string, string>)

  datatype Result<+T> = Ok(value: T) | Err(failure: Failure)

  /** A non-empty set has an element to pick. */
  lemma NonEmptyHasMember(s: set<int>)
    requires s != {}
    ensures exists x :: x in s
  {
    if forall x :: x !in s {
      assert false;
    }
  }
}
