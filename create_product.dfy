/** The product creation page: a name field and the error it shows. */
module CreateProduct {
  import opened Types

  const FallbackError := "An error occurred"

  /** The text shown for a rejected add: the Error's message, or a fixed fallback. */
  function ErrorText(reason: Thrown): (text: string)
    ensures reason.ErrorObject? ==> text == reason.message
    ensures reason.OtherValue? ==> text == FallbackError
  {
    match reason
    case ErrorObject(message) => message
    case OtherValue => FallbackError
  }

  /** The page's local form state. */
  class Form {
    var name: string
    var error: Option<string>

    /** Initial state: an empty name and no error; Save starts disabled. */
    constructor ()
      ensures name == "" && error == None
      ensures Disabled()
    {
      name := "";
      error := None;
    }

    /** The Save button's `disabled={!name}`. */
    predicate Disabled(): (d: bool)
      reads this
      ensures d <==> name == ""
    {
      !Truthy(Some(name))
    }

    /** Editing the name stores it and clears the error. */
    method OnNameChange(value: string)
      modifies this
      ensures name == value && error == None
      ensures Disabled() <==> value == ""
    {
      name := value;
      error := None;
    }

    /**
     * The submit handler; `outcome` is how the add callback settled.
     * Returns the product handed to the callback.
     */
    method Submit(outcome: Outcome) returns (sent: Product)
      modifies this
      ensures sent == Product(old(name))
      ensures outcome.Resolved? ==> name == "" && error == None
      ensures outcome.Rejected? ==> name == old(name) && error == Some(ErrorText(outcome.reason))
    {
      sent := Product(name);
      match outcome
      case Resolved =>
        name := "";
        error := None;
      case Rejected(reason) =>
        if reason.ErrorObject? {
          error := Some(reason.message);
        } else {
          error := Some(FallbackError);
        }
    }
  }
}
