/**
 * Inline validation of the booking form: an error element per field, the
 * aria-invalid marker on the field, and the submit handler that runs both
 * validators, announces the outcome and picks the field to focus.
 */
module BookingForm {
  import opened Numbers
  import opened Dom
  import opened Validation

  const AriaInvalid := "aria-invalid"
  const FixErrors := "Please fix the errors above before submitting"
  const Submitting := "Submitting your booking request..."

  /** The field that receives focus after a refused submission. */
  datatype Focus = NoFocus | FocusDate | FocusGuests

  /** The inline display an error element gets: "block" when there is a
      message, "none" when there is not. */
  function DisplayFor(message: string): (d: string)
    ensures d == "block" || d == "none"
    ensures d == "block" <==> message != ""
  {
    if message != "" then "block" else "none"
  }

  /** A field's attributes after validation with the given message:
      aria-invalid is "true" exactly when there is a message and absent
      otherwise; every other attribute is kept. */
  function MarkValidity(attrs: map<string, string>, message: string): (r: map<string, string>)
    ensures HasAttr(r, AriaInvalid, "true") <==> message != ""
    ensures message == "" ==> AriaInvalid !in r
    ensures forall a :: a != AriaInvalid ==> (a in r <==> a in attrs) && (a in r ==> r[a] == attrs[a])
  {
    if message != "" then SetAttr(attrs, AriaInvalid, "true") else RemoveAttr(attrs, AriaInvalid)
  }

  /** [dateInput, guestsInput].find(input => input?.getAttribute('aria-invalid') === 'true'):
      the first of the two fields that is marked invalid. */
  function FirstMarked(dateMarked: bool, guestsMarked: bool): (f: Focus)
    ensures f == FocusDate <==> dateMarked
    ensures f == FocusGuests <==> !dateMarked && guestsMarked
    ensures f == NoFocus <==> !dateMarked && !guestsMarked
  {
    if dateMarked then FocusDate else if guestsMarked then FocusGuests else NoFocus
  }

  /** showError: a missing element is left alone; otherwise its text becomes
      the message and it is shown exactly when the message is not empty. */
  method ShowError(errorElement: Element?, message: string)
    modifies errorElement
    ensures errorElement != null ==> errorElement.text == message && errorElement.display == DisplayFor(message)
    ensures errorElement != null ==>
      errorElement.value == old(errorElement.value) && errorElement.attrs == old(errorElement.attrs)
      && errorElement.classes == old(errorElement.classes)
  {
    if errorElement == null {
      return;
    }
    errorElement.text := message;
    errorElement.display := if message != "" then "block" else "none";
  }

  /** validateField: a missing input counts as valid and nothing changes.
      Otherwise the validator's message is shown in the error element, the
      input is marked, and the field is valid exactly when the message is
      empty. */
  method ValidateField(input: Element?, validator: string -> string, errorElement: Element?)
    returns (valid: bool)
    modifies input, errorElement
    ensures input == null ==> valid && (errorElement != null ==> unchanged(errorElement))
    ensures input != null ==> valid == (validator(old(input.value)) == "")
    ensures input != null ==> input.attrs == MarkValidity(old(input.attrs), validator(old(input.value)))
    ensures input != null ==> input.value == old(input.value) && input.classes == old(input.classes)
    ensures input != null && input != errorElement ==> input.text == old(input.text) && input.display == old(input.display)
    ensures input != null && errorElement != null ==>
      errorElement.text == validator(old(input.value)) && errorElement.display == DisplayFor(validator(old(input.value)))
    ensures input != null && errorElement != null && errorElement != input ==>
      errorElement.value == old(errorElement.value) && errorElement.attrs == old(errorElement.attrs)
      && errorElement.classes == old(errorElement.classes)
  {
    if input == null {
      return true;
    }
    var errorMsg := validator(input.value);
    ShowError(errorElement, errorMsg);
    if errorMsg != "" {
      input.attrs := SetAttr(input.attrs, AriaInvalid, "true");
    } else {
      input.attrs := RemoveAttr(input.attrs, AriaInvalid);
    }
    valid := errorMsg == "";
  }

  /** No two of the given elements are the same (absent ones aside). */
  ghost predicate Distinct(elements: seq<Element?>) {
    forall i, j :: 0 <= i < j < |elements| && elements[i] != null ==> elements[i] != elements[j]
  }

  /** The form's elements, each looked up by its own id, so that no two are
      the same element. The date validator needs the date parser (for
      `new Date(value)`, reduced to a local day number) and today's day. */
  class Form {
    const dateInput: Element?
    const guestsInput: Element?
    const dateError: Element?
    const guestsError: Element?
    const status: Element?

    ghost predicate Valid() {
      Distinct([dateInput, guestsInput, dateError, guestsError, status])
    }

    constructor (dateInput: Element?, guestsInput: Element?, dateError: Element?,
                 guestsError: Element?, status: Element?)
      requires Distinct([dateInput, guestsInput, dateError, guestsError, status])
      ensures Valid()
      ensures this.dateInput == dateInput && this.guestsInput == guestsInput
      ensures this.dateError == dateError && this.guestsError == guestsError && this.status == status
    {
      this.dateInput := dateInput;
      this.guestsInput := guestsInput;
      this.dateError := dateError;
      this.guestsError := guestsError;
      this.status := status;
    }

    /** The pairs of distinct elements the handlers rely on. */
    lemma DistinctPairs()
      requires Valid()
      ensures dateInput != null ==> dateInput != guestsInput && dateInput != dateError && dateInput != guestsError && dateInput != status
      ensures guestsInput != null ==> guestsInput != dateError && guestsInput != guestsError && guestsInput != status
      ensures dateError != null ==> dateError != guestsError && dateError != status
      ensures guestsError != null ==> guestsError != status
    {
      var elements := [dateInput, guestsInput, dateError, guestsError, status];
      assert elements[0] == dateInput && elements[1] == guestsInput && elements[2] == dateError;
      assert elements[3] == guestsError && elements[4] == status;
    }

    /** The date field's message for its text. */
    static function DateMessage(value: string, parseDate: string -> Option<int>, today: int): string {
      ValidateDate(value, parseDate(value), today)
    }

    /** The blur handler of the date field. */
    method BlurDate(parseDate: string -> Option<int>, today: int) returns (valid: bool)
      requires Valid()
      modifies dateInput, dateError
      ensures dateInput == null ==> valid && (dateError != null ==> unchanged(dateError))
      ensures dateInput != null ==> valid == (DateMessage(old(dateInput.value), parseDate, today) == "")
      ensures dateInput != null ==>
        dateInput.attrs == MarkValidity(old(dateInput.attrs), DateMessage(old(dateInput.value), parseDate, today))
      ensures dateInput != null && dateError != null ==>
        dateError.text == DateMessage(old(dateInput.value), parseDate, today)
        && dateError.display == DisplayFor(dateError.text)
      ensures dateInput != null ==>
        dateInput.value == old(dateInput.value) && dateInput.classes == old(dateInput.classes)
        && dateInput.text == old(dateInput.text) && dateInput.display == old(dateInput.display)
      ensures dateInput != null && dateError != null ==>
        dateError.value == old(dateError.value) && dateError.attrs == old(dateError.attrs)
        && dateError.classes == old(dateError.classes)
    {
      DistinctPairs();
      valid := ValidateField(dateInput, v => DateMessage(v, parseDate, today), dateError);
    }

    /** The blur handler of the guests field. */
    method BlurGuests() returns (valid: bool)
      requires Valid()
      modifies guestsInput, guestsError
      ensures guestsInput == null ==> valid && (guestsError != null ==> unchanged(guestsError))
      ensures guestsInput != null ==> valid == (ValidateGuests(old(guestsInput.value)) == "")
      ensures guestsInput != null ==>
        guestsInput.attrs == MarkValidity(old(guestsInput.attrs), ValidateGuests(old(guestsInput.value)))
      ensures guestsInput != null && guestsError != null ==>
        guestsError.text == ValidateGuests(old(guestsInput.value))
        && guestsError.display == DisplayFor(guestsError.text)
      ensures guestsInput != null ==>
        guestsInput.value == old(guestsInput.value) && guestsInput.classes == old(guestsInput.classes)
        && guestsInput.text == old(guestsInput.text) && guestsInput.display == old(guestsInput.display)
      ensures guestsInput != null && guestsError != null ==>
        guestsError.value == old(guestsError.value) && guestsError.attrs == old(guestsError.attrs)
        && guestsError.classes == old(guestsError.classes)
    {
      DistinctPairs();
      valid := ValidateField(guestsInput, ValidateGuests, guestsError);
    }

    /** The submit handler up to the analytics call: both fields are
        validated (no short circuit), the form is valid exactly when both
        are, the status region says which, and a refused form focuses the
        first field, in the order date then guests, that is marked invalid. */
    method Submit(parseDate: string -> Option<int>, today: int) returns (valid: bool, focus: Focus)
      requires Valid()
      modifies dateInput, guestsInput, dateError, guestsError, status
      ensures var dateMsg := if dateInput == null then "" else DateMessage(old(dateInput.value), parseDate, today);
              var guestsMsg := if guestsInput == null then "" else ValidateGuests(old(guestsInput.value));
              && valid == (dateMsg == "" && guestsMsg == "")
              && (dateInput != null ==> dateInput.attrs == MarkValidity(old(dateInput.attrs), dateMsg))
              && (guestsInput != null ==> guestsInput.attrs == MarkValidity(old(guestsInput.attrs), guestsMsg))
              && (dateInput != null && dateError != null ==>
                    dateError.text == dateMsg && dateError.display == DisplayFor(dateMsg))
              && (guestsInput != null && guestsError != null ==>
                    guestsError.text == guestsMsg && guestsError.display == DisplayFor(guestsMsg))
              && focus == (if valid then NoFocus else if dateMsg != "" then FocusDate else FocusGuests)
      ensures status != null ==> status.text == (if valid then Submitting else FixErrors)
      ensures dateInput != null ==>
        dateInput.value == old(dateInput.value) && dateInput.classes == old(dateInput.classes)
        && dateInput.text == old(dateInput.text) && dateInput.display == old(dateInput.display)
      ensures guestsInput != null ==>
        guestsInput.value == old(guestsInput.value) && guestsInput.classes == old(guestsInput.classes)
        && guestsInput.text == old(guestsInput.text) && guestsInput.display == old(guestsInput.display)
      ensures dateInput == null && dateError != null ==> unchanged(dateError)
      ensures dateInput != null && dateError != null ==>
        dateError.value == old(dateError.value) && dateError.attrs == old(dateError.attrs)
        && dateError.classes == old(dateError.classes)
      ensures guestsInput == null && guestsError != null ==> unchanged(guestsError)
      ensures guestsInput != null && guestsError != null ==>
        guestsError.value == old(guestsError.value) && guestsError.attrs == old(guestsError.attrs)
        && guestsError.classes == old(guestsError.classes)
      ensures status != null ==>
        status.value == old(status.value) && status.display == old(status.display)
        && status.attrs == old(status.attrs) && status.classes == old(status.classes)
    {
      DistinctPairs();
      var isDateValid := ValidateField(dateInput, v => DateMessage(v, parseDate, today), dateError);
      var isGuestsValid := ValidateField(guestsInput, ValidateGuests, guestsError);
      valid := isDateValid && isGuestsValid;
      if !valid {
        if status != null {
          status.text := FixErrors;
        }
        focus := FirstMarked(dateInput != null && HasAttr(dateInput.attrs, AriaInvalid, "true"),
                             guestsInput != null && HasAttr(guestsInput.attrs, AriaInvalid, "true"));
        return;
      }
      focus := NoFocus;
      if status != null {
        status.text := Submitting;
      }
    }
  }
}
