/**
 * The two booking-form validators. Each maps a field's text to an error
 * message, the empty message meaning the field is valid.
 */
module Validation {
  import opened Numbers

  const DateRequired := "Please select a tour date"
  const DateTooSoon := "Tour must be booked at least 24 hours in advance"
  const GuestsRequired := "Please select number of guests"
  const GuestsTooMany := "Maximum 10 guests per tour"

  /** validateDate(value). Dates are local day numbers: selected is the day
      `new Date(value)` stands for (None for an Invalid Date) and today is
      the day of the clock, so midnight of tomorrow begins day today + 1.
      An Invalid Date compares false with everything and so passes. */
  function ValidateDate(value: string, selected: Option<int>, today: int): (r: string)
    ensures r == DateRequired <==> value == ""
    ensures r == DateTooSoon <==> value != "" && selected.Some? && selected.value < today + 1
    ensures r == "" <==> value != "" && (selected.None? || selected.value >= today + 1)
  {
    if value == "" then DateRequired
    else
      match selected
      case Some(day) => if day < today + 1 then DateTooSoon else ""
      case None => ""
  }

  /** validateGuests(value). The explicit test for an empty value is kept as
      written; the contract shows that parseInt alone decides the message. */
  function ValidateGuests(value: string): (r: string)
    ensures r == "" <==> ParseInt(value).Some? && 1 <= ParseInt(value).value <= 10
    ensures r == GuestsTooMany <==> ParseInt(value).Some? && ParseInt(value).value > 10
    ensures r == GuestsRequired <==> ParseInt(value).None? || ParseInt(value).value < 1
  {
    var num := ParseInt(value);
    if value == "" then
      assert TrimStart(value) == [] && DigitRun(value, 10) == [];
      GuestsRequired
    else if num.None? || num.value < 1 then GuestsRequired
    else if num.value > 10 then GuestsTooMany
    else ""
  }

  /** The guest count written as a number is accepted exactly when it lies
      in 1..10, refused as too many above 10 and as missing below 1. */
  lemma ValidateGuestsOfCount(n: int)
    ensures ValidateGuests(NumberText(n)) == "" <==> 1 <= n <= 10
    ensures ValidateGuests(NumberText(n)) == GuestsTooMany <==> n > 10
    ensures ValidateGuests(NumberText(n)) == GuestsRequired <==> n < 1
  {
    NumTextRoundTrip(Some(n));
  }

  /** Leading white space never changes the guests verdict. */
  lemma ValidateGuestsSkipsSpace(ws: string, value: string)
    requires forall i :: 0 <= i < |ws| ==> IsJsSpace(ws[i])
    ensures ValidateGuests(ws + value) == ValidateGuests(value)
  {
    ParseIntSkipsSpace(ws, value);
  }
}
