/**
 * validateDate on instants rather than days. ECMAScript reads a date-only
 * string such as "2026-10-19" (what a date input holds) as midnight UTC of
 * that day, while validateDate builds "midnight of tomorrow" in local time.
 * Instants are minutes since the epoch; offset is the local zone's offset
 * from UTC in minutes (local time = UTC + offset); days are counted from the
 * epoch.
 */
module DateZone {
  import opened Numbers
  import opened Validation

  const MinutesPerDay := 1440

  /** The instant at which a local day begins. */
  function LocalMidnight(day: int, offset: int): int {
    day * MinutesPerDay - offset
  }

  /** The instant `new Date("YYYY-MM-DD")` gives for a day: midnight UTC. */
  function UtcMidnight(day: int): int {
    day * MinutesPerDay
  }

  /** validateDate's comparison on instants: the selected instant against
      local midnight of the day after today (setDate(+1), setHours(0,0,0,0)). */
  function ValidateDateAt(value: string, selected: Option<int>, today: int, offset: int): string {
    if value == "" then DateRequired
    else
      match selected
      case Some(t) => if t < LocalMidnight(today + 1, offset) then DateTooSoon else ""
      case None => ""
  }

  /** validateDate as written: the selected day is read as midnight UTC. */
  function ValidateDateAsWritten(value: string, selectedDay: Option<int>, today: int, offset: int): string {
    ValidateDateAt(value, if selectedDay.Some? then Some(UtcMidnight(selectedDay.value)) else None, today, offset)
  }

  /** Read at local midnight, the selected day passes exactly when the day
      rule of ValidateDate passes it, in every time zone: that rule is the
      intended check. */
  lemma LocalReadingIsDayRule(value: string, selectedDay: Option<int>, today: int, offset: int)
    ensures ValidateDateAt(value, if selectedDay.Some? then Some(LocalMidnight(selectedDay.value, offset)) else None, today, offset)
         == ValidateDate(value, selectedDay, today)
    ensures value != "" && selectedDay.Some? ==>
      (ValidateDate(value, selectedDay, today) == "" <==> selectedDay.value >= today + 1)
  {
  }

  /** East of UTC, and at UTC itself, the code as written agrees with the
      day rule. */
  lemma AsWrittenAgreesEastOfUtc(value: string, selectedDay: Option<int>, today: int, offset: int)
    requires 0 <= offset < MinutesPerDay
    ensures ValidateDateAsWritten(value, selectedDay, today, offset) == ValidateDate(value, selectedDay, today)
  {
  }

  /** West of UTC, the code as written refuses tomorrow's date, which the
      day rule accepts: midnight UTC of tomorrow comes before local midnight
      of tomorrow there. */
  lemma AsWrittenRefusesTomorrowWestOfUtc(value: string, today: int, offset: int)
    requires value != "" && -MinutesPerDay < offset < 0
    ensures ValidateDateAsWritten(value, Some(today + 1), today, offset) == DateTooSoon
    ensures ValidateDate(value, Some(today + 1), today) == ""
  {
  }

  /** On 2026-10-18 (day 20744) in New York (UTC-4 in October), the value
      "2026-10-19" is refused as too soon. */
  lemma NewYorkExample()
    ensures ValidateDateAsWritten("2026-10-19", Some(20745), 20744, -240) == DateTooSoon
    ensures ValidateDate("2026-10-19", Some(20745), 20744) == ""
  {
    AsWrittenRefusesTomorrowWestOfUtc("2026-10-19", 20744, -240);
  }
}
