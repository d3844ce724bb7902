# Tour details page: a verified model of its decision rules

The tour details page of a travel agency's site (`tour-details.js`) is mostly
event wiring. This project models the rules inside that wiring and proves what
they do:

- the two booking-form validators (date and number of guests) with JavaScript
  `parseInt` semantics, the inline error element, the `aria-invalid` marker and
  the submit handler's verdict and focus choice;
- the price breakdown (`updatePrice`): the guest count, the total at 50 dollars
  a guest, the label, the money texts and data attributes, the guarded
  screen-reader announcement, and the booking price read back from `data-total`;
- the mobile navigation toggle and its Escape key;
- the scroll spy: which section is current for a scroll offset, the `active`
  flag of each table-of-contents link, and where a link click scrolls to.

Modules, one per part of the script:

- `Numbers` — `parseInt` without a radix (leading ECMAScript white space, one
  sign, the `0x` prefix, the longest digit run, NaN as `None`) and the text of
  an integer Number (`String(n)`, `n.toFixed(2)`), with their round trips.
- `Dom` — an `Element` class (input value, text, `style.display`, attributes,
  class list) and the attribute and class-list operations.
- `Validation` — `validateDate` and `validateGuests` as functions.
- `BookingForm` — `showError`, `validateField`, the blur handlers and the
  submit handler over a `Form` of elements.
- `PriceCalc` — the price functions and `updatePrice` over a `PriceDisplay`.
- `NavToggle` — the toggle's click and keydown handlers over a `Nav`.
- `ScrollSpy` — section selection, link marking (in place over an array of
  links) and the click target.
- `DateZone` — the date check on instants, for the time-zone finding below.

The clock, `new Date(value)`, the scroll offset and the key pressed are
parameters. Dates are local day numbers counted from the epoch. Elements found
by different ids or selectors are distinct objects. Each component class
requires this in its `Valid()` predicate.

Only an empty guests value (or a missing field) counts as one guest. Any other
text that `parseInt` cannot read gives NaN, so the breakdown shows
`NaN guests` and `$NaN` rather than falling back to one guest. A value of `"0"`
gives a total of 0 (`PriceCalc.GuestsCases`).

## Model

| member | source | states |
|---|---|---|
| Numbers.TrimStart | tour-details.js:49 | parseInt drops exactly the leading run of ECMAScript white space and line terminators; what remains starts with something else |
| Numbers.DigitValue | tour-details.js:49 | a character's digit value is below 10 exactly for '0'..'9'; 'a'..'z' and 'A'..'Z' give 10..35 for the hexadecimal form, and every other character gives 36 |
| Numbers.DigitRun | tour-details.js:49 | parseInt reads the longest prefix of digits: all of it is digits and the next character is not one |
| Numbers.Decimal | tour-details.js:169 | the decimal text of a count is non-empty, all digits, and has that count as its value |
| Numbers.ParseIntSkipsSpace | tour-details.js:49 | leading white space never changes what parseInt returns |
| Numbers.ParseIntOfDigits | tour-details.js:49 | parseInt reads a run of decimal digits as its value when what follows cannot extend the number |
| Numbers.ParseIntOfMinusDigits | tour-details.js:49 | after a minus sign parseInt reads such a run as its negated value |
| Numbers.ParseIntOfNonNumeric | tour-details.js:49 | text whose first character is not white space, a sign or a decimal digit parses to NaN |
| Numbers.ParseIntOfNumberText | tour-details.js:164 | parseInt reads back the text of any integer when a non-digit that is not 'x' follows it |
| Numbers.ParseIntOfNaNText | tour-details.js:288 | the text "NaN" parses to NaN |
| Numbers.Fixed2RoundTrip | tour-details.js:180 | parseInt of toFixed(2)'s text gives back the same Number, NaN included |
| Numbers.NumTextRoundTrip | tour-details.js:170 | parseInt of String(x) gives back x, NaN included |
| Validation.ValidateDate | tour-details.js:34-46 | "Please select a tour date" iff the value is empty; the 24-hours message iff the date is before midnight of tomorrow; "" otherwise, an Invalid Date included |
| Validation.ValidateGuests | tour-details.js:48-57 | "" iff parseInt gives an integer in 1..10; "Maximum 10 guests per tour" iff it gives more than 10; "Please select number of guests" iff NaN or below 1, so the empty-value test adds nothing |
| Validation.ValidateGuestsOfCount | tour-details.js:48-57 | a count written as a number is accepted iff it is in 1..10, too many iff above 10, missing iff below 1 |
| Validation.ValidateGuestsSkipsSpace | tour-details.js:48-57 | leading white space never changes the guests verdict |
| Dom.SetAttr | tour-details.js:83 | setAttribute sets the one attribute and keeps every other |
| Dom.RemoveAttr | tour-details.js:85 | removeAttribute removes the one attribute and keeps every other |
| Dom.ToggleClass | tour-details.js:237 | classList.toggle flips membership of the one class and keeps every other |
| Dom.ToggleClassTwice | tour-details.js:237-240 | toggling a class twice restores the class list |
| BookingForm.DisplayFor | tour-details.js:70 | an error element is displayed ("block") iff there is a message, hidden ("none") otherwise |
| BookingForm.MarkValidity | tour-details.js:82-86 | after validation aria-invalid is "true" iff there is a message and absent otherwise; other attributes kept |
| BookingForm.FirstMarked | tour-details.js:114-116 | focus goes to the date field iff it is marked, to the guests field iff only it is marked, nowhere otherwise |
| BookingForm.ShowError | tour-details.js:66-71 | a missing element is left alone; otherwise its text is the message and it is shown iff the message is non-empty |
| BookingForm.ValidateField | tour-details.js:76-89 | a missing input is valid and nothing changes; otherwise valid iff the message is empty, the error element shows the message, the input's aria-invalid follows MarkValidity, and nothing else changes |
| BookingForm.Form.constructor | tour-details.js:20-29 | the form's elements, found by distinct ids, are distinct |
| BookingForm.Form.BlurDate | tour-details.js:95 | blur on the date field validates it with the date rule, shows or hides its error element, marks aria-invalid, and changes nothing else |
| BookingForm.Form.BlurGuests | tour-details.js:96 | blur on the guests field validates it with the guests rule, shows or hides its error element, marks aria-invalid, and changes nothing else |
| BookingForm.Form.Submit | tour-details.js:100-123 | both fields are validated, each error element showing its message iff there is one; the form is valid iff both are; the status reads the fix-errors or submitting text; a refused form focuses the date field if it is invalid, the guests field otherwise; nothing else changes |
| PriceCalc.Total | tour-details.js:165 | the total is 50 times the guest count, and NaN exactly when the count is NaN |
| PriceCalc.GuestsCases | tour-details.js:164-165 | an empty value gives 50; a value parseInt can read gives 50 times that number; any other value gives NaN, "$NaN", "NaN guests" and no announcement |
| PriceCalc.TotalOfCount | tour-details.js:164-165 | a count written as a number is read as that count and priced at 50 per guest |
| PriceCalc.GuestLabelReadsBack | tour-details.js:169 | parseInt of the label gives back the guest count, NaN included |
| PriceCalc.GuestLabelPlural | tour-details.js:169 | the label ends in 's' iff the count is not 1, and is "1 guest" for one |
| PriceCalc.BookingPriceReadsTotal | tour-details.js:288 | the booking click's parseInt of the data-total text that updatePrice writes (line 180) gives that total back |
| PriceCalc.PriceDisplay.constructor | tour-details.js:156-158 | the breakdown elements are distinct |
| PriceCalc.PriceDisplay.UpdatePrice | tour-details.js:163-187 | label, subtotal and total texts and data attributes as the price functions give them; the status text is written iff the count is above 1 and otherwise unchanged; nothing else changes |
| NavToggle.FlipExpanded | tour-details.js:231-234 | aria-expanded becomes "true" or "false", the opposite of whether it was "true"; other attributes kept |
| NavToggle.FlipExpandedTwice | tour-details.js:230-246 | two clicks restore the expanded flag, and the attributes themselves when aria-expanded held "true" or "false" |
| NavToggle.Nav.constructor | tour-details.js:225-228 | the handlers exist only with a toggle control, distinct from the menu |
| NavToggle.Nav.Click | tour-details.js:230-246 | a click flips aria-expanded, toggles is-active on the control and is-open on the menu, moves focus into the menu iff it opens and there is a menu, changes nothing else, and keeps the three marks in agreement |
| NavToggle.Nav.KeyDown | tour-details.js:249-254 | Escape acts as a click iff the menu is expanded; any other key or a collapsed menu changes nothing; after Escape the menu is collapsed; the other fields of the control and the menu are kept |
| ScrollSpy.ActiveIdNone | tour-details.js:401-413 | when no band [top-150, top-150+height) holds the offset, the current id is "" |
| ScrollSpy.ActiveIdLastCovering | tour-details.js:405-413 | the current id is that of the last section in document order whose band holds the offset |
| ScrollSpy.CoversAtFloor | tour-details.js:403-410 | a fractional scroll offset selects the same sections as its floor |
| ScrollSpy.SelectActive | tour-details.js:402-413 | the first loop leaves current equal to the last covering section's id, "" if none |
| ScrollSpy.Marked | tour-details.js:416-419 | each link keeps its href and is active iff its href is '#' + current |
| ScrollSpy.MarkedExactlyOne | tour-details.js:416-420 | with distinct hrefs, the link to the current section is the only active one |
| ScrollSpy.MarkLinks | tour-details.js:416-430 | the second loop sets every link's flag as Marked says, in place |
| ScrollSpy.UpdateActiveLink | tour-details.js:401-431 | updateActiveLink selects the current id and marks the links from it |
| ScrollSpy.FindById | tour-details.js:447 | getElementById finds the first element with the id, none for the empty id or an absent one |
| ScrollSpy.FindByIdFirst | tour-details.js:447 | the element found is the first one carrying the id |
| ScrollSpy.ClickSelectsTarget | tour-details.js:446-450 | a link click scrolls to the target's top minus 120, where the scroll spy makes that section current when it is over 30 pixels high and no later band holds that offset |
| DateZone.LocalReadingIsDayRule | tour-details.js:37-45 | with the date read at local midnight, the instant comparison is the day rule of ValidateDate in every time zone |
| DateZone.AsWrittenAgreesEastOfUtc | tour-details.js:37-42 | at or east of UTC the date check as written agrees with the day rule |
| DateZone.AsWrittenRefusesTomorrowWestOfUtc | tour-details.js:37-43 | west of UTC the date check as written refuses tomorrow's date, which the day rule accepts |
| DateZone.NewYorkExample | tour-details.js:37-43 | on 2026-10-18 at UTC-4 the value "2026-10-19" is refused as too soon by the code as written |

## Findings

| source | as written | input that shows it | evidently intended | confidence | as-written member | corrected member |
|---|---|---|---|---|---|---|
| tour-details.js:37-42 | `new Date(value)` reads the date input's date-only value as midnight UTC. It is then compared with midnight of tomorrow in local time. | On 2026-10-18 in New York (UTC-4), the value "2026-10-19" gets "Tour must be booked at least 24 hours in advance". | Tomorrow's date is accepted in every time zone. | medium, not executed | DateZone.AsWrittenRefusesTomorrowWestOfUtc | Validation.ValidateDate |

The rest of the model uses `Validation.ValidateDate`, which compares local day
numbers. `DateZone.LocalReadingIsDayRule` proves it is the same check as the
code's comparison once the date is read at local midnight.

## Left out

- DOM lookup and listener registration (`getElementById`, `querySelector`, `addEventListener`, the `DOMContentLoaded` start-up): elements are objects passed to the component classes.
- `gtagEvent` and every analytics binding, including the `booking_form_submit` event of a valid submission: they only call an external global or `console.log`. The price the `request_booking` binding reads is modelled (`PriceCalc.BookingPrice`).
- The delayed completion of a valid submission (thank-you status, form reset, price reset), `debounce` and the per-frame coalescing of scroll handling: timer and event-loop scheduling.
- `scrollIntoView` on narrow viewports, `window.scrollTo`, the reduced-motion query and `history.pushState`: browser side effects. The click's target offset is modelled (`ScrollSpy.ClickTarget`).
- `.focus()` calls: the handlers return which element would receive focus.
- A menu with no link: the click handler reports a focus move into any menu that opens, while `querySelector('a')` on a menu without a link focuses nothing.
- Date parsing and the clock: `new Date(value)` becomes the selected local day (`None` for an Invalid Date), and "today" is a parameter. Daylight-saving changes between today and tomorrow are not modelled.
- The gallery loader and the FAQ accordion: a one-shot class swap and an analytics call.
- The early returns that skip wiring (no toggle control, no sections or links): nothing is attached, so there is nothing to model.
- Numbers.NumberText: integers are exact. JavaScript Numbers are doubles, which lose precision above 2^53. `String` and `toFixed` use exponent notation from 10^21 on. `parseInt` of a very long digit string is Infinity.
- Numbers.Fixed2RoundTrip: holds for totals below 10^21 in magnitude only, for the reason above.
- PriceCalc.BookingPriceReadsTotal: same restriction to totals below 10^21 in magnitude.
- Numbers.ParseInt: JavaScript's `-0` is modelled as 0. `String(-0)` is "0", `(-0).toFixed(2)` is "0.00", and `-0 < 1` holds, so no output differs.
- Numbers.IsJsSpace: characters are Unicode scalar values rather than UTF-16 code units. Every ECMAScript white space character lies in the Basic Multilingual Plane, so parsing is unaffected.
- A table-of-contents link without an `href` attribute is not modelled (its click handler would throw on `substring`).
- ScrollSpy.FindById: the lookup runs over a sequence of elements with ids and tops, not the whole document tree.
- ScrollSpy.SelectActive: the scroll offset is a whole number of pixels. `ScrollSpy.CoversAtFloor` shows that a fractional offset selects the same sections as its floor.
