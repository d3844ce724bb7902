/**
 * The price breakdown: the guest count read from the guests field, the
 * total at a fixed price per guest, the texts and data attributes written
 * into the breakdown, the screen-reader announcement, and the booking
 * price read back from the data-total attribute.
 */
module PriceCalc {
  import opened Numbers
  import opened Dom

  /** US dollars per guest. */
  const BasePrice := 50

  const DataGuests := "data-guests"
  const DataSubtotal := "data-subtotal"
  const DataTotal := "data-total"

  /** parseInt(guestsInput?.value || 1): an absent field and an empty value
      both give one guest; any other text is parsed, and text that parseInt
      cannot read gives NaN, not one. */
  function Guests(value: string): Option<int> {
    if value == "" then Some(1) else ParseInt(value)
  }

  /** BASE_PRICE * guests, NaN staying NaN. */
  function Total(guests: Option<int>): (t: Option<int>)
    ensures t.Some? <==> guests.Some?
    ensures t.Some? ==> t.value == BasePrice * guests.value
  {
    match guests
    case Some(n) => Some(BasePrice * n)
    case None => None
  }

  /** `${guests} guest${guests !== 1 ? 's' : ''}` */
  function GuestLabel(guests: Option<int>): string {
    NumText(guests) + (if guests != Some(1) then " guests" else " guest")
  }

  /** `$${total.toFixed(2)}` */
  function Money(total: Option<int>): string {
    "$" + Fixed2(total)
  }

  /** The status region is written only for more than one guest; NaN is not
      more than one. */
  predicate Announces(guests: Option<int>) {
    guests.Some? && guests.value > 1
  }

  /** `Total price updated: $${total} for ${guests} guests` */
  function StatusText(guests: Option<int>, total: Option<int>): string {
    "Total price updated: $" + NumText(total) + " for " + NumText(guests) + " guests"
  }

  /** parseInt(breakdownTotal?.getAttribute('data-total') || BASE_PRICE): a
      missing or empty attribute gives the base price. */
  function BookingPrice(dataTotal: Option<string>): Option<int> {
    match dataTotal
    case Some(s) => if s == "" then Some(BasePrice) else ParseInt(s)
    case None => Some(BasePrice)
  }

  /** The guest count: one for an empty value, the parsed number for any
      text that starts with one, NaN for any other text. */
  lemma GuestsCases(value: string)
    ensures value == "" ==> Total(Guests(value)) == Some(BasePrice)
    ensures value != "" && ParseInt(value).Some? ==> Total(Guests(value)) == Some(BasePrice * ParseInt(value).value)
    ensures value != "" && ParseInt(value).None? ==>
      Total(Guests(value)) == None && Money(Total(Guests(value))) == "$NaN"
      && GuestLabel(Guests(value)) == "NaN guests" && !Announces(Guests(value))
  {
  }

  /** A count written as a number is read back as that count, so the total
      is fifty dollars per guest. */
  lemma TotalOfCount(n: int)
    ensures Guests(NumberText(n)) == Some(n)
    ensures Total(Guests(NumberText(n))) == Some(BasePrice * n)
  {
    assert NumberText(n) + [] == NumberText(n);
    ParseIntOfNumberText(n, []);
  }

  /** The label shows the count: parseInt reads it back, NaN included. */
  lemma GuestLabelReadsBack(guests: Option<int>)
    ensures ParseInt(GuestLabel(guests)) == guests
  {
    var noun := if guests != Some(1) then " guests" else " guest";
    var shown := GuestLabel(guests);
    assert shown == NumText(guests) + noun;
    match guests
    case Some(n) =>
      assert EndsNumber(noun);
      ParseIntOfNumberText(n, noun);
    case None =>
      assert shown[0] == 'N';
      ParseIntOfNonNumeric(shown);
  }

  /** The label is plural exactly when the count is not one, NaN included. */
  lemma GuestLabelPlural(guests: Option<int>)
    ensures GuestLabel(guests)[|GuestLabel(guests)| - 1] == 's' <==> guests != Some(1)
    ensures guests == Some(1) ==> GuestLabel(guests) == "1 guest"
  {
    var noun := if guests != Some(1) then " guests" else " guest";
    var shown := GuestLabel(guests);
    assert shown[|shown| - 1] == noun[|noun| - 1];
  }

  /** The price the booking button reports is the total the breakdown shows:
      parsing the data-total text written for a total gives that total back,
      NaN included. */
  lemma BookingPriceReadsTotal(total: Option<int>)
    ensures BookingPrice(Some(Fixed2(total))) == total
  {
    Fixed2RoundTrip(total);
  }

  /** Writes a breakdown element's text and its data attribute, if the
      element exists. */
  method Render(e: Element?, text: string, name: string, v: string)
    modifies e
    ensures e != null ==> e.text == text && e.attrs == SetAttr(old(e.attrs), name, v)
    ensures e != null ==> e.value == old(e.value) && e.display == old(e.display) && e.classes == old(e.classes)
  {
    if e != null {
      e.text := text;
      e.attrs := SetAttr(e.attrs, name, v);
    }
  }

  /** The breakdown elements; each is found by its own selector and they are
      different elements. */
  class PriceDisplay {
    const guestsInput: Element?
    const guestsLabel: Element?
    const subtotal: Element?
    const total: Element?
    const status: Element?

    ghost predicate Valid() {
      && (guestsLabel != null ==> guestsLabel != subtotal && guestsLabel != total && guestsLabel != status)
      && (subtotal != null ==> subtotal != total && subtotal != status)
      && (total != null ==> total != status)
    }

    constructor (guestsInput: Element?, guestsLabel: Element?, subtotal: Element?, total: Element?, status: Element?)
      requires guestsLabel != null ==> guestsLabel != subtotal && guestsLabel != total && guestsLabel != status
      requires subtotal != null ==> subtotal != total && subtotal != status
      requires total != null ==> total != status
      ensures Valid()
      ensures this.guestsInput == guestsInput && this.guestsLabel == guestsLabel
      ensures this.subtotal == subtotal && this.total == total && this.status == status
    {
      this.guestsInput := guestsInput;
      this.guestsLabel := guestsLabel;
      this.subtotal := subtotal;
      this.total := total;
      this.status := status;
    }

    /** The text the guests field holds, "" when there is no field. */
    function FieldValue(): string
      reads guestsInput
    {
      if guestsInput != null then guestsInput.value else ""
    }

    /** updatePrice: every breakdown element present gets its text and its
        data attribute from the guest count; the status region is written
        only when there is more than one guest and is otherwise left as it
        was. */
    method UpdatePrice()
      requires Valid()
      modifies guestsLabel, subtotal, total, status
      ensures var guests := Guests(old(FieldValue()));
              var sum := Total(guests);
              && (guestsLabel != null ==>
                    guestsLabel.text == GuestLabel(guests)
                    && guestsLabel.attrs == SetAttr(old(guestsLabel.attrs), DataGuests, NumText(guests)))
              && (subtotal != null ==>
                    subtotal.text == Money(sum) && subtotal.attrs == SetAttr(old(subtotal.attrs), DataSubtotal, Fixed2(sum)))
              && (total != null ==>
                    total.text == Money(sum) && total.attrs == SetAttr(old(total.attrs), DataTotal, Fixed2(sum)))
              && (status != null ==> status.text == if Announces(guests) then StatusText(guests, sum) else old(status.text))
      ensures guestsLabel != null ==>
        guestsLabel.value == old(guestsLabel.value) && guestsLabel.classes == old(guestsLabel.classes)
        && guestsLabel.display == old(guestsLabel.display)
      ensures subtotal != null ==>
        subtotal.value == old(subtotal.value) && subtotal.classes == old(subtotal.classes)
        && subtotal.display == old(subtotal.display)
      ensures total != null ==>
        total.value == old(total.value) && total.classes == old(total.classes) && total.display == old(total.display)
      ensures status != null ==>
        status.value == old(status.value) && status.display == old(status.display)
        && status.attrs == old(status.attrs) && status.classes == old(status.classes)
    {
      var guests := Guests(FieldValue());
      var sum := Total(guests);
      Render(guestsLabel, GuestLabel(guests), DataGuests, NumText(guests));
      Render(subtotal, Money(sum), DataSubtotal, Fixed2(sum));
      Render(total, Money(sum), DataTotal, Fixed2(sum));
      if status != null && Announces(guests) {
        status.text := StatusText(guests, sum);
      }
    }
  }
}
