/**
 * The mobile navigation toggle: a control whose aria-expanded attribute and
 * is-active class, and a menu whose is-open class, flip together on a click;
 * the Escape key acts as a click only while the menu is expanded.
 */
module NavToggle {
  import opened Dom

  const AriaExpanded := "aria-expanded"
  const IsOpen := "is-open"
  const IsActive := "is-active"
  const EscapeKey := "Escape"

  /** getAttribute('aria-expanded') === 'true' */
  predicate Expanded(attrs: map<string, string>) {
    HasAttr(attrs, AriaExpanded, "true")
  }

  /** setAttribute('aria-expanded', !isExpanded): the negated flag is written
      as the text "true" or "false". */
  function FlipExpanded(attrs: map<string, string>): (r: map<string, string>)
    ensures Expanded(r) <==> !Expanded(attrs)
    ensures HasAttr(r, AriaExpanded, "true") || HasAttr(r, AriaExpanded, "false")
    ensures forall a :: a != AriaExpanded ==> (a in r <==> a in attrs) && (a in r ==> r[a] == attrs[a])
  {
    SetAttr(attrs, AriaExpanded, if Expanded(attrs) then "false" else "true")
  }

  /** Two flips give back the flag, and give back the attributes themselves
      once aria-expanded holds one of the two texts a flip writes. */
  lemma FlipExpandedTwice(attrs: map<string, string>)
    ensures Expanded(FlipExpanded(FlipExpanded(attrs))) == Expanded(attrs)
    ensures HasAttr(attrs, AriaExpanded, "true") || HasAttr(attrs, AriaExpanded, "false") ==>
      FlipExpanded(FlipExpanded(attrs)) == attrs
  {
    var r := FlipExpanded(FlipExpanded(attrs));
    if HasAttr(attrs, AriaExpanded, "true") || HasAttr(attrs, AriaExpanded, "false") {
      assert r[AriaExpanded] == attrs[AriaExpanded];
      assert r.Keys == attrs.Keys;
    }
  }

  /** The control and the (optional) menu. The handlers exist only when the
      control does, and the menu is another element. */
  class Nav {
    const toggle: Element
    const menu: Element?

    ghost predicate Valid() {
      menu != toggle
    }

    constructor (toggle: Element, menu: Element?)
      requires menu != toggle
      ensures Valid() && this.toggle == toggle && this.menu == menu
    {
      this.toggle := toggle;
      this.menu := menu;
    }

    /** The three marks agree: the control is active, and the menu (if any)
        open, exactly when aria-expanded is "true". */
    ghost predicate InSync()
      reads toggle, menu
    {
      && (IsActive in toggle.classes <==> Expanded(toggle.attrs))
      && (menu != null ==> (IsOpen in menu.classes <==> Expanded(toggle.attrs)))
    }

    /** The click handler. focusMenu says whether focus moves to the menu's
        first link, which happens on opening when there is a menu. */
    method Click() returns (focusMenu: bool)
      requires Valid()
      modifies toggle, menu
      ensures toggle.attrs == FlipExpanded(old(toggle.attrs))
      ensures toggle.classes == ToggleClass(old(toggle.classes), IsActive)
      ensures menu != null ==> menu.classes == ToggleClass(old(menu.classes), IsOpen)
      ensures focusMenu == (menu != null && Expanded(toggle.attrs))
      ensures old(InSync()) ==> InSync()
      ensures toggle.value == old(toggle.value) && toggle.text == old(toggle.text) && toggle.display == old(toggle.display)
      ensures menu != null ==>
        menu.value == old(menu.value) && menu.text == old(menu.text)
        && menu.display == old(menu.display) && menu.attrs == old(menu.attrs)
    {
      var isExpanded := Expanded(toggle.attrs);
      toggle.attrs := SetAttr(toggle.attrs, AriaExpanded, if isExpanded then "false" else "true");
      if menu != null {
        menu.classes := ToggleClass(menu.classes, IsOpen);
      }
      toggle.classes := ToggleClass(toggle.classes, IsActive);
      focusMenu := menu != null && !isExpanded;
    }

    /** The keydown handler: Escape while expanded clicks the control and
        returns focus to it (acted says whether focus moves to the control); any other key, or Escape while collapsed,
        changes nothing. Afterwards an Escape has always left the menu
        collapsed. */
    method KeyDown(key: string) returns (acted: bool)
      requires Valid()
      modifies toggle, menu
      ensures acted == (key == EscapeKey && Expanded(old(toggle.attrs)))
      ensures acted ==>
        toggle.attrs == FlipExpanded(old(toggle.attrs))
        && toggle.classes == ToggleClass(old(toggle.classes), IsActive)
        && (menu != null ==> menu.classes == ToggleClass(old(menu.classes), IsOpen))
      ensures toggle.value == old(toggle.value) && toggle.text == old(toggle.text) && toggle.display == old(toggle.display)
      ensures menu != null ==>
        menu.value == old(menu.value) && menu.text == old(menu.text)
        && menu.display == old(menu.display) && menu.attrs == old(menu.attrs)
      ensures !acted ==> unchanged(toggle) && (menu != null ==> unchanged(menu))
      ensures key == EscapeKey ==> !Expanded(toggle.attrs)
      ensures key == EscapeKey && old(InSync()) ==> IsActive !in toggle.classes && (menu != null ==> IsOpen !in menu.classes)
      ensures old(InSync()) ==> InSync()
    {
      acted := key == EscapeKey && Expanded(toggle.attrs);
      if acted {
        var _ := Click();
      }
    }
  }
}
