/**
 * The part of a page element that the tour page's script reads or writes:
 * an input's value, the text content, the inline style.display, the
 * attributes and the class list.
 */
module Dom {

  class Element {
    var value: string
    var text: string
    var display: string
    var attrs: map<string, string>
    var classes: set<string>

    constructor (value: string, text: string, attrs: map<string, string>, classes: set<string>)
      ensures this.value == value && this.text == text && this.display == ""
      ensures this.attrs == attrs && this.classes == classes
    {
      this.value := value;
      this.text := text;
      this.display := "";
      this.attrs := attrs;
      this.classes := classes;
    }
  }

  /** getAttribute(name) === v: the attribute is present with that value. */
  predicate HasAttr(attrs: map<string, string>, name: string, v: string) {
    name in attrs && attrs[name] == v
  }

  /** The attributes after setAttribute(name, v). */
  function SetAttr(attrs: map<string, string>, name: string, v: string): (r: map<string, string>)
    ensures HasAttr(r, name, v)
    ensures forall a :: a != name ==> (a in r <==> a in attrs) && (a in r ==> r[a] == attrs[a])
  {
    attrs[name := v]
  }

  /** The attributes after removeAttribute(name). */
  function RemoveAttr(attrs: map<string, string>, name: string): (r: map<string, string>)
    ensures name !in r
    ensures forall a :: a != name ==> (a in r <==> a in attrs) && (a in r ==> r[a] == attrs[a])
  {
    attrs - {name}
  }

  /** The class list after classList.toggle(c). */
  function ToggleClass(classes: set<string>, c: string): (r: set<string>)
    ensures c in r <==> c !in classes
    ensures forall d :: d != c ==> (d in r <==> d in classes)
  {
    if c in classes then classes - {c} else classes + {c}
  }

  /** Toggling the same class twice gives back the class list. */
  lemma ToggleClassTwice(classes: set<string>, c: string)
    ensures ToggleClass(ToggleClass(classes, c), c) == classes
  {
    var r := ToggleClass(ToggleClass(classes, c), c);
    assert forall d :: d in r <==> d in classes;
  }
}
