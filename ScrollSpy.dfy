/**
 * The section scroll spy: which section is current for a scroll offset, the
 * active flag of each table-of-contents link, and the offset a link click
 * scrolls to.
 */
module ScrollSpy {
  import opened Numbers

  /** A tracked section: its offsetTop, its offsetHeight and its id. */
  datatype Section = Section(top: int, height: int, id: string)

  /** A table-of-contents link: its href and whether it has the class "active". */
  datatype Link = Link(href: string, active: bool)

  /** The sticky header's height, subtracted from each section's top. */
  const HeaderOffset := 150
  /** The correction subtracted from a target's top when a link is clicked. */
  const ClickOffset := 120

  /** The section's band [top - 150, top - 150 + height) holds the offset. */
  predicate Covers(s: Section, pos: int) {
    s.top - HeaderOffset <= pos < s.top - HeaderOffset + s.height
  }

  /** The id of the last section, in document order, whose band holds the
      offset; "" when no band does. */
  function ActiveId(sections: seq<Section>, pos: int): string {
    if sections == [] then ""
    else if Covers(sections[|sections| - 1], pos) then sections[|sections| - 1].id
    else ActiveId(sections[..|sections| - 1], pos)
  }

  /** No band holds the offset: nothing is current. */
  lemma {:induction false} ActiveIdNone(sections: seq<Section>, pos: int)
    requires forall i :: 0 <= i < |sections| ==> !Covers(sections[i], pos)
    ensures ActiveId(sections, pos) == ""
  {
    if sections != [] {
      ActiveIdNone(sections[..|sections| - 1], pos);
    }
  }

  /** The section at k holds the offset and no later one does: it is current. */
  lemma {:induction false} ActiveIdLastCovering(sections: seq<Section>, pos: int, k: nat)
    requires k < |sections| && Covers(sections[k], pos)
    requires forall j :: k < j < |sections| ==> !Covers(sections[j], pos)
    ensures ActiveId(sections, pos) == sections[k].id
  {
    if k < |sections| - 1 {
      ActiveIdLastCovering(sections[..|sections| - 1], pos, k);
    }
  }

  /** A scroll offset that is not a whole number of pixels selects the same
      sections as its floor, since the band bounds are whole numbers. */
  lemma CoversAtFloor(s: Section, pos: real)
    ensures ((s.top - HeaderOffset) as real <= pos < (s.top - HeaderOffset + s.height) as real)
        <==> Covers(s, pos.Floor)
  {
  }

  /** The first loop of updateActiveLink: every section whose band holds the
      offset overwrites current, so the last one wins. */
  method SelectActive(sections: seq<Section>, pos: int) returns (current: string)
    ensures current == ActiveId(sections, pos)
  {
    current := "";
    var i := 0;
    while i < |sections|
      invariant 0 <= i <= |sections|
      invariant current == ActiveId(sections[..i], pos)
    {
      var sectionTop := sections[i].top - HeaderOffset;
      if pos >= sectionTop && pos < sectionTop + sections[i].height {
        current := sections[i].id;
      }
      assert sections[..i + 1][..i] == sections[..i];
      i := i + 1;
    }
    assert sections[..i] == sections;
  }

  /** The links with their flags set for the current id: a link is active
      exactly when its href is '#' followed by that id. */
  function Marked(links: seq<Link>, current: string): (r: seq<Link>)
    ensures |r| == |links|
    ensures forall k :: 0 <= k < |r| ==> r[k].href == links[k].href && (r[k].active <==> links[k].href == "#" + current)
  {
    seq(|links|, k requires 0 <= k < |links| => Link(links[k].href, links[k].href == "#" + current))
  }

  /** When the hrefs differ and one of them names the current section, that
      link is the only active one. */
  lemma MarkedExactlyOne(links: seq<Link>, current: string, k: nat)
    requires k < |links| && links[k].href == "#" + current
    requires forall i, j :: 0 <= i < j < |links| ==> links[i].href != links[j].href
    ensures Marked(links, current)[k].active
    ensures forall i :: 0 <= i < |links| && i != k ==> !Marked(links, current)[i].active
  {
  }

  /** The second loop of updateActiveLink, over the link array in place. */
  method MarkLinks(links: array<Link>, current: string)
    modifies links
    ensures links[..] == Marked(old(links[..]), current)
  {
    var i := 0;
    while i < links.Length
      invariant 0 <= i <= links.Length
      invariant forall k :: 0 <= k < i ==> links[k] == Link(old(links[k]).href, old(links[k]).href == "#" + current)
      invariant forall k :: i <= k < links.Length ==> links[k] == old(links[k])
    {
      links[i] := links[i].(active := false);
      if links[i].href == "#" + current {
        links[i] := links[i].(active := true);
      }
      i := i + 1;
    }
  }

  /** updateActiveLink: select the current section, then mark the links. */
  method UpdateActiveLink(sections: seq<Section>, pos: int, links: array<Link>) returns (current: string)
    modifies links
    ensures current == ActiveId(sections, pos)
    ensures links[..] == Marked(old(links[..]), current)
  {
    current := SelectActive(sections, pos);
    MarkLinks(links, current);
  }

  /** href.substring(1): the href without its first character. */
  function TargetId(href: string): string {
    if href == [] then [] else href[1..]
  }

  /** document.getElementById(id) over the elements that carry ids: the
      index of the first with that id; an empty id finds nothing. */
  function FindById(elements: seq<Section>, id: string): (r: Option<nat>)
    ensures r.Some? ==> r.value < |elements| && elements[r.value].id == id && id != ""
    ensures r.Some? ==> forall j :: 0 <= j < r.value ==> elements[j].id != id
    ensures r.None? ==> id == "" || forall j :: 0 <= j < |elements| ==> elements[j].id != id
  {
    if id == "" || elements == [] then None
    else if elements[0].id == id then Some(0)
    else
      match FindById(elements[1..], id)
      case Some(i) => Some(i + 1)
      case None => None
  }

  /** getElementById finds the first element with the id. */
  lemma {:induction false} FindByIdFirst(elements: seq<Section>, id: string, k: nat)
    requires k < |elements| && elements[k].id == id && id != ""
    requires forall j :: 0 <= j < k ==> elements[j].id != id
    ensures FindById(elements, id) == Some(k)
  {
    if k > 0 {
      FindByIdFirst(elements[1..], id, k - 1);
    }
  }

  /** The offset a click on a link scrolls to: the target's top less 120,
      or None (no scroll) when no element has the link's target id. */
  function ClickTarget(elements: seq<Section>, href: string): Option<int> {
    match FindById(elements, TargetId(href))
    case Some(i) => Some(elements[i].top - ClickOffset)
    case None => None
  }

  /** Clicking the link to a section scrolls to where the scroll spy makes
      that section current, provided the section is more than 30 pixels high
      and no later section's band also holds that offset. */
  lemma ClickSelectsTarget(sections: seq<Section>, href: string, k: nat)
    requires k < |sections| && href == "#" + sections[k].id && sections[k].id != ""
    requires forall j :: 0 <= j < k ==> sections[j].id != sections[k].id
    requires sections[k].height > HeaderOffset - ClickOffset
    requires forall j :: k < j < |sections| ==> !Covers(sections[j], sections[k].top - ClickOffset)
    ensures ClickTarget(sections, href) == Some(sections[k].top - ClickOffset)
    ensures ActiveId(sections, ClickTarget(sections, href).value) == sections[k].id
  {
    var id := sections[k].id;
    assert href[1..] == id;
    assert TargetId(href) == id;
    FindByIdFirst(sections, id, k);
    assert ClickTarget(sections, href) == Some(sections[k].top - ClickOffset);
    ActiveIdLastCovering(sections, sections[k].top - ClickOffset, k);
  }
}
