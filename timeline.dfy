/** The `amp-timeline` element: its build step, which runs the structural
    validation over the element's children, and its layout test. */
module Timeline {
  import opened Dom
  import opened Schema

  /** The validation loops of the build step: sections left to right, and in
      each section its own checks and then its items left to right, stopping
      at the first failed check or at the first read of a missing child. */
  method Validate(sections: seq<Node>) returns (o: Outcome)
    ensures o == TimelineOutcome(sections)
  {
    var i := 0;
    while i < |sections|
      invariant i <= |sections|
      invariant TimelineOutcome(sections) == TimelineOutcome(sections[i..])
    {
      assert sections[i..][1..] == sections[i + 1..];
      var r := CheckSection(sections[i]);
      if !r.Ok? {
        return r;
      }
      i := i + 1;
    }
    return Ok;
  }

  /** The callback run on each section: its own checks in source order, then
      the loop over its items. */
  method CheckSection(section: Node) returns (o: Outcome)
    ensures o == SectionOutcome(section)
  {
    SectionSteps(section);
    if !TagIs(section, "section") {
      return Violation(SectionTag, 0);
    }
    var components := section.children;
    if |components| < 3 {
      // `list.children` on a missing third child
      return Crash(Heading, 0);
    }
    var header, image, list := components[0], components[1], components[2];
    var items := list.children;
    if !IsTagWithClass(header, "h1", "heading") {
      return Violation(Heading, 0);
    }
    if !TagIs(image, "amp-img") {
      return Violation(Image, 0);
    }
    if !IsTagWithClass(list, "ul", "timeline") {
      return Violation(TimelineList, 0);
    }
    if |items| == 0 {
      return Violation(NonEmptyList, 0);
    }
    o := CheckItems(items);
  }

  /** The loop over a list's items, left to right, item `k` numbered `k + 1`,
      stopping at the first item that fails. */
  method CheckItems(items: seq<Node>) returns (o: Outcome)
    ensures o == ItemsOutcome(items, 0)
  {
    var k := 0;
    while k < |items|
      invariant k <= |items|
      invariant ItemsOutcome(items, 0) == ItemsOutcome(items, k)
    {
      var r := CheckItem(items[k], k + 1);
      if !r.Ok? {
        return r;
      }
      k := k + 1;
    }
    return Ok;
  }

  /** The callback run on each list item: the item's checks in source order.
      `n` is the item's 1-based number in the message. */
  method CheckItem(item: Node, n: nat) returns (o: Outcome)
    ensures o == ItemOutcome(item, n)
  {
    ItemSteps(item, n);
    if !IsTagWithClass(item, "li", "item") {
      return Violation(ItemTag, n);
    }
    if !(HasClass(item, "left") || HasClass(item, "right")) {
      return Violation(Side, n);
    }
    if |item.children| != 1 {
      return Violation(OneCard, n);
    }
    var card := item.children[0];
    if !IsTagWithClass(card, "div", "card") {
      return Violation(CardTag, n);
    }
    var parts := card.children;
    // each part is read only when its own check is evaluated
    if |parts| < 1 {
      return Crash(CardHeader, n);
    }
    if !IsTagWithClass(parts[0], "div", "content") {
      return Violation(CardHeader, n);
    }
    if |parts| < 2 {
      return Crash(CardMedia, n);
    }
    if !IsTagWithClass(parts[1], "div", "media") {
      return Violation(CardMedia, n);
    }
    if |parts| < 3 {
      return Crash(CardDescription, n);
    }
    if !IsTagWithClass(parts[2], "div", "content") {
      return Violation(CardDescription, n);
    }
    return Ok;
  }

  /** The element.  `realChildren` is what the host's `getRealChildren()`
      yields for it; `sections` is the `sections_` field the build step sets. */
  class AmpTimeline {
    const realChildren: seq<Node>
    var sections: seq<Node>

    constructor (children: seq<Node>)
      ensures realChildren == children && sections == []
    {
      realChildren := children;
      sections := [];
    }

    /** The build step: records the children as the sections and validates
        them.  The children themselves are never changed. */
    method BuildCallback() returns (o: Outcome)
      modifies this
      ensures sections == realChildren
      ensures o == TimelineOutcome(realChildren)
    {
      sections := realChildren;
      o := Validate(sections);
    }

    /** The layout test, which only delegates to the host's
        `isLayoutSizeDefined`, passed in here. */
    function IsLayoutSupported<L>(layout: L, isLayoutSizeDefined: L -> bool): bool {
      isLayoutSizeDefined(layout)
    }
  }
}
