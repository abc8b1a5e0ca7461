/** The fixed nesting schema of an `amp-timeline` element, as a table of rules
    checked in a fixed order, and the outcome of checking a tree against it.

    A rule is checked on a section (the section-level rules) or on one list
    item (the item-level rules).  Every rule has a condition (`Holds`) and a
    precondition for evaluating it at all (`Reachable`): the element it reads
    must exist, or the source throws a TypeError instead of failing its
    assertion. */
module Schema {
  import opened Dom

  /** The assertions of the source, one constructor each, in source order. */
  datatype Rule =
    | SectionTag       // the top-level child is a <section>
    | Heading          // its first child is an h1.heading
    | Image            // its second child is an amp-img
    | TimelineList     // its third child is a ul.timeline
    | NonEmptyList     // that list has at least one item
    | ItemTag          // the item is an li.item
    | Side             // the item has class left or class right
    | OneCard          // the item has exactly one child
    | CardTag          // that child is a div.card
    | CardHeader       // the card's first child is a div.content
    | CardMedia        // the card's second child is a div.media
    | CardDescription  // the card's third child is a div.content

  /** Result of a validation pass.
      `Violation(rule, itemNo)` is the first failed assertion; `itemNo` is the
      1-based position of the item in its list, or 0 for a section-level rule.
      `Crash(rule, itemNo)` is a TypeError thrown before the assertion of `rule`
      could complete, because an element it needs does not exist. */
  datatype Outcome =
    | Ok
    | Violation(rule: Rule, itemNo: nat)
    | Crash(rule: Rule, itemNo: nat)

  /** The order in which the rules of one section are checked. */
  const SectionOrder: seq<Rule> := [SectionTag, Heading, Image, TimelineList, NonEmptyList]

  /** The order in which the rules of one item are checked. */
  const ItemOrder: seq<Rule> := [ItemTag, Side, OneCard, CardTag, CardHeader, CardMedia, CardDescription]

  /** The list items of a section: the children of its third child. */
  function Items(s: Node): (r: seq<Node>) {
    if |s.children| >= 3 then s.children[2].children else []
  }

  /** Whether evaluating rule `r` on `x` reads only elements that exist.
      For a section, the source reads `list.children` before the heading
      check, so every rule after the tag check needs three children.  For an
      item, the card is `item.children[0]` and the card's parts are read one
      by one, each only when its own check is evaluated. */
  predicate Reachable(r: Rule, x: Node) {
    match r
    case SectionTag => true
    case Heading | Image | TimelineList | NonEmptyList => |x.children| >= 3
    case ItemTag | Side | OneCard => true
    case CardTag => |x.children| >= 1
    case CardHeader => |x.children| >= 1 && |x.children[0].children| >= 1
    case CardMedia => |x.children| >= 1 && |x.children[0].children| >= 2
    case CardDescription => |x.children| >= 1 && |x.children[0].children| >= 3
  }

  /** The condition of rule `r` on `x`. */
  predicate Holds(r: Rule, x: Node)
    requires Reachable(r, x)
  {
    match r
    case SectionTag => TagIs(x, "section")
    case Heading => IsTagWithClass(x.children[0], "h1", "heading")
    case Image => TagIs(x.children[1], "amp-img")
    case TimelineList => IsTagWithClass(x.children[2], "ul", "timeline")
    case NonEmptyList => |x.children[2].children| > 0
    case ItemTag => IsTagWithClass(x, "li", "item")
    case Side => HasClass(x, "left") || HasClass(x, "right")
    case OneCard => |x.children| == 1
    case CardTag => IsTagWithClass(x.children[0], "div", "card")
    case CardHeader => IsTagWithClass(x.children[0].children[0], "div", "content")
    case CardMedia => IsTagWithClass(x.children[0].children[1], "div", "media")
    case CardDescription => IsTagWithClass(x.children[0].children[2], "div", "content")
  }

  /** Rule `r` is evaluated without a TypeError and its assertion succeeds. */
  predicate Passes(r: Rule, x: Node) {
    Reachable(r, x) && Holds(r, x)
  }

  /** The position of the first rule of `rules`, from `from` on, that does not
      pass on `x`; `|rules|` when they all pass. */
  function FirstFailing(rules: seq<Rule>, x: Node, from: nat): (j: nat)
    requires from <= |rules|
    ensures from <= j <= |rules|
    ensures forall i :: from <= i < j ==> Passes(rules[i], x)
    ensures j < |rules| ==> !Passes(rules[j], x)
    decreases |rules| - from
  {
    if from == |rules| || !Passes(rules[from], x) then from
    else FirstFailing(rules, x, from + 1)
  }

  /** What checking `rules` in order on `x` reports: nothing, or the first rule
      that does not pass, as a crash when its elements are missing and as a
      violation otherwise. */
  function Blame(rules: seq<Rule>, x: Node, itemNo: nat): (o: Outcome) {
    var j := FirstFailing(rules, x, 0);
    if j == |rules| then Ok
    else if Reachable(rules[j], x) then Violation(rules[j], itemNo)
    else Crash(rules[j], itemNo)
  }

  /** The outcome of checking one list item, numbered `itemNo`. */
  function ItemOutcome(item: Node, itemNo: nat): (o: Outcome) {
    Blame(ItemOrder, item, itemNo)
  }

  /** The outcome of checking `items[k..]`, item `k` carrying number `k + 1`. */
  function ItemsOutcome(items: seq<Node>, k: nat): (o: Outcome)
    decreases |items| - k
  {
    if k >= |items| then Ok
    else
      var o := ItemOutcome(items[k], k + 1);
      if o.Ok? then ItemsOutcome(items, k + 1) else o
  }

  /** The outcome of checking one section: its own rules, then its items. */
  function SectionOutcome(s: Node): (o: Outcome) {
    var o := Blame(SectionOrder, s, 0);
    if o.Ok? then ItemsOutcome(Items(s), 0) else o
  }

  /** The outcome of checking the element's children, left to right. */
  function TimelineOutcome(sections: seq<Node>): (o: Outcome) {
    if sections == [] then Ok
    else
      var o := SectionOutcome(sections[0]);
      if o.Ok? then TimelineOutcome(sections[1..]) else o
  }

  // The schema in declarative form, written without the rule table.

  ghost predicate WellFormedCard(card: Node) {
    IsTagWithClass(card, "div", "card") &&
    |card.children| >= 3 &&
    IsTagWithClass(card.children[0], "div", "content") &&
    IsTagWithClass(card.children[1], "div", "media") &&
    IsTagWithClass(card.children[2], "div", "content")
  }

  ghost predicate WellFormedItem(item: Node) {
    IsTagWithClass(item, "li", "item") &&
    (HasClass(item, "left") || HasClass(item, "right")) &&
    |item.children| == 1 &&
    WellFormedCard(item.children[0])
  }

  ghost predicate WellFormedSection(s: Node) {
    TagIs(s, "section") &&
    |s.children| >= 3 &&
    IsTagWithClass(s.children[0], "h1", "heading") &&
    TagIs(s.children[1], "amp-img") &&
    IsTagWithClass(s.children[2], "ul", "timeline") &&
    |s.children[2].children| >= 1 &&
    forall m :: 0 <= m < |s.children[2].children| ==> WellFormedItem(s.children[2].children[m])
  }

  ghost predicate WellFormed(sections: seq<Node>) {
    forall i :: 0 <= i < |sections| ==> WellFormedSection(sections[i])
  }

  // The rule table read back as the sequence of checks the source performs.

  /** `FirstFailing` is determined by its contract. */
  lemma FirstFailingIs(rules: seq<Rule>, x: Node, j: nat)
    requires j <= |rules|
    requires forall i :: 0 <= i < j ==> Passes(rules[i], x)
    requires j < |rules| ==> !Passes(rules[j], x)
    ensures FirstFailing(rules, x, 0) == j
  {
  }

  /** Checking a section is the source's sequence of tests: the tag, then (after
      reading the third child's children, which throws when the section has
      fewer than three children) the heading, the image, the list, its length,
      and then the items. */
  lemma SectionSteps(s: Node)
    ensures SectionOutcome(s) ==
      if !TagIs(s, "section") then Violation(SectionTag, 0)
      else if |s.children| < 3 then Crash(Heading, 0)
      else if !IsTagWithClass(s.children[0], "h1", "heading") then Violation(Heading, 0)
      else if !TagIs(s.children[1], "amp-img") then Violation(Image, 0)
      else if !IsTagWithClass(s.children[2], "ul", "timeline") then Violation(TimelineList, 0)
      else if |s.children[2].children| == 0 then Violation(NonEmptyList, 0)
      else ItemsOutcome(s.children[2].children, 0)
  {
    if !TagIs(s, "section") {
      FirstFailingIs(SectionOrder, s, 0);
    } else if |s.children| < 3 || !IsTagWithClass(s.children[0], "h1", "heading") {
      FirstFailingIs(SectionOrder, s, 1);
    } else if !TagIs(s.children[1], "amp-img") {
      FirstFailingIs(SectionOrder, s, 2);
    } else if !IsTagWithClass(s.children[2], "ul", "timeline") {
      FirstFailingIs(SectionOrder, s, 3);
    } else if |s.children[2].children| == 0 {
      FirstFailingIs(SectionOrder, s, 4);
    } else {
      FirstFailingIs(SectionOrder, s, 5);
    }
  }

  /** Position, in `ItemOrder`, of the first card rule an item does not pass
      once its own rules and the card's tag pass. */
  lemma CardFirstFailing(item: Node)
    requires IsTagWithClass(item, "li", "item") && (HasClass(item, "left") || HasClass(item, "right"))
    requires |item.children| == 1 && IsTagWithClass(item.children[0], "div", "card")
    ensures FirstFailing(ItemOrder, item, 0) ==
      if |item.children[0].children| < 1
        || !IsTagWithClass(item.children[0].children[0], "div", "content") then 4
      else if |item.children[0].children| < 2
        || !IsTagWithClass(item.children[0].children[1], "div", "media") then 5
      else if |item.children[0].children| < 3
        || !IsTagWithClass(item.children[0].children[2], "div", "content") then 6
      else 7
  {
    var parts := item.children[0].children;
    assert Passes(ItemOrder[0], item) && Passes(ItemOrder[1], item) &&
      Passes(ItemOrder[2], item) && Passes(ItemOrder[3], item);
    if |parts| < 1 || !IsTagWithClass(parts[0], "div", "content") {
      FirstFailingIs(ItemOrder, item, 4);
    } else if |parts| < 2 || !IsTagWithClass(parts[1], "div", "media") {
      FirstFailingIs(ItemOrder, item, 5);
    } else if |parts| < 3 || !IsTagWithClass(parts[2], "div", "content") {
      FirstFailingIs(ItemOrder, item, 6);
    } else {
      FirstFailingIs(ItemOrder, item, 7);
    }
  }

  /** Position, in `ItemOrder`, of the first rule an item does not pass. */
  lemma ItemFirstFailing(item: Node)
    ensures FirstFailing(ItemOrder, item, 0) ==
      if !IsTagWithClass(item, "li", "item") then 0
      else if !(HasClass(item, "left") || HasClass(item, "right")) then 1
      else if |item.children| != 1 then 2
      else if !IsTagWithClass(item.children[0], "div", "card") then 3
      else if |item.children[0].children| < 1
        || !IsTagWithClass(item.children[0].children[0], "div", "content") then 4
      else if |item.children[0].children| < 2
        || !IsTagWithClass(item.children[0].children[1], "div", "media") then 5
      else if |item.children[0].children| < 3
        || !IsTagWithClass(item.children[0].children[2], "div", "content") then 6
      else 7
  {
    if !IsTagWithClass(item, "li", "item") {
      FirstFailingIs(ItemOrder, item, 0);
    } else if !(HasClass(item, "left") || HasClass(item, "right")) {
      FirstFailingIs(ItemOrder, item, 1);
    } else if |item.children| != 1 {
      FirstFailingIs(ItemOrder, item, 2);
    } else if !IsTagWithClass(item.children[0], "div", "card") {
      FirstFailingIs(ItemOrder, item, 3);
    } else {
      CardFirstFailing(item);
    }
  }

  /** Checking an item is the source's sequence of tests: tag and class, side,
      number of children, the card, then the card's three parts, each of which
      throws when the card has no child at that position. */
  lemma ItemSteps(item: Node, n: nat)
    ensures ItemOutcome(item, n) ==
      if !IsTagWithClass(item, "li", "item") then Violation(ItemTag, n)
      else if !(HasClass(item, "left") || HasClass(item, "right")) then Violation(Side, n)
      else if |item.children| != 1 then Violation(OneCard, n)
      else if !IsTagWithClass(item.children[0], "div", "card") then Violation(CardTag, n)
      else if |item.children[0].children| < 1 then Crash(CardHeader, n)
      else if !IsTagWithClass(item.children[0].children[0], "div", "content") then Violation(CardHeader, n)
      else if |item.children[0].children| < 2 then Crash(CardMedia, n)
      else if !IsTagWithClass(item.children[0].children[1], "div", "media") then Violation(CardMedia, n)
      else if |item.children[0].children| < 3 then Crash(CardDescription, n)
      else if !IsTagWithClass(item.children[0].children[2], "div", "content") then Violation(CardDescription, n)
      else Ok
  {
    ItemFirstFailing(item);
  }
}
