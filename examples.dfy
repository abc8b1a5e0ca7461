/** Concrete timelines: the smallest valid document, and single changes to it
    that each produce exactly one report naming the changed element. */
module Examples {
  import opened Dom
  import opened Schema

  function Leaf(tag: string, classes: set<string>): Node {
    Node(tag, classes, [])
  }

  /** A card made of the given parts. */
  function CardOf(parts: seq<Node>): Node {
    Node("div", {"card"}, parts)
  }

  const Header: Node := Leaf("div", {"content"})
  const Media: Node := Leaf("div", {"media"})
  const Description: Node := Leaf("div", {"content"})

  /** An item with the given classes and a complete card. */
  function ItemWith(classes: set<string>): Node {
    Node("li", classes, [CardOf([Header, Media, Description])])
  }

  /** A section with a heading, an image and a timeline list of `items`. */
  function SectionOf(items: seq<Node>): Node {
    Node("section", {}, [Leaf("h1", {"heading"}), Leaf("amp-img", {}), Node("ul", {"timeline"}, items)])
  }

  /** One section holding one left item whose card has its three parts. */
  const Minimal: seq<Node> := [SectionOf([ItemWith({"item", "left"})])]

  lemma Tags()
    ensures Lower("section") == "section" && Lower("h1") == "h1" && Lower("amp-img") == "amp-img"
    ensures Lower("ul") == "ul" && Lower("li") == "li" && Lower("div") == "div"
  {
    LowerOfLowerCase("section");
    LowerOfLowerCase("h1");
    LowerOfLowerCase("amp-img");
    LowerOfLowerCase("ul");
    LowerOfLowerCase("li");
    LowerOfLowerCase("div");
  }

  lemma MinimalDocumentValid()
    ensures TimelineOutcome(Minimal) == Ok
  {
    Tags();
    var item := ItemWith({"item", "left"});
    ItemSteps(item, 1);
    SectionSteps(Minimal[0]);
  }

  /** Upper-case tag names are accepted: tags are compared lower-cased. */
  lemma UpperCaseTagsAccepted()
    ensures TimelineOutcome([Node("SECTION", {}, [Leaf("H1", {"heading"}), Leaf("AMP-IMG", {}),
      Node("UL", {"timeline"}, [Node("LI", {"item", "right"}, [Node("DIV", {"card"}, [Header, Media, Description])])])])]) == Ok
  {
    Tags();
    LowerIs("SECTION", "section");
    LowerIs("H1", "h1");
    LowerIs("AMP-IMG", "amp-img");
    LowerIs("UL", "ul");
    LowerIs("LI", "li");
    LowerIs("DIV", "div");
    var item := Node("LI", {"item", "right"}, [Node("DIV", {"card"}, [Header, Media, Description])]);
    ItemSteps(item, 1);
    SectionSteps(Node("SECTION", {}, [Leaf("H1", {"heading"}), Leaf("AMP-IMG", {}), Node("UL", {"timeline"}, [item])]));
  }

  /** Class names are matched exactly: `Heading` is not `heading`. */
  lemma ClassNamesAreCaseSensitive()
    ensures TimelineOutcome([Node("section", {}, [Leaf("h1", {"Heading"}), Leaf("amp-img", {}),
      Node("ul", {"timeline"}, [ItemWith({"item", "left"})])])]) == Violation(Heading, 0)
  {
    Tags();
    SectionSteps(Node("section", {}, [Leaf("h1", {"Heading"}), Leaf("amp-img", {}),
      Node("ul", {"timeline"}, [ItemWith({"item", "left"})])]));
  }

  /** An item with both `left` and `right` is accepted. */
  lemma BothSidesAccepted()
    ensures TimelineOutcome([SectionOf([ItemWith({"item", "left", "right"})])]) == Ok
  {
    Tags();
    ItemSteps(ItemWith({"item", "left", "right"}), 1);
    SectionSteps(SectionOf([ItemWith({"item", "left", "right"})]));
  }

  /** Dropping the side class of the second item is reported with item number 2. */
  lemma MissingSideReported()
    ensures TimelineOutcome([SectionOf([ItemWith({"item", "left"}), ItemWith({"item"})])]) == Violation(Side, 2)
  {
    Tags();
    ItemSteps(ItemWith({"item", "left"}), 1);
    ItemSteps(ItemWith({"item"}), 2);
    SectionSteps(SectionOf([ItemWith({"item", "left"}), ItemWith({"item"})]));
  }

  /** Swapping the card's header and media is reported at the header. */
  lemma SwappedCardPartsReported()
    ensures TimelineOutcome([SectionOf([Node("li", {"item", "left"}, [CardOf([Media, Header, Description])])])])
      == Violation(CardHeader, 1)
  {
    Tags();
    ItemSteps(Node("li", {"item", "left"}, [CardOf([Media, Header, Description])]), 1);
    SectionSteps(SectionOf([Node("li", {"item", "left"}, [CardOf([Media, Header, Description])])]));
  }

  /** A timeline list without items is reported as such. */
  lemma EmptyListExample()
    ensures TimelineOutcome([SectionOf([])]) == Violation(NonEmptyList, 0)
  {
    Tags();
    SectionSteps(SectionOf([]));
  }

  /** A section without its list throws before its heading is checked. */
  lemma ShortSectionCrashes()
    ensures TimelineOutcome([Node("section", {}, [Leaf("h1", {"heading"}), Leaf("amp-img", {})])]) == Crash(Heading, 0)
  {
    Tags();
    SectionSteps(Node("section", {}, [Leaf("h1", {"heading"}), Leaf("amp-img", {})]));
  }

  /** A card with only its header throws when its media is checked. */
  lemma ShortCardCrashes()
    ensures TimelineOutcome([SectionOf([Node("li", {"item", "left"}, [CardOf([Header])])])]) == Crash(CardMedia, 1)
  {
    Tags();
    ItemSteps(Node("li", {"item", "left"}, [CardOf([Header])]), 1);
    SectionSteps(SectionOf([Node("li", {"item", "left"}, [CardOf([Header])])]));
  }
}
