/** What the validation pass guarantees: it accepts exactly the trees that
    match the schema, it reports the first failing rule in the fixed order, and
    it depends only on the parts of the tree it is documented to inspect. */
module Properties {
  import opened Dom
  import opened Schema

  /** Every rule of `rules` passes on `x`. */
  ghost predicate AllPass(rules: seq<Rule>, x: Node) {
    forall i :: 0 <= i < |rules| ==> Passes(rules[i], x)
  }

  /** `r` is the first rule of `rules` that does not pass on `x`. */
  ghost predicate IsFirstFailure(rules: seq<Rule>, x: Node, r: Rule) {
    exists j :: 0 <= j < |rules| && rules[j] == r && !Passes(rules[j], x) &&
      forall i :: 0 <= i < j ==> Passes(rules[i], x)
  }

  /** `o` is a violation or a crash at rule `r` and item number `n`. */
  ghost predicate Reports(o: Outcome, r: Rule, n: nat) {
    !o.Ok? && o.rule == r && o.itemNo == n
  }

  // ---------------------------------------------------------------------------
  // Checking a rule table

  lemma BlameOk(rules: seq<Rule>, x: Node, no: nat)
    ensures Blame(rules, x, no).Ok? <==> AllPass(rules, x)
  {
    var j := FirstFailing(rules, x, 0);
    if j < |rules| {
      assert !Passes(rules[j], x);
    }
  }

  /** A report of a table names one of its rules and the given number. */
  lemma BlameNames(rules: seq<Rule>, x: Node, no: nat)
    ensures !Blame(rules, x, no).Ok? ==>
      Blame(rules, x, no).rule in rules && Blame(rules, x, no).itemNo == no
  {
  }

  /** A table reports exactly its first failing rule, as a crash exactly when
      that rule reads a missing element. */
  lemma BlameReportsFirstFailure(rules: seq<Rule>, x: Node, no: nat, r: Rule)
    ensures Reports(Blame(rules, x, no), r, no) <==> IsFirstFailure(rules, x, r)
    ensures Blame(rules, x, no).Crash? <==>
      !Blame(rules, x, no).Ok? && !Reachable(Blame(rules, x, no).rule, x)
  {
    var j := FirstFailing(rules, x, 0);
    if IsFirstFailure(rules, x, r) {
      var k :| 0 <= k < |rules| && rules[k] == r && !Passes(rules[k], x) &&
        forall i :: 0 <= i < k ==> Passes(rules[i], x);
      FirstFailingIs(rules, x, k);
    }
    if Reports(Blame(rules, x, no), r, no) {
      assert rules[j] == r && !Passes(rules[j], x);
    }
  }

  // ---------------------------------------------------------------------------
  // Acceptance is the declarative schema

  lemma ItemOkIff(item: Node, n: nat)
    ensures ItemOutcome(item, n).Ok? <==> WellFormedItem(item)
  {
    ItemSteps(item, n);
  }

  lemma {:induction false} ItemsOkIff(items: seq<Node>, k: nat)
    ensures ItemsOutcome(items, k).Ok? <==> forall m :: k <= m < |items| ==> WellFormedItem(items[m])
    decreases |items| - k
  {
    if k < |items| {
      ItemOkIff(items[k], k + 1);
      ItemsOkIff(items, k + 1);
    }
  }

  lemma SectionOkIff(s: Node)
    ensures SectionOutcome(s).Ok? <==> WellFormedSection(s)
  {
    SectionSteps(s);
    if |s.children| >= 3 {
      ItemsOkIff(s.children[2].children, 0);
    }
  }

  /** The pass succeeds exactly on the trees that match the schema; in
      particular an element without children is accepted. */
  lemma {:induction false} TimelineOkIff(sections: seq<Node>)
    ensures TimelineOutcome(sections).Ok? <==> WellFormed(sections)
    ensures sections == [] ==> TimelineOutcome(sections) == Ok
  {
    if sections != [] {
      SectionOkIff(sections[0]);
      TimelineOkIff(sections[1..]);
      assert forall i :: 1 <= i < |sections| ==> sections[1..][i - 1] == sections[i];
    }
  }

  // ---------------------------------------------------------------------------
  // The first bad item of a list, the first bad section of the element

  lemma {:induction false} FirstBadItemReported(items: seq<Node>, k: nat, m: nat)
    requires k <= m < |items|
    requires forall p :: k <= p < m ==> WellFormedItem(items[p])
    requires !WellFormedItem(items[m])
    ensures ItemsOutcome(items, k) == ItemOutcome(items[m], m + 1)
    ensures !ItemsOutcome(items, k).Ok?
    decreases m - k
  {
    ItemOkIff(items[k], k + 1);
    if k < m {
      FirstBadItemReported(items, k + 1, m);
    }
  }

  /** A failing list fails at its first item `m` that does not match the
      schema, and reports what that item reports, numbered `m + 1`. */
  lemma {:induction false} ItemFailureLocated(items: seq<Node>, k: nat) returns (m: nat)
    requires !ItemsOutcome(items, k).Ok?
    ensures k <= m < |items|
    ensures forall p :: k <= p < m ==> WellFormedItem(items[p])
    ensures !WellFormedItem(items[m])
    ensures ItemsOutcome(items, k) == ItemOutcome(items[m], m + 1)
    decreases |items| - k
  {
    ItemOkIff(items[k], k + 1);
    if ItemOutcome(items[k], k + 1).Ok? {
      m := ItemFailureLocated(items, k + 1);
    } else {
      m := k;
    }
  }

  /** When the sections before position `i` match the schema and section `i`
      does not, the pass reports what section `i` reports. */
  lemma {:induction false} FirstBadSectionReported(sections: seq<Node>, i: nat)
    requires i < |sections|
    requires forall j :: 0 <= j < i ==> WellFormedSection(sections[j])
    requires !WellFormedSection(sections[i])
    ensures TimelineOutcome(sections) == SectionOutcome(sections[i])
    ensures !TimelineOutcome(sections).Ok?
  {
    SectionOkIff(sections[0]);
    if i > 0 {
      FirstBadSectionReported(sections[1..], i - 1);
    }
  }

  /** The position of the first section, from `k` on, that does not match the
      schema; `|sections|` when they all do. */
  ghost function FirstBadSection(sections: seq<Node>, k: nat): (i: nat)
    requires k <= |sections|
    ensures k <= i <= |sections|
    ensures forall j :: k <= j < i ==> WellFormedSection(sections[j])
    ensures i < |sections| ==> !WellFormedSection(sections[i])
    decreases |sections| - k
  {
    if k == |sections| || !WellFormedSection(sections[k]) then k
    else FirstBadSection(sections, k + 1)
  }

  /** A failure of the pass is the failure of its first bad section. */
  lemma SectionFailureLocated(sections: seq<Node>) returns (i: nat)
    requires !TimelineOutcome(sections).Ok?
    ensures i < |sections| && !WellFormedSection(sections[i])
    ensures forall j :: 0 <= j < i ==> WellFormedSection(sections[j])
    ensures TimelineOutcome(sections) == SectionOutcome(sections[i])
  {
    TimelineOkIff(sections);
    i := FirstBadSection(sections, 0);
    FirstBadSectionReported(sections, i);
  }

  // ---------------------------------------------------------------------------
  // The reported failure is the first failing rule in the fixed order

  /** In section `s`, the first rule that does not pass, in checking order, is
      `r` on item number `n` (0 for the section's own rules): either a rule of
      the section, or, with every section rule passing and the items before
      it matching the schema, a rule of item `n`. */
  ghost predicate FailsFirstAt(s: Node, r: Rule, n: nat) {
    (n == 0 && IsFirstFailure(SectionOrder, s, r)) ||
    (1 <= n <= |Items(s)| && AllPass(SectionOrder, s) &&
     (forall m :: 0 <= m < n - 1 ==> WellFormedItem(Items(s)[m])) &&
     IsFirstFailure(ItemOrder, Items(s)[n - 1], r))
  }

  /** Once a section's own rules pass, its outcome is its list's. */
  lemma OwnRulesPass(s: Node)
    requires AllPass(SectionOrder, s)
    ensures SectionOutcome(s) == ItemsOutcome(Items(s), 0)
  {
    BlameOk(SectionOrder, s, 0);
  }

  /** What one item reports names that item and its first failing rule. */
  lemma ItemReports(item: Node, no: nat, r: Rule, n: nat)
    requires Reports(ItemOutcome(item, no), r, n)
    ensures n == no
    ensures IsFirstFailure(ItemOrder, item, r)
  {
    BlameReportsFirstFailure(ItemOrder, item, no, r);
  }

  /** A list's report comes from its first bad item, numbered from 1. */
  lemma ListReportLocated(items: seq<Node>, r: Rule, n: nat)
    requires Reports(ItemsOutcome(items, 0), r, n)
    ensures 1 <= n <= |items|
    ensures forall m :: 0 <= m < n - 1 ==> WellFormedItem(items[m])
    ensures IsFirstFailure(ItemOrder, items[n - 1], r)
  {
    var m := ItemFailureLocated(items, 0);
    ItemReports(items[m], m + 1, r, n);
    assert items[n - 1] == items[m];
  }

  /** A list reports the first failing rule of its first bad item. */
  lemma ListFailureReported(items: seq<Node>, r: Rule, n: nat)
    requires 1 <= n <= |items|
    requires forall m :: 0 <= m < n - 1 ==> WellFormedItem(items[m])
    requires IsFirstFailure(ItemOrder, items[n - 1], r)
    ensures Reports(ItemsOutcome(items, 0), r, n)
  {
    BlameReportsFirstFailure(ItemOrder, items[n - 1], n, r);
    ItemOkIff(items[n - 1], n);
    FirstBadItemReported(items, 0, n - 1);
  }

  lemma SectionReportsFirstFailure(s: Node, r: Rule, n: nat)
    ensures Reports(SectionOutcome(s), r, n) <==> FailsFirstAt(s, r, n)
  {
    BlameOk(SectionOrder, s, 0);
    if AllPass(SectionOrder, s) {
      OwnRulesPass(s);
      if Reports(SectionOutcome(s), r, n) {
        ListReportLocated(Items(s), r, n);
      }
      if FailsFirstAt(s, r, n) {
        ListFailureReported(Items(s), r, n);
      }
    } else {
      BlameReportsFirstFailure(SectionOrder, s, 0, r);
      assert SectionOutcome(s) == Blame(SectionOrder, s, 0);
    }
  }

  /** The pass reports rule `r` at item number `n` exactly when, scanning the
      sections left to right, the first section that does not match the
      schema fails first at `r` and `n`. */
  lemma TimelineReportsFirstFailure(sections: seq<Node>, r: Rule, n: nat)
    ensures Reports(TimelineOutcome(sections), r, n) <==>
      exists i :: 0 <= i < |sections| && FailsFirstAt(sections[i], r, n) &&
        forall j :: 0 <= j < i ==> WellFormedSection(sections[j])
  {
    if Reports(TimelineOutcome(sections), r, n) {
      var i := SectionFailureLocated(sections);
      SectionReportsFirstFailure(sections[i], r, n);
    }
    if exists i :: 0 <= i < |sections| && FailsFirstAt(sections[i], r, n) &&
         forall j :: 0 <= j < i ==> WellFormedSection(sections[j]) {
      var i :| 0 <= i < |sections| && FailsFirstAt(sections[i], r, n) &&
        forall j :: 0 <= j < i ==> WellFormedSection(sections[j]);
      SectionReportsFirstFailure(sections[i], r, n);
      SectionOkIff(sections[i]);
      FirstBadSectionReported(sections, i);
    }
  }

  /** An item-level failure carries the 1-based number of the failing item of
      its section's list; a section-level failure carries 0. */
  lemma SectionItemNumber(s: Node)
    ensures var o := SectionOutcome(s);
      !o.Ok? ==>
        (o.itemNo == 0 ==> o.rule in SectionOrder) &&
        (o.itemNo >= 1 ==> o.rule in ItemOrder && o.itemNo <= |Items(s)|)
  {
    var o := SectionOutcome(s);
    BlameOk(SectionOrder, s, 0);
    BlameNames(SectionOrder, s, 0);
    if AllPass(SectionOrder, s) && !o.Ok? {
      OwnRulesPass(s);
      var m := ItemFailureLocated(Items(s), 0);
      BlameNames(ItemOrder, Items(s)[m], m + 1);
    }
  }

  lemma ItemNumberInRange(sections: seq<Node>)
    ensures var o := TimelineOutcome(sections);
      !o.Ok? ==>
        (o.itemNo == 0 ==> o.rule in SectionOrder) &&
        (o.itemNo >= 1 ==>
           o.rule in ItemOrder &&
           exists i :: 0 <= i < |sections| && o.itemNo <= |Items(sections[i])| &&
             !WellFormedSection(sections[i]) && forall j :: 0 <= j < i ==> WellFormedSection(sections[j]))
  {
    var o := TimelineOutcome(sections);
    if !o.Ok? {
      var i := SectionFailureLocated(sections);
      SectionItemNumber(sections[i]);
    }
  }

  // ---------------------------------------------------------------------------
  // Individual rules

  /** A top-level child whose lower-cased tag is not `section` is reported as
      such, once the children before it have passed. */
  lemma NonSectionReported(sections: seq<Node>, i: nat)
    requires i < |sections|
    requires forall j :: 0 <= j < i ==> WellFormedSection(sections[j])
    requires !TagIs(sections[i], "section")
    ensures TimelineOutcome(sections) == Violation(SectionTag, 0)
  {
    SectionSteps(sections[i]);
    FirstBadSectionReported(sections, i);
  }

  /** A section with fewer than three children throws, right after its tag
      check, instead of failing an assertion. */
  lemma SectionCrash(s: Node)
    ensures SectionOutcome(s).Crash? && SectionOutcome(s).itemNo == 0 <==>
      TagIs(s, "section") && |s.children| < 3
    ensures SectionOutcome(s).Crash? && SectionOutcome(s).itemNo == 0 ==>
      SectionOutcome(s).rule == Heading
  {
    SectionSteps(s);
    if |s.children| >= 3 && SectionOutcome(s).Crash? {
      var m := ItemFailureLocated(s.children[2].children, 0);
    }
  }

  /** An empty timeline list is always reported as such (or as an earlier
      section-level failure); no item-level rule is reached. */
  lemma EmptyListReported(s: Node)
    requires |s.children| >= 3 && |s.children[2].children| == 0
    ensures !SectionOutcome(s).Ok? && SectionOutcome(s).itemNo == 0
    ensures SectionOutcome(s).rule in SectionOrder
    ensures (TagIs(s, "section") && IsTagWithClass(s.children[0], "h1", "heading") &&
             TagIs(s.children[1], "amp-img") && IsTagWithClass(s.children[2], "ul", "timeline")) ==>
      SectionOutcome(s) == Violation(NonEmptyList, 0)
  {
    SectionSteps(s);
  }

  /** Of `left` and `right`, either or both satisfy the side rule; only
      having neither violates it. */
  lemma SideRule(item: Node, n: nat)
    requires IsTagWithClass(item, "li", "item")
    ensures ItemOutcome(item, n) == Violation(Side, n) <==>
      !HasClass(item, "left") && !HasClass(item, "right")
  {
    ItemSteps(item, n);
  }

  /** An item with no child or with several children fails the one-card rule
      and no card rule is evaluated, so it never throws. */
  lemma OneCardRule(item: Node, n: nat)
    requires IsTagWithClass(item, "li", "item")
    requires HasClass(item, "left") || HasClass(item, "right")
    requires |item.children| != 1
    ensures ItemOutcome(item, n) == Violation(OneCard, n)
  {
    ItemSteps(item, n);
  }

  /** The class each part of a card must carry, by position. */
  function PartClass(p: nat): (c: string) {
    if p == 1 then "media" else "content"
  }

  /** The rule checking each part of a card, by position. */
  function PartRule(p: nat): (r: Rule) {
    if p == 0 then CardHeader else if p == 1 then CardMedia else CardDescription
  }

  /** An item throws exactly when its card passes every check up to a part
      the card does not have; the crash names that part. */
  lemma ItemCrash(item: Node, n: nat)
    ensures ItemOutcome(item, n).Crash? <==>
      IsTagWithClass(item, "li", "item") && (HasClass(item, "left") || HasClass(item, "right")) &&
      |item.children| == 1 && IsTagWithClass(item.children[0], "div", "card") &&
      |item.children[0].children| < 3 &&
      forall p :: 0 <= p < |item.children[0].children| ==>
        IsTagWithClass(item.children[0].children[p], "div", PartClass(p))
    ensures ItemOutcome(item, n).Crash? ==>
      ItemOutcome(item, n) == Crash(PartRule(|item.children[0].children|), n)
  {
    ItemSteps(item, n);
    if |item.children| == 1 {
      var parts := item.children[0].children;
      if |parts| >= 1 && !IsTagWithClass(parts[0], "div", "content") {
        assert !IsTagWithClass(parts[0], "div", PartClass(0));
      }
      if |parts| >= 2 && !IsTagWithClass(parts[1], "div", "media") {
        assert !IsTagWithClass(parts[1], "div", PartClass(1));
      }
      if |parts| >= 3 && !IsTagWithClass(parts[2], "div", "content") {
        assert !IsTagWithClass(parts[2], "div", PartClass(2));
      }
    }
  }

  // ---------------------------------------------------------------------------
  // Only the inspected parts of the tree matter

  /** `n` with `extra` appended to its children. */
  function WithExtraChildren(n: Node, extra: seq<Node>): (r: Node) {
    Node(n.tag, n.classes, n.children + extra)
  }

  /** Item `m` of section `s`'s list, with `extra` appended to its card's children.
      The section keeps everything else. */
  function WithExtraCardChildren(s: Node, m: nat, extra: seq<Node>): (r: Node)
    requires |s.children| >= 3 && m < |s.children[2].children|
    requires |s.children[2].children[m].children| >= 1
  {
    var list := s.children[2];
    var item := list.children[m];
    var item' := Node(item.tag, item.classes, item.children[0 := WithExtraChildren(item.children[0], extra)]);
    Node(s.tag, s.classes, s.children[2 := Node(list.tag, list.classes, list.children[m := item'])])
  }

  lemma {:induction false} ItemsCongruent(a: seq<Node>, b: seq<Node>, k: nat)
    requires |a| == |b|
    requires forall p :: k <= p < |a| ==> ItemOutcome(a[p], p + 1) == ItemOutcome(b[p], p + 1)
    ensures ItemsOutcome(a, k) == ItemsOutcome(b, k)
    decreases |a| - k
  {
    if k < |a| {
      // Naming the two outcomes at `k` keeps the solver from unfolding them
      // further; without these lines the proof costs about nine times as much.
      var oa, ob := ItemOutcome(a[k], k + 1), ItemOutcome(b[k], k + 1);
      assert oa == ob;
      ItemsCongruent(a, b, k + 1);
    }
  }

  lemma {:induction false} TimelineCongruent(a: seq<Node>, b: seq<Node>)
    requires |a| == |b|
    requires forall i :: 0 <= i < |a| ==> SectionOutcome(a[i]) == SectionOutcome(b[i])
    ensures TimelineOutcome(a) == TimelineOutcome(b)
  {
    if a != [] {
      assert forall i :: 0 <= i < |a| - 1 ==> a[1..][i] == a[i + 1] && b[1..][i] == b[i + 1];
      TimelineCongruent(a[1..], b[1..]);
    }
  }

  /** Children after the third child of a section are never inspected. */
  lemma SectionExtraChildrenIgnored(sections: seq<Node>, i: nat, extra: seq<Node>)
    requires i < |sections| && |sections[i].children| >= 3
    ensures TimelineOutcome(sections[i := WithExtraChildren(sections[i], extra)]) == TimelineOutcome(sections)
  {
    var s := sections[i];
    var s' := WithExtraChildren(s, extra);
    SectionSteps(s);
    SectionSteps(s');
    TimelineCongruent(sections[i := s'], sections);
  }

  /** Appending to a card that has its three parts leaves its item's outcome. */
  lemma ItemCardPadding(item: Node, n: nat, extra: seq<Node>)
    requires |item.children| >= 1 && |item.children[0].children| >= 3
    ensures ItemOutcome(Node(item.tag, item.classes, item.children[0 := WithExtraChildren(item.children[0], extra)]), n)
      == ItemOutcome(item, n)
  {
    var item' := Node(item.tag, item.classes, item.children[0 := WithExtraChildren(item.children[0], extra)]);
    var card, card' := item.children[0], item'.children[0];
    assert card'.children[0] == card.children[0] && card'.children[1] == card.children[1] &&
      card'.children[2] == card.children[2];
    ItemSteps(item, n);
    ItemSteps(item', n);
  }

  /** Children after the third child of a card are never inspected. */
  lemma CardExtraChildrenIgnored(sections: seq<Node>, i: nat, m: nat, extra: seq<Node>)
    requires i < |sections| && |sections[i].children| >= 3
    requires m < |sections[i].children[2].children|
    requires |sections[i].children[2].children[m].children| >= 1
    requires |sections[i].children[2].children[m].children[0].children| >= 3
    ensures TimelineOutcome(sections[i := WithExtraCardChildren(sections[i], m, extra)]) == TimelineOutcome(sections)
  {
    var s := sections[i];
    var s' := WithExtraCardChildren(s, m, extra);
    var items := s.children[2].children;
    var items' := s'.children[2].children;
    ItemCardPadding(items[m], m + 1, extra);
    assert forall p :: 0 <= p < |items| && p != m ==> items'[p] == items[p];
    ItemsCongruent(items', items, 0);
    SectionSteps(s);
    SectionSteps(s');
    TimelineCongruent(sections[i := s'], sections);
  }

  // ---------------------------------------------------------------------------
  // Letter case of tag names is ignored

  lemma SectionRulesUpToCase(r: Rule, x: Node, y: Node)
    requires r in {Heading, Image, TimelineList, NonEmptyList}
    requires SameUpToCase(x, y)
    ensures Passes(r, x) <==> Passes(r, y)
  {
    if |x.children| >= 3 {
      assert SameUpToCase(x.children[0], y.children[0]);
      assert SameUpToCase(x.children[1], y.children[1]);
      assert SameUpToCase(x.children[2], y.children[2]);
    }
  }

  lemma CardPartUpToCase(r: Rule, x: Node, y: Node, p: nat)
    requires (r, p) in {(CardHeader, 0), (CardMedia, 1), (CardDescription, 2)}
    requires SameUpToCase(x, y)
    ensures Passes(r, x) <==> Passes(r, y)
  {
    if |x.children| >= 1 {
      var c, d := x.children[0], y.children[0];
      assert SameUpToCase(c, d);
      if p < |c.children| {
        assert SameUpToCase(c.children[p], d.children[p]);
      }
    }
  }

  lemma PassesUpToCase(r: Rule, x: Node, y: Node)
    requires SameUpToCase(x, y)
    ensures Passes(r, x) <==> Passes(r, y)
  {
    match r
    case SectionTag | ItemTag | Side | OneCard =>
    case Heading | Image | TimelineList | NonEmptyList =>
      SectionRulesUpToCase(r, x, y);
    case CardTag =>
      if |x.children| >= 1 {
        assert SameUpToCase(x.children[0], y.children[0]);
      }
    case CardHeader => CardPartUpToCase(r, x, y, 0);
    case CardMedia => CardPartUpToCase(r, x, y, 1);
    case CardDescription => CardPartUpToCase(r, x, y, 2);
  }

  lemma BlameUpToCase(rules: seq<Rule>, x: Node, y: Node, no: nat)
    requires SameUpToCase(x, y)
    ensures Blame(rules, x, no) == Blame(rules, y, no)
  {
    forall r | r in rules ensures Passes(r, x) <==> Passes(r, y) {
      PassesUpToCase(r, x, y);
    }
    FirstFailingIs(rules, y, FirstFailing(rules, x, 0));
    var j := FirstFailing(rules, x, 0);
    if j < |rules| {
      assert Reachable(rules[j], x) <==> Reachable(rules[j], y);
    }
  }

  lemma ListUpToCase(xs: seq<Node>, ys: seq<Node>)
    requires |xs| == |ys|
    requires forall p :: 0 <= p < |xs| ==> SameUpToCase(xs[p], ys[p])
    ensures ItemsOutcome(xs, 0) == ItemsOutcome(ys, 0)
  {
    forall p | 0 <= p < |xs| ensures ItemOutcome(xs[p], p + 1) == ItemOutcome(ys[p], p + 1) {
      BlameUpToCase(ItemOrder, xs[p], ys[p], p + 1);
    }
    ItemsCongruent(xs, ys, 0);
  }

  lemma SectionUpToCase(s: Node, t: Node)
    requires SameUpToCase(s, t)
    ensures SectionOutcome(s) == SectionOutcome(t)
  {
    BlameUpToCase(SectionOrder, s, t, 0);
    if |s.children| >= 3 {
      assert SameUpToCase(s.children[2], t.children[2]);
    }
    ListUpToCase(Items(s), Items(t));
  }

  /** Two trees that differ only in the letter case of tag names give the
      same outcome. */
  lemma CaseIgnored(a: seq<Node>, b: seq<Node>)
    requires |a| == |b|
    requires forall i :: 0 <= i < |a| ==> SameUpToCase(a[i], b[i])
    ensures TimelineOutcome(a) == TimelineOutcome(b)
  {
    forall i | 0 <= i < |a| ensures SectionOutcome(a[i]) == SectionOutcome(b[i]) {
      SectionUpToCase(a[i], b[i]);
    }
    TimelineCongruent(a, b);
  }
}
