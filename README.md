# amp-timeline structural validator, modelled in Dafny

The `amp-timeline` component does one thing. In its build step it reads the
element's children once and checks them against a fixed nesting schema, and it
stops at the first mismatch:

- every top-level child is a `<section>`;
- a section holds an `h1.heading`, then an `amp-img`, then a `ul.timeline` with
  at least one item;
- every item is an `li.item` with class `left` or `right` (or both), and has
  exactly one child, a `div.card`;
- the card's first three children are `div.content`, `div.media` and
  `div.content`.

Tag names are compared lower-cased. Class names are matched exactly.

The model is organised as follows.

- `dom.dfy` (module `Dom`): an element is a value. It has a tag, a set of class
  tokens and a sequence of element children. This module also defines
  `toLowerCase` and the tag and class tests.
- `schema.dfy` (module `Schema`): the schema as two ordered rule tables,
  `SectionOrder` and `ItemOrder`. `Reachable` says whether a rule can be
  evaluated without reading a missing child. `Holds` is the rule's condition.
  The reference outcome (`TimelineOutcome`) is the first rule, in checking
  order, that does not pass. The schema is also written out declaratively
  (`WellFormed…`), without the tables.
- `timeline.dfy` (module `Timeline`): the build step itself. `Validate` holds
  the source's loop over sections, with early exit. `CheckSection` is the
  per-section callback, `CheckItems` its loop over the items and `CheckItem`
  the per-item callback. The class `AmpTimeline` has the `sections_` field and
  `BuildCallback`. `Validate`, `CheckSection`, `CheckItems` and `CheckItem`
  are proved equal to the reference outcome.
- `properties.dfy` (module `Properties`): what the pass guarantees. It accepts
  exactly the well-formed trees. It reports the first failing rule. Item numbers
  are in range. It ignores a section's and a card's children after the third,
  and the letter case of tags.
- `examples.dfy` (module `Examples`): the minimal valid document, and single
  changes to it.

The outcome of a pass is `Ok`, `Violation(rule, itemNo)` or `Crash(rule, itemNo)`.

- `Violation` is a failed assertion. `itemNo` is the 1-based item number the
  message prints. It is 0 for a section-level rule.
- `Crash` is the TypeError the source raises when it reads a child that does
  not exist. `rule` names the check that could not run. This happens in two
  places. First, for a section with fewer than three children: `list.children`
  is read before the heading check. Second, for a card with fewer parts than
  the check being evaluated: `card.children[k]` is only `undefined`, and the
  throw comes at `.tagName`. So a one-part card whose header is wrong reports
  the header violation, not a crash.

Two consequences of the code are worth stating on their own:

- The code inspects only a card's first three children and ignores any after
  them.
- A missing child makes the code throw a TypeError rather than fail an
  assertion, in the cases above.

## Model

| member | source | states |
|---|---|---|
| `Timeline.Validate` | extensions/amp-timeline/0.1/amp-timeline.js:40-141 | the nested section/item loops with early exit return exactly the reference outcome: the first failing rule in checking order |
| `Timeline.CheckSection` | extensions/amp-timeline/0.1/amp-timeline.js:41-139 | the per-section callback returns the reference outcome for that section: its own checks in source order, then its items |
| `Timeline.CheckItems` | extensions/amp-timeline/0.1/amp-timeline.js:83-138 | the loop over a list's items, with early exit, returns the reference outcome of the list, item `k` numbered `k+1` |
| `Timeline.CheckItem` | extensions/amp-timeline/0.1/amp-timeline.js:83-137 | the per-item callback returns the reference outcome for that item, numbered `index+1` |
| `Timeline.AmpTimeline.BuildCallback` | extensions/amp-timeline/0.1/amp-timeline.js:37-41 | the build step sets `sections_` to the element's real children, leaves them unchanged, and returns the validation outcome |
| `Schema.SectionSteps` | extensions/amp-timeline/0.1/amp-timeline.js:41-80 | the section rule table, read back, is the source's order: tag, then a throw if the third child is missing, then heading, image, list, non-empty list, then the items |
| `Schema.ItemSteps` | extensions/amp-timeline/0.1/amp-timeline.js:84-137 | the item rule table, read back, is the source's order: li.item, left/right, one child, div.card, then header, media, description, each throwing if that card part is missing |
| `Properties.BlameReportsFirstFailure` | extensions/amp-timeline/0.1/amp-timeline.js:43-137 | checking a rule table reports rule `r` if and only if `r` is its first failing rule; it reports a crash exactly when that rule reads a missing element |
| `Properties.ItemOkIff` | extensions/amp-timeline/0.1/amp-timeline.js:86-137 | an item passes its checks if and only if it matches the declarative item schema |
| `Properties.ItemsOkIff` | extensions/amp-timeline/0.1/amp-timeline.js:83-138 | a list passes from item `k` on if and only if every item from `k` on matches the schema |
| `Properties.SectionOkIff` | extensions/amp-timeline/0.1/amp-timeline.js:41-139 | a section passes if and only if it matches the declarative section schema |
| `Properties.TimelineOkIff` | extensions/amp-timeline/0.1/amp-timeline.js:40-141 | the pass succeeds if and only if every top-level child matches the schema; an element with no children is accepted |
| `Properties.FirstBadItemReported` | extensions/amp-timeline/0.1/amp-timeline.js:83-138 | if the items before `m` are well-formed and item `m` is not, the list reports what item `m` reports, numbered `m+1` |
| `Properties.ItemFailureLocated` | extensions/amp-timeline/0.1/amp-timeline.js:83-138 | a failing list fails at its first item `m` that is not well-formed, and reports what that item reports, numbered `m+1` |
| `Properties.FirstBadSectionReported` | extensions/amp-timeline/0.1/amp-timeline.js:41-140 | if the sections before `i` are well-formed and section `i` is not, the pass fails with what section `i` reports |
| `Properties.SectionFailureLocated` | extensions/amp-timeline/0.1/amp-timeline.js:41-140 | a failing pass fails at its first section that is not well-formed |
| `Properties.BlameOk` | extensions/amp-timeline/0.1/amp-timeline.js:43-137 | checking a rule table succeeds if and only if every rule of the table passes |
| `Properties.ItemReports` | extensions/amp-timeline/0.1/amp-timeline.js:86-137 | what one item reports carries that item's number and its first failing rule |
| `Properties.OwnRulesPass` | extensions/amp-timeline/0.1/amp-timeline.js:41-83 | once a section's own checks pass, its outcome is the outcome of its list |
| `Properties.ListReportLocated` | extensions/amp-timeline/0.1/amp-timeline.js:83-138 | a list that reports `(r, n)` has at least `n` items, items `1..n-1` are well-formed, and `r` is the first failing rule of item `n` |
| `Properties.ListFailureReported` | extensions/amp-timeline/0.1/amp-timeline.js:83-138 | conversely, if items `1..n-1` are well-formed and `r` is the first failing rule of item `n`, the list reports `(r, n)` |
| `Properties.SectionReportsFirstFailure` | extensions/amp-timeline/0.1/amp-timeline.js:43-137 | a section reports `(r, n)` if and only if `r` is its first failing section rule and `n = 0`, or all section rules pass, items `1..n-1` are well-formed and `r` is the first failing rule of item `n` |
| `Properties.TimelineReportsFirstFailure` | extensions/amp-timeline/0.1/amp-timeline.js:41-140 | the pass reports `(r, n)` if and only if the first section that is not well-formed fails first at `(r, n)` |
| `Properties.SectionItemNumber` | extensions/amp-timeline/0.1/amp-timeline.js:83-137 | a section's report with number 0 names a section rule; with a number of 1 or more it names an item rule, and the number is at most the section's item count |
| `Properties.ItemNumberInRange` | extensions/amp-timeline/0.1/amp-timeline.js:83-137 | a reported item number of 0 comes with a section rule; a number of 1 or more comes with an item rule and is within the item count of the failing section, the first one that is not well-formed |
| `Properties.NonSectionReported` | extensions/amp-timeline/0.1/amp-timeline.js:43-47 | a top-level child whose lower-cased tag is not `section`, after valid sections, gives the section-tag violation |
| `Properties.SectionCrash` | extensions/amp-timeline/0.1/amp-timeline.js:48-52 | a section-level crash happens if and only if the section tag is right and the section has fewer than three children; it comes before the heading check |
| `Properties.EmptyListReported` | extensions/amp-timeline/0.1/amp-timeline.js:76-80 | a section whose list is empty always fails at a section-level rule, with no item rule reached, and fails at the non-empty rule once the earlier four checks pass |
| `Properties.SideRule` | extensions/amp-timeline/0.1/amp-timeline.js:93-98 | for an `li.item`, the side violation is raised if and only if it has neither `left` nor `right` |
| `Properties.OneCardRule` | extensions/amp-timeline/0.1/amp-timeline.js:100-112 | an item with zero or several children fails the one-child rule before any card check, so it never throws |
| `Properties.ItemCrash` | extensions/amp-timeline/0.1/amp-timeline.js:114-137 | an item throws if and only if everything up to a missing card part passes; the crash names that part |
| `Properties.SectionExtraChildrenIgnored` | extensions/amp-timeline/0.1/amp-timeline.js:48-51 | appending children after a section's third child never changes the outcome |
| `Properties.ItemCardPadding` | extensions/amp-timeline/0.1/amp-timeline.js:114-116 | appending children after a card's third child never changes what its item reports |
| `Properties.CardExtraChildrenIgnored` | extensions/amp-timeline/0.1/amp-timeline.js:114-116 | appending children after a card's third child never changes the outcome |
| `Properties.PassesUpToCase` | extensions/amp-timeline/0.1/amp-timeline.js:43-137 | each rule passes on two elements alike that differ only in tag letter case |
| `Properties.BlameUpToCase` | extensions/amp-timeline/0.1/amp-timeline.js:43-137 | checking a rule table gives the same outcome on two elements that differ only in tag letter case |
| `Properties.SectionUpToCase` | extensions/amp-timeline/0.1/amp-timeline.js:41-139 | a section and its copy with differently cased tags give the same outcome, items included |
| `Properties.CaseIgnored` | extensions/amp-timeline/0.1/amp-timeline.js:43-137 | trees that differ only in the letter case of tag names give the same outcome |
| `Timeline.AmpTimeline.IsLayoutSupported` | extensions/amp-timeline/0.1/amp-timeline.js:32-34 | stub with no contract: the layout test is the host's `isLayoutSizeDefined`, taken as a parameter |
| `Examples.MinimalDocumentValid` | extensions/amp-timeline/0.1/amp-timeline.js:40-141 | one section with a heading, an image and a list of one left item with a three-part card is accepted |
| `Examples.UpperCaseTagsAccepted` | extensions/amp-timeline/0.1/amp-timeline.js:44-44 | the same document with upper-case tag names is accepted |
| `Examples.ClassNamesAreCaseSensitive` | extensions/amp-timeline/0.1/amp-timeline.js:55-60 | class `Heading` does not satisfy the heading rule |
| `Examples.BothSidesAccepted` | extensions/amp-timeline/0.1/amp-timeline.js:93-98 | an item with both `left` and `right` is accepted |
| `Examples.MissingSideReported` | extensions/amp-timeline/0.1/amp-timeline.js:93-98 | a second item without a side class is reported as the side violation of item 2 |
| `Examples.SwappedCardPartsReported` | extensions/amp-timeline/0.1/amp-timeline.js:118-123 | a card whose media comes first fails the header rule |
| `Examples.EmptyListExample` | extensions/amp-timeline/0.1/amp-timeline.js:76-80 | a list without items gives the non-empty-list violation |
| `Examples.ShortSectionCrashes` | extensions/amp-timeline/0.1/amp-timeline.js:48-52 | a section without its third child throws before the heading check |
| `Examples.ShortCardCrashes` | extensions/amp-timeline/0.1/amp-timeline.js:114-130 | a card with only its header throws when its media is checked |

## Left out

- Host-framework plumbing: the `AMP.BaseElement` base class, `AMP.registerElement` and the CSS import are not modelled.
- `getRealChildren()` is a host call. Its result is the constructor argument `realChildren`, a plain sequence of elements. Live `NodeList`/`HTMLCollection` behaviour is not modelled.
- `isLayoutSupported` delegates to `isLayoutSizeDefined`, which is not part of this model. `AmpTimeline.IsLayoutSupported` takes that predicate as a parameter and has no contract.
- The `assert` utility is modelled only as the outcome it produces. Its exception, the `%s` message formatting, the documentation links and the element cited in "Found in" are not modelled. A violation is a rule plus an item number.
- The text of the TypeError raised for a missing child is not modelled. Only the rule that could not run is recorded.
- `toLowerCase` is modelled on ASCII letters only. Just two non-ASCII characters lower-case into ASCII letters. The Kelvin sign becomes `k`, which none of the checked tag names (`section`, `h1`, `amp-img`, `ul`, `li`, `div`) contains. The dotted capital I becomes two characters, `i` and a combining dot. So the tag comparisons come out the same.
- `Outcome` does not record which section failed. The section-tag message cites the offending child and the other messages cite the whole element; both are left out together with the element cited in "Found in".
