/** The part of the DOM the timeline validator looks at: an element's tag name,
    its class list and its element children, in document order. */
module Dom {

  /** An element. `classes` is its class list as a set of tokens, `children`
      its element children (what `element.children` yields). */
  datatype Node = Node(tag: string, classes: set<string>, children: seq<Node>)

  /** `String.prototype.toLowerCase` on one character, for the ASCII range. */
  function LowerChar(c: char): (r: char)
    ensures 'A' <= c <= 'Z' ==> r as int == c as int + 32
    ensures !('A' <= c <= 'Z') ==> r == c
    ensures !('A' <= r <= 'Z')
  {
    if 'A' <= c <= 'Z' then (c as int + 32) as char else c
  }

  /** `String.prototype.toLowerCase`, character by character. */
  function Lower(s: string): (r: string)
    ensures |r| == |s|
    ensures forall i :: 0 <= i < |s| ==> r[i] == LowerChar(s[i])
  {
    seq(|s|, i requires 0 <= i < |s| => LowerChar(s[i]))
  }

  /** `n.tagName.toLowerCase() == t`. */
  predicate TagIs(n: Node, t: string) {
    Lower(n.tag) == t
  }

  /** `n.classList.contains(c)`: an exact token match. */
  predicate HasClass(n: Node, c: string) {
    c in n.classes
  }

  /** The combined test the source writes for most positions:
      `n.tagName.toLowerCase() == t && n.classList.contains(c)`. */
  predicate IsTagWithClass(n: Node, t: string, c: string) {
    TagIs(n, t) && HasClass(n, c)
  }

  /** A string without upper-case letters is its own lower-case form. */
  lemma {:induction false} LowerOfLowerCase(s: string)
    requires forall i :: 0 <= i < |s| ==> !('A' <= s[i] <= 'Z')
    ensures Lower(s) == s
  {
  }

  /** `t` is the lower-case form of `s` when it is so character by character. */
  lemma {:induction false} LowerIs(s: string, t: string)
    requires |s| == |t| && forall i :: 0 <= i < |s| ==> LowerChar(s[i]) == t[i]
    ensures Lower(s) == t
  {
  }

  /** Two elements that the validator cannot tell apart: the same tag up to
      letter case, the same class list and, child by child, the same again. */
  ghost predicate SameUpToCase(a: Node, b: Node)
    decreases a
  {
    Lower(a.tag) == Lower(b.tag) && a.classes == b.classes &&
    |a.children| == |b.children| &&
    forall i :: 0 <= i < |a.children| ==> SameUpToCase(a.children[i], b.children[i])
  }
}
