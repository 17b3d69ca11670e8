/**
 * The raw tree cell every typed node wraps: a kind tag, the kind's payload,
 * an optional source range and the children in document order.
 */
module RawMarkup {
  import opened Base
  import opened SourceRanges

  /** The state of a task-list item's checkbox. */
  datatype Checkbox = Checked | Unchecked

  /** The node kinds of this model; each typed wrapper accepts exactly one. */
  datatype Kind =
    | Text | SoftBreak | InlineCode | Strong | Emphasis | Strikethrough | Link
    | Paragraph | Heading | ListItem | BlockQuote | Document
    | EscapedCharacter | Highlight
  {
    /** The kinds whose typed wrapper conforms to `InlineMarkup`; the rest are block markup. */
    predicate IsInline() {
      !(Paragraph? || Heading? || ListItem? || BlockQuote? || Document?)
    }

    /**
     * The inline kinds whose wrapper conforms to `RecurringInlineMarkup`, the
     * element type of a link's children: every inline kind except `Link` itself.
     */
    predicate IsRecurringInline() {
      IsInline() && !Link?
    }

    /** The inline kinds whose plain text leaves out their children. */
    predicate IsInlineLeaf() {
      Text? || InlineCode? || SoftBreak?
    }
  }

  /** Kind-specific fields stored alongside the tag. */
  datatype Payload =
    | NoPayload
    | Literal(text: string)
    | LinkTarget(destination: Option<string>, title: Option<string>)
    | HeadingLevel(level: int)
    | ListItemCheckbox(checkbox: Option<Checkbox>)

  datatype RawNode = RawNode(kind: Kind, payload: Payload, parsedRange: Option<SourceRange>,
                             children: seq<RawNode>)

  /** Some child carries a range. */
  predicate AnyRanged(children: seq<RawNode>) {
    exists i :: 0 <= i < |children| && children[i].parsedRange.Some?
  }

  /**
   * The combined range of a sequence of children, folded left to right: the
   * lowest start and the highest end over the children that carry a range,
   * absent when none does.
   */
  function ChildrenRange(children: seq<RawNode>): (r: Option<SourceRange>)
    ensures r.Some? <==> AnyRanged(children)
    ensures r.Some? ==> forall i :: 0 <= i < |children| && children[i].parsedRange.Some? ==>
      Contains(r.value, children[i].parsedRange.value)
    decreases |children|
  {
    if children == [] then None
    else
      var prefix := children[..|children| - 1];
      var last := children[|children| - 1];
      var acc := ChildrenRange(prefix);
      assert forall i :: 0 <= i < |prefix| ==> prefix[i] == children[i];
      match last.parsedRange
      case None => acc
      case Some(childRange) =>
        match acc
        case None => Some(childRange)
        case Some(current) => Some(Widened(current, childRange))
  }

  /**
   * The combined range is tight: its start is some child's start and its end is
   * some child's end.
   */
  lemma {:induction false} ChildrenRangeTight(children: seq<RawNode>)
    requires AnyRanged(children)
    ensures exists i :: 0 <= i < |children| && children[i].parsedRange.Some? &&
                        children[i].parsedRange.value.lowerBound == ChildrenRange(children).value.lowerBound
    ensures exists j :: 0 <= j < |children| && children[j].parsedRange.Some? &&
                        children[j].parsedRange.value.upperBound == ChildrenRange(children).value.upperBound
  {
    var n := |children|;
    var prefix := children[..n - 1];
    var last := children[n - 1];
    assert forall i :: 0 <= i < |prefix| ==> prefix[i] == children[i];
    if AnyRanged(prefix) {
      ChildrenRangeTight(prefix);
      var acc := ChildrenRange(prefix).value;
      var i :| 0 <= i < |prefix| && prefix[i].parsedRange.Some? &&
        prefix[i].parsedRange.value.lowerBound == acc.lowerBound;
      var j :| 0 <= j < |prefix| && prefix[j].parsedRange.Some? &&
        prefix[j].parsedRange.value.upperBound == acc.upperBound;
      if last.parsedRange.Some? {
        var w := Widened(acc, last.parsedRange.value);
        if w.lowerBound == acc.lowerBound {
          assert children[i].parsedRange.value.lowerBound == w.lowerBound;
        } else {
          assert children[n - 1].parsedRange.value.lowerBound == w.lowerBound;
        }
        if w.upperBound == acc.upperBound {
          assert children[j].parsedRange.value.upperBound == w.upperBound;
        } else {
          assert children[n - 1].parsedRange.value.upperBound == w.upperBound;
        }
      } else {
        assert children[i].parsedRange.value.lowerBound == ChildrenRange(children).value.lowerBound;
        assert children[j].parsedRange.value.upperBound == ChildrenRange(children).value.upperBound;
      }
    } else {
      assert last.parsedRange.Some?;
      assert ChildrenRange(children) == last.parsedRange;
      assert children[n - 1].parsedRange.value.lowerBound == ChildrenRange(children).value.lowerBound;
    }
  }

  /** Children spanning 1:2..<1:4 and 1:4..<1:6, and a child with no range, combine to 1:2..<1:6. */
  lemma ChildrenRangeExample()
    ensures ChildrenRange([
      RawNode(Kind.Text, Literal("a"), Some(Bounds(SourceLocation(1, 2), SourceLocation(1, 4))), []),
      RawNode(Kind.SoftBreak, NoPayload, None, []),
      RawNode(Kind.Text, Literal("b"), Some(Bounds(SourceLocation(1, 4), SourceLocation(1, 6))), [])])
      == Some(Bounds(SourceLocation(1, 2), SourceLocation(1, 6)))
  {
  }

  /** The plain text of every child that is inline, in order, skipping the others. */
  function ChildrenPlainText(children: seq<RawNode>): (s: string)
    ensures (forall i :: 0 <= i < |children| ==> !children[i].kind.IsInline()) ==> s == ""
  {
    if children == [] then ""
    else
      (if children[0].kind.IsInline() then PlainText(children[0]) else "")
      + ChildrenPlainText(children[1..])
  }

  /**
   * The plain-text projection of an inline node. Leaves give their literal
   * (`Text`: its string; `InlineCode`: the code between backticks; `SoftBreak`:
   * a space) and inline containers the plain text of their inline children.
   */
  function PlainText(n: RawNode): (s: string)
    requires n.kind.IsInline()
    ensures n.kind == Text && n.payload.Literal? ==> s == n.payload.text
    ensures n.kind == InlineCode && n.payload.Literal? ==> s == "`" + n.payload.text + "`"
    ensures n.kind == SoftBreak ==> s == " "
    ensures !n.kind.IsInlineLeaf() && (forall i :: 0 <= i < |n.children| ==> !n.children[i].kind.IsInline())
            ==> s == ""
  {
    if n.kind == Text then (if n.payload.Literal? then n.payload.text else "")
    else if n.kind == InlineCode then (if n.payload.Literal? then "`" + n.payload.text + "`" else "")
    else if n.kind == SoftBreak then " "
    else ChildrenPlainText(n.children)
  }

  /** The children that are inline markup, in order (`as? InlineMarkup` in a `compactMap`). */
  function InlineChildren(children: seq<RawNode>): (r: seq<RawNode>)
    ensures forall i :: 0 <= i < |r| ==> r[i].kind.IsInline()
    ensures |r| <= |children|
    ensures (forall i :: 0 <= i < |children| ==> children[i].kind.IsInline()) ==> r == children
  {
    if children == [] then []
    else (if children[0].kind.IsInline() then [children[0]] else []) + InlineChildren(children[1..])
  }

  /** The filter keeps exactly the inline children: nothing else enters and no inline child is lost. */
  lemma {:induction false} InlineChildrenMembers(children: seq<RawNode>)
    ensures forall x :: x in InlineChildren(children) ==> x in children && x.kind.IsInline()
    ensures forall i :: 0 <= i < |children| && children[i].kind.IsInline() ==>
      children[i] in InlineChildren(children)
  {
    if children != [] {
      InlineChildrenMembers(children[1..]);
      assert forall i :: 1 <= i < |children| ==> children[i] == children[1..][i - 1];
    }
  }

  /** The plain text of each of a sequence of inline nodes, in order. */
  function PlainTexts(nodes: seq<RawNode>): (r: seq<string>)
    requires forall i :: 0 <= i < |nodes| ==> nodes[i].kind.IsInline()
    ensures |r| == |nodes|
    ensures forall i :: 0 <= i < |nodes| ==> r[i] == PlainText(nodes[i])
  {
    seq(|nodes|, i requires 0 <= i < |nodes| => PlainText(nodes[i]))
  }

  /** `Array<String>.joined()`: the strings concatenated in order. */
  function Joined(parts: seq<string>): (s: string)
    ensures parts != [] ==> parts[0] <= s
    ensures (forall i :: 0 <= i < |parts| ==> parts[i] == "") ==> s == ""
  {
    if parts == [] then "" else parts[0] + Joined(parts[1..])
  }

  /** `part` occurs in `s` starting at position `p`. */
  predicate OccursAt(s: string, part: string, p: int) {
    0 <= p <= |s| - |part| && s[p..p + |part|] == part
  }

  /** Every part occurs, whole and in place, inside the joined string. */
  lemma {:induction false} JoinedContainsParts(parts: seq<string>, k: nat)
    requires k < |parts|
    ensures exists p :: OccursAt(Joined(parts), parts[k], p)
  {
    if k == 0 {
      assert OccursAt(Joined(parts), parts[0], 0);
    } else {
      JoinedContainsParts(parts[1..], k - 1);
      var rest := Joined(parts[1..]);
      var p :| OccursAt(rest, parts[k], p);
      var q := |parts[0]| + p;
      assert Joined(parts) == parts[0] + rest;
      assert Joined(parts)[q..q + |parts[k]|] == rest[p..p + |parts[k]|];
      assert OccursAt(Joined(parts), parts[k], q);
    }
  }

  lemma {:induction false} JoinedAppend(a: seq<string>, b: seq<string>)
    ensures Joined(a + b) == Joined(a) + Joined(b)
  {
    if a != [] {
      assert (a + b)[1..] == a[1..] + b;
      JoinedAppend(a[1..], b);
    } else {
      assert a + b == b;
    }
  }

  /**
   * The one-pass projection equals the source's two-stage form:
   * `compactMap { ($0 as? InlineMarkup)?.plainText }` followed by `joined()`.
   */
  lemma {:induction false} ChildrenPlainTextIsJoined(children: seq<RawNode>)
    ensures ChildrenPlainText(children) == Joined(PlainTexts(InlineChildren(children)))
  {
    if children != [] {
      ChildrenPlainTextIsJoined(children[1..]);
      var head := if children[0].kind.IsInline() then [children[0]] else [];
      var tail := InlineChildren(children[1..]);
      assert InlineChildren(children) == head + tail;
      assert PlainTexts(head + tail) == PlainTexts(head) + PlainTexts(tail);
      JoinedAppend(PlainTexts(head), PlainTexts(tail));
      if children[0].kind.IsInline() {
        assert Joined(PlainTexts(head)) == PlainText(children[0]) + Joined([]);
      } else {
        assert PlainTexts(head) == [];
      }
    }
  }

  /**
   * An inline container (every inline kind but the three leaves) projects to the
   * plain text of its inline children, joined in order.
   */
  lemma InlineContainerPlainText(n: RawNode)
    requires n.kind.IsInline() && !n.kind.IsInlineLeaf()
    ensures PlainText(n) == Joined(PlainTexts(InlineChildren(n.children)))
  {
    ChildrenPlainTextIsJoined(n.children);
  }

  /** The projection of a concatenation of children is the concatenation of the projections. */
  lemma {:induction false} ChildrenPlainTextAppend(a: seq<RawNode>, b: seq<RawNode>)
    ensures ChildrenPlainText(a + b) == ChildrenPlainText(a) + ChildrenPlainText(b)
  {
    if a == [] {
      assert a + b == b;
    } else {
      assert (a + b)[0] == a[0];
      assert (a + b)[1..] == a[1..] + b;
      ChildrenPlainTextAppend(a[1..], b);
    }
  }

  /** A child that is not inline contributes nothing: removing it leaves the projection unchanged. */
  lemma ChildrenPlainTextSkipsBlocks(children: seq<RawNode>, k: nat)
    requires k < |children| && !children[k].kind.IsInline()
    ensures ChildrenPlainText(children) == ChildrenPlainText(children[..k] + children[k + 1..])
  {
    var pre, post := children[..k], children[k + 1..];
    var tail := [children[k]] + post;
    assert children == pre + tail;
    ChildrenPlainTextAppend(pre, tail);
    assert ChildrenPlainText(tail) == ChildrenPlainText(post) by {
      assert tail[0] == children[k];
      assert tail[1..] == post;
    }
    ChildrenPlainTextAppend(pre, post);
  }

  /** When every child is inline the projection is the plain text of each child, joined in order. */
  lemma AllInlinePlainText(children: seq<RawNode>)
    requires forall i :: 0 <= i < |children| ==> children[i].kind.IsInline()
    ensures ChildrenPlainText(children) == Joined(PlainTexts(children))
  {
    InlineChildrenOfInline(children);
    ChildrenPlainTextIsJoined(children);
  }

  lemma {:induction false} InlineChildrenOfInline(children: seq<RawNode>)
    requires forall i :: 0 <= i < |children| ==> children[i].kind.IsInline()
    ensures InlineChildren(children) == children
  {
    if children != [] {
      InlineChildrenOfInline(children[1..]);
      assert [children[0]] + children[1..] == children;
    }
  }
}
