/**
 * Range-taking constructors for the standard node kinds. Each builds the raw
 * cell for its kind from the given payload, range and children and wraps it as
 * the root of a new tree; `rootId` is the identifier `newRoot()` hands out.
 */
module CustomExt {
  import opened Base
  import opened SourceRanges
  import opened RawMarkup
  import opened TypedMarkup

  /** `Text(literalText, range:)`. */
  function MakeText(literalText: string, range: Option<SourceRange>, rootId: nat): (t: InlineMarkup)
    ensures Built(t, Kind.Text, Literal(literalText), range, [], rootId)
  {
    ForceWrap(RawNode(Kind.Text, Literal(literalText), range, []), Kind.Text, rootId)
  }

  /**
   * `Text(literalText, startRange:, endRange:)`: the marker policy with no
   * fallback, since a text node has no children to take a range from.
   */
  function MakeTextFromMarkers(literalText: string, startRange: Option<SourceRange>,
                               endRange: Option<SourceRange>, rootId: nat): (t: InlineMarkup)
    requires MarkersOrdered(startRange, endRange)
    ensures Built(t, Kind.Text, Literal(literalText), MarkerRange(startRange, endRange, None), [], rootId)
    ensures t.raw.parsedRange.None? <==> startRange.None? && endRange.None?
  {
    MakeText(literalText, MarkerRange(startRange, endRange, None), rootId)
  }

  /** `SoftBreak(range:)`. */
  function MakeSoftBreak(range: Option<SourceRange>, rootId: nat): (b: InlineMarkup)
    ensures Built(b, Kind.SoftBreak, NoPayload, range, [], rootId)
  {
    ForceWrap(RawNode(Kind.SoftBreak, NoPayload, range, []), Kind.SoftBreak, rootId)
  }

  /** `InlineCode(code, range:)`. */
  function MakeInlineCode(code: string, range: Option<SourceRange>, rootId: nat): (c: InlineMarkup)
    ensures Built(c, Kind.InlineCode, Literal(code), range, [], rootId)
  {
    ForceWrap(RawNode(Kind.InlineCode, Literal(code), range, []), Kind.InlineCode, rootId)
  }

  /** `Strong(children, range:)`. */
  function MakeStrong(children: seq<InlineMarkup>, range: Option<SourceRange>, rootId: nat): (s: InlineMarkup)
    ensures Built(s, Kind.Strong, NoPayload, range, children, rootId)
  {
    ForceWrap(RawNode(Kind.Strong, NoPayload, range, RawChildren(children)), Kind.Strong, rootId)
  }

  /** `Emphasis(children, range:)`. */
  function MakeEmphasis(children: seq<InlineMarkup>, range: Option<SourceRange>, rootId: nat): (e: InlineMarkup)
    ensures Built(e, Kind.Emphasis, NoPayload, range, children, rootId)
  {
    ForceWrap(RawNode(Kind.Emphasis, NoPayload, range, RawChildren(children)), Kind.Emphasis, rootId)
  }

  /** `Strikethrough(children, range:)`. */
  function MakeStrikethrough(children: seq<InlineMarkup>, range: Option<SourceRange>, rootId: nat): (s: InlineMarkup)
    ensures Built(s, Kind.Strikethrough, NoPayload, range, children, rootId)
  {
    ForceWrap(RawNode(Kind.Strikethrough, NoPayload, range, RawChildren(children)), Kind.Strikethrough, rootId)
  }

  /** An empty string is stored as absent; an absent or non-empty string is kept. */
  function NonEmptyOrAbsent(s: Option<string>): (r: Option<string>)
    ensures r.None? <==> s.None? || s.value == ""
    ensures r.Some? ==> r == s
  {
    if s.Some? && s.value == "" then None else s
  }

  /** Normalising twice is normalising once. */
  lemma NonEmptyOrAbsentIdempotent(s: Option<string>)
    ensures NonEmptyOrAbsent(NonEmptyOrAbsent(s)) == NonEmptyOrAbsent(s)
  {
  }

  /**
   * `Link(destination:, title:, children, range:)`, with empty destination and title
   * dropped. The children are `RecurringInlineMarkup`, so a link cannot hold a link.
   */
  function MakeLink(destination: Option<string>, title: Option<string>, children: seq<RecurringInlineMarkup>,
                    range: Option<SourceRange>, rootId: nat): (l: InlineMarkup)
    ensures Built(l, Kind.Link, LinkTarget(NonEmptyOrAbsent(destination), NonEmptyOrAbsent(title)),
                  range, children, rootId)
    ensures l.raw.payload.destination.None? <==> destination.None? || destination == Some("")
    ensures l.raw.payload.title.None? <==> title.None? || title == Some("")
  {
    var destinationToUse := NonEmptyOrAbsent(destination);
    var titleToUse := NonEmptyOrAbsent(title);
    ForceWrap(RawNode(Kind.Link, LinkTarget(destinationToUse, titleToUse), range, RawChildren(children)),
              Kind.Link, rootId)
  }

  /** A link's children are never links: its element type rules out nesting. */
  lemma LinkChildrenAreNotLinks(destination: Option<string>, title: Option<string>,
                                children: seq<RecurringInlineMarkup>, range: Option<SourceRange>, rootId: nat)
    ensures var l := MakeLink(destination, title, children, range, rootId);
      forall i :: 0 <= i < |l.raw.children| ==>
        l.raw.children[i].kind.IsInline() && l.raw.children[i].kind != Kind.Link
  {
  }

  /** `Paragraph(children, range:)`. */
  function MakeParagraph(children: seq<InlineMarkup>, range: Option<SourceRange>, rootId: nat): (p: BlockMarkup)
    ensures Built(p, Kind.Paragraph, NoPayload, range, children, rootId)
  {
    ForceWrap(RawNode(Kind.Paragraph, NoPayload, range, RawChildren(children)), Kind.Paragraph, rootId)
  }

  /** `Heading(level:, children, range:)`: the level is stored as given, unchecked. */
  function MakeHeading(level: int, children: seq<InlineMarkup>, range: Option<SourceRange>, rootId: nat): (h: BlockMarkup)
    ensures Built(h, Kind.Heading, HeadingLevel(level), range, children, rootId)
  {
    ForceWrap(RawNode(Kind.Heading, HeadingLevel(level), range, RawChildren(children)), Kind.Heading, rootId)
  }

  /** `ListItem(checkbox:, children, range:)`. */
  function MakeListItem(checkbox: Option<Checkbox>, children: seq<BlockMarkup>, range: Option<SourceRange>,
                        rootId: nat): (li: BlockMarkup)
    ensures Built(li, Kind.ListItem, ListItemCheckbox(checkbox), range, children, rootId)
  {
    ForceWrap(RawNode(Kind.ListItem, ListItemCheckbox(checkbox), range, RawChildren(children)), Kind.ListItem, rootId)
  }

  /** `BlockQuote(children, range:)`. */
  function MakeBlockQuote(children: seq<BlockMarkup>, range: Option<SourceRange>, rootId: nat): (q: BlockMarkup)
    ensures Built(q, Kind.BlockQuote, NoPayload, range, children, rootId)
  {
    ForceWrap(RawNode(Kind.BlockQuote, NoPayload, range, RawChildren(children)), Kind.BlockQuote, rootId)
  }

  /** `Document(children, range:)`. */
  function MakeDocument(children: seq<BlockMarkup>, range: Option<SourceRange>, rootId: nat): (d: BlockMarkup)
    ensures Built(d, Kind.Document, NoPayload, range, children, rootId)
  {
    ForceWrap(RawNode(Kind.Document, NoPayload, range, RawChildren(children)), Kind.Document, rootId)
  }

  /**
   * Rebuilding a `Strong` node from the children it exposes, with the same range
   * and identifier, gives back the same node.
   */
  lemma StrongRoundTrip(children: seq<InlineMarkup>, range: Option<SourceRange>, rootId: nat)
    ensures var s := MakeStrong(children, range, rootId);
      (forall i :: 0 <= i < |Children(s)| ==> Children(s)[i].raw.kind.IsInline())
      && MakeStrong(Children(s), range, rootId) == s
  {
  }

  /** The same for a `Document`, whose children are block markup. */
  lemma DocumentRoundTrip(children: seq<BlockMarkup>, range: Option<SourceRange>, rootId: nat)
    ensures var d := MakeDocument(children, range, rootId);
      (forall i :: 0 <= i < |Children(d)| ==> !Children(d)[i].raw.kind.IsInline())
      && MakeDocument(Children(d), range, rootId) == d
  {
  }
}
