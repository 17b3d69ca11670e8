/** The `Highlight` inline container: its initialisers, plain text and visitor dispatch. */
module Highlights {
  import opened Base
  import opened SourceRanges
  import opened RawMarkup
  import opened Identity
  import opened TypedMarkup
  import opened Visitors

  /** `init(_ raw:)`: throws unless the raw tag is `highlight`; on success the node is a new root. */
  method Init(raw: RawNode, ids: RootIdAllocator) returns (r: Result<Highlight, ConversionError>)
    requires ids.Valid()
    modifies ids
    ensures ids.Valid()
    ensures r.Failure? <==> raw.kind != Kind.Highlight
    ensures r.Failure? ==> ids.next == old(ids.next) && ids.issued == old(ids.issued)
    ensures r.Success? ==> r.value.raw == raw && r.value.metadata.indexInParent == 0
    ensures r.Success? ==> r.value.metadata.rootId !in old(ids.issued)
                           && ids.issued == old(ids.issued) + {r.value.metadata.rootId}
  {
    var res := InitFromRaw(raw, Kind.Highlight, ids);
    match res
    case Failure(e) => r := Failure(e);
    case Success(m) => r := Success(m);
  }

  /**
   * `init(children, inheritSourceRange:)`: the range is the children's combined
   * range when inheriting, absent otherwise.
   */
  function MakeHighlightInheriting(children: seq<InlineMarkup>, inheritSourceRange: bool,
                                   rootId: nat): (h: Highlight)
    ensures Built(h, Kind.Highlight, NoPayload,
                  if inheritSourceRange then ChildrenRange(RawChildren(children)) else None,
                  children, rootId)
  {
    var rawChildren := RawChildren(children);
    var parsedRange := if inheritSourceRange then ChildrenRange(rawChildren) else None;
    ForceWrap(RawNode(Kind.Highlight, NoPayload, parsedRange, rawChildren), Kind.Highlight, rootId)
  }

  /** `init(children)`: the same as not inheriting, so the range is absent. */
  function MakeHighlight(children: seq<InlineMarkup>, rootId: nat): (h: Highlight)
    ensures Built(h, Kind.Highlight, NoPayload, None, children, rootId)
  {
    MakeHighlightInheriting(children, false, rootId)
  }

  /**
   * `init(children, startRange:, endRange:)`: the marker policy, falling back to the
   * children's combined range when neither marker is present.
   */
  function MakeHighlightFromMarkers(children: seq<InlineMarkup>, startRange: Option<SourceRange>,
                                    endRange: Option<SourceRange>, rootId: nat): (h: Highlight)
    requires MarkersOrdered(startRange, endRange)
    ensures Built(h, Kind.Highlight, NoPayload,
                  MarkerRange(startRange, endRange, ChildrenRange(RawChildren(children))),
                  children, rootId)
    ensures startRange.None? && endRange.None? ==>
      h == MakeHighlightInheriting(children, true, rootId)
  {
    var rawChildren := RawChildren(children);
    var parsedRange := MarkerRange(startRange, endRange, ChildrenRange(rawChildren));
    ForceWrap(RawNode(Kind.Highlight, NoPayload, parsedRange, rawChildren), Kind.Highlight, rootId)
  }

  /**
   * `plainText`: the plain text of the inline children, in order, joined; children
   * that are not inline are skipped.
   */
  function PlainText(h: Highlight): (s: string)
    ensures s == Joined(PlainTexts(InlineChildren(RawChildren(Children(h)))))
  {
    ChildrenPlainTextIsJoined(h.raw.children);
    ChildrenPlainText(h.raw.children)
  }

  /**
   * A highlight built from inline children projects to their plain text joined in
   * order, and the projection of a concatenation of children is the concatenation.
   */
  lemma PlainTextOfChildren(a: seq<InlineMarkup>, b: seq<InlineMarkup>, rootId: nat)
    ensures PlainText(MakeHighlight(a, rootId)) == Joined(PlainTexts(RawChildren(a)))
    ensures PlainText(MakeHighlight(a + b, rootId))
         == PlainText(MakeHighlight(a, rootId)) + PlainText(MakeHighlight(b, rootId))
  {
    assert MakeHighlight(a, rootId).raw.children == RawChildren(a);
    assert MakeHighlight(b, rootId).raw.children == RawChildren(b);
    assert MakeHighlight(a + b, rootId).raw.children == RawChildren(a) + RawChildren(b);
    AllInlinePlainText(RawChildren(a));
    ChildrenPlainTextAppend(RawChildren(a), RawChildren(b));
  }

  /** `accept(_:)`: one call of the visitor's `visitHighlight` on this node. */
  method Accept<S, R>(h: Highlight, visitor: Visitor<S, R>) returns (r: R)
    modifies visitor
    ensures visitor.highlightOverride.Some? ==>
      (visitor.state, r) == visitor.highlightOverride.value(old(visitor.state), h)
    ensures visitor.highlightOverride.None? ==>
      (visitor.state, r) == visitor.defaultVisit(old(visitor.state), h)
  {
    r := visitor.VisitHighlight(h);
  }
}
