/** The `EscapedCharacter` inline container: its initialisers, plain text and visitor dispatch. */
module EscapedCharacters {
  import opened Base
  import opened SourceRanges
  import opened RawMarkup
  import opened Identity
  import opened TypedMarkup
  import opened Visitors

  /** `init(_ raw:)`: throws unless the raw tag is `escapedCharacter`; on success the node is a new root. */
  method Init(raw: RawNode, ids: RootIdAllocator) returns (r: Result<EscapedCharacter, ConversionError>)
    requires ids.Valid()
    modifies ids
    ensures ids.Valid()
    ensures r.Failure? <==> raw.kind != Kind.EscapedCharacter
    ensures r.Failure? ==> ids.next == old(ids.next) && ids.issued == old(ids.issued)
    ensures r.Success? ==> r.value.raw == raw && r.value.metadata.indexInParent == 0
    ensures r.Success? ==> r.value.metadata.rootId !in old(ids.issued)
                           && ids.issued == old(ids.issued) + {r.value.metadata.rootId}
  {
    var res := InitFromRaw(raw, Kind.EscapedCharacter, ids);
    match res
    case Failure(e) => r := Failure(e);
    case Success(m) => r := Success(m);
  }

  /**
   * `init(children, inheritSourceRange:)`: the range is the children's combined
   * range when inheriting, absent otherwise.
   */
  function MakeEscapedCharacterInheriting(children: seq<InlineMarkup>, inheritSourceRange: bool,
                                   rootId: nat): (e: EscapedCharacter)
    ensures Built(e, Kind.EscapedCharacter, NoPayload,
                  if inheritSourceRange then ChildrenRange(RawChildren(children)) else None,
                  children, rootId)
  {
    var rawChildren := RawChildren(children);
    var parsedRange := if inheritSourceRange then ChildrenRange(rawChildren) else None;
    ForceWrap(RawNode(Kind.EscapedCharacter, NoPayload, parsedRange, rawChildren), Kind.EscapedCharacter, rootId)
  }

  /** `init(children)`: the same as not inheriting, so the range is absent. */
  function MakeEscapedCharacter(children: seq<InlineMarkup>, rootId: nat): (e: EscapedCharacter)
    ensures Built(e, Kind.EscapedCharacter, NoPayload, None, children, rootId)
  {
    MakeEscapedCharacterInheriting(children, false, rootId)
  }

  /**
   * `init(children, startRange:, endRange:)`: the marker policy, falling back to the
   * children's combined range when neither marker is present.
   */
  function MakeEscapedCharacterFromMarkers(children: seq<InlineMarkup>, startRange: Option<SourceRange>,
                                    endRange: Option<SourceRange>, rootId: nat): (e: EscapedCharacter)
    requires MarkersOrdered(startRange, endRange)
    ensures Built(e, Kind.EscapedCharacter, NoPayload,
                  MarkerRange(startRange, endRange, ChildrenRange(RawChildren(children))),
                  children, rootId)
    ensures startRange.None? && endRange.None? ==>
      e == MakeEscapedCharacterInheriting(children, true, rootId)
  {
    var rawChildren := RawChildren(children);
    var parsedRange := MarkerRange(startRange, endRange, ChildrenRange(rawChildren));
    ForceWrap(RawNode(Kind.EscapedCharacter, NoPayload, parsedRange, rawChildren), Kind.EscapedCharacter, rootId)
  }

  /**
   * `plainText`: the plain text of the inline children, in order, joined; children
   * that are not inline are skipped.
   */
  function PlainText(e: EscapedCharacter): (s: string)
    ensures s == Joined(PlainTexts(InlineChildren(RawChildren(Children(e)))))
  {
    ChildrenPlainTextIsJoined(e.raw.children);
    ChildrenPlainText(e.raw.children)
  }

  /**
   * An escaped character built from inline children projects to their plain text joined in
   * order, and the projection of a concatenation of children is the concatenation.
   */
  lemma PlainTextOfChildren(a: seq<InlineMarkup>, b: seq<InlineMarkup>, rootId: nat)
    ensures PlainText(MakeEscapedCharacter(a, rootId)) == Joined(PlainTexts(RawChildren(a)))
    ensures PlainText(MakeEscapedCharacter(a + b, rootId))
         == PlainText(MakeEscapedCharacter(a, rootId)) + PlainText(MakeEscapedCharacter(b, rootId))
  {
    assert MakeEscapedCharacter(a, rootId).raw.children == RawChildren(a);
    assert MakeEscapedCharacter(b, rootId).raw.children == RawChildren(b);
    assert MakeEscapedCharacter(a + b, rootId).raw.children == RawChildren(a) + RawChildren(b);
    AllInlinePlainText(RawChildren(a));
    ChildrenPlainTextAppend(RawChildren(a), RawChildren(b));
  }

  /** `accept(_:)`: one call of the visitor's `visitEscapedCharacter` on this node. */
  method Accept<S, R>(e: EscapedCharacter, visitor: Visitor<S, R>) returns (r: R)
    modifies visitor
    ensures visitor.escapedCharacterOverride.Some? ==>
      (visitor.state, r) == visitor.escapedCharacterOverride.value(old(visitor.state), e)
    ensures visitor.escapedCharacterOverride.None? ==>
      (visitor.state, r) == visitor.defaultVisit(old(visitor.state), e)
  {
    r := visitor.VisitEscapedCharacter(e);
  }
}
