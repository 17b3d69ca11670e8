/**
 * The typed layer over raw nodes: a node value with its identity metadata,
 * validation of the kind tag, and the child view every container offers.
 */
module TypedMarkup {
  import opened Base
  import opened SourceRanges
  import opened RawMarkup
  import opened Identity

  /** Where a node sits: the identifier of its tree and its index among its siblings. */
  datatype Metadata = Metadata(rootId: nat, indexInParent: nat)

  /** A typed node: the raw cell it wraps and its identity metadata. */
  datatype Markup = Markup(raw: RawNode, metadata: Metadata)

  /** Nodes that conform to `InlineMarkup`. */
  type InlineMarkup = m: Markup | m.raw.kind.IsInline()
    witness Markup(RawNode(Kind.SoftBreak, NoPayload, None, []), Metadata(0, 0))

  /** Nodes that conform to `RecurringInlineMarkup`: inline markup other than a link. */
  type RecurringInlineMarkup = m: Markup | m.raw.kind.IsRecurringInline()
    witness Markup(RawNode(Kind.SoftBreak, NoPayload, None, []), Metadata(0, 0))

  /** Nodes that conform to `BlockMarkup`. */
  type BlockMarkup = m: Markup | !m.raw.kind.IsInline()
    witness Markup(RawNode(Kind.Paragraph, NoPayload, None, []), Metadata(0, 0))

  /** The `Highlight` wrapper: a node whose tag is `highlight`. */
  type Highlight = m: Markup | m.raw.kind == Kind.Highlight
    witness Markup(RawNode(Kind.Highlight, NoPayload, None, []), Metadata(0, 0))

  /** The `EscapedCharacter` wrapper: a node whose tag is `escapedCharacter`. */
  type EscapedCharacter = m: Markup | m.raw.kind == Kind.EscapedCharacter
    witness Markup(RawNode(Kind.EscapedCharacter, NoPayload, None, []), Metadata(0, 0))

  /** What `init(_ raw:)` throws when the raw tag is not the wrapper's kind. */
  datatype ConversionError = ConcreteConversionError(from: RawNode)

  /**
   * `init(_ raw:)` of the wrapper for `kind`, given the root identifier it obtains:
   * it throws exactly when the tag differs, and otherwise wraps the raw node
   * unchanged as the root of a new tree.
   */
  function Wrap(raw: RawNode, kind: Kind, rootId: nat): (r: Result<Markup, ConversionError>)
    ensures r.Failure? <==> raw.kind != kind
    ensures r.Failure? ==> r.error.from == raw
    ensures r.Success? ==> r.value.raw == raw && r.value.metadata == Metadata(rootId, 0)
  {
    if raw.kind != kind then Failure(ConcreteConversionError(raw))
    else Success(Markup(raw, Metadata(rootId, 0)))
  }

  /**
   * `init(_ raw:)` with the identifier allocation: the tag is checked first, and
   * only a raw node that passes consumes a fresh root identifier.
   */
  method InitFromRaw(raw: RawNode, kind: Kind, ids: RootIdAllocator)
    returns (r: Result<Markup, ConversionError>)
    requires ids.Valid()
    modifies ids
    ensures ids.Valid()
    ensures r.Failure? <==> raw.kind != kind
    ensures r.Failure? ==> r.error.from == raw && ids.next == old(ids.next) && ids.issued == old(ids.issued)
    ensures r.Success? ==> r.value.raw == raw && r.value.metadata.indexInParent == 0
    ensures r.Success? ==> r.value.metadata.rootId !in old(ids.issued)
                           && ids.issued == old(ids.issued) + {r.value.metadata.rootId}
  {
    if raw.kind != kind {
      return Failure(ConcreteConversionError(raw));
    }
    var rootId := ids.NewRoot();
    r := Wrap(raw, kind, rootId);
  }

  /**
   * `try! Self(raw)`: the trap that `try!` would raise is excluded, so callers
   * must pass a raw node that already carries the wrapper's tag.
   */
  function ForceWrap(raw: RawNode, kind: Kind, rootId: nat): (m: Markup)
    requires raw.kind == kind
    ensures m.raw == raw && m.metadata == Metadata(rootId, 0)
  {
    Wrap(raw, kind, rootId).value
  }

  /** Each child's raw cell, in order: `children.map { $0.raw.markup }`. */
  function RawChildren(children: seq<Markup>): (r: seq<RawNode>)
    ensures |r| == |children|
    ensures forall i :: 0 <= i < |children| ==> r[i] == children[i].raw
  {
    seq(|children|, i requires 0 <= i < |children| => children[i].raw)
  }

  /** The children of a node as typed nodes of the same tree, each knowing its index. */
  function Children(m: Markup): (cs: seq<Markup>)
    ensures RawChildren(cs) == m.raw.children
    ensures forall i :: 0 <= i < |cs| ==> cs[i].metadata == Metadata(m.metadata.rootId, i)
  {
    seq(|m.raw.children|, i requires 0 <= i < |m.raw.children| =>
      Markup(m.raw.children[i], Metadata(m.metadata.rootId, i)))
  }

  /**
   * `m` is the root of a new tree holding tag `kind`, `payload`, `range` verbatim
   * and the raw cells of `children`, in the same number and order.
   */
  predicate Built(m: Markup, kind: Kind, payload: Payload, range: Option<SourceRange>,
                  children: seq<Markup>, rootId: nat)
  {
    m.raw.kind == kind && m.raw.payload == payload && m.raw.parsedRange == range
    && |m.raw.children| == |children|
    && (forall i :: 0 <= i < |children| ==> m.raw.children[i] == children[i].raw)
    && m.metadata == Metadata(rootId, 0)
  }

  /**
   * Extracting the children of a built node and building again from them gives
   * the same raw cell; the extracted children keep the originals' kinds.
   */
  lemma ChildrenRoundTrip(m: Markup, kind: Kind, payload: Payload, range: Option<SourceRange>,
                          children: seq<Markup>, rootId: nat)
    requires Built(m, kind, payload, range, children, rootId)
    ensures |Children(m)| == |children|
    ensures forall i :: 0 <= i < |children| ==> Children(m)[i].raw == children[i].raw
    ensures Built(m, kind, payload, range, Children(m), rootId)
  {
  }
}
