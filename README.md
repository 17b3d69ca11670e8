# Source-range provenance for swift-markdown nodes, in Dafny

This project models an extension to the swift-markdown document model. The
extension does three things:

- It adds a range-taking constructor to twelve standard node kinds: `Text`,
  `SoftBreak`, `InlineCode`, `Strong`, `Emphasis`, `Strikethrough`, `Link`,
  `Paragraph`, `Heading`, `ListItem`, `BlockQuote` and `Document`. Each node
  records the source range it was parsed from.
- It adds two inline container kinds, `Highlight` and `EscapedCharacter`. Each
  has a validating raw initialiser, three public initialisers, a plain-text
  projection and visitor dispatch.
- It resolves a node's range from an optional start marker and an optional end
  marker. When both are missing, a container falls back to the range its
  children cover.

## Layout

- `base.dfy` (`Base`): `Option` for Swift's optionals and `Result` for `throws`.
- `source_ranges.dfy` (`SourceRanges`): `SourceLocation` (line, then column),
  `SourceRange` (a half-open range whose lower bound is not above its upper
  bound, as Swift's `..<` requires), and `MarkerRange`, the marker policy.
  Constructors pass `None` as the fallback for `Text` and the children's combined
  range for the two containers.
- `raw_markup.dfy` (`RawMarkup`): the raw cell. A `RawNode` has a `Kind` tag, a
  `Payload`, an optional range and its children in order. This module also holds
  the children-range fold and the plain-text projection.
- `identity.dfy` (`Identity`): `RootIdAllocator`, the counter behind `newRoot()`.
  Each identifier it hands out differs from all earlier ones.
- `typed_markup.dfy` (`TypedMarkup`): the typed wrapper. A `Markup` is a raw node
  plus `(rootId, indexInParent)` metadata. This module has the subset types
  `InlineMarkup`, `RecurringInlineMarkup`, `BlockMarkup`, `Highlight` and
  `EscapedCharacter`, tag checking
  (`Wrap`, `InitFromRaw`), `try!` (`ForceWrap`), `children.map { $0.raw.markup }`
  (`RawChildren`) and the typed child view (`Children`).
- `visitors.dfy` (`Visitors`): a `Visitor` class. It holds mutable state, a
  required `defaultVisit`, and an optional override for each of
  `visitHighlight` and `visitEscapedCharacter`.
- `custom_ext.dfy` (`CustomExt`), `highlight.dfy` (`Highlights`) and
  `escaped_character.dfy` (`EscapedCharacters`): one module per source file.

Each Swift initialiser that calls `newRoot()` is modelled as a function that
takes the identifier as its `rootId` parameter. `RootIdAllocator.NewRoot` is
where a fresh one comes from. `Highlights.Init` and `EscapedCharacters.Init`
model the raw initialiser together with its allocation. They allocate an
identifier only after the tag check passes.

Two points where the model follows the code:

- `Highlight` and `EscapedCharacter` are inline containers with children.
- The marker-based `Text` initialiser has no fallback: with neither marker its
  range is absent.

## Model

| member | source | states |
|---|---|---|
| `SourceRanges.Le` | Sources/Markdown/Custom/CustomExt.swift:21 | The location order that `..<` relies on. On different lines, `Le` holds exactly when the first line is earlier. On the same line, it holds exactly when the first column is not later. Every location is `Le` itself. |
| `SourceRanges.LeIsTotalOrder` | Sources/Markdown/Custom/CustomExt.swift:21 | `Le` is reflexive, antisymmetric, transitive and total. |
| `SourceRanges.MarkerRange` | Sources/Markdown/Custom/CustomExt.swift:19-29 | With both markers, the range runs from the start marker's lower bound to the end marker's upper bound. With one marker, the range is exactly that marker's range. With neither, it is the fallback. Requires start.lower <= end.upper when both are present, as `..<` does. |
| `SourceRanges.MarkerRangePresence` | Sources/Markdown/Custom/Highlight.swift:46-57 | The resolved range exists exactly when a start marker, an end marker or a fallback range exists. |
| `SourceRanges.MarkerRangeCoversMarkers` | Sources/Markdown/Custom/EscapedCharacter.swift:44-55 | If the markers are in document order, the resolved range contains both markers. It starts where the start marker starts and ends where the end marker ends. |
| `SourceRanges.MarkerRangeIgnoresFallback` | Sources/Markdown/Custom/Highlight.swift:46-55 | When either marker is present, the children's range has no influence on the result. |
| `RawMarkup.ChildrenRange` | Sources/Markdown/Custom/Highlight.swift:55 | `rawChildren.parsedRange`, in its assumed reading. It is absent exactly when no child has a range. Otherwise it contains every child's range. |
| `RawMarkup.ChildrenRangeTight` | Sources/Markdown/Custom/EscapedCharacter.swift:53 | The combined range starts at some child's start and ends at some child's end. |
| `RawMarkup.ChildrenRangeExample` | Sources/Markdown/Custom/Highlight.swift:55 | Children at 1:2..<1:4 and 1:4..<1:6, plus one child with no range, combine to 1:2..<1:6. |
| `RawMarkup.ChildrenPlainText` | Sources/Markdown/Custom/Highlight.swift:66-68 | The one-pass projection behind `plainText`. Children that are not inline contribute nothing, so a sequence with no inline child projects to the empty string. |
| `RawMarkup.InlineChildren` | Sources/Markdown/Custom/Highlight.swift:66-67 | The `as? InlineMarkup` filter. Every kept child is inline, the result is no longer than the input, and an all-inline sequence is kept whole. |
| `RawMarkup.InlineChildrenMembers` | Sources/Markdown/Custom/EscapedCharacter.swift:64-65 | The filter keeps exactly the inline children. Nothing that is not a child enters, and no inline child is lost. |
| `RawMarkup.Joined` | Sources/Markdown/Custom/Highlight.swift:68 | `joined()`. The result starts with the first part, and a sequence of empty parts joins to the empty string. |
| `RawMarkup.JoinedContainsParts` | Sources/Markdown/Custom/EscapedCharacter.swift:66 | Every part occurs, whole, somewhere in the joined string. |
| `RawMarkup.PlainText` | Sources/Markdown/Custom/Highlight.swift:67 | The assumed plain text of one inline child. `Text` gives its string, `InlineCode` its code between backticks and `SoftBreak` a space. A container with no inline children gives the empty string. |
| `RawMarkup.InlineContainerPlainText` | Sources/Markdown/Custom/EscapedCharacter.swift:64-66 | An inline container projects to the plain texts of its inline children, joined in order. |
| `RawMarkup.PlainTexts` | Sources/Markdown/Custom/Highlight.swift:66-67 | The `.plainText` map inside the `compactMap`: one string per inline node, in the same order. |
| `RawMarkup.JoinedAppend` | Sources/Markdown/Custom/Highlight.swift:68 | `joined()` of two concatenated sequences is the concatenation of their joins. |
| `RawMarkup.ChildrenPlainTextIsJoined` | Sources/Markdown/Custom/Highlight.swift:66-68 | The one-pass projection equals `compactMap` over the inline children's plain text, followed by `joined()`. |
| `RawMarkup.ChildrenPlainTextAppend` | Sources/Markdown/Custom/EscapedCharacter.swift:64-66 | The projection of concatenated children is the concatenation of their projections. |
| `RawMarkup.ChildrenPlainTextSkipsBlocks` | Sources/Markdown/Custom/EscapedCharacter.swift:64-65 | Removing a child that is not inline leaves the projection unchanged. |
| `RawMarkup.AllInlinePlainText` | Sources/Markdown/Custom/Highlight.swift:66-68 | When every child is inline, the projection is each child's plain text, joined in order. |
| `Identity.RootIdAllocator.NewRoot` | Sources/Markdown/Custom/Highlight.swift:17 | `.newRoot()` returns an identifier that was never issued before and records it as issued. |
| `TypedMarkup.Wrap` | Sources/Markdown/Custom/Highlight.swift:13-19 | Throws exactly when the raw tag is not the expected kind. Otherwise it wraps the raw node unchanged, with `indexInParent == 0` and the given root identifier. |
| `TypedMarkup.InitFromRaw` | Sources/Markdown/Custom/EscapedCharacter.swift:11-17 | Throws exactly on a tag mismatch, and then allocates nothing. On success it keeps the raw node, sets `indexInParent == 0` and uses a newly issued root identifier. |
| `TypedMarkup.ForceWrap` | Sources/Markdown/Custom/CustomExt.swift:13 | `try! init(raw)` with a matching tag returns the raw node wrapped as a new root. It never traps. |
| `TypedMarkup.RawChildren` | Sources/Markdown/Custom/CustomExt.swift:58 | `map { $0.raw.markup }` keeps the number of children and their order. |
| `TypedMarkup.Children` | Sources/Markdown/Custom/Highlight.swift:66 | The typed children expose exactly the raw children. Each child is in the same tree, with its own index as `indexInParent`. |
| `TypedMarkup.ChildrenRoundTrip` | Sources/Markdown/Custom/CustomExt.swift:57-60 | Extracting the children of a built node gives children with the same raw cells. Rebuilding from them satisfies the same construction contract. |
| `CustomExt.MakeText` | Sources/Markdown/Custom/CustomExt.swift:12-14 | Builds tag `text` with the string as payload, the range verbatim and no children. |
| `CustomExt.MakeTextFromMarkers` | Sources/Markdown/Custom/CustomExt.swift:16-33 | The range follows the marker policy with no fallback. It is absent exactly when both markers are absent. |
| `CustomExt.MakeSoftBreak` | Sources/Markdown/Custom/CustomExt.swift:39-41 | Builds tag `softBreak` with the range verbatim. |
| `CustomExt.MakeInlineCode` | Sources/Markdown/Custom/CustomExt.swift:48-50 | Builds tag `inlineCode` with the code unchanged and the range verbatim. |
| `CustomExt.MakeStrong` | Sources/Markdown/Custom/CustomExt.swift:57-60 | Builds tag `strong` with the range verbatim and the children's raw cells in order. |
| `CustomExt.MakeEmphasis` | Sources/Markdown/Custom/CustomExt.swift:66-69 | Builds tag `emphasis` with the range verbatim and the children in order. |
| `CustomExt.MakeStrikethrough` | Sources/Markdown/Custom/CustomExt.swift:75-78 | Builds tag `strikethrough` with the range verbatim and the children in order. |
| `CustomExt.NonEmptyOrAbsent` | Sources/Markdown/Custom/CustomExt.swift:86-97 | Absent exactly when the input is absent or empty. Otherwise the input is kept unchanged. |
| `CustomExt.NonEmptyOrAbsentIdempotent` | Sources/Markdown/Custom/CustomExt.swift:86-97 | Applying the normalisation twice gives the same result as applying it once. |
| `CustomExt.MakeLink` | Sources/Markdown/Custom/CustomExt.swift:84-100 | Builds tag `link` with the normalised destination and title, the range verbatim and the `RecurringInlineMarkup` children in order. The destination is absent exactly when it was absent or empty. The same holds for the title. |
| `CustomExt.LinkChildrenAreNotLinks` | Sources/Markdown/Custom/CustomExt.swift:84 | A link's children are inline and never links, as the `RecurringInlineMarkup` element type demands. |
| `CustomExt.MakeParagraph` | Sources/Markdown/Custom/CustomExt.swift:106-109 | Builds tag `paragraph` with the range verbatim and the children in order. |
| `CustomExt.MakeHeading` | Sources/Markdown/Custom/CustomExt.swift:115-117 | Builds tag `heading` with the level unchanged, the range verbatim and the children in order. |
| `CustomExt.MakeListItem` | Sources/Markdown/Custom/CustomExt.swift:125-127 | Builds tag `listItem` with the checkbox unchanged, the range verbatim and the block children in order. |
| `CustomExt.MakeBlockQuote` | Sources/Markdown/Custom/CustomExt.swift:133-136 | Builds tag `blockQuote` with the range verbatim and the children in order. |
| `CustomExt.MakeDocument` | Sources/Markdown/Custom/CustomExt.swift:143-146 | Builds tag `document` with the range verbatim and the children in order. |
| `CustomExt.StrongRoundTrip` | Sources/Markdown/Custom/CustomExt.swift:57-60 | A `Strong` node's children are inline. Rebuilding the node from them with the same range and identifier gives the same node. |
| `CustomExt.DocumentRoundTrip` | Sources/Markdown/Custom/CustomExt.swift:143-146 | A `Document` node's children are block markup. Rebuilding the node from them gives the same node. |
| `Highlights.Init` | Sources/Markdown/Custom/Highlight.swift:13-19 | Throws exactly when the tag is not `highlight`, and then takes no identifier. On success it keeps the raw node, sets `indexInParent == 0` and uses a fresh root identifier. |
| `Highlights.MakeHighlight` | Sources/Markdown/Custom/Highlight.swift:30-32 | Same as not inheriting: tag `highlight`, no range, children in order. |
| `Highlights.MakeHighlightInheriting` | Sources/Markdown/Custom/Highlight.swift:34-38 | The range is the children's combined range when inheriting, and absent otherwise. Children are kept in order. |
| `Highlights.MakeHighlightFromMarkers` | Sources/Markdown/Custom/Highlight.swift:40-61 | The range follows the marker policy with the children's range as fallback. With neither marker, the node equals the inheriting one. |
| `Highlights.PlainText` | Sources/Markdown/Custom/Highlight.swift:65-70 | The plain text of the inline children, joined in order. Other children are skipped. |
| `Highlights.PlainTextOfChildren` | Sources/Markdown/Custom/Highlight.swift:65-70 | A highlight built from inline children projects to their plain texts joined in order. Projection distributes over concatenation of children. |
| `Highlights.Accept` | Sources/Markdown/Custom/Highlight.swift:73-75 | Calls the visitor's `visitHighlight` once. That is the visitor's own method if it has one, and `defaultVisit` if not. |
| `Visitors.Visitor.DefaultVisit` | Sources/Markdown/Custom/Highlight.swift:83 | The result and the new visitor state are `defaultVisit` applied to the old state and the node. |
| `Visitors.Visitor.VisitHighlight` | Sources/Markdown/Custom/Highlight.swift:82-84 | Without an override, the result and the new visitor state are those of `defaultVisit`. |
| `Visitors.Visitor.VisitEscapedCharacter` | Sources/Markdown/Custom/EscapedCharacter.swift:80-82 | Without an override, the result and the new visitor state are those of `defaultVisit`. |
| `EscapedCharacters.Init` | Sources/Markdown/Custom/EscapedCharacter.swift:11-17 | Throws exactly when the tag is not `escapedCharacter`, and then takes no identifier. On success it keeps the raw node, sets `indexInParent == 0` and uses a fresh root identifier. |
| `EscapedCharacters.MakeEscapedCharacter` | Sources/Markdown/Custom/EscapedCharacter.swift:28-30 | Same as not inheriting: tag `escapedCharacter`, no range, children in order. |
| `EscapedCharacters.MakeEscapedCharacterInheriting` | Sources/Markdown/Custom/EscapedCharacter.swift:32-36 | The range is the children's combined range when inheriting, and absent otherwise. Children are kept in order. |
| `EscapedCharacters.MakeEscapedCharacterFromMarkers` | Sources/Markdown/Custom/EscapedCharacter.swift:38-59 | The range follows the marker policy with the children's range as fallback. With neither marker, the node equals the inheriting one. |
| `EscapedCharacters.PlainText` | Sources/Markdown/Custom/EscapedCharacter.swift:63-68 | The plain text of the inline children, joined in order. Other children are skipped. |
| `EscapedCharacters.PlainTextOfChildren` | Sources/Markdown/Custom/EscapedCharacter.swift:63-68 | An escaped character built from inline children projects to their plain texts joined in order. Projection distributes over concatenation. |
| `EscapedCharacters.Accept` | Sources/Markdown/Custom/EscapedCharacter.swift:71-73 | Calls the visitor's `visitEscapedCharacter` once. That is the visitor's own method if it has one, and `defaultVisit` if not. |

## Left out

- RawMarkup.ChildrenRange: `parsedRange` on a sequence of raw children is library code and is not part of this model. It is given the lowest-start, highest-end reading over the children that carry a range. That reading is assumed, not checked against an implementation. An implementation that spans from the first child's start to the last child's end would differ when the first or last child has no range. For children `[ranged, unranged]`, that reading gives no range, while this model gives the first child's range. The no-marker fallback of `Highlights.MakeHighlightFromMarkers` and `EscapedCharacters.MakeEscapedCharacterFromMarkers` inherits this choice.
- RawMarkup.PlainText: the plain text of the other kinds comes from library code that is not part of this model. For `Text`, `InlineCode` and `SoftBreak` the model assumes the string, the code between backticks, and a single space. For `Strong`, `Emphasis`, `Strikethrough` and `Link` it assumes the same rule as `Highlight`: the inline children's plain text, joined in order. `Highlight.plainText` depends on these readings through its children. For `Link` the library may instead render Markdown link syntax with the destination (`[text](destination)`). In that case a `Highlight` or `EscapedCharacter` with a link child would have different plain text from the one `RawMarkup.InlineContainerPlainText` states.
- Highlights.Accept: the override branch assumes that the `MarkupVisitor` protocol declares `visitHighlight` as a requirement. That declaration is not part of this model. Without it, Swift's generic `accept` calls the extension's default, so the result is always `defaultVisit`'s. That is the `highlightOverride.None?` case of the contract.
- EscapedCharacters.Accept: the same assumption for `visitEscapedCharacter`. Without the protocol requirement, the result is always `defaultVisit`'s.
- CustomExt.MakeLink and CustomExt.MakeListItem: Swift's default arguments (`destination: nil`, `title: nil`, `checkbox: .none`) are not modelled. Callers pass `None`, which behaves the same.
- Identity.RootIdAllocator.NewRoot: the counter's atomic increment and its thread safety are not modelled, because they are concurrency. The counter is an unbounded `nat`, so a 64-bit overflow of `UInt64` is not modelled either.
- The `init(_ raw:)` of the twelve standard kinds is library code. It is modelled by the generic `TypedMarkup.Wrap` and `TypedMarkup.InitFromRaw`, which follow the shape shown for `Highlight` and `EscapedCharacter`.
- TypedMarkup.Wrap: the error records only the raw node it was given. The `to:` type it names (`Strong.self` in both extension files) is not modelled.
- The raw cell stores one `Payload` next to the tag, not Swift's enum with a payload per case. Only the constructors here guarantee that each kind gets its matching payload.
- `SourceLocation` keeps line and column. Its source-file URL is not modelled because nothing in the core reads it.
- `MarkupIdentifier`'s child identifier is not modelled. Identity is the root identifier plus `indexInParent`.
- `RawMarkup`'s copy-on-write sharing of subtrees is not modelled. Values here are immutable Dafny datatypes.
- The visitor protocol has many other kind-specific methods in the library. Only `visitHighlight`, `visitEscapedCharacter` and `defaultVisit` are modelled. A visitor's associated `Result` type becomes the type parameter `R`.
- Markdown grammar, tokenising, rendering and I/O are not part of this code.
