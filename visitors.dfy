/**
 * The visitor protocol for the two extension kinds. A visitor carries its own
 * state, which each visit may change, a required fallback `defaultVisit`, and
 * optionally its own implementation of each kind-specific visit method.
 */
module Visitors {
  import opened Base
  import opened TypedMarkup

  class Visitor<S, R> {
    /** The visitor's mutable state (a `mutating` visit may change it). */
    var state: S
    /** The required fallback, applied to any node. */
    const defaultVisit: (S, Markup) -> (S, R)
    /** This visitor's own `visitHighlight`, if it implements one. */
    const highlightOverride: Option<(S, Highlight) -> (S, R)>
    /** This visitor's own `visitEscapedCharacter`, if it implements one. */
    const escapedCharacterOverride: Option<(S, EscapedCharacter) -> (S, R)>

    constructor (initial: S, defaultVisit: (S, Markup) -> (S, R),
                 highlightOverride: Option<(S, Highlight) -> (S, R)>,
                 escapedCharacterOverride: Option<(S, EscapedCharacter) -> (S, R)>)
      ensures state == initial && this.defaultVisit == defaultVisit
      ensures this.highlightOverride == highlightOverride
      ensures this.escapedCharacterOverride == escapedCharacterOverride
    {
      state := initial;
      this.defaultVisit := defaultVisit;
      this.highlightOverride := highlightOverride;
      this.escapedCharacterOverride := escapedCharacterOverride;
    }

    method DefaultVisit(m: Markup) returns (r: R)
      modifies this
      ensures (state, r) == defaultVisit(old(state), m)
    {
      var next := defaultVisit(state, m);
      state, r := next.0, next.1;
    }

    /** `visitHighlight`: the visitor's own method if it has one, else `defaultVisit`. */
    method VisitHighlight(h: Highlight) returns (r: R)
      modifies this
      ensures highlightOverride.Some? ==> (state, r) == highlightOverride.value(old(state), h)
      ensures highlightOverride.None? ==> (state, r) == defaultVisit(old(state), h)
    {
      if highlightOverride.Some? {
        var next := highlightOverride.value(state, h);
        state, r := next.0, next.1;
      } else {
        r := DefaultVisit(h);
      }
    }

    /** `visitEscapedCharacter`: the visitor's own method if it has one, else `defaultVisit`. */
    method VisitEscapedCharacter(e: EscapedCharacter) returns (r: R)
      modifies this
      ensures escapedCharacterOverride.Some? ==>
        (state, r) == escapedCharacterOverride.value(old(state), e)
      ensures escapedCharacterOverride.None? ==> (state, r) == defaultVisit(old(state), e)
    {
      if escapedCharacterOverride.Some? {
        var next := escapedCharacterOverride.value(state, e);
        state, r := next.0, next.1;
      } else {
        r := DefaultVisit(e);
      }
    }
  }
}
