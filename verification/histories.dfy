/** The in-memory store both drivers own: an identifier mapped to its history of readings. */
module Histories {
  import opened Wrappers

  /** `None` is a broken slot (a Go `nil` slice), distinct from the empty history `Some([])`.
      A key that is absent is an identifier the store does not know. */
  type Store<T> = map<nat, Option<seq<T>>>

  /** `after` is `before` with `x` appended to the history of `id`; every other slot, and the
      key set, are exactly as they were. */
  ghost predicate AppendedAt<T>(before: Store<T>, after: Store<T>, id: nat, x: T)
  {
    && after.Keys == before.Keys
    && id in before
    && before[id].Some?
    && after[id] == Some(before[id].value + [x])
    && forall k :: k in before && k != id ==> after[k] == before[k]
  }

  /** Append-only evolution: the same identifiers, broken slots stay broken, and every
      history of `before` is a prefix of the matching history of `after`. */
  ghost predicate Extends<T>(before: Store<T>, after: Store<T>)
  {
    && after.Keys == before.Keys
    && forall k :: k in before ==>
         (before[k].None? ==> after[k].None?) &&
         (before[k].Some? ==> after[k].Some? && before[k].value <= after[k].value)
  }
}
