/**
 * Vocabulary shared by every part of the clan-battle tracker: who plays,
 * which boss is meant, what can go wrong, and what gets announced.
 */
module Clan {

  /** A QQ account number; account numbers are positive, so "no member" is never 0. */
  type Member = m: int | 0 < m witness 1

  /** One of the five boss positions fought in order each cycle. */
  type Slot = k: int | 1 <= k <= 5 witness 1

  /** The business exceptions the tracker raises (GroupNotExist and UserNotInGroup are directory lookups, not modelled). */
  datatype Error = InputError | GroupError | UserError

  /** Best-effort chat messages the tracker fires and forgets. */
  datatype Notice =
    | Drained(slot: Slot, members: seq<Member>)   // "a fresh boss k has arrived" to its subscribers
    | TreeDown(slot: Slot, onTree: set<Member>)  // "you may come down from the tree"
}
