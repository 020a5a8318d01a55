/**
 * What the pages read from a presence channel: `channel.presenceState()`, an object from
 * presence keys to the list of metadata each key has tracked. It is given here as its keys
 * in `Object.keys` order; how the transport fills it is outside the model.
 */
module Presence {
  import opened Wrappers

  datatype PresenceEntry<M> = PresenceEntry(key: string, metas: seq<M>)

  type PresenceState<M> = seq<PresenceEntry<M>>

  /** `Object.keys(state).length > 0`, the staff console's per-customer online flag. */
  predicate IsOnline<M>(state: PresenceState<M>) {
    |state| > 0
  }

  /** `Object.keys(state).map(key => state[key][0])`: the dashboard's list of online staff. */
  function OnlineStaff<M>(state: PresenceState<M>): (r: seq<Option<M>>)
    ensures |r| == |state|
    ensures forall i :: 0 <= i < |state| ==>
      r[i] == (if state[i].metas == [] then None else Some(state[i].metas[0]))
  {
    if state == [] then []
    else [if state[0].metas == [] then None else Some(state[0].metas[0])] + OnlineStaff(state[1..])
  }
}
