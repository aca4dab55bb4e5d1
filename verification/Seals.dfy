/** Sealed predicates. Such a predicate quantifies over a key and is triggered by Open with a
    seal of its own: it is carried from state to state without the prover looking inside, until
    a lemma named ...Means or ...Is... mentions Open with that seal. */
module Seals {
  datatype Seal =
    | RunSeal
    | CacheSeal
    | StoreSeal
    | PassSeal
    | ServerSeal
    | StandsSeal
    | ProgressSeal
    | ClockSeal
    | MemoSeal
    | GainsSeal
    | LeavesSeal
    | TrackSeal
    | CountsSeal
    | TopSeal
    | ChoiceSeal
    | WalkSeal

  predicate Open(seal: Seal, key: int) { true }
}
