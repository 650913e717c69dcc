/**
 * Target-switching hysteresis shared by the attacking and the defending
 * torpedo controllers: a locked contact is kept unless the best-ranked
 * contact beats it by more than a relative margin. The two controllers
 * differ only in the minimum lock count and the margin they pass in.
 */
module Hysteresis {
  import opened Common

  /** `(best - current) / max(current, 1)`, the relative gain of switching. */
  function ImprovementRatio(best: real, current: real): real
  {
    (best - current) / Max(current, 1.0)
  }

  /**
   * The keep condition both controllers apply: a contact is locked, it has
   * been locked for at least `minLock` ticks, a ranked contact carries the
   * locked identity, and the best score beats the first such contact's by
   * less than `threshold`.
   */
  ghost predicate Keeps(ranked: seq<Contact>, key: Contact -> real, current: Option<Id>,
                        lockCount: nat, minLock: nat, threshold: real)
    requires ranked != []
  {
    && current.Some? && lockCount >= minLock
    && var i := Locate(ranked, current.value);
       i < |ranked| && ImprovementRatio(key(ranked[0]), key(ranked[i])) < threshold
  }

  /**
   * Where in `ranked` the locked contact stands when hysteresis keeps it:
   * a contact is locked, it has been locked for at least `minLock` ticks, a
   * contact with the locked identity is ranked (the first such one is the
   * one considered), its score is non-zero, and the best score improves on
   * it by less than `threshold`. None when the lock is to be re-decided.
   */
  function KeptIndex(ranked: seq<Contact>, key: Contact -> real, current: Option<Id>,
                     lockCount: nat, minLock: nat, threshold: real): (k: Option<nat>)
    requires ranked != []
    ensures k.Some? ==> k.value < |ranked| && current == Some(ranked[k.value].id)
    ensures k.Some? ==> forall j :: 0 <= j < k.value ==> ranked[j].id != current.value
    ensures k.Some? ==> lockCount >= minLock
    ensures k.Some? <==> Keeps(ranked, key, current, lockCount, minLock, threshold)
                         && key(ranked[Locate(ranked, current.value)]) != 0.0
  {
    if current.Some? && lockCount >= minLock then
      var i := Locate(ranked, current.value);
      if i < |ranked| && key(ranked[i]) != 0.0
         && ImprovementRatio(key(ranked[0]), key(ranked[i])) < threshold
      then Some(i)
      else None
    else None
  }
}
