/**
 * The defending torpedo's target selector. Each contact gets a score made of
 * a distance part, a movement part that rewards a surface ship's standard
 * speed of 3.0, and a persistence bonus for the contact currently locked;
 * the contacts are ranked by that score and the lock is kept unless the
 * best contact beats it by ten percent, once it has lasted three ticks.
 * A radar signature strength is also defined, though selection does not
 * use it.
 */
module DefenseTorpedo {
  import opened Common
  import Ranking
  import Hysteresis

  /** Lock cycles before hysteresis may keep a contact. */
  const MinLockCycles: nat := 3
  /** Relative improvement a rival needs to take the lock. */
  const SwitchThreshold: real := 0.1
  /** The speed every surface ship keeps. */
  const ShipStandardSpeed: real := 3.0
  /** The bonus the locked contact earns. */
  const PersistenceBonus: real := 30.0

  /** 30 points, less one per two units of range, never negative. */
  function DistanceScore(d: Distance): (r: real)
    ensures 0.0 <= r <= 30.0
    ensures d >= 60.0 ==> r == 0.0
  {
    Max(0.0, 30.0 - d * 0.5)
  }

  /** A nearer contact never scores lower on distance. */
  lemma DistanceScoreAntitone(d1: Distance, d2: Distance)
    requires d1 <= d2
    ensures DistanceScore(d1) >= DistanceScore(d2)
  {
  }

  /** Movement score by kind: a ship is rated by how close it keeps to the
      standard speed, a self-propelled decoy by whether it stands still or
      mimics a ship, a stationary decoy by whether it is still, and an
      unclassified contact loses three points per unit of speed. */
  function MovementScore(kind: Kind, v: Speed): (r: real)
    ensures 0.0 <= r <= 40.0
    ensures kind != Ship ==> r <= 25.0
    ensures kind == Ship ==> (r == 40.0 <== Abs(v - ShipStandardSpeed) < 0.1)
  {
    match kind
    case Ship =>
      var deviation := Abs(v - ShipStandardSpeed);
      if deviation < 0.1 then 40.0 else Max(0.0, 40.0 - deviation * 15.0)
    case SelfPropelledDecoy =>
      if v == 0.0 then 8.0
      else if Abs(v - ShipStandardSpeed) < 0.5 then 25.0
      else 20.0
    case StationaryDecoy => if v == 0.0 then 5.0 else 2.0
    case Unclassified => Max(0.0, 25.0 - v * 3.0)
  }

  /** A ship at the standard speed outscores, on movement, any contact of
      another kind at any speed and any ship that strays from that speed. */
  lemma MovementFavoursShip(v: Speed, k: Kind, w: Speed)
    requires Abs(v - ShipStandardSpeed) < 0.1
    requires k != Ship || Abs(w - ShipStandardSpeed) >= 0.1
    ensures MovementScore(Ship, v) == 40.0
    ensures MovementScore(k, w) < 40.0
  {
  }

  /** The signal strength of each kind at zero range. */
  function BaseSignature(kind: Kind): real
  {
    match kind
    case Ship => 25.0
    case SelfPropelledDecoy => 15.0
    case StationaryDecoy => 8.0
    case Unclassified => 12.0
  }

  /** Attenuation with range, never below 0.3. */
  function DistanceFactor(d: Distance): (r: real)
    ensures 0.3 <= r <= 1.0
  {
    assert 1.0 / (1.0 + d * 0.1) <= 1.0 by {
      ReciprocalAtMostOne(1.0 + d * 0.1);
    }
    Max(0.3, 1.0 / (1.0 + d * 0.1))
  }

  lemma ReciprocalAtMostOne(x: real)
    requires x >= 1.0
    ensures 0.0 < 1.0 / x <= 1.0
  {
  }

  /** The farther the contact, the weaker the factor. */
  lemma DistanceFactorAntitone(d1: Distance, d2: Distance)
    requires d1 <= d2
    ensures DistanceFactor(d1) >= DistanceFactor(d2)
  {
    var x1, x2 := 1.0 + d1 * 0.1, 1.0 + d2 * 0.1;
    assert 1.0 / x1 >= 1.0 / x2 by {
      ReciprocalAntitone(x1, x2);
    }
  }

  lemma ReciprocalAntitone(x1: real, x2: real)
    requires 0.0 < x1 <= x2
    ensures 1.0 / x1 >= 1.0 / x2
  {
    assert 1.0 / x1 - 1.0 / x2 == (x2 - x1) / (x1 * x2);
  }

  /** Signature strength: the kind's base strength, attenuated by range,
      capped at 30. */
  function SignatureStrength(kind: Kind, d: Distance): (r: real)
    ensures 0.0 <= r <= 30.0
    ensures r <= BaseSignature(kind)
    ensures r >= 0.3 * BaseSignature(kind)
  {
    Min(30.0, BaseSignature(kind) * DistanceFactor(d))
  }

  /** The parts of a contact's score, as the controller reports them. */
  datatype ScoreInfo = ScoreInfo(total: real, distance: real, movement: real,
                                 persistence: real, distanceRaw: Distance)

  /** calculate_target_score, with `current` the locked identity. */
  function TargetScore(c: Contact, current: Option<Id>): (r: ScoreInfo)
    ensures r.total == r.distance + r.movement + r.persistence
    ensures r.distanceRaw == c.range
    ensures 0.0 <= r.distance <= 30.0 && 0.0 <= r.movement <= 40.0
    ensures r.persistence == (if current == Some(c.id) then 30.0 else 0.0)
    ensures 0.0 <= r.total <= 100.0
  {
    var distance := DistanceScore(c.range);
    var movement := MovementScore(c.kind, c.speed);
    var persistence := if current == Some(c.id) then PersistenceBonus else 0.0;
    ScoreInfo(distance + movement + persistence, distance, movement, persistence, c.range)
  }

  /** Locking a contact raises its total by exactly the persistence bonus,
      whichever other contact (or none) was locked before. */
  lemma LockAddsBonus(c: Contact, other: Option<Id>)
    requires other != Some(c.id)
    ensures TargetScore(c, Some(c.id)).total == TargetScore(c, other).total + PersistenceBonus
  {
  }

  /** The ranking key: a contact's total score given the locked identity. */
  function ScoreKey(current: Option<Id>): Contact -> real
  {
    (c: Contact) => TargetScore(c, current).total
  }

  /** The controller's state. */
  datatype State = State(current: Option<Id>, lockCount: nat)

  /** The hysteresis decision on a ranking. Keeping the lock changes
      nothing; a switch locks onto the top-ranked contact. */
  function Decide(st: State, ranked: seq<Contact>): (State, Option<Contact>)
    requires ranked != []
  {
    var kept := Hysteresis.KeptIndex(ranked, ScoreKey(st.current), st.current, st.lockCount,
                                     MinLockCycles, SwitchThreshold);
    if kept.Some? then
      (st, Some(ranked[kept.value]))
    else
      var best := ranked[0];
      (State(Some(best.id), (if st.current == Some(best.id) then st.lockCount else 0) + 1),
       Some(best))
  }

  /** The ranking of a tick's contacts. */
  function Ranked(st: State, cs: seq<Contact>): seq<Contact>
  {
    Ranking.SortDescending(cs, ScoreKey(st.current))
  }

  /** select_best_target: the new state and the chosen contact. */
  function Select(st: State, cs: seq<Contact>): (State, Option<Contact>)
  {
    if cs == [] then (st, None) else Decide(st, Ranked(st, cs))
  }

  /** The locked contact is kept exactly when a contact is locked, the lock
      has lasted at least three ticks, a ranked contact carries the locked
      identity and the best score beats the first such contact's by less
      than ten percent. */
  ghost predicate KeepsLock(st: State, ranked: seq<Contact>)
    requires ranked != []
  {
    Hysteresis.Keeps(ranked, ScoreKey(st.current), st.current, st.lockCount, MinLockCycles, SwitchThreshold)
  }

  /** An empty list changes nothing and selects nothing. */
  lemma SelectEmpty(st: State)
    ensures Select(st, []) == (st, None)
  {
  }

  /** Keep branch: the first ranked contact with the locked identity is
      returned and the state, lock count included, is unchanged. */
  lemma DecideKeepsLock(st: State, ranked: seq<Contact>)
    requires ranked != [] && KeepsLock(st, ranked)
    ensures Decide(st, ranked) == (st, Some(ranked[Locate(ranked, st.current.value)]))
  {
    var i := Locate(ranked, st.current.value);
    assert ScoreKey(st.current)(ranked[i]) >= PersistenceBonus;
  }

  /** Switch branch: the top-ranked contact is returned and locked; the
      lock count ends at 1 when the identity changed and rises by one
      otherwise. */
  lemma DecideSwitches(st: State, ranked: seq<Contact>)
    requires ranked != [] && !KeepsLock(st, ranked)
    ensures Decide(st, ranked)
            == (State(Some(ranked[0].id),
                      if st.current == Some(ranked[0].id) then st.lockCount + 1 else 1),
                Some(ranked[0]))
  {
  }

  /** A non-empty list yields one of its contacts. */
  lemma SelectChoosesInput(st: State, cs: seq<Contact>)
    requires cs != []
    ensures var chosen := Select(st, cs).1;
            chosen.Some? && chosen.value in cs
  {
    var ranked := Ranked(st, cs);
    Ranking.SortedFromInput(cs, ScoreKey(st.current));
    if KeepsLock(st, ranked) {
      DecideKeepsLock(st, ranked);
    } else {
      DecideSwitches(st, ranked);
    }
  }

  /** On a switch the chosen contact has the highest score of all. */
  lemma SelectSwitchPicksBest(st: State, cs: seq<Contact>)
    requires cs != [] && !KeepsLock(st, Ranked(st, cs))
    ensures var chosen := Select(st, cs).1;
            chosen.Some? && forall c :: c in cs ==> ScoreKey(st.current)(chosen.value) >= ScoreKey(st.current)(c)
  {
    Ranking.SortedFromInput(cs, ScoreKey(st.current));
    DecideSwitches(st, Ranked(st, cs));
  }

  /** When the lock is kept, the state is unchanged, the chosen contact
      carries the locked identity, and no contact's score exceeds the
      chosen one's by ten percent of it (or of 1, if it is below 1). */
  lemma SelectKeepsWithinMargin(st: State, cs: seq<Contact>)
    requires cs != [] && KeepsLock(st, Ranked(st, cs))
    ensures var (st', chosen) := Select(st, cs);
            && st' == st && chosen.Some? && st.current == Some(chosen.value.id)
            && var key := ScoreKey(st.current);
               forall c :: c in cs ==> key(c) - key(chosen.value) < SwitchThreshold * Max(key(chosen.value), 1.0)
  {
    var key := ScoreKey(st.current);
    var ranked := Ranked(st, cs);
    DecideKeepsLock(st, ranked);
    Ranking.SortedFromInput(cs, key);
    WithinMargin(cs, key, key(ranked[0]), key(ranked[Locate(ranked, st.current.value)]));
  }

  /** Every score is within the margin of `cur` when none exceeds `best`
      and `best` improves on `cur` by less than the threshold. */
  lemma WithinMargin(cs: seq<Contact>, key: Contact -> real, best: real, cur: real)
    requires forall c :: c in cs ==> key(c) <= best
    requires Hysteresis.ImprovementRatio(best, cur) < SwitchThreshold
    ensures forall c :: c in cs ==> key(c) - cur < SwitchThreshold * Max(cur, 1.0)
  {
    BelowRatio(best - cur, Max(cur, 1.0), SwitchThreshold);
  }

  lemma BelowRatio(a: real, m: real, t: real)
    requires m > 0.0 && a / m < t
    ensures a < t * m
  {
    assert a == (a / m) * m;
  }

  /** A contact is locked exactly when the lock count is positive. */
  ghost predicate LockConsistent(st: State)
  {
    st.current.None? <==> st.lockCount == 0
  }

  /** Selection keeps the lock consistent, and after a non-empty list a
      contact is locked. */
  lemma SelectKeepsLockConsistent(st: State, cs: seq<Contact>)
    requires LockConsistent(st)
    ensures LockConsistent(Select(st, cs).0)
    ensures cs != [] ==> Select(st, cs).0.current.Some?
  {
    if cs != [] {
      var ranked := Ranked(st, cs);
      if KeepsLock(st, ranked) {
        DecideKeepsLock(st, ranked);
      } else {
        DecideSwitches(st, ranked);
      }
    }
  }

  class TorpedoCommandControl {
    var currentTargetId: Option<Id>
    var targetLockCount: nat

    ghost function Abstract(): State
      reads this
    {
      State(currentTargetId, targetLockCount)
    }

    constructor ()
      ensures Abstract() == State(None, 0)
    {
      currentTargetId := None;
      targetLockCount := 0;
    }

    /** select_best_target */
    method SelectBestTarget(cs: seq<Contact>) returns (target: Option<Contact>)
      modifies this
      ensures (Abstract(), target) == Select(old(Abstract()), cs)
    {
      if cs == [] {
        return None;
      }
      var key := ScoreKey(currentTargetId);
      var ranked := Ranking.SortDescending(cs, key);
      var best := ranked[0];
      if currentTargetId.Some? && targetLockCount >= MinLockCycles {
        var k := FindFirst(ranked, currentTargetId.value);
        if k < |ranked| && key(ranked[k]) != 0.0 {
          var improvementRatio := Hysteresis.ImprovementRatio(key(best), key(ranked[k]));
          if improvementRatio < SwitchThreshold {
            return Some(ranked[k]);
          }
        }
      }
      if Some(best.id) != currentTargetId {
        currentTargetId := Some(best.id);
        targetLockCount := 0;
      }
      targetLockCount := targetLockCount + 1;
      target := Some(best);
    }
  }
}
