/**
 * The attacking torpedo's target selector (TorpedoCommandControl on the
 * attack side). Each tick it records every contact's position, derives a
 * velocity from the last two positions, drops contacts whose mean speed is
 * outside the surface-ship band (falling back to all contacts when none
 * passes), scores and ranks the candidates, and keeps its current lock
 * unless a rival beats it by 15 percent.
 *
 * Speeds are Euclidean norms of velocity vectors; the norm is supplied by
 * the host (`norm`), as are the contacts' ranges.
 */
module AttackTorpedo {
  import opened Common
  import Window
  import Ranking
  import Hysteresis

  const PositionCap: nat := 4
  const VelocityCap: nat := 3
  const ShipSpeedLow: real := 2.5
  const ShipSpeedHigh: real := 3.5
  const MinLockForHysteresis: nat := 1
  const SwitchThreshold: real := 0.15

  /** Per-contact position and velocity windows. */
  datatype Tracks = Tracks(positions: map<Id, seq<Stamped>>, velocities: map<Id, seq<Stamped>>)

  function WindowOf(m: map<Id, seq<Stamped>>, id: Id): seq<Stamped>
  {
    if id in m then m[id] else []
  }

  /** Displacement between two fixes divided by the ticks between them. */
  function Velocity(prev: Stamped, curr: Stamped): Point
    requires prev.time != curr.time
  {
    var dt := (curr.time - prev.time) as real;
    Point((curr.p.x - prev.p.x) / dt, (curr.p.y - prev.p.y) / dt)
  }

  /** The last two fixes of `w` exist and belong to different ticks. */
  predicate Moved(w: seq<Stamped>)
  {
    |w| >= 2 && w[|w| - 2].time != w[|w| - 1].time
  }

  /** The velocity sample the last two fixes of `w` give, stamped with the
      newer fix's tick. */
  function Sample(w: seq<Stamped>): (r: Stamped)
    requires Moved(w)
    ensures r.time == w[|w| - 1].time
  {
    Stamped(w[|w| - 1].time, Velocity(w[|w| - 2], w[|w| - 1]))
  }

  /** The velocity windows after the position window of `id` became `w`. */
  function ObservedVelocities(velocities: map<Id, seq<Stamped>>, id: Id, w: seq<Stamped>): map<Id, seq<Stamped>>
  {
    if Moved(w) then velocities[id := Window.Push(WindowOf(velocities, id), Sample(w), VelocityCap)]
    else velocities
  }

  /** Record contact `c` on tick `t`: push its position, and push a
      velocity sample when the last two positions are from different ticks. */
  function Observe(tr: Tracks, t: nat, c: Contact): Tracks
  {
    var w := Window.Push(WindowOf(tr.positions, c.id), Stamped(t, c.pos), PositionCap);
    Tracks(tr.positions[c.id := w], ObservedVelocities(tr.velocities, c.id, w))
  }

  /** Every sample's tick is no later than the next sample's (earlier
      than it, when `strict`). */
  predicate InTickOrder(w: seq<Stamped>, strict: bool)
    decreases |w|
  {
    |w| <= 1 ||
    ((if strict then w[|w| - 2].time < w[|w| - 1].time else w[|w| - 2].time <= w[|w| - 1].time)
     && InTickOrder(w[..|w| - 1], strict))
  }

  /** The tick of the newest sample of a window (0 for an empty one). */
  function LastTime(w: seq<Stamped>): nat
  {
    if w == [] then 0 else w[|w| - 1].time
  }

  /** A position window on tick `t`: one to four fixes, in tick order, none later than `t`. */
  predicate PositionsOk(w: seq<Stamped>, t: nat)
  {
    1 <= |w| <= PositionCap && InTickOrder(w, false) && LastTime(w) <= t
  }

  /** A velocity window: at most three samples, one per tick, in tick order,
      none later than tick `last`. */
  predicate VelocitiesOk(v: seq<Stamped>, last: nat)
  {
    |v| <= VelocityCap && InTickOrder(v, true) && LastTime(v) <= last
  }

  /** Window invariants on tick `t`; a contact has velocity samples only
      once it has positions, and none is newer than its newest position. */
  ghost predicate TracksValid(tr: Tracks, t: nat)
  {
    && (forall id :: id in tr.positions ==> PositionsOk(tr.positions[id], t))
    && (forall id :: id in tr.velocities ==>
          id in tr.positions && VelocitiesOk(tr.velocities[id], LastTime(tr.positions[id])))
  }

  /** In a window in tick order, every sample is no later than the newest
      (earlier than it, when `strict`, for all but the newest itself). */
  lemma {:induction false} InTickOrderBelowLast(w: seq<Stamped>, strict: bool, i: nat)
    requires InTickOrder(w, strict) && i < |w|
    ensures w[i].time <= LastTime(w)
    ensures strict && i < |w| - 1 ==> w[i].time < LastTime(w)
    decreases |w|
  {
    if i < |w| - 1 {
      InTickOrderBelowLast(w[..|w| - 1], strict, i);
    }
  }

  /** Dropping the oldest samples keeps a window in tick order. */
  lemma {:induction false} InTickOrderSuffix(w: seq<Stamped>, k: nat, strict: bool)
    requires InTickOrder(w, strict) && k <= |w|
    ensures InTickOrder(w[k..], strict)
    decreases |w|
  {
    if |w| - k >= 2 {
      InTickOrderSuffix(w[..|w| - 1], k, strict);
      assert w[k..][..|w| - k - 1] == w[..|w| - 1][k..];
    }
  }

  /** Pushing a sample no older than the newest one (newer, when `strict`)
      keeps a window in tick order. */
  lemma PushInTickOrder(w: seq<Stamped>, x: Stamped, cap: nat, strict: bool)
    requires InTickOrder(w, strict)
    requires w != [] ==> if strict then LastTime(w) < x.time else LastTime(w) <= x.time
    ensures InTickOrder(Window.Push(w, x, cap), strict)
  {
    var full := w + [x];
    assert full[..|full| - 1] == w;
    if |full| > cap {
      InTickOrderSuffix(full, |full| - cap, strict);
    }
  }

  /** Pushing a fix no older than the newest one keeps a position window valid. */
  lemma PushPosition(w: seq<Stamped>, x: Stamped, t: nat)
    requires w == [] || PositionsOk(w, t)
    requires LastTime(w) <= x.time <= t
    ensures PositionsOk(Window.Push(w, x, PositionCap), t)
    ensures LastTime(Window.Push(w, x, PositionCap)) == x.time
  {
    PushInTickOrder(w, x, PositionCap, false);
  }

  /** Pushing a sample newer than every sample keeps a velocity window valid
      and changes it. */
  lemma PushVelocity(v: seq<Stamped>, x: Stamped, last: nat)
    requires VelocitiesOk(v, last) && last < x.time
    ensures VelocitiesOk(Window.Push(v, x, VelocityCap), x.time)
    ensures Window.Push(v, x, VelocityCap) != v
  {
    PushInTickOrder(v, x, VelocityCap, true);
  }

  /** Observing a contact keeps every window invariant. */
  lemma ObserveKeepsTracksValid(tr: Tracks, t: nat, c: Contact)
    requires TracksValid(tr, t)
    ensures TracksValid(Observe(tr, t, c), t)
  {
    var old_w := WindowOf(tr.positions, c.id);
    var w := Window.Push(old_w, Stamped(t, c.pos), PositionCap);
    PushPosition(old_w, Stamped(t, c.pos), t);
    if Moved(w) {
      ObserveMovedSample(tr, t, c);
      PushVelocity(WindowOf(tr.velocities, c.id), Sample(w), w[|w| - 2].time);
    }
  }

  /** When the contact moved, its new velocity sample is stamped later than
      the previous fix, which is the newest fix recorded before. */
  lemma ObserveMovedSample(tr: Tracks, t: nat, c: Contact)
    requires TracksValid(tr, t)
    requires Moved(Window.Push(WindowOf(tr.positions, c.id), Stamped(t, c.pos), PositionCap))
    ensures var old_w := WindowOf(tr.positions, c.id);
            var w := Window.Push(old_w, Stamped(t, c.pos), PositionCap);
            && c.id in tr.positions
            && w[|w| - 2] == old_w[|old_w| - 1]
            && w[|w| - 2].time < t
  {
    var old_w := WindowOf(tr.positions, c.id);
    var w := Window.Push(old_w, Stamped(t, c.pos), PositionCap);
    PushPosition(old_w, Stamped(t, c.pos), t);
    assert w[|w| - 2].time <= w[|w| - 1].time;
    assert w[|w| - 2] == (old_w + [Stamped(t, c.pos)])[|old_w| - 1];
  }

  /** Observing a contact pushes the new fix onto its position window, so
      that window ends with it; when the last two fixes are from different
      ticks it pushes their velocity sample onto the contact's velocity
      window, and otherwise no velocity window changes; the position and
      velocity windows of every other contact are left alone. */
  lemma ObserveRecords(tr: Tracks, t: nat, c: Contact)
    requires TracksValid(tr, t)
    ensures var r := Observe(tr, t, c);
            var w := Window.Push(WindowOf(tr.positions, c.id), Stamped(t, c.pos), PositionCap);
            && c.id in r.positions && r.positions[c.id] == w
            && w[|w| - 1] == Stamped(t, c.pos)
            && (forall id :: id != c.id ==> WindowOf(r.positions, id) == WindowOf(tr.positions, id))
            && (forall id :: id != c.id ==> WindowOf(r.velocities, id) == WindowOf(tr.velocities, id))
            && (Moved(w) ==> WindowOf(r.velocities, c.id)
                               == Window.Push(WindowOf(tr.velocities, c.id), Sample(w), VelocityCap))
            && (Moved(w) <==> r.velocities != tr.velocities)
  {
    var old_w := WindowOf(tr.positions, c.id);
    var w := Window.Push(old_w, Stamped(t, c.pos), PositionCap);
    if Moved(w) {
      ObserveMovedSample(tr, t, c);
      PushVelocity(WindowOf(tr.velocities, c.id), Sample(w), w[|w| - 2].time);
    }
  }

  /** Sum of the speeds of velocity samples, oldest first. */
  function SpeedSum(vs: seq<Stamped>, norm: Point -> real): real
  {
    if vs == [] then 0.0 else SpeedSum(vs[..|vs| - 1], norm) + norm(vs[|vs| - 1].p)
  }

  function MeanSpeed(vs: seq<Stamped>, norm: Point -> real): real
    requires vs != []
  {
    SpeedSum(vs, norm) / |vs| as real
  }

  /** The speed filter: a contact with fewer than two velocity samples is
      kept; otherwise it is kept when its speeds sum to between 2.5 and 3.5
      times their number. */
  predicate PassesSpeedFilter(tr: Tracks, id: Id, norm: Point -> real)
  {
    var vs := WindowOf(tr.velocities, id);
    |vs| < 2 || (ShipSpeedLow * |vs| as real <= SpeedSum(vs, norm) <= ShipSpeedHigh * |vs| as real)
  }

  /** The filter is the source's test: with two or more samples, a contact
      passes exactly when its mean speed lies in [2.5, 3.5]. */
  lemma SpeedFilterIsMeanSpeedBand(tr: Tracks, id: Id, norm: Point -> real)
    requires |WindowOf(tr.velocities, id)| >= 2
    ensures var vs := WindowOf(tr.velocities, id);
            PassesSpeedFilter(tr, id, norm) <==>
              ShipSpeedLow <= MeanSpeed(vs, norm) <= ShipSpeedHigh
  {
    var vs := WindowOf(tr.velocities, id);
    var n := |vs| as real;
    var m := MeanSpeed(vs, norm);
    assert SpeedSum(vs, norm) == m * n;
    assert SpeedSum(vs, norm) - ShipSpeedLow * n == (m - ShipSpeedLow) * n;
    assert ShipSpeedHigh * n - SpeedSum(vs, norm) == (ShipSpeedHigh - m) * n;
    PositiveFactor(m - ShipSpeedLow, n);
    PositiveFactor(ShipSpeedHigh - m, n);
  }

  /** A positive factor keeps the sign of a product. */
  lemma PositiveFactor(a: real, n: real)
    requires n > 0.0
    ensures a >= 0.0 <==> a * n >= 0.0
  {
  }

  /** The outcome of one pass over the contact list: the updated windows,
      the contacts that passed the speed filter, and the identities rejected. */
  datatype Screening = Screening(tracks: Tracks, valid: seq<Contact>, rejected: set<Id>)

  /** One contact of the screening pass: observe it, then test it. */
  function ScreenStep(s: Screening, t: nat, c: Contact, norm: Point -> real): Screening
  {
    var tracks := Observe(s.tracks, t, c);
    if PassesSpeedFilter(tracks, c.id, norm) then Screening(tracks, s.valid + [c], s.rejected)
    else Screening(tracks, s.valid, s.rejected + {c.id})
  }

  /** Observe each contact in turn and test it right after its own update. */
  function Screen(tr: Tracks, t: nat, cs: seq<Contact>, norm: Point -> real): Screening
    decreases |cs|
  {
    if cs == [] then Screening(tr, [], {})
    else ScreenStep(Screen(tr, t, cs[..|cs| - 1], norm), t, cs[|cs| - 1], norm)
  }

  /** Screening one more contact of `cs` is one more step. */
  lemma ScreenPrefix(tr: Tracks, t: nat, cs: seq<Contact>, i: nat, norm: Point -> real)
    requires i < |cs|
    ensures Screen(tr, t, cs[..i + 1], norm) == ScreenStep(Screen(tr, t, cs[..i], norm), t, cs[i], norm)
  {
    assert cs[..i + 1][..i] == cs[..i];
  }

  /** Screening keeps every window invariant. */
  lemma {:induction false} ScreenKeepsTracksValid(tr: Tracks, t: nat, cs: seq<Contact>, norm: Point -> real)
    requires TracksValid(tr, t)
    ensures TracksValid(Screen(tr, t, cs, norm).tracks, t)
    decreases |cs|
  {
    if cs != [] {
      ScreenKeepsTracksValid(tr, t, cs[..|cs| - 1], norm);
      ObserveKeepsTracksValid(Screen(tr, t, cs[..|cs| - 1], norm).tracks, t, cs[|cs| - 1]);
    }
  }

  /** One screening step adds the contact to the passing list or its
      identity to the rejected set, and changes nothing else in them. */
  lemma ScreenStepPartitions(s: Screening, t: nat, c: Contact, norm: Point -> real)
    ensures var r := ScreenStep(s, t, c, norm);
            || (r.valid == s.valid + [c] && r.rejected == s.rejected)
            || (r.valid == s.valid && r.rejected == s.rejected + {c.id})
  {
  }

  /** The passing contacts are input contacts, in input order. */
  lemma {:induction false} ScreenValidFromInput(tr: Tracks, t: nat, cs: seq<Contact>, norm: Point -> real)
    ensures forall c :: c in Screen(tr, t, cs, norm).valid ==> c in cs
    decreases |cs|
  {
    if cs != [] {
      var init := cs[..|cs| - 1];
      ScreenValidFromInput(tr, t, init, norm);
      ScreenStepPartitions(Screen(tr, t, init, norm), t, cs[|cs| - 1], norm);
      assert cs == init + [cs[|cs| - 1]];
    }
  }

  /** Every rejected identity belongs to an input contact. */
  lemma {:induction false} ScreenRejectedFromInput(tr: Tracks, t: nat, cs: seq<Contact>, norm: Point -> real)
    ensures forall id :: id in Screen(tr, t, cs, norm).rejected ==> exists i :: 0 <= i < |cs| && cs[i].id == id
    decreases |cs|
  {
    if cs != [] {
      var init := cs[..|cs| - 1];
      ScreenRejectedFromInput(tr, t, init, norm);
      ScreenStepPartitions(Screen(tr, t, init, norm), t, cs[|cs| - 1], norm);
      forall id | id in Screen(tr, t, cs, norm).rejected
        ensures exists i :: 0 <= i < |cs| && cs[i].id == id
      {
        if id != cs[|cs| - 1].id {
          var i :| 0 <= i < |init| && init[i].id == id;
          assert cs[i] == init[i];
        }
      }
    }
  }

  /** Every input contact either passes or has its identity rejected. */
  lemma {:induction false} ScreenCovers(tr: Tracks, t: nat, cs: seq<Contact>, norm: Point -> real)
    ensures var s := Screen(tr, t, cs, norm);
            forall i :: 0 <= i < |cs| ==> cs[i] in s.valid || cs[i].id in s.rejected
    decreases |cs|
  {
    if cs != [] {
      var init := cs[..|cs| - 1];
      ScreenCovers(tr, t, init, norm);
      ScreenStepPartitions(Screen(tr, t, init, norm), t, cs[|cs| - 1], norm);
      forall i | 0 <= i < |cs| - 1 ensures cs[i] == init[i] { }
    }
  }

  /** Candidates: the contacts that passed, or every contact if none did. */
  function Candidates(cs: seq<Contact>, s: Screening): seq<Contact>
  {
    if s.valid == [] then cs else s.valid
  }

  /** The source's score: 30% distance (30 minus range, floored at 0), a flat
      40-point base, and 30% persistence (10 plus 30 per past tracking,
      capped at 100). */
  function Score(range: Distance, tracked: nat): (r: real)
    ensures 19.0 <= r <= 55.0
  {
    0.3 * Max(0.0, 30.0 - range) + 0.4 * 40.0 + 0.3 * Min(100.0, 10.0 + 30.0 * tracked as real)
  }

  /** A closer or more often tracked contact never scores lower. */
  lemma ScoreMonotone(r1: Distance, r2: Distance, n1: nat, n2: nat)
    requires r1 <= r2 && n1 >= n2
    ensures Score(r1, n1) >= Score(r2, n2)
  {
  }

  function ScoreKey(tracking: map<Id, nat>): Contact -> real
  {
    (c: Contact) => Score(c.range, CountOf(tracking, c.id))
  }

  /** The controller's state. */
  datatype State = State(current: Option<Id>, lockCount: nat, tracking: map<Id, nat>,
                         timeStep: nat, tracks: Tracks, suspected: set<Id>)

  /** The state after a tick's screening pass `s`. */
  function Screened(st: State, s: Screening): State
  {
    st.(timeStep := st.timeStep + 1, tracks := s.tracks, suspected := st.suspected + s.rejected)
  }

  /** The hysteresis decision on a ranking: keep the locked contact, or lock
      onto the top-ranked one. */
  function Decide(st: State, ranked: seq<Contact>): (State, Option<Contact>)
    requires ranked != []
  {
    var kept := Hysteresis.KeptIndex(ranked, ScoreKey(st.tracking), st.current, st.lockCount,
                                     MinLockForHysteresis, SwitchThreshold);
    if kept.Some? then
      var c := ranked[kept.value];
      (st.(lockCount := st.lockCount + 1, tracking := Bump(st.tracking, c.id)), Some(c))
    else
      var best := ranked[0];
      (st.(current := Some(best.id),
           lockCount := (if st.current == Some(best.id) then st.lockCount else 0) + 1,
           tracking := Bump(st.tracking, best.id)),
       Some(best))
  }

  /** Stages two and three of select_best_target, once the non-empty list
      `cs` has been screened into `s`: rank the candidates and decide. */
  function SelectOn(st: State, cs: seq<Contact>, s: Screening): (State, Option<Contact>)
    requires cs != []
  {
    Decide(Screened(st, s), Ranking.SortDescending(Candidates(cs, s), ScoreKey(st.tracking)))
  }

  /** select_best_target: the new state and the chosen contact. */
  function Select(st: State, cs: seq<Contact>, norm: Point -> real): (State, Option<Contact>)
  {
    if cs == [] then (st, None)
    else SelectOn(st, cs, Screen(st.tracks, st.timeStep + 1, cs, norm))
  }

  /** An empty list changes nothing, tick counter included, and selects nothing. */
  lemma SelectEmpty(st: State, norm: Point -> real)
    ensures Select(st, [], norm) == (st, None)
  {
  }

  /** The locked contact is kept exactly when a contact is locked, the lock
      has lasted at least one tick, a ranked contact carries the locked
      identity and the best score beats the first such contact's by less
      than 15 percent. */
  ghost predicate KeepsLock(st: State, ranked: seq<Contact>)
    requires ranked != []
  {
    Hysteresis.Keeps(ranked, ScoreKey(st.tracking), st.current, st.lockCount, MinLockForHysteresis, SwitchThreshold)
  }

  /** Keep branch: the first ranked contact with the locked identity is
      returned, the lock identity is unchanged, and the lock count and the
      contact's tracking count rise by one. Switch branch: the top-ranked
      contact is returned and locked; the lock count ends at 1 when the
      identity changed and rises by one otherwise; its tracking count rises
      by one. Only the lock, the lock count and the tracking counts change. */
  lemma DecideOutcome(st: State, ranked: seq<Contact>)
    requires ranked != []
    ensures var (st', chosen) := Decide(st, ranked);
            && chosen.Some? && chosen.value in ranked
            && st' == st.(current := st'.current, lockCount := st'.lockCount, tracking := st'.tracking)
            && st'.tracking == Bump(st.tracking, chosen.value.id)
            && st'.current == Some(chosen.value.id)
  {
  }

  /** Keep branch of Decide. */
  lemma DecideKeepsLock(st: State, ranked: seq<Contact>)
    requires ranked != [] && KeepsLock(st, ranked)
    ensures var (st', chosen) := Decide(st, ranked);
            && chosen == Some(ranked[Locate(ranked, st.current.value)])
            && st'.current == st.current
            && st'.lockCount == st.lockCount + 1
  {
    var key := ScoreKey(st.tracking);
    var i := Locate(ranked, st.current.value);
    assert key(ranked[i]) >= 19.0;
  }

  /** Switch branch of Decide. */
  lemma DecideSwitches(st: State, ranked: seq<Contact>)
    requires ranked != [] && !KeepsLock(st, ranked)
    ensures var (st', chosen) := Decide(st, ranked);
            && chosen == Some(ranked[0])
            && st'.lockCount == (if st.current == Some(ranked[0].id) then st.lockCount + 1 else 1)
  {
  }

  /** When the ranking is descending, a switch picks a contact whose score is
      at least that of every ranked contact. */
  lemma DecideSwitchesToBest(st: State, ranked: seq<Contact>)
    requires ranked != [] && Ranking.Descending(ranked, ScoreKey(st.tracking))
    requires !KeepsLock(st, ranked)
    ensures var chosen := Decide(st, ranked).1;
            chosen.Some? && forall c :: c in ranked ==> ScoreKey(st.tracking)(chosen.value) >= ScoreKey(st.tracking)(c)
  {
    DecideSwitches(st, ranked);
    forall c | c in ranked
      ensures ScoreKey(st.tracking)(ranked[0]) >= ScoreKey(st.tracking)(c)
    {
      var j :| 0 <= j < |ranked| && ranked[j] == c;
      if j > 0 {
        assert ScoreKey(st.tracking)(ranked[0]) >= ScoreKey(st.tracking)(ranked[j]);
      }
    }
  }

  /** A non-empty list advances the tick counter by exactly one, records
      the tick's fixes, marks every rejected identity as a suspected decoy
      and keeps the windows valid. */
  lemma SelectScreens(st: State, cs: seq<Contact>, norm: Point -> real, s: Screening)
    requires cs != [] && s == Screen(st.tracks, st.timeStep + 1, cs, norm)
    requires TracksValid(st.tracks, st.timeStep)
    ensures var st' := Select(st, cs, norm).0;
            && st'.timeStep == st.timeStep + 1
            && st'.tracks == s.tracks
            && TracksValid(st'.tracks, st'.timeStep)
            && st'.suspected == st.suspected + s.rejected
  {
    TracksValidLater(st.tracks, st.timeStep, st.timeStep + 1);
    ScreenKeepsTracksValid(st.tracks, st.timeStep + 1, cs, norm);
    SelectOnScreened(st, cs, s);
  }

  /** Deciding on a screening installs it: the tick counter, the windows and
      the suspected decoys are those of `Screened`. */
  lemma SelectOnScreened(st: State, cs: seq<Contact>, s: Screening)
    requires cs != []
    ensures var st' := SelectOn(st, cs, s).0;
            && st'.timeStep == st.timeStep + 1
            && st'.tracks == s.tracks
            && st'.suspected == st.suspected + s.rejected
  {
    DecideOutcome(Screened(st, s), Ranking.SortDescending(Candidates(cs, s), ScoreKey(st.tracking)));
  }

  /** A non-empty list yields one of its candidates: one of the contacts
      that passed the speed filter if any did, else one of all contacts. */
  lemma SelectChoosesCandidate(st: State, cs: seq<Contact>, norm: Point -> real, s: Screening)
    requires cs != [] && s == Screen(st.tracks, st.timeStep + 1, cs, norm)
    ensures var chosen := Select(st, cs, norm).1;
            chosen.Some? && chosen.value in Candidates(cs, s)
  {
    SelectOnChoosesCandidate(st, cs, s);
  }

  /** Every candidate is an input contact. */
  lemma CandidatesFromInput(tr: Tracks, t: nat, cs: seq<Contact>, norm: Point -> real)
    ensures forall c :: c in Candidates(cs, Screen(tr, t, cs, norm)) ==> c in cs
  {
    ScreenValidFromInput(tr, t, cs, norm);
  }

  /** The decision on a tick's screening `s` picks one of its candidates. */
  lemma SelectOnChoosesCandidate(st: State, cs: seq<Contact>, s: Screening)
    requires cs != []
    ensures var chosen := SelectOn(st, cs, s).1;
            chosen.Some? && chosen.value in Candidates(cs, s)
  {
    var ranked := Ranking.SortDescending(Candidates(cs, s), ScoreKey(st.tracking));
    Ranking.SortedFromInput(Candidates(cs, s), ScoreKey(st.tracking));
    DecideOutcome(Screened(st, s), ranked);
  }

  lemma TracksValidLater(tr: Tracks, t: nat, t': nat)
    requires TracksValid(tr, t) && t <= t'
    ensures TracksValid(tr, t')
  {
  }

  class TorpedoCommandControl {
    var currentTargetId: Option<Id>
    var targetLockCount: nat
    var targetTrackingHistory: map<Id, nat>
    var timeStep: nat
    var positionHistory: map<Id, seq<Stamped>>
    var velocityHistory: map<Id, seq<Stamped>>
    var suspectedDecoyTargets: set<Id>
    /** Euclidean norm of a velocity vector, supplied by the host. */
    const norm: Point -> real

    ghost function Tracked(): Tracks
      reads this
    {
      Tracks(positionHistory, velocityHistory)
    }

    ghost function Abstract(): State
      reads this
    {
      State(currentTargetId, targetLockCount, targetTrackingHistory, timeStep,
            Tracked(), suspectedDecoyTargets)
    }

    ghost predicate Valid()
      reads this
    {
      TracksValid(Tracked(), timeStep)
    }

    constructor (norm: Point -> real)
      ensures Valid() && this.norm == norm
      ensures Abstract() == State(None, 0, map[], 0, Tracks(map[], map[]), {})
    {
      this.norm := norm;
      currentTargetId := None;
      targetLockCount := 0;
      targetTrackingHistory := map[];
      timeStep := 0;
      positionHistory := map[];
      velocityHistory := map[];
      suspectedDecoyTargets := {};
    }

    /** update_target_history */
    method UpdateTargetHistory(c: Contact)
      requires Valid()
      modifies this
      ensures Valid()
      ensures Abstract() == old(Abstract()).(tracks := Observe(old(Tracked()), timeStep, c))
    {
      ghost var tr := Tracked();
      var w := Window.Append(WindowOf(positionHistory, c.id), Stamped(timeStep, c.pos), PositionCap);
      var velocities := velocityHistory;
      if |w| >= 2 {
        var prev, curr := w[|w| - 2], w[|w| - 1];
        if curr.time != prev.time {
          var v := Window.Append(WindowOf(velocityHistory, c.id), Stamped(curr.time, Velocity(prev, curr)), VelocityCap);
          velocities := velocities[c.id := v];
          assert Moved(w);
        } else {
          assert !Moved(w);
        }
      } else {
        assert !Moved(w);
      }
      positionHistory, velocityHistory := positionHistory[c.id := w], velocities;
      ObserveKeepsTracksValid(tr, timeStep, c);
    }

    /** is_valid_ship_target */
    method IsValidShipTarget(id: Id) returns (ok: bool)
      ensures ok == PassesSpeedFilter(Tracked(), id, norm)
    {
      if id in velocityHistory && |velocityHistory[id]| >= 2 {
        var vs := velocityHistory[id];
        var total := 0.0;
        var i := 0;
        while i < |vs|
          invariant 0 <= i <= |vs|
          invariant total == SpeedSum(vs[..i], norm)
        {
          assert vs[..i + 1][..i] == vs[..i];
          total := total + norm(vs[i].p);
          i := i + 1;
        }
        assert vs[..|vs|] == vs;
        var avgSpeed := total / |vs| as real;
        SpeedFilterIsMeanSpeedBand(Tracked(), id, norm);
        if avgSpeed < ShipSpeedLow || avgSpeed > ShipSpeedHigh {
          return false;
        }
      }
      return true;
    }

    /** One contact of stage one of select_best_target: record it, test
        it, and mark it as a suspected decoy when it fails. */
    method ScreenOne(c: Contact, ghost s: Screening) returns (ok: bool)
      requires Valid() && s.tracks == Tracked()
      modifies this
      ensures Valid()
      ensures ScreenStep(s, timeStep, c, norm)
              == if ok then Screening(Tracked(), s.valid + [c], s.rejected)
                 else Screening(Tracked(), s.valid, s.rejected + {c.id})
      ensures suspectedDecoyTargets == if ok then old(suspectedDecoyTargets)
                                       else old(suspectedDecoyTargets) + {c.id}
      ensures currentTargetId == old(currentTargetId) && targetLockCount == old(targetLockCount)
      ensures targetTrackingHistory == old(targetTrackingHistory) && timeStep == old(timeStep)
    {
      UpdateTargetHistory(c);
      ok := IsValidShipTarget(c.id);
      if !ok {
        suspectedDecoyTargets := suspectedDecoyTargets + {c.id};
      }
    }

    /** Stage one of select_best_target: record and test every contact on
        the current tick, collecting those that pass and marking the others
        as suspected decoys. */
    method ScreenContacts(cs: seq<Contact>) returns (valid: seq<Contact>)
      requires Valid()
      modifies this
      ensures Valid()
      ensures var s := Screen(old(Tracked()), timeStep, cs, norm);
              && Tracked() == s.tracks && valid == s.valid
              && suspectedDecoyTargets == old(suspectedDecoyTargets) + s.rejected
      ensures currentTargetId == old(currentTargetId) && targetLockCount == old(targetLockCount)
      ensures targetTrackingHistory == old(targetTrackingHistory) && timeStep == old(timeStep)
    {
      ghost var tr := Tracked();
      ghost var suspected := suspectedDecoyTargets;
      ghost var rejected: set<Id> := {};
      valid := [];
      var i := 0;
      while i < |cs|
        invariant 0 <= i <= |cs|
        invariant Screen(tr, timeStep, cs[..i], norm) == Screening(Tracked(), valid, rejected)
        invariant suspectedDecoyTargets == suspected + rejected
        invariant Valid()
        invariant currentTargetId == old(currentTargetId) && targetLockCount == old(targetLockCount)
        invariant targetTrackingHistory == old(targetTrackingHistory) && timeStep == old(timeStep)
      {
        ghost var s := Screening(Tracked(), valid, rejected);
        ScreenPrefix(tr, timeStep, cs, i, norm);
        var ok := ScreenOne(cs[i], s);
        if ok {
          valid := valid + [cs[i]];
        } else {
          rejected := rejected + {cs[i].id};
        }
        i := i + 1;
      }
      assert cs[..|cs|] == cs;
    }

    /** Stage three of select_best_target: keep the locked contact or lock
        onto the top-ranked one. */
    method ApplyHysteresis(ranked: seq<Contact>) returns (target: Option<Contact>)
      requires ranked != []
      modifies this
      ensures (Abstract(), target) == Decide(old(Abstract()), ranked)
    {
      var key := ScoreKey(targetTrackingHistory);
      var best := ranked[0];
      if currentTargetId.Some? && targetLockCount >= MinLockForHysteresis {
        var k := FindFirst(ranked, currentTargetId.value);
        if k < |ranked| && key(ranked[k]) != 0.0 {
          var improvementRatio := Hysteresis.ImprovementRatio(key(best), key(ranked[k]));
          if improvementRatio < SwitchThreshold {
            targetTrackingHistory := Bump(targetTrackingHistory, ranked[k].id);
            targetLockCount := targetLockCount + 1;
            return Some(ranked[k]);
          }
        }
      }
      if Some(best.id) != currentTargetId {
        currentTargetId := Some(best.id);
        targetLockCount := 0;
      }
      targetTrackingHistory := Bump(targetTrackingHistory, best.id);
      targetLockCount := targetLockCount + 1;
      target := Some(best);
    }

    /** select_best_target */
    method SelectBestTarget(cs: seq<Contact>) returns (target: Option<Contact>)
      requires Valid()
      modifies this
      ensures Valid()
      ensures (Abstract(), target) == Select(old(Abstract()), cs, norm)
    {
      if cs == [] {
        return None;
      }
      ghost var st := Abstract();
      timeStep := timeStep + 1;
      TracksValidLater(st.tracks, st.timeStep, timeStep);
      var valid := ScreenContacts(cs);
      ghost var s := Screen(st.tracks, timeStep, cs, norm);
      assert Abstract() == Screened(st, s);
      var candidates := if valid == [] then cs else valid;
      assert candidates == Candidates(cs, s);
      var ranked := Ranking.SortDescending(candidates, ScoreKey(targetTrackingHistory));
      target := ApplyHysteresis(ranked);
      SelectScreens(st, cs, norm, s);
    }
  }
}
