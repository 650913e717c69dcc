/**
 * The attacking side's command and control: it keeps a bounded position
 * history per contact, keyed by detection cycle; it spots a decoy salvo
 * (three or more contacts first seen in the same cycle) and marks the
 * contact nearest the salvo's centroid as the real ship; it labels every
 * contact with a first-match rule cascade on its motion; it picks one of
 * three engagement strategies; and it ranks the contacts it hands to the
 * launcher.
 */
module AttackCommand {
  import opened Common
  import Window
  import Ranking

  /** Positions kept per contact. */
  const HistoryCap: nat := 5
  /** Contacts first seen together that reveal a decoy salvo. */
  const SalvoSize: nat := 3
  /** Cycles since a contact was last seen for it to count as active. */
  const ActiveWindow: int := 2
  /** Range below which the launcher's output also asks for evasion. */
  const EvasionRange: real := 15.0

  /** What a contact is suspected to be. */
  datatype ThreatType = ShipThreat | SelfPropelledThreat | StationaryThreat | UnknownThreat

  datatype Strategy = SmartSelection | BypassDecoys | AggressiveHunt

  /** One entry of the threat history. */
  datatype Record = Record(positions: seq<Stamped>, firstDetected: nat, lastSeen: nat,
                           suspected: ThreatType, confidence: real)

  /** The threat history together with the order in which its identities
      were first recorded (the dictionary's iteration order). */
  datatype Log = Log(history: map<Id, Record>, order: seq<Id>)

  /** The entry a contact gets when first detected in `cycle`. */
  function NewRecord(cycle: nat): Record
  {
    Record([], cycle, cycle, UnknownThreat, 0.5)
  }

  /** Well-formed history at `cycle`: the order lists each recorded identity
      once; every entry holds one to five positions, was first and last
      seen no later than `cycle`, and has a confidence in [0.5, 0.9]. */
  ghost predicate LogValid(log: Log, cycle: nat)
  {
    && (forall i, j :: 0 <= i < j < |log.order| ==> log.order[i] != log.order[j])
    && (forall id :: id in log.history <==> id in log.order)
    && (forall id :: id in log.history ==> RecordValid(log.history[id], cycle))
  }

  ghost predicate RecordValid(r: Record, cycle: nat)
  {
    && 1 <= |r.positions| <= HistoryCap && r.firstDetected <= r.lastSeen <= cycle
    && 0.5 <= r.confidence <= 0.9
  }

  lemma LogValidLater(log: Log, cycle: nat, cycle': nat)
    requires LogValid(log, cycle) && cycle <= cycle'
    ensures LogValid(log, cycle')
  {
  }

  /** Record one detected contact in `cycle`: create its entry when it is
      new, append its position (keeping the newest five) and mark it seen. */
  function Observe(log: Log, cycle: nat, c: Contact): Log
  {
    var known := c.id in log.history;
    var r := if known then log.history[c.id] else NewRecord(cycle);
    Log(log.history[c.id := r.(positions := Window.Push(r.positions, Stamped(cycle, c.pos), HistoryCap),
                               lastSeen := cycle)],
        if known then log.order else log.order + [c.id])
  }

  /** Record every detected contact, in list order. */
  function ObserveAll(log: Log, cycle: nat, cs: seq<Contact>): Log
    decreases |cs|
  {
    if cs == [] then log else Observe(ObserveAll(log, cycle, cs[..|cs| - 1]), cycle, cs[|cs| - 1])
  }

  /** One contact's entry: a new contact starts unknown with confidence 0.5
      and first seen now; the position is appended to the newest five; the
      contact is last seen now; no other entry changes and the order only
      grows, by the new identity. */
  lemma ObserveRecords(log: Log, cycle: nat, c: Contact)
    ensures var log' := Observe(log, cycle, c);
            var r := if c.id in log.history then log.history[c.id] else NewRecord(cycle);
            && log'.history[c.id]
               == r.(positions := Window.Push(r.positions, Stamped(cycle, c.pos), HistoryCap), lastSeen := cycle)
            && (forall id :: id != c.id ==> (id in log'.history <==> id in log.history))
            && (forall id :: id != c.id && id in log.history ==> log'.history[id] == log.history[id])
            && log'.order == if c.id in log.history then log.order else log.order + [c.id]
  {
  }

  /** Recording a contact keeps the history well formed. */
  lemma ObserveKeepsValid(log: Log, cycle: nat, c: Contact)
    requires LogValid(log, cycle)
    ensures LogValid(Observe(log, cycle, c), cycle)
  {
    var log' := Observe(log, cycle, c);
    if c.id !in log.history {
      forall i, j | 0 <= i < j < |log'.order|
        ensures log'.order[i] != log'.order[j]
      {
        if j == |log.order| {
          assert log'.order[i] == log.order[i] && log.order[i] in log.order;
          assert log.order[i] in log.history;
        }
      }
    }
  }

  lemma {:induction false} ObserveAllKeepsValid(log: Log, cycle: nat, cs: seq<Contact>)
    requires LogValid(log, cycle)
    ensures LogValid(ObserveAll(log, cycle, cs), cycle)
    decreases |cs|
  {
    if cs != [] {
      ObserveAllKeepsValid(log, cycle, cs[..|cs| - 1]);
      ObserveKeepsValid(ObserveAll(log, cycle, cs[..|cs| - 1]), cycle, cs[|cs| - 1]);
    }
  }

  /** After recording a cycle's contacts, each of them is last seen in that
      cycle, and every entry recorded for the first time was first seen in
      it, unknown, with confidence 0.5. */
  lemma {:induction false} ObserveAllMarksSeen(log: Log, cycle: nat, cs: seq<Contact>)
    requires forall id :: id in log.history ==> log.history[id].lastSeen <= cycle
    ensures var log' := ObserveAll(log, cycle, cs);
            && (forall i :: 0 <= i < |cs| ==> cs[i].id in log'.history && log'.history[cs[i].id].lastSeen == cycle)
            && (forall id :: id in log'.history && id !in log.history ==>
                  var r := log'.history[id];
                  r.firstDetected == cycle && r.suspected == UnknownThreat && r.confidence == 0.5)
    decreases |cs|
  {
    if cs != [] {
      var init := cs[..|cs| - 1];
      ObserveAllMarksSeen(log, cycle, init);
      ObserveRecords(ObserveAll(log, cycle, init), cycle, cs[|cs| - 1]);
      forall i | 0 <= i < |cs| - 1
        ensures cs[i] == init[i]
      {
      }
    }
  }

  /** Entries of contacts not detected in the cycle are untouched. */
  lemma {:induction false} ObserveAllKeepsOthers(log: Log, cycle: nat, cs: seq<Contact>, id: Id)
    requires id in log.history && forall i :: 0 <= i < |cs| ==> cs[i].id != id
    ensures var log' := ObserveAll(log, cycle, cs);
            id in log'.history && log'.history[id] == log.history[id]
    decreases |cs|
  {
    if cs != [] {
      var init := cs[..|cs| - 1];
      ObserveAllKeepsOthers(log, cycle, init, id);
      ObserveRecords(ObserveAll(log, cycle, init), cycle, cs[|cs| - 1]);
    }
  }

  /** The cycle's positions by identity: identities in the order they first
      appear in the list, each with the position last reported for it. */
  datatype Current = Current(ids: seq<Id>, pos: map<Id, Point>)

  function CurrentPositions(cs: seq<Contact>): Current
    decreases |cs|
  {
    if cs == [] then Current([], map[])
    else
      var cur := CurrentPositions(cs[..|cs| - 1]);
      var c := cs[|cs| - 1];
      Current(if c.id in cur.pos then cur.ids else cur.ids + [c.id], cur.pos[c.id := c.pos])
  }

  /** The keys of the position map are exactly the listed identities. */
  lemma {:induction false} CurrentPositionsKeys(cs: seq<Contact>)
    ensures forall id :: id in CurrentPositions(cs).pos <==> id in CurrentPositions(cs).ids
    decreases |cs|
  {
    if cs != [] {
      CurrentPositionsKeys(cs[..|cs| - 1]);
    }
  }

  /** The identities of the cycle are listed once each, and they are the
      keys of the position map. */
  lemma {:induction false} CurrentPositionsDistinct(cs: seq<Contact>)
    ensures forall i, j :: 0 <= i < j < |CurrentPositions(cs).ids| ==>
              CurrentPositions(cs).ids[i] != CurrentPositions(cs).ids[j]
    ensures forall id :: id in CurrentPositions(cs).pos <==> id in CurrentPositions(cs).ids
    decreases |cs|
  {
    CurrentPositionsKeys(cs);
    if cs != [] {
      var init := cs[..|cs| - 1];
      CurrentPositionsDistinct(init);
      var cur := CurrentPositions(init);
      var c := cs[|cs| - 1];
      var ids := CurrentPositions(cs).ids;
      if c.id !in cur.pos {
        assert ids == cur.ids + [c.id];
        assert c.id !in cur.ids;
        forall i, j | 0 <= i < j < |ids|
          ensures ids[i] != ids[j]
        {
          if j == |cur.ids| {
            assert ids[i] == cur.ids[i] && cur.ids[i] in cur.ids;
          } else {
            assert ids[i] == cur.ids[i] && ids[j] == cur.ids[j];
          }
        }
      } else {
        assert ids == cur.ids;
      }
    }
  }

  /** The identities of the cycle are exactly those of the detected
      contacts. */
  lemma {:induction false} CurrentPositionsCover(cs: seq<Contact>)
    ensures forall id :: id in CurrentPositions(cs).pos <==> exists i :: 0 <= i < |cs| && cs[i].id == id
    decreases |cs|
  {
    if cs != [] {
      var init := cs[..|cs| - 1];
      CurrentPositionsCover(init);
      var c := cs[|cs| - 1];
      forall id | id in CurrentPositions(cs).pos
        ensures exists i :: 0 <= i < |cs| && cs[i].id == id
      {
        if id != c.id {
          assert id in CurrentPositions(init).pos;
          var i :| 0 <= i < |init| && init[i].id == id;
          assert cs[i] == init[i];
        }
      }
      forall id | exists i :: 0 <= i < |cs| && cs[i].id == id
        ensures id in CurrentPositions(cs).pos
      {
        var i :| 0 <= i < |cs| && cs[i].id == id;
        if i < |init| {
          assert init[i] == cs[i];
        }
      }
    }
  }

  /** Positions, in the cycle's order, of the identities first detected in
      `cycle`. */
  function NewTargets(h: map<Id, Record>, cycle: nat, ids: seq<Id>, pos: map<Id, Point>): (r: seq<Point>)
    ensures |r| <= |ids|
    decreases |ids|
  {
    if ids == [] then []
    else
      var id := ids[|ids| - 1];
      NewTargets(h, cycle, ids[..|ids| - 1], pos)
        + if id in pos && id in h && h[id].firstDetected == cycle then [pos[id]] else []
  }

  /** An identity of the cycle whose entry was first detected in `cycle`. */
  ghost predicate FirstSeenIn(h: map<Id, Record>, cycle: nat, pos: map<Id, Point>, id: Id)
  {
    id in pos && id in h && h[id].firstDetected == cycle
  }

  /** The new targets are exactly the cycle positions of the listed
      identities first detected in `cycle`. */
  lemma {:induction false} NewTargetsMembers(h: map<Id, Record>, cycle: nat, ids: seq<Id>, pos: map<Id, Point>)
    ensures forall p :: p in NewTargets(h, cycle, ids, pos) <==>
                          exists id :: id in ids && FirstSeenIn(h, cycle, pos, id) && p == pos[id]
    decreases |ids|
  {
    if ids != [] {
      var init := ids[..|ids| - 1];
      var last := ids[|ids| - 1];
      NewTargetsMembers(h, cycle, init, pos);
      assert ids == init + [last];
      var r := NewTargets(h, cycle, ids, pos);
      assert r == NewTargets(h, cycle, init, pos)
                  + if FirstSeenIn(h, cycle, pos, last) then [pos[last]] else [];
      forall p | exists id :: id in ids && FirstSeenIn(h, cycle, pos, id) && p == pos[id]
        ensures p in r
      {
        var id :| id in ids && FirstSeenIn(h, cycle, pos, id) && p == pos[id];
        if id != last {
          assert id in init;
        }
      }
    }
  }

  /** Over identities without repetitions, there are as many new targets as
      listed identities first detected in `cycle`. */
  lemma {:induction false} NewTargetsCount(h: map<Id, Record>, cycle: nat, ids: seq<Id>, pos: map<Id, Point>)
    requires forall i, j :: 0 <= i < j < |ids| ==> ids[i] != ids[j]
    ensures |NewTargets(h, cycle, ids, pos)| == |set id | id in ids && FirstSeenIn(h, cycle, pos, id)|
    decreases |ids|
  {
    if ids != [] {
      var init := ids[..|ids| - 1];
      var last := ids[|ids| - 1];
      NewTargetsCount(h, cycle, init, pos);
      var before := set id | id in init && FirstSeenIn(h, cycle, pos, id);
      var after := set id | id in ids && FirstSeenIn(h, cycle, pos, id);
      forall k | 0 <= k < |init|
        ensures init[k] != last
      {
        assert init[k] == ids[k];
      }
      assert ids == init + [last];
      if FirstSeenIn(h, cycle, pos, last) {
        assert after == before + {last};
      } else {
        assert after == before;
      }
    }
  }

  function SumX(ps: seq<Point>): real
    decreases |ps|
  {
    if ps == [] then 0.0 else SumX(ps[..|ps| - 1]) + ps[|ps| - 1].x
  }

  function SumY(ps: seq<Point>): real
    decreases |ps|
  {
    if ps == [] then 0.0 else SumY(ps[..|ps| - 1]) + ps[|ps| - 1].y
  }

  /** The geometric centre of a set of positions. */
  function Centroid(ps: seq<Point>): Point
    requires ps != []
  {
    Point(SumX(ps) / |ps| as real, SumY(ps) / |ps| as real)
  }

  /** An entry with at least one recorded position. */
  ghost predicate HasFix(h: map<Id, Record>, id: Id)
  {
    id in h && h[id].positions != []
  }

  /** The newest recorded position of an entry. */
  function LastFix(r: Record): Point
    requires r.positions != []
  {
    r.positions[|r.positions| - 1].p
  }

  /** Squared distance from an entry's newest position to `center`. */
  function DistanceTo(h: map<Id, Record>, id: Id, center: Point): real
    requires id in h && h[id].positions != []
  {
    SquaredDistance(LastFix(h[id]), center)
  }

  /** The scan of estimate_ship_position: the entry, in history order, whose
      newest position is nearest `center`, the first one on a tie. */
  function NearestTo(h: map<Id, Record>, ids: seq<Id>, center: Point): (b: Option<Id>)
    ensures b.Some? ==> b.value in h && h[b.value].positions != [] && b.value in ids
    decreases |ids|
  {
    if ids == [] then None
    else
      var b := NearestTo(h, ids[..|ids| - 1], center);
      var id := ids[|ids| - 1];
      if id in h && h[id].positions != []
         && (b.None? || DistanceTo(h, id, center) < DistanceTo(h, b.value, center))
      then Some(id)
      else b
  }

  /** Some entry is found exactly when some listed entry has a position. */
  lemma {:induction false} NearestExists(h: map<Id, Record>, ids: seq<Id>, center: Point)
    ensures NearestTo(h, ids, center).Some? <==> exists i :: 0 <= i < |ids| && HasFix(h, ids[i])
    decreases |ids|
  {
    if ids != [] {
      var init := ids[..|ids| - 1];
      NearestExists(h, init, center);
      if exists i :: 0 <= i < |ids| && HasFix(h, ids[i]) {
        var i :| 0 <= i < |ids| && HasFix(h, ids[i]);
        if i < |init| {
          assert init[i] == ids[i];
        }
      }
    }
  }

  /** No listed entry is nearer than the one found. */
  lemma {:induction false} NearestMinimal(h: map<Id, Record>, ids: seq<Id>, center: Point)
    ensures var b := NearestTo(h, ids, center);
            b.Some? ==> forall i :: 0 <= i < |ids| && HasFix(h, ids[i]) ==>
                          DistanceTo(h, b.value, center) <= DistanceTo(h, ids[i], center)
    decreases |ids|
  {
    if ids != [] {
      var init := ids[..|ids| - 1];
      NearestMinimal(h, init, center);
      NearestExists(h, init, center);
      var b := NearestTo(h, ids, center);
      if b.Some? {
        forall i | 0 <= i < |ids| && HasFix(h, ids[i])
          ensures DistanceTo(h, b.value, center) <= DistanceTo(h, ids[i], center)
        {
          if i < |init| {
            assert init[i] == ids[i];
          }
        }
      }
    }
  }

  /** Every entry listed before the one found is strictly farther. */
  lemma {:induction false} NearestFirst(h: map<Id, Record>, ids: seq<Id>, center: Point)
    ensures var b := NearestTo(h, ids, center);
            b.Some? ==> exists k :: 0 <= k < |ids| && ids[k] == b.value
                          && forall j :: 0 <= j < k && HasFix(h, ids[j]) ==>
                               DistanceTo(h, ids[j], center) > DistanceTo(h, b.value, center)
    decreases |ids|
  {
    if ids != [] {
      var init := ids[..|ids| - 1];
      NearestFirst(h, init, center);
      NearestMinimal(h, init, center);
      NearestExists(h, init, center);
      var b := NearestTo(h, ids, center);
      var b0 := NearestTo(h, init, center);
      if b.Some? {
        if b == b0 {
          var k :| 0 <= k < |init| && init[k] == b.value
                   && forall j :: 0 <= j < k && HasFix(h, init[j]) ==>
                        DistanceTo(h, init[j], center) > DistanceTo(h, b.value, center);
          assert ids[k] == b.value;
          forall j | 0 <= j < k && HasFix(h, ids[j])
            ensures DistanceTo(h, ids[j], center) > DistanceTo(h, b.value, center)
          {
            assert ids[j] == init[j];
          }
        } else {
          var k := |ids| - 1;
          forall j | 0 <= j < k && HasFix(h, ids[j])
            ensures DistanceTo(h, ids[j], center) > DistanceTo(h, b.value, center)
          {
            assert ids[j] == init[j];
          }
        }
      }
    }
  }

  /** estimate_ship_position: mark the entry nearest `center` as the ship
      with confidence 0.8 and remember its newest position. */
  function MarkShip(log: Log, lastShip: Option<Point>, center: Point): (Log, Option<Point>)
  {
    var b := NearestTo(log.history, log.order, center);
    if b.None? then (log, lastShip)
    else
      var r := log.history[b.value];
      (Log(log.history[b.value := r.(suspected := ShipThreat, confidence := 0.8)], log.order),
       Some(LastFix(r)))
  }

  /** The outcome of salvo detection: the history, the latch and the
      estimated ship position. */
  datatype Salvo = Salvo(log: Log, detected: bool, lastShip: Option<Point>)

  /** detect_decoy_deployment: with more than one contact this cycle and at
      least three of them first detected in it, set the latch and mark the
      entry nearest their centroid as the ship. */
  function DetectSalvo(log: Log, cycle: nat, cur: Current, detected: bool, lastShip: Option<Point>): Salvo
  {
    var arrivals := NewTargets(log.history, cycle, cur.ids, cur.pos);
    if |cur.ids| <= 1 || |arrivals| < SalvoSize then Salvo(log, detected, lastShip)
    else
      var (log', ship) := MarkShip(log, lastShip, Centroid(arrivals));
      Salvo(log', true, ship)
  }

  /** The latch is never reset, and it is set by a cycle only when more
      than one contact was detected and at least three were new; a cycle
      without a salvo changes nothing at all. */
  lemma SalvoLatch(log: Log, cycle: nat, cur: Current, detected: bool, lastShip: Option<Point>)
    ensures var s := DetectSalvo(log, cycle, cur, detected, lastShip);
            && (detected ==> s.detected)
            && (s.detected && !detected ==>
                  |cur.ids| > 1 && |NewTargets(log.history, cycle, cur.ids, cur.pos)| >= SalvoSize)
    ensures |cur.ids| <= 1 || |NewTargets(log.history, cycle, cur.ids, cur.pos)| < SalvoSize ==>
              DetectSalvo(log, cycle, cur, detected, lastShip) == Salvo(log, detected, lastShip)
  {
  }

  /** When a salvo is detected and the history is well formed, the entry
      nearest the new contacts' centroid becomes the ship with confidence
      0.8 and its newest position is remembered; that entry keeps its
      positions and detection cycles, no entry is added or removed, the
      order is kept, and every other entry is unchanged. */
  lemma SalvoMarksNearest(log: Log, cycle: nat, cur: Current, detected: bool, lastShip: Option<Point>)
    requires LogValid(log, cycle)
    requires |cur.ids| > 1
    requires |NewTargets(log.history, cycle, cur.ids, cur.pos)| >= SalvoSize
    ensures var s := DetectSalvo(log, cycle, cur, detected, lastShip);
            var b := NearestTo(log.history, log.order, Centroid(NewTargets(log.history, cycle, cur.ids, cur.pos)));
            && s.detected && b.Some?
            && s.log.history[b.value].suspected == ShipThreat && s.log.history[b.value].confidence == 0.8
            && s.lastShip == Some(LastFix(log.history[b.value]))
            && s.log.history[b.value]
               == log.history[b.value].(suspected := ShipThreat, confidence := 0.8)
            && s.log.order == log.order
            && (forall id :: id in s.log.history <==> id in log.history)
            && (forall id :: id in log.history && id != b.value ==> s.log.history[id] == log.history[id])
  {
    var arrivals := NewTargets(log.history, cycle, cur.ids, cur.pos);
    var center := Centroid(arrivals);
    assert log.order != [] by {
      SalvoHasEntry(log, cycle, cur.ids, cur.pos);
    }
    assert HasFix(log.history, log.order[0]);
    NearestExists(log.history, log.order, center);
  }

  /** A new target comes from a recorded entry, so a non-empty list of new
      targets means the history is not empty. */
  lemma {:induction false} SalvoHasEntry(log: Log, cycle: nat, ids: seq<Id>, pos: map<Id, Point>)
    requires LogValid(log, cycle)
    requires NewTargets(log.history, cycle, ids, pos) != []
    ensures log.order != []
    decreases |ids|
  {
    var id := ids[|ids| - 1];
    if id in pos && id in log.history && log.history[id].firstDetected == cycle {
      assert id in log.order;
    } else {
      SalvoHasEntry(log, cycle, ids[..|ids| - 1], pos);
    }
  }

  /** Salvo detection keeps the history well formed and never changes a
      position window, a first or a last detection. */
  lemma SalvoKeepsValid(log: Log, cycle: nat, cur: Current, detected: bool, lastShip: Option<Point>)
    requires LogValid(log, cycle)
    ensures var s := DetectSalvo(log, cycle, cur, detected, lastShip);
            && LogValid(s.log, cycle) && s.log.order == log.order
            && (forall id :: id in s.log.history <==> id in log.history)
            && (forall id :: id in log.history ==>
                  && s.log.history[id].positions == log.history[id].positions
                  && s.log.history[id].firstDetected == log.history[id].firstDetected
                  && s.log.history[id].lastSeen == log.history[id].lastSeen)
  {
  }

  /** The motion figures the classifier works on: mean speed, speed
      variance and mean turn between successive movements. */
  datatype Motion = Motion(avgSpeed: real, speedVariance: real, avgDirectionChange: real)

  /** Displacement per cycle between two fixes of different cycles. */
  function Displacement(prev: Stamped, curr: Stamped): Point
    requires prev.time != curr.time
  {
    var dt := curr.time as real - prev.time as real;
    Point((curr.p.x - prev.p.x) / dt, (curr.p.y - prev.p.y) / dt)
  }

  /** The movement vectors of a position window: one per pair of successive
      fixes whose cycles differ. */
  function Movements(ps: seq<Stamped>): (mv: seq<Point>)
    ensures |mv| <= |ps|
    decreases |ps|
  {
    if |ps| < 2 then []
    else
      var prev, curr := ps[|ps| - 2], ps[|ps| - 1];
      Movements(ps[..|ps| - 1]) + if curr.time != prev.time then [Displacement(prev, curr)] else []
  }

  /** There are movements exactly when two successive fixes have different
      cycles. */
  lemma {:induction false} MovementsExist(ps: seq<Stamped>)
    ensures Movements(ps) != [] <==> exists i :: 1 <= i < |ps| && ps[i].time != ps[i - 1].time
    decreases |ps|
  {
    if |ps| >= 2 {
      var init := ps[..|ps| - 1];
      MovementsExist(init);
      if exists i :: 1 <= i < |ps| && ps[i].time != ps[i - 1].time {
        var i :| 1 <= i < |ps| && ps[i].time != ps[i - 1].time;
        if i < |ps| - 1 {
          assert init[i] == ps[i] && init[i - 1] == ps[i - 1];
        }
      }
      if exists i :: 1 <= i < |init| && init[i].time != init[i - 1].time {
        var i :| 1 <= i < |init| && init[i].time != init[i - 1].time;
        assert ps[i] == init[i] && ps[i - 1] == init[i - 1];
      }
    }
  }

  /** Mean, speed variance and mean turn of a non-empty list of movements;
      `speed` is the length of a movement vector and `turn` the angle
      between two, both supplied by the host; the model assumes nothing
      about the range of either. The mean turn is 0 for a single movement. */
  function Measure(mv: seq<Point>, speed: Point -> real, turn: (Point, Point) -> real): Motion
    requires mv != []
  {
    var speeds := seq(|mv|, i requires 0 <= i < |mv| => speed(mv[i]));
    var avg := Sum(speeds) / |mv| as real;
    var deviations := seq(|mv|, i requires 0 <= i < |mv| => (speeds[i] - avg) * (speeds[i] - avg));
    var turns := seq(|mv| - 1, i requires 0 <= i < |mv| - 1 => turn(mv[i], mv[i + 1]));
    Motion(avg, Sum(deviations) / |mv| as real,
           if turns == [] then 0.0 else Sum(turns) / |turns| as real)
  }

  /** Steady ship speed (2.5 to 3.5, variance below 0.2) with evasive turns. */
  ghost predicate ShipLike(m: Motion)
  {
    2.5 <= m.avgSpeed <= 3.5 && m.speedVariance < 0.2 && m.avgDirectionChange > 0.3
  }

  /** Slow, very steady (variance below 0.1), nearly straight motion. */
  ghost predicate SelfPropelledLike(m: Motion)
  {
    1.5 <= m.avgSpeed <= 2.5 && m.speedVariance < 0.1 && m.avgDirectionChange < 0.2
  }

  /** Nearly at rest. */
  ghost predicate StationaryLike(m: Motion)
  {
    m.avgSpeed < 0.5
  }

  /** The classifier's rules, tried in order; the first that matches wins. */
  function Cascade(m: Motion): (ThreatType, real)
  {
    if 2.5 <= m.avgSpeed <= 3.5 && m.speedVariance < 0.2 && m.avgDirectionChange > 0.3 then
      (ShipThreat, 0.9)
    else if 1.5 <= m.avgSpeed <= 2.5 && m.speedVariance < 0.1 && m.avgDirectionChange < 0.2 then
      (SelfPropelledThreat, 0.8)
    else if m.avgSpeed < 0.5 then
      (StationaryThreat, 0.9)
    else
      (UnknownThreat, 0.5)
  }

  /** No motion matches two rules: a ship must turn more than 0.3 and a
      self-propelled decoy less than 0.2, and both are faster than 0.5. */
  lemma RulesExclusive(m: Motion)
    ensures !(ShipLike(m) && SelfPropelledLike(m))
    ensures !(ShipLike(m) && StationaryLike(m))
    ensures !(SelfPropelledLike(m) && StationaryLike(m))
  {
  }

  /** Each label is given exactly when its rule matches (the rule order does
      not matter since the rules exclude each other), unknown when none
      does; a ship or a stationary decoy gets confidence 0.9, a
      self-propelled decoy 0.8 and an unknown contact 0.5. */
  lemma CascadeMatchesRules(m: Motion)
    ensures Cascade(m).0 == ShipThreat <==> ShipLike(m)
    ensures Cascade(m).0 == SelfPropelledThreat <==> SelfPropelledLike(m)
    ensures Cascade(m).0 == StationaryThreat <==> StationaryLike(m)
    ensures Cascade(m).0 == UnknownThreat <==> !ShipLike(m) && !SelfPropelledLike(m) && !StationaryLike(m)
    ensures Cascade(m).1 == match Cascade(m).0
                            case ShipThreat => 0.9
                            case SelfPropelledThreat => 0.8
                            case StationaryThreat => 0.9
                            case UnknownThreat => 0.5
  {
    RulesExclusive(m);
  }

  /** classify_threat_type on one entry: with two or more fixes and at
      least one movement, the entry takes the cascade's label and
      confidence; otherwise it is left as it is. */
  function Classified(r: Record, speed: Point -> real, turn: (Point, Point) -> real): Record
  {
    if |r.positions| < 2 then r
    else
      var mv := Movements(r.positions);
      if mv == [] then r
      else
        var (t, confidence) := Cascade(Measure(mv, speed, turn));
        r.(suspected := t, confidence := confidence)
  }

  /** Classification changes only the label and the confidence; without a
      movement it changes nothing; with one, the label and confidence are
      one of the four outcomes, so the confidence lies in [0.5, 0.9];
      classifying twice is classifying once. */
  lemma ClassifiedOutcome(r: Record, speed: Point -> real, turn: (Point, Point) -> real)
    ensures var r' := Classified(r, speed, turn);
            && r' == r.(suspected := r'.suspected, confidence := r'.confidence)
            && (Movements(r.positions) == [] ==> r' == r)
            && (Movements(r.positions) != [] ==>
                  (r'.suspected, r'.confidence) in {(ShipThreat, 0.9), (SelfPropelledThreat, 0.8),
                                                    (StationaryThreat, 0.9), (UnknownThreat, 0.5)})
            && Classified(r', speed, turn) == r'
  {
  }

  /** The classification pass over the history, in history order. */
  function ClassifyAll(h: map<Id, Record>, ids: seq<Id>, speed: Point -> real,
                       turn: (Point, Point) -> real): map<Id, Record>
    decreases |ids|
  {
    if ids == [] then h
    else
      var h' := ClassifyAll(h, ids[..|ids| - 1], speed, turn);
      var id := ids[|ids| - 1];
      if id in h' && |h'[id].positions| >= 2 then h'[id := Classified(h'[id], speed, turn)] else h'
  }

  /** The pass classifies every listed entry and leaves the others as they
      are. */
  lemma {:induction false} ClassifyAllEntries(h: map<Id, Record>, ids: seq<Id>, speed: Point -> real,
                                              turn: (Point, Point) -> real)
    ensures var h' := ClassifyAll(h, ids, speed, turn);
            && (forall id :: id in h' <==> id in h)
            && (forall id :: id in h ==> h'[id] == if id in ids then Classified(h[id], speed, turn) else h[id])
    decreases |ids|
  {
    if ids != [] {
      var init := ids[..|ids| - 1];
      ClassifyAllEntries(h, init, speed, turn);
      var id := ids[|ids| - 1];
      if id in h {
        ClassifiedOutcome(h[id], speed, turn);
      }
    }
  }

  /** The controller's state. */
  datatype State = State(log: Log, cycle: nat, decoyDeployment: bool, lastRealShip: Option<Point>,
                         confirmedDecoys: set<Id>, density: nat, strategy: Strategy)

  /** The state the controller starts in. */
  function Initial(): State
  {
    State(Log(map[], []), 0, false, None, {}, 0, SmartSelection)
  }

  /** analyze_threat_pattern: on a non-empty list, open a new cycle, record
      every contact, look for a decoy salvo, then classify every entry. */
  function Analyze(st: State, cs: seq<Contact>, speed: Point -> real, turn: (Point, Point) -> real): State
  {
    if cs == [] then st
    else
      Conclude(st, DetectSalvo(ObserveAll(st.log, st.cycle + 1, cs), st.cycle + 1, CurrentPositions(cs),
                               st.decoyDeployment, st.lastRealShip),
               speed, turn)
  }

  /** The end of a non-empty cycle, once the salvo check `s` is done:
      classify every entry and install the new cycle, latch and ship
      estimate. */
  function Conclude(st: State, s: Salvo, speed: Point -> real, turn: (Point, Point) -> real): State
  {
    st.(log := Log(ClassifyAll(s.log.history, s.log.order, speed, turn), s.log.order),
        cycle := st.cycle + 1, decoyDeployment := s.detected, lastRealShip := s.lastShip)
  }

  /** An empty list changes nothing, the cycle counter included. */
  lemma AnalyzeEmpty(st: State, speed: Point -> real, turn: (Point, Point) -> real)
    ensures Analyze(st, [], speed, turn) == st
  {
  }

  /** The salvo check of a cycle keeps the history well formed and never
      resets the latch. */
  lemma CycleSalvoKeepsValid(st: State, cs: seq<Contact>)
    requires LogValid(st.log, st.cycle)
    ensures LogValid(DetectSalvo(ObserveAll(st.log, st.cycle + 1, cs), st.cycle + 1, CurrentPositions(cs),
                                 st.decoyDeployment, st.lastRealShip).log, st.cycle + 1)
    ensures st.decoyDeployment ==> DetectSalvo(ObserveAll(st.log, st.cycle + 1, cs), st.cycle + 1, CurrentPositions(cs),
                                               st.decoyDeployment, st.lastRealShip).detected
  {
    var cycle := st.cycle + 1;
    LogValidLater(st.log, st.cycle, cycle);
    var log := ObserveAll(st.log, cycle, cs);
    ObserveAllKeepsValid(st.log, cycle, cs);
    SalvoKeepsValid(log, cycle, CurrentPositions(cs), st.decoyDeployment, st.lastRealShip);
  }

  /** After the salvo check of a cycle every detected contact is recorded
      and last seen in the new cycle, and each new entry was first seen in
      it. */
  lemma CycleSalvoRecords(st: State, cs: seq<Contact>)
    requires LogValid(st.log, st.cycle)
    ensures var s := DetectSalvo(ObserveAll(st.log, st.cycle + 1, cs), st.cycle + 1, CurrentPositions(cs),
                         st.decoyDeployment, st.lastRealShip);
            && (forall i :: 0 <= i < |cs| ==> cs[i].id in s.log.history
                                              && s.log.history[cs[i].id].lastSeen == st.cycle + 1)
            && (forall id :: id in s.log.history && id !in st.log.history ==>
                               s.log.history[id].firstDetected == st.cycle + 1)
  {
    var cycle := st.cycle + 1;
    LogValidLater(st.log, st.cycle, cycle);
    var log := ObserveAll(st.log, cycle, cs);
    ObserveAllKeepsValid(st.log, cycle, cs);
    ObserveAllMarksSeen(st.log, cycle, cs);
    SalvoKeepsValid(log, cycle, CurrentPositions(cs), st.decoyDeployment, st.lastRealShip);
  }

  /** Concluding a cycle advances the counter by one and classifies every
      entry, keeping the history well formed; the position windows, the
      detections, the confirmed decoys, the density and the strategy are
      untouched. */
  lemma ConcludeClassifies(st: State, s: Salvo, speed: Point -> real, turn: (Point, Point) -> real)
    requires LogValid(s.log, st.cycle + 1)
    ensures var st' := Conclude(st, s, speed, turn);
            && st'.cycle == st.cycle + 1 && LogValid(st'.log, st'.cycle)
            && (forall id :: id in st'.log.history <==> id in s.log.history)
            && (forall id :: id in s.log.history ==>
                  st'.log.history[id] == Classified(s.log.history[id], speed, turn))
            && st'.confirmedDecoys == st.confirmedDecoys && st'.density == st.density
            && st'.strategy == st.strategy
  {
    ClassifyAllEntries(s.log.history, s.log.order, speed, turn);
    ClassifyKeepsValid(s.log, st.cycle + 1, speed, turn);
  }

  /** A non-empty list advances the cycle by exactly one, keeps the history
      well formed, marks every detected contact as last seen in the new
      cycle and every new entry as first seen in it, never resets the salvo
      latch and leaves the confirmed decoys, the density and the strategy
      alone. */
  lemma AnalyzeAdvances(st: State, cs: seq<Contact>, speed: Point -> real, turn: (Point, Point) -> real)
    requires cs != [] && LogValid(st.log, st.cycle)
    ensures var st' := Analyze(st, cs, speed, turn);
            && st'.cycle == st.cycle + 1
            && LogValid(st'.log, st'.cycle)
            && (forall i :: 0 <= i < |cs| ==> cs[i].id in st'.log.history
                                              && st'.log.history[cs[i].id].lastSeen == st'.cycle)
            && (forall id :: id in st'.log.history && id !in st.log.history ==>
                               st'.log.history[id].firstDetected == st'.cycle)
            && (st.decoyDeployment ==> st'.decoyDeployment)
            && st'.confirmedDecoys == st.confirmedDecoys && st'.density == st.density
            && st'.strategy == st.strategy
  {
    var s := DetectSalvo(ObserveAll(st.log, st.cycle + 1, cs), st.cycle + 1, CurrentPositions(cs),
                         st.decoyDeployment, st.lastRealShip);
    CycleSalvoKeepsValid(st, cs);
    CycleSalvoRecords(st, cs);
    ConcludeClassifies(st, s, speed, turn);
    forall id | id in s.log.history
      ensures Classified(s.log.history[id], speed, turn).lastSeen == s.log.history[id].lastSeen
      ensures Classified(s.log.history[id], speed, turn).firstDetected == s.log.history[id].firstDetected
    {
      ClassifiedOutcome(s.log.history[id], speed, turn);
    }
  }

  /** Classifying every entry keeps the history well formed. */
  lemma ClassifyKeepsValid(log: Log, cycle: nat, speed: Point -> real, turn: (Point, Point) -> real)
    requires LogValid(log, cycle)
    ensures LogValid(Log(ClassifyAll(log.history, log.order, speed, turn), log.order), cycle)
  {
    ClassifyAllEntries(log.history, log.order, speed, turn);
    forall id | id in log.history
      ensures RecordValid(Classified(log.history[id], speed, turn), cycle)
    {
      ClassifiedOutcome(log.history[id], speed, turn);
    }
  }

  /** The ship mark of a salvo survives the cycle only when the marked entry
      shows no movement; otherwise the classification pass that follows
      replaces it with the cascade's own label. */
  lemma AnalyzeSalvoMark(st: State, cs: seq<Contact>, speed: Point -> real, turn: (Point, Point) -> real)
    requires cs != [] && LogValid(st.log, st.cycle)
    ensures var s := DetectSalvo(ObserveAll(st.log, st.cycle + 1, cs), st.cycle + 1, CurrentPositions(cs),
                         st.decoyDeployment, st.lastRealShip);
            var st' := Analyze(st, cs, speed, turn);
            forall id :: id in s.log.history ==>
              && id in st'.log.history
              && st'.log.history[id] == Classified(s.log.history[id], speed, turn)
              && (Movements(s.log.history[id].positions) == [] ==> st'.log.history[id] == s.log.history[id])
  {
    var s := DetectSalvo(ObserveAll(st.log, st.cycle + 1, cs), st.cycle + 1, CurrentPositions(cs),
                         st.decoyDeployment, st.lastRealShip);
    CycleSalvoKeepsValid(st, cs);
    CycleSalvoRecords(st, cs);
    ConcludeClassifies(st, s, speed, turn);
    forall id | id in s.log.history
      ensures Movements(s.log.history[id].positions) == [] ==>
                Classified(s.log.history[id], speed, turn) == s.log.history[id]
    {
      ClassifiedOutcome(s.log.history[id], speed, turn);
    }
  }

  /** Entries last seen at most two cycles ago, counted over `ids`. */
  function CountActive(h: map<Id, Record>, ids: seq<Id>, cycle: nat): nat
    decreases |ids|
  {
    if ids == [] then 0
    else
      var id := ids[|ids| - 1];
      CountActive(h, ids[..|ids| - 1], cycle)
        + if id in h && cycle - h[id].lastSeen <= ActiveWindow then 1 else 0
  }

  /** Entries labelled ship with confidence above 0.7, counted over `ids`. */
  function CountShips(h: map<Id, Record>, ids: seq<Id>): nat
    decreases |ids|
  {
    if ids == [] then 0
    else
      var id := ids[|ids| - 1];
      CountShips(h, ids[..|ids| - 1])
        + if id in h && h[id].suspected == ShipThreat && h[id].confidence > 0.7 then 1 else 0
  }

  ghost predicate Active(h: map<Id, Record>, id: Id, cycle: nat)
  {
    id in h && cycle - h[id].lastSeen <= ActiveWindow
  }

  ghost predicate ShipCandidate(h: map<Id, Record>, id: Id)
  {
    id in h && h[id].suspected == ShipThreat && h[id].confidence > 0.7
  }

  /** Over a list without repetitions, the count is the number of active
      listed entries. */
  lemma {:induction false} CountActiveIsCard(h: map<Id, Record>, ids: seq<Id>, cycle: nat)
    requires forall i, j :: 0 <= i < j < |ids| ==> ids[i] != ids[j]
    ensures CountActive(h, ids, cycle) == |set id | id in ids && Active(h, id, cycle)|
    decreases |ids|
  {
    if ids != [] {
      var init := ids[..|ids| - 1];
      var last := ids[|ids| - 1];
      CountActiveIsCard(h, init, cycle);
      var before := set id | id in init && Active(h, id, cycle);
      var after := set id | id in ids && Active(h, id, cycle);
      forall k | 0 <= k < |init|
        ensures init[k] != last
      {
        assert init[k] == ids[k];
      }
      assert ids == init + [last];
      if Active(h, last, cycle) {
        assert after == before + {last};
      } else {
        assert after == before;
      }
    }
  }

  /** Some listed entry is a ship candidate exactly when the count is
      positive. */
  lemma {:induction false} CountShipsPositive(h: map<Id, Record>, ids: seq<Id>)
    ensures CountShips(h, ids) >= 1 <==> exists id :: id in ids && ShipCandidate(h, id)
    decreases |ids|
  {
    if ids != [] {
      var init := ids[..|ids| - 1];
      CountShipsPositive(h, init);
      var last := ids[|ids| - 1];
      assert ids == init + [last];
      if exists id :: id in ids && ShipCandidate(h, id) {
        var id :| id in ids && ShipCandidate(h, id);
        if id != last {
          assert id in init;
        }
      }
      if CountShips(h, ids) >= 1 {
        if CountShips(h, init) >= 1 {
          var id :| id in init && ShipCandidate(h, id);
          assert id in ids;
        } else {
          assert last in ids && ShipCandidate(h, last);
        }
      }
    }
  }

  /** The three-way strategy choice. */
  function ChooseStrategy(shipCandidates: nat, decoyDeployment: bool, confirmedDecoys: nat): Strategy
  {
    if shipCandidates >= 1 then SmartSelection
    else if decoyDeployment && confirmedDecoys >= 2 then BypassDecoys
    else AggressiveHunt
  }

  /** select_optimal_strategy: recount the active entries and choose. */
  function SelectStrategy(st: State): State
  {
    var h := st.log.history;
    st.(density := CountActive(h, st.log.order, st.cycle),
        strategy := ChooseStrategy(CountShips(h, st.log.order), st.decoyDeployment, |st.confirmedDecoys|))
  }

  /** The density is the number of entries last seen at most two cycles
      ago. */
  lemma DensityCountsActive(st: State)
    requires LogValid(st.log, st.cycle)
    ensures SelectStrategy(st).density == |set id | id in st.log.history && Active(st.log.history, id, st.cycle)|
  {
    CountActiveIsCard(st.log.history, st.log.order, st.cycle);
    var h := st.log.history;
    assert (set id | id in st.log.order && Active(h, id, st.cycle))
           == (set id | id in h && Active(h, id, st.cycle));
  }

  /** Smart selection exactly when some entry is a ship with confidence
      above 0.7; otherwise bypassing decoys exactly when a salvo was seen
      and at least two decoys are confirmed; otherwise the aggressive hunt.
      Nothing but the density and the strategy changes. */
  lemma StrategyRules(st: State)
    requires LogValid(st.log, st.cycle)
    ensures var st' := SelectStrategy(st);
            var ships := exists id :: id in st.log.history && ShipCandidate(st.log.history, id);
            && (st'.strategy == SmartSelection <==> ships)
            && (st'.strategy == BypassDecoys <==> !ships && st.decoyDeployment && |st.confirmedDecoys| >= 2)
            && (st'.strategy == AggressiveHunt <==> !ships && !(st.decoyDeployment && |st.confirmedDecoys| >= 2))
            && st' == st.(density := st'.density, strategy := st'.strategy)
  {
    CountShipsPositive(st.log.history, st.log.order);
  }

  /** No operation ever confirms a decoy, so from the initial state the
      controller never bypasses decoys. */
  lemma BypassUnreachable(st: State)
    requires st.confirmedDecoys == Initial().confirmedDecoys
    ensures SelectStrategy(st).strategy != BypassDecoys
  {
  }

  /** Closeness score: 50 less the range, never negative. */
  function ClosenessScore(d: Distance): (r: real)
    ensures 0.0 <= r <= 50.0
    ensures d <= 50.0 ==> r + d == 50.0
  {
    Max(0.0, 50.0 - d)
  }

  /** The label part of a contact's priority, with the strategy's bonus:
      100, 20 or 5 times the confidence for a ship, a self-propelled or a
      stationary decoy, 30 for an unknown or unrecorded contact; under smart
      selection a ship gains 50 and a confirmed decoy drops to 1; when
      bypassing decoys a confirmed decoy drops to 1 and a contact within 10
      of the estimated ship gains 30. */
  function TypeScore(st: State, c: Contact): real
  {
    var h := st.log.history;
    var known := c.id in h;
    var base := if !known then 30.0
                else match h[c.id].suspected
                     case ShipThreat => 100.0 * h[c.id].confidence
                     case SelfPropelledThreat => 20.0 * h[c.id].confidence
                     case StationaryThreat => 5.0 * h[c.id].confidence
                     case UnknownThreat => 30.0;
    match st.strategy
    case SmartSelection =>
      if known && h[c.id].suspected == ShipThreat then base + 50.0
      else if c.id in st.confirmedDecoys then 1.0
      else base
    case BypassDecoys =>
      if c.id in st.confirmedDecoys then 1.0
      else if st.lastRealShip.Some? && SquaredDistance(c.pos, st.lastRealShip.value) < 100.0 then base + 30.0
      else base
    case AggressiveHunt => base
  }

  /** A contact's priority: closeness plus label score. */
  function PriorityKey(st: State): Contact -> real
  {
    (c: Contact) => ClosenessScore(c.range) + TypeScore(st, c)
  }

  /** prioritize_threats: the contacts by descending priority, ties in list
      order. */
  function Prioritize(st: State, cs: seq<Contact>): seq<Contact>
  {
    Ranking.SortDescending(cs, PriorityKey(st))
  }

  /** The prioritised list is a permutation of the input in non-increasing
      priority order; in particular it is empty exactly when the input is. */
  lemma PrioritizeRanks(st: State, cs: seq<Contact>)
    ensures multiset(Prioritize(st, cs)) == multiset(cs)
    ensures Ranking.Descending(Prioritize(st, cs), PriorityKey(st))
    ensures Prioritize(st, cs) == [] <==> cs == []
  {
    Ranking.SortPermutes(cs, PriorityKey(st));
    Ranking.SortSorted(cs, PriorityKey(st));
  }

  /** Under smart selection, any contact recorded as a ship outranks every
      contact not recorded as one, whatever their ranges. */
  lemma SmartSelectionPrefersShips(st: State, c: Contact, d: Contact)
    requires LogValid(st.log, st.cycle) && st.strategy == SmartSelection
    requires c.id in st.log.history && st.log.history[c.id].suspected == ShipThreat
    requires !(d.id in st.log.history && st.log.history[d.id].suspected == ShipThreat)
    ensures PriorityKey(st)(c) > PriorityKey(st)(d)
  {
    assert RecordValid(st.log.history[c.id], st.cycle);
    if d.id in st.log.history {
      assert RecordValid(st.log.history[d.id], st.cycle);
    }
  }

  /** The smallest range in a non-empty list. */
  function MinRange(cs: seq<Contact>): (r: real)
    requires cs != []
    ensures forall c :: c in cs ==> r <= c.range
    ensures exists c :: c in cs && r == c.range
    decreases |cs|
  {
    if |cs| == 1 then cs[0].range
    else
      var m := MinRange(cs[..|cs| - 1]);
      assert forall c :: c in cs[..|cs| - 1] ==> c in cs;
      Min(m, cs[|cs| - 1].range)
  }

  /** The output's evasion trigger: the closest prioritised contact is
      nearer than 15. */
  function EvasionDue(prioritized: seq<Contact>): bool
  {
    prioritized != [] && MinRange(prioritized) < EvasionRange
  }

  /** Evasion is requested exactly when some detected contact is nearer than
      15. */
  lemma EvasionDueIff(st: State, cs: seq<Contact>)
    ensures EvasionDue(Prioritize(st, cs)) <==> exists c :: c in cs && c.range < EvasionRange
  {
    var p := Prioritize(st, cs);
    PrioritizeRanks(st, cs);
    if exists c :: c in cs && c.range < EvasionRange {
      var c :| c in cs && c.range < EvasionRange;
      assert c in multiset(p);
    }
    if EvasionDue(p) {
      var c :| c in p && MinRange(p) == c.range;
      assert c in multiset(cs);
    }
  }

  class CommandControl {
    var threatHistory: map<Id, Record>
    /** The identities of threatHistory in insertion order. */
    var historyOrder: seq<Id>
    var detectionCycle: nat
    var lastRealShipPosition: Option<Point>
    var confirmedDecoys: set<Id>
    var threatDensity: nat
    var decoyDeploymentDetected: bool
    var engagementStrategy: Strategy
    /** Length of a movement vector, supplied by the host. */
    const speed: Point -> real
    /** Angle between two movement vectors, supplied by the host; no range
        is assumed. */
    const turn: (Point, Point) -> real

    ghost function Tracked(): Log
      reads this`threatHistory, this`historyOrder
    {
      Log(threatHistory, historyOrder)
    }

    ghost function Abstract(): State
      reads this
    {
      State(Tracked(), detectionCycle, decoyDeploymentDetected, lastRealShipPosition,
            confirmedDecoys, threatDensity, engagementStrategy)
    }

    /** The history is well formed and, since nothing ever confirms a decoy,
        the set of confirmed decoys stays empty. */
    ghost predicate Valid()
      reads this
    {
      LogValid(Tracked(), detectionCycle) && confirmedDecoys == {}
    }

    constructor (speed: Point -> real, turn: (Point, Point) -> real)
      ensures Valid() && this.speed == speed && this.turn == turn
      ensures Abstract() == Initial()
    {
      this.speed := speed;
      this.turn := turn;
      threatHistory := map[];
      historyOrder := [];
      detectionCycle := 0;
      lastRealShipPosition := None;
      confirmedDecoys := {};
      threatDensity := 0;
      decoyDeploymentDetected := false;
      engagementStrategy := SmartSelection;
    }

    /** analyze_threat_pattern */
    method AnalyzeThreatPattern(cs: seq<Contact>)
      requires Valid()
      modifies this
      ensures Valid()
      ensures Abstract() == Analyze(old(Abstract()), cs, speed, turn)
    {
      if cs != [] {
        ghost var st := Abstract();
        AnalyzeCycle(cs);
        AnalyzeAdvances(st, cs, speed, turn);
      }
    }

    /** A non-empty cycle of analyze_threat_pattern. */
    method AnalyzeCycle(cs: seq<Contact>)
      modifies this`detectionCycle, this`threatHistory, this`historyOrder,
               this`decoyDeploymentDetected, this`lastRealShipPosition
      ensures Abstract() == Conclude(old(Abstract()),
                                    DetectSalvo(ObserveAll(old(Abstract()).log, old(Abstract()).cycle + 1, cs),
                                                old(Abstract()).cycle + 1, CurrentPositions(cs),
                                                old(Abstract()).decoyDeployment, old(Abstract()).lastRealShip),
                                    speed, turn)
    {
      ObserveContacts(cs);
      ClassifyThreats();
    }

    /** The first part of a non-empty cycle of analyze_threat_pattern: open
        the cycle, record every contact and look for a decoy salvo. */
    method ObserveContacts(cs: seq<Contact>)
      modifies this`detectionCycle, this`threatHistory, this`historyOrder,
               this`decoyDeploymentDetected, this`lastRealShipPosition
      ensures detectionCycle == old(detectionCycle) + 1
      ensures Salvo(Tracked(), decoyDeploymentDetected, lastRealShipPosition)
              == DetectSalvo(ObserveAll(old(Abstract()).log, old(Abstract()).cycle + 1, cs),
                             old(Abstract()).cycle + 1, CurrentPositions(cs),
                             old(Abstract()).decoyDeployment, old(Abstract()).lastRealShip)
    {
      ghost var st := Abstract();
      ghost var log := ObserveAll(st.log, st.cycle + 1, cs);
      detectionCycle := detectionCycle + 1;
      RecordThreats(cs);
      assert Tracked() == log;
      var current := CollectPositions(cs);
      DetectDecoyDeployment(current);
    }

    /** The recording loop of analyze_threat_pattern. */
    method RecordThreats(cs: seq<Contact>)
      modifies this`threatHistory, this`historyOrder
      ensures Tracked() == ObserveAll(old(Tracked()), detectionCycle, cs)
    {
      ghost var log := Tracked();
      var i := 0;
      while i < |cs|
        invariant 0 <= i <= |cs|
        invariant Tracked() == ObserveAll(log, detectionCycle, cs[..i])
      {
        var c := cs[i];
        if c.id !in threatHistory {
          threatHistory := threatHistory[c.id := NewRecord(detectionCycle)];
          historyOrder := historyOrder + [c.id];
        }
        var r := threatHistory[c.id];
        var positions := Window.Append(r.positions, Stamped(detectionCycle, c.pos), HistoryCap);
        threatHistory := threatHistory[c.id := r.(positions := positions, lastSeen := detectionCycle)];
        assert cs[..i + 1][..i] == cs[..i];
        i := i + 1;
      }
      assert cs[..|cs|] == cs;
    }

    /** The cycle's `current_positions` dictionary. */
    method CollectPositions(cs: seq<Contact>) returns (current: Current)
      ensures current == CurrentPositions(cs)
    {
      current := Current([], map[]);
      var i := 0;
      while i < |cs|
        invariant 0 <= i <= |cs|
        invariant current == CurrentPositions(cs[..i])
      {
        var c := cs[i];
        if c.id !in current.pos {
          current := current.(ids := current.ids + [c.id]);
        }
        current := current.(pos := current.pos[c.id := c.pos]);
        assert cs[..i + 1][..i] == cs[..i];
        i := i + 1;
      }
      assert cs[..|cs|] == cs;
    }

    /** detect_decoy_deployment */
    method DetectDecoyDeployment(current: Current)
      modifies this`threatHistory, this`decoyDeploymentDetected, this`lastRealShipPosition
      ensures Salvo(Tracked(), decoyDeploymentDetected, lastRealShipPosition)
              == DetectSalvo(old(Tracked()), detectionCycle, current, old(decoyDeploymentDetected),
                             old(lastRealShipPosition))
    {
      if |current.ids| <= 1 {
        return;
      }
      var arrivals: seq<Point> := [];
      var i := 0;
      while i < |current.ids|
        invariant 0 <= i <= |current.ids|
        invariant arrivals == NewTargets(threatHistory, detectionCycle, current.ids[..i], current.pos)
      {
        var id := current.ids[i];
        if id in current.pos && id in threatHistory && threatHistory[id].firstDetected == detectionCycle {
          arrivals := arrivals + [current.pos[id]];
        }
        assert current.ids[..i + 1][..i] == current.ids[..i];
        i := i + 1;
      }
      assert current.ids[..|current.ids|] == current.ids;
      if |arrivals| >= SalvoSize {
        decoyDeploymentDetected := true;
        EstimateShipPosition(Centroid(arrivals));
      }
    }

    /** estimate_ship_position, given the centroid of the new contacts. */
    method EstimateShipPosition(center: Point)
      modifies this`threatHistory, this`lastRealShipPosition
      ensures (Tracked(), lastRealShipPosition) == MarkShip(old(Tracked()), old(lastRealShipPosition), center)
    {
      var best: Option<Id> := None;
      var minDistance := 0.0;
      var i := 0;
      while i < |historyOrder|
        invariant 0 <= i <= |historyOrder|
        invariant best == NearestTo(threatHistory, historyOrder[..i], center)
        invariant best.Some? ==> minDistance == DistanceTo(threatHistory, best.value, center)
      {
        var id := historyOrder[i];
        if id in threatHistory && threatHistory[id].positions != [] {
          var d := DistanceTo(threatHistory, id, center);
          if best.None? || d < minDistance {
            minDistance := d;
            best := Some(id);
          }
        }
        assert historyOrder[..i + 1][..i] == historyOrder[..i];
        i := i + 1;
      }
      assert historyOrder[..|historyOrder|] == historyOrder;
      if best.Some? {
        var r := threatHistory[best.value];
        threatHistory := threatHistory[best.value := r.(suspected := ShipThreat, confidence := 0.8)];
        lastRealShipPosition := Some(LastFix(r));
      }
    }

    /** The classification loop of analyze_threat_pattern, calling
        classify_threat_type on every entry with two or more positions. */
    method ClassifyThreats()
      modifies this`threatHistory
      ensures threatHistory == ClassifyAll(old(threatHistory), historyOrder, speed, turn)
    {
      var h := threatHistory;
      var i := 0;
      while i < |historyOrder|
        invariant 0 <= i <= |historyOrder|
        invariant h == ClassifyAll(threatHistory, historyOrder[..i], speed, turn)
      {
        var id := historyOrder[i];
        if id in h && |h[id].positions| >= 2 {
          h := h[id := Classified(h[id], speed, turn)];
        }
        assert historyOrder[..i + 1][..i] == historyOrder[..i];
        i := i + 1;
      }
      assert historyOrder[..|historyOrder|] == historyOrder;
      threatHistory := h;
    }

    /** select_optimal_strategy */
    method SelectOptimalStrategy()
      requires Valid()
      modifies this`threatDensity, this`engagementStrategy
      ensures Valid()
      ensures Abstract() == SelectStrategy(old(Abstract()))
      ensures engagementStrategy != BypassDecoys
    {
      var active, ships := 0, 0;
      var i := 0;
      while i < |historyOrder|
        invariant 0 <= i <= |historyOrder|
        invariant active == CountActive(threatHistory, historyOrder[..i], detectionCycle)
        invariant ships == CountShips(threatHistory, historyOrder[..i])
      {
        var id := historyOrder[i];
        if id in threatHistory {
          var r := threatHistory[id];
          if detectionCycle - r.lastSeen <= ActiveWindow {
            active := active + 1;
          }
          if r.suspected == ShipThreat && r.confidence > 0.7 {
            ships := ships + 1;
          }
        }
        assert historyOrder[..i + 1][..i] == historyOrder[..i];
        i := i + 1;
      }
      assert historyOrder[..|historyOrder|] == historyOrder;
      threatDensity := active;
      engagementStrategy := ChooseStrategy(ships, decoyDeploymentDetected, |confirmedDecoys|);
    }
  }
}
