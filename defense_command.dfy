/**
 * The defending ship's command and control: it keeps a short window of
 * samples of the nearest torpedo, infers from them whether the torpedo homes
 * on distance ("distance priority") or follows the ship's movements
 * ("movement tracking"), picks an escape heading according to that pattern,
 * and deploys decoys once.
 *
 * Geometry is supplied by the host: each contact carries its range from the
 * ship, the bearing of the torpedo is given as an angle in degrees, and the
 * angle between two movement vectors, in degrees, is a function the host
 * provides.
 */
module DefenseCommand {
  import opened Common
  import Window

  /** Samples kept in the pattern window. */
  const HistoryCap: nat := 4
  /** Samples needed before a pattern is inferred. */
  const MinSamples: nat := 3
  /** Average change of range per sample below which the torpedo closes in. */
  const ClosingRate: real := -0.5
  /** A turn sharper than this, in degrees, counts as a change of direction. */
  const TurnThreshold: real := 25.0
  /** Confidence below which a pattern is not acted upon. */
  const ActThreshold: real := 0.2
  /** Range at or below which decoys are deployed. */
  const DeployRange: real := 35.0
  /** Range below which a tracking torpedo is met with a zigzag. */
  const ZigzagRange: real := 15.0

  datatype Pattern = UnknownPattern | DistancePriority | MovementTracking

  /** One entry of the pattern window: where the nearest torpedo was and its
      range from the ship. */
  datatype Sample = Sample(torpedo: Point, range: Distance)

  /** The controller's state. */
  datatype State = State(pattern: Pattern, confidence: real, history: seq<Sample>,
                         lastTorpedo: Option<Point>, decoyDeployed: bool,
                         fixedEscapeAngle: Option<real>, escapeAngleSet: bool)

  /** The state the controller starts in. */
  function Initial(): State
  {
    State(UnknownPattern, 0.0, [], None, false, None, false)
  }

  /** What every reachable state satisfies: the confidence is a fraction,
      zero until a pattern is named and at least the pattern's entry value
      afterwards; the window holds at most four samples; and a latched escape
      heading exists, lies in [0, 360) and belongs to the distance-priority
      pattern. */
  ghost predicate Sound(st: State)
  {
    && 0.0 <= st.confidence <= 1.0
    && |st.history| <= HistoryCap
    && (st.pattern == UnknownPattern ==> st.confidence == 0.0)
    && (st.pattern == DistancePriority ==> st.confidence >= 0.6)
    && (st.pattern == MovementTracking ==> st.confidence >= 0.5)
    && (st.escapeAngleSet ==>
          st.pattern == DistancePriority && st.fixedEscapeAngle.Some?
          && 0.0 <= st.fixedEscapeAngle.value < 360.0)
  }

  lemma InitialSound()
    ensures Sound(Initial())
  {
  }

  // ---------------------------------------------------------------------
  // Sampling the nearest torpedo

  /** Python's `min` by range: the first contact of least range. */
  function Closest(cs: seq<Contact>): (c: Contact)
    requires cs != []
    ensures c in cs
    ensures forall d :: d in cs ==> c.range <= d.range
  {
    if |cs| == 1 then cs[0]
    else
      var m := Closest(cs[1..]);
      if cs[0].range <= m.range then cs[0] else m
  }

  /** Ties go to the earliest contact, as with Python's `min`. */
  lemma {:induction false} ClosestFirst(cs: seq<Contact>)
    requires cs != []
    ensures exists k :: 0 <= k < |cs| && cs[k] == Closest(cs)
                        && forall j :: 0 <= j < k ==> cs[j].range > Closest(cs).range
  {
    if |cs| == 1 {
      assert cs[0] == Closest(cs);
    } else {
      var m := Closest(cs[1..]);
      if cs[0].range > m.range {
        ClosestFirst(cs[1..]);
        var k :| 0 <= k < |cs[1..]| && cs[1..][k] == m
                 && forall j :: 0 <= j < k ==> cs[1..][j].range > m.range;
        assert cs[k + 1] == Closest(cs);
        forall j | 0 <= j < k + 1
          ensures cs[j].range > Closest(cs).range
        {
          if j > 0 {
            assert cs[j] == cs[1..][j - 1];
          }
        }
      } else {
        assert cs[0] == Closest(cs);
      }
    }
  }

  // ---------------------------------------------------------------------
  // Pattern inference

  function Ranges(h: seq<Sample>): (ds: seq<real>)
    ensures |ds| == |h|
  {
    seq(|h|, i requires 0 <= i < |h| => h[i].range)
  }

  function Positions(h: seq<Sample>): (ps: seq<Point>)
    ensures |ps| == |h|
  {
    seq(|h|, i requires 0 <= i < |h| => h[i].torpedo)
  }

  /** The successive differences of a list of values. */
  function Changes(ds: seq<real>): (r: seq<real>)
    requires ds != []
    ensures |r| == |ds| - 1
  {
    seq(|ds| - 1, i requires 0 <= i < |ds| - 1 => ds[i + 1] - ds[i])
  }

  /** The successive differences add up to the overall change. */
  lemma {:induction false} ChangesTelescope(ds: seq<real>)
    requires ds != []
    ensures Sum(Changes(ds)) == ds[|ds| - 1] - ds[0]
    decreases |ds|
  {
    if |ds| > 1 {
      var init := ds[..|ds| - 1];
      ChangesTelescope(init);
      assert Changes(ds)[..|ds| - 2] == Changes(init);
    }
  }

  /** The mean change of range between successive samples. */
  function AverageChange(h: seq<Sample>): real
    requires |h| >= 2
  {
    Sum(Changes(Ranges(h))) / (|h| - 1) as real
  }

  /** The mean change is the overall change spread over the steps: only the
      first and the last sample of the window matter. */
  lemma AverageIsOverallRate(h: seq<Sample>)
    requires |h| >= 2
    ensures AverageChange(h) == (h[|h| - 1].range - h[0].range) / (|h| - 1) as real
  {
    ChangesTelescope(Ranges(h));
  }

  /** The movement from `a` to `b`. */
  function Movement(a: Point, b: Point): Point
  {
    Point(b.x - a.x, b.y - a.y)
  }

  /** The torpedo changed direction at `b`: both movements are non-zero and
      the angle between them, as the host measures it, exceeds 25 degrees. */
  predicate Turned(a: Point, b: Point, c: Point, angle: (Point, Point) -> real)
  {
    var prev := Movement(a, b);
    var curr := Movement(b, c);
    prev != Point(0.0, 0.0) && curr != Point(0.0, 0.0) && angle(prev, curr) > TurnThreshold
  }

  /** The number of changes of direction along a track of positions. */
  function DirectionChanges(ps: seq<Point>, angle: (Point, Point) -> real): nat
    decreases |ps|
  {
    if |ps| < 3 then 0
    else DirectionChanges(ps[..|ps| - 1], angle)
         + (if Turned(ps[|ps| - 3], ps[|ps| - 2], ps[|ps| - 1], angle) then 1 else 0)
  }

  /** A track of n positions has at most n - 2 changes of direction. */
  lemma {:induction false} DirectionChangesBound(ps: seq<Point>, angle: (Point, Point) -> real)
    ensures DirectionChanges(ps, angle) <= if |ps| < 2 then 0 else |ps| - 2
    decreases |ps|
  {
    if |ps| >= 3 {
      DirectionChangesBound(ps[..|ps| - 1], angle);
    }
  }

  /** The pattern rule, given the mean change of range and the number of
      changes of direction. */
  function Infer(st: State, avg: real, turns: nat): State
  {
    if avg < ClosingRate && turns <= 1 then
      if st.pattern != DistancePriority then
        st.(pattern := DistancePriority, confidence := 0.6, escapeAngleSet := false)
      else
        st.(confidence := Min(st.confidence + 0.2, 1.0))
    else if turns >= 2 then
      if st.pattern != MovementTracking then
        st.(pattern := MovementTracking, confidence := 0.5, escapeAngleSet := false)
      else
        st.(confidence := Min(st.confidence + 0.15, 1.0))
    else
      st
  }

  /** _determine_torpedo_pattern: with at least three samples, apply the
      pattern rule to the window. */
  function Determine(st: State, angle: (Point, Point) -> real): State
  {
    if |st.history| < MinSamples then st
    else Infer(st, AverageChange(st.history), DirectionChanges(Positions(st.history), angle))
  }

  /** analyze_torpedo_pattern: push a sample of the nearest torpedo, infer
      the pattern once three samples exist, and remember where the torpedo
      was. */
  function Analyze(st: State, cs: seq<Contact>, angle: (Point, Point) -> real): State
  {
    if cs == [] then st
    else
      var c := Closest(cs);
      var st1 := st.(history := Window.Push(st.history, Sample(c.pos, c.range), HistoryCap));
      var st2 := if |st1.history| >= MinSamples then Determine(st1, angle) else st1;
      st2.(lastTorpedo := Some(c.pos))
  }

  /** The pattern rule keeps every reachable state sound, and touches only
      the pattern, the confidence and the escape latch. */
  lemma InferKeepsSound(st: State, avg: real, turns: nat)
    requires Sound(st)
    ensures Sound(Infer(st, avg, turns))
    ensures var st' := Infer(st, avg, turns);
            st'.history == st.history && st'.lastTorpedo == st.lastTorpedo
            && st'.decoyDeployed == st.decoyDeployed && st'.fixedEscapeAngle == st.fixedEscapeAngle
  {
  }

  /** Entering a pattern sets its entry confidence (0.6 for distance
      priority, 0.5 for movement tracking) and releases the escape latch;
      staying in a pattern raises the confidence by its step (0.2 or 0.15),
      capped at 1, and keeps the latch; no other outcome changes anything. */
  lemma InferOutcome(st: State, avg: real, turns: nat)
    ensures var st' := Infer(st, avg, turns);
            && (st'.pattern != st.pattern ==>
                  !st'.escapeAngleSet
                  && st'.confidence == (if st'.pattern == DistancePriority then 0.6 else 0.5))
            && (st'.pattern == st.pattern ==> st'.escapeAngleSet == st.escapeAngleSet)
            && (st'.pattern == st.pattern == DistancePriority && avg < ClosingRate && turns <= 1 ==>
                  st'.confidence == Min(st.confidence + 0.2, 1.0))
            && (st'.pattern == st.pattern == MovementTracking && turns >= 2 && !(avg < ClosingRate && turns <= 1) ==>
                  st'.confidence == Min(st.confidence + 0.15, 1.0))
            && (!(avg < ClosingRate && turns <= 1) && turns < 2 ==> st' == st)
  {
  }

  /** Distance priority is inferred exactly when the torpedo closes in at
      more than 0.5 per sample with at most one change of direction;
      movement tracking exactly when it does not and turns at least twice. */
  lemma InferPattern(st: State, avg: real, turns: nat)
    ensures Infer(st, avg, turns).pattern ==
            if avg < ClosingRate && turns <= 1 then DistancePriority
            else if turns >= 2 then MovementTracking
            else st.pattern
  {
  }

  /** Once named, a pattern is never forgotten. */
  lemma DeterminePatternSticks(st: State, angle: (Point, Point) -> real)
    requires st.pattern != UnknownPattern
    ensures Determine(st, angle).pattern != UnknownPattern
  {
  }

  /** Movement tracking needs two changes of direction and so a full window
      of four samples: with three samples it can never be entered. */
  lemma TrackingNeedsFullWindow(st: State, angle: (Point, Point) -> real)
    requires |st.history| <= HistoryCap
    requires st.pattern != MovementTracking
    requires Determine(st, angle).pattern == MovementTracking
    ensures |st.history| == HistoryCap
  {
    DirectionChangesBound(Positions(st.history), angle);
  }

  /** The analysis keeps every reachable state sound. */
  lemma AnalyzeKeepsSound(st: State, cs: seq<Contact>, angle: (Point, Point) -> real)
    requires Sound(st)
    ensures Sound(Analyze(st, cs, angle))
  {
    if cs != [] {
      var c := Closest(cs);
      var st1 := st.(history := Window.Push(st.history, Sample(c.pos, c.range), HistoryCap));
      assert Sound(st1);
      if |st1.history| >= MinSamples {
        InferKeepsSound(st1, AverageChange(st1.history), DirectionChanges(Positions(st1.history), angle));
      }
    }
  }

  /** An empty list changes nothing. */
  lemma AnalyzeEmpty(st: State, angle: (Point, Point) -> real)
    ensures Analyze(st, [], angle) == st
  {
  }

  /** On a non-empty list the nearest contact's sample becomes the newest
      entry of the window, which keeps at most four entries, the oldest
      evicted first, and its position becomes the last torpedo position; the
      decoy latch and the escape heading are never touched. */
  lemma AnalyzeWindow(st: State, cs: seq<Contact>, angle: (Point, Point) -> real)
    requires cs != []
    ensures var c := Closest(cs);
            var st' := Analyze(st, cs, angle);
            && st'.history == Window.Push(st.history, Sample(c.pos, c.range), HistoryCap)
            && st'.lastTorpedo == Some(c.pos)
            && st'.decoyDeployed == st.decoyDeployed && st'.fixedEscapeAngle == st.fixedEscapeAngle
  {
    var c := Closest(cs);
    var st1 := st.(history := Window.Push(st.history, Sample(c.pos, c.range), HistoryCap));
    DetermineKeepsRecords(st1, angle);
  }

  /** Inference touches only the pattern, the confidence and the escape
      latch. */
  lemma DetermineKeepsRecords(st: State, angle: (Point, Point) -> real)
    ensures var st' := Determine(st, angle);
            st'.history == st.history && st'.lastTorpedo == st.lastTorpedo
            && st'.decoyDeployed == st.decoyDeployed && st'.fixedEscapeAngle == st.fixedEscapeAngle
  {
  }

  /** With fewer than three samples in the window no pattern is inferred:
      the pattern, the confidence and the escape latch are left alone. */
  lemma AnalyzeNeedsThreeSamples(st: State, cs: seq<Contact>, angle: (Point, Point) -> real)
    requires |Analyze(st, cs, angle).history| < MinSamples
    ensures var st' := Analyze(st, cs, angle);
            st'.pattern == st.pattern && st'.confidence == st.confidence
            && st'.escapeAngleSet == st.escapeAngleSet
  {
  }

  // ---------------------------------------------------------------------
  // Evasion

  /** Python's `x % 360` on a float: the remainder in [0, 360) of x modulo
      360. */
  function Mod360(x: real): (r: real)
    ensures 0.0 <= r < 360.0
    ensures ((x - r) / 360.0).Floor as real == (x - r) / 360.0
  {
    var k := (x / 360.0).Floor;
    x - 360.0 * k as real
  }

  /** A sound state's named pattern always clears the 0.2 confidence gate,
      so the evasion falls back to the default heading only while the
      pattern is unknown. */
  lemma ConfidenceGateAlwaysOpen(st: State)
    requires Sound(st) && st.pattern != UnknownPattern
    ensures st.confidence > ActThreshold
  {
  }

  /** execute_pattern_based_evasion, given the torpedo's bearing from the
      ship in degrees, its range and the wall clock in whole seconds: under
      distance priority steer away from the torpedo along a heading fixed on
      first use; under movement tracking zigzag 45 degrees either side of the
      reciprocal bearing, switching every two seconds, when the torpedo is
      nearer than 15, and turn 60 degrees past it otherwise; else steer along
      the reciprocal bearing. */
  function Evade(st: State, bearing: real, range: Distance, clock: nat): (State, Option<real>)
  {
    if st.pattern == DistancePriority && st.confidence > ActThreshold then
      if !st.escapeAngleSet then
        var a := Mod360(bearing + 180.0);
        (st.(fixedEscapeAngle := Some(a), escapeAngleSet := true), Some(a))
      else
        (st, st.fixedEscapeAngle)
    else if st.pattern == MovementTracking && st.confidence > ActThreshold then
      if range < ZigzagRange then
        (st, Some(Mod360(bearing + 180.0 + (if clock % 4 < 2 then 45.0 else -45.0))))
      else
        (st, Some(Mod360(bearing + 180.0 + 60.0)))
    else
      (st, Some(Mod360(bearing + 180.0)))
  }

  /** Every heading is defined and lies in [0, 360), and the state stays
      sound; only the escape latch and its heading can change. */
  lemma EvadeKeepsSound(st: State, bearing: real, range: Distance, clock: nat)
    requires Sound(st)
    ensures var (st', a) := Evade(st, bearing, range, clock);
            && Sound(st') && a.Some? && 0.0 <= a.value < 360.0
            && st'.(fixedEscapeAngle := st.fixedEscapeAngle, escapeAngleSet := st.escapeAngleSet) == st
  {
  }

  /** Under distance priority the first evasion latches the reciprocal
      bearing and every later evasion, whatever the torpedo's bearing, range
      or the clock, steers along that same heading. */
  lemma EscapeHeadingFixed(st: State, b1: real, r1: Distance, c1: nat, b2: real, r2: Distance, c2: nat)
    requires Sound(st) && st.pattern == DistancePriority
    ensures var (st1, a1) := Evade(st, b1, r1, c1);
            && st1.escapeAngleSet
            && a1 == (if st.escapeAngleSet then st.fixedEscapeAngle else Some(Mod360(b1 + 180.0)))
            && Evade(st1, b2, r2, c2) == (st1, a1)
  {
  }

  /** While the pattern is unknown, the heading is the reciprocal of the
      torpedo's bearing and nothing changes. */
  lemma EvadeDefault(st: State, bearing: real, range: Distance, clock: nat)
    requires st.pattern == UnknownPattern
    ensures Evade(st, bearing, range, clock) == (st, Some(Mod360(bearing + 180.0)))
  {
  }

  /** Inferring the same pattern again keeps a latched escape heading, so
      the heading stays fixed until the pattern changes. */
  lemma LatchSurvivesAnalysis(st: State, cs: seq<Contact>, angle: (Point, Point) -> real)
    requires Analyze(st, cs, angle).pattern == st.pattern
    ensures Analyze(st, cs, angle).escapeAngleSet == st.escapeAngleSet
    ensures Analyze(st, cs, angle).fixedEscapeAngle == st.fixedEscapeAngle
  {
    if cs != [] {
      var c := Closest(cs);
      var st1 := st.(history := Window.Push(st.history, Sample(c.pos, c.range), HistoryCap));
      if |st1.history| >= MinSamples {
        InferOutcome(st1, AverageChange(st1.history), DirectionChanges(Positions(st1.history), angle));
      }
    }
  }

  // ---------------------------------------------------------------------
  // Decoys

  /** should_deploy_decoys: deploy when no decoy has been deployed yet and
      the torpedo is within 35, and remember it. (Past the first test the
      range is always within 35, so the source's final refusal is never
      reached.) */
  function Deploy(st: State, range: Distance): (State, bool)
  {
    if st.decoyDeployed || range > DeployRange then (st, false)
    else (st.(decoyDeployed := true), true)
  }

  /** The number of deployments over a run of calls, and the state after
      them. */
  function DeployRun(st: State, ranges: seq<Distance>): (State, nat)
    decreases |ranges|
  {
    if ranges == [] then (st, 0)
    else
      var (st1, n) := DeployRun(st, ranges[..|ranges| - 1]);
      var (st2, b) := Deploy(st1, ranges[|ranges| - 1]);
      (st2, if b then n + 1 else n)
  }

  /** One call deploys exactly when no decoy was deployed and the range is
      at most 35; after that every call declines. */
  lemma DeployRule(st: State, range: Distance)
    ensures Deploy(st, range).1 <==> !st.decoyDeployed && range <= DeployRange
    ensures Deploy(st, range).0.decoyDeployed <==> st.decoyDeployed || range <= DeployRange
    ensures Deploy(st, range).0.(decoyDeployed := st.decoyDeployed) == st
  {
  }

  /** Over any run of calls decoys are deployed at most once, never when
      they already were, and only if some call saw the torpedo within 35. */
  lemma {:induction false} DeployAtMostOnce(st: State, ranges: seq<Distance>)
    ensures var (st', n) := DeployRun(st, ranges);
            && n <= (if st.decoyDeployed then 0 else 1)
            && (st'.decoyDeployed <==> st.decoyDeployed || n == 1)
            && (n == 1 ==> exists i :: 0 <= i < |ranges| && ranges[i] <= DeployRange)
    decreases |ranges|
  {
    if ranges != [] {
      var init := ranges[..|ranges| - 1];
      DeployAtMostOnce(st, init);
      var (st1, n) := DeployRun(st, init);
      if n == 1 {
        var i :| 0 <= i < |init| && init[i] <= DeployRange;
        assert ranges[i] == init[i];
      }
    }
  }

  // ---------------------------------------------------------------------
  // The controller

  class CommandControl {
    var pattern: Pattern
    var patternConfidence: real
    var patternHistory: seq<Sample>
    var lastTorpedoPosition: Option<Point>
    var decoyDeployed: bool
    var fixedEscapeAngle: Option<real>
    var escapeAngleSet: bool
    /** Angle between two movement vectors, in degrees, supplied by the host. */
    const angle: (Point, Point) -> real

    ghost function Abstract(): State
      reads this
    {
      State(pattern, patternConfidence, patternHistory, lastTorpedoPosition, decoyDeployed,
            fixedEscapeAngle, escapeAngleSet)
    }

    ghost predicate Valid()
      reads this
    {
      Sound(Abstract())
    }

    constructor (angle: (Point, Point) -> real)
      ensures Valid() && this.angle == angle
      ensures Abstract() == Initial()
    {
      this.angle := angle;
      pattern := UnknownPattern;
      patternConfidence := 0.0;
      patternHistory := [];
      lastTorpedoPosition := None;
      decoyDeployed := false;
      fixedEscapeAngle := None;
      escapeAngleSet := false;
    }

    /** analyze_torpedo_pattern */
    method AnalyzeTorpedoPattern(cs: seq<Contact>)
      requires Valid()
      modifies this`patternHistory, this`pattern, this`patternConfidence, this`escapeAngleSet,
               this`lastTorpedoPosition
      ensures Valid()
      ensures Abstract() == Analyze(old(Abstract()), cs, angle)
    {
      if cs == [] {
        return;
      }
      AnalyzeKeepsSound(Abstract(), cs, angle);
      var closest := Closest(cs);
      patternHistory := Window.Append(patternHistory, Sample(closest.pos, closest.range), HistoryCap);
      if |patternHistory| >= MinSamples {
        DetermineTorpedoPattern();
      }
      lastTorpedoPosition := Some(closest.pos);
    }

    /** _determine_torpedo_pattern */
    method DetermineTorpedoPattern()
      modifies this`pattern, this`patternConfidence, this`escapeAngleSet
      ensures Abstract() == Determine(old(Abstract()), angle)
    {
      if |patternHistory| < MinSamples {
        return;
      }
      var avg := AverageChange(patternHistory);
      var positions := Positions(patternHistory);
      var turns := 0;
      var i := 2;
      while i < |positions|
        invariant 2 <= i <= |positions|
        invariant turns == DirectionChanges(positions[..i], angle)
      {
        if Turned(positions[i - 2], positions[i - 1], positions[i], angle) {
          turns := turns + 1;
        }
        assert positions[..i + 1][..i] == positions[..i];
        i := i + 1;
      }
      assert positions[..i] == positions;
      if avg < ClosingRate && turns <= 1 {
        if pattern != DistancePriority {
          pattern := DistancePriority;
          patternConfidence := 0.6;
          escapeAngleSet := false;
        } else {
          patternConfidence := Min(patternConfidence + 0.2, 1.0);
        }
      } else if turns >= 2 {
        if pattern != MovementTracking {
          pattern := MovementTracking;
          patternConfidence := 0.5;
          escapeAngleSet := false;
        } else {
          patternConfidence := Min(patternConfidence + 0.15, 1.0);
        }
      }
    }

    /** execute_pattern_based_evasion */
    method ExecutePatternBasedEvasion(bearing: real, range: Distance, clock: nat) returns (escape: Option<real>)
      requires Valid()
      modifies this`fixedEscapeAngle, this`escapeAngleSet
      ensures Valid()
      ensures (Abstract(), escape) == Evade(old(Abstract()), bearing, range, clock)
    {
      EvadeKeepsSound(Abstract(), bearing, range, clock);
      if pattern == DistancePriority && patternConfidence > ActThreshold {
        if !escapeAngleSet {
          fixedEscapeAngle := Some(Mod360(bearing + 180.0));
          escapeAngleSet := true;
        }
        escape := fixedEscapeAngle;
      } else if pattern == MovementTracking && patternConfidence > ActThreshold {
        if range < ZigzagRange {
          var zigzag := clock % 4;
          escape := Some(Mod360(bearing + 180.0 + (if zigzag < 2 then 45.0 else -45.0)));
        } else {
          escape := Some(Mod360(bearing + 180.0 + 60.0));
        }
      } else {
        escape := Some(Mod360(bearing + 180.0));
      }
    }

    /** should_deploy_decoys */
    method ShouldDeployDecoys(range: Distance) returns (deploy: bool)
      requires Valid()
      modifies this`decoyDeployed
      ensures Valid()
      ensures (Abstract(), deploy) == Deploy(old(Abstract()), range)
    {
      if decoyDeployed || range > DeployRange {
        return false;
      }
      decoyDeployed := true;
      return true;
    }
  }
}
