/**
 * The lane-dodge session of script.js, stated on values: the session state,
 * one function per timer callback or button handler, and the properties that
 * these steps keep. The class in lane_game.dfy holds the same state in
 * mutable fields and is proved against the functions of this module.
 */
module LaneRules {
  import opened Options

  // Layout constants, in pixels.
  const LaneWidth: int := 109
  const CarWidth: int := 55
  const CarHeight: int := 90
  /** The obstacle height used in the collision test. */
  const ObstacleHeight: int := 90
  /** Distance from the bottom of the playfield to the bottom of the car. */
  const CarBottomMargin: int := 20
  /** The last obstacle must be further down than this before a new batch spawns. */
  const MinObstacleGap: int := 190
  const Lanes: int := 3
  const StartLane: int := 1

  // Speeds are counted in hundredths of a pixel per tick: 2 px and 0.33 px.
  const BaseSpeed: int := 200
  const SpeedStep: int := 33
  /** The speed rises each time the score reaches a multiple of this. */
  const ScoresPerStep: int := 5

  predicate IsLane(lane: int) {
    0 <= lane < Lanes
  }

  /** An obstacle: its lane and the integer top position read back by parseInt. */
  datatype Obstacle = Obstacle(lane: int, top: int)

  datatype Session = Session(
    score: int,
    speed: int,
    carLane: int,
    obstacles: seq<Obstacle>,
    spawnerRunning: bool,
    gameOver: bool)

  /**
   * The state invariant: the score is never negative, the speed has risen
   * once per multiple of five scored, the car and every obstacle sit in one
   * of the three lanes, and no obstacle is above the top of the playfield.
   */
  predicate Valid(s: Session) {
    && 0 <= s.score
    && s.speed == BaseSpeed + SpeedStep * (s.score / ScoresPerStep)
    && IsLane(s.carLane)
    && forall k :: 0 <= k < |s.obstacles| ==>
         IsLane(s.obstacles[k].lane) && 0 <= s.obstacles[k].top
  }

  // ---------------------------------------------------------------------
  // Lane mapping and horizontal placement

  /** The lane chosen for a wrist x-coordinate on a video `width` pixels wide. */
  function LaneOf(x: real, width: real): (lane: int)
    ensures IsLane(lane)
    ensures lane == 0 <==> x < width / 3.0
    ensures lane == 1 <==> width / 3.0 <= x < 2.0 * width / 3.0
    ensures lane == 2 <==> width / 3.0 <= x && 2.0 * width / 3.0 <= x
  {
    if x < width / 3.0 then 0
    else if x < (width / 3.0) * 2.0 then 1
    else 2
  }

  /** Moving the hand to the right never moves the car to a lane further left. */
  lemma LaneOfMonotone(x: real, y: real, width: real)
    requires x <= y
    ensures LaneOf(x, width) <= LaneOf(y, width)
  {
  }

  /**
   * The pixel offset written to `style.left` for a car or an obstacle in
   * `lane`: the lane's start plus the margin that centres a 55-pixel body.
   * The lane and the margin can be read back from it.
   */
  function LaneLeft(lane: int): (left: int)
    ensures left / LaneWidth == lane
    ensures left % LaneWidth == (LaneWidth - CarWidth) / 2
  {
    lane * LaneWidth + (LaneWidth - CarWidth) / 2
  }

  /** Comparing left offsets, as the collision test does, is comparing lanes. */
  lemma SameLeftIffSameLane(a: int, b: int)
    ensures LaneLeft(a) == LaneLeft(b) <==> a == b
  {
  }

  // ---------------------------------------------------------------------
  // Reading positions back

  /**
   * parseInt applied to the decimal text of `hundredths / 100`: the integer
   * part of the number, truncated toward zero.
   */
  function IntegerPart(hundredths: int): (n: int)
    ensures 0 <= hundredths ==> 0 <= 100 * n <= hundredths < 100 * n + 100
    ensures hundredths < 0 ==> 100 * n - 100 < hundredths <= 100 * n <= 0
  {
    if 0 <= hundredths then hundredths / 100 else -((-hundredths) / 100)
  }

  // ---------------------------------------------------------------------
  // Resets

  /** The module-level starting values, before any game is started. */
  function Loaded(): (s: Session)
    ensures Valid(s) && !s.spawnerRunning && !s.gameOver
  {
    Session(0, BaseSpeed, StartLane, [], false, false)
  }

  /** The state left by startGame or restartGame: a fresh session with a running spawner. */
  function Started(): (s: Session)
    ensures Valid(s) && s.spawnerRunning && !s.gameOver
    ensures s.score == 0 && s.speed == BaseSpeed && s.obstacles == [] && s.carLane == StartLane
  {
    Session(0, BaseSpeed, StartLane, [], true, false)
  }

  // ---------------------------------------------------------------------
  // Hand polling

  /** One poll of the hand tracker: a detected wrist moves the car, no hand changes nothing. */
  function PollStep(s: Session, wrist: Option<real>, width: real): (t: Session)
    ensures t == s.(carLane := t.carLane)
    ensures wrist.None? ==> t == s
    ensures wrist.Some? ==> t.carLane == LaneOf(wrist.value, width)
  {
    match wrist
    case None => s
    case Some(x) => s.(carLane := LaneOf(x, width))
  }

  // ---------------------------------------------------------------------
  // Spawning

  /** Two lane choices the rejection sampling can produce: in range and different. */
  predicate DistinctLanes(a: int, b: int) {
    IsLane(a) && IsLane(b) && a != b
  }

  /** The position the spawn gate looks at: the newest obstacle's top, or the playfield height. */
  function LastTop(s: Session, height: int): int {
    if |s.obstacles| > 0 then s.obstacles[|s.obstacles| - 1].top else height
  }

  /** One firing of the spawner, with its two random lanes given. */
  function SpawnStep(s: Session, laneA: int, laneB: int, height: int): (t: Session)
    requires DistinctLanes(laneA, laneB)
    ensures t == s.(obstacles := t.obstacles)
    ensures |t.obstacles| == |s.obstacles| + (if LastTop(s, height) > MinObstacleGap then 2 else 0)
  {
    if LastTop(s, height) > MinObstacleGap
    then s.(obstacles := s.obstacles + [Obstacle(laneA, 0), Obstacle(laneB, 0)])
    else s
  }

  /**
   * An open gate appends exactly two obstacles at the top in two different
   * lanes and keeps the earlier ones; a closed gate changes nothing.
   */
  lemma SpawnGate(s: Session, laneA: int, laneB: int, height: int)
    requires DistinctLanes(laneA, laneB)
    ensures var t := SpawnStep(s, laneA, laneB, height);
      if LastTop(s, height) > MinObstacleGap then
        && |t.obstacles| == |s.obstacles| + 2
        && t.obstacles[..|s.obstacles|] == s.obstacles
        && t.obstacles[|s.obstacles|..] == [Obstacle(laneA, 0), Obstacle(laneB, 0)]
        && t.obstacles[|s.obstacles|].lane != t.obstacles[|s.obstacles| + 1].lane
        && t == s.(obstacles := t.obstacles)
      else t == s
  {
  }

  // ---------------------------------------------------------------------
  // The per-obstacle tick

  function CarBottom(height: int): int {
    height - CarBottomMargin
  }

  function CarTop(height: int): int {
    CarBottom(height) - CarHeight
  }

  /**
   * The obstacle's vertical span reaches the car's: its bottom at or below
   * the car's top, its top above the car's bottom. For a playfield of height
   * H that is the window H - 200 <= top < H - 20.
   */
  predicate ReachesCar(top: int, height: int): (r: bool)
    ensures r <==> height - 200 <= top < height - 20
  {
    top + ObstacleHeight >= CarTop(height) && top < CarBottom(height)
  }

  datatype TickBranch = OffScreen | Collision | Advance

  /**
   * Which of its three branches the tick of obstacle `i` takes. The
   * collision branch is stated here on lanes; the ensures give it in the
   * program's own terms, comparing the two left pixel offsets.
   */
  function Branch(s: Session, i: int, height: int): (b: TickBranch)
    requires 0 <= i < |s.obstacles|
    ensures b == OffScreen <==> s.obstacles[i].top > height
    ensures b == Collision <==>
      && !(s.obstacles[i].top > height)
      && s.obstacles[i].top + ObstacleHeight >= CarTop(height)
      && s.obstacles[i].top < CarBottom(height)
      && LaneLeft(s.obstacles[i].lane) == LaneLeft(s.carLane)
  {
    SameLeftIffSameLane(s.obstacles[i].lane, s.carLane);
    var o := s.obstacles[i];
    if o.top > height then OffScreen
    else if ReachesCar(o.top, height) && o.lane == s.carLane then Collision
    else Advance
  }

  /** The list without its `i`-th obstacle; the others keep their order. */
  function RemoveAt(xs: seq<Obstacle>, i: int): (ys: seq<Obstacle>)
    requires 0 <= i < |xs|
    ensures |ys| == |xs| - 1
    ensures forall j :: 0 <= j < i ==> ys[j] == xs[j]
    ensures forall j :: i <= j < |ys| ==> ys[j] == xs[j + 1]
    ensures multiset(ys) + multiset{xs[i]} == multiset(xs)
  {
    assert xs == xs[..i] + [xs[i]] + xs[i + 1..];
    xs[..i] + xs[i + 1..]
  }

  /**
   * The speed after the score has become `newScore`. It never falls, and it
   * carries the rule "one step per multiple of five" from the old score to
   * the new one.
   */
  function SpeedAfterScoring(speed: int, newScore: int): (r: int)
    ensures speed <= r
    ensures 0 < newScore && speed == BaseSpeed + SpeedStep * ((newScore - 1) / ScoresPerStep) ==>
      r == BaseSpeed + SpeedStep * (newScore / ScoresPerStep)
  {
    if newScore % ScoresPerStep == 0 then speed + SpeedStep else speed
  }

  /**
   * One firing of the timer of obstacle `i`. A tick never moves the car,
   * raises the score by at most one, never lowers the speed, and removes at
   * most the one obstacle.
   */
  function TickStep(s: Session, i: int, height: int): (t: Session)
    requires 0 <= i < |s.obstacles|
    ensures t.carLane == s.carLane
    ensures s.score <= t.score <= s.score + 1 && s.speed <= t.speed
    ensures |t.obstacles| == |s.obstacles| - (if t.score == s.score then 0 else 1)
  {
    var o := s.obstacles[i];
    match Branch(s, i, height)
    case OffScreen =>
      s.(obstacles := RemoveAt(s.obstacles, i),
         score := s.score + 1,
         speed := SpeedAfterScoring(s.speed, s.score + 1))
    case Collision =>
      s.(gameOver := true, spawnerRunning := false)
    case Advance =>
      s.(obstacles := s.obstacles[i := Obstacle(o.lane, IntegerPart(100 * o.top + s.speed))])
  }

  /**
   * Off-screen branch: the obstacle is removed, the others keep their order,
   * the score goes up by one, and the speed rises by one step exactly when
   * the new score is a multiple of five. Nothing else changes.
   */
  lemma TickOffScreen(s: Session, i: int, height: int)
    requires 0 <= i < |s.obstacles|
    requires s.obstacles[i].top > height
    ensures var t := TickStep(s, i, height);
      && t.obstacles == s.obstacles[..i] + s.obstacles[i + 1..]
      && t.score == s.score + 1
      && (t.speed == s.speed + SpeedStep <==> t.score % ScoresPerStep == 0)
      && (t.speed == s.speed <==> t.score % ScoresPerStep != 0)
      && t.carLane == s.carLane && t.gameOver == s.gameOver && t.spawnerRunning == s.spawnerRunning
  {
  }

  /**
   * Collision branch: an obstacle that is still on screen, whose span
   * reaches the car's and that is in the car's lane ends the game and stops
   * the spawner; score, speed, car and obstacles are left as they were.
   */
  lemma TickCollision(s: Session, i: int, height: int)
    requires 0 <= i < |s.obstacles|
    requires !(s.obstacles[i].top > height)
    requires ReachesCar(s.obstacles[i].top, height)
    requires s.obstacles[i].lane == s.carLane
    ensures TickStep(s, i, height) == s.(gameOver := true, spawnerRunning := false)
  {
  }

  /**
   * Advance branch: only the top of obstacle `i` changes, to the integer
   * part of top + speed. On a valid session the obstacle moves strictly down
   * and by no more than the speed.
   */
  lemma TickAdvance(s: Session, i: int, height: int)
    requires 0 <= i < |s.obstacles|
    requires !(s.obstacles[i].top > height)
    requires !(ReachesCar(s.obstacles[i].top, height) && s.obstacles[i].lane == s.carLane)
    ensures var t := TickStep(s, i, height);
      && |t.obstacles| == |s.obstacles|
      && t.obstacles[i].lane == s.obstacles[i].lane
      && t.obstacles[i].top == IntegerPart(100 * s.obstacles[i].top + s.speed)
      && (forall j :: 0 <= j < |s.obstacles| && j != i ==> t.obstacles[j] == s.obstacles[j])
      && t == s.(obstacles := t.obstacles)
      && (Valid(s) ==> s.obstacles[i].top < t.obstacles[i].top
                       && 100 * (t.obstacles[i].top - s.obstacles[i].top) <= s.speed)
  {
  }

  /**
   * Once the game area is hidden the page reports height 0. A tick of a
   * listed obstacle then never collides, and one that advances is off
   * screen at its next tick, so it scores within two ticks.
   */
  lemma HiddenPlayfieldScoresWithinTwoTicks(s: Session, i: int)
    requires Valid(s)
    requires 0 <= i < |s.obstacles|
    ensures Branch(s, i, 0) != Collision
    ensures Branch(s, i, 0) == Advance ==> Branch(TickStep(s, i, 0), i, 0) == OffScreen
  {
    if Branch(s, i, 0) == Advance {
      TickAdvance(s, i, 0);
    }
  }

  /** Every tick keeps the state invariant. */
  lemma TickKeepsValid(s: Session, i: int, height: int)
    requires Valid(s)
    requires 0 <= i < |s.obstacles|
    ensures Valid(TickStep(s, i, height))
  {
  }

  /** Every spawn keeps the state invariant. */
  lemma SpawnKeepsValid(s: Session, laneA: int, laneB: int, height: int)
    requires Valid(s)
    requires DistinctLanes(laneA, laneB)
    ensures Valid(SpawnStep(s, laneA, laneB, height))
  {
  }

  // ---------------------------------------------------------------------
  // Runs of callbacks

  /** One callback of the session, each taken as one atomic step. */
  datatype Event =
    | HandPoll(wrist: Option<real>, width: real)
    | SpawnTimer(laneA: int, laneB: int, spawnHeight: int)
    | ObstacleTimer(index: int, tickHeight: int)
    | StartButton
    | RestartButton
  {
    predicate IsReset() {
      StartButton? || RestartButton?
    }
  }

  /** The event can occur in `s`: random lanes are distinct, and a ticking obstacle is in the list. */
  predicate Enabled(s: Session, e: Event) {
    match e
    case SpawnTimer(a, b, _) => DistinctLanes(a, b)
    case ObstacleTimer(i, _) => 0 <= i < |s.obstacles|
    case _ => true
  }

  function Step(s: Session, e: Event): Session
    requires Enabled(s, e)
  {
    match e
    case HandPoll(wrist, width) => PollStep(s, wrist, width)
    case SpawnTimer(a, b, height) => SpawnStep(s, a, b, height)
    case ObstacleTimer(i, height) => TickStep(s, i, height)
    case StartButton => Started()
    case RestartButton => Started()
  }

  /** Every event of `es` is enabled in the state the earlier ones lead to. */
  predicate Runnable(s: Session, es: seq<Event>)
    decreases |es|
  {
    |es| == 0 || (Enabled(s, es[0]) && Runnable(Step(s, es[0]), es[1..]))
  }

  function Run(s: Session, es: seq<Event>): Session
    requires Runnable(s, es)
    decreases |es|
  {
    if |es| == 0 then s else Run(Step(s, es[0]), es[1..])
  }

  /** Every single callback keeps the state invariant. */
  lemma StepKeepsValid(s: Session, e: Event)
    requires Valid(s) && Enabled(s, e)
    ensures Valid(Step(s, e))
  {
  }

  /**
   * Any run of callbacks keeps the invariant; in particular the speed is
   * always the base speed plus one step per multiple of five scored.
   */
  lemma {:induction false} RunKeepsValid(s: Session, es: seq<Event>)
    requires Valid(s) && Runnable(s, es)
    ensures Valid(Run(s, es))
    // the headline consequence of Valid, spelled out
    ensures Run(s, es).speed == BaseSpeed + SpeedStep * (Run(s, es).score / ScoresPerStep)
    decreases |es|
  {
    if |es| > 0 {
      StepKeepsValid(s, es[0]);
      RunKeepsValid(Step(s, es[0]), es[1..]);
    }
  }

  /** A callback other than a reset raises the score by at most one and never lowers score or speed. */
  lemma StepNeverLowersScoreOrSpeed(s: Session, e: Event)
    requires Enabled(s, e) && !e.IsReset()
    ensures s.score <= Step(s, e).score <= s.score + 1
    ensures s.speed <= Step(s, e).speed
  {
  }

  /** Between two resets, neither the score nor the speed ever decreases. */
  lemma {:induction false} RunNeverLowersScoreOrSpeed(s: Session, es: seq<Event>)
    requires Runnable(s, es)
    requires forall k :: 0 <= k < |es| ==> !es[k].IsReset()
    ensures s.score <= Run(s, es).score <= s.score + |es|
    ensures s.speed <= Run(s, es).speed
    decreases |es|
  {
    if |es| > 0 {
      StepNeverLowersScoreOrSpeed(s, es[0]);
      RunNeverLowersScoreOrSpeed(Step(s, es[0]), es[1..]);
    }
  }
}
