/**
 * The lane-dodge session of script.js as the program keeps it: module-level
 * variables updated in place by the hand poll, the spawner, each obstacle's
 * timer and the two buttons. Each method is one callback run to completion,
 * and its new state is the matching step of LaneRules.
 */
module LaneGame {
  import opened Options
  import opened LaneRules

  class Game {
    var score: int
    /** In hundredths of a pixel per tick. */
    var speed: int
    var carLane: int
    var obstacles: seq<Obstacle>
    /** Whether the interval stored in gameInterval is live. */
    var spawnerRunning: bool
    /** Whether the game-over screen is showing. */
    var gameOver: bool

    ghost function State(): Session
      reads this
    {
      Session(score, speed, carLane, obstacles, spawnerRunning, gameOver)
    }

    /** The values the script starts with, before any button is pressed. */
    constructor ()
      ensures State() == Loaded()
    {
      score := 0;
      speed := BaseSpeed;
      carLane := StartLane;
      obstacles := [];
      spawnerRunning := false;
      gameOver := false;
    }

    /** One poll of the hand tracker; `wrist` is the x-coordinate of landmark 0 of the first hand, if any. */
    method MapLane(wrist: Option<real>, width: real)
      modifies this
      ensures State() == PollStep(old(State()), wrist, width)
      ensures Valid(old(State())) ==> Valid(State())
    {
      if wrist.Some? {
        carLane := LaneOf(wrist.value, width);
      }
    }

    /**
     * One firing of the spawner. `laneA` and `laneB` are the lanes the two
     * rounds of rejection sampling settle on; `height` is the playfield height.
     */
    method Spawn(laneA: int, laneB: int, height: int)
      requires DistinctLanes(laneA, laneB)
      modifies this
      ensures State() == SpawnStep(old(State()), laneA, laneB, height)
      ensures Valid(old(State())) ==> Valid(State())
    {
      var lastTop := if |obstacles| > 0 then obstacles[|obstacles| - 1].top else height;
      if lastTop > MinObstacleGap {
        var choices := [laneA, laneB];
        var occupied: seq<int> := [];
        for k := 0 to 2
          invariant occupied == choices[..k]
          modifies this`obstacles
          invariant |obstacles| == |old(obstacles)| + k
          invariant obstacles[..|old(obstacles)|] == old(obstacles)
          invariant forall j :: 0 <= j < k ==> obstacles[|old(obstacles)| + j] == Obstacle(choices[j], 0)
        {
          var lane := choices[k];
          // the lane the rejection sampling accepts is one not taken yet
          assert lane !in occupied;
          occupied := occupied + [lane];
          obstacles := obstacles + [Obstacle(lane, 0)];
        }
        ghost var n := |old(obstacles)|;
        assert obstacles[n] == Obstacle(choices[0], 0) && obstacles[n + 1] == Obstacle(choices[1], 0);
        assert obstacles == obstacles[..n] + [obstacles[n], obstacles[n + 1]];
      }
      ghost var s := old(State());
      assert LastTop(s, height) == lastTop;
      if Valid(s) {
        SpawnKeepsValid(s, laneA, laneB, height);
      }
    }

    /** One firing of the timer of obstacle `i`; `height` is the playfield height. */
    method Tick(i: int, height: int)
      requires 0 <= i < |obstacles|
      modifies this
      ensures State() == TickStep(old(State()), i, height)
      ensures Valid(old(State())) ==> Valid(State())
    {
      ghost var s := State();
      var obstacle := obstacles[i];
      var obstacleTop := obstacle.top;
      var carBottom := height - CarBottomMargin;
      var carTop := carBottom - CarHeight;
      var carLeft := LaneLeft(carLane);
      var obstacleLeft := LaneLeft(obstacle.lane);
      SameLeftIffSameLane(carLane, obstacle.lane);

      if obstacleTop > height {
        obstacles := obstacles[..i] + obstacles[i + 1..];
        score := score + 1;
        if score % ScoresPerStep == 0 {
          speed := speed + SpeedStep;
        }
      } else if
        && obstacleTop + ObstacleHeight >= carTop
        && obstacleTop < carBottom
        && obstacleLeft == carLeft
        && obstacleTop < carBottom
      {
        gameOver := true;
        spawnerRunning := false;
      } else {
        obstacles := obstacles[i := Obstacle(obstacle.lane, IntegerPart(100 * obstacleTop + speed))];
      }
      if Valid(s) {
        TickKeepsValid(s, i, height);
      }
    }

    /** The state part of startGame. */
    method Start()
      modifies this
      ensures State() == Started()
    {
      score := 0;
      speed := BaseSpeed;
      obstacles := [];
      carLane := StartLane;
      spawnerRunning := true;
      gameOver := false;
    }

    /** The state part of restartGame. */
    method Restart()
      modifies this
      ensures State() == Started()
    {
      score := 0;
      speed := BaseSpeed;
      obstacles := [];
      carLane := StartLane;
      gameOver := false;
      spawnerRunning := true;
    }
  }
}
