/**
 * The rules of the gesture rock-paper-scissors demo (game.js): the winner of
 * a round, the gesture classifier over hand landmarks, the computer's random
 * move and what the results handler puts on screen for one frame.
 */
module RockPaperScissors {
  import opened Options

  datatype Move = Rock | Paper | Scissors

  /** The text of a move, as held in the `moves` array. */
  function MoveName(m: Move): string {
    match m
    case Rock => "Rock"
    case Paper => "Paper"
    case Scissors => "Scissors"
  }

  /** The `moves` array the computer draws from. */
  const Moves: seq<Move> := [Rock, Paper, Scissors]

  /** The position of a move in the `moves` array. */
  function MoveIndex(m: Move): int {
    match m
    case Rock => 0
    case Paper => 1
    case Scissors => 2
  }

  // ---------------------------------------------------------------------
  // The computer's move

  /** `Math.floor(r * moves.length)` for a random number 0 <= r < 1. */
  function RandomIndex(r: real): (i: int)
    requires 0.0 <= r < 1.0
    ensures 0 <= i < 3
    ensures i as real <= 3.0 * r < i as real + 1.0
  {
    (r * 3.0).Floor
  }

  /** The move at index `i` of the `moves` array. */
  function GetRandomMove(i: int): (m: Move)
    requires 0 <= i < 3
    ensures MoveIndex(m) == i
  {
    Moves[i]
  }

  // ---------------------------------------------------------------------
  // The winner

  datatype Outcome = Draw | YouWin | ComputerWins

  /** The text the result element shows for an outcome. */
  function OutcomeText(o: Outcome): string {
    match o
    case Draw => "Draw"
    case YouWin => "You Win!"
    case ComputerWins => "Computer Wins!"
  }

  /**
   * The rule of the game, stated independently of the program: in the cycle
   * Rock, Paper, Scissors each move beats the one just before it.
   */
  predicate Beats(a: Move, b: Move) {
    (MoveIndex(a) - MoveIndex(b)) % 3 == 1
  }

  /** The cyclic rule picks out exactly the three winning pairs of the game. */
  lemma BeatsIsTheWinningPairs(a: Move, b: Move)
    ensures Beats(a, b) <==>
      (a, b) == (Rock, Scissors) || (a, b) == (Paper, Rock) || (a, b) == (Scissors, Paper)
  {
  }

  /** Of two moves, either they are equal or exactly one beats the other. */
  lemma BeatsIsATournament(a: Move, b: Move)
    ensures a == b ==> !Beats(a, b)
    ensures a != b ==> (Beats(a, b) <==> !Beats(b, a))
  {
  }

  /** The outcome for the user: a draw on equal moves, otherwise whoever's move beats the other's. */
  function DetermineWinner(userMove: Move, computerMove: Move): (o: Outcome)
    ensures o == Draw <==> userMove == computerMove
    ensures o == YouWin <==> Beats(userMove, computerMove)
    ensures o == ComputerWins <==> Beats(computerMove, userMove)
  {
    if userMove == computerMove then Draw
    else if
      || (userMove == Rock && computerMove == Scissors)
      || (userMove == Paper && computerMove == Rock)
      || (userMove == Scissors && computerMove == Paper)
    then YouWin
    else ComputerWins
  }

  /** Swapping the players turns a win for the user into a win for the computer, and back. */
  lemma WinnerSwap(a: Move, b: Move)
    ensures DetermineWinner(a, b) == YouWin <==> DetermineWinner(b, a) == ComputerWins
    ensures DetermineWinner(a, b) == Draw <==> DetermineWinner(b, a) == Draw
  {
  }

  /** The computer move that gives outcome `o` against `userMove`. */
  function Answer(userMove: Move, o: Outcome): Move {
    var i := (MoveIndex(userMove) - (match o case Draw => 0 case YouWin => 1 case ComputerWins => -1)) % 3;
    Moves[i]
  }

  /** Whatever the user plays, each outcome comes from exactly one computer move. */
  lemma ExactlyOneAnswerPerOutcome(userMove: Move, o: Outcome)
    ensures DetermineWinner(userMove, Answer(userMove, o)) == o
    ensures forall c :: DetermineWinner(userMove, c) == o ==> c == Answer(userMove, o)
  {
  }

  // ---------------------------------------------------------------------
  // Gesture recognition

  /** One point of the hand model's output, in normalised image coordinates. */
  datatype Landmark = Landmark(x: real, y: real)

  /** The hand model reports this many landmarks per hand. */
  const HandLandmarks: int := 21

  /** The four fingers the classifier looks at; the thumb is not used. */
  datatype Finger = Index | Middle | Ring | Little

  /** The landmark of a finger's tip. */
  function Tip(f: Finger): int {
    match f
    case Index => 8
    case Middle => 12
    case Ring => 16
    case Little => 20
  }

  /** The landmark of a finger's knuckle, where it joins the palm. */
  function Knuckle(f: Finger): int {
    Tip(f) - 3
  }

  /** The landmark of a finger's middle joint. */
  function MiddleJoint(f: Finger): int {
    Tip(f) - 2
  }

  /** The per-finger comparisons, written out for the four fingers. */
  lemma FingerComparisons(ls: seq<Landmark>)
    requires |ls| >= HandLandmarks
    ensures (forall f: Finger :: ls[Tip(f)].y > ls[Knuckle(f)].y) <==>
      ls[8].y > ls[5].y && ls[12].y > ls[9].y && ls[16].y > ls[13].y && ls[20].y > ls[17].y
    ensures (forall f: Finger :: ls[Tip(f)].y < ls[MiddleJoint(f)].y) <==>
      ls[8].y < ls[6].y && ls[12].y < ls[10].y && ls[16].y < ls[14].y && ls[20].y < ls[18].y
    ensures (forall f: Finger :: f in {Index, Middle} ==> ls[Tip(f)].y < ls[MiddleJoint(f)].y) <==>
      ls[8].y < ls[6].y && ls[12].y < ls[10].y
    ensures (forall f: Finger :: f in {Ring, Little} ==> ls[Tip(f)].y > ls[MiddleJoint(f)].y) <==>
      ls[16].y > ls[14].y && ls[20].y > ls[18].y
  {
    assert Tip(Index) == 8 && Tip(Middle) == 12 && Tip(Ring) == 16 && Tip(Little) == 20;
    forall f: Finger
      ensures Tip(f) == 8 || Tip(f) == 12 || Tip(f) == 16 || Tip(f) == 20
      ensures f in {Index, Middle} <==> Tip(f) <= 12
    {
      match f
      case Index =>
      case Middle =>
      case Ring =>
      case Little =>
    }
  }

  /** Every fingertip lies below (larger y than) its knuckle: 8/5, 12/9, 16/13, 20/17. */
  predicate IsFist(ls: seq<Landmark>): (r: bool)
    requires |ls| >= HandLandmarks
    ensures r <==> forall f: Finger :: ls[Tip(f)].y > ls[Knuckle(f)].y
  {
    FingerComparisons(ls);
    ls[8].y > ls[5].y && ls[12].y > ls[9].y && ls[16].y > ls[13].y && ls[20].y > ls[17].y
  }

  /** Every fingertip lies above (smaller y than) its middle joint: 8/6, 12/10, 16/14, 20/18. */
  predicate IsOpenHand(ls: seq<Landmark>): (r: bool)
    requires |ls| >= HandLandmarks
    ensures r <==> forall f: Finger :: ls[Tip(f)].y < ls[MiddleJoint(f)].y
  {
    FingerComparisons(ls);
    ls[8].y < ls[6].y && ls[12].y < ls[10].y && ls[16].y < ls[14].y && ls[20].y < ls[18].y
  }

  /** Index and middle tips above their middle joints, ring and little tips below theirs. */
  predicate IsTwoFingers(ls: seq<Landmark>): (r: bool)
    requires |ls| >= HandLandmarks
    ensures r <==>
      && (forall f: Finger :: f in {Index, Middle} ==> ls[Tip(f)].y < ls[MiddleJoint(f)].y)
      && (forall f: Finger :: f in {Ring, Little} ==> ls[Tip(f)].y > ls[MiddleJoint(f)].y)
  {
    FingerComparisons(ls);
    ls[8].y < ls[6].y && ls[12].y < ls[10].y && ls[16].y > ls[14].y && ls[20].y > ls[18].y
  }

  /** Two fingers and an open hand never hold together: they compare landmark 16 with 14 in opposite directions. */
  lemma TwoFingersExcludesOpenHand(ls: seq<Landmark>)
    requires |ls| >= HandLandmarks
    ensures !(IsTwoFingers(ls) && IsOpenHand(ls))
  {
  }

  /**
   * The move a hand shows, or None. A fist is Rock whatever else holds;
   * otherwise two fingers are Scissors and an open hand is Paper, and since
   * those two exclude each other the order in which they are tried does not
   * matter.
   */
  function RecognizeGesture(ls: seq<Landmark>): (g: Option<Move>)
    requires |ls| >= HandLandmarks
    ensures g == Some(Rock) <==> IsFist(ls)
    ensures g == Some(Scissors) <==> !IsFist(ls) && IsTwoFingers(ls)
    ensures g == Some(Paper) <==> !IsFist(ls) && IsOpenHand(ls)
    ensures g == None <==> !IsFist(ls) && !IsTwoFingers(ls) && !IsOpenHand(ls)
  {
    TwoFingersExcludesOpenHand(ls);
    if IsFist(ls) then Some(Rock)
    else if IsTwoFingers(ls) then Some(Scissors)
    else if IsOpenHand(ls) then Some(Paper)
    else None
  }

  // ---------------------------------------------------------------------
  // One frame of results

  /** The three texts the results handler shows. */
  datatype Screen = Screen(userMove: string, computerMove: string, result: string)

  const NoHandScreen: Screen := Screen("No Hand Detected", "None", "Waiting...")
  const UnrecognizedScreen: Screen := Screen("Unrecognized", "None", "Waiting...")

  /**
   * What one frame puts on screen. `hands` is the model's list of detected
   * hands (empty when it reports none) and `r` the random number drawn for
   * the computer's move. With a recognised gesture the screen shows the
   * user's move, some computer move, and the outcome of exactly those two.
   */
  function OnResults(hands: seq<seq<Landmark>>, r: real): (screen: Screen)
    requires 0.0 <= r < 1.0
    requires |hands| > 0 ==> |hands[0]| >= HandLandmarks
    ensures |hands| == 0 ==> screen == NoHandScreen
    ensures |hands| > 0 && RecognizeGesture(hands[0]).None? ==> screen == UnrecognizedScreen
    ensures |hands| > 0 && RecognizeGesture(hands[0]).Some? ==>
      && screen.userMove == MoveName(RecognizeGesture(hands[0]).value)
      && screen.computerMove == MoveName(GetRandomMove(RandomIndex(r)))
      && exists c: Move :: screen.computerMove == MoveName(c)
           && screen.result == OutcomeText(DetermineWinner(RecognizeGesture(hands[0]).value, c))
  {
    if |hands| > 0 then
      var userMove := RecognizeGesture(hands[0]);
      var computerMove := if userMove.Some? then MoveName(GetRandomMove(RandomIndex(r))) else "None";
      var result :=
        if userMove.Some?
        then OutcomeText(DetermineWinner(userMove.value, GetRandomMove(RandomIndex(r))))
        else "Waiting...";
      Screen(if userMove.Some? then MoveName(userMove.value) else "Unrecognized", computerMove, result)
    else
      NoHandScreen
  }

  /** The computer's move shows "None" exactly when the result shows "Waiting...". */
  lemma WaitingIffNoComputerMove(hands: seq<seq<Landmark>>, r: real)
    requires 0.0 <= r < 1.0
    requires |hands| > 0 ==> |hands[0]| >= HandLandmarks
    ensures OnResults(hands, r).computerMove == "None" <==> OnResults(hands, r).result == "Waiting..."
  {
  }
}
