/** Properties of the snake game's specification: what one tick does, what a
    sequence of key presses and ticks keeps, and the direction rule. */
module GameFacts {
  import opened Grid
  import opened SnakeGame

  /** Something that happens to a running game between two renders: a keydown,
      or the timer firing `update` with the two samples the food would draw. */
  datatype Event = KeyDown(key: string) | Timer(u: real, v: real)

  predicate Samples(e: Event)
  {
    e.Timer? ==> 0.0 <= e.u < 1.0 && 0.0 <= e.v < 1.0
  }

  function Apply(s: GameState, e: Event): (r: GameState)
    requires |s.body| > 0 && Samples(e)
    ensures |r.body| > 0
  {
    match e
    case KeyDown(key) => s.(direction := Turn(s.direction, key))
    case Timer(u, v) => Tick(s, u, v)
  }

  /** The state after the events, in order. */
  function Run(s: GameState, events: seq<Event>): (r: GameState)
    requires |s.body| > 0
    requires forall i :: 0 <= i < |events| ==> Samples(events[i])
    ensures |r.body| > 0
    decreases |events|
  {
    if events == [] then s else Run(Apply(s, events[0]), events[1..])
  }

  // ---------------------------------------------------------------------------
  // A new game

  lemma InitialGame(food: Cell)
    requires InBounds(food)
    ensures Initial(food).body == [Cell(10, 10)] && Initial(food).direction == Right
    ensures Initial(food).score == 0 && !Initial(food).gameOver
    ensures Consistent(Initial(food))
  {
  }

  // ---------------------------------------------------------------------------
  // One tick

  /** Once the game is over, update changes nothing. */
  lemma TickWhenOver(s: GameState, u: real, v: real)
    requires |s.body| > 0 && 0.0 <= u < 1.0 && 0.0 <= v < 1.0
    requires s.gameOver
    ensures Tick(s, u, v) == s
  {
  }

  /** The new head lands on the food: one point, one more segment, new food on the board. */
  lemma TickEats(s: GameState, u: real, v: real)
    requires |s.body| > 0 && 0.0 <= u < 1.0 && 0.0 <= v < 1.0
    requires !s.gameOver && Step(s.body[0], s.direction) == s.food
    ensures Tick(s, u, v).score == s.score + 1
    ensures Tick(s, u, v).body == [Step(s.body[0], s.direction)] + s.body
    ensures |Tick(s, u, v).body| == |s.body| + 1
    ensures InBounds(Tick(s, u, v).food)
    ensures Tick(s, u, v).food == Cell(Sample(u), Sample(v))
    ensures Tick(s, u, v).direction == s.direction
  {
  }

  /** The new head misses the food: the tail is dropped, score and food stay. */
  lemma TickMisses(s: GameState, u: real, v: real)
    requires |s.body| > 0 && 0.0 <= u < 1.0 && 0.0 <= v < 1.0
    requires !s.gameOver && Step(s.body[0], s.direction) != s.food
    ensures Tick(s, u, v).score == s.score
    ensures Tick(s, u, v).food == s.food
    ensures Tick(s, u, v).body == [Step(s.body[0], s.direction)] + s.body[..|s.body| - 1]
    ensures |Tick(s, u, v).body| == |s.body|
    ensures Tick(s, u, v).direction == s.direction
  {
  }

  /** The game ends exactly when the body after the tail decision collides,
      and a finished game stays finished. */
  lemma TickGameOver(s: GameState, u: real, v: real)
    requires |s.body| > 0 && 0.0 <= u < 1.0 && 0.0 <= v < 1.0
    ensures !s.gameOver ==> (Tick(s, u, v).gameOver <==> Collides(Tick(s, u, v).body))
    ensures s.gameOver ==> Tick(s, u, v).gameOver
  {
  }

  /** The score never decreases and grows by at most one per tick. */
  lemma TickScore(s: GameState, u: real, v: real)
    requires |s.body| > 0 && 0.0 <= u < 1.0 && 0.0 <= v < 1.0
    ensures s.score <= Tick(s, u, v).score <= s.score + 1
  {
  }

  /** A tick changes length and score by the same amount. */
  lemma TickLengthFollowsScore(s: GameState, u: real, v: real)
    requires |s.body| > 0 && 0.0 <= u < 1.0 && 0.0 <= v < 1.0
    ensures |Tick(s, u, v).body| - Tick(s, u, v).score == |s.body| - s.score
  {
  }

  /** Food is always on the board, so eating it never ends the game at a wall:
      a game that ends on the food cell ends by the head meeting the body. */
  lemma EatingStaysOnBoard(s: GameState, u: real, v: real)
    requires Consistent(s) && 0.0 <= u < 1.0 && 0.0 <= v < 1.0
    requires !s.gameOver && Step(s.body[0], s.direction) == s.food
    ensures InBounds(Tick(s, u, v).body[0])
    ensures Tick(s, u, v).gameOver <==> HitsSelf(Tick(s, u, v).body)
  {
  }

  /** The tail leaves its cell before the collision check, so a head entering
      the cell the tail just left does not end the game. */
  lemma VacatedTailIsFree(s: GameState, u: real, v: real)
    requires Consistent(s) && 0.0 <= u < 1.0 && 0.0 <= v < 1.0
    requires !s.gameOver && |s.body| >= 2
    requires Step(s.body[0], s.direction) == s.body[|s.body| - 1]
    requires Step(s.body[0], s.direction) != s.food
    ensures !Tick(s, u, v).gameOver
  {
  }

  // ---------------------------------------------------------------------------
  // Many events

  lemma {:induction false} RunKeepsConsistent(s: GameState, events: seq<Event>)
    requires Consistent(s)
    requires forall i :: 0 <= i < |events| ==> Samples(events[i])
    ensures Consistent(Run(s, events))
    decreases |events|
  {
    if events != [] {
      var e := events[0];
      if e.Timer? {
        TickKeepsConsistent(s, e.u, e.v);
      }
      RunKeepsConsistent(Apply(s, e), events[1..]);
    }
  }

  lemma {:induction false} RunScore(s: GameState, events: seq<Event>)
    requires |s.body| > 0
    requires forall i :: 0 <= i < |events| ==> Samples(events[i])
    ensures s.score <= Run(s, events).score <= s.score + |events|
    ensures |Run(s, events).body| - Run(s, events).score == |s.body| - s.score
    ensures s.gameOver ==> Run(s, events).gameOver
    decreases |events|
  {
    if events != [] {
      var e := events[0];
      if e.Timer? {
        TickScore(s, e.u, e.v);
        TickLengthFollowsScore(s, e.u, e.v);
      }
      RunScore(Apply(s, e), events[1..]);
    }
  }

  /** In any game played from the start, the snake is one segment longer than the score. */
  lemma LengthIsScorePlusOne(food: Cell, events: seq<Event>)
    requires InBounds(food)
    requires forall i :: 0 <= i < |events| ==> Samples(events[i])
    ensures |Run(Initial(food), events).body| == Run(Initial(food), events).score + 1
    ensures Run(Initial(food), events).score >= 0
    ensures Consistent(Run(Initial(food), events))
  {
    RunScore(Initial(food), events);
    RunKeepsConsistent(Initial(food), events);
  }

  // ---------------------------------------------------------------------------
  // Collision

  /** A one-segment snake has nothing to hit but the walls. */
  lemma SingleSegmentHitsOnlyWalls(c: Cell)
    ensures Collides([c]) <==> !InBounds(c)
  {
  }

  /** A head on the board collides exactly when it meets a later segment. */
  lemma OnBoardCollision(body: seq<Cell>)
    requires |body| > 0 && InBounds(body[0])
    ensures Collides(body) <==> body[0] in body[1..]
  {
  }

  // ---------------------------------------------------------------------------
  // The direction rule

  /** A single key press never turns the snake straight back ... */
  lemma NoDirectReversal(current: Direction, key: string)
    ensures Turn(current, key) != Opposite(current)
  {
  }

  /** ... but two presses between ticks can: the rule compares with the
      current direction, not with the direction the snake last moved in. */
  lemma TwoKeysReverse()
    ensures Turn(Turn(Right, "ArrowUp"), "ArrowLeft") == Left
  {
  }
}
