/** The snake game's state machine: the snake, the food and the game that owns
    both, with the pure specification (GameState, Tick, Turn) that their
    methods are proved against. */
module SnakeGame {
  import opened Grid

  /** Where a new snake's only segment starts. */
  const StartCell: Cell := Cell(10, 10)

  datatype Option<T> = None | Some(value: T)

  // ---------------------------------------------------------------------------
  // Specification

  /** The whole observable state of a game: the snake's body (head first), its
      facing direction, the food's cell, the score and the game-over flag. */
  datatype GameState = GameState(
    body: seq<Cell>,
    direction: Direction,
    food: Cell,
    score: int,
    gameOver: bool)

  /** No two segments of the body occupy the same cell. */
  ghost predicate Distinct(body: seq<Cell>)
  {
    forall i, j :: 0 <= i < j < |body| ==> body[i] != body[j]
  }

  /** A body that a running game can have: on the board and not crossing itself. */
  ghost predicate Live(body: seq<Cell>)
  {
    (forall i :: 0 <= i < |body| ==> InBounds(body[i])) && Distinct(body)
  }

  /** The invariant every Game keeps. */
  ghost predicate Consistent(s: GameState)
  {
    && |s.body| > 0
    && InBounds(s.food)
    && s.score >= 0
    && (!s.gameOver ==> Live(s.body))
  }

  /** The head equals one of the other segments (index 0 is never compared with itself). */
  predicate HitsSelf(body: seq<Cell>)
    requires |body| > 0
  {
    exists i :: 1 <= i < |body| && body[i] == body[0]
  }

  /** What `checkCollision` reports: the head left the board or hit the body. */
  predicate Collides(body: seq<Cell>)
    requires |body| > 0
  {
    !InBounds(body[0]) || HitsSelf(body)
  }

  /** A freshly constructed game, with the food at the cell its constructor drew. */
  function Initial(food: Cell): GameState
  {
    GameState([StartCell], Right, food, 0, false)
  }

  /** One tick of `update`. u and v are the two samples the food would draw if
      it is eaten. */
  function Tick(s: GameState, u: real, v: real): (r: GameState)
    requires |s.body| > 0
    requires 0.0 <= u < 1.0 && 0.0 <= v < 1.0
    ensures |r.body| > 0
  {
    if s.gameOver then s
    else
      var moved := [Step(s.body[0], s.direction)] + s.body;
      if moved[0] == s.food then
        s.(body := moved, food := Cell(Sample(u), Sample(v)), score := s.score + 1,
           gameOver := Collides(moved))
      else
        var body := moved[..|moved| - 1];
        s.(body := body, gameOver := Collides(body))
  }

  /** The direction an arrow key asks for; every other key asks for none. */
  function KeyDirection(key: string): (r: Option<Direction>)
    ensures r.Some? <==> key in ["ArrowUp", "ArrowDown", "ArrowLeft", "ArrowRight"]
  {
    if key == "ArrowUp" then Some(Up)
    else if key == "ArrowDown" then Some(Down)
    else if key == "ArrowLeft" then Some(Left)
    else if key == "ArrowRight" then Some(Right)
    else None
  }

  /** The snake's direction after the keydown handler saw key. */
  function Turn(current: Direction, key: string): (r: Direction)
    ensures r != Opposite(current)
    ensures KeyDirection(key).None? ==> r == current
    ensures forall d :: KeyDirection(key) == Some(d) && d != Opposite(current) ==> r == d
    ensures forall d :: KeyDirection(key) == Some(d) && d == Opposite(current) ==> r == current
  {
    if key == "ArrowUp" then (if current != Down then Up else current)
    else if key == "ArrowDown" then (if current != Up then Down else current)
    else if key == "ArrowLeft" then (if current != Right then Left else current)
    else if key == "ArrowRight" then (if current != Left then Right else current)
    else current
  }

  // ---------------------------------------------------------------------------
  // Implementation

  class Snake {
    var body: seq<Cell>
    var direction: Direction

    ghost predicate Valid()
      reads this
    {
      |body| > 0
    }

    constructor ()
      ensures Valid()
      ensures body == [StartCell] && direction == Right
    {
      body := [StartCell];
      direction := Right;
    }

    /** Prepends the cell one step ahead of the head; never reports food. */
    method Move() returns (ateFood: bool)
      requires Valid()
      modifies this`body
      ensures Valid()
      ensures body == [Step(old(body)[0], direction)] + old(body)
      ensures !ateFood
    {
      var head := Step(body[0], direction);
      body := [head] + body;
      ateFood := false;
    }

    /** Growing is done by the caller keeping the tail; this changes nothing. */
    method Grow()
      ensures unchanged(this)
    {
    }

    method CheckCollision() returns (hit: bool)
      requires Valid()
      ensures hit == Collides(body)
    {
      var head := body[0];
      if !InBounds(head) {
        return true;
      }
      for i := 1 to |body|
        invariant forall j :: 1 <= j < i ==> body[j] != head
      {
        if body[i] == head {
          return true;
        }
      }
      return false;
    }
  }

  class Food {
    var x: int
    var y: int

    constructor (u: real, v: real)
      requires 0.0 <= u < 1.0 && 0.0 <= v < 1.0
      ensures x == Sample(u) && y == Sample(v)
      ensures InBounds(Cell(x, y))
    {
      x := 0;
      y := 0;
      new;
      Randomize(u, v);
    }

    /** Moves the food to the cell chosen by the samples u and v. */
    method Randomize(u: real, v: real)
      requires 0.0 <= u < 1.0 && 0.0 <= v < 1.0
      modifies this
      ensures x == Sample(u) && y == Sample(v)
      ensures InBounds(Cell(x, y))
    {
      x := Sample(u);
      y := Sample(v);
    }
  }

  class Game {
    var snake: Snake
    var food: Food
    var score: int
    var gameOver: bool

    ghost function State(): GameState
      reads this, snake, food
    {
      GameState(snake.body, snake.direction, Cell(food.x, food.y), score, gameOver)
    }

    ghost predicate Valid()
      reads this, snake, food
    {
      Consistent(State())
    }

    /** u and v are the samples the food's constructor draws. */
    constructor (u: real, v: real)
      requires 0.0 <= u < 1.0 && 0.0 <= v < 1.0
      ensures Valid() && fresh(snake) && fresh(food)
      ensures State() == Initial(Cell(Sample(u), Sample(v)))
    {
      snake := new Snake();
      food := new Food(u, v);
      score := 0;
      gameOver := false;
    }

    /** The keydown listener: arrow keys turn the snake, except straight back. */
    method OnKeyDown(key: string)
      requires Valid()
      modifies snake`direction
      ensures Valid()
      ensures State() == old(State()).(direction := Turn(old(snake.direction), key))
    {
      var direction := snake.direction;
      if key == "ArrowUp" {
        if direction != Down {
          snake.direction := Up;
        }
      } else if key == "ArrowDown" {
        if direction != Up {
          snake.direction := Down;
        }
      } else if key == "ArrowLeft" {
        if direction != Right {
          snake.direction := Left;
        }
      } else if key == "ArrowRight" {
        if direction != Left {
          snake.direction := Right;
        }
      }
    }

    /** One tick of the game loop; u and v are the samples for the food. */
    method Update(u: real, v: real)
      requires Valid()
      requires 0.0 <= u < 1.0 && 0.0 <= v < 1.0
      modifies this, snake, food
      ensures snake == old(snake) && food == old(food)
      ensures Valid()
      ensures State() == Tick(old(State()), u, v)
    {
      if gameOver {
        return;
      }
      var _ := snake.Move();
      var head := snake.body[0];
      if head.x == food.x && head.y == food.y {
        score := score + 1;
        food.Randomize(u, v);
        snake.Grow();
      } else {
        snake.body := snake.body[..|snake.body| - 1];
      }
      var hit := snake.CheckCollision();
      if hit {
        gameOver := true;
      }
      TickKeepsConsistent(old(State()), u, v);
    }
  }

  /** The Space listener: a finished game is replaced by a new one. */
  method OnSpace(game: Game, code: string, u: real, v: real) returns (next: Game)
    requires game.Valid()
    requires 0.0 <= u < 1.0 && 0.0 <= v < 1.0
    ensures next.Valid()
    ensures code == "Space" && game.gameOver ==>
              fresh(next) && next.State() == Initial(Cell(Sample(u), Sample(v)))
    ensures !(code == "Space" && game.gameOver) ==> next == game
  {
    next := game;
    if code == "Space" && game.gameOver {
      next := new Game(u, v);
    }
  }

  /** A tick keeps the game invariant. */
  lemma TickKeepsConsistent(s: GameState, u: real, v: real)
    requires Consistent(s)
    requires 0.0 <= u < 1.0 && 0.0 <= v < 1.0
    ensures Consistent(Tick(s, u, v))
  {
  }
}
