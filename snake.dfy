/**
 * The snake session of snakegame.py on a 20x20 grid: one step of the
 * snake, the direction buttons, the greedy auto-play rule, the food
 * generator and the restart.
 */
module Snake {
  import opened Optional

  const GridSize: int := 20

  /** A grid cell: x is the row (UP decreases it), y the column. */
  datatype Pos = Pos(x: int, y: int)

  datatype Direction = Up | Down | Left | Right

  /** The three segments the snake starts from, head first. */
  const InitialSnake: seq<Pos> := [Pos(5, 5), Pos(5, 4), Pos(5, 3)]

  const InitialFood: Pos := Pos(10, 10)

  predicate InGrid(p: Pos)
  {
    0 <= p.x < GridSize && 0 <= p.y < GridSize
  }

  predicate AllInGrid(s: seq<Pos>)
  {
    forall i :: 0 <= i < |s| ==> InGrid(s[i])
  }

  predicate Distinct(s: seq<Pos>)
  {
    forall i, j :: 0 <= i < j < |s| ==> s[i] != s[j]
  }

  function Opposite(d: Direction): Direction
  {
    match d
    case Up => Down
    case Down => Up
    case Left => Right
    case Right => Left
  }

  function Abs(n: int): nat { if n < 0 then -n else n }

  /** The number of unit steps between two cells. */
  function Distance(p: Pos, q: Pos): nat
  {
    Abs(p.x - q.x) + Abs(p.y - q.y)
  }

  /** The cell one step from h in direction d. */
  function NextHead(h: Pos, d: Direction): (r: Pos)
    ensures Distance(h, r) == 1
    ensures d == Up || d == Down ==> r.y == h.y
    ensures d == Left || d == Right ==> r.x == h.x
  {
    match d
    case Up => Pos(h.x - 1, h.y)
    case Down => Pos(h.x + 1, h.y)
    case Left => Pos(h.x, h.y - 1)
    case Right => Pos(h.x, h.y + 1)
  }

  /** A step followed by a step the opposite way returns to the start cell. */
  lemma OppositeUndoesStep(h: Pos, d: Direction)
    ensures NextHead(NextHead(h, d), Opposite(d)) == h
  {
  }

  /** The step ends the game: the new head leaves the grid or lands on the body, tail included. */
  predicate Collides(h: Pos, body: seq<Pos>)
    ensures !Collides(h, body) && AllInGrid(body) && Distinct(body) ==>
              AllInGrid([h] + body) && Distinct([h] + body)
  {
    !InGrid(h) || h in body
  }

  /**
   * The direction after a direction button: the pressed direction, unless
   * it is the exact reverse of the current one.
   */
  function Steer(current: Direction, pressed: Direction): (r: Direction)
    ensures r != Opposite(current)
    ensures r == pressed <==> pressed != Opposite(current)
    ensures r != pressed ==> r == current
  {
    if current == Opposite(pressed) then current else pressed
  }

  /**
   * auto_play_move: steer towards the food along the axis with the strictly
   * larger distance (ties go to the column axis), never straight back.
   */
  function AutoDirection(head: Pos, food: Pos, current: Direction): (r: Direction)
    ensures r != Opposite(current)
    ensures r != current ==> Distance(NextHead(head, r), food) < Distance(head, food)
    ensures r != current && (r == Up || r == Down) ==>
              Abs(food.x - head.x) > Abs(food.y - head.y)
    ensures r != current && (r == Left || r == Right) ==>
              Abs(food.x - head.x) <= Abs(food.y - head.y)
    ensures Abs(food.x - head.x) > Abs(food.y - head.y) ==>
              if food.x < head.x && current != Down then r == Up
              else if food.x > head.x && current != Up then r == Down
              else r == current
    ensures Abs(food.x - head.x) <= Abs(food.y - head.y) ==>
              if food.y < head.y && current != Right then r == Left
              else if food.y > head.y && current != Left then r == Right
              else r == current
  {
    if Abs(food.x - head.x) > Abs(food.y - head.y) then
      if food.x < head.x && current != Down then Up
      else if food.x > head.x && current != Up then Down
      else current
    else
      if food.y < head.y && current != Right then Left
      else if food.y > head.y && current != Left then Right
      else current
  }

  class SnakeGame {
    var snake: seq<Pos>
    var direction: Direction
    var food: Pos
    var score: nat
    var gameOver: bool
    var run: bool
    var autoPlay: bool

    /**
     * The body is on the grid and never crosses itself, the food lies on a
     * free cell, and every point of score is one segment of growth.
     */
    ghost predicate Valid()
      reads this
    {
      && |snake| >= 1
      && AllInGrid(snake)
      && Distinct(snake)
      && InGrid(food)
      && food !in snake
      && |snake| == score + |InitialSnake|
    }

    /** The session's first state: the initial snake heading right, food at (10, 10), not running. */
    constructor ()
      ensures Valid()
      ensures snake == InitialSnake && direction == Right && food == InitialFood
      ensures score == 0 && !gameOver && !run && !autoPlay
    {
      snake := InitialSnake;
      direction := Right;
      food := InitialFood;
      score := 0;
      gameOver := false;
      run := false;
      autoPlay := false;
    }

    /**
     * new_food's retry loop over a finite stream of random grid cells: the
     * first draw off the snake, or None when every draw hits the snake.
     */
    method NewFood(draws: seq<Pos>) returns (r: Option<Pos>)
      requires AllInGrid(draws)
      ensures r.Some? ==> InGrid(r.value) && r.value !in snake
      ensures r.Some? ==> exists k :: 0 <= k < |draws| && draws[k] == r.value
                                    && forall j :: 0 <= j < k ==> draws[j] in snake
      ensures r.None? ==> forall j :: 0 <= j < |draws| ==> draws[j] in snake
    {
      var i := 0;
      while i < |draws|
        invariant 0 <= i <= |draws|
        invariant forall j :: 0 <= j < i ==> draws[j] in snake
      {
        if draws[i] !in snake {
          return Some(draws[i]);
        }
        i := i + 1;
      }
      return None;
    }

    /**
     * move_snake: one step. A collision sets game_over and changes nothing
     * else; landing on the food grows the snake by its new head, scores and
     * takes `nextFood` (what new_food returns); any other step moves the
     * head forward and drops the tail.
     */
    method MoveSnake(nextFood: Pos)
      requires Valid()
      requires var h := NextHead(snake[0], direction);
               !Collides(h, snake) && h == food ==> InGrid(nextFood) && nextFood !in [h] + snake
      modifies this
      ensures Valid()
      ensures direction == old(direction) && run == old(run) && autoPlay == old(autoPlay)
      ensures var h := NextHead(old(snake)[0], old(direction));
              if Collides(h, old(snake)) then
                gameOver && snake == old(snake) && food == old(food) && score == old(score)
              else if h == old(food) then
                snake == [h] + old(snake) && score == old(score) + 1
                && food == nextFood && gameOver == old(gameOver)
              else
                snake == [h] + old(snake)[..|old(snake)| - 1] && score == old(score)
                && food == old(food) && gameOver == old(gameOver)
    {
      var head := NextHead(snake[0], direction);
      if Collides(head, snake) {
        gameOver := true;
        return;
      }
      snake := [head] + snake;
      if head == food {
        score := score + 1;
        food := nextFood;
      } else {
        snake := snake[..|snake| - 1];
      }
    }

    /** A direction button: takes the pressed direction unless it reverses the snake. */
    method Press(pressed: Direction)
      modifies this`direction
      ensures direction == Steer(old(direction), pressed)
    {
      if direction != Opposite(pressed) {
        direction := pressed;
      }
    }

    /** auto_play_move: the greedy choice towards the food. */
    method AutoPlayMove()
      requires Valid()
      modifies this`direction
      ensures direction == AutoDirection(snake[0], food, old(direction))
    {
      var head := snake[0];
      if Abs(food.x - head.x) > Abs(food.y - head.y) {
        if food.x < head.x && direction != Down {
          direction := Up;
        } else if food.x > head.x && direction != Up {
          direction := Down;
        }
      } else {
        if food.y < head.y && direction != Right {
          direction := Left;
        } else if food.y > head.y && direction != Left {
          direction := Right;
        }
      }
    }

    /** reset_game: the initial snake heading right, fresh food from new_food, running. */
    method ResetGame(nextFood: Pos)
      requires InGrid(nextFood) && nextFood !in InitialSnake
      modifies this
      ensures Valid()
      ensures snake == InitialSnake && direction == Right && food == nextFood
      ensures score == 0 && !gameOver && run && autoPlay == old(autoPlay)
    {
      snake := InitialSnake;
      direction := Right;
      food := nextFood;
      score := 0;
      gameOver := false;
      run := true;
    }
  }
}
