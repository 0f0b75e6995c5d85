/**
 * The snake arcade game (src/components/games/SnakeGame.tsx) on a 15 x 15
 * grid: one tick of movement with wall, self and food collisions, food
 * placement by repeated random draws, and steering from the keyboard.
 */
module Snake {
  import opened Wrappers
  import opened Text

  datatype Pos = Pos(x: int, y: int)

  datatype Direction = Up | Down | Left | Right

  /** What the prospective head runs into, checked in the source's order. */
  datatype Collision = WallHit | SelfHit | Free

  const GridSize: int := 15
  const InitialSnake: seq<Pos> := [Pos(7, 7)]
  const InitialFood: Pos := Pos(10, 10)
  const FoodPoints: int := 10

  predicate InGrid(p: Pos) {
    0 <= p.x < GridSize && 0 <= p.y < GridSize
  }

  function Opposite(d: Direction): Direction {
    match d
    case Up => Down
    case Down => Up
    case Left => Right
    case Right => Left
  }

  /** The cell one step from `p` in direction `d`; the y axis grows downwards. */
  function Move(p: Pos, d: Direction): (r: Pos)
    ensures d in {Up, Down} ==> r.x == p.x && (if d == Up then r.y == p.y - 1 else r.y == p.y + 1)
    ensures d in {Left, Right} ==> r.y == p.y && (if d == Left then r.x == p.x - 1 else r.x == p.x + 1)
  {
    match d
    case Up => Pos(p.x, p.y - 1)
    case Down => Pos(p.x, p.y + 1)
    case Left => Pos(p.x - 1, p.y)
    case Right => Pos(p.x + 1, p.y)
  }

  /** A step in the opposite direction undoes a step, and a step always leaves the cell. */
  lemma MoveBack(p: Pos, d: Direction)
    ensures Move(Move(p, d), Opposite(d)) == p
    ensures Move(p, d) != p
  {
  }

  /** `body.some(segment => segment.x === p.x && segment.y === p.y)`. */
  function Occupies(body: seq<Pos>, p: Pos): (r: bool)
    ensures r <==> p in body
  {
    if body == [] then false
    else if body[0].x == p.x && body[0].y == p.y then true
    else Occupies(body[1..], p)
  }

  /**
   * The collision checks of one tick: outside the grid is a wall hit;
   * otherwise a head on any current segment, the tail included, is a self hit.
   */
  function Classify(body: seq<Pos>, head: Pos): (r: Collision)
    ensures r == WallHit <==> !InGrid(head)
    ensures r == SelfHit <==> InGrid(head) && head in body
    ensures r == Free <==> InGrid(head) && head !in body
  {
    if head.x < 0 || head.x >= GridSize || head.y < 0 || head.y >= GridSize then WallHit
    else if Occupies(body, head) then SelfHit
    else Free
  }

  /**
   * Self collision is tested against the whole current body: moving onto the
   * tail cell ends the game, although that cell would be vacated this tick.
   */
  lemma TailCellIsSelfHit(body: seq<Pos>, head: Pos)
    requires |body| >= 1 && InGrid(head) && head == body[|body| - 1]
    ensures Classify(body, head) == SelfHit
  {
  }

  /** Every segment is on the grid and no two segments share a cell. */
  predicate WellFormed(body: seq<Pos>) {
    |body| >= 1
    && (forall i :: 0 <= i < |body| ==> InGrid(body[i]))
    && (forall i, j :: 0 <= i < j < |body| ==> body[i] != body[j])
  }

  /** The snake after the head is pushed in front and, unless it grows, the tail is dropped. */
  function Slide(body: seq<Pos>, head: Pos, grow: bool): seq<Pos>
    requires |body| >= 1
  {
    if grow then [head] + body else [head] + body[..|body| - 1]
  }

  /** A free move keeps the snake well formed, with the expected length. */
  lemma SlideWellFormed(body: seq<Pos>, head: Pos, grow: bool)
    requires WellFormed(body) && Classify(body, head) == Free
    ensures WellFormed(Slide(body, head, grow))
    ensures |Slide(body, head, grow)| == |body| + (if grow then 1 else 0)
    ensures forall p :: p in Slide(body, head, grow) ==> p == head || p in body
  {
  }

  /** Position `k` is the first of `draws` off `body`. */
  predicate FirstFreeDraw(draws: seq<Pos>, body: seq<Pos>, k: int) {
    0 <= k < |draws| && draws[k] !in body && forall j :: 0 <= j < k ==> draws[j] in body
  }

  /**
   * `generateFood`: draw random cells until one is off the body. The random
   * cells are the sequence `draws`; the loop ends only if one of them is free.
   */
  method GenerateFood(body: seq<Pos>, draws: seq<Pos>) returns (food: Pos)
    requires forall i :: 0 <= i < |draws| ==> InGrid(draws[i])
    requires exists i :: 0 <= i < |draws| && draws[i] !in body
    ensures InGrid(food) && food !in body
    ensures exists k :: FirstFreeDraw(draws, body, k) && draws[k] == food
  {
    var k := 0;
    food := draws[k];
    while Occupies(body, food)
      invariant 0 <= k < |draws| && food == draws[k]
      invariant forall j :: 0 <= j < k ==> draws[j] in body
      invariant exists i :: k <= i < |draws| && draws[i] !in body
      decreases |draws| - k
    {
      k := k + 1;
      food := draws[k];
    }
    assert FirstFreeDraw(draws, body, k);
  }

  /**
   * One direction updater of the key handler: the requested direction is
   * taken unless it is the reverse of the current one.
   */
  function Steer(current: Direction, requested: Direction): (r: Direction)
    ensures r != Opposite(current)
    ensures r == requested <==> requested != Opposite(current)
    ensures r != requested ==> r == current
  {
    if current != Opposite(requested) then requested else current
  }

  /**
   * Each key press steers against the direction left by the previous press,
   * not against the last move: two presses before one tick can reverse.
   */
  lemma TwoPressesCanReverse()
    ensures Steer(Steer(Right, Up), Left) == Opposite(Right)
  {
  }

  /** The switch on `e.key.toLowerCase()`: WASD and the arrow keys; other keys do nothing. */
  function KeyDirection(key: string): (r: Option<Direction>)
    ensures r == Some(Up) <==> Lower(key) in {"w", "arrowup"}
    ensures r == Some(Down) <==> Lower(key) in {"s", "arrowdown"}
    ensures r == Some(Left) <==> Lower(key) in {"a", "arrowleft"}
    ensures r == Some(Right) <==> Lower(key) in {"d", "arrowright"}
  {
    match Lower(key)
    case "w" => Some(Up)
    case "arrowup" => Some(Up)
    case "s" => Some(Down)
    case "arrowdown" => Some(Down)
    case "a" => Some(Left)
    case "arrowleft" => Some(Left)
    case "d" => Some(Right)
    case "arrowright" => Some(Right)
    case _ => None
  }

  /** The component's state: the body (head first), the food, the heading, the flags and the score. */
  class SnakeGame {
    var snake: seq<Pos>
    var food: Pos
    var direction: Direction
    var running: bool
    var over: bool
    var score: int

    /** The snake is well formed, the food is on a free cell, and each point of score is one cell grown. */
    ghost predicate Valid()
      reads this
    {
      WellFormed(snake) && InGrid(food) && food !in snake && score == FoodPoints * (|snake| - 1)
    }

    predicate IsInitial()
      reads this
    {
      snake == InitialSnake && food == InitialFood && direction == Right
      && !running && !over && score == 0
    }

    constructor ()
      ensures Valid() && IsInitial()
    {
      snake := InitialSnake;
      food := InitialFood;
      direction := Right;
      running := false;
      over := false;
      score := 0;
    }

    /** `isSnakeSegment`. */
    predicate IsSnakeSegment(x: int, y: int)
      reads this
      ensures IsSnakeSegment(x, y) <==> Pos(x, y) in snake
    {
      Occupies(snake, Pos(x, y))
    }

    /** `isFood`. */
    predicate IsFood(x: int, y: int)
      reads this
      ensures IsFood(x, y) <==> food == Pos(x, y)
    {
      food.x == x && food.y == y
    }

    /** The prospective head of the next tick. */
    function NextHead(): Pos
      reads this
      requires |snake| >= 1
    {
      Move(snake[0], direction)
    }

    /** The next tick moves onto the food (and so calls `generateFood`). */
    predicate WillEat()
      reads this
      requires |snake| >= 1
    {
      running && !over && Classify(snake, NextHead()) == Free && NextHead() == food
    }

    method ResetGame()
      modifies this
      ensures Valid() && IsInitial()
    {
      snake := InitialSnake;
      food := InitialFood;
      direction := Right;
      running := false;
      over := false;
      score := 0;
    }

    /** The play/pause button flips the running flag and nothing else. */
    method ToggleGame()
      requires Valid()
      modifies this`running
      ensures Valid()
      ensures running == !old(running)
    {
      running := !running;
    }

    /** A key press: ignored unless running; otherwise steers, never into a reversal. */
    method KeyDown(key: string)
      requires Valid()
      modifies this`direction
      ensures Valid()
      ensures direction != Opposite(old(direction))
      ensures !running || KeyDirection(key) == None ==> direction == old(direction)
      ensures running && KeyDirection(key).Some? ==> direction == Steer(old(direction), KeyDirection(key).value)
    {
      if !running {
        return;
      }
      match KeyDirection(key) {
        case Some(d) => direction := Steer(direction, d);
        case None =>
      }
    }

    /**
     * `moveSnake`, one tick of the game loop. `draws` are the random cells
     * `generateFood` would draw if the snake eats this tick.
     */
    method Tick(draws: seq<Pos>)
      requires Valid()
      requires forall i :: 0 <= i < |draws| ==> InGrid(draws[i])
      requires WillEat() ==> exists i :: 0 <= i < |draws| && draws[i] !in [NextHead()] + snake
      modifies this
      ensures Valid()
      ensures direction == old(direction)
      // Paused or finished: nothing changes.
      ensures !old(running) || old(over) ==>
        snake == old(snake) && food == old(food) && running == old(running) && over == old(over) && score == old(score)
      // Wall or self hit: the game ends and the snake stays where it was.
      ensures old(running) && !old(over) && Classify(old(snake), old(NextHead())) != Free ==>
        over && !running && snake == old(snake) && food == old(food) && score == old(score)
      // Food: the snake grows by the new head, the score by 10, and new food is the first free draw.
      ensures old(WillEat()) ==>
        running && !over && snake == [old(NextHead())] + old(snake) && score == old(score) + FoodPoints
        && exists k :: FirstFreeDraw(draws, snake, k) && draws[k] == food
      // Plain move: the head is pushed and the tail dropped.
      ensures old(running) && !old(over) && Classify(old(snake), old(NextHead())) == Free && !old(WillEat()) ==>
        running && !over && snake == [old(NextHead())] + old(snake)[..|old(snake)| - 1]
        && food == old(food) && score == old(score)
    {
      if !running || over {
        return;
      }
      var newSnake := snake;
      var head := Move(newSnake[0], direction);
      if head.x < 0 || head.x >= GridSize || head.y < 0 || head.y >= GridSize {
        over := true;
        running := false;
        return;
      }
      if Occupies(newSnake, head) {
        over := true;
        running := false;
        return;
      }
      SlideWellFormed(snake, head, head == food);
      newSnake := [head] + newSnake;
      if head.x == food.x && head.y == food.y {
        score := score + FoodPoints;
        food := GenerateFood(newSnake, draws);
      } else {
        newSnake := newSnake[..|newSnake| - 1];
      }
      snake := newSnake;
    }
  }
}
