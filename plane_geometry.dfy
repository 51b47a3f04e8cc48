/** Value-level description of where the player plane may stand on the
    playfield and how one move changes that position. The class in
    our_plane.dfy keeps its fields equal to these values. */
module PlaneGeometry {

  /** Height of the strip at the bottom of the playfield that the plane never enters. */
  const MarginBottom: int := 60

  /** Pixels per move step, as set when the plane is built. */
  const InitialSpeed: int := 10

  /** Python's built-in `max` on two integers. */
  function Max(a: int, b: int): (r: int)
    ensures r >= a && r >= b
    ensures r == a || r == b
  {
    if a >= b then a else b
  }

  /** Python's built-in `min` on two integers. */
  function Min(a: int, b: int): (r: int)
    ensures r <= a && r <= b
    ensures r == a || r == b
  {
    if a <= b then a else b
  }

  /** The parts of the plane's state that no move changes: the playfield size,
      the sprite's own size and its speed. */
  datatype Geometry = Geometry(width: int, height: int, rectWidth: int, rectHeight: int, speed: int)

  /** The top-left corner of the sprite's rectangle. */
  datatype Placement = Placement(left: int, top: int)

  /** The four move operations. */
  datatype Move = Up | Down | Left | Right

  /** Largest `left` that keeps the sprite inside the playfield. */
  function MaxLeft(g: Geometry): int {
    g.width - g.rectWidth
  }

  /** Largest `top` that keeps the sprite above the bottom margin. */
  function MaxTop(g: Geometry): int {
    g.height - MarginBottom - g.rectHeight
  }

  /** The sprite fits on the playfield above the margin and moves forward. */
  predicate Fits(g: Geometry) {
    0 <= g.speed && g.rectWidth <= g.width && g.rectHeight <= g.height - MarginBottom
  }

  /** The sprite lies inside the playfield and above the bottom margin. */
  predicate InBounds(g: Geometry, p: Placement) {
    0 <= p.left <= MaxLeft(g) && 0 <= p.top <= MaxTop(g)
  }

  /** Start position: centred horizontally with floor division (Dafny's `/` on
      `int` floors for the positive divisor 2, like Python's `//`), resting on
      the bottom margin. */
  function Spawn(g: Geometry): Placement {
    Placement((g.width - g.rectWidth) / 2, g.height - g.rectHeight - MarginBottom)
  }

  /** One move: shift one coordinate by the speed, then clamp with max/min. */
  function Step(g: Geometry, p: Placement, m: Move): Placement {
    match m
    case Up => p.(top := Max(p.top - g.speed, 0))
    case Down => p.(top := Min(p.top + g.speed, MaxTop(g)))
    case Left => p.(left := Max(p.left - g.speed, 0))
    case Right => p.(left := Min(p.left + g.speed, MaxLeft(g)))
  }

  /** The position after a sequence of moves, applied first to last. */
  function Run(g: Geometry, p: Placement, moves: seq<Move>): Placement
    decreases |moves|
  {
    if moves == [] then p else Run(g, Step(g, p, moves[0]), moves[1..])
  }

  /** The sprite stands on the edge that move `m` pushes against. */
  predicate AtEdge(g: Geometry, p: Placement, m: Move) {
    match m
    case Up => p.top == 0
    case Down => p.top == MaxTop(g)
    case Left => p.left == 0
    case Right => p.left == MaxLeft(g)
  }

  /** `n` copies of the same move. */
  function Repeat(m: Move, n: nat): (r: seq<Move>)
    ensures |r| == n
    ensures forall k :: 0 <= k < n ==> r[k] == m
  {
    if n == 0 then [] else [m] + Repeat(m, n - 1)
  }

  /** The start position is centred: the free space to the left of the sprite
      and to its right differ by at most one pixel, the extra pixel going to
      the right; and the sprite rests exactly on the bottom margin. */
  lemma SpawnCentred(g: Geometry)
    ensures var s := Spawn(g); 0 <= (MaxLeft(g) - s.left) - s.left <= 1
    ensures Spawn(g).top == MaxTop(g)
  {
  }

  /** When the sprite fits, the start position is inside the bounds. */
  lemma SpawnInBounds(g: Geometry)
    requires Fits(g)
    ensures InBounds(g, Spawn(g))
  {
  }

  /** Each move changes only its own coordinate and clamps it against the
      edge it moves towards, whatever the position was before. */
  lemma StepClamps(g: Geometry, p: Placement, m: Move)
    ensures var r := Step(g, p, m);
      match m
      case Up => r.left == p.left && r.top >= 0 && (r.top == p.top - g.speed || r.top == 0)
      case Down => r.left == p.left && r.top <= MaxTop(g) && (r.top == p.top + g.speed || r.top == MaxTop(g))
      case Left => r.top == p.top && r.left >= 0 && (r.left == p.left - g.speed || r.left == 0)
      case Right => r.top == p.top && r.left <= MaxLeft(g) && (r.left == p.left + g.speed || r.left == MaxLeft(g))
  {
  }

  /** Every move keeps the sprite inside the bounds. */
  lemma StepInBounds(g: Geometry, p: Placement, m: Move)
    requires Fits(g) && InBounds(g, p)
    ensures InBounds(g, Step(g, p, m))
  {
  }

  /** A move against the edge the sprite already stands on changes nothing. */
  lemma StepAtEdgeIsNoop(g: Geometry, p: Placement, m: Move)
    requires 0 <= g.speed
    requires AtEdge(g, p, m)
    ensures Step(g, p, m) == p
  {
  }

  /** With a positive speed and the sprite in bounds, a move leaves the
      position unchanged exactly when the sprite is at that move's edge. */
  lemma StepIsNoopIffAtEdge(g: Geometry, p: Placement, m: Move)
    requires 0 < g.speed && InBounds(g, p)
    ensures Step(g, p, m) == p <==> AtEdge(g, p, m)
  {
  }

  /** The start position rests on the lowest allowed row, so moving down right
      after construction changes nothing. */
  lemma DownAfterSpawnIsNoop(g: Geometry)
    requires 0 <= g.speed
    ensures Step(g, Spawn(g), Down) == Spawn(g)
  {
  }

  /** Any sequence of moves keeps the sprite inside the bounds. */
  lemma {:induction false} RunInBounds(g: Geometry, p: Placement, moves: seq<Move>)
    requires Fits(g) && InBounds(g, p)
    ensures InBounds(g, Run(g, p, moves))
    decreases |moves|
  {
    if moves != [] {
      StepInBounds(g, p, moves[0]);
      RunInBounds(g, Step(g, p, moves[0]), moves[1..]);
    }
  }

  /** Repeating a move against the edge the sprite stands on keeps it there. */
  lemma {:induction false} RepeatAtEdgeIsNoop(g: Geometry, p: Placement, m: Move, n: nat)
    requires 0 <= g.speed
    requires AtEdge(g, p, m)
    ensures Run(g, p, Repeat(m, n)) == p
  {
    if n > 0 {
      StepAtEdgeIsNoop(g, p, m);
      assert Repeat(m, n)[1..] == Repeat(m, n - 1);
      RepeatAtEdgeIsNoop(g, p, m, n - 1);
    }
  }

  /** A playfield of 480 by 700 with a 100 by 75 sprite: the plane starts at
      (190, 565), which is the lowest allowed row, so moving down is blocked. */
  lemma SpawnExample()
    ensures var g := Geometry(480, 700, 100, 75, InitialSpeed);
      Spawn(g) == Placement(190, 565) && MaxTop(g) == 565 && Step(g, Spawn(g), Down) == Spawn(g)
  {
  }
}
