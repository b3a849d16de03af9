/** The terminal front end: the character grid stands for the curses
    window (`grid[y, x]` is row `y`, column `x`; `Length0` and `Length1`
    are `get_max_y()` and `get_max_x()`).  A frame clears the grid, writes
    axis labels, and fills one trapezoid per wall of the seen world; a key
    press becomes a camera command. */
module Render {
  import opened Vectors
  import opened Scene
  import NearClip

  datatype Option<T> = None | Some(value: T)

  // ---------------------------------------------------------------------
  // Filling cells

  /** `fill_if`: visit every cell, row by row, and write `c` where
      `f(column, row)` holds. */
  method FillIf(grid: array2<char>, f: (int, int) -> bool, c: char)
    modifies grid
    ensures forall y, x :: 0 <= y < grid.Length0 && 0 <= x < grid.Length1 ==>
      grid[y, x] == if f(x, y) then c else old(grid[y, x])
  {
    for y := 0 to grid.Length0
      invariant forall y', x' :: 0 <= y' < grid.Length0 && 0 <= x' < grid.Length1 ==>
        grid[y', x'] == if y' < y && f(x', y') then c else old(grid[y', x'])
    {
      for x := 0 to grid.Length1
        invariant forall y', x' :: 0 <= y' < grid.Length0 && 0 <= x' < grid.Length1 ==>
          grid[y', x'] == if (y' < y || (y' == y && x' < x)) && f(x', y') then c else old(grid[y', x'])
      {
        if f(x, y) {
          grid[y, x] := c;
        }
      }
    }
  }

  // ---------------------------------------------------------------------
  // Axis labels

  function DigitChar(d: int): char
    requires 0 <= d < 10
  {
    (48 + d) as char
  }

  /** The decimal digits of a natural number, most significant first. */
  function Digits(n: nat): (s: string)
    ensures |s| > 0
    decreases n
  {
    if n < 10 then [DigitChar(n)] else Digits(n / 10) + [DigitChar(n % 10)]
  }

  /** `format!("{}", n)` for an integer. */
  function Decimal(n: int): (s: string)
    ensures |s| > 0
  {
    if n < 0 then "-" + Digits(-n) else Digits(n)
  }

  /** `format!("{}", n).chars().last().unwrap()`. */
  function LabelChar(n: int): char {
    var s := Decimal(n);
    s[|s| - 1]
  }

  /** A label is the last digit of the magnitude, whatever the sign. */
  lemma LabelIsLastDigit(n: int)
    ensures LabelChar(n) == DigitChar(if n < 0 then -n % 10 else n % 10)
    ensures LabelChar(n) == LabelChar(-n)
  {
    var m: nat := if n < 0 then -n else n;
    var d := Digits(m);
    assert d[|d| - 1] == DigitChar(m % 10);
    assert Decimal(n)[|Decimal(n)| - 1] == d[|d| - 1];
    assert Decimal(-n)[|Decimal(-n)| - 1] == d[|d| - 1];
  }

  /** A cell before any wall is drawn: the bottom row holds the column
      labels, the first column the row labels (the bottom-left cell is
      written last by the column labels), every other cell is blank.
      Labels count from the centre `(cols / 2, rows / 2)`. */
  function BaseCell(rows: int, cols: int, y: int, x: int): char {
    if y == rows - 1 then LabelChar(x - cols / 2)
    else if x == 0 then LabelChar(y - rows / 2)
    else ' '
  }

  // ---------------------------------------------------------------------
  // Walls

  /** The numbers `render_wall!` computes for a wall: the upper boundary
      `a * x + b` and the column range. */
  datatype Span = Span(a: real, b: real, minX: real, maxX: real)

  function Min(p: real, q: real): real { if p <= q then p else q }
  function Max(p: real, q: real): real { if p <= q then q else p }

  /** The span of the wall from `v` to `u` (x is the screen column, y the
      height): the upper boundary runs from half the height at `v` to half
      the height at `u`. */
  function WallSpan(v: Vector2, u: Vector2): (s: Span)
    requires v.x != u.x
    ensures s.a * v.x + s.b == v.y / 2.0
    ensures s.a * u.x + s.b == u.y / 2.0
    ensures s.minX <= s.maxX
    ensures (s.minX == v.x && s.maxX == u.x) || (s.minX == u.x && s.maxX == v.x)
  {
    var zv, zu := v.y / 2.0, u.y / 2.0;
    var a := (zu - zv) / (u.x - v.x);
    assert a * (u.x - v.x) == zu - zv;
    Span(a, zv - a * v.x, Min(v.x, u.x), Max(v.x, u.x))
  }

  /** The closure `render_wall!` hands to `fill_if`, on centre-relative
      coordinates. */
  predicate InSpan(s: Span, x: int, y: int) {
    var x', y' := x as real, y as real;
    s.minX <= x' && x' <= s.maxX && -s.a * x' - s.b <= y' && y' <= s.a * x' + s.b
  }

  /** A wall is symmetric about the centre row, and a cell is inside it
      exactly when its column is in range and its distance from the centre
      row is at most the boundary. */
  lemma InSpanSymmetric(s: Span, x: int, y: int)
    ensures InSpan(s, x, y) <==> InSpan(s, x, -y)
    ensures InSpan(s, x, y) <==>
      s.minX <= x as real <= s.maxX && (if y < 0 then -y else y) as real <= s.a * x as real + s.b
  {
  }

  /** In the column of a corner the wall covers exactly the rows within
      half that corner's height of the centre. */
  lemma CornerColumn(v: Vector2, u: Vector2, x: int, y: int)
    requires v.x != u.x && v.x == x as real
    ensures InSpan(WallSpan(v, u), x, y) <==> -v.y / 2.0 <= y as real <= v.y / 2.0
  {
    var s := WallSpan(v, u);
    assert s.a * x as real + s.b == v.y / 2.0;
  }

  /** `render_wall!(v, u)`: fill the wall's cells with 'O'. */
  method RenderWall(grid: array2<char>, v: Vector2, u: Vector2, centerX: int, centerY: int)
    requires v.x != u.x
    modifies grid
    ensures forall y, x :: 0 <= y < grid.Length0 && 0 <= x < grid.Length1 ==>
      grid[y, x] == if InSpan(WallSpan(v, u), x - centerX, y - centerY) then 'O' else old(grid[y, x])
  {
    var span := WallSpan(v, u);
    FillIf(grid, (x: int, y: int) => InSpan(span, x - centerX, y - centerY), 'O');
  }

  /** Every wall, including the wrap wall from the last corner to the
      first, has two distinct screen columns (else `render_wall!` divides
      by zero). */
  predicate WallsDefined(vs: seq<Vector2>) {
    forall i :: 0 <= i < |vs| ==> vs[i].x != NextCorner(vs, i).x
  }

  /** The corner after corner `i`, cyclically. */
  function NextCorner(vs: seq<Vector2>, i: int): Vector2
    requires 0 <= i < |vs|
  {
    if i + 1 < |vs| then vs[i + 1] else vs[0]
  }

  /** Whether one of the first `k` walls covers the centre-relative cell
      `(x, y)`; wall `i` runs from corner `i` to corner `i + 1`, and the
      last one back to corner 0. */
  predicate Covered(vs: seq<Vector2>, k: nat, x: int, y: int)
    requires WallsDefined(vs) && k <= |vs|
    decreases k
  {
    k > 0 && (Covered(vs, k - 1, x, y) || InSpan(WallSpan(vs[k - 1], NextCorner(vs, k - 1)), x, y))
  }

  /** A cell of the finished frame. */
  function FrameCell(vs: seq<Vector2>, rows: int, cols: int, y: int, x: int): char
    requires WallsDefined(vs)
  {
    if Covered(vs, |vs|, x - cols / 2, y - rows / 2) then 'O' else BaseCell(rows, cols, y, x)
  }

  /** The first part of `render_frame`: clear the window, then write the
      row labels down the first column and the column labels along the
      bottom row. */
  method DrawLabels(grid: array2<char>)
    requires grid.Length0 > 0 && grid.Length1 > 0
    modifies grid
    ensures forall y, x :: 0 <= y < grid.Length0 && 0 <= x < grid.Length1 ==>
      grid[y, x] == BaseCell(grid.Length0, grid.Length1, y, x)
  {
    var rows, cols := grid.Length0, grid.Length1;
    forall y, x | 0 <= y < rows && 0 <= x < cols {
      grid[y, x] := ' ';
    }
    var centerX, centerY := cols / 2, rows / 2;
    for y := 0 to rows
      invariant forall y', x' :: 0 <= y' < rows && 0 <= x' < cols ==>
        grid[y', x'] == if x' == 0 && y' < y then LabelChar(y' - centerY) else ' '
    {
      grid[y, 0] := LabelChar(y - centerY);
    }
    for x := 0 to cols
      invariant forall y', x' :: 0 <= y' < rows && 0 <= x' < cols ==>
        grid[y', x'] == if y' == rows - 1 && x' < x then LabelChar(x' - centerX)
                        else if x' == 0 then LabelChar(y' - centerY) else ' '
    {
      grid[rows - 1, x] := LabelChar(x - centerX);
    }
  }

  /** The `reduce` over the seen corners: draw the wall of each
      consecutive pair, keeping the later corner, then the wall from the
      last corner back to the first.  An empty list panics at `unwrap`
      before any wall is drawn; `panicked` reports that. */
  method DrawWalls(grid: array2<char>, vs: seq<Vector2>) returns (panicked: bool)
    requires WallsDefined(vs)
    requires forall y, x :: 0 <= y < grid.Length0 && 0 <= x < grid.Length1 ==>
      grid[y, x] == BaseCell(grid.Length0, grid.Length1, y, x)
    modifies grid
    ensures panicked <==> |vs| == 0
    ensures forall y, x :: 0 <= y < grid.Length0 && 0 <= x < grid.Length1 ==>
      grid[y, x] == FrameCell(vs, grid.Length0, grid.Length1, y, x)
  {
    var rows, cols := grid.Length0, grid.Length1;
    var centerX, centerY := cols / 2, rows / 2;
    if |vs| == 0 {
      return true;
    }
    var last := vs[0];
    for i := 1 to |vs|
      invariant last == vs[i - 1]
      invariant forall y', x' :: 0 <= y' < rows && 0 <= x' < cols ==>
        grid[y', x'] == if Covered(vs, i - 1, x' - centerX, y' - centerY) then 'O' else BaseCell(rows, cols, y', x')
    {
      assert NextCorner(vs, i - 1) == vs[i];
      RenderWall(grid, last, vs[i], centerX, centerY);
      forall y', x' | 0 <= y' < rows && 0 <= x' < cols
        ensures grid[y', x'] == if Covered(vs, i, x' - centerX, y' - centerY) then 'O' else BaseCell(rows, cols, y', x')
      {
      }
      last := vs[i];
    }
    assert NextCorner(vs, |vs| - 1) == vs[0];
    RenderWall(grid, last, vs[0], centerX, centerY);
    forall y', x' | 0 <= y' < rows && 0 <= x' < cols
      ensures grid[y', x'] == if Covered(vs, |vs|, x' - centerX, y' - centerY) then 'O' else BaseCell(rows, cols, y', x')
    {
    }
    panicked := false;
  }

  /** `render_frame`: labels, then the walls of what the camera sees.
      The seen world is empty exactly when the world is. */
  method RenderFrame(grid: array2<char>, world: World, camera: Camera, cosR: real, sinR: real) returns (panicked: bool)
    requires grid.Length0 > 0 && grid.Length1 > 0
    requires camera.CanSee(world, cosR, sinR)
    requires WallsDefined(Seen(world, camera.position, cosR, sinR, camera.yFixpoint, camera.vertexHeight))
    modifies grid
    ensures panicked <==> |world.vertexes| == 0
    ensures forall y, x :: 0 <= y < grid.Length0 && 0 <= x < grid.Length1 ==>
      grid[y, x] == FrameCell(Seen(world, camera.position, cosR, sinR, camera.yFixpoint, camera.vertexHeight),
                              grid.Length0, grid.Length1, y, x)
  {
    DrawLabels(grid);
    var seen := camera.See(world, cosR, sinR);
    NearClip.DedupLength(NearClip.WrapFixed(ToOrthographic(world, camera.position, cosR, sinR, camera.yFixpoint).vertexes));
    panicked := DrawWalls(grid, seen.vertexes);
  }

  // ---------------------------------------------------------------------
  // Keys

  /** What `getch` reports, as far as the event loop distinguishes it. */
  datatype Input = Character(c: char) | KeyDC | KeyResize | OtherKey

  /** The camera command a key stands for. */
  datatype Action = Move(direction: Vector2) | Turn(radian: real) | Resize | Quit | Idle

  /** The key table of the event loop; `cosR` and `sinR` are the cosine and
      sine of the camera's rotation, by which movement is rotated. */
  function Dispatch(input: Option<Input>, cosR: real, sinR: real): (a: Action)
    ensures input == Some(Character('w')) ==> a == Move(Rotate(Forward(), cosR, sinR))
    ensures input == Some(Character('s')) ==> a == Move(Neg(Rotate(Forward(), cosR, sinR)))
    ensures input == Some(Character('d')) ==> a == Move(Rotate(Right(), cosR, sinR))
    ensures input == Some(Character('a')) ==> a == Move(Neg(Rotate(Right(), cosR, sinR)))
    ensures input == Some(Character('q')) ==> a == Turn(1.0)
    ensures input == Some(Character('e')) ==> a == Turn(-1.0)
    ensures a.Turn? ==> -PI <= a.radian <= PI
    ensures a.Move? ==> SqrMagnitude(a.direction) == cosR * cosR + sinR * sinR
    ensures a == Quit <==> input == Some(KeyDC)
    ensures a == Resize <==> input == Some(KeyResize)
    ensures input.None? || input == Some(OtherKey) ==> a == Idle
    ensures input.Some? && input.value.Character? && input.value.c !in "wsadqe" ==> a == Idle
  {
    RotatedUnitLengths(cosR, sinR);
    NegPreservesLength(Rotate(Forward(), cosR, sinR));
    NegPreservesLength(Rotate(Right(), cosR, sinR));
    match input
    case Some(Character('w')) => Move(Rotate(Forward(), cosR, sinR))
    case Some(Character('s')) => Move(Neg(Rotate(Forward(), cosR, sinR)))
    case Some(Character('a')) => Move(Neg(Rotate(Right(), cosR, sinR)))
    case Some(Character('d')) => Move(Rotate(Right(), cosR, sinR))
    case Some(Character('q')) => Turn(1.0)
    case Some(Character('e')) => Turn(-1.0)
    case Some(KeyDC) => Quit
    case Some(KeyResize) => Resize
    case _ => Idle
  }

  /** Forward then back (or right then left) at the same rotation returns
      the camera to where it was. */
  lemma MoveRoundTrip(p: Vector2, cosR: real, sinR: real)
    ensures Add(Add(p, Dispatch(Some(Character('w')), cosR, sinR).direction),
                Dispatch(Some(Character('s')), cosR, sinR).direction) == p
    ensures Add(Add(p, Dispatch(Some(Character('d')), cosR, sinR).direction),
                Dispatch(Some(Character('a')), cosR, sinR).direction) == p
  {
  }

  /** One pass of the event loop after the frame is drawn: act on the key.
      `quit` is true for the key that breaks the loop. */
  method HandleInput(camera: Camera, input: Option<Input>, cosR: real, sinR: real) returns (quit: bool)
    modifies camera
    ensures quit <==> Dispatch(input, cosR, sinR) == Quit
    ensures match Dispatch(input, cosR, sinR)
      case Move(d) => camera.position == Add(old(camera.position), d) && camera.rotation == old(camera.rotation)
      case Turn(r) => camera.rotation == Wrapped(old(camera.rotation) + r) && camera.position == old(camera.position)
      case _ => camera.position == old(camera.position) && camera.rotation == old(camera.rotation)
    ensures -PI <= old(camera.rotation) <= PI ==> -PI <= camera.rotation <= PI
    ensures camera.yFixpoint == old(camera.yFixpoint) && camera.vertexHeight == old(camera.vertexHeight)
  {
    quit := false;
    match input
    case Some(Character('w')) => camera.Translate(Rotate(Forward(), cosR, sinR));
    case Some(Character('s')) => camera.Translate(Neg(Rotate(Forward(), cosR, sinR)));
    case Some(Character('a')) => camera.Translate(Neg(Rotate(Right(), cosR, sinR)));
    case Some(Character('d')) => camera.Translate(Rotate(Right(), cosR, sinR));
    case Some(Character('q')) => camera.Rotate(1.0);
    case Some(Character('e')) => camera.Rotate(-1.0);
    case Some(KeyDC) => quit := true;
    case Some(KeyResize) =>
    case _ =>
  }
}
