/** The falling-block game: pieces, the arena, and what whole games keep. */
module Tetris {

  const WIDTH := 10
  const HEIGHT := 20
  const PIECES := 7
  const SIDE := 4
  const LINE_SCORE := 100

  // ---------------------------------------------------------------- pieces

  /** tetrominoes[t][i] == 1: I, O, S, Z, T, L and J in a square of four by four. */
  predicate Shape(t: nat, i: nat)
    requires t < PIECES
  {
    match t
    case 0 => i == 4 || i == 5 || i == 6 || i == 7
    case 1 => i == 5 || i == 6 || i == 9 || i == 10
    case 2 => i == 6 || i == 7 || i == 9 || i == 10
    case 3 => i == 4 || i == 5 || i == 9 || i == 10
    case 4 => i == 5 || i == 8 || i == 9 || i == 10
    case 5 => i == 4 || i == 8 || i == 9 || i == 10
    case _ => i == 7 || i == 9 || i == 10 || i == 11
  }

  function Rotate(x: nat, y: nat, rotation: nat): (i: nat)
    requires x < SIDE && y < SIDE
    ensures i < SIDE * SIDE
  {
    match rotation % 4
    case 0 => x + y * 4
    case 1 => 12 + y - x * 4
    case 2 => 15 - y * 4 - x
    case _ => 3 - y + x * 4
  }

  /** One more rotation is a quarter turn of the square; after four the piece is as before. */
  lemma QuarterTurn(x: nat, y: nat, rotation: nat)
    requires x < SIDE && y < SIDE
    ensures Rotate(x, y, rotation + 1) == Rotate(y, 3 - x, rotation)
    ensures Rotate(x, y, rotation + 4) == Rotate(x, y, rotation)
  {
  }

  predicate Cell(t: nat, r: nat, x: nat, y: nat)
    requires t < PIECES && x < SIDE && y < SIDE
  {
    Shape(t, Rotate(x, y, r))
  }

  function One(t: nat, r: nat, x: nat, y: nat): nat
    requires t < PIECES && x < SIDE && y < SIDE
  {
    if Cell(t, r, x, y) then 1 else 0
  }

  /** Cells of row y of the piece left of x. */
  function RowCells(t: nat, r: nat, y: nat, x: nat): nat
    requires t < PIECES && y < SIDE
  {
    (if x > 0 then One(t, r, 0, y) else 0) + (if x > 1 then One(t, r, 1, y) else 0)
    + (if x > 2 then One(t, r, 2, y) else 0) + (if x > 3 then One(t, r, 3, y) else 0)
  }

  /** Cells of the piece above row y. */
  function Cells(t: nat, r: nat, y: nat): nat
    requires t < PIECES
  {
    (if y > 0 then RowCells(t, r, 0, SIDE) else 0) + (if y > 1 then RowCells(t, r, 1, SIDE) else 0)
    + (if y > 2 then RowCells(t, r, 2, SIDE) else 0) + (if y > 3 then RowCells(t, r, 3, SIDE) else 0)
  }

  lemma TurnKeepsCells(t: nat, r: nat)
    requires t < PIECES
    ensures Cells(t, r + 1, SIDE) == Cells(t, r, SIDE)
  {
    var q := r + 1;
    forall x, y | 0 <= x < SIDE && 0 <= y < SIDE ensures One(t, q, x, y) == One(t, r, y, 3 - x) {
      QuarterTurn(x, y, r);
    }
    hide One;
  }

  /** Every piece has four cells, however it is turned. */
  lemma {:induction false} FourCells(t: nat, r: nat)
    requires t < PIECES
    ensures Cells(t, r, SIDE) == 4
  {
    if r > 0 {
      FourCells(t, r - 1);
      TurnKeepsCells(t, r - 1);
    }
  }

  // ---------------------------------------------------------------- the arena as rows

  type Row = r: seq<bool> | |r| == WIDTH witness seq(WIDTH, _ => false)
  type Rows = seq<Row>

  function BlankRow(): (r: Row)
    ensures forall x :: 0 <= x < WIDTH ==> !r[x]
  {
    var r := seq(WIDTH, _ => false);
    r
  }

  predicate Full(r: Row) { forall x :: 0 <= x < WIDTH ==> r[x] }

  function Blanks(n: nat): (b: Rows)
    ensures |b| == n && forall y :: 0 <= y < n ==> b[y] == BlankRow()
  {
    if n == 0 then [] else Blanks(n - 1) + [BlankRow()]
  }

  /** The rows that are not full, in order. */
  function Kept(rows: Rows): (k: Rows)
    ensures |k| <= |rows|
  {
    if rows == [] then [] else (if Full(rows[0]) then [] else [rows[0]]) + Kept(rows[1..])
  }

  function FullCnt(rows: Rows): nat { |rows| - |Kept(rows)| }

  /** What clearing amounts to: the rows that are not full fall to the bottom. */
  function Settled(rows: Rows): (s: Rows)
    ensures |s| == |rows|
  {
    Blanks(FullCnt(rows)) + Kept(rows)
  }

  /** Row y taken out, a blank one put on top. */
  function Dropped(rows: Rows, y: nat): (d: Rows)
    requires y < |rows|
    ensures |d| == |rows|
  {
    [BlankRow()] + rows[..y] + rows[y + 1..]
  }

  lemma {:induction false} KeptBoth(a: Rows, b: Rows)
    ensures Kept(a + b) == Kept(a) + Kept(b)
    decreases |a|
  {
    if a == [] {
      assert a + b == b;
    } else {
      assert (a + b)[1..] == a[1..] + b;
      KeptBoth(a[1..], b);
      assert Kept(a) == Kept([a[0]]) + Kept(a[1..]);
    }
  }

  lemma BlankNotFull()
    ensures !Full(BlankRow()) && Kept([BlankRow()]) == [BlankRow()]
  {
    assert !BlankRow()[0];
  }

  /** Taking a full row out does not change what clearing comes to, and leaves one full row less. */
  lemma DroppedSettles(rows: Rows, y: nat)
    requires y < |rows| && Full(rows[y])
    ensures FullCnt(Dropped(rows, y)) + 1 == FullCnt(rows)
    ensures Settled(Dropped(rows, y)) == Settled(rows)
  {
    hide Full, Kept;
    var d := Dropped(rows, y);
    assert rows == rows[..y] + ([rows[y]] + rows[y + 1..]);
    KeptBoth(rows[..y], [rows[y]] + rows[y + 1..]);
    KeptBoth([rows[y]], rows[y + 1..]);
    assert Kept([rows[y]]) == [] by { KeptFull(rows[y]); }
    BlankNotFull();
    KeptBoth([BlankRow()] + rows[..y], rows[y + 1..]);
    KeptBoth([BlankRow()], rows[..y]);
    assert Kept(d) == [BlankRow()] + Kept(rows);
    var n := FullCnt(d);
    assert Blanks(n + 1) == Blanks(n) + [BlankRow()];
    assert Blanks(n) + ([BlankRow()] + Kept(rows)) == (Blanks(n) + [BlankRow()]) + Kept(rows);
  }

  lemma KeptFull(r: Row)
    requires Full(r)
    ensures Kept([r]) == []
  {
  }

  lemma {:induction false} NothingFull(rows: Rows)
    requires forall y :: 0 <= y < |rows| ==> !Full(rows[y])
    ensures Kept(rows) == rows && Settled(rows) == rows
    decreases |rows|
  {
    hide Full;
    if rows != [] {
      NothingFull(rows[1..]);
      assert rows == [rows[0]] + rows[1..];
    }
  }

  // ---------------------------------------------------------------- counting cells

  function RowFilled(r: seq<bool>): nat {
    if r == [] then 0 else RowFilled(r[..|r| - 1]) + if r[|r| - 1] then 1 else 0
  }

  function Filled(rows: Rows): nat {
    if rows == [] then 0 else RowFilled(rows[0]) + Filled(rows[1..])
  }

  lemma {:induction false} RowFilledSet(r: seq<bool>, x: nat)
    requires x < |r| && !r[x]
    ensures RowFilled(r[x := true]) == RowFilled(r) + 1
    decreases |r|
  {
    var n := |r| - 1;
    if x < n {
      RowFilledSet(r[..n], x);
      assert r[x := true][..n] == r[..n][x := true];
    } else {
      assert r[x := true][..n] == r[..n];
    }
  }

  lemma {:induction false} RowFilledAll(r: seq<bool>, v: bool)
    requires forall x :: 0 <= x < |r| ==> r[x] == v
    ensures RowFilled(r) == if v then |r| else 0
    decreases |r|
  {
    if r != [] {
      RowFilledAll(r[..|r| - 1], v);
    }
  }

  lemma {:induction false} FilledSet(rows: Rows, y: nat, x: nat)
    requires y < |rows| && x < WIDTH && !rows[y][x]
    ensures Filled(rows[y := rows[y][x := true]]) == Filled(rows) + 1
    decreases y
  {
    RowFilledSet(rows[y], x);
    if y > 0 {
      FilledSet(rows[1..], y - 1, x);
      assert rows[y := rows[y][x := true]][1..] == rows[1..][y - 1 := rows[y][x := true]];
    }
  }

  lemma {:induction false} FilledBoth(a: Rows, b: Rows)
    ensures Filled(a + b) == Filled(a) + Filled(b)
    decreases |a|
  {
    if a == [] {
      assert a + b == b;
    } else {
      assert (a + b)[1..] == a[1..] + b;
      FilledBoth(a[1..], b);
    }
  }

  /** Clearing takes the cells of the full rows away and no others. */
  lemma {:induction false} KeptFilled(rows: Rows)
    ensures Filled(Kept(rows)) + WIDTH * FullCnt(rows) == Filled(rows)
    decreases |rows|
  {
    hide RowFilled;
    if rows != [] {
      KeptFilled(rows[1..]);
      if Full(rows[0]) {
        RowFilledAll(rows[0], true);
        assert [] + Kept(rows[1..]) == Kept(rows[1..]);
      } else {
        FilledBoth([rows[0]], Kept(rows[1..]));
        assert [rows[0]][1..] == [];
      }
    }
  }

  lemma {:induction false} BlanksFilled(n: nat)
    ensures Filled(Blanks(n)) == 0
  {
    if n > 0 {
      BlanksFilled(n - 1);
      RowFilledAll(BlankRow(), false);
      FilledBoth(Blanks(n - 1), [BlankRow()]);
    }
  }

  lemma SettledFilled(rows: Rows)
    ensures Filled(Settled(rows)) + WIDTH * FullCnt(rows) == Filled(rows)
  {
    KeptFilled(rows);
    BlanksFilled(FullCnt(rows));
    FilledBoth(Blanks(FullCnt(rows)), Kept(rows));
  }

  // ---------------------------------------------------------------- the game

  /** Every cell of the piece is in the arena, on an empty place. */
  ghost predicate Fits(rows: Rows, t: nat, r: nat, px: int, py: int)
    requires t < PIECES && |rows| == HEIGHT
  {
    forall x, y :: 0 <= x < SIDE && 0 <= y < SIDE && Cell(t, r, x, y) ==> Free(rows, x + px, y + py)
  }

  predicate Free(rows: Rows, x: int, y: int)
    requires |rows| == HEIGHT
  {
    0 <= x < WIDTH && y < HEIGHT && (0 <= y ==> !rows[y][x])
  }

  /** The piece at (px, py) covers place (col, row). */
  predicate Covers(t: nat, r: nat, px: int, py: int, col: int, row: int)
    requires t < PIECES
  {
    0 <= col - px < SIDE && 0 <= row - py < SIDE && Cell(t, r, col - px, row - py)
  }

  function StampedRow(rows: Rows, t: nat, r: nat, px: int, py: int, row: nat): (s: Row)
    requires t < PIECES && |rows| == HEIGHT && row < HEIGHT
    ensures forall col :: 0 <= col < WIDTH ==> (s[col] <==> rows[row][col] || Covers(t, r, px, py, col, row))
  {
    var s := seq(WIDTH, col requires 0 <= col < WIDTH => rows[row][col] || Covers(t, r, px, py, col, row));
    s
  }

  /** The arena with the piece fixed in it. */
  function WithPiece(rows: Rows, t: nat, r: nat, px: int, py: int): (s: Rows)
    requires t < PIECES && |rows| == HEIGHT
    ensures |s| == HEIGHT
  {
    seq(HEIGHT, row requires 0 <= row < HEIGHT => StampedRow(rows, t, r, px, py, row))
  }

  /** now is was with the cells of the piece above row y, and of row y left of x, filled in. */
  ghost predicate Stamped(was: Rows, now: Rows, t: nat, r: nat, px: int, py: int, y: nat, x: nat)
    requires t < PIECES && |was| == |now| == HEIGHT
  {
    && (forall i, j :: 0 <= i < SIDE && 0 <= j < SIDE && Cell(t, r, i, j) && (j > y || (j == y && i >= x)) ==>
          Free(now, i + px, j + py))
    && Filled(now) == Filled(was) + Cells(t, r, y) + (if y < SIDE then RowCells(t, r, y, x) else 0)
    && (forall row, col :: 0 <= row < HEIGHT && 0 <= col < WIDTH ==>
          (now[row][col] <==>
             was[row][col] || (Covers(t, r, px, py, col, row) && (row - py < y || (row - py == y && col - px < x)))))
  }

  lemma StampStart(was: Rows, t: nat, r: nat, px: int, py: int)
    requires t < PIECES && |was| == HEIGHT && Fits(was, t, r, px, py)
    ensures Stamped(was, was, t, r, px, py, 0, 0)
  {
  }

  lemma StampRow(was: Rows, now: Rows, t: nat, r: nat, px: int, py: int, y: nat)
    requires t < PIECES && |was| == |now| == HEIGHT && y < SIDE && Stamped(was, now, t, r, px, py, y, SIDE)
    ensures Stamped(was, now, t, r, px, py, y + 1, 0)
  {
    hide Filled, Cell, One;
  }

  lemma StampSkip(was: Rows, now: Rows, t: nat, r: nat, px: int, py: int, y: nat, x: nat)
    requires t < PIECES && |was| == |now| == HEIGHT && y < SIDE && x < SIDE
    requires Stamped(was, now, t, r, px, py, y, x) && !Cell(t, r, x, y)
    ensures Stamped(was, now, t, r, px, py, y, x + 1)
  {
    hide Filled, Cell, Cells;
  }

  lemma StampSet(was: Rows, now: Rows, t: nat, r: nat, px: int, py: int, y: nat, x: nat)
    requires t < PIECES && |was| == |now| == HEIGHT && y < SIDE && x < SIDE
    requires Stamped(was, now, t, r, px, py, y, x) && Cell(t, r, x, y) && 0 <= y + py
    ensures Free(now, x + px, y + py)
    ensures Stamped(was, now[y + py := now[y + py][x + px := true]], t, r, px, py, y, x + 1)
  {
    hide Filled, Cell, Cells;
    assert Free(now, x + px, y + py);
    FilledSet(now, y + py, x + px);
  }

  datatype Key = Right | Left | Up | Down

  datatype Pose = Pose(rotation: nat, x: int, y: int)

  function Moved(key: Key, p: Pose): Pose {
    match key
    case Up => p.(rotation := (p.rotation + 1) % 4)
    case Left => p.(x := p.x - 1)
    case Right => p.(x := p.x + 1)
    case Down => p.(y := p.y + 1)
  }

  ghost predicate CoversAt(t: nat, p: Pose, col: int, row: int)
    requires t < PIECES
  {
    Covers(t, p.rotation, p.x, p.y, col, row)
  }

  /** Left, right and down move every cell by one place; up turns the piece in its own square. */
  lemma MovedCells(t: nat, p: Pose, col: int, row: int)
    requires t < PIECES && p.rotation < 4
    ensures CoversAt(t, Moved(Left, p), col, row) <==> CoversAt(t, p, col + 1, row)
    ensures CoversAt(t, Moved(Right, p), col, row) <==> CoversAt(t, p, col - 1, row)
    ensures CoversAt(t, Moved(Down, p), col, row) <==> CoversAt(t, p, col, row - 1)
    ensures CoversAt(t, Moved(Up, p), col, row) <==> CoversAt(t, p, p.x + (row - p.y), p.y + 3 - (col - p.x))
  {
    hide Cell;
    if 0 <= col - p.x < SIDE && 0 <= row - p.y < SIDE {
      TurnedCell(t, p.rotation, col - p.x, row - p.y);
    }
  }

  lemma TurnedCell(t: nat, r: nat, x: nat, y: nat)
    requires t < PIECES && r < 4 && x < SIDE && y < SIDE
    ensures Cell(t, (r + 1) % 4, x, y) <==> Cell(t, r, y, 3 - x)
  {
    hide Shape;
    QuarterTurn(x, y, r);
  }

  ghost predicate FitsAt(rows: Rows, t: nat, p: Pose)
    requires t < PIECES && |rows| == HEIGHT
  {
    Fits(rows, t, p.rotation, p.x, p.y)
  }

  datatype Event = Press(key: Key) | Tick(piece: nat)

  // ---------------------------------------------------------------- the game as a function of its events

  /** A game: the arena without the piece, the piece and where it is. */
  datatype State = State(rows: Rows, piece: nat, pose: Pose, score: int, over: bool) {
    predicate Ok() { |rows| == HEIGHT && piece < PIECES }
  }

  /** The next piece, at the top. The game is over if it does not fit there. */
  ghost function Dealt(rows: Rows, piece: nat, score: int): (s: State)
    requires |rows| == HEIGHT
    ensures s.Ok()
  {
    State(rows, piece % PIECES, Pose(0, 3, 0), score, !FitsAt(rows, piece % PIECES, Pose(0, 3, 0)))
  }

  ghost function After(s: State, e: Event): (t: State)
    requires s.Ok()
    ensures t.Ok()
  {
    if s.over then s
    else
      match e
      case Press(key) => if FitsAt(s.rows, s.piece, Moved(key, s.pose)) then s.(pose := Moved(key, s.pose)) else s
      case Tick(piece) =>
        if FitsAt(s.rows, s.piece, Moved(Down, s.pose)) then s.(pose := Moved(Down, s.pose))
        else
          var rows := WithPiece(s.rows, s.piece, s.pose.rotation, s.pose.x, s.pose.y);
          Dealt(Settled(rows), piece, s.score + LINE_SCORE * FullCnt(rows))
  }

  ghost function AfterAll(s: State, events: seq<Event>, n: nat): (t: State)
    requires s.Ok() && n <= |events|
    ensures t.Ok()
  {
    if n == 0 then s else After(AfterAll(s, events, n - 1), events[n - 1])
  }

  /** When a game is over, it stays as it is. */
  lemma {:induction false} OverStays(s: State, events: seq<Event>, i: nat, n: nat)
    requires s.Ok() && i <= n <= |events| && AfterAll(s, events, i).over
    ensures AfterAll(s, events, n) == AfterAll(s, events, i)
    decreases n
  {
    if i < n {
      OverStays(s, events, i, n - 1);
    }
  }

  class Game {
    const arena: array2<bool>
    var score: int
    var gameOver: int
    var curr: nat
    var rotation: nat
    var x: int
    var y: int
    ghost var lines: nat   // cleared since the game began
    ghost var placed: nat  // pieces placed since then
    ghost var base: nat    // cells that were filled then

    ghost function Line(row: nat): Row
      requires arena.Length0 == HEIGHT && arena.Length1 == WIDTH && row < HEIGHT
      reads arena
    {
      var r := seq(WIDTH, col requires 0 <= col < WIDTH reads arena => arena[row, col]);
      r
    }

    ghost function Grid(): (rows: Rows)
      requires arena.Length0 == HEIGHT && arena.Length1 == WIDTH
      reads arena
      ensures |rows| == HEIGHT
    {
      seq(HEIGHT, row requires 0 <= row < HEIGHT reads arena => Line(row))
    }

    ghost function Shown(): State
      requires arena.Length0 == HEIGHT && arena.Length1 == WIDTH
      reads this, arena
    {
      State(Grid(), curr, Pose(rotation, x, y), score, gameOver != 0)
    }

    ghost predicate Shaped()
      reads this
    {
      arena.Length0 == HEIGHT && arena.Length1 == WIDTH && curr < PIECES && rotation < 4 && 0 <= y
    }

    ghost predicate Valid()
      reads this, arena
    {
      && Shaped() && score == LINE_SCORE * lines
      && (gameOver == 0 ==> Fits(Grid(), curr, rotation, x, y))
      && Filled(Grid()) + WIDTH * lines == base + 4 * placed
    }

    /** validPos. Cells above the arena count as empty; the code reads the memory before the arena for them, and
        does not use what it finds. */
    method ValidPos(t: nat, r: nat, px: int, py: int) returns (ok: bool)
      requires Shaped() && t < PIECES
      ensures ok <==> Fits(Grid(), t, r, px, py)
    {
      hide Cell;
      for i := 0 to SIDE
        invariant forall a, b :: 0 <= a < i && 0 <= b < SIDE && Cell(t, r, a, b) ==> Free(Grid(), a + px, b + py)
      {
        for j := 0 to SIDE
          invariant forall a, b ::
                      0 <= a < SIDE && 0 <= b < SIDE && Cell(t, r, a, b) && (a < i || (a == i && b < j)) ==>
                        Free(Grid(), a + px, b + py)
        {
          if !Cell(t, r, i, j) {
            continue;
          }
          if 0 > i + px || WIDTH <= i + px || HEIGHT <= j + py {
            return false;
          }
          if 0 <= j + py && arena[j + py, i + px] {
            return false;
          }
        }
      }
      ok := true;
    }

    method ProcessInputs(key: Key)
      requires Valid() && gameOver == 0
      modifies this`rotation, this`x, this`y
      ensures Valid() && Shown() == After(old(Shown()), Press(key))
      ensures Pose(rotation, x, y) == var to := Moved(key, old(Pose(rotation, x, y)));
                                      if FitsAt(Grid(), curr, to) then to else old(Pose(rotation, x, y))
    {
      hide Fits;
      match key {
        case Up =>
          var next := (rotation + 1) % 4;
          var ok := ValidPos(curr, next, x, y);
          if ok {
            rotation := next;
          }
        case Left =>
          var ok := ValidPos(curr, rotation, x - 1, y);
          if ok {
            x := x - 1;
          }
        case Right =>
          var ok := ValidPos(curr, rotation, x + 1, y);
          if ok {
            x := x + 1;
          }
        case Down =>
          var ok := ValidPos(curr, rotation, x, y + 1);
          if ok {
            y := y + 1;
          }
      }
    }

    method MoveDown() returns (moved: bool)
      requires Valid() && gameOver == 0
      modifies this`y
      ensures Valid() && y == old(y) + (if moved then 1 else 0)
      ensures moved <==> Fits(Grid(), curr, rotation, x, old(y) + 1)
    {
      hide Fits;
      moved := ValidPos(curr, rotation, x, y + 1);
      if moved {
        y := y + 1;
      }
    }

    /** One cell of the arena. */
    method SetCell(row: nat, col: nat)
      requires arena.Length0 == HEIGHT && arena.Length1 == WIDTH && row < HEIGHT && col < WIDTH
      modifies arena
      ensures Grid() == old(Grid())[row := old(Grid())[row][col := true]]
    {
      ghost var was := Grid();
      arena[row, col] := true;
      forall k | 0 <= k < HEIGHT ensures Grid()[k] == was[row := was[row][col := true]][k] {
        assert Line(k) == if k == row then was[row][col := true] else was[k];
      }
    }

    method AddToArena()
      requires Shaped() && Fits(Grid(), curr, rotation, x, y)
      modifies arena
      ensures Shaped() && Filled(Grid()) == old(Filled(Grid())) + 4
      ensures Grid() == WithPiece(old(Grid()), curr, rotation, x, y)
    {
      hide Fits, Filled, Cell, Stamped;
      ghost var was := Grid();
      StampStart(was, curr, rotation, x, y);
      FourCells(curr, rotation);
      for j := 0 to SIDE
        invariant Shaped() && Stamped(was, Grid(), curr, rotation, x, y, j, 0)
      {
        for i := 0 to SIDE
          invariant Shaped() && Stamped(was, Grid(), curr, rotation, x, y, j, i)
        {
          if !Cell(curr, rotation, i, j) {
            StampSkip(was, Grid(), curr, rotation, x, y, j, i);
            continue;
          }
          StampSet(was, Grid(), curr, rotation, x, y, j, i);
          if 0 <= x + i < WIDTH && 0 <= y + j < HEIGHT {
            SetCell(y + j, x + i);
          }
        }
        StampRow(was, Grid(), curr, rotation, x, y, j);
      }
      StampEnd(was, Grid(), curr, rotation, x, y);
    }

    /** Is every place of the row taken? */
    method LineFull(row: nat) returns (full: bool)
      requires Shaped() && row < HEIGHT
      ensures full <==> Full(Grid()[row])
    {
      for col := 0 to WIDTH
        invariant forall k :: 0 <= k < col ==> Grid()[row][k]
      {
        if !arena[row, col] {
          assert !Grid()[row][col];
          return false;
        }
      }
      full := true;
    }

    /** The rows above fall by one, a blank one comes on top. */
    method DropAbove(row: nat)
      requires Shaped() && row < HEIGHT
      modifies arena
      ensures Shaped() && Grid() == Dropped(old(Grid()), row)
    {
      ghost var was := Grid();
      var yy := row;
      while yy > 0
        invariant 0 <= yy <= row
        invariant forall k, col :: 0 <= k < HEIGHT && 0 <= col < WIDTH ==>
                    arena[k, col] == if yy < k <= row then was[k - 1][col] else was[k][col]
      {
        for xx := 0 to WIDTH
          invariant forall k, col :: 0 <= k < HEIGHT && 0 <= col < WIDTH ==>
                      arena[k, col] == if yy < k <= row || (k == yy && col < xx) then was[k - 1][col] else was[k][col]
        {
          arena[yy, xx] := arena[yy - 1, xx];
        }
        yy := yy - 1;
      }
      for xx := 0 to WIDTH
        invariant forall k, col :: 0 <= k < HEIGHT && 0 <= col < WIDTH ==>
                    arena[k, col] == if k == 0 && col < xx then false
                                     else if 0 < k <= row then was[k - 1][col] else was[k][col]
      {
        arena[0, xx] := false;
      }
      forall k | 0 <= k < HEIGHT ensures Grid()[k] == Dropped(was, row)[k] {
        assert Line(k) == Dropped(was, row)[k];
      }
    }

    /** checkLines. The row index steps back after each full row; every step back leaves one full row less. */
    method CheckLines()
      requires Shaped()
      modifies arena, this`score, this`lines
      ensures Shaped() && Grid() == Settled(old(Grid()))
      ensures lines == old(lines) + FullCnt(old(Grid())) && score == old(score) + LINE_SCORE * FullCnt(old(Grid()))
    {
      hide Full, Settled, FullCnt, Dropped;
      ghost var was := Grid();
      var cleared := 0;
      var row := HEIGHT - 1;
      while row >= 0
        invariant Shaped() && -1 <= row < HEIGHT && lines == old(lines) && score == old(score)
        invariant Settled(Grid()) == Settled(was) && cleared + FullCnt(Grid()) == FullCnt(was)
        invariant forall k :: row < k < HEIGHT ==> !Full(Grid()[k])
        decreases FullCnt(Grid()), row
      {
        var full := LineFull(row);
        if !full {
          row := row - 1;
          continue;
        }
        cleared := cleared + 1;
        DroppedSettles(Grid(), row);
        DroppedBelow(Grid(), row);
        DropAbove(row);
      }
      NothingFull(Grid());
      NoneFullCnt(Grid());
      lines := lines + cleared;
      if 0 < cleared {
        score := score + LINE_SCORE * cleared;
      }
    }

    /** newTetromino, with the piece rand() % 7 has picked. */
    method NewTetromino(piece: nat)
      requires Shaped()
      modifies this`curr, this`rotation, this`x, this`y, this`gameOver
      ensures Shaped() && curr == piece % PIECES && Pose(rotation, x, y) == Pose(0, 3, 0)
      ensures (gameOver == 0 || gameOver == 1)
      ensures gameOver == 0 <==> Fits(Grid(), curr, rotation, x, y)
    {
      hide Fits;
      curr := piece % PIECES;
      rotation := 0;
      x := WIDTH / 2 - SIDE / 2;
      y := 0;
      var ok := ValidPos(curr, rotation, x, y);
      gameOver := if ok then 0 else 1;
    }

    /** newGame. It leaves the arena as it is; the main loop clears it before. */
    method NewGame(piece: nat)
      requires Shaped()
      modifies this
      ensures Valid() && lines == 0 && placed == 0 && base == Filled(Grid()) && Grid() == old(Grid())
      ensures Shown() == Dealt(old(Grid()), piece, 0)
    {
      hide Fits, Filled;
      score := 0;
      gameOver := 0;
      rotation := 0;
      lines, placed, base := 0, 0, Filled(Grid());
      NewTetromino(piece);
    }

    /** A tick of the main loop: the piece falls, or stays for good and the next one comes. */
    method Fall(piece: nat)
      requires Valid() && gameOver == 0
      modifies this, arena
      ensures Valid() && base == old(base) && Shown() == After(old(Shown()), Tick(piece))
      ensures old(Fits(Grid(), curr, rotation, x, y + 1)) ==>
                placed == old(placed) && Grid() == old(Grid()) && y == old(y) + 1
      ensures !old(Fits(Grid(), curr, rotation, x, y + 1)) ==>
                && placed == old(placed) + 1 && curr == piece % PIECES
                && Grid() == Settled(WithPiece(old(Grid()), old(curr), old(rotation), old(x), old(y)))
    {
      hide Fits, Filled, Settled, FullCnt;
      var moved := MoveDown();
      if !moved {
        AddToArena();
        placed := placed + 1;
        ghost var before := Grid();
        CheckLines();
        SettledFilled(before);
        NewTetromino(piece);
      }
    }

    /** A game, from an empty arena, through any keys and ticks, until it is over or nothing more comes. */
    method Play(first: nat, events: seq<Event>)
      requires Shaped() && forall k :: 0 <= k < HEIGHT ==> Grid()[k] == BlankRow()
      modifies this, arena
      ensures Valid() && score == LINE_SCORE * lines && Filled(Grid()) + WIDTH * lines == 4 * placed
      ensures gameOver == 0 ==> Fits(Grid(), curr, rotation, x, y)
      ensures Shown() == AfterAll(Dealt(old(Grid()), first, 0), events, |events|)
    {
      hide Fits, Filled, Dealt, After;
      BlankFilled(Grid());
      NewGame(first);
      ghost var begun := Shown();
      var i := 0;
      while i < |events| && gameOver == 0
        invariant i <= |events| && Valid() && base == 0 && Shown() == AfterAll(begun, events, i)
      {
        match events[i] {
          case Press(key) => ProcessInputs(key);
          case Tick(piece) => Fall(piece);
        }
        i := i + 1;
      }
      if i < |events| {
        OverStays(begun, events, i, |events|);
      }
    }
  }

  lemma StampEnd(was: Rows, now: Rows, t: nat, r: nat, px: int, py: int)
    requires t < PIECES && |was| == |now| == HEIGHT && Stamped(was, now, t, r, px, py, SIDE, 0)
    ensures Filled(now) == Filled(was) + Cells(t, r, SIDE) && now == WithPiece(was, t, r, px, py)
  {
    hide Filled, Cells, Cell;
    forall row | 0 <= row < HEIGHT ensures now[row] == WithPiece(was, t, r, px, py)[row] {
    }
  }

  lemma DroppedBelow(rows: Rows, y: nat)
    requires |rows| == HEIGHT && y < HEIGHT
    ensures forall k :: y < k < HEIGHT ==> Dropped(rows, y)[k] == rows[k]
  {
  }

  lemma NoneFullCnt(rows: Rows)
    requires Kept(rows) == rows
    ensures FullCnt(rows) == 0
  {
  }

  lemma {:induction false} BlankFilled(rows: Rows)
    requires forall k :: 0 <= k < |rows| ==> rows[k] == BlankRow()
    ensures Filled(rows) == 0
    decreases |rows|
  {
    if rows != [] {
      RowFilledAll(rows[0], false);
      BlankFilled(rows[1..]);
    }
  }
}
