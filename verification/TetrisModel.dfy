// tetris.c: the game as a value, one tick as a function, and what every game keeps.
module TetrisModel {
  // piece_t: 0 to 6 are the shapes, 7 is P_E, an empty cell.
  type Piece = p: nat | p <= 7
  type Shape = p: nat | p < 7
  type Row = r: seq<Piece> | |r| == 10 witness seq(10, _ => 7)
  type Board = b: seq<Row> | |b| == 20 witness seq<Row>(20, _ => BLANK)

  const BLANK: Row := [7, 7, 7, 7, 7, 7, 7, 7, 7, 7]

  datatype Phase = SpawnBlock | ShiftDown | LineCheck | LineFlash | Pause | GameOver
  datatype Keys = Keys(quit: bool, left: bool, right: bool, drop: bool, rotate: bool, pause: bool, down: bool)

  // x and y are the piece's origin on the board; placed counts the pieces that have come to rest.
  datatype Game = Game(board: Board, full: seq<bool>, current: Shape, next: Shape, phase: Phase, before: Phase,
    rotation: nat, x: int, y: int, ticks: nat, flashTicks: nat, flashes: nat, perDrop: nat, lines: nat, score: nat,
    quit: bool, placed: nat)

  // block_offsets
  function Offsets(rotation: nat, p: Shape): (o: seq<(int, int)>)
    ensures |o| == 4
  {
    match p
    case 0 => if rotation % 2 == 0 then [(-1, 0), (0, 0), (1, 0), (2, 0)] else [(0, -1), (0, 0), (0, 1), (0, 2)]
    case 1 =>
      if rotation == 0 then [(-1, 0), (0, 0), (1, 0), (1, 1)]
      else if rotation == 1 then [(0, -1), (0, 0), (0, 1), (-1, 1)]
      else if rotation == 2 then [(1, 0), (0, 0), (-1, 0), (-1, -1)]
      else [(0, 1), (0, 0), (0, -1), (1, -1)]
    case 2 =>
      if rotation == 0 then [(-1, 0), (-1, 1), (0, 0), (1, 0)]
      else if rotation == 1 then [(-1, -1), (0, -1), (0, 0), (0, 1)]
      else if rotation == 2 then [(1, 0), (1, -1), (0, 0), (-1, 0)]
      else [(1, 1), (0, 1), (0, 0), (0, -1)]
    case 3 => [(0, 0), (1, 0), (0, 1), (1, 1)]
    case 4 => if rotation % 2 == 0 then [(-1, 1), (0, 1), (0, 0), (1, 0)] else [(-1, -1), (-1, 0), (0, 0), (0, 1)]
    case 5 =>
      if rotation == 0 then [(-1, 0), (0, 0), (0, 1), (1, 0)]
      else if rotation == 1 then [(0, -1), (0, 0), (-1, 0), (0, 1)]
      else if rotation == 2 then [(-1, 0), (0, 0), (0, -1), (1, 0)]
      else [(0, -1), (0, 0), (1, 0), (0, 1)]
    case 6 => if rotation % 2 == 0 then [(-1, 0), (0, 0), (0, 1), (1, 1)] else [(0, 1), (0, 0), (1, 0), (1, -1)]
  }

  // The four cells of a shape are different, and none is more than one above its origin.
  lemma OffsetsDiffer(rotation: nat, p: Shape, i: nat, j: nat)
    requires i < j < 4
    ensures Offsets(rotation, p)[i] != Offsets(rotation, p)[j] && Offsets(rotation, p)[i].1 >= -1
  {
  }

  function CellX(x: int, rotation: nat, p: Shape, i: nat): int
    requires i < 4
  {
    x + Offsets(rotation, p)[i].0
  }

  function CellY(y: int, rotation: nat, p: Shape, i: nat): int
    requires i < 4
  {
    y + Offsets(rotation, p)[i].1
  }

  predicate Inside(x: int, y: int) {
    0 <= x < 10 && 0 <= y < 20
  }

  predicate FreeCell(b: Board, x: int, y: int) {
    Inside(x, y) && b[y][x] == 7
  }

  // check_collision returns 0.
  predicate Free(b: Board, x: int, y: int, rotation: nat, p: Shape) {
    forall i: nat {:trigger CellX(x, rotation, p, i)} :: i < 4 ==>
      FreeCell(b, CellX(x, rotation, p, i), CellY(y, rotation, p, i))
  }

  function SetCell(b: Board, x: int, y: int, p: Piece): Board {
    if Inside(x, y) then b[y := b[y][x := p]] else b
  }

  // The first n cells of a piece are written to the board.
  function Put(b: Board, x: int, y: int, rotation: nat, p: Shape, n: nat): Board
    requires n <= 4
  {
    if n == 0 then b
    else SetCell(Put(b, x, y, rotation, p, n - 1), CellX(x, rotation, p, n - 1), CellY(y, rotation, p, n - 1), p)
  }

  // ---------------------------------------------------------------------------------------------
  // Counting

  function CellsIn(r: seq<Piece>): nat {
    if r == [] then 0 else CellsIn(r[..|r| - 1]) + (if r[|r| - 1] != 7 then 1 else 0)
  }

  // Occupied cells in the rows from c on
  function OccupiedFrom(b: seq<Row>, c: nat): nat
    requires c <= |b|
    decreases |b| - c
  {
    if c == |b| then 0 else CellsIn(b[c]) + OccupiedFrom(b, c + 1)
  }

  function Occupied(b: seq<Row>): nat {
    OccupiedFrom(b, 0)
  }

  predicate RowFull(r: Row) {
    forall x :: 0 <= x < 10 ==> r[x] != 7
  }

  predicate NoneFull(b: seq<Row>) {
    forall y :: 0 <= y < |b| ==> !RowFull(b[y])
  }

  predicate FullsAre(b: Board, full: seq<bool>) {
    |full| == 20 && forall y :: 0 <= y < 20 ==> (full[y] <==> RowFull(b[y]))
  }

  lemma {:induction false} CellSet(r: seq<Piece>, x: nat, p: Piece)
    requires x < |r| && r[x] == 7 && p != 7
    ensures CellsIn(r[x := p]) == CellsIn(r) + 1
  {
    var k := |r| - 1;
    if x == k {
      assert r[x := p][..k] == r[..k];
    } else {
      assert r[x := p][..k] == r[..k][x := p];
      CellSet(r[..k], x, p);
    }
  }

  lemma {:induction false} RowSet(b: seq<Row>, y: nat, r: Row, c: nat)
    requires c <= |b| && y < |b|
    ensures OccupiedFrom(b[y := r], c) + (if c <= y then CellsIn(b[y]) else 0) ==
      OccupiedFrom(b, c) + (if c <= y then CellsIn(r) else 0)
    decreases |b| - c
  {
    hide CellsIn;
    if c < |b| {
      RowSet(b, y, r, c + 1);
    }
  }

  lemma CellPut(b: Board, x: int, y: int, p: Shape)
    requires FreeCell(b, x, y)
    ensures Occupied(SetCell(b, x, y, p)) == Occupied(b) + 1
  {
    CellSet(b[y], x, p);
    RowSet(b, y, b[y][x := p], 0);
    hide CellsIn, OccupiedFrom;
  }

  // What a cell is after the first n have been written
  lemma {:induction false} PutCell(b: Board, x: int, y: int, rotation: nat, p: Shape, n: nat, u: int, v: int)
    requires n <= 4 && Inside(u, v)
    ensures var b' := Put(b, x, y, rotation, p, n);
      if exists i: nat :: i < n && CellX(x, rotation, p, i) == u && CellY(y, rotation, p, i) == v then b'[v][u] == p
      else b'[v][u] == b[v][u]
  {
    hide CellX, CellY;
    if n > 0 {
      PutCell(b, x, y, rotation, p, n - 1, u, v);
      var s, t := CellX(x, rotation, p, n - 1), CellY(y, rotation, p, n - 1);
      if s == u && t == v {
        assert Put(b, x, y, rotation, p, n)[v][u] == p;
      } else {
        assert Put(b, x, y, rotation, p, n)[v][u] == Put(b, x, y, rotation, p, n - 1)[v][u];
      }
    }
  }

  // A placed piece fills exactly four cells that were empty.
  lemma {:induction false} PutCounts(b: Board, x: int, y: int, rotation: nat, p: Shape, n: nat)
    requires n <= 4 && Free(b, x, y, rotation, p)
    ensures Occupied(Put(b, x, y, rotation, p, n)) == Occupied(b) + n
  {
    if n > 0 {
      var u, v := CellX(x, rotation, p, n - 1), CellY(y, rotation, p, n - 1);
      assert FreeCell(b, u, v);
      PutCounts(b, x, y, rotation, p, n - 1);
      PutCell(b, x, y, rotation, p, n - 1, u, v);
      forall i: nat | i < n - 1 ensures !(CellX(x, rotation, p, i) == u && CellY(y, rotation, p, i) == v) {
        OffsetsDiffer(rotation, p, i, n - 1);
      }
      hide Offsets, Occupied, CellX, CellY, Free;
      CellPut(Put(b, x, y, rotation, p, n - 1), u, v, p);
    }
  }

  // What collided still collides once a piece has been placed.
  lemma PutCollides(b: Board, x: int, y: int, rotation: nat, p: Shape, u: int, v: int, r: nat, q: Shape)
    requires !Free(b, u, v, r, q)
    ensures !Free(Put(b, x, y, rotation, p, 4), u, v, r, q)
  {
    hide Put;
    var i: nat :| i < 4 && !FreeCell(b, CellX(u, r, q, i), CellY(v, r, q, i));
    if Inside(CellX(u, r, q, i), CellY(v, r, q, i)) {
      PutCell(b, x, y, rotation, p, 4, CellX(u, r, q, i), CellY(v, r, q, i));
    }
  }

  // A second placement at the same spot changes nothing.
  lemma PutTwice(b: Board, x: int, y: int, rotation: nat, p: Shape)
    ensures var b' := Put(b, x, y, rotation, p, 4); Put(b', x, y, rotation, p, 4) == b'
  {
    var b' := Put(b, x, y, rotation, p, 4);
    var b'' := Put(b', x, y, rotation, p, 4);
    forall u, v | 0 <= u < 10 && 0 <= v < 20 ensures b''[v][u] == b'[v][u] {
      PutCell(b, x, y, rotation, p, 4, u, v);
      PutCell(b', x, y, rotation, p, 4, u, v);
    }
    hide Put;
    forall v | 0 <= v < 20 ensures b''[v] == b'[v] {}
  }

  // ---------------------------------------------------------------------------------------------
  // clear_lines

  // The rows from c on that are not to be cleared, in their order
  function Kept(b: seq<Row>, full: seq<bool>, c: nat): seq<Row>
    requires |full| == |b| && c <= |b|
    decreases |b| - c
  {
    if c == |b| then [] else (if full[c] then [] else [b[c]]) + Kept(b, full, c + 1)
  }

  function Trues(full: seq<bool>, c: nat): nat
    requires c <= |full|
    decreases |full| - c
  {
    if c == |full| then 0 else (if full[c] then 1 else 0) + Trues(full, c + 1)
  }

  // Blank rows above, the kept rows at the bottom
  function Compact(b: Board, full: seq<bool>): (b': Board)
    requires |full| == 20
  {
    KeptSize(b, full, 0);
    seq<Row>(Trues(full, 0), _ => BLANK) + Kept(b, full, 0)
  }

  lemma {:induction false} KeptSize(b: seq<Row>, full: seq<bool>, c: nat)
    requires |full| == |b| && c <= |b|
    ensures |Kept(b, full, c)| + Trues(full, c) == |b| - c
    decreases |b| - c
  {
    if c < |b| { KeptSize(b, full, c + 1); }
  }

  // Row j, when kept, falls by as many rows as are cleared beneath it.
  lemma {:induction false} CompactRow(b: Board, full: seq<bool>, j: nat)
    requires |full| == 20 && j < 20 && !full[j]
    ensures j + Trues(full, j) < 20 && Compact(b, full)[j + Trues(full, j)] == b[j]
  {
    KeptSize(b, full, 0);
    KeptAt(b, full, 0, j);
    hide Kept, Trues;
  }

  lemma {:induction false} KeptAt(b: seq<Row>, full: seq<bool>, c: nat, j: nat)
    requires |full| == |b| && c <= j < |b| && !full[j]
    ensures var k := j + Trues(full, j) - c - Trues(full, c); 0 <= k < |Kept(b, full, c)| && Kept(b, full, c)[k] == b[j]
    decreases |b| - c
  {
    var rest := Kept(b, full, c + 1);
    var m := Trues(full, c + 1);
    if c < j {
      KeptAt(b, full, c + 1, j);
    }
    assert Kept(b, full, c) == (if full[c] then [] else [b[c]]) + rest;
    assert Trues(full, c) == (if full[c] then 1 else 0) + m;
    hide Kept;
  }

  // Every other row is blank.
  lemma CompactBlank(b: Board, full: seq<bool>, i: nat)
    requires |full| == 20 && i < Trues(full, 0)
    ensures i < 20 && Compact(b, full)[i] == BLANK
  {
    KeptSize(b, full, 0);
  }

  lemma {:induction false} CellsBound(r: seq<Piece>)
    ensures CellsIn(r) <= |r|
    ensures CellsIn(r) == |r| <==> forall x :: 0 <= x < |r| ==> r[x] != 7
  {
    if r != [] {
      var k := |r| - 1;
      CellsBound(r[..k]);
      assert forall x :: 0 <= x < |r| ==> r[x] == (if x < k then r[..k][x] else r[k]);
    }
  }

  lemma {:induction false} KeptCounts(b: Board, full: seq<bool>, c: nat)
    requires FullsAre(b, full) && c <= 20
    ensures OccupiedFrom(Kept(b, full, c), 0) + 10 * Trues(full, c) == OccupiedFrom(b, c)
    ensures NoneFull(Kept(b, full, c))
    decreases 20 - c
  {
    hide CellsIn;
    if c < 20 {
      KeptCounts(b, full, c + 1);
      CellsBound(b[c]);
      if !full[c] {
        var k := Kept(b, full, c + 1);
        BelowFront(b[c], k);
        NoneFullFront(b[c], k);
        assert Kept(b, full, c) == [b[c]] + k;
      } else {
        assert RowFull(b[c]);
        assert Kept(b, full, c) == Kept(b, full, c + 1);
      }
    }
  }

  lemma NoneFullFront(r: Row, s: seq<Row>)
    requires !RowFull(r) && NoneFull(s)
    ensures NoneFull([r] + s)
  {
    hide RowFull;
  }

  lemma BelowFront(r: Row, s: seq<Row>)
    ensures OccupiedFrom([r] + s, 0) == CellsIn(r) + OccupiedFrom(s, 0)
  {
    hide CellsIn;
    BelowMore([r], s, 0);
    assert OccupiedFrom([r] + s, 1) == OccupiedFrom(s, 0);
  }

  lemma {:induction false} BelowMore(s: seq<Row>, t: seq<Row>, c: nat)
    requires c <= |t|
    ensures OccupiedFrom(s + t, |s| + c) == OccupiedFrom(t, c)
    decreases |t| - c
  {
    hide CellsIn;
    if c < |t| { BelowMore(s, t, c + 1); }
  }

  lemma {:induction false} BlanksAbove(n: nat, s: seq<Row>)
    ensures OccupiedFrom(seq<Row>(n, _ => BLANK) + s, 0) == OccupiedFrom(s, 0)
  {
    hide CellsIn;
    if n == 0 {
      assert seq<Row>(n, _ => BLANK) + s == s;
    } else {
      var t := seq<Row>(n - 1, _ => BLANK) + s;
      BlanksAbove(n - 1, s);
      assert seq<Row>(n, _ => BLANK) + s == [BLANK] + t;
      BelowFront(BLANK, t);
      BlankIsEmpty();
    }
  }

  lemma BlankIsEmpty()
    ensures CellsIn(BLANK) == 0 && !RowFull(BLANK)
  {
    NoCells(BLANK);
    assert BLANK[0] == 7;
  }

  lemma {:induction false} NoCells(r: seq<Piece>)
    requires forall x :: 0 <= x < |r| ==> r[x] == 7
    ensures CellsIn(r) == 0
  {
    if r != [] { NoCells(r[..|r| - 1]); }
  }

  // Clearing the full rows takes ten cells a row and leaves no full row.
  lemma CompactCounts(b: Board, full: seq<bool>)
    requires FullsAre(b, full)
    ensures Occupied(Compact(b, full)) + 10 * Trues(full, 0) == Occupied(b) && NoneFull(Compact(b, full))
  {
    KeptCounts(b, full, 0);
    BlanksAbove(Trues(full, 0), Kept(b, full, 0));
    BlankIsEmpty();
    hide Kept, Trues, OccupiedFrom, RowFull;
  }

  // ---------------------------------------------------------------------------------------------
  // One tick

  function Fulls(b: Board): (full: seq<bool>)
    ensures FullsAre(b, full)
  {
    seq(20, y requires 0 <= y < 20 => RowFull(b[y]))
  }

  lemma FreeIsInside(b: Board, x: int, y: int, rotation: nat, p: Shape)
    requires Free(b, x, y, rotation, p)
    ensures y <= 20
  {
    OffsetsDiffer(rotation, p, 0, 1);
    assert FreeCell(b, CellX(x, rotation, p, 0), CellY(y, rotation, p, 0));
  }

  // How far a piece can drop
  function Depth(b: Board, x: int, y: int, rotation: nat, p: Shape): nat
    decreases if y <= 21 then 21 - y else 0
  {
    if !Free(b, x, y + 1, rotation, p) then 0
    else
      FreeIsInside(b, x, y + 1, rotation, p);
      1 + Depth(b, x, y + 1, rotation, p)
  }

  // handle_actions: the first key of this order whose move is free; a drop never fails.
  datatype Move = MoveLeft | MoveRight | MoveDown | Turn | Drop | Stay

  function Turned(rotation: nat): nat {
    (rotation + 1) % 4
  }

  function MoveOf(g: Game, k: Keys): Move {
    if k.left && Free(g.board, g.x - 1, g.y, g.rotation, g.current) then MoveLeft
    else if k.right && Free(g.board, g.x + 1, g.y, g.rotation, g.current) then MoveRight
    else if k.down && Free(g.board, g.x, g.y + 1, g.rotation, g.current) then MoveDown
    else if k.rotate && Free(g.board, g.x, g.y, Turned(g.rotation), g.current) then Turn
    else if k.drop then Drop
    else Stay
  }

  function Moved(g: Game, m: Move): Game {
    match m
    case MoveLeft => g.(x := g.x - 1)
    case MoveRight => g.(x := g.x + 1)
    case MoveDown => g.(y := g.y + 1)
    case Turn => g.(rotation := Turned(g.rotation))
    case Drop => g.(y := g.y + Depth(g.board, g.x, g.y, g.rotation, g.current))
    case Stay => g
  }

  // place_current_block_on_board; n pieces were placed when the tick began.
  function Rested(g: Game, n: nat): Game {
    g.(board := Put(g.board, g.x, g.y, g.rotation, g.current, 4), phase := LineCheck, placed := n + 1)
  }

  // The second half of SHIFT_DOWN_BLOCKS, with shift_down
  function Sunk(g: Game, n: nat): Game {
    if g.ticks + 1 < g.perDrop then g.(ticks := g.ticks + 1)
    else if Free(g.board, g.x, g.y + 1, g.rotation, g.current) then g.(ticks := 0, y := g.y + 1)
    else Rested(g, n).(ticks := 0)
  }

  // SHIFT_DOWN_BLOCKS
  function Fell(g: Game, k: Keys): Game {
    var m := MoveOf(g, k);
    Sunk(if m == Drop then Rested(Moved(g, m), g.placed) else Moved(g, m), g.placed)
  }

  // SPAWN_BLOCK
  function Placed(g: Game, p: Shape): Game {
    g.(current := g.next, next := p, x := 5, y := 0, rotation := 0)
  }

  function Spawned(g: Game, p: Shape): Game {
    var h := Placed(g, p);
    if Free(h.board, h.x, h.y, h.rotation, h.current) then h.(phase := ShiftDown, ticks := 0)
    else h.(phase := GameOver)
  }

  // LINE_CHECK
  function Checked(g: Game): Game {
    var full := Fulls(g.board);
    if exists y :: 0 <= y < 20 && full[y] then g.(full := full, flashTicks := 0, flashes := 0, phase := LineFlash)
    else g.(full := full, phase := SpawnBlock)
  }

  // update_score
  function Scored(g: Game): Game
    requires |g.full| == 20
  {
    var n := Trues(g.full, 0);
    var perDrop := if g.lines + n < 10 then g.perDrop else if g.perDrop - 1 < 10 then 10 else g.perDrop - 1;
    g.(lines := g.lines + n, score := g.score + 100 * n, perDrop := perDrop)
  }

  // LINE_CHECK_FLASH: two ticks to a flash, and six flashes
  function Flickered(g: Game): Game {
    if g.flashTicks + 1 > 1 then g.(flashTicks := 0, flashes := g.flashes + 1)
    else g.(flashTicks := g.flashTicks + 1)
  }

  function Flashed(g: Game): Game
    requires |g.full| == 20
  {
    var h := Flickered(g);
    if h.flashes >= 6 then Scored(h.(board := Compact(h.board, h.full))).(phase := SpawnBlock) else h
  }

  function Paused(g: Game, pressed: bool): Game {
    if !pressed then g
    else if g.phase == Pause then g.(phase := g.before)
    else g.(before := g.phase, phase := Pause)
  }

  function Tick(g: Game, k: Keys, p: Shape): Game
    requires |g.full| == 20
  {
    match g.phase
    case SpawnBlock => Spawned(g, p)
    case ShiftDown => Fell(g, k)
    case LineCheck => Checked(g)
    case LineFlash => Flashed(g)
    case Pause => g
    case GameOver => g
  }

  // update; p is the next rand() % NUM_PIECES
  function Next(g: Game, k: Keys, p: Shape): Game
    requires |g.full| == 20
  {
    if k.quit then g.(quit := true) else Tick(Paused(g, k.pause), k, p)
  }

  // reset_tetris, choose_piece and an empty board
  function NewGame(p: Shape, full: seq<bool>): Game {
    var blank: Board := seq<Row>(20, _ => BLANK);
    Game(blank, full, 0, p, SpawnBlock, SpawnBlock, 0, -15, -2, 0, 0, 0, 62, 0, 0, false, 0)
  }

  // ---------------------------------------------------------------------------------------------
  // What every game keeps

  // The state a paused game is in
  function Current(g: Game): Phase {
    if g.phase == Pause then g.before else g.phase
  }

  ghost predicate PhaseGood(g: Game) {
    match Current(g)
    case SpawnBlock => NoneFull(g.board)
    case GameOver => NoneFull(g.board)
    case ShiftDown =>
      NoneFull(g.board) && Free(g.board, g.x, g.y, g.rotation, g.current) && g.ticks < g.perDrop
    case LineCheck => true
    case LineFlash => FullsAre(g.board, g.full) && g.flashes < 6
    case Pause => false
  }

  ghost predicate Good(g: Game) {
    && |g.full| == 20 && g.rotation < 4 && g.perDrop >= 10 && PhaseGood(g)
    && Occupied(g.board) + 10 * g.lines == 4 * g.placed && g.score == 100 * g.lines
  }

  lemma {:induction false} DepthEnds(b: Board, x: int, y: int, rotation: nat, p: Shape)
    requires Free(b, x, y, rotation, p)
    ensures var d := Depth(b, x, y, rotation, p);
      !Free(b, x, y + d + 1, rotation, p) && forall v :: y <= v <= y + d ==> Free(b, x, v, rotation, p)
    decreases if y <= 21 then 21 - y else 0
  {
    hide Free;
    if Free(b, x, y + 1, rotation, p) {
      FreeIsInside(b, x, y + 1, rotation, p);
      DepthEnds(b, x, y + 1, rotation, p);
    }
  }

  // A falling piece: board b is as it was, and the piece lies within it on empty cells.
  ghost predicate Falling(b: Board, g: Game, n: nat) {
    g.phase == ShiftDown && g.board == b && g.placed == n && Free(b, g.x, g.y, g.rotation, g.current)
  }

  // A piece come to rest: it lies on something, and b has gained its four cells.
  ghost predicate Resting(b: Board, g: Game, n: nat) {
    && g.phase == LineCheck && g.placed == n + 1
    && Free(b, g.x, g.y, g.rotation, g.current) && !Free(b, g.x, g.y + 1, g.rotation, g.current)
    && g.board == Put(b, g.x, g.y, g.rotation, g.current, 4)
  }

  // Nothing but the piece, the board and the clock has changed.
  predicate SameRest(g: Game, h: Game) {
    h == g.(board := h.board, phase := h.phase, x := h.x, y := h.y, rotation := h.rotation, ticks := h.ticks,
      placed := h.placed)
  }

  lemma MovedFalls(g: Game, k: Keys)
    requires Falling(g.board, g, g.placed) && g.rotation < 4 && MoveOf(g, k) != Drop
    ensures var h := Moved(g, MoveOf(g, k));
      Falling(g.board, h, g.placed) && h.rotation < 4 && SameRest(g, h) && h.ticks == g.ticks && h.y >= g.y
  {
    hide Free, Depth;
  }

  lemma DroppedRests(g: Game)
    requires Falling(g.board, g, g.placed)
    ensures var h := Rested(Moved(g, Drop), g.placed);
      && Resting(g.board, h, g.placed) && h.rotation == g.rotation && SameRest(g, h)
      && h.ticks == g.ticks && h.perDrop == g.perDrop
  {
    DepthEnds(g.board, g.x, g.y, g.rotation, g.current);
    hide Free, Depth, Put;
  }

  lemma SunkFalls(b: Board, g: Game, n: nat)
    requires Falling(b, g, n) && g.ticks < g.perDrop
    ensures var h := Sunk(g, n);
      && (Falling(b, h, n) || Resting(b, h, n)) && h.rotation == g.rotation && SameRest(g, h) && h.ticks < h.perDrop
      && (Falling(b, h, n) ==> h.y >= g.y && (h.ticks == g.ticks + 1 || (h.ticks == 0 && h.y > g.y)))
  {
    hide Free, Put;
  }

  // After a drop the same tick may place the piece again: nothing changes.
  lemma SunkRests(b: Board, g: Game, n: nat)
    requires Resting(b, g, n) && g.ticks < g.perDrop
    ensures var h := Sunk(g, n); h == g.(ticks := h.ticks) && Resting(b, h, n) && h.ticks < h.perDrop
  {
    PutCollides(b, g.x, g.y, g.rotation, g.current, g.x, g.y + 1, g.rotation, g.current);
    PutTwice(b, g.x, g.y, g.rotation, g.current);
    hide Free, Put;
  }

  // A falling piece keeps clear of the board until it comes to rest; it then lies on something, and the board has
  // gained just its four cells, even where a tick places it twice.
  lemma FellRests(g: Game, k: Keys)
    requires Falling(g.board, g, g.placed) && g.rotation < 4 && g.ticks < g.perDrop
    ensures var h := Fell(g, k);
      && (Falling(g.board, h, g.placed) || Resting(g.board, h, g.placed)) && h.rotation < 4 && SameRest(g, h)
      && h.ticks < h.perDrop
      && (h.phase == ShiftDown ==> h.y >= g.y && (h.ticks == g.ticks + 1 || (h.ticks == 0 && h.y > g.y)))
  {
    FellIs(g, k);
    hide *;
    var h := Moved(g, MoveOf(g, k));
    if MoveOf(g, k) == Drop {
      DroppedRests(g);
      SunkRests(g.board, Rested(h, g.placed), g.placed);
      Phases(g.board, Sunk(Rested(h, g.placed), g.placed), g.placed);
      SameRestOn(g, Rested(h, g.placed), Sunk(Rested(h, g.placed), g.placed));
    } else {
      MovedFalls(g, k);
      SameRestOn(g, h, h);
      SunkFalls(g.board, h, g.placed);
      Phases(g.board, Sunk(h, g.placed), g.placed);
      SameRestOn(g, h, Sunk(h, g.placed));
    }
  }

  lemma FellIs(g: Game, k: Keys)
    ensures MoveOf(g, k) == Drop ==> Fell(g, k) == Sunk(Rested(Moved(g, Drop), g.placed), g.placed)
    ensures MoveOf(g, k) != Drop ==> Fell(g, k) == Sunk(Moved(g, MoveOf(g, k)), g.placed)
  {
    hide MoveOf, Moved, Sunk, Rested;
  }

  lemma SameRestOn(g: Game, h: Game, i: Game)
    requires SameRest(g, h) && SameRest(h, i)
    ensures SameRest(g, i) && h.perDrop == g.perDrop
  {
  }

  lemma Phases(b: Board, g: Game, n: nat)
    ensures Falling(b, g, n) ==> g.phase == ShiftDown
    ensures Resting(b, g, n) ==> g.phase == LineCheck
  {
    hide Free, Put;
  }

  lemma FellKeeps(g: Game, k: Keys)
    requires Good(g) && g.phase == ShiftDown
    ensures Good(Fell(g, k))
  {
    assert Falling(g.board, g, g.placed);
    hide Fell, Free, Put, Occupied, NoneFull;
    FellRests(g, k);
    var h := Fell(g, k);
    if Resting(g.board, h, g.placed) {
      PutCounts(g.board, h.x, h.y, h.rotation, h.current, 4);
    }
  }

  lemma FlashedKeeps(g: Game)
    requires Good(g) && g.phase == LineFlash
    ensures Good(Flashed(g))
  {
    CompactCounts(g.board, g.full);
    hide Compact, Occupied, Trues, NoneFull, FullsAre;
  }

  lemma CheckedKeeps(g: Game)
    requires Good(g) && g.phase == LineCheck
    ensures Good(Checked(g))
  {
    hide Occupied, Fulls, RowFull;
  }

  lemma SpawnedKeeps(g: Game, p: Shape)
    requires Good(g) && g.phase == SpawnBlock
    ensures Good(Spawned(g, p))
  {
    hide Occupied, Free, NoneFull;
  }

  lemma PausedKeeps(g: Game, pressed: bool)
    requires Good(g)
    ensures Good(Paused(g, pressed))
  {
    hide Occupied, Free, NoneFull, FullsAre;
  }

  lemma NextKeeps(g: Game, k: Keys, p: Shape)
    requires Good(g)
    ensures Good(Next(g, k, p))
  {
    hide *;
    PausedKeeps(g, k.pause);
    var h := Paused(g, k.pause);
    GoodParts(h);
    GoodParts(g);
    if k.quit {
      QuitKeeps(g);
    } else if h.phase == SpawnBlock {
      SpawnedKeeps(h, p);
    } else if h.phase == ShiftDown {
      FellKeeps(h, k);
    } else if h.phase == LineCheck {
      CheckedKeeps(h);
    } else if h.phase == LineFlash {
      FlashedKeeps(h);
    }
    NextIs(g, k, p);
  }

  lemma GoodParts(g: Game)
    requires Good(g)
    ensures |g.full| == 20
  {
  }

  lemma QuitKeeps(g: Game)
    requires Good(g)
    ensures Good(g.(quit := true))
  {
    hide Occupied, Free, NoneFull, FullsAre;
  }

  lemma NextIs(g: Game, k: Keys, p: Shape)
    requires |g.full| == 20
    ensures k.quit ==> Next(g, k, p) == g.(quit := true)
    ensures !k.quit ==>
      var h := Paused(g, k.pause);
      && (h.phase == SpawnBlock ==> Next(g, k, p) == Spawned(h, p))
      && (h.phase == ShiftDown ==> Next(g, k, p) == Fell(h, k))
      && (h.phase == LineCheck ==> Next(g, k, p) == Checked(h))
      && (h.phase == LineFlash ==> Next(g, k, p) == Flashed(h))
      && (h.phase == Pause || h.phase == GameOver ==> Next(g, k, p) == h)
  {
    hide Spawned, Fell, Checked, Flashed;
  }

  // ---------------------------------------------------------------------------------------------
  // Whole games

  // What happens in one tick, from outside: the keys pressed and the random shape
  datatype Input = Input(keys: Keys, shape: Shape)

  // The game loop; it stops at quit.
  function Play(g: Game, inputs: seq<Input>): (h: Game)
    requires |g.full| == 20
    ensures |h.full| == 20
  {
    if inputs == [] then g
    else
      var h := Play(g, inputs[..|inputs| - 1]);
      var i := inputs[|inputs| - 1];
      if h.quit then h else FullSize(h, i.keys, i.shape); Next(h, i.keys, i.shape)
  }

  lemma FullSize(g: Game, k: Keys, p: Shape)
    requires |g.full| == 20
    ensures |Next(g, k, p).full| == 20
  {
    hide Free, Put, Compact, Trues, RowFull, Depth, MoveOf, Fulls;
    var h := Paused(g, k.pause);
    FellFull(h, k);
    hide Fell;
  }

  lemma FellFull(g: Game, k: Keys)
    ensures Fell(g, k).full == g.full
  {
    hide Free, Put, MoveOf, Depth;
  }

  lemma {:induction false} PlayKeeps(g: Game, inputs: seq<Input>)
    requires |g.full| == 20 && Good(g)
    ensures Good(Play(g, inputs))
  {
    hide Good, Next;
    if inputs != [] {
      var h := Play(g, inputs[..|inputs| - 1]);
      var i := inputs[|inputs| - 1];
      PlayKeeps(g, inputs[..|inputs| - 1]);
      GoodParts(h);
      NextKeeps(h, i.keys, i.shape);
    }
  }

  lemma NewGameGood(p: Shape, full: seq<bool>)
    requires |full| == 20
    ensures Good(NewGame(p, full))
  {
    BlanksAbove(20, []);
    BlankIsEmpty();
    var blank := seq<Row>(20, _ => BLANK);
    assert blank + [] == blank;
    hide CellsIn, RowFull;
  }

  // Of every game, after any keys and any random shapes: the cells on the board are four for every piece that came to
  // rest less ten for every line cleared; the score is 100 for every line cleared; while a piece is about to appear or
  // is falling no row is full; and a falling piece lies within the board on empty cells.
  lemma EveryGame(p: Shape, full: seq<bool>, inputs: seq<Input>)
    requires |full| == 20
    ensures var g := Play(NewGame(p, full), inputs);
      && Occupied(g.board) == 4 * g.placed - 10 * g.lines && g.score == 100 * g.lines
      && (Current(g) == SpawnBlock || Current(g) == ShiftDown ==> NoneFull(g.board))
      && (Current(g) == ShiftDown ==> Free(g.board, g.x, g.y, g.rotation, g.current))
  {
    NewGameGood(p, full);
    PlayKeeps(NewGame(p, full), inputs);
    hide Play, NewGame, Occupied, Free, NoneFull;
  }

  // ---------------------------------------------------------------------------------------------
  // Every piece lands

  // Ticks a piece at height y can last
  function Lasting(y: int, ticks: nat, perDrop: nat): int {
    (21 - y) * perDrop - ticks
  }

  function Left(g: Game): int {
    Lasting(g.y, g.ticks, g.perDrop)
  }

  lemma LastingLess(y: int, ticks: nat, y': int, ticks': nat, perDrop: nat)
    requires y <= y' <= 20 && ticks < perDrop && ticks' < perDrop
    requires ticks' == ticks + 1 || (ticks' == 0 && y' > y)
    ensures 0 < Lasting(y', ticks', perDrop) < Lasting(y, ticks, perDrop)
  {
    var d := y' - y;
    assert (21 - y) * perDrop == (21 - y') * perDrop + d * perDrop;
    assert d > 0 ==> d * perDrop >= perDrop;
    assert (21 - y') * perDrop >= perDrop;
  }

  lemma LastingSome(y: int, ticks: nat, perDrop: nat)
    requires y <= 20 && ticks < perDrop
    ensures 0 < Lasting(y, ticks, perDrop)
  {
    assert (21 - y) * perDrop >= perDrop;
  }

  lemma Falls(g: Game, k: Keys)
    requires Good(g) && g.phase == ShiftDown
    ensures var h := Fell(g, k); (h.phase == LineCheck || h.phase == ShiftDown) && h.quit == g.quit
    ensures var h := Fell(g, k); h.phase == ShiftDown ==> 0 < Left(h) < Left(g)
    ensures Left(g) > 0
  {
    FreeIsInside(g.board, g.x, g.y, g.rotation, g.current);
    assert Falling(g.board, g, g.placed);
    hide Fell, Free, Put, Occupied, NoneFull, Lasting;
    FellRests(g, k);
    var h := Fell(g, k);
    LastingSome(g.y, g.ticks, g.perDrop);
    if h.phase == ShiftDown {
      FreeIsInside(g.board, h.x, h.y, h.rotation, h.current);
      LastingLess(g.y, g.ticks, h.y, h.ticks, g.perDrop);
    }
  }

  predicate Undisturbed(inputs: seq<Input>) {
    forall i :: 0 <= i < |inputs| ==> !inputs[i].keys.quit && !inputs[i].keys.pause
  }

  // Whatever keys are pressed, other than quit and pause, a falling piece comes to rest within Left(g) ticks.
  lemma {:induction false} EveryPieceLands(g: Game, inputs: seq<Input>)
    requires |g.full| == 20 && Good(g) && g.phase == ShiftDown && !g.quit && Undisturbed(inputs) && |inputs| >= Left(g)
    ensures exists n :: 0 <= n <= |inputs| && Play(g, inputs[..n]).phase == LineCheck
  {
    StillFalling(g, inputs);
  }

  lemma {:induction false} StillFalling(g: Game, inputs: seq<Input>)
    requires |g.full| == 20 && Good(g) && g.phase == ShiftDown && !g.quit && Undisturbed(inputs)
    ensures var h := Play(g, inputs);
      (exists n :: 0 <= n <= |inputs| && Play(g, inputs[..n]).phase == LineCheck) ||
      (Good(h) && h.phase == ShiftDown && !h.quit && Left(h) + |inputs| <= Left(g) && Left(h) > 0)
  {
    hide Good, Fell, Left, Undisturbed;
    if inputs == [] {
      Falls(g, Keys(false, false, false, false, false, false, false));
    } else {
      var k := |inputs| - 1;
      var before := inputs[..k];
      UndisturbedBefore(inputs);
      StillFalling(g, before);
      var h := Play(g, before);
      if n :| 0 <= n <= k && Play(g, before[..n]).phase == LineCheck {
        assert inputs[..n] == before[..n];
      } else {
        GoodParts(h);
        var i := inputs[k];
        NextIs(h, i.keys, i.shape);
        NextKeeps(h, i.keys, i.shape);
        Falls(h, i.keys);
        assert Play(g, inputs) == Fell(h, i.keys);
        assert inputs[..|inputs|] == inputs;
      }
    }
  }

  lemma UndisturbedBefore(inputs: seq<Input>)
    requires inputs != [] && Undisturbed(inputs)
    ensures Undisturbed(inputs[..|inputs| - 1])
    ensures var k := inputs[|inputs| - 1].keys; !k.quit && !k.pause
  {
  }
}
