// tetris.c: the engine at work on its board. rows and placed say what the board and the game are.
module Tetris {
  import opened TetrisModel

  // SCREEN_X_TO_BOARD_X, with C's division, and SCREEN_Y_TO_BOARD_Y
  function BoardX(x: int): int {
    if x >= 30 then (x - 30) / 2 else -((30 - x) / 2)
  }

  function BoardY(y: int): int {
    y - 2
  }

  // A shift by one place on the board is one by two columns on the screen.
  lemma ScreenShift(x: int, d: int)
    requires x == 30 + 2 * BoardX(x)
    ensures BoardX(x + 2 * d) == BoardX(x) + d && x + 2 * d == 30 + 2 * BoardX(x + 2 * d)
  {
  }

  class Engine {
    const board: array2<Piece>   // gameboard
    const full: array<bool>      // full_lines
    var current: Shape
    var next: Shape
    var phase: Phase
    var before: Phase            // state_pause_prev
    var rotation: nat
    var originX: int             // on the screen
    var originY: int
    var ticks: nat
    var flashTicks: nat
    var flashes: nat
    var perDrop: nat
    var lines: nat
    var score: nat
    var quit: bool
    ghost var rows: Board
    ghost var placed: nat

    ghost predicate CellShown(x: nat, y: nat)
      requires x < 10 <= board.Length0 && y < 20 <= board.Length1
      reads this`rows, board
    {
      board[x, y] == rows[y][x]
    }

    ghost predicate Shown()
      reads this`rows, board, full
    {
      && board.Length0 == 10 && board.Length1 == 20 && full.Length == 20
      && forall x: nat, y: nat :: x < 10 && y < 20 ==> CellShown(x, y)
    }

    // The game as it stands
    ghost function Value(): (g: Game)
      reads this, full
    {
      Game(rows, full[..], current, next, phase, before, rotation, BoardX(originX), BoardY(originY), ticks, flashTicks,
        flashes, perDrop, lines, score, quit, placed)
    }

    // The board shows the game, and the piece stands on the screen where it stands on the board.
    ghost predicate Sane()
      reads this, board, full
    {
      Shown() && originX == 30 + 2 * BoardX(originX) && rotation < 4
    }

    // The piece stands as in g.
    ghost predicate At(g: Game)
      reads this
    {
      BoardX(originX) == g.x && BoardY(originY) == g.y && rotation == g.rotation
    }

    ghost predicate Valid()
      reads this, board, full
    {
      Sane() && Good(Value())
    }

    constructor ()
      ensures fresh(board) && fresh(full) && board.Length0 == 10 && board.Length1 == 20 && full.Length == 20
    {
      board := new Piece[10, 20];
      full := new bool[20];
      current, next, phase, before, rotation := 0, 0, SpawnBlock, SpawnBlock, 0;
      originX, originY, ticks, flashTicks, flashes, perDrop := 0, 0, 0, 0, 0, 62;
      lines, score, quit := 0, 0, false;
      rows, placed := seq<Row>(20, _ => BLANK), 0;
    }

    method SetAt(x: nat, y: nat, p: Piece)
      requires Shown() && x < 10 && y < 20
      modifies board, this`rows
      ensures Shown() && rows == old(rows)[y := old(rows)[y][x := p]]
    {
      board[x, y] := p;
      rows := rows[y := rows[y][x := p]];
      forall u: nat, v: nat | u < 10 && v < 20 ensures CellShown(u, v) {
        assert old(CellShown(u, v));
      }
    }

    // check_collision
    method CheckCollision(ox: int, oy: int, r: nat, p: Shape) returns (collides: bool)
      requires Shown() && r < 4
      ensures collides <==> !Free(rows, ox, oy, r, p)
    {
      hide Offsets;
      var i: nat := 0;
      while i < 4
        invariant i <= 4 && forall j: nat {:trigger CellX(ox, r, p, j)} :: j < i ==>
          FreeCell(rows, CellX(ox, r, p, j), CellY(oy, r, p, j))
      {
        var px := Offsets(r, p)[i].0 + ox;
        var py := Offsets(r, p)[i].1 + oy;
        assert px == CellX(ox, r, p, i) && py == CellY(oy, r, p, i);
        assert Inside(px, py) ==> CellShown(px, py);
        if px < 0 || px >= 10 || py < 0 || py >= 20 || board[px, py] != 7 {
          return true;
        }
        i := i + 1;
      }
      return false;
    }

    // shift_down
    method ShiftDownOne() returns (stuck: bool)
      requires Sane()
      modifies this`originY
      ensures Sane() && var g := old(Value());
        && (stuck <==> !Free(g.board, g.x, g.y + 1, g.rotation, g.current))
        && Value() == if stuck then g else g.(y := g.y + 1)
    {
      hide Free, Shown, BoardX;
      var ox, oy := BoardX(originX), BoardY(originY);
      stuck := CheckCollision(ox, oy + 1, rotation, current);
      if !stuck {
        originY := originY + 1;
      }
    }

    // handle_actions; the loop that measures a drop ends at the bottom of the board at the latest.
    method HandleActions(k: Keys) returns (dropped: bool)
      requires Sane() && full.Length == 20
      modifies this`originX, this`originY, this`rotation
      ensures Sane() && dropped == (MoveOf(old(Value()), k) == Drop)
      ensures At(Moved(old(Value()), MoveOf(old(Value()), k)))
    {
      hide Free, Depth, MoveOf, Moved, Shown, BoardX;
      ghost var g := Value();
      MoveIs(g, k);
      var ox, oy := BoardX(originX), BoardY(originY);
      var hits := true;
      if k.left { hits := CheckCollision(ox - 1, oy, rotation, current); }
      if !hits {
        ScreenShift(originX, -1);
        originX := originX - 2;
        return false;
      }
      if k.right { hits := CheckCollision(ox + 1, oy, rotation, current); }
      if !hits {
        ScreenShift(originX, 1);
        originX := originX + 2;
        return false;
      }
      if k.down { hits := CheckCollision(ox, oy + 1, rotation, current); }
      if !hits {
        originY := originY + 1;
        return false;
      }
      if k.rotate { hits := CheckCollision(ox, oy, (rotation + 1) % 4, current); }
      if !hits {
        rotation := (rotation + 1) % 4;
        return false;
      }
      if k.drop {
        var amount := DropAmount(ox, oy);
        originY := originY + amount - 1;
        return true;
      }
      return false;
    }

    method DropAmount(ox: int, oy: int) returns (amount: int)
      requires Sane()
      ensures amount == 1 + Depth(rows, ox, oy, rotation, current)
    {
      hide Free;
      amount := 1;
      var hits := CheckCollision(ox, oy + amount, rotation, current);
      while !hits
        invariant amount >= 1 && (hits <==> !Free(rows, ox, oy + amount, rotation, current))
        invariant Depth(rows, ox, oy, rotation, current) == amount - 1 +
          Depth(rows, ox, oy + amount - 1, rotation, current)
        decreases if oy + amount <= 21 then 22 - (oy + amount) else 0
      {
        FreeIsInside(rows, ox, oy + amount, rotation, current);
        amount := amount + 1;
        hits := CheckCollision(ox, oy + amount, rotation, current);
      }
    }

    // place_current_block_on_board: the piece's cells must be on the board.
    method PlaceBlock()
      requires Sane() && OnBoard(BoardX(originX), BoardY(originY), rotation, current)
      modifies board, this`rows
      ensures Shown() && rows == Put(old(rows), BoardX(originX), BoardY(originY), rotation, current, 4)
    {
      hide Offsets;
      ghost var b := rows;
      var ox, oy := BoardX(originX), BoardY(originY);
      var i: nat := 0;
      while i < 4
        invariant i <= 4 && Shown() && rows == Put(b, ox, oy, rotation, current, i)
      {
        var px := Offsets(rotation, current)[i].0;
        var py := Offsets(rotation, current)[i].1;
        assert px + ox == CellX(ox, rotation, current, i) && py + oy == CellY(oy, rotation, current, i);
        SetAt(px + ox, py + oy, current);
        i := i + 1;
      }
    }

    // check_for_lines
    method CheckForLines() returns (any: bool)
      requires Shown()
      modifies full
      ensures Shown() && full[..] == Fulls(rows) && (any <==> exists y :: 0 <= y < 20 && full[y])
    {
      hide Fulls;
      for i := 0 to 20
        invariant Shown() && forall j :: 0 <= j < i ==> !full[j]
      {
        full[i] := false;
      }
      any := false;
      var y := 19;
      while y >= 0
        invariant -1 <= y <= 19 && Shown()
        invariant forall j :: 0 <= j <= y ==> !full[j]
        invariant forall j :: y < j < 20 ==> (full[j] <==> RowFull(rows[j]))
        invariant any <==> exists j :: 0 <= j < 20 && full[j]
      {
        var found := LineFull(y);
        if found {
          any := true;
          full[y] := true;
        }
        y := y - 1;
      }
      FullsUnique(rows, full[..]);
    }

    method LineFull(y: nat) returns (found: bool)
      requires Shown() && y < 20
      ensures found <==> RowFull(rows[y])
    {
      var x: nat := 0;
      while x < 10
        invariant x <= 10 && forall j :: 0 <= j < x ==> rows[y][j] != 7
      {
        assert CellShown(x, y);
        if board[x, y] == 7 {
          return false;
        }
        x := x + 1;
      }
      return true;
    }

    // Copy line c to line y.
    method CopyLine(y: nat, c: nat)
      requires Shown() && y < 20 && c < 20
      modifies board, this`rows
      ensures Shown() && rows == old(rows)[y := old(rows)[c]]
    {
      ghost var b := rows;
      var x: nat := 0;
      while x < 10
        invariant x <= 10 && Shown()
        invariant |rows| == 20 && forall j :: 0 <= j < 20 && j != y ==> rows[j] == b[j]
        invariant forall j :: 0 <= j < 10 ==> rows[y][j] == if j < x then b[c][j] else b[y][j]
      {
        assert CellShown(x, c);
        SetAt(x, y, board[x, c]);
        x := x + 1;
      }
      assert rows[y] == b[c];
      assert rows == b[y := b[c]];
    }

    method BlankLine(y: nat)
      requires Shown() && y < 20
      modifies board, this`rows
      ensures Shown() && rows == old(rows)[y := BLANK]
    {
      ghost var b := rows;
      var x: nat := 0;
      while x < 10
        invariant x <= 10 && Shown()
        invariant |rows| == 20 && forall j :: 0 <= j < 20 && j != y ==> rows[j] == b[j]
        invariant forall j :: 0 <= j < x ==> rows[y][j] == 7
      {
        SetAt(x, y, 7);
        x := x + 1;
      }
      assert rows[y] == BLANK;
      assert rows == b[y := BLANK];
    }

    // clear_lines, in place, whatever full_lines holds
    method ClearLines()
      requires Shown()
      modifies board, this`rows
      ensures Shown() && rows == Compact(old(rows), full[..])
    {
      hide Kept, Compact, Shown;
      ghost var b, f := rows, full[..];
      ShownFull();
      var copyLine: int := 19;
      var y: int := 19;
      CopyStart(b, f);
      while y >= 0 && copyLine >= 0
        invariant -1 <= copyLine <= y <= 19 && Shown() && Copied(b, rows, f, y, copyLine)
        decreases y
      {
        while copyLine >= 0 && full[copyLine]
          invariant -1 <= copyLine <= y && Shown() && Copied(b, rows, f, y, copyLine)
          decreases copyLine
        {
          CopySkip(b, rows, f, y, copyLine);
          copyLine := copyLine - 1;
        }
        if copyLine < 0 {
          break;
        }
        ghost var b1 := rows;
        CopyLine(y, copyLine);
        CopyStep(b, b1, f, y, copyLine);
        y, copyLine := y - 1, copyLine - 1;
      }
      BlankStart(b, rows, f, y, copyLine);
      while y >= 0
        invariant -1 <= y <= 19 && Shown() && Blanked(b, rows, f, y)
      {
        ghost var b1 := rows;
        BlankLine(y);
        BlankStep(b, b1, f, y);
        y := y - 1;
      }
      BlankDone(b, rows, f);
    }

    lemma ShownFull()
      requires Shown()
      ensures full.Length == 20
    {
    }

    // update_score
    method UpdateScore()
      requires Sane() && perDrop >= 10
      modifies this`lines, this`score, this`perDrop
      ensures Sane() && |old(Value()).full| == 20 && Value() == Scored(old(Value()))
    {
      SaneIs();
      hide Shown, BoardX, BoardY;
      ghost var f := full[..];
      var n: nat := 0;
      var i: nat := 0;
      while i < 20
        invariant i <= 20 && n + Trues(f, i) == Trues(f, 0)
      {
        if full[i] {
          n := n + 1;
        }
        i := i + 1;
      }
      lines := lines + n;
      if lines >= 10 {
        perDrop := perDrop - 1;
        if perDrop < 10 {
          perDrop := 10;
        }
      }
      score := score + n * 100;
    }

    method SetTicks(t: nat)
      requires Sane()
      modifies this`ticks
      ensures Sane() && Value() == old(Value()).(ticks := t) && ticks == t
    {
      hide Shown, BoardX, BoardY;
      ticks := t;
    }

    method Enter(state: Phase)
      requires Sane()
      modifies this`phase
      ensures Sane() && Value() == old(Value()).(phase := state) && phase == state
    {
      hide Shown, BoardX, BoardY;
      phase := state;
    }

    // The second half of SHIFT_DOWN_BLOCKS
    method Sink(ghost n: nat)
      requires Sane() && OnBoard(BoardX(originX), BoardY(originY), rotation, current)
      modifies this`originY, this`ticks, this`phase, this`placed, this`rows, board
      ensures Sane() && Value() == Sunk(old(Value()), n)
    {
      hide *;
      ghost var g := Value();
      SunkIs(g, n);
      ValueIs();
      SetTicks(ticks + 1);
      if ticks >= perDrop {
        SetTicks(0);
        var stuck := ShiftDownOne();
        ValueIs();
        if stuck {
          Land(n);
        }
      }
    }

    lemma ValueIs()
      ensures var g := Value();
        && g.ticks == ticks && g.perDrop == perDrop && g.rotation == rotation && g.current == current && g.board == rows
        && g.x == BoardX(originX) && g.y == BoardY(originY) && g.flashes == flashes && g.phase == phase
    {
      hide BoardX, BoardY;
    }

    // The piece comes to rest.
    method Land(ghost n: nat)
      requires Sane() && OnBoard(BoardX(originX), BoardY(originY), rotation, current)
      modifies this`phase, this`placed, this`rows, board
      ensures Sane() && Value() == Rested(old(Value()), n)
    {
      hide Shown, Put, BoardX, BoardY, OnBoard;
      PlaceBlock();
      phase := LineCheck;
      placed := n + 1;
    }

    // The first half of SHIFT_DOWN_BLOCKS
    method Act(k: Keys)
      requires Valid() && phase == ShiftDown
      modifies this`originX, this`originY, this`rotation, this`phase, this`placed, this`rows, board
      ensures Sane() && OnBoard(BoardX(originX), BoardY(originY), rotation, current)
      ensures Value() == Acted(old(Value()), k)
    {
      ghost var g := Value();
      MovedOnBoard(g, k);
      ghost var h := Moved(g, MoveOf(g, k));
      hide Shown, BoardX, OnBoard, Moved, MoveOf, Good, Rested;
      var dropped := HandleActions(k);
      assert Value() == h;
      if dropped {
        Land(g.placed);
      }
    }

    // SHIFT_DOWN_BLOCKS; drawing aside
    method ShiftDownBlocks(k: Keys)
      requires Valid() && phase == ShiftDown
      modifies this`originX, this`originY, this`rotation, this`ticks, this`phase, this`placed, this`rows, board
      ensures Sane() && Value() == Fell(old(Value()), k)
    {
      ghost var g := Value();
      ActedIs(g, k);
      hide Shown, BoardX, OnBoard, Sunk, Good, Fell, Acted;
      Act(k);
      Sink(g.placed);
    }

    // choose_piece picks p; the next piece appears.
    method PlaceNew(p: Shape)
      requires Sane()
      modifies this`current, this`next, this`originX, this`originY, this`rotation
      ensures Sane() && Value() == Placed(old(Value()), p)
      ensures current == old(next) && next == p && originX == 40 && originY == 2 && rotation == 0
    {
      assert BoardX(40) == 5 && BoardY(2) == 0;
      hide Shown, BoardX, BoardY;
      current := next;
      next := p;
      originX := 30 + 10;
      originY := 2;
      rotation := 0;
    }

    // SPAWN_BLOCK
    method SpawnPiece(p: Shape)
      requires Sane()
      modifies this`current, this`next, this`originX, this`originY, this`rotation, this`phase, this`ticks
      ensures Sane() && Value() == Spawned(old(Value()), p)
      ensures current == old(next) && next == p && originX == 40 && originY == 2 && rotation == 0
    {
      hide *;
      SpawnedIs(Value(), p);
      PlaceNew(p);
      ValueIs();
      SaneIs();
      var collides := CheckCollision(BoardX(originX), BoardY(originY), rotation, current);
      if collides {
        Enter(GameOver);
      } else {
        Enter(ShiftDown);
        SetTicks(0);
      }
    }

    lemma SaneIs()
      requires Sane()
      ensures Shown() && rotation < 4 && full.Length == 20
    {
    }

    // LINE_CHECK
    method CheckLines()
      requires Sane()
      modifies this`flashes, this`flashTicks, this`phase, full
      ensures Sane() && Value() == Checked(old(Value()))
    {
      hide Fulls, Shown, BoardX;
      ghost var g := Value();
      var any := CheckForLines();
      assert full[..] == Fulls(g.board);
      assert any <==> exists y :: 0 <= y < 20 && Fulls(g.board)[y];
      if any {
        flashes := 0;
        flashTicks := 0;
        phase := LineFlash;
      } else {
        phase := SpawnBlock;
      }
    }

    method Flicker()
      requires Sane()
      modifies this`flashTicks, this`flashes
      ensures Sane() && Value() == Flickered(old(Value()))
    {
      hide Shown, BoardX, BoardY;
      flashTicks := flashTicks + 1;
      if flashTicks > 1 {
        flashTicks := 0;
        flashes := flashes + 1;
      }
    }

    method Clear()
      requires Sane()
      modifies board, this`rows
      ensures Sane() && |old(Value()).full| == 20
      ensures Value() == old(Value()).(board := Compact(old(Value()).board, old(Value()).full))
    {
      SaneIs();
      hide Shown, BoardX, BoardY, Compact;
      ClearLines();
    }

    // LINE_CHECK_FLASH; drawing aside
    method FlashLines()
      requires Sane() && perDrop >= 10
      modifies this`flashes, this`flashTicks, this`phase, this`lines, this`score, this`perDrop, this`rows, board
      ensures Sane() && |old(Value()).full| == 20 && Value() == Flashed(old(Value()))
    {
      hide *;
      SaneIs();
      ValueFull();
      FlashedIs(Value());
      Flicker();
      ValueIs();
      if flashes >= 6 {
        Clear();
        UpdateScore();
        Enter(SpawnBlock);
      }
    }

    lemma ValueFull()
      ensures |Value().full| == full.Length
    {
    }

    // update: one tick
    method Update(k: Keys, p: Shape)
      requires Valid()
      modifies this, board, full
      ensures Valid() && Value() == Next(old(Value()), k, p)
      ensures !k.quit && Paused(old(Value()), k.pause).phase == SpawnBlock ==>
        current == old(next) && next == p && originX == 40 && originY == 2 && rotation == 0
    {
      ghost var g := Value();
      NextKeeps(g, k, p);
      PausedKeeps(g, k.pause);
      NextIs(g, k, p);
      Steady(g);
      Steady(Paused(g, k.pause));
      hide Shown, BoardX, Good, Next, Spawned, Fell, Checked, Flashed;
      if k.quit {
        quit := true;
        return;
      }
      if k.pause {
        if phase == Pause {
          phase := before;
        } else {
          before := phase;
          phase := Pause;
        }
      }
      assert Value() == Paused(g, k.pause);
      match phase
      case SpawnBlock => SpawnPiece(p);
      case ShiftDown => ShiftDownBlocks(k);
      case LineCheck => CheckLines();
      case LineFlash => FlashLines();
      case Pause =>
      case GameOver =>
    }

    // reset_tetris: the piece, then the counters
    method Reset()
      modifies this`quit, this`phase, this`before, this`current, this`next, this`rotation, this`originX, this`originY
      modifies this`ticks, this`flashTicks, this`flashes, this`perDrop, this`lines, this`score, this`placed
      ensures quit == false && phase == before == SpawnBlock && current == next == 0 && rotation == 0
      ensures originX == originY == 0 && ticks == flashTicks == flashes == 0
      ensures perDrop == 62 && lines == score == placed == 0
    {
      quit := false;
      phase := SpawnBlock;
      before := SpawnBlock;
      current := 0;
      rotation := 0;
      next := 0;
      originX := 0;
      originY := 0;
      ResetCounters();
    }

    method ResetCounters()
      modifies this`ticks, this`flashTicks, this`flashes, this`perDrop, this`lines, this`score, this`placed
      ensures ticks == flashTicks == flashes == 0 && perDrop == 62 && lines == score == placed == 0
    {
      ticks := 0;
      flashTicks := 0;
      flashes := 0;
      perDrop := 62;
      lines := 0;
      score := 0;
      placed := 0;
    }

    method ClearBoard()
      requires board.Length0 == 10 && board.Length1 == 20 && full.Length == 20
      modifies this`rows, board
      ensures Shown() && rows == seq<Row>(20, _ => BLANK)
    {
      for y := 0 to 20
        invariant forall u: nat, v: nat :: u < 10 && v < y ==> board[u, v] == 7
      {
        for x := 0 to 10
          invariant forall u: nat, v: nat :: u < 10 && v < y ==> board[u, v] == 7
          invariant forall u: nat :: u < x ==> board[u, y] == 7
        {
          board[x, y] := 7;
        }
      }
      rows := seq<Row>(20, _ => BLANK);
      forall x: nat, y: nat | x < 10 && y < 20 ensures CellShown(x, y) {}
    }

    // The beginning of tetris
    method Begin(p: Shape)
      requires board.Length0 == 10 && board.Length1 == 20 && full.Length == 20
      modifies this, board
      ensures Valid() && Value() == NewGame(p, old(full[..]))
    {
      NewGameGood(p, full[..]);
      assert BoardX(0) == -15 && BoardY(0) == -2;
      hide Good, Shown, BoardX, BoardY;
      Reset();
      next := p;
      ClearBoard();
    }

    // tetris: a whole game, for the keys and random shapes that come
    method PlayGame(p: Shape, inputs: seq<Input>)
      requires board.Length0 == 10 && board.Length1 == 20 && full.Length == 20
      modifies this, board, full
      ensures Valid() && Value() == Play(NewGame(p, old(full[..])), inputs)
    {
      ghost var g := NewGame(p, full[..]);
      Begin(p);
      hide Valid, Value, NewGame, Next, Play;
      PlayStart(g, inputs);
      var i := 0;
      while i < |inputs|
        invariant i <= |inputs| && Valid() && |g.full| == 20 && Value() == Play(g, inputs[..i])
      {
        QuitIs();
        PlayStep(g, inputs, i);
        var next := inputs[i];
        if !quit {
          Update(next.keys, next.shape);
        }
        i := i + 1;
      }
      assert inputs[..|inputs|] == inputs;
    }

    lemma QuitIs()
      ensures Value().quit == quit
    {
    }
  }

  ghost predicate OnBoard(x: int, y: int, r: nat, p: Shape) {
    forall i: nat {:trigger CellX(x, r, p, i)} :: i < 4 ==> Inside(CellX(x, r, p, i), CellY(y, r, p, i))
  }

  lemma FreeOnBoard(b: Board, x: int, y: int, r: nat, p: Shape)
    requires Free(b, x, y, r, p)
    ensures OnBoard(x, y, r, p)
  {
    hide Offsets;
    forall i: nat | i < 4 ensures Inside(CellX(x, r, p, i), CellY(y, r, p, i)) {
      assert FreeCell(b, CellX(x, r, p, i), CellY(y, r, p, i));
    }
  }

  // The steps as the engine makes them
  lemma SunkIs(g: Game, n: nat)
    ensures
      var h := g.(ticks := g.ticks + 1);
      Sunk(g, n) ==
        if h.ticks < h.perDrop then h
        else if Free(g.board, g.x, g.y + 1, g.rotation, g.current) then h.(ticks := 0).(y := g.y + 1)
        else Rested(h.(ticks := 0), n)
  {
    hide Free, Put;
  }

  lemma SpawnedIs(g: Game, p: Shape)
    ensures
      var h := Placed(g, p);
      Spawned(g, p) ==
        if Free(h.board, h.x, h.y, h.rotation, h.current) then h.(phase := ShiftDown).(ticks := 0)
        else h.(phase := GameOver)
  {
    hide Free;
  }

  lemma FlashedIs(g: Game)
    requires |g.full| == 20
    ensures
      var h := Flickered(g);
      |h.full| == 20 && Flashed(g) ==
        if h.flashes >= 6 then Scored(h.(board := Compact(h.board, h.full))).(phase := SpawnBlock) else h
  {
    hide Compact, Scored;
  }

  lemma MovedOnBoard(g: Game, k: Keys)
    requires Good(g) && g.phase == ShiftDown
    ensures var h := Moved(g, MoveOf(g, k));
      h == g.(x := h.x, y := h.y, rotation := h.rotation) && h.rotation < 4 && OnBoard(h.x, h.y, h.rotation, h.current)
  {
    var h := Moved(g, MoveOf(g, k));
    assert Falling(g.board, g, g.placed);
    if MoveOf(g, k) == Drop { DroppedRests(g); } else { MovedFalls(g, k); }
    hide MoveOf, Free, Put, NoneFull, Occupied, Depth;
    FreeOnBoard(g.board, h.x, h.y, h.rotation, h.current);
  }

  function Acted(g: Game, k: Keys): Game {
    var m := MoveOf(g, k);
    if m == Drop then Rested(Moved(g, m), g.placed) else Moved(g, m)
  }

  lemma ActedIs(g: Game, k: Keys)
    ensures Fell(g, k) == Sunk(Acted(g, k), g.placed)
  {
    hide MoveOf, Moved, Sunk, Rested;
  }

  lemma PlayStart(g: Game, inputs: seq<Input>)
    requires |g.full| == 20
    ensures Play(g, inputs[..0]) == g && inputs[..|inputs|] == inputs
  {
  }

  lemma PlayStep(g: Game, inputs: seq<Input>, i: nat)
    requires |g.full| == 20 && i < |inputs|
    ensures var h := Play(g, inputs[..i]);
      Play(g, inputs[..i + 1]) == if h.quit then h else Next(h, inputs[i].keys, inputs[i].shape)
  {
    hide Next;
    assert inputs[..i + 1][..i] == inputs[..i] && inputs[..i + 1][i] == inputs[i];
  }

  lemma Steady(g: Game)
    requires Good(g)
    ensures |g.full| == 20 && g.perDrop >= 10 && g.rotation < 4
  {
  }

  lemma FullsUnique(b: Board, full: seq<bool>)
    requires FullsAre(b, full)
    ensures full == Fulls(b)
  {
    hide RowFull;
  }

  ghost predicate Stands(g: Game, x: int, y: int, r: nat) {
    g.x == x && g.y == y && g.rotation == r
  }

  // What the keys do, one after the other
  lemma MoveIs(g: Game, k: Keys)
    ensures
      var m, h := MoveOf(g, k), Moved(g, MoveOf(g, k));
      if k.left && Free(g.board, g.x - 1, g.y, g.rotation, g.current) then
        m != Drop && Stands(h, g.x - 1, g.y, g.rotation)
      else if k.right && Free(g.board, g.x + 1, g.y, g.rotation, g.current) then
        m != Drop && Stands(h, g.x + 1, g.y, g.rotation)
      else if k.down && Free(g.board, g.x, g.y + 1, g.rotation, g.current) then
        m != Drop && Stands(h, g.x, g.y + 1, g.rotation)
      else if k.rotate && Free(g.board, g.x, g.y, (g.rotation + 1) % 4, g.current) then
        m != Drop && Stands(h, g.x, g.y, (g.rotation + 1) % 4)
      else if k.drop then
        m == Drop && Stands(h, g.x, g.y + Depth(g.board, g.x, g.y, g.rotation, g.current), g.rotation)
      else m != Drop && Stands(h, g.x, g.y, g.rotation)
  {
    hide Free, Depth;
  }

  // ---------------------------------------------------------------------------------------------
  // clear_lines, step by step

  // Rows up to y are as they were; those below hold the kept rows from copyLine + 1 on.
  ghost predicate Copied(b: Board, b': Board, full: seq<bool>, y: int, copyLine: int) {
    && |full| == 20 && -1 <= copyLine <= y <= 19
    && (forall i :: 0 <= i <= y ==> b'[i] == b[i]) && b'[y + 1..] == Kept(b, full, copyLine + 1)
  }

  lemma CopyStart(b: Board, full: seq<bool>)
    requires |full| == 20
    ensures Copied(b, b, full, 19, 19)
  {
  }

  lemma CopySkip(b: Board, b': Board, full: seq<bool>, y: int, copyLine: int)
    requires Copied(b, b', full, y, copyLine) && copyLine >= 0 && full[copyLine]
    ensures Copied(b, b', full, y, copyLine - 1)
  {
    assert Kept(b, full, copyLine) == Kept(b, full, copyLine + 1);
  }

  lemma CopyStep(b: Board, b': Board, full: seq<bool>, y: int, copyLine: int)
    requires Copied(b, b', full, y, copyLine) && copyLine >= 0 && !full[copyLine]
    ensures Copied(b, b'[y := b'[copyLine]], full, y - 1, copyLine - 1)
  {
    var b'' := b'[y := b'[copyLine]];
    assert Kept(b, full, copyLine) == [b[copyLine]] + Kept(b, full, copyLine + 1);
    hide Kept;
    assert b''[y..] == [b[copyLine]] + b'[y + 1..];
  }

  predicate IsBlank(r: Row) {
    r == BLANK
  }

  // All kept rows are at the bottom, and above them the rows below y are blank.
  ghost predicate Blanked(b: Board, b': Board, full: seq<bool>, y: int) {
    && |full| == 20 && -1 <= y < 20 && y + 1 <= Trues(full, 0) <= 20
    && (forall i :: y < i < Trues(full, 0) ==> IsBlank(b'[i])) && b'[Trues(full, 0)..] == Kept(b, full, 0)
  }

  lemma BlankStart(b: Board, b': Board, full: seq<bool>, y: int, copyLine: int)
    requires Copied(b, b', full, y, copyLine) && (y < 0 || copyLine < 0)
    ensures Blanked(b, b', full, y)
  {
    KeptSize(b, full, 0);
    hide Kept;
    assert |b'[y + 1..]| == 19 - y;
  }

  lemma BlankStep(b: Board, b': Board, full: seq<bool>, y: int)
    requires Blanked(b, b', full, y) && y >= 0
    ensures Blanked(b, b'[y := BLANK], full, y - 1)
  {
    hide Kept;
    assert b'[y := BLANK][Trues(full, 0)..] == b'[Trues(full, 0)..];
  }

  lemma BlankDone(b: Board, b': Board, full: seq<bool>)
    requires Blanked(b, b', full, -1)
    ensures b' == Compact(b, full)
  {
    hide Kept, Trues;
    var t := Trues(full, 0);
    assert b' == b'[..t] + b'[t..];
    assert b'[..t] == seq<Row>(t, _ => BLANK);
  }
}
