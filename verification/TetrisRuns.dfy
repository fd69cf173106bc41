// tetris.c over whole games: which pieces appear and where, how fast they fall, what a pause and a cleared line do, and
// how the shapes turn.
module TetrisRuns {
  import opened TetrisModel

  // ---------------------------------------------------------------------------------------------
  // Which pieces appear

  // A new piece appears in this tick.
  predicate Appears(g: Game, k: Keys) {
    !g.quit && !k.quit && Paused(g, k.pause).phase == SpawnBlock
  }

  // The shapes of the pieces that appear, in their order
  function Appeared(g: Game, inputs: seq<Input>): seq<Shape>
    requires |g.full| == 20
  {
    if inputs == [] then []
    else
      var before, i := inputs[..|inputs| - 1], inputs[|inputs| - 1];
      Appeared(g, before) + if Appears(Play(g, before), i.keys) then [Play(g, inputs).current] else []
  }

  // The random shapes drawn as they do
  function Drawn(g: Game, inputs: seq<Input>): seq<Shape>
    requires |g.full| == 20
  {
    if inputs == [] then []
    else
      var before, i := inputs[..|inputs| - 1], inputs[|inputs| - 1];
      Drawn(g, before) + if Appears(Play(g, before), i.keys) then [i.shape] else []
  }

  // The piece and the announced one change only when a piece appears.
  lemma SamePieces(g: Game, k: Keys, p: Shape)
    requires |g.full| == 20 && !g.quit
    ensures var h := Next(g, k, p);
      if Appears(g, k) then
        && h.current == g.next && h.next == p && h.x == 5 && h.y == 0 && h.rotation == 0 && h.board == g.board
        && (h.phase == ShiftDown ==> h.ticks == 0)
        && h.phase == (if Free(g.board, 5, 0, 0, g.next) then ShiftDown else GameOver)
      else h.current == g.current && h.next == g.next
  {
    hide Free, Put, Compact, Depth, MoveOf, Fulls, Trues, RowFull;
    var h := Paused(g, k.pause);
    FellPieces(h, k);
    hide Fell;
  }

  lemma FellPieces(g: Game, k: Keys)
    ensures Fell(g, k).current == g.current && Fell(g, k).next == g.next && Fell(g, k).perDrop == g.perDrop
    ensures Fell(g, k).lines == g.lines
  {
    hide Free, Put, MoveOf, Depth;
  }

  // The pieces that appear are the first one announced, and then the shapes drawn, each when the one before it
  // appeared; the last drawn is the one announced now. The falling piece is the last that appeared.
  lemma {:induction false} PiecesInOrder(p: Shape, full: seq<bool>, inputs: seq<Input>)
    requires |full| == 20
    ensures var g := NewGame(p, full); var h := Play(g, inputs);
      && [p] + Drawn(g, inputs) == Appeared(g, inputs) + [h.next]
      && (Appeared(g, inputs) != [] ==> h.current == Appeared(g, inputs)[|Appeared(g, inputs)| - 1])
  {
    if inputs != [] {
      var before, i := inputs[..|inputs| - 1], inputs[|inputs| - 1];
      var g := NewGame(p, full);
      PiecesInOrder(p, full, before);
      var h := Play(g, before);
      assert Appeared(g, before) + [] == Appeared(g, before) && Drawn(g, before) + [] == Drawn(g, before);
      if Appears(h, i.keys) {
        SamePieces(h, i.keys, i.shape);
        InOrder(p, Drawn(g, before), Appeared(g, before), h.next, i.shape);
      } else if !h.quit {
        SamePieces(h, i.keys, i.shape);
      }
      hide NewGame, Appears, Next;
    }
  }

  lemma InOrder(p: Shape, drawn: seq<Shape>, appeared: seq<Shape>, announced: Shape, shape: Shape)
    requires [p] + drawn == appeared + [announced]
    ensures [p] + (drawn + [shape]) == (appeared + [announced]) + [shape]
  {
    assert [p] + (drawn + [shape]) == ([p] + drawn) + [shape];
  }

  // A piece appears at the top in the middle, unrotated; where there is no room the game is over.
  lemma PieceAppears(g: Game, inputs: seq<Input>)
    requires |g.full| == 20 && inputs != []
    requires Appears(Play(g, inputs[..|inputs| - 1]), inputs[|inputs| - 1].keys)
    ensures var before := Play(g, inputs[..|inputs| - 1]); var h := Play(g, inputs);
      && h.current == before.next && h.x == 5 && h.y == 0 && h.rotation == 0 && h.board == before.board
      && h.phase == (if Free(before.board, 5, 0, 0, before.next) then ShiftDown else GameOver)
  {
    var before, i := Play(g, inputs[..|inputs| - 1]), inputs[|inputs| - 1];
    SamePieces(before, i.keys, i.shape);
    hide Free, Next;
    assert Play(g, inputs) == Next(before, i.keys, i.shape);
  }

  // ---------------------------------------------------------------------------------------------
  // How fast they fall

  // The speed of a game: it starts at 62 ticks a row and is at least 10.
  predicate Paced(g: Game) {
    |g.full| == 20 && 10 <= g.perDrop <= 62 && (g.perDrop == 62 <==> g.lines < 10)
  }

  lemma PacedNext(g: Game, k: Keys, p: Shape)
    requires Paced(g)
    ensures var h := Next(g, k, p); Paced(h) && h.perDrop <= g.perDrop && h.lines >= g.lines
    ensures var h := Next(g, k, p); h.perDrop < g.perDrop ==> h.perDrop == g.perDrop - 1 && h.lines >= 10
    ensures var h := Next(g, k, p); h.lines > g.lines && h.lines >= 10 && g.perDrop > 10 ==> h.perDrop == g.perDrop - 1
  {
    var h := Paused(g, k.pause);
    NextIs(g, k, p);
    FullSize(g, k, p);
    FellPieces(h, k);
    FlashedPaced(h);
    OthersPaced(h, p);
    hide Next, Fell, Flashed, Spawned, Checked;
  }

  lemma FlashedPaced(g: Game)
    requires Paced(g)
    ensures var h := Flashed(g);
      && 10 <= h.perDrop <= 62 && (h.perDrop == 62 <==> h.lines < 10) && h.lines >= g.lines
      && (h.perDrop == g.perDrop || (h.perDrop == g.perDrop - 1 && h.lines >= 10))
      && (h.lines > g.lines && h.lines >= 10 && g.perDrop > 10 ==> h.perDrop == g.perDrop - 1)
  {
    hide Compact, Trues;
  }

  lemma OthersPaced(g: Game, p: Shape)
    ensures Spawned(g, p).perDrop == g.perDrop && Spawned(g, p).lines == g.lines
    ensures Checked(g).perDrop == g.perDrop && Checked(g).lines == g.lines
  {
    hide Free, Fulls;
  }

  // Play never slows down. It is at its first speed exactly as long as fewer than ten lines have been cleared.
  lemma {:induction false} NeverSlower(g: Game, inputs: seq<Input>, n: nat)
    requires |g.full| == 20 && Paced(g) && n <= |inputs|
    ensures var h := Play(g, inputs); Paced(h) && h.perDrop <= Play(g, inputs[..n]).perDrop
    decreases |inputs|
  {
    hide Paced, Next;
    if inputs != [] {
      var before, i := inputs[..|inputs| - 1], inputs[|inputs| - 1];
      NeverSlower(g, before, if n < |inputs| then n else n - 1);
      var h := Play(g, before);
      if !h.quit { PacedNext(h, i.keys, i.shape); }
      if n < |inputs| {
        assert before[..n] == inputs[..n];
      } else {
        assert inputs[..n] == inputs;
      }
    }
  }

  lemma NewGamePaced(p: Shape, full: seq<bool>)
    requires |full| == 20
    ensures Paced(NewGame(p, full))
  {
  }

  const NO_KEYS := Keys(false, false, false, false, false, false, false)

  predicate Untouched(inputs: seq<Input>) {
    forall i :: 0 <= i < |inputs| ==> inputs[i].keys == NO_KEYS
  }

  lemma UntouchedBefore(inputs: seq<Input>)
    requires inputs != [] && Untouched(inputs)
    ensures Untouched(inputs[..|inputs| - 1]) && inputs[|inputs| - 1].keys == NO_KEYS
  {
  }

  // Left alone, a piece stands still until perDrop ticks have gone by, and then sinks by one row; or, where it cannot,
  // it stays as part of the board.
  lemma {:induction false} SinksOnTime(g: Game, inputs: seq<Input>)
    requires |g.full| == 20 && g.phase == ShiftDown && !g.quit && Untouched(inputs)
    requires g.ticks + |inputs| <= g.perDrop && g.ticks < g.perDrop
    ensures var h := Play(g, inputs); var due := g.ticks + |inputs| == g.perDrop;
      if !due then h == g.(ticks := g.ticks + |inputs|)
      else if Free(g.board, g.x, g.y + 1, g.rotation, g.current) then h == g.(ticks := 0, y := g.y + 1)
      else h == Rested(g, g.placed).(ticks := 0)
  {
    hide Free, Put;
    if inputs != [] {
      var before, i := inputs[..|inputs| - 1], inputs[|inputs| - 1];
      UntouchedBefore(inputs);
      SinksOnTime(g, before);
      LeftAlone(Play(g, before), i.shape);
    }
  }

  lemma LeftAlone(g: Game, p: Shape)
    requires |g.full| == 20 && g.phase == ShiftDown
    ensures Next(g, NO_KEYS, p) ==
      if g.ticks + 1 < g.perDrop then g.(ticks := g.ticks + 1)
      else if Free(g.board, g.x, g.y + 1, g.rotation, g.current) then g.(ticks := 0, y := g.y + 1)
      else Rested(g, g.placed).(ticks := 0)
  {
    hide Free, Put;
  }

  // ---------------------------------------------------------------------------------------------
  // Pauses

  // While a game is paused nothing changes.
  lemma {:induction false} PausedStays(g: Game, inputs: seq<Input>)
    requires |g.full| == 20 && g.phase == Pause && Undisturbed(inputs)
    ensures Play(g, inputs) == g
  {
    if inputs != [] {
      UndisturbedBefore(inputs);
      PausedStays(g, inputs[..|inputs| - 1]);
    }
  }

  // The key pressed, any number of ticks, and the key pressed again: the game goes on as if it had not been paused.
  lemma PauseTwice(g: Game, k: Keys, p: Shape, inputs: seq<Input>, k2: Keys, p2: Shape)
    requires |g.full| == 20 && g.phase != Pause && k.pause && !k.quit && Undisturbed(inputs) && k2.pause && !k2.quit
    ensures var h := Next(g, k, p);
      |h.full| == 20 && Play(h, inputs) == h &&
      Next(h, k2, p2) == Next(g.(before := g.phase), k2.(pause := false), p2)
  {
    var h := Next(g, k, p);
    PausedStays(h, inputs);
    hide Play, Fell, Checked, Flashed, Spawned, Undisturbed;
    SameKeys(g.(before := g.phase), k2);
  }

  lemma SameKeys(g: Game, k: Keys)
    ensures Fell(g, k.(pause := false)) == Fell(g, k)
  {
    hide Free, Put, Depth;
  }

  // ---------------------------------------------------------------------------------------------
  // Flashing lines

  // Without a full row the next piece comes at once.
  lemma NoLines(g: Game, k: Keys, p: Shape)
    requires |g.full| == 20 && g.phase == LineCheck && !k.quit && !k.pause && NoneFull(g.board)
    ensures Next(g, k, p) == g.(full := Fulls(g.board), phase := SpawnBlock)
  {
    hide RowFull;
  }

  // Full rows are found in one tick, stay for twelve and are then cleared.
  lemma {:induction false} LinesClear(g: Game, inputs: seq<Input>)
    requires |g.full| == 20 && g.phase == LineCheck && !g.quit && !NoneFull(g.board)
    requires Undisturbed(inputs) && |inputs| <= 13
    ensures var h := Play(g, inputs); var n := |inputs|;
      && (n == 0 ==> h == g)
      && (0 < n < 13 ==>
            h == g.(full := Fulls(g.board), phase := LineFlash, flashes := (n - 1) / 2, flashTicks := (n - 1) % 2))
      && (n == 13 ==>
            && h.phase == SpawnBlock && h.board == Compact(g.board, Fulls(g.board))
            && h.lines == g.lines + Trues(Fulls(g.board), 0))
  {
    hide Compact, Trues, Fulls, Next, Undisturbed, NoneFull;
    if inputs != [] {
      var before, i := inputs[..|inputs| - 1], inputs[|inputs| - 1];
      UndisturbedBefore(inputs);
      LinesClear(g, before);
      if before == [] {
        LinesFound(g, i.keys, i.shape);
      } else {
        FlashStep(Play(g, before), |before| - 1, i.keys, i.shape);
      }
    }
  }

  lemma LinesFound(g: Game, k: Keys, p: Shape)
    requires |g.full| == 20 && g.phase == LineCheck && !k.quit && !k.pause && !NoneFull(g.board)
    ensures Next(g, k, p) == g.(full := Fulls(g.board), phase := LineFlash, flashes := 0, flashTicks := 0)
  {
    hide RowFull;
    var y :| 0 <= y < 20 && RowFull(g.board[y]);
    assert Fulls(g.board)[y];
  }

  lemma FlashStep(g: Game, n: nat, k: Keys, p: Shape)
    requires |g.full| == 20 && g.phase == LineFlash && n < 12 && g.flashes == n / 2 && g.flashTicks == n % 2
    requires !k.quit && !k.pause
    ensures var h := Next(g, k, p);
      if n < 11 then h == g.(flashes := (n + 1) / 2, flashTicks := (n + 1) % 2)
      else h.phase == SpawnBlock && h.board == Compact(g.board, g.full) && h.lines == g.lines + Trues(g.full, 0)
  {
    NextIs(g, k, p);
    hide Compact, Trues, Next;
  }

  // ---------------------------------------------------------------------------------------------
  // Keys

  // What one key does, the opposite one undoes.
  lemma LeftRight(g: Game, k: Keys, k2: Keys)
    requires Free(g.board, g.x, g.y, g.rotation, g.current)
    ensures MoveOf(g, k) == MoveLeft && k2.right && !k2.left ==>
      var h := Moved(g, MoveLeft); MoveOf(h, k2) == MoveRight && Moved(h, MoveRight) == g
    ensures MoveOf(g, k) == MoveRight && k2.left ==>
      var h := Moved(g, MoveRight); MoveOf(h, k2) == MoveLeft && Moved(h, MoveLeft) == g
  {
    hide Free;
  }

  // ---------------------------------------------------------------------------------------------
  // Shapes

  type Spot = (int, int)

  function Cells(rotation: nat, p: Shape): set<Spot> {
    var o := Offsets(rotation, p); {o[0], o[1], o[2], o[3]}
  }

  // A quarter turn, clockwise on a screen whose rows count downwards
  function QuarterTurn(c: Spot): Spot {
    (-c.1, c.0)
  }

  function ShiftedBy(c: Spot, d: Spot): Spot {
    (c.0 + d.0, c.1 + d.1)
  }

  function TurnedCells(rotation: nat, p: Shape, d: Spot): set<Spot> {
    var o := Offsets(rotation, p);
    {ShiftedBy(QuarterTurn(o[0]), d), ShiftedBy(QuarterTurn(o[1]), d), ShiftedBy(QuarterTurn(o[2]), d),
     ShiftedBy(QuarterTurn(o[3]), d)}
  }

  // Each rotation is the one before it, turned by a quarter and shifted; J, L and T turn about their origin.
  lemma TurnsByQuarters(rotation: nat, p: Shape)
    requires rotation < 4
    ensures exists d :: Cells(Turned(rotation), p) == TurnedCells(rotation, p, d)
    ensures p == 1 || p == 2 || p == 5 ==> Cells(Turned(rotation), p) == TurnedCells(rotation, p, (0, 0))
  {
    hide Cells, TurnedCells;
    match p
    case 0 => TurnsLine(rotation);
    case 3 => TurnedAs(rotation, 3, 2, 0, 3, 1, (1, 0));
    case 4 => TurnsSkew(rotation);
    case 6 => TurnsSkew(rotation);
    case _ => TurnsAround(rotation, p);
  }

  lemma TurnsLine(rotation: nat)
    requires rotation < 4
    ensures exists d :: Cells(Turned(rotation), 0) == TurnedCells(rotation, 0, d)
  {
    hide Cells, TurnedCells;
    var lying, standing := [(-1, 0), (0, 0), (1, 0), (2, 0)], [(0, -1), (0, 0), (0, 1), (0, 2)];
    if rotation % 2 == 0 {
      assert Offsets(rotation, 0) == lying && Offsets(Turned(rotation), 0) == standing;
      hide Offsets;
      TurnedAs(rotation, 0, 0, 1, 2, 3, (0, 0));
    } else {
      assert Offsets(rotation, 0) == standing && Offsets(Turned(rotation), 0) == lying;
      hide Offsets;
      TurnedAs(rotation, 0, 3, 2, 1, 0, (1, 0));
    }
  }

  lemma TurnsSkew(rotation: nat)
    requires rotation < 4
    ensures exists d :: Cells(Turned(rotation), 4) == TurnedCells(rotation, 4, d)
    ensures exists d :: Cells(Turned(rotation), 6) == TurnedCells(rotation, 6, d)
  {
    hide Cells, TurnedCells;
    if rotation % 2 == 0 {
      TurnedAs(rotation, 4, 0, 1, 2, 3, (0, 0));
      TurnedAs(rotation, 6, 3, 2, 1, 0, (1, 0));
    } else {
      TurnedAs(rotation, 4, 3, 2, 1, 0, (0, 1));
      TurnedAs(rotation, 6, 0, 1, 2, 3, (0, 0));
    }
  }

  lemma TurnsAround(rotation: nat, p: Shape)
    requires rotation < 4 && (p == 1 || p == 2 || p == 5)
    ensures Cells(Turned(rotation), p) == TurnedCells(rotation, p, (0, 0))
  {
    hide Cells, TurnedCells;
    if p == 1 {
      TurnedAs(rotation, 1, 0, 1, 2, 3, (0, 0));
    } else if p == 2 {
      TurnedAs(rotation, 2, 1, 0, 2, 3, (0, 0));
    } else if rotation % 2 == 0 {
      TurnedAs(rotation, 5, 0, 1, 2, 3, (0, 0));
    } else {
      TurnedAs(rotation, 5, 3, 1, 2, 0, (0, 0));
    }
  }

  predicate Becomes(c: Spot, c': Spot, d: Spot) {
    c'.0 == d.0 - c.1 && c'.1 == d.1 + c.0
  }

  // Cell a of a rotation becomes the first of the next, b the second, and so on.
  lemma TurnedAs(rotation: nat, p: Shape, a: nat, b: nat, c: nat, e: nat, d: Spot)
    requires a < 4 && b < 4 && c < 4 && e < 4 && a != b && a != c && a != e && b != c && b != e && c != e
    requires var o, o' := Offsets(rotation, p), Offsets(Turned(rotation), p);
      Becomes(o[a], o'[0], d) && Becomes(o[b], o'[1], d) && Becomes(o[c], o'[2], d) && Becomes(o[e], o'[3], d)
    ensures Cells(Turned(rotation), p) == TurnedCells(rotation, p, d)
  {
    var o, o' := Offsets(rotation, p), Offsets(Turned(rotation), p);
    hide Offsets, Turned;
    TurnsInto(o[a], o'[0], d);
    TurnsInto(o[b], o'[1], d);
    TurnsInto(o[c], o'[2], d);
    TurnsInto(o[e], o'[3], d);
    hide QuarterTurn, ShiftedBy, Becomes;
  }

  lemma TurnsInto(c: Spot, c': Spot, d: Spot)
    requires Becomes(c, c', d)
    ensures c' == ShiftedBy(QuarterTurn(c), d)
  {
  }

  // The cells of a shape hang together: each but the first is beside an earlier one.
  predicate Beside(c: Spot, d: Spot) {
    (c.0 == d.0 && (c.1 == d.1 + 1 || d.1 == c.1 + 1)) || (c.1 == d.1 && (c.0 == d.0 + 1 || d.0 == c.0 + 1))
  }

  lemma HangsTogether(rotation: nat, p: Shape, i: nat)
    requires 0 < i < 4
    ensures exists j: nat :: j < i && Beside(Offsets(rotation, p)[i], Offsets(rotation, p)[j])
  {
    var o := Offsets(rotation, p);
    assert Beside(o[i], o[0]) || Beside(o[i], o[1]) || (i > 2 && Beside(o[i], o[2]));
  }
}
