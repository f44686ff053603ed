/** The legality engine and turn state machine of the chess rules engine
    (src/controller.ts): movement geometry per ruleset as 8x8 boolean grids, the
    induced-check filter, the legal-move map of the side to move, the click state machine
    over `selection` and `whoseTurn`, and the end-of-game tests. The drawing side of the
    controller (the view, display, printMoves and the console messages) is not modelled. */
module Controller {
  import opened Game

  /** What a click leads to: nothing to report, the message "Player <named> wins by
      checkmate" of handleWin, or the stalemate message of handleStalemate. */
  datatype Outcome = NoResult | Win(named: Color) | Stalemate

  /** The source's inBounds, with its negated test. */
  predicate InBounds(sq: Coord): (r: bool)
    ensures r <==> 0 <= sq.x <= 7 && 0 <= sq.y <= 7
  {
    !(sq.x > 7 || sq.y > 7 || sq.x < 0 || sq.y < 0)
  }

  /** The row direction a pawn of colour `c` advances in. */
  function Facing(c: Color): int
  {
    if c == B then -1 else 1
  }

  /** A pawn that has not moved stands on its starting row. */
  predicate PawnHasNotMoved(color: Color, atSquare: Coord): (r: bool)
    ensures r <==> atSquare.y == PawnRow(color)
  {
    match color
    case W => atSquare.y == 1
    case B => atSquare.y == 6
  }

  function Abs(n: int): nat
  {
    if n < 0 then -n else n
  }

  /** The number of king steps between two squares. */
  function Chebyshev(o: Coord, t: Coord): nat
  {
    if Abs(t.x - o.x) < Abs(t.y - o.y) then Abs(t.y - o.y) else Abs(t.x - o.x)
  }

  /** A direction of a sliding piece: each component -1, 0 or 1, not both 0. */
  predicate UnitDir(d: Coord)
  {
    -1 <= d.x <= 1 && -1 <= d.y <= 1 && d != Coord(0, 0)
  }

  /** k times the sign of s; for a unit direction component this is k * s. */
  function Scale(k: int, s: int): int
  {
    if s > 0 then k else if s < 0 then -k else 0
  }

  /** The square k steps from o in direction d. */
  function Step(o: Coord, d: Coord, k: int): Coord
  {
    Coord(o.x + Scale(k, d.x), o.y + Scale(k, d.y))
  }

  /** k steps along a unit direction are k king steps away. */
  lemma StepDistance(o: Coord, d: Coord, k: nat)
    requires UnitDir(d)
    ensures Chebyshev(o, Step(o, d, k)) == k
  {
  }

  /** Walking one more step along a unit direction. */
  lemma StepNext(o: Coord, d: Coord, k: int)
    requires UnitDir(d)
    ensures Step(o, d, k + 1) == Coord(Step(o, d, k).x + d.x, Step(o, d, k).y + d.y)
  {
  }

  /** The squares 1 .. n-1 steps from o along d. */
  predicate Within(o: Coord, d: Coord, n: int, t: Coord)
  {
    1 <= Chebyshev(o, t) < n && t == Step(o, d, Chebyshev(o, t))
  }

  const BishopDirections: seq<Coord> := [Coord(1, -1), Coord(-1, 1), Coord(1, 1), Coord(-1, -1)]
  const RookDirections: seq<Coord> := [Coord(1, 0), Coord(-1, 0), Coord(0, -1), Coord(0, 1)]

  predicate UnitDirs(dirs: seq<Coord>)
  {
    forall i | 0 <= i < |dirs| :: UnitDir(dirs[i])
  }

  /** The order in which knightThreats visits the candidate squares: horizontal sign
      h, vertical sign v and, for each sign pair, first the (2h, v) then the (h, 2v) jump. */
  function KnightOrder(h: int, v: int, k: int): int
  {
    2 * (h + 1) + (v + 1) + k
  }

  /** The place of the jump from o to t in that order. */
  function KnightRank(o: Coord, t: Coord): int
  {
    var dx, dy := t.x - o.x, t.y - o.y;
    KnightOrder(if dx < 0 then -1 else 1, if dy < 0 then -1 else 1, if Abs(dx) == 2 then 0 else 1)
  }

  predicate KnightJump(o: Coord, t: Coord)
  {
    (Abs(t.x - o.x) == 2 && Abs(t.y - o.y) == 1) || (Abs(t.x - o.x) == 1 && Abs(t.y - o.y) == 2)
  }

  predicate KingStep(o: Coord, t: Coord)
  {
    Abs(t.x - o.x) <= 1 && Abs(t.y - o.y) <= 1
  }

  /** The opponents that share neither the target's column nor its row, in their order. */
  function OffLines(s: seq<Piece>, target: Coord): (r: seq<Piece>)
    reads s
    ensures forall p {:trigger p in r} | p in r :: p in s && p.x != target.x && p.y != target.y
    ensures forall p {:trigger p in s} | p in s && p.x != target.x && p.y != target.y :: p in r
  {
    if s == [] then []
    else
      assert forall p {:trigger p in s} | p in s :: p == s[0] || p in s[1..];
      if s[0].x != target.x && s[0].y != target.y then [s[0]] + OffLines(s[1..], target)
      else OffLines(s[1..], target)
  }

  /** The same filter on pieces as values. */
  function OffLinesAt(s: seq<Placed>, target: Coord): seq<Placed>
  {
    if s == [] then []
    else if s[0].at.x != target.x && s[0].at.y != target.y then [s[0]] + OffLinesAt(s[1..], target)
    else OffLinesAt(s[1..], target)
  }

  /** OffLinesAt keeps exactly the pieces off the target's row and column. */
  lemma {:induction false} OffLinesAtMembers(s: seq<Placed>, target: Coord)
    ensures forall i | 0 <= i < |OffLinesAt(s, target)| ::
      OffLinesAt(s, target)[i] in s && OffLinesAt(s, target)[i].at.x != target.x && OffLinesAt(s, target)[i].at.y != target.y
    ensures forall i | 0 <= i < |s| && s[i].at.x != target.x && s[i].at.y != target.y :: s[i] in OffLinesAt(s, target)
  {
    if s != [] {
      OffLinesAtMembers(s[1..], target);
      assert forall p | p in s[1..] :: p in s;
      assert forall i | 1 <= i < |s| :: s[i] == s[1..][i - 1];
    }
  }

  /** The filter drops every piece on the target's row or column: a piece captured on the
      target, and equally any other piece sharing one of its lines. */
  lemma OffLinesDrops(s: seq<Placed>, target: Coord, i: int)
    requires 0 <= i < |s| && (s[i].at.x == target.x || s[i].at.y == target.y)
    ensures s[i] !in OffLinesAt(s, target)
  {
    OffLinesAtMembers(s, target);
  }

  /** Filtering the pieces and then taking their values is filtering their values. */
  lemma {:induction false} PlacementsOffLines(s: seq<Piece>, target: Coord)
    ensures Placements(OffLines(s, target)) == OffLinesAt(Placements(s), target)
  {
    if s != [] {
      PlacementsOffLines(s[1..], target);
      assert Placements(s)[1..] == Placements(s[1..]);
    }
  }

  /** One direction walked by directionalThreatSearch: the grid it marks, the colour and
      square of the searching piece, the direction, the step it stopped at and whether it
      marked that step. */
  datatype Walk = Walk(grid: array2<bool>, color: Color, origin: Coord, dir: Coord, cut: int, marked: bool)

  /** The square a pawn may capture en passant, or none. */
  datatype EnPassantTarget = NoTarget | TargetAt(square: Coord)

  class ChessController {
    const game: ChessBoard
    var enPassantTarget: EnPassantTarget
    var selection: Option<Piece>
    var whoseTurn: Color
    var currentPlayersLegalMoves: map<Piece, array2<bool>>

    /** A new game: the opening position, white to move, nothing selected, and the legal
        moves of white's pieces in the map. */
    constructor ()
      ensures Valid() && fresh(game) && whoseTurn == W && selection == None
      ensures forall x, y | 0 <= x < 8 && 0 <= y < 8 :: Matches(game.board[x, y], StartingSquare(x, y))
    {
      game := new ChessBoard();
      enPassantTarget, selection, whoseTurn := NoTarget, None, W;
      currentPlayersLegalMoves := map[];
      new;
      RecomputeMoves();
    }

    // |-----------------------------------------|
    // |-WHAT THE GRIDS MEAN, SQUARE BY SQUARE-|
    // |-----------------------------------------|

    /** A piece of `color` may end on `square`: it is empty or holds an enemy. */
    predicate CanMoveToOrCaptureOn(color: Color, square: Coord): (r: bool)
      reads game.board
      requires game.Shaped() && OnBoard(square)
      ensures r <==> game.SquareIsEmpty(square) || game.SquareHasEnemy(color, square)
    {
      var content := game.GetSquareAt(square);
      if content != Empty then color != content.piece.color else true
    }

    /** t is a knight's jump from o, inside the board, empty or holding an enemy. */
    ghost predicate KnightReaches(c: Color, o: Coord, t: Coord)
      reads game.board
      requires game.Shaped()
    {
      OnBoard(t) && KnightJump(o, t) && CanMoveToOrCaptureOn(c, t)
    }

    /** t is a neighbour of o (not o itself), empty or holding an enemy. */
    ghost predicate KingReaches(c: Color, o: Coord, t: Coord)
      reads game.board
      requires game.Shaped()
    {
      OnBoard(t) && t != o && KingStep(o, t) && CanMoveToOrCaptureOn(c, t)
    }

    /** t is a forward diagonal of the pawn that holds an enemy or is the en-passant target. */
    ghost predicate PawnThreatens(ep: EnPassantTarget, c: Color, o: Coord, t: Coord)
      reads game.board
      requires game.Shaped()
    {
      && OnBoard(t) && t.y == o.y + Facing(c) && Abs(t.x - o.x) == 1
      && (game.SquareHasEnemy(c, t) || ep == TargetAt(t))
    }

    /** t is the empty square one ahead of the pawn, or the empty square two ahead of a
        pawn on its starting row with an empty square between. */
    ghost predicate PawnAdvances(c: Color, o: Coord, t: Coord)
      reads game.board
      requires game.Shaped() && OnBoard(o)
    {
      && OnBoard(t) && t.x == o.x && game.SquareIsEmpty(t)
      && (|| t.y == o.y + Facing(c)
          || (&& t.y == o.y + 2 * Facing(c) && PawnHasNotMoved(c, o)
              && game.SquareIsEmpty(Coord(o.x, o.y + Facing(c)))))
    }

    /** Every square 1 .. k-1 steps along d from o is on the board and empty. */
    ghost predicate RayClear(o: Coord, d: Coord, k: int)
      reads game.board
      requires game.Shaped()
    {
      forall j | 1 <= j < k :: OnBoard(Step(o, d, j)) && game.SquareIsEmpty(Step(o, d, j))
    }

    /** t lies at most 6 steps along d from o, every square before it is empty, and t is
        empty or holds an enemy. */
    ghost predicate RayReaches(c: Color, o: Coord, d: Coord, t: Coord)
      reads game.board
      requires game.Shaped()
    {
      var k := Chebyshev(o, t);
      1 <= k < 7 && t == Step(o, d, k) && OnBoard(t) && RayClear(o, d, k) && CanMoveToOrCaptureOn(c, t)
    }

    ghost predicate RaysReach(c: Color, o: Coord, dirs: seq<Coord>, t: Coord)
      reads game.board
      requires game.Shaped()
    {
      exists i | 0 <= i < |dirs| :: RayReaches(c, o, dirs[i], t)
    }

    /** The movespace of a piece of ruleset `rs` and colour `c` standing on `o`. */
    ghost predicate InMovespace(ep: EnPassantTarget, rs: RuleSet, c: Color, o: Coord, t: Coord)
      reads game.board
      requires game.Shaped() && OnBoard(o)
    {
      match rs
      case Queen => RaysReach(c, o, BishopDirections, t) || RaysReach(c, o, RookDirections, t)
      case King => KingReaches(c, o, t)
      case Knight => KnightReaches(c, o, t)
      case Bishop => RaysReach(c, o, BishopDirections, t)
      case Rook => RaysReach(c, o, RookDirections, t)
      case Pawn => PawnThreatens(ep, c, o, t) || PawnAdvances(c, o, t)
    }

    /** Cell by cell, `g` is the movespace of that piece. */
    ghost predicate IsMovespace(g: array2<bool>, ep: EnPassantTarget, rs: RuleSet, c: Color, o: Coord)
      reads g, game.board
      requires game.Shaped() && OnBoard(o)
    {
      g.Length0 == 8 && g.Length1 == 8
      && forall x, y {:trigger g[x, y]} | 0 <= x < 8 && 0 <= y < 8 :: g[x, y] == InMovespace(ep, rs, c, o, Coord(x, y))
    }

    // |-------------|
    // |-MOVESPACE-|
    // |-------------|

    predicate EPCheck(square: Coord): (r: bool)
      reads this
      ensures r <==> enPassantTarget == TargetAt(square)
    {
      match enPassantTarget
      case NoTarget => false
      case TargetAt(epTarg) => epTarg.x == square.x && epTarg.y == square.y
    }

    /** The cell-wise OR of two 8x8 grids. */
    method CombineBoolArrays(a1: array2<bool>, a2: array2<bool>) returns (r: array2<bool>)
      requires a1.Length0 == 8 && a1.Length1 == 8 && a2.Length0 == 8 && a2.Length1 == 8
      ensures fresh(r) && r.Length0 == 8 && r.Length1 == 8
      ensures forall x, y | 0 <= x < 8 && 0 <= y < 8 :: r[x, y] == (a1[x, y] || a2[x, y])
    {
      r := new bool[8, 8]((x, y) reads a1, a2 => 0 <= x < 8 && 0 <= y < 8 && (a1[x, y] || a2[x, y]));
    }

    /** Past the a ray's last square: every square before step n is empty, and step n is
        off the board, occupied, or the seventh. Then the ray reaches exactly the squares
        before step n and, if step n is a square a piece of `c` may end on, that square. */
    lemma RayCut(c: Color, o: Coord, d: Coord, n: int, t: Coord)
      requires game.Shaped() && UnitDir(d) && 1 <= n <= 7 && RayClear(o, d, n)
      requires n < 7 ==> !OnBoard(Step(o, d, n)) || !game.SquareIsEmpty(Step(o, d, n))
      ensures RayReaches(c, o, d, t) <==>
        Within(o, d, n, t) || (n < 7 && t == Step(o, d, n) && OnBoard(t) && CanMoveToOrCaptureOn(c, t))
    {
      var k := Chebyshev(o, t);
      StepDistance(o, d, n);
      assert RayReaches(c, o, d, t) ==> k <= n;
      if Within(o, d, n, t) {
        assert game.SquareIsEmpty(Step(o, d, k));
      }
    }

    /** A square reached from a prefix of the directions, or from the next one. */
    lemma RaysExtend(c: Color, o: Coord, dirs: seq<Coord>, i: int)
      requires game.Shaped() && 0 <= i < |dirs|
      ensures forall x, y {:trigger RaysReach(c, o, dirs[..i + 1], Coord(x, y))} | 0 <= x < 8 && 0 <= y < 8 ::
        RaysReach(c, o, dirs[..i + 1], Coord(x, y)) <==>
          RaysReach(c, o, dirs[..i], Coord(x, y)) || RayReaches(c, o, dirs[i], Coord(x, y))
    {
      forall x, y {:trigger RaysReach(c, o, dirs[..i + 1], Coord(x, y))} | 0 <= x < 8 && 0 <= y < 8
        ensures RaysReach(c, o, dirs[..i + 1], Coord(x, y)) <==>
          RaysReach(c, o, dirs[..i], Coord(x, y)) || RayReaches(c, o, dirs[i], Coord(x, y))
      {
        var t := Coord(x, y);
        if RaysReach(c, o, dirs[..i + 1], t) {
          var j :| 0 <= j < i + 1 && RayReaches(c, o, dirs[..i + 1][j], t);
          if j < i {
            assert dirs[..i][j] == dirs[j];
          }
        }
        if RayReaches(c, o, dirs[i], t) {
          assert dirs[..i + 1][i] == dirs[i];
        }
        if RaysReach(c, o, dirs[..i], t) {
          var j :| 0 <= j < i && RayReaches(c, o, dirs[..i][j], t);
          assert dirs[..i + 1][j] == dirs[j];
        }
      }
    }

    /** A ray is a run of consecutive squares: when it reaches its k-th square, every
        square before that one is empty and reached too. */
    lemma RayPrefix(c: Color, o: Coord, d: Coord, k: int, j: int)
      requires game.Shaped() && UnitDir(d) && 1 <= j < k && RayReaches(c, o, d, Step(o, d, k))
      ensures game.SquareIsEmpty(Step(o, d, j)) && RayReaches(c, o, d, Step(o, d, j))
    {
      StepDistance(o, d, k);
      StepDistance(o, d, j);
      assert OnBoard(Step(o, d, j)) && game.SquareIsEmpty(Step(o, d, j));
    }

    /** No movespace holds a square occupied by the mover's own side, unless that square
        is the en-passant target. */
    lemma MovespaceSparesOwnSide(ep: EnPassantTarget, rs: RuleSet, c: Color, o: Coord, t: Coord)
      requires game.Shaped() && OnBoard(o) && OnBoard(t) && ep != TargetAt(t)
      requires game.board[t.x, t.y].Occupied? && game.board[t.x, t.y].piece.color == c
      ensures !InMovespace(ep, rs, c, o, t)
    {
    }

    /** What a pawn's movespace says about a king's square. An occupied square (a king
        standing there) is never one of its advances. On an empty square other than the
        en-passant target, the movespace is exactly the advances. */
    lemma PawnMovespaceAt(ep: EnPassantTarget, c: Color, o: Coord, t: Coord)
      requires game.Shaped() && OnBoard(o) && OnBoard(t)
      ensures game.board[t.x, t.y].Occupied? ==> !PawnAdvances(c, o, t)
      ensures game.SquareIsEmpty(t) && ep != TargetAt(t) ==> (InMovespace(ep, Pawn, c, o, t) <==> PawnAdvances(c, o, t))
    {
    }

    /** An enemy pawn's advances never restrict where a king may step. A pawn advances only
        along its own column, and the filter of moveAvoidsCheck drops every opponent on the
        target's column, so no kept opponent's advance reaches the target. */
    lemma PawnAdvancesNeverCount(f: Forces, turn: Color, t: Coord)
      requires game.Shaped() && OnBoard(t)
      ensures var kept := OffLinesAt(f.Of(Other(turn)), t);
        forall j | 0 <= j < |kept| && OnBoard(kept[j].at) :: !PawnAdvances(kept[j].color, kept[j].at, t)
    {
      OffLinesAtMembers(f.Of(Other(turn)), t);
    }

    /** One more empty square extends a clear ray. */
    lemma RayClearNext(o: Coord, d: Coord, n: int)
      requires game.Shaped() && RayClear(o, d, n) && OnBoard(Step(o, d, n)) && game.SquareIsEmpty(Step(o, d, n))
      ensures RayClear(o, d, n + 1)
    {
    }

    /** The squares before step n + 1 are those before step n and step n itself. */
    lemma WithinNext(o: Coord, d: Coord, n: int)
      requires UnitDir(d) && 1 <= n
      ensures forall x, y {:trigger Within(o, d, n + 1, Coord(x, y))} | 0 <= x < 8 && 0 <= y < 8 ::
        Within(o, d, n + 1, Coord(x, y)) <==> Within(o, d, n, Coord(x, y)) || Coord(x, y) == Step(o, d, n)
    {
      StepDistance(o, d, n);
    }

    /** Walks one direction from `atSquare` (the inner loop of directionalThreatSearch,
        which restarts from `atSquare` for every direction): marks the squares up to and
        including the first occupied one when it holds an enemy, for at most 6 steps, and
        leaves every other cell as it was. */
    method SearchDirection(threats: array2<bool>, color: Color, atSquare: Coord, dir: Coord)
      requires game.Shaped() && UnitDir(dir) && threats.Length0 == 8 && threats.Length1 == 8
      modifies threats
      ensures forall x, y {:trigger threats[x, y]} | 0 <= x < 8 && 0 <= y < 8 ::
        threats[x, y] == (old(threats[x, y]) || RayReaches(color, atSquare, dir, Coord(x, y)))
    {
      var threatenedSquare := atSquare;
      var squareContents: Square := Empty;
      ghost var cut, marked := 7, false;
      for length := 1 to 7
        invariant threatenedSquare == Step(atSquare, dir, length - 1)
        invariant RayClear(atSquare, dir, length)
        invariant forall x, y {:trigger threats[x, y]} | 0 <= x < 8 && 0 <= y < 8 ::
          threats[x, y] == (old(threats[x, y]) || Within(atSquare, dir, length, Coord(x, y)))
      {
        label Head:
        StepNext(atSquare, dir, length - 1);
        threatenedSquare := Coord(threatenedSquare.x + dir.x, threatenedSquare.y + dir.y);
        if !InBounds(threatenedSquare) {
          cut := length;
          break;
        }
        squareContents := game.GetSquareAt(threatenedSquare);
        if squareContents != Empty {
          cut := length;
          if squareContents.piece.color == color {
            break;
          }
          threats[threatenedSquare.x, threatenedSquare.y] := true;
          marked := true;
          forall x, y {:trigger threats[x, y]} | 0 <= x < 8 && 0 <= y < 8
            ensures threats[x, y] == (old(threats[x, y]) || Within(atSquare, dir, cut, Coord(x, y)) || Coord(x, y) == Step(atSquare, dir, cut))
          {
            if Coord(x, y) != threatenedSquare {
              assert threats[x, y] == old@Head(threats[x, y]);
            }
          }
          break;
        }
        threats[threatenedSquare.x, threatenedSquare.y] := true;
        RayClearNext(atSquare, dir, length);
        WithinNext(atSquare, dir, length);
      }
      WalkMarksRay(Walk(threats, color, atSquare, dir, cut, marked));
    }

    /** A walk along one direction that stopped at step `cut`, having marked the squares
        before it and, when `marked`, the stopping square. */
    ghost predicate Stopped(w: Walk)
      reads w.grid, game.board
      requires game.Shaped()
    {
      && UnitDir(w.dir) && 1 <= w.cut <= 7 && RayClear(w.origin, w.dir, w.cut)
      && (w.cut < 7 ==> !OnBoard(Step(w.origin, w.dir, w.cut)) || !game.SquareIsEmpty(Step(w.origin, w.dir, w.cut)))
      && (w.marked <==> w.cut < 7 && OnBoard(Step(w.origin, w.dir, w.cut)) && CanMoveToOrCaptureOn(w.color, Step(w.origin, w.dir, w.cut)))
      && w.grid.Length0 == 8 && w.grid.Length1 == 8
    }

    /** What such a walk added to the grid is exactly the ray. */
    twostate lemma WalkMarksRay(w: Walk)
      requires game.Shaped() && Stopped(w)
      requires forall x, y {:trigger w.grid[x, y]} | 0 <= x < 8 && 0 <= y < 8 ::
        w.grid[x, y] == (old(w.grid[x, y]) || Within(w.origin, w.dir, w.cut, Coord(x, y)) || (w.marked && Coord(x, y) == Step(w.origin, w.dir, w.cut)))
      ensures forall x, y {:trigger w.grid[x, y]} | 0 <= x < 8 && 0 <= y < 8 ::
        w.grid[x, y] == (old(w.grid[x, y]) || RayReaches(w.color, w.origin, w.dir, Coord(x, y)))
    {
      forall x, y {:trigger w.grid[x, y]} | 0 <= x < 8 && 0 <= y < 8
        ensures w.grid[x, y] == (old(w.grid[x, y]) || RayReaches(w.color, w.origin, w.dir, Coord(x, y)))
      {
        RayCut(w.color, w.origin, w.dir, w.cut, Coord(x, y));
      }
    }

    /** Cell by cell, the union of the rays from `atSquare` along each direction. */
    method DirectionalThreatSearch(color: Color, atSquare: Coord, threatDirections: seq<Coord>)
      returns (threats: array2<bool>)
      requires game.Shaped() && UnitDirs(threatDirections)
      ensures fresh(threats) && threats.Length0 == 8 && threats.Length1 == 8
      ensures forall x, y {:trigger threats[x, y]} | 0 <= x < 8 && 0 <= y < 8 ::
        threats[x, y] == RaysReach(color, atSquare, threatDirections, Coord(x, y))
    {
      threats := game.GetEmptyMoveBoard();
      for i := 0 to |threatDirections|
        invariant forall x, y {:trigger threats[x, y]} | 0 <= x < 8 && 0 <= y < 8 ::
          threats[x, y] == RaysReach(color, atSquare, threatDirections[..i], Coord(x, y))
      {
        SearchDirection(threats, color, atSquare, threatDirections[i]);
        RaysExtend(color, atSquare, threatDirections, i);
      }
      assert threatDirections[..|threatDirections|] == threatDirections;
    }

    /** Marks each in-bounds forward diagonal that holds an enemy or is the en-passant
        target. */
    method PawnThreats(color: Color, atSquare: Coord) returns (threats: array2<bool>)
      requires game.Shaped()
      ensures fresh(threats) && threats.Length0 == 8 && threats.Length1 == 8
      ensures forall x, y {:trigger threats[x, y]} | 0 <= x < 8 && 0 <= y < 8 ::
        threats[x, y] == PawnThreatens(enPassantTarget, color, atSquare, Coord(x, y))
    {
      threats := game.GetEmptyMoveBoard();
      var facingDirection := 1;
      if color == B {
        facingDirection := -1;
      }
      var threatSquares := [Coord(atSquare.x + 1, atSquare.y + facingDirection),
                            Coord(atSquare.x - 1, atSquare.y + facingDirection)];
      for k := 0 to 2
        invariant forall x, y {:trigger threats[x, y]} | 0 <= x < 8 && 0 <= y < 8 ::
          threats[x, y] == (Coord(x, y) in threatSquares[..k] && PawnThreatens(enPassantTarget, color, atSquare, Coord(x, y)))
      {
        var threat := threatSquares[k];
        if InBounds(threat) {
          if game.SquareHasEnemy(color, threat) || EPCheck(threat) {
            threats[threat.x, threat.y] := true;
          }
        }
        assert threatSquares[..k + 1] == threatSquares[..k] + [threat];
      }
      assert forall t | PawnThreatens(enPassantTarget, color, atSquare, t) :: t in threatSquares;
    }

    /** Marks the square one ahead if it is empty, and the square two ahead if that one is
        empty too and the pawn stands on its starting row. The source writes the one-ahead
        cell without checking that it lies on the board; that write is modelled as the
        guarded write it amounts to (an index past the grid in the source's nested arrays,
        which no reader of the grid looks at). */
    method PawnMoves(color: Color, atSquare: Coord) returns (moves: array2<bool>)
      requires game.Shaped() && OnBoard(atSquare)
      ensures fresh(moves) && moves.Length0 == 8 && moves.Length1 == 8
      ensures forall x, y {:trigger moves[x, y]} | 0 <= x < 8 && 0 <= y < 8 ::
        moves[x, y] == PawnAdvances(color, atSquare, Coord(x, y))
    {
      moves := game.GetEmptyMoveBoard();
      var facingDirection := 1;
      if color == B {
        facingDirection := -1;
      }
      var curX := atSquare.x;
      var curY := atSquare.y + facingDirection;
      if InBounds(Coord(curX, curY)) && !game.SquareIsEmpty(Coord(curX, curY)) {
        return;
      }
      if InBounds(Coord(curX, curY)) {
        moves[curX, curY] := true;
      }
      curY := curY + facingDirection;
      if InBounds(Coord(curX, curY)) && PawnHasNotMoved(color, atSquare) && game.SquareIsEmpty(Coord(curX, curY)) {
        moves[curX, curY] := true;
      }
    }

    /** Visits the eight knight jumps in KnightOrder and sets each in-bounds one to whether
        a piece of `color` may end there. */
    method KnightThreats(color: Color, atSquare: Coord) returns (threats: array2<bool>)
      requires game.Shaped()
      ensures fresh(threats) && threats.Length0 == 8 && threats.Length1 == 8
      ensures forall x, y {:trigger threats[x, y]} | 0 <= x < 8 && 0 <= y < 8 ::
        threats[x, y] == KnightReaches(color, atSquare, Coord(x, y))
    {
      threats := game.GetEmptyMoveBoard();
      var horizStep := -1;
      while horizStep <= 1
        invariant horizStep == -1 || horizStep == 1 || horizStep == 3
        invariant forall x, y {:trigger threats[x, y]} | 0 <= x < 8 && 0 <= y < 8 ::
          threats[x, y] == (KnightReaches(color, atSquare, Coord(x, y)) && KnightRank(atSquare, Coord(x, y)) < KnightOrder(horizStep, -1, 0))
      {
        var vertStep := -1;
        while vertStep <= 1
          invariant vertStep == -1 || vertStep == 1 || vertStep == 3
          invariant forall x, y {:trigger threats[x, y]} | 0 <= x < 8 && 0 <= y < 8 ::
            threats[x, y] == (KnightReaches(color, atSquare, Coord(x, y)) && KnightRank(atSquare, Coord(x, y)) < KnightOrder(horizStep, vertStep, 0))
        {
          var curThreats := [Coord(atSquare.x + 2 * horizStep, atSquare.y + vertStep),
                             Coord(atSquare.x + horizStep, atSquare.y + 2 * vertStep)];
          for k := 0 to 2
            invariant forall x, y {:trigger threats[x, y]} | 0 <= x < 8 && 0 <= y < 8 ::
              threats[x, y] == (KnightReaches(color, atSquare, Coord(x, y)) && KnightRank(atSquare, Coord(x, y)) < KnightOrder(horizStep, vertStep, k))
          {
            var square := curThreats[k];
            assert KnightRank(atSquare, square) == KnightOrder(horizStep, vertStep, k);
            if InBounds(square) {
              threats[square.x, square.y] := CanMoveToOrCaptureOn(color, square);
            }
          }
          vertStep := vertStep + 2;
        }
        horizStep := horizStep + 2;
      }
    }

    /** Sets each in-bounds square within one step to whether a piece of `color` may end
        there, then clears the king's own square. */
    method KingThreats(color: Color, atSquare: Coord) returns (threats: array2<bool>)
      requires game.Shaped() && OnBoard(atSquare)
      ensures fresh(threats) && threats.Length0 == 8 && threats.Length1 == 8
      ensures forall x, y {:trigger threats[x, y]} | 0 <= x < 8 && 0 <= y < 8 ::
        threats[x, y] == KingReaches(color, atSquare, Coord(x, y))
    {
      threats := game.GetEmptyMoveBoard();
      for i := -1 to 2
        invariant forall x, y {:trigger threats[x, y]} | 0 <= x < 8 && 0 <= y < 8 ::
          threats[x, y] == (KingStep(atSquare, Coord(x, y)) && CanMoveToOrCaptureOn(color, Coord(x, y)) && x - atSquare.x < i)
      {
        for j := -1 to 2
          invariant forall x, y {:trigger threats[x, y]} | 0 <= x < 8 && 0 <= y < 8 ::
            threats[x, y] == (KingStep(atSquare, Coord(x, y)) && CanMoveToOrCaptureOn(color, Coord(x, y))
                              && (x - atSquare.x < i || (x - atSquare.x == i && y - atSquare.y < j)))
        {
          var curX := atSquare.x + i;
          var curY := atSquare.y + j;
          if InBounds(Coord(curX, curY)) {
            threats[curX, curY] := CanMoveToOrCaptureOn(color, Coord(curX, curY));
          }
        }
      }
      threats[atSquare.x, atSquare.y] := false;
    }

    /** The movespace of a bishop: its four diagonal rays. */
    method BishopThreats(color: Color, atSquare: Coord) returns (threats: array2<bool>)
      requires game.Shaped()
      ensures fresh(threats) && threats.Length0 == 8 && threats.Length1 == 8
      ensures forall x, y {:trigger threats[x, y]} | 0 <= x < 8 && 0 <= y < 8 ::
        threats[x, y] == RaysReach(color, atSquare, BishopDirections, Coord(x, y))
    {
      threats := DirectionalThreatSearch(color, atSquare, BishopDirections);
    }

    /** The movespace of a rook: its four straight rays. */
    method RookThreats(color: Color, atSquare: Coord) returns (threats: array2<bool>)
      requires game.Shaped()
      ensures fresh(threats) && threats.Length0 == 8 && threats.Length1 == 8
      ensures forall x, y {:trigger threats[x, y]} | 0 <= x < 8 && 0 <= y < 8 ::
        threats[x, y] == RaysReach(color, atSquare, RookDirections, Coord(x, y))
    {
      threats := DirectionalThreatSearch(color, atSquare, RookDirections);
    }

    /** The movespace of a queen: cell by cell, the bishop's or the rook's. */
    method QueenThreats(color: Color, atSquare: Coord) returns (threats: array2<bool>)
      requires game.Shaped()
      ensures fresh(threats) && threats.Length0 == 8 && threats.Length1 == 8
      ensures forall x, y {:trigger threats[x, y]} | 0 <= x < 8 && 0 <= y < 8 ::
        threats[x, y] == (RaysReach(color, atSquare, BishopDirections, Coord(x, y))
                          || RaysReach(color, atSquare, RookDirections, Coord(x, y)))
    {
      var bishop := BishopThreats(color, atSquare);
      var rook := RookThreats(color, atSquare);
      threats := CombineBoolArrays(bishop, rook);
    }

    /** The movespace of a piece standing on the cell its coordinates name. */
    method GetMovespaceOf(piece: Piece) returns (moves: array2<bool>)
      requires game.Shaped() && OnBoard(Coord(piece.x, piece.y))
      ensures fresh(moves)
      ensures IsMovespace(moves, enPassantTarget, piece.ruleSet, piece.color, Coord(piece.x, piece.y))
    {
      var origin := Coord(piece.x, piece.y);
      match piece.ruleSet
      case Queen => moves := QueenThreats(piece.color, origin);
      case King => moves := KingThreats(piece.color, origin);
      case Knight => moves := KnightThreats(piece.color, origin);
      case Bishop => moves := BishopThreats(piece.color, origin);
      case Rook => moves := RookThreats(piece.color, origin);
      case Pawn =>
        var threats := PawnThreats(piece.color, origin);
        var advances := PawnMoves(piece.color, origin);
        moves := CombineBoolArrays(threats, advances);
    }

    // |------------|
    // |-LEGALITY-|
    // |------------|

    /** No piece of `ops` has `sq` in its movespace on the live board. Every piece the
        model hands in stands on the board; the guard only keeps the question defined. */
    ghost predicate Unthreatened(ep: EnPassantTarget, ops: seq<Placed>, sq: Coord)
      reads game.board
      requires game.Shaped()
    {
      forall j | 0 <= j < |ops| ::
        OnBoard(ops[j].at) ==> !InMovespace(ep, ops[j].ruleSet, ops[j].color, ops[j].at, sq)
    }

    /** With the pieces standing as in `f`, the move of a `rs` piece of the side `turn` to
        `target` avoids check as moveAvoidsCheck decides it: no opponent that stands off
        the target's row and column has, on the live board, the square of the side's king
        in its movespace (the king's square is the target when the king itself moves). */
    ghost predicate AvoidsCheck(f: Forces, ep: EnPassantTarget, turn: Color, rs: RuleSet, target: Coord)
      reads game.board
      requires game.Shaped() && OnBoard(target)
    {
      var kingLocation := if rs == King then target else f.KingOf(turn);
      Unthreatened(ep, OffLinesAt(f.Of(Other(turn)), target), kingLocation)
    }

    /** The side `turn` is in check: the induced-check test fails for its king standing
        still. */
    ghost predicate InCheck(f: Forces, ep: EnPassantTarget, turn: Color)
      reads game.board
      requires game.Shaped()
    {
      OnBoard(f.KingOf(turn)) && !AvoidsCheck(f, ep, turn, King, f.KingOf(turn))
    }

    /** Only an opponent standing off both the king's row and its column can give check,
        so a rook or queen attacking along the king's own row or column is never seen. */
    lemma CheckOnlyFromOffLines(f: Forces, ep: EnPassantTarget, turn: Color)
      requires game.Shaped()
      ensures InCheck(f, ep, turn) ==>
        exists q | q in f.Of(Other(turn)) ::
          && q.at.x != f.KingOf(turn).x && q.at.y != f.KingOf(turn).y && OnBoard(q.at)
          && InMovespace(ep, q.ruleSet, q.color, q.at, f.KingOf(turn))
    {
      var ops, k := f.Of(Other(turn)), f.KingOf(turn);
      if InCheck(f, ep, turn) {
        var kept := OffLinesAt(ops, k);
        var j :| 0 <= j < |kept| && OnBoard(kept[j].at) && InMovespace(ep, kept[j].ruleSet, kept[j].color, kept[j].at, k);
        OffLinesAtMembers(ops, k);
        assert kept[j] in ops;
      }
    }

    /** `t` is a legal destination for the piece `q` when `turn` is to move: it is in q's
        movespace and the move avoids check. */
    ghost predicate LegalAt(f: Forces, ep: EnPassantTarget, turn: Color, q: Placed, t: Coord)
      reads game.board
      requires game.Shaped() && OnBoard(q.at) && OnBoard(t)
    {
      InMovespace(ep, q.ruleSet, q.color, q.at, t) && AvoidsCheck(f, ep, turn, q.ruleSet, t)
    }

    /** `t` is a legal destination for the piece `p` as it stands now. */
    ghost predicate Legal(f: Forces, ep: EnPassantTarget, turn: Color, p: Piece, t: Coord)
      reads game.board, p
      requires game.Shaped() && OnBoard(Coord(p.x, p.y)) && OnBoard(t)
    {
      LegalAt(f, ep, turn, Placed(p.ruleSet, p.color, Coord(p.x, p.y)), t)
    }

    /** Some piece of the side `turn`, as the pieces stand in `f`, has a legal destination. */
    ghost predicate HasLegalMove(f: Forces, ep: EnPassantTarget, turn: Color)
      reads game.board
      requires game.Shaped()
    {
      exists i, x, y | 0 <= i < |f.Of(turn)| && OnBoard(f.Of(turn)[i].at) && 0 <= x < 8 && 0 <= y < 8 ::
        LegalAt(f, ep, turn, f.Of(turn)[i], Coord(x, y))
    }

    /** Cell by cell, `g` holds the legal destinations of `p`. */
    ghost predicate LegalGrid(g: array2<bool>, f: Forces, ep: EnPassantTarget, turn: Color, p: Piece)
      reads g, game.board, p
      requires game.Shaped() && OnBoard(Coord(p.x, p.y))
    {
      g.Length0 == 8 && g.Length1 == 8
      && forall x, y {:trigger g[x, y]} | 0 <= x < 8 && 0 <= y < 8 :: g[x, y] == Legal(f, ep, turn, p, Coord(x, y))
    }

    /** The induced-check test reads only the board: while its cells stay, so does the
        answer, for every snapshot of the pieces. */
    twostate lemma AvoidsCheckFrame()
      requires game.Shaped() && unchanged(game.board)
      ensures forall f, ep, turn, rs, t {:trigger AvoidsCheck(f, ep, turn, rs, t)} | OnBoard(t) ::
        old(AvoidsCheck(f, ep, turn, rs, t)) == AvoidsCheck(f, ep, turn, rs, t)
    {
    }

    /** Legality of the moves of `p` stays while the board and `p` stay. */
    twostate lemma LegalFrame(p: Piece)
      requires game.Shaped() && unchanged(game.board) && unchanged(p)
      ensures forall f, ep, turn, x, y {:trigger Legal(f, ep, turn, p, Coord(x, y))}
        | OnBoard(Coord(p.x, p.y)) && 0 <= x < 8 && 0 <= y < 8 ::
        old(Legal(f, ep, turn, p, Coord(x, y))) == Legal(f, ep, turn, p, Coord(x, y))
    {
    }

    /** When the pieces stand inside the board, so does each piece of a side's
        getAllPiecesOf list. */
    lemma PiecesInBounds(color: Color)
      requires game.Deployment().Inside()
      ensures forall p {:trigger p in game.GetAllPiecesOf(color)} | p in game.GetAllPiecesOf(color) :: OnBoard(Coord(p.x, p.y))
    {
      var s := game.GetAllPiecesOf(color);
      assert game.Deployment().Of(color) == Placements(s);
      forall p {:trigger p in s} | p in s ensures OnBoard(Coord(p.x, p.y)) {
        var i :| 0 <= i < |s| && s[i] == p;
        assert Placements(s)[i].at == Coord(p.x, p.y);
      }
    }

    function CurrentOpponent(): (r: Color)
      reads this
      ensures r != whoseTurn
    {
      if whoseTurn == W then B else W
    }

    /** The loop at the end of moveAvoidsCheck: true when no piece of `opponentsPieces`
        has `kingLocation` in its movespace, stopping at the first one that has. */
    method KingLocationSafe(opponentsPieces: seq<Piece>, kingLocation: Coord) returns (r: bool)
      requires game.Shaped() && OnBoard(kingLocation)
      requires forall p {:trigger p in opponentsPieces} | p in opponentsPieces :: OnBoard(Coord(p.x, p.y))
      ensures r == Unthreatened(enPassantTarget, Placements(opponentsPieces), kingLocation)
    {
      ghost var ops := Placements(opponentsPieces);
      for i := 0 to |opponentsPieces|
        invariant forall p {:trigger p in opponentsPieces} | p in opponentsPieces :: unchanged(p)
        invariant forall j | 0 <= j < i ::
          old(OnBoard(ops[j].at) ==> !InMovespace(enPassantTarget, ops[j].ruleSet, ops[j].color, ops[j].at, kingLocation))
      {
        var opPiece := opponentsPieces[i];
        assert opPiece in opponentsPieces;
        var curThreats := GetMovespaceOf(opPiece);
        assert curThreats[kingLocation.x, kingLocation.y] ==
          old(InMovespace(enPassantTarget, ops[i].ruleSet, ops[i].color, ops[i].at, kingLocation));
        if curThreats[kingLocation.x, kingLocation.y] {
          PlacementsFrame(opponentsPieces);
          return false;
        }
      }
      PlacementsFrame(opponentsPieces);
      return true;
    }

    /** The induced-check test. The source also fills a deep copy of the board with the
        move played; nothing reads that copy afterwards, and the opponents' movespaces are
        computed on the live board. */
    method MoveAvoidsCheck(piece: Piece, target: Coord) returns (r: bool)
      requires game.Shaped() && game.Deployment().Inside() && OnBoard(Coord(piece.x, piece.y)) && OnBoard(target)
      ensures r == AvoidsCheck(game.Deployment(), enPassantTarget, whoseTurn, piece.ruleSet, target)
    {
      ghost var forces := game.Deployment();
      PiecesInBounds(Other(whoseTurn));
      var king := game.GetKingOf(whoseTurn);
      var kingLocation := Coord(king.x, king.y);
      var opponentsPieces := game.GetAllPiecesOf(CurrentOpponent());
      opponentsPieces := OffLines(opponentsPieces, target);
      game.DeploymentFrame();
      PlacementsOffLines(game.GetAllPiecesOf(Other(whoseTurn)), target);
      ghost var ops := Placements(opponentsPieces);
      assert ops == OffLinesAt(forces.Of(Other(whoseTurn)), target);
      label Ready:
      var testBoard := TestBoardWithMove(piece, target);
      if piece.ruleSet == King {
        kingLocation := target;
      }
      r := KingLocationSafe(opponentsPieces, kingLocation);
      PlacementsFrame@Ready(opponentsPieces);
      game.DeploymentFrame();
    }

    /** The simulation board of moveAvoidsCheck: a deep copy of the live board with the
        piece's origin emptied and, on the target, a fresh copy of the piece that records
        the target as its coordinates. */
    method TestBoardWithMove(piece: Piece, target: Coord) returns (testBoard: array2<Square>)
      requires game.Shaped() && OnBoard(Coord(piece.x, piece.y)) && OnBoard(target)
      ensures fresh(testBoard) && testBoard.Length0 == 8 && testBoard.Length1 == 8
      ensures testBoard[piece.x, piece.y] == Empty || (piece.x, piece.y) == (target.x, target.y)
      ensures testBoard[target.x, target.y].Occupied? && fresh(testBoard[target.x, target.y].piece)
      ensures testBoard[target.x, target.y].piece.ruleSet == piece.ruleSet
      ensures testBoard[target.x, target.y].piece.color == piece.color
      ensures testBoard[target.x, target.y].piece.x == target.x && testBoard[target.x, target.y].piece.y == target.y
      ensures forall x, y {:trigger testBoard[x, y]} | 0 <= x < 8 && 0 <= y < 8 && (x, y) != (piece.x, piece.y) && (x, y) != (target.x, target.y) ::
        Game.ChessBoard.CopyOf(testBoard[x, y], game.board[x, y]) && (testBoard[x, y].Occupied? ==> fresh(testBoard[x, y].piece))
    {
      var origin := Coord(piece.x, piece.y);
      testBoard := game.GetTestBoard();
      var testPiece := new Piece(piece.ruleSet, piece.color, target.x, target.y);
      testBoard[origin.x, origin.y] := Empty;
      testBoard[target.x, target.y] := Occupied(testPiece);
    }

    /** The induced-check answers for every cell of the board, column by column: a value
        the filter's loops compare against. */
    lemma CheckAnswers(f: Forces, ep: EnPassantTarget, turn: Color, rs: RuleSet) returns (want: seq<seq<bool>>)
      requires game.Shaped()
      ensures |want| == 8 && forall x {:trigger want[x]} | 0 <= x < 8 :: |want[x]| == 8
      ensures forall x, y {:trigger AvoidsCheck(f, ep, turn, rs, Coord(x, y))} | 0 <= x < 8 && 0 <= y < 8 ::
        want[x][y] == AvoidsCheck(f, ep, turn, rs, Coord(x, y))
    {
      want := seq(8, x reads game.board => seq(8, y reads game.board => 0 <= x < 8 && 0 <= y < 8 && AvoidsCheck(f, ep, turn, rs, Coord(x, y))));
    }

    /** Keeps a candidate cell only if moving there avoids check; cells already false stay
        false, so the result is a subset of the candidates. The source returns the same grid
        it was given. */
    method InducedCheckFilter(piece: Piece, candidateMoves: array2<bool>)
      requires game.Shaped() && game.Deployment().Inside() && OnBoard(Coord(piece.x, piece.y))
      requires candidateMoves.Length0 == 8 && candidateMoves.Length1 == 8
      modifies candidateMoves
      ensures forall x, y {:trigger candidateMoves[x, y]} | 0 <= x < 8 && 0 <= y < 8 ::
        candidateMoves[x, y] == old(candidateMoves[x, y] && AvoidsCheck(game.Deployment(), enPassantTarget, whoseTurn, piece.ruleSet, Coord(x, y)))
    {
      ghost var forces := game.Deployment();
      ghost var want := CheckAnswers(forces, enPassantTarget, whoseTurn, piece.ruleSet);
      for x := 0 to 8
        invariant unchanged(game.white, game.black, game.white.king, game.black.king)
        invariant forall p {:trigger p in game.white.subjects} | p in game.white.subjects :: unchanged(p)
        invariant forall p {:trigger p in game.black.subjects} | p in game.black.subjects :: unchanged(p)
        invariant forall x', y {:trigger candidateMoves[x', y]} | 0 <= x' < x && 0 <= y < 8 ::
          candidateMoves[x', y] == (old(candidateMoves[x', y]) && want[x'][y])
        invariant forall x', y {:trigger candidateMoves[x', y]} | x <= x' < 8 && 0 <= y < 8 ::
          candidateMoves[x', y] == old(candidateMoves[x', y])
      {
        game.DeploymentFrame();
        AvoidsCheckFrame();
        FilterColumn(piece, candidateMoves, x, want[x]);
      }
    }

    /** The inner loop of inducedCheckFilter, over the cells of column `x`; `want` holds
        the column's induced-check answers on the current board. */
    method FilterColumn(piece: Piece, candidateMoves: array2<bool>, x: int, ghost want: seq<bool>)
      requires game.Shaped() && game.Deployment().Inside() && OnBoard(Coord(piece.x, piece.y)) && 0 <= x < 8
      requires candidateMoves.Length0 == 8 && candidateMoves.Length1 == 8 && |want| == 8
      requires forall y {:trigger AvoidsCheck(game.Deployment(), enPassantTarget, whoseTurn, piece.ruleSet, Coord(x, y))} | 0 <= y < 8 ::
        want[y] == AvoidsCheck(game.Deployment(), enPassantTarget, whoseTurn, piece.ruleSet, Coord(x, y))
      modifies candidateMoves
      ensures forall y {:trigger candidateMoves[x, y]} | 0 <= y < 8 ::
        candidateMoves[x, y] == (old(candidateMoves[x, y]) && want[y])
      ensures forall x', y {:trigger candidateMoves[x', y]} | 0 <= x' < 8 && 0 <= y < 8 && x' != x ::
        candidateMoves[x', y] == old(candidateMoves[x', y])
    {
      for y := 0 to 8
        invariant unchanged(game.white, game.black, game.white.king, game.black.king)
        invariant forall p {:trigger p in game.white.subjects} | p in game.white.subjects :: unchanged(p)
        invariant forall p {:trigger p in game.black.subjects} | p in game.black.subjects :: unchanged(p)
        invariant forall y' {:trigger candidateMoves[x, y']} | 0 <= y' < y ::
          candidateMoves[x, y'] == (old(candidateMoves[x, y']) && want[y'])
        invariant forall x', y' {:trigger candidateMoves[x', y']} | 0 <= x' < 8 && 0 <= y' < 8 && (x' != x || y' >= y) ::
          candidateMoves[x', y'] == old(candidateMoves[x', y'])
      {
        if candidateMoves[x, y] {
          game.DeploymentFrame();
          var avoids := MoveAvoidsCheck(piece, Coord(x, y));
          game.DeploymentFrame();
          AvoidsCheckFrame();
          assert avoids == want[y];
          candidateMoves[x, y] := avoids;
        }
      }
    }

    /** The conjunction of a non-empty list of flags, folded from the left as `reduce`
        without an initial value does (which fails on an empty list). */
    function AllOf(flags: seq<bool>): (r: bool)
      requires |flags| > 0
      ensures r <==> forall i | 0 <= i < |flags| :: flags[i]
    {
      if |flags| == 1 then flags[0] else AllOf(flags[..|flags| - 1]) && flags[|flags| - 1]
    }

    /** One entry of kingCanTraverse: the square is empty and the king moved there avoids
        check; the check runs only on an empty square. */
    method KingCanTraverse(king: Piece, square: Coord) returns (r: bool)
      requires game.Shaped() && game.Deployment().Inside() && OnBoard(Coord(king.x, king.y)) && OnBoard(square)
      ensures r == (game.SquareIsEmpty(square) && AvoidsCheck(game.Deployment(), enPassantTarget, whoseTurn, king.ruleSet, square))
    {
      r := game.SquareIsEmpty(square);
      if r {
        game.DeploymentFrame();
        r := MoveAvoidsCheck(king, square);
        game.DeploymentFrame();
        AvoidsCheckFrame();
      }
    }

    /** The king may pass over the given squares: each is empty and avoids check. */
    method IntermediateSquaresCheck(king: Piece, intermediateSquares: seq<Coord>) returns (r: bool)
      requires game.Shaped() && game.Deployment().Inside() && OnBoard(Coord(king.x, king.y)) && |intermediateSquares| > 0
      requires forall i | 0 <= i < |intermediateSquares| :: OnBoard(intermediateSquares[i])
      ensures r == SquaresClear(game.Deployment(), enPassantTarget, whoseTurn, king.ruleSet, intermediateSquares)
    {
      ghost var forces := game.Deployment();
      var kingCanTraverse: seq<bool> := [];
      for i := 0 to |intermediateSquares|
        invariant unchanged(game.white, game.black, game.white.king, game.black.king)
        invariant forall p {:trigger p in game.white.subjects} | p in game.white.subjects :: unchanged(p)
        invariant forall p {:trigger p in game.black.subjects} | p in game.black.subjects :: unchanged(p)
        invariant |kingCanTraverse| == i
        invariant forall j | 0 <= j < i ::
          kingCanTraverse[j] == old(game.SquareIsEmpty(intermediateSquares[j]) && AvoidsCheck(forces, enPassantTarget, whoseTurn, king.ruleSet, intermediateSquares[j]))
      {
        var canTraverse := KingCanTraverse(king, intermediateSquares[i]);
        game.DeploymentFrame();
        AvoidsCheckFrame();
        kingCanTraverse := kingCanTraverse + [canTraverse];
      }
      r := AllOf(kingCanTraverse);
      game.DeploymentFrame();
      AvoidsCheckFrame();
    }

    /** Each of the squares is empty, and a piece of kind `rs` moved there avoids check. */
    ghost predicate SquaresClear(f: Forces, ep: EnPassantTarget, turn: Color, rs: RuleSet, squares: seq<Coord>)
      reads game.board
      requires game.Shaped() && forall i | 0 <= i < |squares| :: OnBoard(squares[i])
    {
      forall i | 0 <= i < |squares| ::
        game.SquareIsEmpty(squares[i]) && AvoidsCheck(f, ep, turn, rs, squares[i])
    }

    /** The castling path from `lo` to `hi`, listed square by square, is clear exactly when
        each listed square is. */
    lemma PathClearListed(f: Forces, ep: EnPassantTarget, turn: Color, king: Piece, lo: int, hi: int, squares: seq<Coord>)
      requires game.Shaped() && 0 <= lo <= hi < 8 && 0 <= king.y < 8
      requires |squares| == hi - lo + 1 && forall i | 0 <= i < |squares| :: squares[i] == Coord(lo + i, king.y)
      ensures SquaresClear(f, ep, turn, king.ruleSet, squares) == PathClear(f, ep, turn, king, lo, hi)
    {
      if SquaresClear(f, ep, turn, king.ruleSet, squares) {
        forall x {:trigger game.SquareIsEmpty(Coord(x, king.y))} | lo <= x <= hi
          ensures game.SquareIsEmpty(Coord(x, king.y)) && AvoidsCheck(f, ep, turn, king.ruleSet, Coord(x, king.y))
        {
          assert squares[x - lo] == Coord(x, king.y);
        }
      }
      if PathClear(f, ep, turn, king, lo, hi) {
        forall i | 0 <= i < |squares|
          ensures game.SquareIsEmpty(squares[i]) && AvoidsCheck(f, ep, turn, king.ruleSet, squares[i])
        {
          assert squares[i] == Coord(lo + i, king.y);
        }
      }
    }

    /** Castling path: each column from `lo` to `hi` of the king's row is empty, and the
        king standing there avoids check. */
    ghost predicate PathClear(f: Forces, ep: EnPassantTarget, turn: Color, king: Piece, lo: int, hi: int)
      reads game.board, king
      requires game.Shaped() && 0 <= lo && hi < 8 && 0 <= king.y < 8
    {
      forall x {:trigger game.SquareIsEmpty(Coord(x, king.y))} | lo <= x <= hi ::
        game.SquareIsEmpty(Coord(x, king.y)) && AvoidsCheck(f, ep, turn, king.ruleSet, Coord(x, king.y))
    }

    /** The squares between the king and the kingside rook, columns 5 and 6 of its row. */
    method KingsideCastleCheck(king: Piece) returns (r: bool)
      requires game.Shaped() && game.Deployment().Inside() && OnBoard(Coord(king.x, king.y))
      ensures r == PathClear(game.Deployment(), enPassantTarget, whoseTurn, king, 5, 6)
    {
      var squares := [Coord(5, king.y), Coord(6, king.y)];
      r := IntermediateSquaresCheck(king, squares);
      PathClearListed(game.Deployment(), enPassantTarget, whoseTurn, king, 5, 6, squares);
    }

    /** The squares between the king and the queenside rook, columns 1 to 3 of its row. */
    method QueensideCastleCheck(king: Piece) returns (r: bool)
      requires game.Shaped() && game.Deployment().Inside() && OnBoard(Coord(king.x, king.y))
      ensures r == PathClear(game.Deployment(), enPassantTarget, whoseTurn, king, 1, 3)
    {
      var squares := [Coord(1, king.y), Coord(2, king.y), Coord(3, king.y)];
      r := IntermediateSquaresCheck(king, squares);
      PathClearListed(game.Deployment(), enPassantTarget, whoseTurn, king, 1, 3, squares);
    }

    /** The castling part of getLegalMovesOf: each check runs only while the king's side
        holds that right, and a side without the right answers false. */
    method CastlingChecks(king: Piece) returns (kingside: bool, queenside: bool)
      requires game.Shaped() && game.Deployment().Inside() && OnBoard(Coord(king.x, king.y))
      ensures kingside == (game.GetPlayer(king.color).hasKingsideCastleRights
        && PathClear(game.Deployment(), enPassantTarget, whoseTurn, king, 5, 6))
      ensures queenside == (game.GetPlayer(king.color).hasQueensideCastleRights
        && PathClear(game.Deployment(), enPassantTarget, whoseTurn, king, 1, 3))
    {
      var player := game.GetPlayer(king.color);
      kingside, queenside := false, false;
      if player.hasKingsideCastleRights {
        kingside := KingsideCastleCheck(king);
      }
      label Kingside:
      if player.hasQueensideCastleRights {
        queenside := QueensideCastleCheck(king);
        game.DeploymentFrame@Kingside();
        AvoidsCheckFrame@Kingside();
      }
    }

    /** The movespace of the piece, filtered by the induced-check test. For a king the two
        castling checks run when the side still holds that right, and their results are
        dropped: no castling destination is ever marked. */
    method GetLegalMovesOf(piece: Piece) returns (candidateMoves: array2<bool>)
      requires game.Shaped() && game.Deployment().Inside() && OnBoard(Coord(piece.x, piece.y))
      ensures fresh(candidateMoves)
      ensures LegalGrid(candidateMoves, game.Deployment(), enPassantTarget, whoseTurn, piece)
    {
      candidateMoves := GetMovespaceOf(piece);
      label Filter:
      InducedCheckFilter(piece, candidateMoves);
      assert forall x, y {:trigger candidateMoves[x, y]} | 0 <= x < 8 && 0 <= y < 8 ::
        candidateMoves[x, y] == old@Filter(Legal(game.Deployment(), enPassantTarget, whoseTurn, piece, Coord(x, y)));
      if piece.ruleSet == King {
        var kingside, queenside := CastlingChecks(piece);
      }
      game.DeploymentFrame@Filter();
      LegalFrame@Filter(piece);
    }

    /** The legal-move map for the given pieces, keyed by piece identity. */
    method CalcLegalMoves(pieces: seq<Piece>) returns (moves: map<Piece, array2<bool>>)
      requires game.Shaped() && game.Deployment().Inside() && forall p {:trigger p in pieces} | p in pieces :: OnBoard(Coord(p.x, p.y))
      ensures moves.Keys == Elements(pieces)
      ensures forall p | p in moves :: p in pieces && LegalGrid(moves[p], game.Deployment(), enPassantTarget, whoseTurn, p)
    {
      moves := map[];
      for i := 0 to |pieces|
        invariant moves.Keys == Elements(pieces[..i])
        invariant forall p | p in moves :: p in pieces && LegalGrid(moves[p], game.Deployment(), enPassantTarget, whoseTurn, p)
      {
        var piece := pieces[i];
        assert piece in pieces;
        var grid := GetLegalMovesOf(piece);
        moves := moves[piece := grid];
        assert pieces[..i + 1] == pieces[..i] + [piece];
      }
      assert pieces[..|pieces|] == pieces;
    }

    // |------------|
    // |-TURN STATE-|
    // |------------|

    /** The controller's invariant: the store is valid; no en-passant target is ever set; a
        selection is a piece of the side to move standing on its cell; and the legal-move map
        is that of the side to move (MapValid). */
    ghost predicate Valid()
      reads this, game.white, game.black, game.Repr(), currentPlayersLegalMoves.Keys, currentPlayersLegalMoves.Values
      reads if selection.Some? then {selection.value} else {}
    {
      && game.Valid()
      && enPassantTarget == NoTarget
      && (selection.Some? ==>
            var p := selection.value;
            p.color == whoseTurn && OnBoard(Coord(p.x, p.y)) && game.board[p.x, p.y] == Occupied(p))
      && MapValid()
    }

    /** The legal-move map holds, for each piece of the side to move, the grid of its legal
        destinations. */
    ghost predicate MapValid()
      reads this`currentPlayersLegalMoves, this`whoseTurn, this`enPassantTarget
      reads game.white, game.black, game.Repr(), currentPlayersLegalMoves.Keys, currentPlayersLegalMoves.Values
    {
      && game.Shaped()
      && currentPlayersLegalMoves.Keys == Elements(game.GetAllPiecesOf(whoseTurn))
      && GridsShaped()
      && forall p | p in currentPlayersLegalMoves ::
           OnBoard(Coord(p.x, p.y)) && LegalGrid(currentPlayersLegalMoves[p], game.Deployment(), enPassantTarget, whoseTurn, p)
    }

    /** The map's invariant survives any step that leaves the map, the turn, the
        en-passant target, the store and the grids as they were. */
    twostate lemma MapValidFrame()
      requires old(MapValid())
      requires unchanged(this`currentPlayersLegalMoves, this`whoseTurn, this`enPassantTarget)
      requires unchanged(game.white, game.black, game.board, game.white.king, game.black.king)
      requires forall p {:trigger p in game.white.subjects} | p in game.white.subjects :: unchanged(p)
      requires forall p {:trigger p in game.black.subjects} | p in game.black.subjects :: unchanged(p)
      requires forall g {:trigger g in currentPlayersLegalMoves.Values} | g in currentPlayersLegalMoves.Values :: unchanged(g)
      ensures MapValid()
    {
      game.DeploymentFrame();
      forall p | p in currentPlayersLegalMoves
        ensures OnBoard(Coord(p.x, p.y)) && LegalGrid(currentPlayersLegalMoves[p], game.Deployment(), enPassantTarget, whoseTurn, p)
      {
        assert p in game.GetAllPiecesOf(whoseTurn);
        assert currentPlayersLegalMoves[p] in currentPlayersLegalMoves.Values;
        LegalFrame(p);
      }
    }

    /** The whole invariant survives a step that changes at most the selection, to a
        piece of the side to move standing on its cell. */
    twostate lemma ValidFrame()
      requires old(Valid())
      requires unchanged(this`currentPlayersLegalMoves, this`whoseTurn, this`enPassantTarget)
      requires unchanged(game.white, game.black, game.board, game.white.king, game.black.king)
      requires forall p {:trigger p in game.white.subjects} | p in game.white.subjects :: unchanged(p)
      requires forall p {:trigger p in game.black.subjects} | p in game.black.subjects :: unchanged(p)
      requires forall g {:trigger g in currentPlayersLegalMoves.Values} | g in currentPlayersLegalMoves.Values :: unchanged(g)
      requires selection.Some? ==> var p := selection.value;
        p.color == whoseTurn && OnBoard(Coord(p.x, p.y)) && game.board[p.x, p.y] == Occupied(p)
      ensures Valid()
    {
      MapValidFrame();
    }

    /** Fills the legal-move map for the side to move, as the constructor and the commit
        branch of processInput do. */
    method RecomputeMoves()
      requires game.Valid() && enPassantTarget == NoTarget && selection == None
      modifies this`currentPlayersLegalMoves
      ensures Valid()
    {
      game.DeploymentInside();
      PiecesInBounds(whoseTurn);
      var moves := CalcLegalMoves(game.GetAllPiecesOf(whoseTurn));
      label Computed:
      currentPlayersLegalMoves := moves;
      game.DeploymentFrame@Computed();
      forall p | p in moves
        ensures OnBoard(Coord(p.x, p.y)) && LegalGrid(moves[p], game.Deployment(), enPassantTarget, whoseTurn, p)
      {
        LegalFrame@Computed(p);
      }
    }

    /** Every grid of the legal-move map is 8x8. */
    predicate GridsShaped()
      reads this`currentPlayersLegalMoves, currentPlayersLegalMoves.Values
    {
      forall p | p in currentPlayersLegalMoves ::
        currentPlayersLegalMoves[p].Length0 == 8 && currentPlayersLegalMoves[p].Length1 == 8
    }

    /** The map's cell for the piece and the destination; a piece without an entry has no
        legal move. */
    function MoveIsLegal(piece: Piece, dest: Coord): (r: bool)
      reads this, currentPlayersLegalMoves.Values
      requires GridsShaped() && OnBoard(dest)
      ensures piece !in currentPlayersLegalMoves ==> !r
    {
      if piece in currentPlayersLegalMoves then currentPlayersLegalMoves[piece][dest.x, dest.y] else false
    }

    /** Under the invariant, the map answers the legality question: a move is legal for the
        map exactly when the piece belongs to the side to move and the destination is in its
        movespace and avoids check. */
    lemma MoveIsLegalMeans(piece: Piece, dest: Coord)
      requires Valid() && OnBoard(dest)
      ensures GridsShaped()
      ensures MoveIsLegal(piece, dest) <==>
        piece in game.GetAllPiecesOf(whoseTurn) && OnBoard(Coord(piece.x, piece.y))
        && Legal(game.Deployment(), enPassantTarget, whoseTurn, piece, dest)
    {
      if piece in game.GetAllPiecesOf(whoseTurn) {
        assert piece in currentPlayersLegalMoves;
      }
    }

    /** A move the map allows never lands on a piece of the side to move. */
    lemma LegalMoveSparesOwnSide(piece: Piece, dest: Coord)
      requires Valid() && OnBoard(dest)
      ensures GridsShaped()
      ensures MoveIsLegal(piece, dest) ==>
        !(game.board[dest.x, dest.y].Occupied? && game.board[dest.x, dest.y].piece.color == whoseTurn)
    {
      MoveIsLegalMeans(piece, dest);
      if MoveIsLegal(piece, dest) {
        game.AllPiecesOf(whoseTurn);
        if game.board[dest.x, dest.y].Occupied? && game.board[dest.x, dest.y].piece.color == whoseTurn {
          MovespaceSparesOwnSide(enPassantTarget, piece.ruleSet, piece.color, Coord(piece.x, piece.y), dest);
        }
      }
    }

    /** The left fold of `||` over the first `n` cells of column `x`, as `reduce` without an
        initial value computes it. Grids are indexed `[x][y]`, so the inner reduce over one
        entry of the outer array runs along a column. */
    function ColumnHasMove(g: array2<bool>, x: int, n: int): (r: bool)
      reads g
      requires g.Length0 == 8 && g.Length1 == 8 && 0 <= x < 8 && 1 <= n <= 8
      ensures r <==> exists y | 0 <= y < n :: g[x, y]
    {
      if n == 1 then g[x, 0] else ColumnHasMove(g, x, n - 1) || g[x, n - 1]
    }

    /** The left fold of `||` over the column answers of the first `n` columns. */
    function GridHasMove(g: array2<bool>, n: int): (r: bool)
      reads g
      requires g.Length0 == 8 && g.Length1 == 8 && 1 <= n <= 8
      ensures r <==> exists x, y | 0 <= x < n && 0 <= y < 8 :: g[x, y]
    {
      if n == 1 then ColumnHasMove(g, 0, 8) else GridHasMove(g, n - 1) || ColumnHasMove(g, n - 1, 8)
    }

    /** Some grid of the map has some cell set. The source folds the grids in the map's
        order with `||`, which does not depend on the order. */
    predicate CurrentPlayerHasLegalMoves(): (r: bool)
      reads this, currentPlayersLegalMoves.Values
      requires GridsShaped()
      ensures r <==> exists p, x, y | p in currentPlayersLegalMoves && 0 <= x < 8 && 0 <= y < 8 :: currentPlayersLegalMoves[p][x, y]
    {
      exists p | p in currentPlayersLegalMoves :: GridHasMove(currentPlayersLegalMoves[p], 8)
    }

    /** Under the invariant, the map has some legal move exactly when the side to move has
        one. */
    lemma HasLegalMovesMeans()
      requires Valid()
      ensures GridsShaped() && game.Deployment().Inside()
      ensures CurrentPlayerHasLegalMoves() <==> HasLegalMove(game.Deployment(), enPassantTarget, whoseTurn)
    {
      game.DeploymentInside();
      MapMoveIsLegal();
      LegalMoveInMap();
    }

    /** A set cell of the map is a legal move of the side to move. */
    lemma MapMoveIsLegal()
      requires Valid()
      ensures GridsShaped()
      ensures CurrentPlayerHasLegalMoves() ==> HasLegalMove(game.Deployment(), enPassantTarget, whoseTurn)
    {
      var f := game.Deployment();
      var s := game.GetAllPiecesOf(whoseTurn);
      assert f.Of(whoseTurn) == Placements(s);
      if CurrentPlayerHasLegalMoves() {
        var p, x, y :| p in currentPlayersLegalMoves && 0 <= x < 8 && 0 <= y < 8 && currentPlayersLegalMoves[p][x, y];
        var i :| 0 <= i < |s| && s[i] == p;
        assert LegalAt(f, enPassantTarget, whoseTurn, f.Of(whoseTurn)[i], Coord(x, y));
      }
    }

    /** A legal move of the side to move is a set cell of the map. */
    lemma LegalMoveInMap()
      requires Valid()
      ensures GridsShaped()
      ensures HasLegalMove(game.Deployment(), enPassantTarget, whoseTurn) ==> CurrentPlayerHasLegalMoves()
    {
      var f := game.Deployment();
      var s := game.GetAllPiecesOf(whoseTurn);
      assert f.Of(whoseTurn) == Placements(s);
      if HasLegalMove(f, enPassantTarget, whoseTurn) {
        var i, x, y :| 0 <= i < |f.Of(whoseTurn)| && OnBoard(f.Of(whoseTurn)[i].at) && 0 <= x < 8 && 0 <= y < 8 && LegalAt(f, enPassantTarget, whoseTurn, f.Of(whoseTurn)[i], Coord(x, y));
        assert s[i] in currentPlayersLegalMoves;
        assert currentPlayersLegalMoves[s[i]][x, y];
      }
    }

    /** Whether the side to move is in check: the induced-check test for a copy of its king
        staying on its square. */
    method CurPlayerInCheck() returns (r: bool)
      requires game.Valid()
      ensures r == InCheck(game.Deployment(), enPassantTarget, whoseTurn)
    {
      game.DeploymentInside();
      var king := game.GetKingOf(whoseTurn);
      game.DeploymentFrame();
      var avoids := MoveAvoidsCheck(king, Coord(king.x, king.y));
      r := !avoids;
    }

    /** The end-of-game test after a move: no legal move for the side now to move is a win,
        named after that side as handleWin does, when it is in check, and a stalemate
        otherwise. */
    method EndOfTurn() returns (outcome: Outcome)
      requires Valid()
      ensures outcome == if HasLegalMove(game.Deployment(), enPassantTarget, whoseTurn) then NoResult
        else if InCheck(game.Deployment(), enPassantTarget, whoseTurn) then Win(whoseTurn)
        else Stalemate
    {
      HasLegalMovesMeans();
      outcome := NoResult;
      if !CurrentPlayerHasLegalMoves() {
        var inCheck := CurPlayerInCheck();
        game.DeploymentFrame();
        if inCheck {
          outcome := Win(whoseTurn);
        } else {
          outcome := Stalemate;
        }
      }
    }

    /** A click on a square with nothing selected: a piece of the side to move there becomes
        the selection, and anything else leaves it as it was. */
    method SelectSquare(square: Coord)
      requires game.Shaped() && OnBoard(square)
      modifies this`selection
      ensures selection == if game.board[square.x, square.y].Occupied? && game.board[square.x, square.y].piece.color == whoseTurn
        then Some(game.board[square.x, square.y].piece) else old(selection)
    {
      var content := game.GetSquareAt(square);
      if content.Occupied? && content.piece.color == whoseTurn {
        selection := Some(content.piece);
      }
    }

    /** No castling right of either side has changed. */
    twostate predicate RightsKept()
      reads game.white, game.black
    {
      && game.white.hasKingsideCastleRights == old(game.white.hasKingsideCastleRights)
      && game.white.hasQueensideCastleRights == old(game.white.hasQueensideCastleRights)
      && game.black.hasKingsideCastleRights == old(game.black.hasKingsideCastleRights)
      && game.black.hasQueensideCastleRights == old(game.black.hasQueensideCastleRights)
    }

    /** The state change of the commit branch: the selected piece moves to `square`, the
        selection is cleared, the turn passes to the opponent and its legal-move map is
        computed. */
    method CommitSelected(square: Coord)
      requires game.Valid() && enPassantTarget == NoTarget && OnBoard(square) && selection.Some?
      requires var p := selection.value; OnBoard(Coord(p.x, p.y)) && game.board[p.x, p.y] == Occupied(p)
      modifies this`selection, this`whoseTurn, this`currentPlayersLegalMoves, game.Repr()
      ensures Valid()
      ensures var p := old(selection.value);
        && game.board[square.x, square.y] == Occupied(p) && p.x == square.x && p.y == square.y
        && (old(Coord(p.x, p.y)) != square ==> game.board[old(p.x), old(p.y)] == Empty)
        && (forall x, y {:trigger game.board[x, y]} | 0 <= x < 8 && 0 <= y < 8 && Coord(x, y) != square && Coord(x, y) != old(Coord(p.x, p.y)) ::
              game.board[x, y] == old(game.board[x, y]))
        && StayPut(old(game.Positions()), game.Positions(), p)
        && game.Captured(old(game.board[square.x, square.y]), p, old(game.white.subjects), old(game.black.subjects))
      ensures RightsKept()
      ensures selection == None && whoseTurn == Other(old(whoseTurn))
    {
      var piece := selection.value;
      game.CommitMove(piece, square);
      label Committed:
      selection := None;
      whoseTurn := CurrentOpponent();
      game.StoreFrame@Committed();
      RecomputeMoves();
      game.PositionsFrame@Committed();
    }

    /** The commit branch of processInput: the selected piece moves to `square`, the
        selection is cleared, the turn passes to the opponent, whose legal-move map is
        computed, and the end-of-game test runs for that side. */
    method PlayMove(square: Coord) returns (outcome: Outcome)
      requires Valid() && OnBoard(square) && selection.Some? && MoveIsLegal(selection.value, square)
      modifies this, game.Repr()
      ensures Valid()
      ensures var p := old(selection.value);
        && game.board[square.x, square.y] == Occupied(p) && p.x == square.x && p.y == square.y
        && (old(Coord(p.x, p.y)) != square ==> game.board[old(p.x), old(p.y)] == Empty)
        && (forall x, y {:trigger game.board[x, y]} | 0 <= x < 8 && 0 <= y < 8 && Coord(x, y) != square && Coord(x, y) != old(Coord(p.x, p.y)) ::
              game.board[x, y] == old(game.board[x, y]))
        && StayPut(old(game.Positions()), game.Positions(), p)
        && game.Captured(old(game.board[square.x, square.y]), p, old(game.white.subjects), old(game.black.subjects))
      ensures RightsKept()
      ensures selection == None && whoseTurn == Other(old(whoseTurn))
      ensures outcome == if HasLegalMove(game.Deployment(), enPassantTarget, whoseTurn) then NoResult
        else if InCheck(game.Deployment(), enPassantTarget, whoseTurn) then Win(whoseTurn)
        else Stalemate
    {
      CommitSelected(square);
      label Recomputed:
      outcome := EndOfTurn();
      ValidFrame@Recomputed();
      game.PositionsFrame@Recomputed();
    }

    /** One click on a board square. With nothing selected it selects a piece of the side to
        move. With a selection and a legal destination it commits the move (PlayMove).
        Otherwise it clears the selection. */
    method ProcessInput(square: Coord) returns (outcome: Outcome)
      requires Valid() && OnBoard(square)
      modifies this, game.Repr()
      ensures Valid()
      ensures RightsKept()
      ensures old(selection).None? ==>
        && unchanged(game.board, game.white, game.black) && game.Deployment() == old(game.Deployment())
        && currentPlayersLegalMoves == old(currentPlayersLegalMoves)
        && whoseTurn == old(whoseTurn) && outcome == NoResult
        && selection == old(if game.board[square.x, square.y].Occupied? && game.board[square.x, square.y].piece.color == whoseTurn
             then Some(game.board[square.x, square.y].piece) else None)
      ensures old(selection).Some? && !old(MoveIsLegal(selection.value, square)) ==>
        && unchanged(game.board, game.white, game.black) && game.Deployment() == old(game.Deployment())
        && currentPlayersLegalMoves == old(currentPlayersLegalMoves)
        && whoseTurn == old(whoseTurn) && selection == None && outcome == NoResult
      ensures old(selection).Some? && old(MoveIsLegal(selection.value, square)) ==>
        && var p := old(selection.value);
           && game.board[square.x, square.y] == Occupied(p) && p.x == square.x && p.y == square.y
           && (old(Coord(p.x, p.y)) != square ==> game.board[old(p.x), old(p.y)] == Empty)
           && (forall x, y {:trigger game.board[x, y]} | 0 <= x < 8 && 0 <= y < 8 && Coord(x, y) != square && Coord(x, y) != old(Coord(p.x, p.y)) ::
                 game.board[x, y] == old(game.board[x, y]))
           && StayPut(old(game.Positions()), game.Positions(), p)
           && game.Captured(old(game.board[square.x, square.y]), p, old(game.white.subjects), old(game.black.subjects))
           && selection == None && whoseTurn == Other(old(whoseTurn))
           && outcome == if HasLegalMove(game.Deployment(), enPassantTarget, whoseTurn) then NoResult
                else if InCheck(game.Deployment(), enPassantTarget, whoseTurn) then Win(whoseTurn)
                else Stalemate
    {
      if selection.None? {
        SelectSquare(square);
        ValidFrame();
        game.DeploymentFrame();
        outcome := NoResult;
      } else if MoveIsLegal(selection.value, square) {
        outcome := PlayMove(square);
      } else {
        selection := None;
        ValidFrame();
        game.DeploymentFrame();
        outcome := NoResult;
      }
    }
  }
}
