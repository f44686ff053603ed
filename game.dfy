/** The board store of the chess rules engine (src/game.ts): pieces, the two players,
    the 8x8 grid of squares, its queries, the deep copy used for simulation and the one
    mutating move. It knows nothing about chess rules beyond "a piece moved here". */
module Game {

  datatype Option<T> = None | Some(value: T)

  datatype RuleSet = Queen | King | Knight | Pawn | Bishop | Rook

  datatype Color = W | B

  function Other(c: Color): Color
  {
    if c == W then B else W
  }

  /** A board coordinate (the source's numPair): x is the column, y the row. */
  datatype Coord = Coord(x: int, y: int)

  predicate OnBoard(c: Coord)
  {
    0 <= c.x < 8 && 0 <= c.y < 8
  }

  /** A piece has identity: two pieces with equal fields are still different pieces.
      Its ruleset and colour are never written after creation; only x and y move. */
  class Piece {
    const ruleSet: RuleSet
    const color: Color
    var x: int
    var y: int

    constructor (ruleSet: RuleSet, color: Color, x: int, y: int)
      ensures this.ruleSet == ruleSet && this.color == color
      ensures this.x == x && this.y == y
    {
      this.ruleSet, this.color := ruleSet, color;
      this.x, this.y := x, y;
    }
  }

  /** A piece as a value: its ruleset, colour and square, without its identity. */
  datatype Placed = Placed(ruleSet: RuleSet, color: Color, at: Coord)

  /** The pieces of `s` as values, in order. */
  ghost function Placements(s: seq<Piece>): (r: seq<Placed>)
    reads s
    ensures |r| == |s|
    ensures forall i {:trigger r[i]} | 0 <= i < |s| :: r[i] == Placed(s[i].ruleSet, s[i].color, Coord(s[i].x, s[i].y))
  {
    if s == [] then [] else [Placed(s[0].ruleSet, s[0].color, Coord(s[0].x, s[0].y))] + Placements(s[1..])
  }

  /** The values of pieces that did not change did not change. */
  twostate lemma {:induction false} PlacementsFrame(s: seq<Piece>)
    requires forall p {:trigger p in s} | p in s :: unchanged(p)
    ensures Placements(s) == old(Placements(s))
  {
    if s != [] {
      assert s[0] in s;
      assert forall p {:trigger p in s[1..]} | p in s[1..] :: p in s;
      PlacementsFrame(s[1..]);
    }
  }

  /** Where the pieces of both sides stand, as a value: each side's getAllPiecesOf list
      and its king's square. */
  datatype Forces = Forces(white: seq<Placed>, black: seq<Placed>, whiteKing: Coord, blackKing: Coord)
  {
    function Of(c: Color): seq<Placed>
    {
      if c == W then white else black
    }

    function KingOf(c: Color): Coord
    {
      if c == W then whiteKing else blackKing
    }

    /** Every piece of both sides, the kings included, stands inside the board. */
    predicate Inside()
    {
      && (forall i | 0 <= i < |white| :: OnBoard(white[i].at))
      && (forall i | 0 <= i < |black| :: OnBoard(black[i].at))
      && OnBoard(whiteKing) && OnBoard(blackKing)
    }
  }

  /** A square is "EMPTY" or holds a reference to its occupant. */
  datatype Square = Empty | Occupied(piece: Piece)

  /** Every piece placed in `after`, other than `mover`, was placed in `before` at the same
      square. */
  predicate StayPut(before: map<Piece, Coord>, after: map<Piece, Coord>, mover: Piece)
  {
    forall q {:trigger q in after} | q in after && q != mover :: q in before && after[q] == before[q]
  }

  predicate Distinct(s: seq<Piece>)
  {
    forall i, j | 0 <= i < j < |s| :: s[i] != s[j]
  }

  ghost function Elements(s: seq<Piece>): set<Piece>
  {
    set p | p in s
  }

  /** `s` with every occurrence of `p` (by identity) dropped, the others in their order:
      the `filter` of Player.removePiece. */
  function Without(s: seq<Piece>, p: Piece): (r: seq<Piece>)
    ensures forall q | q in r :: q in s && q != p
    ensures forall q | q in s && q != p :: q in r
    ensures |r| <= |s|
  {
    if s == [] then []
    else if s[0] == p then Without(s[1..], p)
    else [s[0]] + Without(s[1..], p)
  }

  /** Filtering out a piece that is not in the list changes nothing. */
  lemma {:induction false} WithoutAbsent(s: seq<Piece>, p: Piece)
    requires p !in s
    ensures Without(s, p) == s
  {
    if s != [] {
      WithoutAbsent(s[1..], p);
    }
  }

  /** In a list without repetitions, filtering out the element at index i removes exactly
      that one entry and keeps every other entry in its original order. */
  lemma {:induction false} WithoutAt(s: seq<Piece>, i: nat)
    requires i < |s| && Distinct(s)
    ensures Without(s, s[i]) == s[..i] + s[i + 1..]
  {
    if i == 0 {
      assert s[0] !in s[1..];
      WithoutAbsent(s[1..], s[0]);
    } else {
      var t := s[1..];
      assert Distinct(t);
      WithoutAt(t, i - 1);
      assert t[i - 1] == s[i] && s[0] != s[i];
      assert Without(s, s[i]) == [s[0]] + (t[..i - 1] + t[i..]);
      assert [s[0]] + t[..i - 1] == s[..i];
      assert t[i..] == s[i + 1..];
    }
  }

  /** Filtering keeps a list free of repetitions. */
  lemma WithoutDistinct(s: seq<Piece>, p: Piece)
    requires Distinct(s)
    ensures Distinct(Without(s, p))
  {
    if p in s {
      var i :| 0 <= i < |s| && s[i] == p;
      WithoutAt(s, i);
      var r := s[..i] + s[i + 1..];
      forall a, b | 0 <= a < b < |r| ensures r[a] != r[b] {
        var a' := if a < i then a else a + 1;
        var b' := if b < i then b else b + 1;
        assert r[a] == s[a'] && r[b] == s[b'] && a' < b';
      }
    } else {
      WithoutAbsent(s, p);
    }
  }

  /** The record of one side: its king, its other pieces and two castling-rights flags. */
  class Player {
    const king: Piece
    var subjects: seq<Piece>
    var hasKingsideCastleRights: bool
    var hasQueensideCastleRights: bool

    constructor (king: Piece, subjects: seq<Piece>)
      ensures this.king == king && this.subjects == subjects
      ensures hasKingsideCastleRights && hasQueensideCastleRights
    {
      this.king := king;
      this.subjects := subjects;
      hasKingsideCastleRights, hasQueensideCastleRights := true, true;
    }

    /** Drops every reference to `piece` from the subjects, keeping the rest in order. */
    method RemovePiece(piece: Piece)
      modifies this
      ensures subjects == Without(old(subjects), piece)
      ensures piece !in subjects
      ensures hasKingsideCastleRights == old(hasKingsideCastleRights)
      ensures hasQueensideCastleRights == old(hasQueensideCastleRights)
    {
      subjects := Without(subjects, piece);
    }

    /** Appends `piece` unless it is already there, so it never becomes a duplicate. */
    method AddPiece(piece: Piece)
      modifies this
      ensures piece in subjects
      ensures old(piece in subjects) ==> subjects == old(subjects)
      ensures old(piece !in subjects) ==> subjects == old(subjects) + [piece]
      ensures Distinct(old(subjects)) ==> Distinct(subjects)
      ensures hasKingsideCastleRights == old(hasKingsideCastleRights)
      ensures hasQueensideCastleRights == old(hasQueensideCastleRights)
    {
      if piece !in subjects {
        subjects := subjects + [piece];
      }
    }
  }

  predicate Matches(sq: Square, expected: Option<(RuleSet, Color)>)
  {
    match expected
    case None => sq.Empty?
    case Some(rc) => sq.Occupied? && sq.piece.ruleSet == rc.0 && sq.piece.color == rc.1
  }

  function BackRank(x: int): RuleSet
    requires 0 <= x < 8
  {
    [Rook, Knight, Bishop, Queen, King, Bishop, Knight, Rook][x]
  }

  function HomeRow(c: Color): int
  {
    if c == W then 0 else 7
  }

  function PawnRow(c: Color): int
  {
    if c == W then 1 else 6
  }

  /** The standard opening position, cell by cell: white on rows 0 and 1, black on 6 and 7. */
  function StartingSquare(x: int, y: int): Option<(RuleSet, Color)>
    requires 0 <= x < 8
  {
    if y == HomeRow(W) then Some((BackRank(x), W))
    else if y == PawnRow(W) then Some((Pawn, W))
    else if y == PawnRow(B) then Some((Pawn, B))
    else if y == HomeRow(B) then Some((BackRank(x), B))
    else None
  }

  /** The cells makeSoldiers fills for a colour: its home row except the king's column,
      and its pawn row. */
  predicate SoldierSquare(c: Color, x: int, y: int)
  {
    (y == HomeRow(c) && x != 4) || y == PawnRow(c)
  }

  predicate PlayerSquare(c: Color, x: int, y: int)
  {
    y == HomeRow(c) || y == PawnRow(c)
  }

  class ChessBoard {
    const board: array2<Square>
    const white: Player
    const black: Player

    predicate Shaped()
    {
      board.Length0 == 8 && board.Length1 == 8
    }

    /** getPlayer finds the player whose colour is `color`: one of the two players,
        and the white one exactly for W. */
    function GetPlayer(color: Color): Player
    {
      match color
      case W => white
      case B => black
    }

    /** The lookup by colour picks one of the two players, white exactly for white. */
    lemma PlayerLookup(color: Color)
      ensures GetPlayer(color) == white || GetPlayer(color) == black
      ensures white != black ==> (GetPlayer(color) == white <==> color == W)
    {
    }

    /** Every object the store is made of: the grid, the two players and their pieces. */
    ghost function Repr(): set<object>
      reads white, black
    {
      {board, white, black, white.king, black.king} + Elements(white.subjects) + Elements(black.subjects)
    }

    ghost function PiecesOf(): set<Piece>
      reads white, black
    {
      {white.king, black.king} + Elements(white.subjects) + Elements(black.subjects)
    }

    /** Where each piece of both sides stands, by its own coordinates. */
    ghost function Positions(): map<Piece, Coord>
      reads white, black, PiecesOf()
    {
      map q | q in PiecesOf() :: Coord(q.x, q.y)
    }

    /** A piece belongs to the player of its colour, as its king or as one of its subjects. */
    ghost predicate Owned(p: Piece)
      reads white, black
    {
      p == GetPlayer(p.color).king || p in GetPlayer(p.color).subjects
    }

    ghost predicate KingValid(k: Piece, c: Color)
      reads k
    {
      k.ruleSet == King && k.color == c && 0 <= k.x < 8 && 0 <= k.y < 8
    }

    ghost predicate SubjectsValid(pl: Player, c: Color)
      reads pl, Elements(pl.subjects), board
      requires Shaped()
    {
      && Distinct(pl.subjects)
      && forall p {:trigger p in pl.subjects} | p in pl.subjects ::
           && p.color == c && p.ruleSet != King && 0 <= p.x < 8 && 0 <= p.y < 8
           && board[p.x, p.y] == Occupied(p)
    }

    /** The store's invariant: the grid is 8x8, each side has one king of its colour, every
        subject stands on the cell its coordinates name, and every occupant of a cell belongs
        to its colour's player and records that cell as its coordinates. A captured king is
        not required to stand on the board (commitMove does not forbid capturing it). */
    ghost predicate Valid()
      reads white, black, Repr()
    {
      && Shaped()
      && white != black
      && KingValid(white.king, W) && KingValid(black.king, B)
      && SubjectsValid(white, W) && SubjectsValid(black, B)
      && forall x, y | 0 <= x < 8 && 0 <= y < 8 && board[x, y].Occupied? ::
           Owned(board[x, y].piece) && board[x, y].piece.x == x && board[x, y].piece.y == y
    }

    ghost predicate KingsOnBoard()
      reads white, black, Repr()
      requires Valid()
    {
      && board[white.king.x, white.king.y] == Occupied(white.king)
      && board[black.king.x, black.king.y] == Occupied(black.king)
    }

    //|----------------|
    //|-INITIALIZATION-|
    //|----------------|

    /** The standard opening position with both players holding all castling rights. */
    constructor ()
      ensures Valid() && KingsOnBoard()
      ensures fresh(board) && fresh(white) && fresh(black)
      ensures forall x, y | 0 <= x < 8 && 0 <= y < 8 :: Matches(board[x, y], StartingSquare(x, y))
      ensures white.king.x == 4 && white.king.y == 0 && black.king.x == 4 && black.king.y == 7
      ensures |white.subjects| == 15 && |black.subjects| == 15
      ensures white.hasKingsideCastleRights && white.hasQueensideCastleRights
      ensures black.hasKingsideCastleRights && black.hasQueensideCastleRights
    {
      var b := new Square[8, 8]((_, _) => Empty);
      var w := InitPlayer(b, W);
      var k := InitPlayer(b, B);
      board, white, black := b, w, k;
      new;
      OpeningIsValid();
    }

    /** What the two calls of initPlayer leave behind: each player's king and subjects on
        that colour's two rows, in the standard layout, and nothing anywhere else. */
    ghost predicate Opening()
      reads white, black, Repr()
    {
      && Shaped() && white != black
      && white.king.ruleSet == King && white.king.color == W && white.king.x == 4 && white.king.y == 0
      && black.king.ruleSet == King && black.king.color == B && black.king.x == 4 && black.king.y == 7
      && Distinct(white.subjects) && Distinct(black.subjects)
      && (forall p | p in white.subjects :: SoldierPlaced(board, p, W))
      && (forall p | p in black.subjects :: SoldierPlaced(board, p, B))
      && forall x, y | 0 <= x < 8 && 0 <= y < 8 ::
           if PlayerSquare(W, x, y) then
             && board[x, y].Occupied?
             && (board[x, y].piece == white.king || board[x, y].piece in white.subjects)
             && board[x, y].piece.x == x && board[x, y].piece.y == y
             && Matches(board[x, y], StartingSquare(x, y))
           else if PlayerSquare(B, x, y) then
             && board[x, y].Occupied?
             && (board[x, y].piece == black.king || board[x, y].piece in black.subjects)
             && board[x, y].piece.x == x && board[x, y].piece.y == y
             && Matches(board[x, y], StartingSquare(x, y))
           else board[x, y] == Empty
    }

    lemma OpeningIsValid()
      requires Opening()
      ensures Valid() && KingsOnBoard()
      ensures forall x, y | 0 <= x < 8 && 0 <= y < 8 :: Matches(board[x, y], StartingSquare(x, y))
    {
      assert forall x, y | 0 <= x < 8 && 0 <= y < 8 && board[x, y].Occupied? ::
        board[x, y].piece.color == W <==> y <= 1;
    }

    static method InitPlayer(board: array2<Square>, color: Color) returns (player: Player)
      requires board.Length0 == 8 && board.Length1 == 8
      modifies board
      ensures fresh(player) && fresh(player.king)
      ensures player.king.ruleSet == King && player.king.color == color
      ensures player.king.x == 4 && player.king.y == HomeRow(color)
      ensures player.hasKingsideCastleRights && player.hasQueensideCastleRights
      ensures |player.subjects| == 15 && Distinct(player.subjects)
      ensures forall p | p in player.subjects :: SoldierPlaced(board, p, color)
      ensures forall x, y | 0 <= x < 8 && 0 <= y < 8 ::
        if PlayerSquare(color, x, y) then
          && board[x, y].Occupied?
          && (board[x, y].piece == player.king || board[x, y].piece in player.subjects)
          && board[x, y].piece.x == x && board[x, y].piece.y == y
          && Matches(board[x, y], StartingSquare(x, y))
        else board[x, y] == old(board[x, y])
    {
      var kingY := if color == W then 0 else 7;
      var king := CreatePieceAt(board, 4, kingY, King, color);
      var soldiers := MakeSoldiers(board, color);
      player := new Player(king, soldiers);
    }

    static ghost predicate SoldierPlaced(board: array2<Square>, p: Piece, c: Color)
      reads board, p
      requires board.Length0 == 8 && board.Length1 == 8
    {
      && p.color == c && p.ruleSet != King
      && 0 <= p.x < 8 && PlayerSquare(c, p.x, p.y)
      && board[p.x, p.y] == Occupied(p)
    }

    /** Cell (x, y) holds one of `soldiers`, recording (x, y) as its coordinates, with the
        ruleset and colour of the standard opening position. */
    static ghost predicate Filled(board: array2<Square>, soldiers: seq<Piece>, x: int, y: int)
      requires board.Length0 == 8 && board.Length1 == 8 && 0 <= x < 8 && 0 <= y < 8
      reads board, if board[x, y].Occupied? then {board[x, y].piece} else {}
    {
      && board[x, y].Occupied? && board[x, y].piece in soldiers
      && board[x, y].piece.x == x && board[x, y].piece.y == y
      && Matches(board[x, y], StartingSquare(x, y))
    }

    /** The cells makeSoldiers has filled once the queen, `pawns` pawns and `minors` pairs of
        rooks, knights and bishops are placed. */
    static predicate Done(pieceRow: int, pawnRow: int, pawns: int, minors: int, x: int, y: int)
    {
      (x == 3 && y == pieceRow) || (x < pawns && y == pawnRow) || ((x < minors || 7 - minors < x) && y == pieceRow)
    }

    static method MakeSoldiers(board: array2<Square>, color: Color) returns (soldiers: seq<Piece>)
      requires board.Length0 == 8 && board.Length1 == 8
      modifies board
      ensures |soldiers| == 15 && Distinct(soldiers)
      ensures forall i | 0 <= i < |soldiers| :: SoldierPlaced(board, soldiers[i], color)
      ensures forall x, y | 0 <= x < 8 && 0 <= y < 8 ::
        if SoldierSquare(color, x, y) then Filled(board, soldiers, x, y) else board[x, y] == old(board[x, y])
    {
      var pieceRow, pawnRow := 0, 1;
      if color == B {
        pieceRow, pawnRow := 7, 6;
      }
      var queen := CreatePieceAt(board, 3, pieceRow, Queen, color);
      soldiers := [queen];
      for i := 0 to 8
        invariant |soldiers| == 1 + i && Distinct(soldiers)
        invariant forall k | 0 <= k < |soldiers| ::
          SoldierPlaced(board, soldiers[k], color) && Done(pieceRow, pawnRow, i, 0, soldiers[k].x, soldiers[k].y)
        invariant forall x, y | 0 <= x < 8 && 0 <= y < 8 ::
          if Done(pieceRow, pawnRow, i, 0, x, y) then Filled(board, soldiers, x, y)
          else board[x, y] == old(board[x, y])
      {
        var pawn := CreatePieceAt(board, i, pawnRow, Pawn, color);
        soldiers := soldiers + [pawn];
      }
      var minorPieces := [Rook, Knight, Bishop];
      for index := 0 to 3
        invariant |soldiers| == 9 + 2 * index && Distinct(soldiers)
        invariant forall k | 0 <= k < |soldiers| ::
          SoldierPlaced(board, soldiers[k], color) && Done(pieceRow, pawnRow, 8, index, soldiers[k].x, soldiers[k].y)
        invariant forall x, y | 0 <= x < 8 && 0 <= y < 8 ::
          if Done(pieceRow, pawnRow, 8, index, x, y) then Filled(board, soldiers, x, y)
          else board[x, y] == old(board[x, y])
      {
        soldiers := PlaceMinorPair(board, soldiers, minorPieces[index], index, pieceRow, pawnRow, color);
      }
    }

    /** The callback of the forEach over ROOK, KNIGHT, BISHOP: it creates the piece of
        `ruleset` on columns `index` and `7 - index` of the piece row. */
    static method PlaceMinorPair(board: array2<Square>, soldiers: seq<Piece>, ruleset: RuleSet, index: int,
                                 pieceRow: int, pawnRow: int, color: Color)
      returns (soldiers': seq<Piece>)
      requires board.Length0 == 8 && board.Length1 == 8 && 0 <= index < 3
      requires pieceRow == HomeRow(color) && pawnRow == PawnRow(color) && ruleset == BackRank(index)
      requires Distinct(soldiers)
      requires forall k | 0 <= k < |soldiers| ::
        SoldierPlaced(board, soldiers[k], color) && Done(pieceRow, pawnRow, 8, index, soldiers[k].x, soldiers[k].y)
      requires forall x, y | 0 <= x < 8 && 0 <= y < 8 && Done(pieceRow, pawnRow, 8, index, x, y) ::
        Filled(board, soldiers, x, y)
      modifies board
      ensures |soldiers'| == |soldiers| + 2 && Distinct(soldiers')
      ensures forall k | 0 <= k < |soldiers'| ::
        SoldierPlaced(board, soldiers'[k], color) && Done(pieceRow, pawnRow, 8, index + 1, soldiers'[k].x, soldiers'[k].y)
      ensures forall x, y | 0 <= x < 8 && 0 <= y < 8 ::
        if Done(pieceRow, pawnRow, 8, index + 1, x, y) then Filled(board, soldiers', x, y)
        else board[x, y] == old(board[x, y])
    {
      assert BackRank(7 - index) == ruleset;
      var left := CreatePieceAt(board, index, pieceRow, ruleset, color);
      soldiers' := soldiers + [left];
      var right := CreatePieceAt(board, 7 - index, pieceRow, ruleset, color);
      soldiers' := soldiers' + [right];
      assert Filled(board, soldiers', index, pieceRow);
      assert Filled(board, soldiers', 7 - index, pieceRow);
      forall k | 0 <= k < |soldiers|
        ensures SoldierPlaced(board, soldiers[k], color)
      {
        assert board[soldiers[k].x, soldiers[k].y] == old(board[soldiers[k].x, soldiers[k].y]);
      }
      forall x, y | 0 <= x < 8 && 0 <= y < 8 && Done(pieceRow, pawnRow, 8, index, x, y)
        ensures Filled(board, soldiers', x, y)
      {
        assert Filled(board, soldiers, x, y);
      }
    }

    static method CreatePieceAt(board: array2<Square>, x: int, y: int, newRuleSet: RuleSet, newColor: Color)
      returns (piece: Piece)
      requires board.Length0 == 8 && board.Length1 == 8 && 0 <= x < 8 && 0 <= y < 8
      modifies board
      ensures fresh(piece) && piece.ruleSet == newRuleSet && piece.color == newColor
      ensures piece.x == x && piece.y == y && board[x, y] == Occupied(piece)
      ensures forall i, j | 0 <= i < 8 && 0 <= j < 8 && (i != x || j != y) :: board[i, j] == old(board[i, j])
    {
      piece := new Piece(newRuleSet, newColor, x, y);
      board[x, y] := Occupied(piece);
    }

    // |---------------------|
    // |-GETTERS AND SETTERS-|
    // |---------------------|

    /** A deep copy of the grid: the same occupancy, and in each occupied cell a fresh copy
        of its occupant, so that writing to the copy can never reach the live board. */
    method GetTestBoard() returns (deepCopy: array2<Square>)
      requires Shaped()
      ensures fresh(deepCopy) && deepCopy.Length0 == 8 && deepCopy.Length1 == 8
      ensures forall x, y | 0 <= x < 8 && 0 <= y < 8 ::
        CopyOf(deepCopy[x, y], board[x, y]) && (deepCopy[x, y].Occupied? ==> fresh(deepCopy[x, y].piece))
    {
      deepCopy := new Square[8, 8]((_, _) => Empty);
      var square: Square := Empty;
      for x := 0 to 8
        invariant forall i, j | 0 <= i < 8 && 0 <= j < 8 ::
          if i < x then CopyOf(deepCopy[i, j], board[i, j]) && (deepCopy[i, j].Occupied? ==> fresh(deepCopy[i, j].piece))
          else deepCopy[i, j] == Empty
      {
        for y := 0 to 8
          invariant forall i, j | 0 <= i < 8 && 0 <= j < 8 ::
            if i < x || (i == x && j < y) then
              CopyOf(deepCopy[i, j], board[i, j]) && (deepCopy[i, j].Occupied? ==> fresh(deepCopy[i, j].piece))
            else deepCopy[i, j] == Empty
        {
          square := board[x, y];
          if square.Occupied? {
            var copy := new Piece(square.piece.ruleSet, square.piece.color, square.piece.x, square.piece.y);
            deepCopy[x, y] := Occupied(copy);
          }
        }
      }
    }

    /** `c` is a detached copy of `s`: same occupancy and, for an occupant, a different
        piece with the same ruleset, colour and coordinates. */
    static ghost predicate CopyOf(c: Square, s: Square)
      reads if c.Occupied? then {c.piece} else {}, if s.Occupied? then {s.piece} else {}
    {
      match s
      case Empty => c.Empty?
      case Occupied(p) =>
        && c.Occupied? && c.piece != p
        && c.piece.ruleSet == p.ruleSet && c.piece.color == p.color
        && c.piece.x == p.x && c.piece.y == p.y
    }

    /** One entry per subject of that colour's player, and its king last. */
    function GetAllPiecesOf(color: Color): (r: seq<Piece>)
      reads white, black
    {
      var player := GetPlayer(color);
      player.subjects + [player.king]
    }

    /** The pieces of both sides as they stand now. */
    ghost function Deployment(): Forces
      reads white, black, white.king, black.king, white.subjects, black.subjects
    {
      Forces(Placements(GetAllPiecesOf(W)), Placements(GetAllPiecesOf(B)),
             Coord(white.king.x, white.king.y), Coord(black.king.x, black.king.y))
    }

    /** Under the store's invariant every piece stands inside the board. */
    lemma DeploymentInside()
      requires Valid()
      ensures Deployment().Inside()
    {
      SideInside(W);
      SideInside(B);
    }

    /** Under the store's invariant every piece of one side stands inside the board. */
    lemma SideInside(c: Color)
      requires Valid()
      ensures forall i {:trigger Placements(GetAllPiecesOf(c))[i]} | 0 <= i < |Placements(GetAllPiecesOf(c))| ::
        OnBoard(Placements(GetAllPiecesOf(c))[i].at)
    {
      var s := GetAllPiecesOf(c);
      forall i | 0 <= i < |s| ensures OnBoard(Placements(s)[i].at) {
        if i < |s| - 1 {
          assert s[i] in GetPlayer(c).subjects;
        }
      }
    }

    /** The deployment depends only on the players and their pieces. */
    twostate lemma DeploymentFrame()
      requires unchanged(white, black, white.king, black.king)
      requires forall p {:trigger p in white.subjects} | p in white.subjects :: unchanged(p)
      requires forall p {:trigger p in black.subjects} | p in black.subjects :: unchanged(p)
      ensures Deployment() == old(Deployment())
    {
      PlacementsFrame(white.subjects + [white.king]);
      PlacementsFrame(black.subjects + [black.king]);
    }

    /** The store's invariant depends only on the grid, the players and their pieces. */
    twostate lemma StoreFrame()
      requires old(Valid())
      requires unchanged(board, white, black, white.king, black.king)
      requires forall p {:trigger p in white.subjects} | p in white.subjects :: unchanged(p)
      requires forall p {:trigger p in black.subjects} | p in black.subjects :: unchanged(p)
      ensures Valid()
    {
    }

    /** The positions depend only on the players and their pieces. */
    twostate lemma PositionsFrame()
      requires unchanged(white, black, white.king, black.king)
      requires forall p {:trigger p in white.subjects} | p in white.subjects :: unchanged(p)
      requires forall p {:trigger p in black.subjects} | p in black.subjects :: unchanged(p)
      ensures Positions() == old(Positions())
    {
    }

    /** getAllPiecesOf without its last entry, the king. */
    function GetAllPiecesButKingOf(color: Color): (r: seq<Piece>)
      reads white, black
    {
      GetPlayer(color).subjects
    }

    /** getAllPiecesOf has one entry more than the player has subjects, the king, and
        dropping that last entry leaves getAllPiecesButKingOf. */
    lemma AllPiecesShape(color: Color)
      ensures |GetAllPiecesOf(color)| == |GetPlayer(color).subjects| + 1
      ensures GetAllPiecesOf(color)[|GetAllPiecesOf(color)| - 1] == GetPlayer(color).king
      ensures GetAllPiecesOf(color) == GetAllPiecesButKingOf(color) + [GetPlayer(color).king]
    {
    }

    /** getAllPiecesOf lists exactly the pieces on the board of that colour, with the king,
        and all of them have that colour. */
    lemma AllPiecesOf(color: Color)
      requires Valid()
      ensures forall p {:trigger p in GetAllPiecesOf(color)} | p in GetAllPiecesOf(color) :: p.color == color
      ensures forall x, y | 0 <= x < 8 && 0 <= y < 8 && board[x, y].Occupied? && board[x, y].piece.color == color ::
        board[x, y].piece in GetAllPiecesOf(color)
      ensures forall p {:trigger p in GetAllPiecesButKingOf(color)} | p in GetAllPiecesButKingOf(color) :: p.color == color && p.ruleSet != King
      ensures GetAllPiecesOf(color)[|GetAllPiecesOf(color)| - 1] == GetPlayer(color).king
    {
    }

    /** In a valid store the lookup by colour is a lookup by the king's colour, as
        Player.color reads it, and the two colours name two different players. */
    lemma PlayerOfColour(color: Color)
      requires Valid()
      ensures GetPlayer(color).king.color == color
      ensures GetPlayer(color) != GetPlayer(Other(color))
    {
    }

    /** A copy of the king of that colour: a fresh piece, so moving it moves nothing. */
    method GetKingOf(color: Color) returns (king: Piece)
      ensures fresh(king)
      ensures king.ruleSet == GetPlayer(color).king.ruleSet && king.color == GetPlayer(color).king.color
      ensures king.x == GetPlayer(color).king.x && king.y == GetPlayer(color).king.y
    {
      var k := GetPlayer(color).king;
      king := new Piece(k.ruleSet, k.color, k.x, k.y);
    }

    method GetEmptyMoveBoard() returns (moves: array2<bool>)
      ensures fresh(moves) && moves.Length0 == 8 && moves.Length1 == 8
      ensures forall x, y | 0 <= x < 8 && 0 <= y < 8 :: !moves[x, y]
    {
      moves := new bool[8, 8]((_, _) => false);
    }

    /** The contents of a cell: empty exactly when squareIsEmpty says so. */
    function GetSquareAt(coord: Coord): (sq: Square)
      reads board
      requires Shaped() && OnBoard(coord)
      ensures sq.Empty? <==> SquareIsEmpty(coord)
    {
      board[coord.x, coord.y]
    }

    /** In a valid store the occupant read from a cell records that cell as its
        coordinates and is listed by getAllPiecesOf for its colour. */
    lemma OccupantRecordsCell(coord: Coord)
      requires Valid() && OnBoard(coord)
      ensures GetSquareAt(coord).Occupied? ==>
        var p := GetSquareAt(coord).piece;
        p.x == coord.x && p.y == coord.y && p in GetAllPiecesOf(p.color)
    {
    }

    /** The one mutating move. It clears the origin, removes a captured occupant of the
        destination from its owner's subjects, writes the piece into the destination and
        moves its coordinates there. It checks no chess rule. */
    method CommitMove(piece: Piece, dest: Coord)
      requires Valid() && OnBoard(dest)
      requires 0 <= piece.x < 8 && 0 <= piece.y < 8 && board[piece.x, piece.y] == Occupied(piece)
      modifies board, piece, white, black
      ensures Valid()
      ensures board[dest.x, dest.y] == Occupied(piece) && piece.x == dest.x && piece.y == dest.y
      ensures dest != old(Coord(piece.x, piece.y)) ==> board[old(piece.x), old(piece.y)] == Empty
      ensures forall x, y {:trigger board[x, y]} | 0 <= x < 8 && 0 <= y < 8 && Coord(x, y) != dest && Coord(x, y) != old(Coord(piece.x, piece.y)) ::
        board[x, y] == old(board[x, y])
      ensures forall q {:trigger q in old(Positions())} | q in old(Positions()) && q != piece :: Coord(q.x, q.y) == old(Positions())[q]
      ensures StayPut(old(Positions()), Positions(), piece)
      ensures Captured(old(board[dest.x, dest.y]), piece, old(white.subjects), old(black.subjects))
      ensures white.hasKingsideCastleRights == old(white.hasKingsideCastleRights)
      ensures white.hasQueensideCastleRights == old(white.hasQueensideCastleRights)
      ensures black.hasKingsideCastleRights == old(black.hasKingsideCastleRights)
      ensures black.hasQueensideCastleRights == old(black.hasQueensideCastleRights)
    {
      MovePiece(piece, dest);
      MoveKeepsValid(dest);
    }

    /** The writes of commitMove, described by Moved. */
    method MovePiece(piece: Piece, dest: Coord)
      requires Valid() && OnBoard(dest)
      requires 0 <= piece.x < 8 && 0 <= piece.y < 8 && board[piece.x, piece.y] == Occupied(piece)
      modifies board, piece, white, black
      ensures Moved(dest) && board[dest.x, dest.y].piece == piece
      ensures Captured(old(board[dest.x, dest.y]), piece, old(white.subjects), old(black.subjects))
      ensures white.hasKingsideCastleRights == old(white.hasKingsideCastleRights)
      ensures white.hasQueensideCastleRights == old(white.hasQueensideCastleRights)
      ensures black.hasKingsideCastleRights == old(black.hasKingsideCastleRights)
      ensures black.hasQueensideCastleRights == old(black.hasQueensideCastleRights)
    {
      ghost var pieces := PiecesOf();
      board[piece.x, piece.y] := Empty;
      var destSquare := board[dest.x, dest.y];
      if destSquare.Occupied? {
        ClearPiece(destSquare.piece);
      }
      SetPieceAt(piece, dest);
      assert forall q {:trigger q in pieces} | q in pieces && q != piece :: q.x == old(q.x) && q.y == old(q.y);
    }

    /** The subjects after a move onto a cell that held `target`: an occupant other than the
        moved piece has left its owner's subjects, and the other player's are as they were. */
    ghost predicate Captured(target: Square, piece: Piece, ws: seq<Piece>, bs: seq<Piece>)
      reads white, black, if target.Occupied? then {target.piece} else {}
    {
      if target.Occupied? && target.piece != piece then
        if target.piece.color == W then white.subjects == Without(ws, target.piece) && black.subjects == bs
        else black.subjects == Without(bs, target.piece) && white.subjects == ws
      else
        white.subjects == ws && black.subjects == bs
    }

    /** What commitMove leaves behind, seen from its end state: the piece now on `dest` came
        from its old cell, every other piece kept its cell and coordinates, and a captured
        occupant of `dest` left its owner's subjects. */
    twostate predicate Moved(dest: Coord)
      reads *
    {
      && old(Valid()) && Shaped() && OnBoard(dest) && board[dest.x, dest.y].Occupied?
      && var piece := board[dest.x, dest.y].piece;
         && old(allocated(piece)) && old(0 <= piece.x < 8 && 0 <= piece.y < 8)
         && old(board[piece.x, piece.y]) == Occupied(piece)
         && piece.x == dest.x && piece.y == dest.y
         && (forall x, y {:trigger board[x, y]} | 0 <= x < 8 && 0 <= y < 8 && Coord(x, y) != dest && Coord(x, y) != old(Coord(piece.x, piece.y)) ::
               board[x, y] == old(board[x, y]))
         && (old(Coord(piece.x, piece.y)) != dest ==> board[old(piece.x), old(piece.y)] == Empty)
         && (forall q {:trigger q in old(PiecesOf())} | q in old(PiecesOf()) && q != piece :: q.x == old(q.x) && q.y == old(q.y))
         && Captured(old(board[dest.x, dest.y]), piece, old(white.subjects), old(black.subjects))
    }

    /** The store's invariant survives a move. */
    twostate lemma MoveKeepsValid(dest: Coord)
      requires Moved(dest)
      ensures Valid()
    {
      var piece := board[dest.x, dest.y].piece;
      assert white.king in old(PiecesOf()) && black.king in old(PiecesOf());
      MoveKeepsSubjects(dest);
      MoveKeepsOwners(dest);
    }

    twostate lemma MoveKeepsSubjects(dest: Coord)
      requires Moved(dest)
      ensures SubjectsValid(white, W) && SubjectsValid(black, B)
    {
      var piece := board[dest.x, dest.y].piece;
      var origin := old(Coord(piece.x, piece.y));
      var target := old(board[dest.x, dest.y]);
      if target.Occupied? && target.piece != piece {
        WithoutDistinct(old(GetPlayer(target.piece.color).subjects), target.piece);
      }
      forall c: Color, s | s in GetPlayer(c).subjects
        ensures s.color == c && s.ruleSet != King && 0 <= s.x < 8 && 0 <= s.y < 8
        ensures board[s.x, s.y] == Occupied(s)
      {
        assert s in old(GetPlayer(c).subjects);
        if s != piece {
          assert s in old(PiecesOf());
          assert old(board[s.x, s.y]) == Occupied(s);
          assert Coord(s.x, s.y) != origin && Coord(s.x, s.y) != dest;
        }
      }
    }

    twostate lemma MoveKeepsOwners(dest: Coord)
      requires Moved(dest)
      ensures forall x, y | 0 <= x < 8 && 0 <= y < 8 && board[x, y].Occupied? ::
        Owned(board[x, y].piece) && board[x, y].piece.x == x && board[x, y].piece.y == y
    {
      var piece := board[dest.x, dest.y].piece;
      var origin := old(Coord(piece.x, piece.y));
      forall x, y | 0 <= x < 8 && 0 <= y < 8 && board[x, y].Occupied?
        ensures Owned(board[x, y].piece) && board[x, y].piece.x == x && board[x, y].piece.y == y
      {
        if Coord(x, y) != dest {
          assert Coord(x, y) != origin;
          assert old(Owned(board[x, y].piece));
          assert board[x, y].piece in old(PiecesOf());
        } else {
          assert old(Owned(piece));
        }
      }
    }

    method SetPieceAt(piece: Piece, coord: Coord)
      requires Shaped() && OnBoard(coord)
      modifies board, piece
      ensures board[coord.x, coord.y] == Occupied(piece) && piece.x == coord.x && piece.y == coord.y
      ensures forall x, y {:trigger board[x, y]} | 0 <= x < 8 && 0 <= y < 8 && Coord(x, y) != coord :: board[x, y] == old(board[x, y])
    {
      board[coord.x, coord.y] := Occupied(piece);
      piece.x, piece.y := coord.x, coord.y;
    }

    method ClearPiece(piece: Piece)
      requires Shaped() && 0 <= piece.x < 8 && 0 <= piece.y < 8
      modifies board, white, black
      ensures board[piece.x, piece.y] == Empty
      ensures forall x, y {:trigger board[x, y]} | 0 <= x < 8 && 0 <= y < 8 && Coord(x, y) != Coord(piece.x, piece.y) :: board[x, y] == old(board[x, y])
      ensures GetPlayer(piece.color).subjects == Without(old(GetPlayer(piece.color).subjects), piece)
      ensures white != black ==> GetPlayer(Other(piece.color)).subjects == old(GetPlayer(Other(piece.color)).subjects)
      ensures white.hasKingsideCastleRights == old(white.hasKingsideCastleRights)
      ensures white.hasQueensideCastleRights == old(white.hasQueensideCastleRights)
      ensures black.hasKingsideCastleRights == old(black.hasKingsideCastleRights)
      ensures black.hasQueensideCastleRights == old(black.hasQueensideCastleRights)
    {
      var player := GetPlayer(piece.color);
      player.RemovePiece(piece);
      board[piece.x, piece.y] := Empty;
    }

    /** An empty square holds an enemy of neither side. */
    predicate SquareIsEmpty(square: Coord): (r: bool)
      reads board
      requires Shaped() && OnBoard(square)
      ensures r ==> !SquareHasEnemy(W, square) && !SquareHasEnemy(B, square)
    {
      board[square.x, square.y] == Empty
    }

    /** The square holds a piece of the other colour. */
    predicate SquareHasEnemy(color: Color, square: Coord): (r: bool)
      reads board
      requires Shaped() && OnBoard(square)
      ensures r ==> board[square.x, square.y].Occupied?
    {
      var squareContents := board[square.x, square.y];
      if squareContents == Empty then false else color != squareContents.piece.color
    }

    /** An empty square holds no enemy of either side; an occupied square holds an enemy
        of exactly one side, the side that is not the occupant's. */
    lemma EnemyMeansOtherColour(square: Coord)
      requires Shaped() && OnBoard(square)
      ensures SquareIsEmpty(square) ==> !SquareHasEnemy(W, square) && !SquareHasEnemy(B, square)
      ensures !SquareIsEmpty(square) ==>
        SquareHasEnemy(W, square) != SquareHasEnemy(B, square)
        && SquareHasEnemy(Other(board[square.x, square.y].piece.color), square)
    {
    }
  }
}
