/**
 * The server's record of one Game of the Amazons (AmazonsGame): the two players, the room,
 * the started/completed flags, the list of recorded positions and the 11-by-11 board whose
 * rows and columns 1 .. 10 are played on. Users are modelled by their names, a missing user
 * by None; the game-record file is left out.
 */
module Amazons {
  import opened Wrappers

  const WHITE: int := 2
  const BLACK: int := 1
  const ARROW: int := 3
  const Side: int := 11

  /** A board as the rows of the state array. */
  type Board = seq<seq<int>>

  predicate Square(b: Board)
  {
    |b| == Side && forall i :: 0 <= i < Side ==> |b[i]| == Side
  }

  predicate OnBoard(x: int)
  {
    0 <= x < Side
  }

  /** The starting position: four white queens, four black queens, every other cell 0. */
  function InitialCell(i: int, j: int): int
  {
    if (i, j) in {(4, 1), (4, 10), (1, 4), (1, 7)} then WHITE
    else if (i, j) in {(7, 1), (7, 10), (10, 4), (10, 7)} then BLACK
    else 0
  }

  const InitialBoard: Board := seq(Side, i => seq(Side, j => InitialCell(i, j)))

  /** The black queens stand where the white ones would after mirroring the rows 1 .. 10. */
  lemma InitialMirror(i: int, j: int)
    requires 1 <= i <= 10 && OnBoard(j)
    ensures InitialBoard[i][j] == WHITE <==> InitialBoard[11 - i][j] == BLACK
  {
  }

  /** Row 0 and column 0 are outside the 10-by-10 playing area and start empty. */
  lemma InitialBorderEmpty(k: int)
    requires OnBoard(k)
    ensures InitialBoard[0][k] == 0 && InitialBoard[k][0] == 0
  {
  }

  /** One cell written, every other cell kept. */
  function Put(b: Board, r: int, c: int, v: int): (nb: Board)
    requires Square(b) && OnBoard(r) && OnBoard(c)
    ensures Square(nb) && nb[r][c] == v
    ensures forall i, j :: OnBoard(i) && OnBoard(j) && (i, j) != (r, c) ==> nb[i][j] == b[i][j]
  {
    b[r := b[r][c := v]]
  }

  /** ArrayList.get on a position list that may be null. */
  function Element(p: Option<seq<int>>, k: nat): (r: Result<int>)
    ensures r.Ok? <==> p.Some? && k < |p.value|
    ensures r.Ok? ==> r.value == p.value[k]
    ensures p.None? ==> r == Err(NullReference)
  {
    if p.None? then Err(NullReference) else if k < |p.value| then Ok(p.value[k]) else Err(IndexOutOfBounds)
  }

  /** An element fetched and used at once as an index into the state array. */
  function Coordinate(p: Option<seq<int>>, k: nat): (r: Result<int>)
    ensures r.Ok? <==> Element(p, k).Ok? && OnBoard(Element(p, k).value)
    ensures r.Ok? ==> r.value == p.value[k]
  {
    var e := Element(p, k);
    if e.Err? then e else if OnBoard(e.value) then e else Err(IndexOutOfBounds)
  }

  /**
   * The first exception of the statement moving the queen, in Java's evaluation order: the
   * target row, the target column (fetched, checked only after the right-hand side), the
   * source row, the source column, and last the bounds of the target column.
   */
  function MoveFault(qcurr: Option<seq<int>>, qnext: Option<seq<int>>): (r: Option<Fault>)
    ensures r.None? <==>
      && Coordinate(qnext, 0).Ok? && Coordinate(qnext, 1).Ok?
      && Coordinate(qcurr, 0).Ok? && Coordinate(qcurr, 1).Ok?
  {
    if Coordinate(qnext, 0).Err? then Some(Coordinate(qnext, 0).fault)
    else if Element(qnext, 1).Err? then Some(Element(qnext, 1).fault)
    else if Coordinate(qcurr, 0).Err? then Some(Coordinate(qcurr, 0).fault)
    else if Coordinate(qcurr, 1).Err? then Some(Coordinate(qcurr, 1).fault)
    else if !OnBoard(qnext.value[1]) then Some(IndexOutOfBounds)
    else None
  }

  /** The first exception of the statement placing the arrow. */
  function ArrowFault(arrow: Option<seq<int>>): (r: Option<Fault>)
    ensures r.None? <==> Coordinate(arrow, 0).Ok? && Coordinate(arrow, 1).Ok?
  {
    if Coordinate(arrow, 0).Err? then Some(Coordinate(arrow, 0).fault)
    else if Coordinate(arrow, 1).Err? then Some(Coordinate(arrow, 1).fault)
    else None
  }

  /**
   * The board part of recordMove: the target takes the source's value, the source becomes 0,
   * the arrow cell becomes ARROW, in that order; an exception stops the writes where it occurs.
   */
  function Played(b: Board, qcurr: Option<seq<int>>, qnext: Option<seq<int>>, arrow: Option<seq<int>>): (r: (Board, Outcome))
    requires Square(b)
    ensures Square(r.0)
    ensures MoveFault(qcurr, qnext).Some? ==> r == (b, Threw(MoveFault(qcurr, qnext).value))
  {
    match MoveFault(qcurr, qnext)
    case Some(f) => (b, Threw(f))
    case None =>
      var moved := Put(Put(b, qnext.value[0], qnext.value[1], b[qcurr.value[0]][qcurr.value[1]]), qcurr.value[0], qcurr.value[1], 0);
      match ArrowFault(arrow)
      case Some(f) => (moved, Threw(f))
      case None => (Put(moved, arrow.value[0], arrow.value[1], ARROW), Normal)
  }

  /**
   * A move whose source, target and arrow cells are three different cells carries the queen
   * to the target, empties the source, places the arrow, and leaves every other cell alone.
   */
  lemma QueenMoves(b: Board, qcurr: seq<int>, qnext: seq<int>, arrow: seq<int>)
    requires Square(b) && |qcurr| >= 2 && |qnext| >= 2 && |arrow| >= 2
    requires OnBoard(qcurr[0]) && OnBoard(qcurr[1]) && OnBoard(qnext[0]) && OnBoard(qnext[1])
    requires OnBoard(arrow[0]) && OnBoard(arrow[1])
    requires (qcurr[0], qcurr[1]) != (qnext[0], qnext[1])
    requires (arrow[0], arrow[1]) != (qcurr[0], qcurr[1]) && (arrow[0], arrow[1]) != (qnext[0], qnext[1])
    ensures Played(b, Some(qcurr), Some(qnext), Some(arrow)).1 == Normal
    ensures
      var nb := Played(b, Some(qcurr), Some(qnext), Some(arrow)).0;
      && nb[qnext[0]][qnext[1]] == b[qcurr[0]][qcurr[1]]
      && nb[qcurr[0]][qcurr[1]] == 0
      && nb[arrow[0]][arrow[1]] == ARROW
      && forall i, j :: OnBoard(i) && OnBoard(j) && (i, j) !in {(qcurr[0], qcurr[1]), (qnext[0], qnext[1]), (arrow[0], arrow[1])} ==> nb[i][j] == b[i][j]
  {
    assert MoveFault(Some(qcurr), Some(qnext)).None?;
    assert ArrowFault(Some(arrow)).None?;
  }

  /** A queen "moved" onto its own cell disappears: the order of the writes leaves the cell 0 unless the arrow lands there. */
  lemma StandingQueenVanishes(b: Board, q: seq<int>, arrow: seq<int>)
    requires Square(b) && |q| >= 2 && |arrow| >= 2
    requires OnBoard(q[0]) && OnBoard(q[1]) && OnBoard(arrow[0]) && OnBoard(arrow[1])
    requires (arrow[0], arrow[1]) != (q[0], q[1])
    ensures Played(b, Some(q), Some(q), Some(arrow)).0[q[0]][q[1]] == 0
  {
    assert MoveFault(Some(q), Some(q)).None?;
    assert ArrowFault(Some(arrow)).None?;
  }

  /** The rows of a board laid end to end. */
  function Flatten(rows: seq<seq<int>>): (s: seq<int>)
    requires forall i :: 0 <= i < |rows| ==> |rows[i]| == Side
    ensures |s| == Side * |rows|
  {
    if rows == [] then [] else Flatten(rows[..|rows| - 1]) + rows[|rows| - 1]
  }

  /** Entry 11 * i + j of the flattened board is cell (i, j). */
  lemma {:induction false} FlattenIndex(rows: seq<seq<int>>, i: int, j: int)
    requires forall k :: 0 <= k < |rows| ==> |rows[k]| == Side
    requires 0 <= i < |rows| && OnBoard(j)
    ensures Flatten(rows)[Side * i + j] == rows[i][j]
  {
    var n := |rows| - 1;
    if i < n {
      FlattenIndex(rows[..n], i, j);
      assert Side * i + j < Side * n by {
        assert Side * (i + 1) <= Side * n;
      }
    }
  }

  /** Reading entry k back as cell (k / 11, k % 11), as the board display does, gives the cell it came from. */
  lemma FlattenDecode(b: Board, k: int)
    requires Square(b) && 0 <= k < Side * Side
    ensures Flatten(b)[k] == b[k / Side][k % Side]
  {
    FlattenIndex(b, k / Side, k % Side);
  }

  class AmazonsGame {
    var playerB: Option<string>
    var playerW: Option<string>
    var roomName: string
    var started: bool
    var completed: bool
    var moveRecord: Option<seq<Option<seq<int>>>>
    var state: array2<int>
    /** Whether the record file's writer `out` has been assigned (it starts null). */
    var hasWriter: bool

    ghost predicate Valid()
      reads this
    {
      state.Length0 == Side && state.Length1 == Side
    }

    /** The state array as a board value. */
    ghost function Board(): (b: Board)
      requires Valid()
      reads this, state
      ensures Square(b)
    {
      var a := state;
      seq(Side, i requires 0 <= i < Side reads a => seq(Side, j requires 0 <= j < Side reads a => a[i, j]))
    }

    /** The no-argument constructor: the starting position, no players, room "default". */
    constructor ()
      ensures Valid() && fresh(state) && Board() == InitialBoard
      ensures playerB.None? && playerW.None? && roomName == "default"
      ensures !started && !completed && moveRecord.None? && !hasWriter
    {
      playerB, playerW, roomName := None, None, "default";
      started, completed, moveRecord, hasWriter := false, false, None, false;
      var board := NewBoard();
      state := board;
      new;
      assert forall i | 0 <= i < Side :: Board()[i] == InitialBoard[i];
    }

    /** The constructor taking the first player, who plays Black. */
    constructor WithBlack(playerB: Option<string>)
      ensures Valid() && fresh(state) && Board() == InitialBoard
      ensures this.playerB == playerB && playerW.None? && roomName == "default"
      ensures !started && !completed && moveRecord.None? && !hasWriter
    {
      this.playerB, playerW, roomName := playerB, None, "default";
      started, completed, moveRecord, hasWriter := false, false, None, false;
      var board := NewBoard();
      state := board;
      new;
      assert forall i | 0 <= i < Side :: Board()[i] == InitialBoard[i];
    }

    /** The constructor taking the first player and the room's name. */
    constructor InRoom(playerB: Option<string>, roomName: string)
      ensures Valid() && fresh(state) && Board() == InitialBoard
      ensures this.playerB == playerB && playerW.None? && this.roomName == roomName
      ensures !started && !completed && moveRecord.None? && !hasWriter
    {
      this.playerB, playerW, this.roomName := playerB, None, roomName;
      started, completed, moveRecord, hasWriter := false, false, None, false;
      var board := NewBoard();
      state := board;
      new;
      assert forall i | 0 <= i < Side :: Board()[i] == InitialBoard[i];
    }

    /** The board the constructors build: a fresh zero array with the eight queens set. */
    static method NewBoard() returns (a: array2<int>)
      ensures fresh(a) && a.Length0 == Side && a.Length1 == Side
      ensures forall i, j :: OnBoard(i) && OnBoard(j) ==> a[i, j] == InitialBoard[i][j]
    {
      a := new int[Side, Side]((i, j) => 0);
      a[4, 1] := WHITE;
      a[4, 10] := WHITE;
      a[1, 4] := WHITE;
      a[1, 7] := WHITE;
      a[7, 1] := BLACK;
      a[7, 10] := BLACK;
      a[10, 4] := BLACK;
      a[10, 7] := BLACK;
    }

    /** setSecondPlayer: the second player plays White; nothing else changes. */
    method SetSecondPlayer(playerW: Option<string>)
      modifies this`playerW
      ensures this.playerW == playerW
    {
      this.playerW := playerW;
    }

    /**
     * startGame: the move record becomes empty, then the record file is named after both
     * players (a missing one throws before the writer is touched) and opened; `fileCreated`
     * says whether the file could be created. A failure is caught and leaves the writer as it
     * was, so writing the header throws only when no earlier start assigned one. Only after
     * the header is the game started.
     */
    method StartGame(fileCreated: bool) returns (outcome: Outcome)
      modifies this`moveRecord, this`started, this`hasWriter
      ensures moveRecord == Some([])
      ensures hasWriter == (old(hasWriter) || (playerB.Some? && playerW.Some? && fileCreated))
      ensures outcome == Threw(NullReference) <==>
        playerB.None? || playerW.None? || (!fileCreated && !old(hasWriter))
      ensures started == (old(started) || outcome == Normal)
      ensures outcome == Normal || outcome == Threw(NullReference)
    {
      moveRecord := Some([]);
      if playerB.None? || playerW.None? {
        return Threw(NullReference);
      }
      if fileCreated {
        hasWriter := true;
      }
      if !hasWriter {
        return Threw(NullReference);
      }
      started := true;
      return Normal;
    }

    /** One cell of the state array written. */
    method Write(r: int, c: int, v: int)
      requires Valid() && OnBoard(r) && OnBoard(c)
      modifies state
      ensures Valid() && Board() == Put(old(Board()), r, c, v)
    {
      state[r, c] := v;
      assert forall i | 0 <= i < Side :: Board()[i] == Put(old(Board()), r, c, v)[i];
    }

    /**
     * recordMove: the three positions of the request (null when missing) are appended to the
     * move record, then the board is updated as Played says; without a move record (the game
     * not started) it throws before anything changes. A move that completes is then written
     * to the record file, which throws when no writer was ever assigned.
     */
    method RecordMove(qcurr: Option<seq<int>>, qnext: Option<seq<int>>, arrow: Option<seq<int>>)
      returns (outcome: Outcome)
      requires Valid()
      modifies this`moveRecord, state
      ensures Valid()
      ensures old(moveRecord).None? ==> outcome == Threw(NullReference) && moveRecord.None? && Board() == old(Board())
      ensures old(moveRecord).Some? ==>
        && moveRecord == Some(old(moveRecord).value + [qcurr, qnext, arrow])
        && Board() == Played(old(Board()), qcurr, qnext, arrow).0
        && (Played(old(Board()), qcurr, qnext, arrow).1 != Normal ==>
              outcome == Played(old(Board()), qcurr, qnext, arrow).1)
        && (Played(old(Board()), qcurr, qnext, arrow).1 == Normal ==>
              outcome == (if hasWriter then Normal else Threw(NullReference)))
    {
      if moveRecord.None? {
        return Threw(NullReference);
      }
      ghost var before := Board();
      moveRecord := Some(moveRecord.value + [qcurr, qnext, arrow]);
      assert forall i | 0 <= i < Side :: Board()[i] == before[i];
      var fault := MoveFault(qcurr, qnext);
      if fault.Some? {
        assert Board() == old(Board());
        assert Played(old(Board()), qcurr, qnext, arrow) == (old(Board()), Threw(fault.value));
        return Threw(fault.value);
      }
      var sr, sc := qcurr.value[0], qcurr.value[1];
      Write(qnext.value[0], qnext.value[1], state[sr, sc]);
      Write(sr, sc, 0);
      var arrowFault := ArrowFault(arrow);
      if arrowFault.Some? {
        return Threw(arrowFault.value);
      }
      Write(arrow.value[0], arrow.value[1], ARROW);
      if !hasWriter {
        return Threw(NullReference);
      }
      return Normal;
    }

    /** finish: the game is completed (closing the record file is left out). */
    method Finish()
      modifies this`completed
      ensures completed
    {
      completed := true;
    }

    /** stateToArrayList: the board row by row, 121 entries. */
    method StateToArrayList() returns (s: seq<int>)
      requires Valid()
      ensures |s| == Side * Side
      ensures s == Flatten(Board())
    {
      s := [];
      var i := 0;
      while i < Side
        invariant 0 <= i <= Side
        invariant s == Flatten(Board()[..i])
      {
        var j := 0;
        while j < Side
          invariant 0 <= j <= Side
          invariant s == Flatten(Board()[..i]) + Board()[i][..j]
        {
          s := s + [state[i, j]];
          j := j + 1;
        }
        assert Board()[..i + 1][..i] == Board()[..i];
        assert Board()[i][..Side] == Board()[i];
        i := i + 1;
      }
      assert Board()[..Side] == Board();
    }
  }
}
