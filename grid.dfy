/**
 * Geometry of the puddle world, shared by both RLWorld variants: a state id is the cell
 * `row * g + col` of a g-by-g grid, a puddle is the `size`-by-`size` square whose top-left
 * cell is its anchor, and the goal is the last cell.
 */
module Grid {
  import opened JavaInt
  import opened Wrappers
  import Actions

  datatype Anchor = Anchor(row: int, col: int)

  function Row(s: int, g: int): int
    requires g > 0
  {
    Div(s, g)
  }

  function Col(s: int, g: int): int
    requires g > 0
  {
    Rem(s, g)
  }

  function Goal(g: int): int
  {
    g * g - 1
  }

  /** An in-range state id names a cell of the grid, and that cell encodes back to it. */
  lemma CellOf(s: int, g: int)
    requires g > 0 && 0 <= s < g * g
    ensures 0 <= Row(s, g) < g && 0 <= Col(s, g) < g
    ensures Row(s, g) * g + Col(s, g) == s
  {
    RowBelow(s, g);
    EuclidNonNegative(s, g);
  }

  /** The goal is the bottom-right cell. */
  lemma GoalCell(g: int)
    requires g > 0
    ensures Row(Goal(g), g) == g - 1 && Col(Goal(g), g) == g - 1
  {
    assert Goal(g) == (g - 1) * g + (g - 1);
    DecodeCell(g - 1, g - 1, g);
  }

  /**
   * simulateAction (and the move inside moveAgentWithAction): one step in the named
   * direction, clamped to the grid; any other string leaves the position as it is.
   */
  function Step(s: int, action: string, g: int): (r: int)
    requires g > 0
    ensures action !in Actions.Names ==> r == s
  {
    DivRem(s, g);
    var row, col := Row(s, g), Col(s, g);
    if action == "UP" then Max(row - 1, 0) * g + col
    else if action == "DOWN" then Min(row + 1, g - 1) * g + col
    else if action == "LEFT" then row * g + Max(col - 1, 0)
    else if action == "RIGHT" then row * g + Min(col + 1, g - 1)
    else row * g + col
  }

  /** From an in-range state every move stays in the grid. */
  lemma StepInRange(s: int, action: string, g: int)
    requires g > 0 && 0 <= s < g * g
    ensures 0 <= Step(s, action, g) < g * g
  {
    CellOf(s, g);
    var row, col := Row(s, g), Col(s, g);
    if action == "UP" {
      CellInRange(Max(row - 1, 0), col, g);
    } else if action == "DOWN" {
      CellInRange(Min(row + 1, g - 1), col, g);
    } else if action == "LEFT" {
      CellInRange(row, Max(col - 1, 0), g);
    } else if action == "RIGHT" {
      CellInRange(row, Min(col + 1, g - 1), g);
    }
  }

  /**
   * From an in-range state, UP and DOWN move one row (g ids) and LEFT and RIGHT one
   * column (1 id), unless the move would leave the grid, in which case the state is kept.
   */
  lemma StepMoves(s: int, action: string, g: int)
    requires g > 0 && 0 <= s < g * g
    ensures action == "UP" ==> Step(s, action, g) == if Row(s, g) == 0 then s else s - g
    ensures action == "DOWN" ==> Step(s, action, g) == if Row(s, g) == g - 1 then s else s + g
    ensures action == "LEFT" ==> Step(s, action, g) == if Col(s, g) == 0 then s else s - 1
    ensures action == "RIGHT" ==> Step(s, action, g) == if Col(s, g) == g - 1 then s else s + 1
  {
    CellOf(s, g);
    var row, col := Row(s, g), Col(s, g);
    assert (row - 1) * g + col == s - g;
    assert (row + 1) * g + col == s + g;
  }

  /** Corners offer 2 actions, other edge cells 3, interior cells 4 (once the grid is at least 2 wide). */
  function Available(s: int, g: int): (r: seq<string>)
    requires g > 0
    ensures forall a :: a in r <==> a in Actions.Names && Allowed(a, Row(s, g), Col(s, g), g)
    ensures forall i, j :: 0 <= i < j < |r| ==> Actions.NameToIndex(r[i]) < Actions.NameToIndex(r[j])
  {
    var row, col := Row(s, g), Col(s, g);
    (if row == 0 then [] else ["UP"])
    + (if row == g - 1 then [] else ["DOWN"])
    + (if col == 0 then [] else ["LEFT"])
    + (if col == g - 1 then [] else ["RIGHT"])
  }

  /** An action is offered unless it points off the edge the cell lies on. */
  predicate Allowed(a: string, row: int, col: int, g: int)
  {
    && (a == "UP" ==> row != 0)
    && (a == "DOWN" ==> row != g - 1)
    && (a == "LEFT" ==> col != 0)
    && (a == "RIGHT" ==> col != g - 1)
  }

  lemma AvailableCount(s: int, g: int)
    requires g >= 2 && 0 <= s < g * g
    ensures var edges := (if Row(s, g) == 0 || Row(s, g) == g - 1 then 1 else 0)
                       + (if Col(s, g) == 0 || Col(s, g) == g - 1 then 1 else 0);
            |Available(s, g)| == 4 - edges
  {
    CellOf(s, g);
  }

  /** An offered action always moves the agent to a different cell. */
  lemma AvailableMoves(s: int, a: string, g: int)
    requires g > 0 && 0 <= s < g * g && a in Available(s, g)
    ensures Step(s, a, g) != s
  {
    StepMoves(s, a, g);
  }

  predicate Covers(a: Anchor, size: int, row: int, col: int)
  {
    a.row <= row < a.row + size && a.col <= col < a.col + size
  }

  /** isPuddle's test: some puddle square covers the state's cell. */
  predicate InPuddle(puddles: seq<Anchor>, size: int, g: int, s: int)
    requires g > 0
  {
    exists i :: 0 <= i < |puddles| && Covers(puddles[i], size, Row(s, g), Col(s, g))
  }

  /** The square covers the goal's cell, (g - 1, g - 1) by GoalCell. */
  predicate CoversGoal(a: Anchor, size: int, g: int)
  {
    Covers(a, size, g - 1, g - 1)
  }

  /** The interval test used by isOverlapping and isOverlappingExistingPuddle. */
  predicate Overlap(a: Anchor, b: Anchor, size: int)
  {
    a.row < b.row + size && b.row < a.row + size && a.col < b.col + size && b.col < a.col + size
  }

  /** The interval test holds exactly when the two squares share a cell. */
  lemma OverlapIffSharedCell(a: Anchor, b: Anchor, size: int)
    ensures Overlap(a, b, size) <==> exists row, col :: Covers(a, size, row, col) && Covers(b, size, row, col)
  {
    if Overlap(a, b, size) {
      var row, col := Max(a.row, b.row), Max(a.col, b.col);
      assert Covers(a, size, row, col) && Covers(b, size, row, col);
    }
  }

  /** The state of puddles that setPuddlePositions admits: in the grid, off the goal, disjoint. */
  ghost predicate Placed(puddles: seq<Anchor>, size: int, g: int)
    requires g > 0
  {
    && (forall i :: 0 <= i < |puddles| ==>
          0 <= puddles[i].row < g && 0 <= puddles[i].col < g && !CoversGoal(puddles[i], size, g))
    && (forall i, j :: 0 <= i < j < |puddles| ==> !Overlap(puddles[i], puddles[j], size))
  }

  /** In a placed layout no cell lies in two puddles. */
  lemma PlacedCellsDisjoint(puddles: seq<Anchor>, size: int, g: int, i: int, j: int, row: int, col: int)
    requires g > 0 && Placed(puddles, size, g)
    requires 0 <= i < |puddles| && 0 <= j < |puddles| && i != j
    requires Covers(puddles[i], size, row, col)
    ensures !Covers(puddles[j], size, row, col)
  {
    if i < j {
      OverlapIffSharedCell(puddles[i], puddles[j], size);
    } else {
      OverlapIffSharedCell(puddles[j], puddles[i], size);
    }
  }

  /** A placed layout never makes the goal a puddle. */
  lemma PlacedGoalDry(puddles: seq<Anchor>, size: int, g: int)
    requires g > 0 && Placed(puddles, size, g)
    ensures !InPuddle(puddles, size, g, Goal(g))
  {
    GoalCell(g);
  }

  /** isPuddle's loop: scans the anchors and stops at the first square that covers the cell. */
  method ScanPuddles(puddles: seq<Anchor>, size: int, g: int, s: int) returns (found: bool)
    requires g > 0
    ensures found <==> InPuddle(puddles, size, g, s)
  {
    var row, col := Div(s, g), Rem(s, g);
    found := false;
    var i := 0;
    while i < |puddles|
      invariant 0 <= i <= |puddles|
      invariant !found
      invariant forall k :: 0 <= k < i ==> !Covers(puddles[k], size, row, col)
    {
      var p := puddles[i];
      if row >= p.row && row < p.row + size && col >= p.col && col < p.col + size {
        found := true;
        return;
      }
      i := i + 1;
    }
  }

  /** isOverlappingExistingPuddle's loop: does the square at `a` overlap any listed square? */
  method AnyOverlap(puddles: seq<Anchor>, a: Anchor, size: int) returns (overlaps: bool)
    ensures overlaps <==> exists i :: 0 <= i < |puddles| && Overlap(a, puddles[i], size)
  {
    var i := 0;
    while i < |puddles|
      invariant 0 <= i <= |puddles|
      invariant forall k :: 0 <= k < i ==> !Overlap(a, puddles[k], size)
    {
      var rowOverlap := a.row < puddles[i].row + size && puddles[i].row < a.row + size;
      var colOverlap := a.col < puddles[i].col + size && puddles[i].col < a.col + size;
      if rowOverlap && colOverlap {
        return true;
      }
      i := i + 1;
    }
    return false;
  }

  /**
   * Why setPuddlePositions refuses one entry, given the squares accepted before it:
   * not a pair, anchor off the grid, goal covered, or overlap with an accepted square.
   */
  datatype Refusal = NotAPair | OffGrid | OnGoal | OverlapsEarlier

  function Refuse(accepted: seq<Anchor>, entry: Option<seq<int>>, size: int, g: int): (r: Option<Refusal>)
    requires g > 0
    ensures r.None? <==>
      entry.Some? && |entry.value| == 2
      && 0 <= entry.value[0] < g && 0 <= entry.value[1] < g
      && !CoversGoal(Anchor(entry.value[0], entry.value[1]), size, g)
      && forall k :: 0 <= k < |accepted| ==> !Overlap(Anchor(entry.value[0], entry.value[1]), accepted[k], size)
  {
    if entry.None? || |entry.value| != 2 then Some(NotAPair)
    else
      var a := Anchor(entry.value[0], entry.value[1]);
      if a.row < 0 || a.row >= g || a.col < 0 || a.col >= g then Some(OffGrid)
      else if CoversGoal(a, size, g) then Some(OnGoal)
      else if exists k :: 0 <= k < |accepted| && Overlap(a, accepted[k], size) then Some(OverlapsEarlier)
      else None
  }

  /**
   * The whole of setPuddlePositions' loop over a non-null list, as a function: the squares
   * accepted when it stops, and whether it stopped by throwing.
   */
  function Accept(accepted: seq<Anchor>, rest: seq<Option<seq<int>>>, size: int, g: int): (r: (seq<Anchor>, bool))
    requires g > 0
    ensures |accepted| <= |r.0| <= |accepted| + |rest|
    ensures r.1 <==> |r.0| == |accepted| + |rest|
    decreases |rest|
  {
    if rest == [] then (accepted, true)
    else if Refuse(accepted, rest[0], size, g).Some? then (accepted, false)
    else Accept(accepted + [Anchor(rest[0].value[0], rest[0].value[1])], rest[1..], size, g)
  }

  /** The anchors a list of pairs denotes. */
  function Anchors(entries: seq<Option<seq<int>>>): (r: seq<Anchor>)
    requires forall i :: 0 <= i < |entries| ==> entries[i].Some? && |entries[i].value| == 2
    ensures |r| == |entries|
    ensures forall i :: 0 <= i < |entries| ==> r[i] == Anchor(entries[i].value[0], entries[i].value[1])
  {
    if entries == [] then [] else [Anchor(entries[0].value[0], entries[0].value[1])] + Anchors(entries[1..])
  }

  /** Appending a square that passed the checks keeps the layout placed. */
  lemma PlacedAppend(accepted: seq<Anchor>, a: Anchor, size: int, g: int)
    requires g > 0 && Placed(accepted, size, g)
    requires 0 <= a.row < g && 0 <= a.col < g && !CoversGoal(a, size, g)
    requires forall k :: 0 <= k < |accepted| ==> !Overlap(a, accepted[k], size)
    ensures Placed(accepted + [a], size, g)
  {
    var next := accepted + [a];
    forall i, j | 0 <= i < j < |next|
      ensures !Overlap(next[i], next[j], size)
    {
      if j == |accepted| {
        assert !Overlap(a, accepted[i], size);
      }
    }
  }

  /** Whatever happens, the loop leaves the layout placed. */
  lemma {:induction false} AcceptPlaced(accepted: seq<Anchor>, rest: seq<Option<seq<int>>>, size: int, g: int)
    requires g > 0 && Placed(accepted, size, g)
    ensures Placed(Accept(accepted, rest, size, g).0, size, g)
    decreases |rest|
  {
    if rest != [] && Refuse(accepted, rest[0], size, g).None? {
      PlacedAppend(accepted, Anchor(rest[0].value[0], rest[0].value[1]), size, g);
      AcceptPlaced(accepted + [Anchor(rest[0].value[0], rest[0].value[1])], rest[1..], size, g);
    }
  }

  /** The accepted squares are the input's first entries, in order, after those accepted before. */
  lemma {:induction false} AcceptPrefix(accepted: seq<Anchor>, rest: seq<Option<seq<int>>>, size: int, g: int)
    requires g > 0
    ensures var out := Accept(accepted, rest, size, g).0;
      && out[..|accepted|] == accepted
      && forall j :: 0 <= j < |out| - |accepted| ==>
           rest[j].Some? && |rest[j].value| == 2
           && out[|accepted| + j] == Anchor(rest[j].value[0], rest[j].value[1])
    decreases |rest|
  {
    if rest != [] && Refuse(accepted, rest[0], size, g).None? {
      var a := Anchor(rest[0].value[0], rest[0].value[1]);
      var next := accepted + [a];
      AcceptPrefix(next, rest[1..], size, g);
      var out := Accept(next, rest[1..], size, g).0;
      assert Accept(accepted, rest, size, g).0 == out;
      assert out[..|next|] == next;
      assert out[..|accepted|] == next[..|accepted|];
      forall j | 0 <= j < |out| - |accepted|
        ensures rest[j].Some? && |rest[j].value| == 2
        ensures out[|accepted| + j] == Anchor(rest[j].value[0], rest[j].value[1])
      {
        if j > 0 {
          assert rest[j] == rest[1..][j - 1];
          assert |next| + (j - 1) == |accepted| + j;
        } else {
          assert out[|accepted|] == next[|accepted|] == a;
        }
      }
    }
  }

  /** When the loop throws, the entry after the accepted ones is refused. */
  lemma {:induction false} AcceptStopsAtRefusal(accepted: seq<Anchor>, rest: seq<Option<seq<int>>>, size: int, g: int)
    requires g > 0
    ensures var out := Accept(accepted, rest, size, g).0;
      |out| - |accepted| < |rest| ==> Refuse(out, rest[|out| - |accepted|], size, g).Some?
    decreases |rest|
  {
    if rest != [] && Refuse(accepted, rest[0], size, g).None? {
      var a := Anchor(rest[0].value[0], rest[0].value[1]);
      AcceptStopsAtRefusal(accepted + [a], rest[1..], size, g);
    }
  }

  /**
   * setPuddlePositions completes exactly when the input, read as anchors, is a placed
   * layout (every entry a pair in the grid, off the goal, no two overlapping), and then
   * stores that layout in input order.
   */
  lemma AcceptAllIff(entries: seq<Option<seq<int>>>, size: int, g: int)
    requires g > 0
    ensures Accept([], entries, size, g).1 <==>
      (forall i :: 0 <= i < |entries| ==> entries[i].Some? && |entries[i].value| == 2)
      && Placed(Anchors(entries), size, g)
    ensures Accept([], entries, size, g).1 ==> Accept([], entries, size, g).0 == Anchors(entries)
  {
    var (out, ok) := Accept([], entries, size, g);
    AcceptPrefix([], entries, size, g);
    AcceptPlaced([], entries, size, g);
    if ok {
      forall i | 0 <= i < |entries|
        ensures entries[i].Some? && |entries[i].value| == 2
      {
        var o := out[i];
      }
      assert out == Anchors(entries);
    }
    if (forall i :: 0 <= i < |entries| ==> entries[i].Some? && |entries[i].value| == 2)
      && Placed(Anchors(entries), size, g) {
      AcceptAnchors(entries, Anchors(entries), size, g, 0);
    }
  }

  /** From any point of a placed layout's entries, the loop accepts all the rest. */
  lemma {:induction false} AcceptAnchors(entries: seq<Option<seq<int>>>, all: seq<Anchor>, size: int, g: int, i: nat)
    requires g > 0 && i <= |entries| == |all|
    requires forall k :: 0 <= k < |entries| ==>
      entries[k].Some? && |entries[k].value| == 2 && all[k] == Anchor(entries[k].value[0], entries[k].value[1])
    requires Placed(all, size, g)
    ensures Accept(all[..i], entries[i..], size, g) == (all, true)
    decreases |entries| - i
  {
    if i == |entries| {
      assert all[..i] == all;
    } else {
      PlacedEntryAccepted(all, i, entries[i], size, g);
      AcceptStep(all[..i], entries[i..], size, g);
      assert all[..i] + [all[i]] == all[..i + 1];
      assert entries[i..][1..] == entries[i + 1..];
      AcceptAnchors(entries, all, size, g, i + 1);
    }
  }

  /** One accepted entry: the loop goes on with it appended. */
  lemma AcceptStep(accepted: seq<Anchor>, rest: seq<Option<seq<int>>>, size: int, g: int)
    requires g > 0 && rest != [] && Refuse(accepted, rest[0], size, g).None?
    ensures Accept(accepted, rest, size, g)
      == Accept(accepted + [Anchor(rest[0].value[0], rest[0].value[1])], rest[1..], size, g)
  {
  }

  /** An entry of a placed layout passes the checks against the entries before it. */
  lemma PlacedEntryAccepted(all: seq<Anchor>, i: nat, entry: Option<seq<int>>, size: int, g: int)
    requires g > 0 && i < |all| && Placed(all, size, g)
    requires entry.Some? && |entry.value| == 2 && all[i] == Anchor(entry.value[0], entry.value[1])
    ensures Refuse(all[..i], entry, size, g).None?
  {
    forall k | 0 <= k < i
      ensures !Overlap(all[i], all[..i][k], size)
    {
      assert !Overlap(all[k], all[i], size);
    }
  }

  /**
   * setPuddlePositions' loop over a non-null list: it appends each entry that passes the
   * checks and stops at the first one that does not.
   */
  method AcceptLoop(entries: seq<Option<seq<int>>>, size: int, g: int) returns (accepted: seq<Anchor>, ok: bool)
    requires g > 0
    ensures (accepted, ok) == Accept([], entries, size, g)
  {
    accepted := [];
    var i := 0;
    while i < |entries|
      invariant 0 <= i <= |entries|
      invariant Accept(accepted, entries[i..], size, g) == Accept([], entries, size, g)
    {
      var entry := entries[i];
      if entry.None? || |entry.value| != 2 {
        return accepted, false;
      }
      var row, col := entry.value[0], entry.value[1];
      if row < 0 || row >= g || col < 0 || col >= g {
        return accepted, false;
      }
      GoalCell(g);
      var goalRow, goalCol := Div(Goal(g), g), Rem(Goal(g), g);
      if row <= goalRow < row + size && col <= goalCol < col + size {
        return accepted, false;
      }
      var overlaps := AnyOverlap(accepted, Anchor(row, col), size);
      if overlaps {
        return accepted, false;
      }
      assert entries[i..][1..] == entries[i + 1..];
      accepted := accepted + [Anchor(row, col)];
      i := i + 1;
    }
    ok := true;
  }
}
