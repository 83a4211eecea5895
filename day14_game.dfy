// Day 14, part two (Rust): the interactive search for the Christmas tree.
// Every one of the WIDTH * HEIGHT distinct boards is computed once; the
// boards with the lowest entropy are kept in a short list sorted by entropy,
// and the user steps through that list. The robots and their step are the
// ones of part one, on a board 101 wide and 103 high.
module Day14Game {
  import opened Wrappers
  import opened Day14

  const Width: nat := 101
  const Height: nat := 103
  const UniqueBoards: nat := Width * Height
  const MaxStoredBoards: nat := 100
  const MidX: nat := Width / 2
  const MidY: nat := Height / 2
  const Size: Vec2 := Vec2(Width, Height)

  /** `Vec<Vec<u32>>`, indexed `board[y][x]`: the robots on each cell. */
  type Board = seq<seq<nat>>

  /** The entropy, a floating-point number in the source, is an ordered
      integer key here. */
  datatype BoardState = BoardState(board: Board, entropy: int, time: nat)

  predicate OnBoard(p: Vec2)
  {
    0 <= p.x < Width && 0 <= p.y < Height
  }

  predicate Shaped(b: Board)
  {
    |b| == Height && forall y :: 0 <= y < |b| ==> |b[y]| == Width
  }

  /** The board has at least the cells the safety factor reads. */
  predicate Covers(b: Board)
  {
    |b| >= Height && forall y :: 0 <= y < Height ==> |b[y]| >= Width
  }

  function EmptyBoard(): (b: Board)
    ensures Shaped(b)
  {
    seq(Height, _ => seq(Width, _ => 0))
  }

  /** One more robot on the cell at p. */
  function Bump(b: Board, p: Vec2): (after: Board)
    requires Shaped(b) && OnBoard(p)
    ensures Shaped(after)
  {
    b[p.y := b[p.y][p.x := b[p.y][p.x] + 1]]
  }

  /** The board filled from the robots' positions; a robot off the board
      makes the `as usize` index fail, which is the `None` outcome. */
  function Tally(rs: seq<Robot>): (r: Option<Board>)
    ensures r.Some? ==> Shaped(r.value)
  {
    if rs == [] then Some(EmptyBoard())
    else
      match Tally(rs[..|rs| - 1])
      case None => None
      case Some(b) =>
        var p := rs[|rs| - 1].position;
        if OnBoard(p) then Some(Bump(b, p)) else None
  }

  /** The board `process_time` returns for the robots after `time` seconds. */
  function BoardAt(robots: seq<Robot>, time: nat): Option<Board>
  {
    Tally(AdvanceAll(robots, Size, time))
  }

  /** The board can be filled exactly when every robot is on it. */
  lemma {:induction false} TallyOnBoard(rs: seq<Robot>)
    ensures Tally(rs).Some? <==> forall i :: 0 <= i < |rs| ==> OnBoard(rs[i].position)
  {
    if rs != [] {
      var init := rs[..|rs| - 1];
      TallyOnBoard(init);
      assert forall i :: 0 <= i < |init| ==> init[i] == rs[i];
    }
  }

  // ---------------------------------------------------------------- totals

  function RowSum(row: seq<nat>, n: nat): nat
    requires n <= |row|
  {
    if n == 0 then 0 else RowSum(row, n - 1) + row[n - 1]
  }

  /** The number of robots on the first m rows. */
  function BoardSum(b: Board, m: nat): nat
    requires Covers(b) && m <= Height
  {
    if m == 0 then 0 else BoardSum(b, m - 1) + RowSum(b[m - 1], Width)
  }

  lemma {:induction false} RowSumUpdate(row: seq<nat>, n: nat, x: nat, v: nat)
    requires n <= |row| && x < |row|
    ensures RowSum(row[x := v], n) == RowSum(row, n) + (if x < n then v - row[x] else 0)
  {
    if n > 0 {
      RowSumUpdate(row, n - 1, x, v);
    }
  }

  lemma {:induction false} BoardSumUpdate(b: Board, m: nat, y: nat, row: seq<nat>)
    requires Covers(b) && m <= Height && y < Height && |row| >= Width
    ensures Covers(b[y := row])
    ensures BoardSum(b[y := row], m) == BoardSum(b, m) + (if y < m then RowSum(row, Width) - RowSum(b[y], Width) else 0)
  {
    var b' := b[y := row];
    assert forall k :: 0 <= k < Height ==> |b'[k]| >= Width by {
      forall k | 0 <= k < Height ensures |b'[k]| >= Width {
        if k != y {
          assert b'[k] == b[k];
        }
      }
    }
    if m > 0 {
      BoardSumUpdate(b, m - 1, y, row);
    }
  }

  lemma {:induction false} ZeroRow(n: nat)
    requires n <= Width
    ensures RowSum(seq(Width, _ => 0), n) == 0
  {
    if n > 0 {
      ZeroRow(n - 1);
    }
  }

  lemma {:induction false} EmptyBoardSum(m: nat)
    requires m <= Height
    ensures BoardSum(EmptyBoard(), m) == 0
  {
    if m > 0 {
      EmptyBoardSum(m - 1);
      ZeroRow(Width);
      assert EmptyBoard()[m - 1] == seq(Width, _ => 0);
    }
  }

  lemma BumpSum(b: Board, p: Vec2)
    requires Shaped(b) && OnBoard(p)
    ensures BoardSum(Bump(b, p), Height) == BoardSum(b, Height) + 1
  {
    var row := b[p.y];
    RowSumUpdate(row, Width, p.x, row[p.x] + 1);
    BoardSumUpdate(b, Height, p.y, row[p.x := row[p.x] + 1]);
  }

  /** The counts on a filled board add up to the number of robots. */
  lemma {:induction false} TallyCount(rs: seq<Robot>, b: Board)
    requires Tally(rs) == Some(b)
    ensures BoardSum(b, Height) == |rs|
  {
    if rs == [] {
      EmptyBoardSum(Height);
    } else {
      var init := rs[..|rs| - 1];
      var b0 := Tally(init).value;
      TallyCount(init, b0);
      BumpSum(b0, rs[|rs| - 1].position);
    }
  }

  // ---------------------------------------------------------------- quadrants

  /** The quadrant of cell (x, y) in `calculate_safety_factor_for_board`:
      0 top left, 1 top right, 2 bottom left, 3 bottom right; the middle
      column and row are skipped. */
  function GameQuadrant(x: int, y: int): (q: Option<nat>)
    ensures q.Some? ==> q.value < 4
  {
    if x == MidX || y == MidY then None
    else
      match (x > MidX, y > MidY)
      case (false, false) => Some(0)
      case (true, false) => Some(1)
      case (false, true) => Some(2)
      case (true, true) => Some(3)
  }

  /** The quadrants are those of part one. */
  lemma QuadrantsAgree(p: Vec2)
    ensures GameQuadrant(p.x, p.y) == QuadrantOf(p, Size)
  {
  }

  function Weight(count: nat, x: int, y: int, q: nat): nat
  {
    if GameQuadrant(x, y) == Some(q) then count else 0
  }

  lemma NoWeight(count: nat, x: int, y: int)
    requires GameQuadrant(x, y).None? || count == 0
    ensures forall q :: Weight(count, x, y, q) == 0
  {
  }

  lemma OneWeight(count: nat, x: int, y: int, quadIdx: nat)
    requires x != MidX && y != MidY
    requires quadIdx == if x > MidX then (if y > MidY then 3 else 1) else (if y > MidY then 2 else 0)
    ensures forall q :: Weight(count, x, y, q) == if q == quadIdx then count else 0
  {
  }

  /** The robots of quadrant q on the first n cells of row y. */
  function QuadRow(row: seq<nat>, y: int, q: nat, n: nat): nat
    requires n <= |row|
  {
    if n == 0 then 0 else QuadRow(row, y, q, n - 1) + Weight(row[n - 1], n - 1, y, q)
  }

  /** The robots of quadrant q on the first m rows. */
  function QuadBoard(b: Board, q: nat, m: nat): nat
    requires Covers(b) && m <= Height
  {
    if m == 0 then 0 else QuadBoard(b, q, m - 1) + QuadRow(b[m - 1], m - 1, q, Width)
  }

  /** The safety factor: the product of the four quadrant sums. */
  function Factor(b: Board): nat
    requires Covers(b)
  {
    QuadBoard(b, 0, Height) * QuadBoard(b, 1, Height) * QuadBoard(b, 2, Height) * QuadBoard(b, 3, Height)
  }

  lemma {:induction false} QuadRowUpdate(row: seq<nat>, y: int, q: nat, n: nat, x: nat, v: nat)
    requires n <= |row| && x < |row|
    ensures QuadRow(row[x := v], y, q, n) ==
      QuadRow(row, y, q, n) + (if x < n then Weight(v, x, y, q) - Weight(row[x], x, y, q) else 0)
  {
    if n > 0 {
      QuadRowUpdate(row, y, q, n - 1, x, v);
    }
  }

  lemma {:induction false} QuadBoardUpdate(b: Board, q: nat, m: nat, y: nat, row: seq<nat>)
    requires Covers(b) && m <= Height && y < Height && |row| >= Width
    ensures Covers(b[y := row])
    ensures QuadBoard(b[y := row], q, m) ==
      QuadBoard(b, q, m) + (if y < m then QuadRow(row, y, q, Width) - QuadRow(b[y], y, q, Width) else 0)
  {
    BoardSumUpdate(b, 0, y, row);
    if m > 0 {
      QuadBoardUpdate(b, q, m - 1, y, row);
    }
  }

  lemma {:induction false} ZeroQuadRow(y: int, q: nat, n: nat)
    requires n <= Width
    ensures QuadRow(seq(Width, _ => 0), y, q, n) == 0
  {
    if n > 0 {
      ZeroQuadRow(y, q, n - 1);
    }
  }

  lemma {:induction false} EmptyQuadBoard(q: nat, m: nat)
    requires m <= Height
    ensures QuadBoard(EmptyBoard(), q, m) == 0
  {
    if m > 0 {
      EmptyQuadBoard(q, m - 1);
      ZeroQuadRow(m - 1, q, Width);
      assert EmptyBoard()[m - 1] == seq(Width, _ => 0);
    }
  }

  lemma BumpQuad(b: Board, p: Vec2, q: nat)
    requires Shaped(b) && OnBoard(p)
    ensures QuadBoard(Bump(b, p), q, Height) ==
      QuadBoard(b, q, Height) + (if GameQuadrant(p.x, p.y) == Some(q) then 1 else 0)
  {
    var row := b[p.y];
    QuadRowUpdate(row, p.y, q, Width, p.x, row[p.x] + 1);
    QuadBoardUpdate(b, q, Height, p.y, row[p.x := row[p.x] + 1]);
  }

  /** Each quadrant sum of a filled board is part one's count of robots in
      that quadrant. */
  lemma {:induction false} TallyQuadrants(rs: seq<Robot>, b: Board, q: nat)
    requires Tally(rs) == Some(b)
    ensures QuadBoard(b, q, Height) == CountIn(rs, Size, q)
  {
    if rs == [] {
      EmptyQuadBoard(q, Height);
    } else {
      var init := rs[..|rs| - 1];
      var b0 := Tally(init).value;
      var p := rs[|rs| - 1].position;
      TallyQuadrants(init, b0, q);
      BumpQuad(b0, p, q);
      QuadrantsAgree(p);
    }
  }

  /** The safety factor of the board at a time is part one's safety score of
      the robots at that time. */
  lemma SafetyFactorAgrees(robots: seq<Robot>, time: nat, b: Board)
    requires BoardAt(robots, time) == Some(b)
    ensures Factor(b) == Score(AdvanceAll(robots, Size, time), Size)
  {
    var after := AdvanceAll(robots, Size, time);
    TallyQuadrants(after, b, 0);
    TallyQuadrants(after, b, 1);
    TallyQuadrants(after, b, 2);
    TallyQuadrants(after, b, 3);
  }

  // ---------------------------------------------------------------- time

  /** Robots that start on the board and are no faster than one board
      length backwards per second. */
  predicate StartsOnBoard(robots: seq<Robot>)
  {
    forall i :: 0 <= i < |robots| ==>
      OnBoard(robots[i].position) && robots[i].velocity.x >= -(Width as int) && robots[i].velocity.y >= -(Height as int)
  }

  /** Such robots stay on the board, so the board can always be filled. */
  lemma StaysOnBoard(robots: seq<Robot>, time: nat)
    requires StartsOnBoard(robots)
    ensures BoardAt(robots, time).Some?
  {
    var after := AdvanceAll(robots, Size, time);
    forall i | 0 <= i < |robots| ensures OnBoard(after[i].position) {
      AdvanceClosedForm(robots[i], Size, time);
    }
    TallyOnBoard(after);
  }

  lemma ModPeriod(a: int, k: int, m: int)
    requires m > 0
    ensures (a + k * m) % m == a % m
  {
    assert a == (a / m) * m + a % m;
    assert a + k * m == (a / m + k) * m + a % m;
    ModUnique(a + k * m, m, a / m + k, a % m);
  }

  /** After WIDTH * HEIGHT seconds every robot is back where it started, so
      the boards at times 0 .. UNIQUE_BOARDS - 1 are all there are. */
  lemma Periodic(robots: seq<Robot>, time: nat)
    requires StartsOnBoard(robots)
    ensures AdvanceAll(robots, Size, time + UniqueBoards) == AdvanceAll(robots, Size, time)
    ensures BoardAt(robots, time + UniqueBoards) == BoardAt(robots, time)
  {
    var later, now := AdvanceAll(robots, Size, time + UniqueBoards), AdvanceAll(robots, Size, time);
    forall i | 0 <= i < |robots| ensures later[i] == now[i] {
      PeriodicRobot(robots[i], time);
    }
  }

  lemma PeriodicRobot(r: Robot, time: nat)
    requires OnBoard(r.position) && r.velocity.x >= -(Width as int) && r.velocity.y >= -(Height as int)
    ensures Advance(r, Size, time + UniqueBoards) == Advance(r, Size, time)
  {
    var p, v := r.position, r.velocity;
    AdvanceClosedForm(r, Size, time);
    AdvanceClosedForm(r, Size, time + UniqueBoards);
    PeriodStep(p.x, v.x, time, Height, Width);
    PeriodStep(p.y, v.y, time, Width, Height);
  }

  /** Moving for `time + k * m` seconds along an axis of length m lands
      where moving for `time` seconds does. */
  lemma PeriodStep(p: int, v: int, time: nat, k: nat, m: nat)
    requires m > 0
    ensures (p + (time + k * m) * v) % m == (p + time * v) % m
  {
    assert (time + k * m) * v == time * v + (k * v) * m;
    ModPeriod(p + time * v, k * v, m);
  }

  /** `process_time`: copies the robots, moves the copies `time` seconds in
      place and counts them on a fresh board. */
  method ProcessTime(robots: seq<Robot>, time: nat) returns (board: Option<Board>)
    ensures board == BoardAt(robots, time)
    ensures board.Some? ==> BoardSum(board.value, Height) == |robots|
  {
    var current := new Robot[|robots|](k requires 0 <= k < |robots| => robots[k]);
    assert current[..] == robots;
    Simulate(current, Size, time);
    ghost var after := current[..];
    var b := EmptyBoard();
    var i := 0;
    assert after[..0] == [];
    while i < current.Length
      invariant 0 <= i <= current.Length && current[..] == after
      invariant Tally(after[..i]) == Some(b)
    {
      var p := current[i].position;
      assert after[..i + 1][..i] == after[..i];
      if !OnBoard(p) {
        TallyOnBoard(after);
        return None;
      }
      b := b[p.y := b[p.y][p.x := b[p.y][p.x] + 1]];
      i := i + 1;
    }
    assert after[..i] == after;
    TallyCount(after, b);
    board := Some(b);
  }

  // ---------------------------------------------------------------- stored states

  predicate SortedByEntropy(states: seq<BoardState>)
  {
    forall i, j :: 0 <= i < j < |states| ==> states[i].entropy <= states[j].entropy
  }

  /** Inserting a state at `pos` keeps the list sorted. */
  predicate InsertionPoint(states: seq<BoardState>, key: int, pos: nat)
  {
    pos <= |states| &&
    (forall i :: 0 <= i < pos ==> states[i].entropy <= key) &&
    (forall i :: pos <= i < |states| ==> key <= states[i].entropy)
  }

  /** `Vec::insert`. */
  function Inserted(states: seq<BoardState>, pos: nat, s: BoardState): (r: seq<BoardState>)
    requires pos <= |states|
    ensures |r| == |states| + 1
  {
    states[..pos] + [s] + states[pos..]
  }

  /** The full list rejects a state whose key is above every stored key. */
  predicate Rejects(states: seq<BoardState>, key: int)
  {
    |states| == MaxStoredBoards && forall i :: 0 <= i < |states| ==> states[i].entropy < key
  }

  lemma InsertSorted(states: seq<BoardState>, pos: nat, s: BoardState)
    requires SortedByEntropy(states) && InsertionPoint(states, s.entropy, pos)
    ensures SortedByEntropy(Inserted(states, pos, s))
  {
    var r := Inserted(states, pos, s);
    forall i, j | 0 <= i < j < |r| ensures r[i].entropy <= r[j].entropy {
      var a, b := r[i], r[j];
      if j < pos {
        assert a == states[i] && b == states[j];
      } else if j == pos {
        assert a == states[i];
      } else if i < pos {
        assert a == states[i] && b == states[j - 1];
      } else if i == pos {
        assert b == states[j - 1];
      } else {
        assert a == states[i - 1] && b == states[j - 1];
      }
    }
  }

  /** `binary_search_by` on the entropy: `Ok(mid)` where a stored state has
      the same key, `Err(left)` with the insertion point otherwise. */
  method BinarySearchByEntropy(states: seq<BoardState>, key: int) returns (found: bool, pos: nat)
    requires SortedByEntropy(states)
    ensures pos <= |states|
    ensures found ==> pos < |states| && states[pos].entropy == key
    ensures !found ==> (forall i :: 0 <= i < pos ==> states[i].entropy < key) &&
                       (forall i :: pos <= i < |states| ==> key < states[i].entropy)
  {
    var left, right := 0, |states|;
    while left < right
      invariant 0 <= left <= right <= |states|
      invariant forall i :: 0 <= i < left ==> states[i].entropy < key
      invariant forall i :: right <= i < |states| ==> key < states[i].entropy
    {
      var mid := left + (right - left) / 2;
      var probe := states[mid].entropy;
      if probe < key {
        left := mid + 1;
      } else if probe > key {
        right := mid;
      } else {
        return true, mid;
      }
    }
    return false, left;
  }

  /** Either result of the search is an insertion point. */
  lemma SearchInsertionPoint(states: seq<BoardState>, key: int, found: bool, pos: nat)
    requires SortedByEntropy(states) && pos <= |states|
    requires found ==> pos < |states| && states[pos].entropy == key
    requires !found ==> (forall i :: 0 <= i < pos ==> states[i].entropy < key) &&
                        (forall i :: pos <= i < |states| ==> key < states[i].entropy)
    ensures InsertionPoint(states, key, pos)
    ensures |states| <= MaxStoredBoards ==> (Rejects(states, key) <==> pos >= MaxStoredBoards)
  {
  }

  lemma InsertedMembers(states: seq<BoardState>, pos: nat, s: BoardState)
    requires pos <= |states|
    ensures forall t :: t in Inserted(states, pos, s) ==> t in states || t == s
  {
    var grown := Inserted(states, pos, s);
    forall t | t in grown ensures t in states || t == s {
      var i :| 0 <= i < |grown| && grown[i] == t;
      if i < pos {
        assert t == states[i];
      } else if i > pos {
        assert t == states[i - 1];
      }
    }
  }

  /** Dropping the last state keeps the list sorted and adds nothing. */
  lemma PoppedKeeps(states: seq<BoardState>)
    requires SortedByEntropy(states)
    ensures SortedByEntropy(Popped(states))
    ensures forall t :: t in Popped(states) ==> t in states
  {
    if |states| > MaxStoredBoards {
      assert forall i :: 0 <= i < |Popped(states)| ==> Popped(states)[i] == states[i];
    }
  }

  class Game {
    var robots: seq<Robot>
    var currentTime: nat
    var lowestEntropyStates: seq<BoardState>
    /** `selected_state_idx`; `None` shows the board at `current_time`. */
    var selectedStateIdx: Option<nat>

    ghost predicate Valid()
      reads this
    {
      SortedByEntropy(lowestEntropyStates) &&
      |lowestEntropyStates| <= MaxStoredBoards &&
      (selectedStateIdx.Some? ==> selectedStateIdx.value < |lowestEntropyStates|)
    }

    /** `Game::new` on parsed robots: the board at every time below
        UNIQUE_BOARDS whose entropy is at most `threshold` is offered to the
        list of lowest-entropy states. `entropy` stands for
        `calculate_entropy`. */
    constructor(robots0: seq<Robot>, entropy: Board -> int, threshold: int)
      requires StartsOnBoard(robots0)
      ensures Valid()
      ensures robots == robots0 && currentTime == 0 && selectedStateIdx == None
      ensures forall s :: s in lowestEntropyStates ==>
        s.time < UniqueBoards && BoardAt(robots0, s.time) == Some(s.board) &&
        s.entropy == entropy(s.board) && s.entropy <= threshold
    {
      robots := robots0;
      currentTime := 0;
      lowestEntropyStates := [];
      selectedStateIdx := None;
      new;
      var time := 0;
      while time < UniqueBoards
        invariant time <= UniqueBoards
        invariant Valid()
        invariant robots == robots0 && currentTime == 0 && selectedStateIdx == None
        invariant forall s :: s in lowestEntropyStates ==>
          s.time < time && BoardAt(robots0, s.time) == Some(s.board) &&
          s.entropy == entropy(s.board) && s.entropy <= threshold
      {
        var board := ProcessTime(robots, time);
        StaysOnBoard(robots, time);
        var e := entropy(board.value);
        if e <= threshold {
          UpdateLowestEntropyStates(BoardState(board.value, e, time));
        }
        time := time + 1;
      }
    }

    /** `update_lowest_entropy_states`: insert at the search position when
        that is below MAX_STORED_BOARDS, then drop the last state if the list
        grew past it. */
    method UpdateLowestEntropyStates(state: BoardState)
      requires Valid()
      modifies this
      ensures Valid()
      ensures robots == old(robots) && currentTime == old(currentTime) && selectedStateIdx == old(selectedStateIdx)
      ensures Rejects(old(lowestEntropyStates), state.entropy) ==> lowestEntropyStates == old(lowestEntropyStates)
      ensures !Rejects(old(lowestEntropyStates), state.entropy) ==>
        exists pos :: InsertionPoint(old(lowestEntropyStates), state.entropy, pos) &&
          lowestEntropyStates == Popped(Inserted(old(lowestEntropyStates), pos, state))
      ensures forall s :: s in lowestEntropyStates ==> s in old(lowestEntropyStates) || s == state
    {
      ghost var before := lowestEntropyStates;
      var found, insertPos := BinarySearchByEntropy(lowestEntropyStates, state.entropy);
      SearchInsertionPoint(before, state.entropy, found, insertPos);
      if insertPos < MaxStoredBoards {
        InsertSorted(before, insertPos, state);
        InsertedMembers(before, insertPos, state);
        lowestEntropyStates := lowestEntropyStates[..insertPos] + [state] + lowestEntropyStates[insertPos..];
        ghost var grown := lowestEntropyStates;
        if |lowestEntropyStates| > MaxStoredBoards {
          lowestEntropyStates := lowestEntropyStates[..|lowestEntropyStates| - 1];
        }
        PoppedKeeps(grown);
        assert lowestEntropyStates == Popped(Inserted(before, insertPos, state));
      }
    }

    function SelectedState(): (r: Option<BoardState>)
      reads this
      ensures r.Some? ==> r.value in lowestEntropyStates
      ensures Valid() ==> (r.Some? <==> selectedStateIdx.Some?)
    {
      if selectedStateIdx.Some? && selectedStateIdx.value < |lowestEntropyStates| then
        Some(lowestEntropyStates[selectedStateIdx.value])
      else None
    }

    /** `select_state`: an index past the end of the list is ignored. */
    method SelectState(idx: nat)
      requires Valid()
      modifies this
      ensures Valid()
      ensures selectedStateIdx == if idx < |lowestEntropyStates| then Some(idx) else old(selectedStateIdx)
      ensures robots == old(robots) && currentTime == old(currentTime) && lowestEntropyStates == old(lowestEntropyStates)
    {
      if idx < |lowestEntropyStates| {
        selectedStateIdx := Some(idx);
      }
    }

    /** `select_next_state`: from no selection it counts from index 0, so
        it selects index 1. */
    method SelectNextState()
      requires Valid()
      modifies this
      ensures Valid()
      ensures var current := old(selectedStateIdx).GetOr(0);
        selectedStateIdx == if current + 1 < |lowestEntropyStates| then Some(current + 1) else old(selectedStateIdx)
      ensures robots == old(robots) && currentTime == old(currentTime) && lowestEntropyStates == old(lowestEntropyStates)
    {
      var currentIdx := selectedStateIdx.GetOr(0);
      if currentIdx + 1 < |lowestEntropyStates| {
        SelectState(currentIdx + 1);
      }
    }

    /** `select_prev_state`: no selection and index 0 stay as they are. */
    method SelectPrevState()
      requires Valid()
      modifies this
      ensures Valid()
      ensures var current := old(selectedStateIdx).GetOr(0);
        selectedStateIdx == if current > 0 then Some(current - 1) else old(selectedStateIdx)
      ensures robots == old(robots) && currentTime == old(currentTime) && lowestEntropyStates == old(lowestEntropyStates)
    {
      var currentIdx := selectedStateIdx.GetOr(0);
      if currentIdx > 0 {
        SelectState(currentIdx - 1);
      }
    }

    function IsCurrentSelected(): (r: bool)
      reads this
      ensures Valid() ==> (r <==> SelectedState().None?)
    {
      selectedStateIdx.None?
    }

    function IsTimeSelected(time: nat): (r: bool)
      reads this
      ensures r ==> !IsCurrentSelected()
      ensures r ==> exists i :: 0 <= i < |lowestEntropyStates| && lowestEntropyStates[i].time == time
      ensures Valid() ==> (r <==> SelectedState().Some? && SelectedState().value.time == time)
      ensures Valid() ==> (r <==> selectedStateIdx.Some? && lowestEntropyStates[selectedStateIdx.value].time == time)
    {
      match SelectedState()
      case None => false
      case Some(state) => state.time == time
    }

    method CurrentBoard() returns (board: Option<Board>)
      ensures board == BoardAt(robots, currentTime)
    {
      board := ProcessTime(robots, currentTime);
    }

    /** `calculate_safety_factor_for_board`: the four quadrant sums, skipping
        the middle column and row, multiplied together. */
    method SafetyFactorForBoard(board: Board) returns (factor: nat)
      requires Covers(board)
      ensures factor == Factor(board)
    {
      var quadrants := new nat[4](_ => 0);
      var y := 0;
      while y < Height
        invariant 0 <= y <= Height
        invariant forall q :: 0 <= q < 4 ==> quadrants[q] == QuadBoard(board, q, y)
      {
        ScanRow(board[y], y, quadrants);
        y := y + 1;
      }
      factor := quadrants[0] * quadrants[1] * quadrants[2] * quadrants[3];
    }

    /** `calculate_safety_factor`: the factor of the current board, which is
        the part-one safety score of the robots at the current time. */
    method CalculateSafetyFactor() returns (factor: Option<nat>)
      ensures BoardAt(robots, currentTime).None? ==> factor.None?
      ensures BoardAt(robots, currentTime).Some? ==>
        factor == Some(Score(AdvanceAll(robots, Size, currentTime), Size))
    {
      var board := CurrentBoard();
      if board.None? {
        return None;
      }
      var f := SafetyFactorForBoard(board.value);
      SafetyFactorAgrees(robots, currentTime, board.value);
      factor := Some(f);
    }
  }

  /** `Vec::pop` after an insert that made the list too long. */
  function Popped(states: seq<BoardState>): (r: seq<BoardState>)
    ensures |r| == if |states| > MaxStoredBoards then |states| - 1 else |states|
  {
    if |states| > MaxStoredBoards then states[..|states| - 1] else states
  }

  /** The inner loop of `calculate_safety_factor_for_board` over row y. */
  method ScanRow(row: seq<nat>, y: nat, quadrants: array<nat>)
    requires |row| >= Width && quadrants.Length == 4
    modifies quadrants
    ensures forall q :: 0 <= q < 4 ==> quadrants[q] == old(quadrants[q]) + QuadRow(row, y, q, Width)
  {
    var x := 0;
    while x < Width
      invariant 0 <= x <= Width
      invariant forall q :: 0 <= q < 4 ==> quadrants[q] == old(quadrants[q]) + QuadRow(row, y, q, x)
    {
      if x == MidX || y == MidY {
        NoWeight(row[x], x, y);
        x := x + 1;
        continue;
      }
      var count := row[x];
      if count == 0 {
        NoWeight(0, x, y);
        x := x + 1;
        continue;
      }
      var quadIdx := match (x > MidX, y > MidY)
        case (false, false) => 0
        case (true, false) => 1
        case (false, true) => 2
        case (true, true) => 3;
      OneWeight(count, x, y, quadIdx);
      quadrants[quadIdx] := quadrants[quadIdx] + count;
      x := x + 1;
    }
  }

  /** Stepping forward and then back returns to the same stored state. */
  method NextThenPrev(game: Game, i: nat)
    requires game.Valid() && game.selectedStateIdx == Some(i) && i + 1 < |game.lowestEntropyStates|
    modifies game
    ensures game.selectedStateIdx == Some(i)
  {
    game.SelectNextState();
    game.SelectPrevState();
  }
}
