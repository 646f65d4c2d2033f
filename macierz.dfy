/** The matrix row-sum client of macierz.c.  A k x n matrix is stored row
  by row; one actor per column is spawned in a chain.  Every row travels
  down the chain as a COMPUTE message: each actor adds its column's cell to
  the row's running sum, which lives in an array shared by all actors, and
  the actor of the last column prints it.  The root also starts the next
  row, and every actor terminates after the last row.

  Each handler is a method on the actor's heap state record; it updates
  the record (or the shared row sums) in place and returns, in order, the
  messages it passes to send_message. */
module Macierz {
  import opened CactiSpec

  // The message tags of this client.
  const MSG_MEET_CHILD: int := 1
  const MSG_COMPUTE: int := 2
  const MSG_GETDATA: int := 3

  /** Handler tables: `prompts` for the spawned actors, `prompts_first_actor`
    for the root. */
  const PROMPTS: HandlerTable := 0
  const PROMPTS_FIRST_ACTOR: HandlerTable := 1

  /** The role of every spawned actor: hello, meet_your_child, compute. */
  const ROLE: Role := Role(3, PROMPTS)
  /** The root's role, with get_data as a fourth handler. */
  const FIRST_ACTOR_ROLE: Role := Role(4, PROMPTS_FIRST_ACTOR)

  /** matrix_cell_t */
  datatype Cell = Cell(sleepTime: int, value: int)

  /** row_t: the running sum of a row and the row's index. */
  datatype RowSum = RowSum(sum: int, row: nat)

  /** mat_t: the dimensions, the column of the actor holding it, and the
    matrix and the row sums, which every actor shares.  Its `read_val` is
    always read_and_sum. */
  datatype Mat = Mat(k: nat, n: nat, column: nat, matrix: array<Cell>, rowSums: array<RowSum>)

  /** What a message of this client carries: a state record (MEET_CHILD),
    the address of an entry of the row sums (COMPUTE), a role (SPAWN). */
  datatype Data = NoData | StateRef(st: State) | RowRef(index: nat) | SpawnRole(role: Role)

  /** One send_message made by a handler. */
  datatype Out = Out(target: ActorId, tag: int, data: Data)

  datatype Option<T> = None | Some(value: T)

  // ---------------------------------------------------------------------
  // read_and_sum and the row totals

  /** The effect of read_and_sum on the row sums: the cell of row `row`
    in column `column` is added to that row's sum. */
  function AddCell(rows: seq<RowSum>, cells: seq<Cell>, n: nat, column: nat, row: nat): (r: seq<RowSum>)
    requires row < |rows| && row * n + column < |cells|
    ensures |r| == |rows|
    ensures r[row].sum == rows[row].sum + cells[row * n + column].value && r[row].row == rows[row].row
    ensures forall i :: 0 <= i < |rows| && i != row ==> r[i] == rows[i]
  {
    rows[row := rows[row].(sum := rows[row].sum + cells[row * n + column].value)]
  }

  /** read_and_sum: add matrix[row * n + column] to row_sums[row].  The
    sleep that simulates a slow read is not modelled. */
  method ReadAndSum(m: Mat, row: nat)
    requires row < m.rowSums.Length && row * m.n + m.column < m.matrix.Length
    modifies m.rowSums
    ensures m.rowSums[..] == AddCell(old(m.rowSums[..]), m.matrix[..], m.n, m.column, row)
  {
    var index := row * m.n + m.column;
    m.rowSums[row] := m.rowSums[row].(sum := m.rowSums[row].sum + m.matrix[index].value);
  }

  /** The value of cell `i`, or 0 past the end. */
  function At(cells: seq<Cell>, i: nat): int {
    if i < |cells| then cells[i].value else 0
  }

  /** The sum of the first `columns` cells of row `row`. */
  function RowTotal(cells: seq<Cell>, n: nat, row: nat, columns: nat): int {
    if columns == 0 then 0 else RowTotal(cells, n, row, columns - 1) + At(cells, row * n + columns - 1)
  }

  /** One read_and_sum: the column that read, and the row it read for. */
  datatype Read = Read(column: nat, row: nat)

  predicate ReadsOk(history: seq<Read>, rows: nat, cells: nat, n: nat) {
    forall j :: 0 <= j < |history| ==> history[j].row < rows && history[j].row * n + history[j].column < cells
  }

  /** The row sums after a history of read_and_sum calls, in order. */
  function ApplyReads(rows: seq<RowSum>, cells: seq<Cell>, n: nat, history: seq<Read>): (r: seq<RowSum>)
    requires ReadsOk(history, |rows|, |cells|, n)
    ensures |r| == |rows|
  {
    if history == [] then rows
    else
      var last := history[|history| - 1];
      AddCell(ApplyReads(rows, cells, n, history[..|history| - 1]), cells, n, last.column, last.row)
  }

  /** The columns that read for row `row`, in order. */
  function ColumnsOf(history: seq<Read>, row: nat): seq<nat> {
    if history == [] then []
    else
      var last := history[|history| - 1];
      ColumnsOf(history[..|history| - 1], row) + (if last.row == row then [last.column] else [])
  }

  /** The sum of the cells of row `row` in the given columns. */
  function SumColumns(cells: seq<Cell>, n: nat, row: nat, columns: seq<nat>): int {
    if columns == [] then 0
    else SumColumns(cells, n, row, columns[..|columns| - 1]) + At(cells, row * n + columns[|columns| - 1])
  }

  /** 0, 1, ..., m - 1 */
  function Range(m: nat): (r: seq<nat>)
    ensures |r| == m && forall i :: 0 <= i < m ==> r[i] == i
  {
    if m == 0 then [] else Range(m - 1) + [m - 1]
  }

  lemma ReadsOkPrefix(history: seq<Read>, rows: nat, cells: nat, n: nat)
    requires ReadsOk(history, rows, cells, n) && history != []
    ensures ReadsOk(history[..|history| - 1], rows, cells, n)
  {
    var p := history[..|history| - 1];
    forall j | 0 <= j < |p| ensures p[j].row < rows && p[j].row * n + p[j].column < cells {
      assert p[j] == history[j];
    }
  }

  /** One more read in column `column` adds that column's cell to the sum
    over the columns read so far. */
  lemma SumColumnsSnoc(cells: seq<Cell>, n: nat, row: nat, columns: seq<nat>, column: nat)
    ensures SumColumns(cells, n, row, columns + [column]) ==
            SumColumns(cells, n, row, columns) + At(cells, row * n + column)
  {
    assert (columns + [column])[..|columns|] == columns;
  }

  /** Whatever the interleaving of the rows, each row's sum grows by the
    cells read for that row, and its index never changes. */
  lemma {:induction false} ApplyReadsRow(rows: seq<RowSum>, cells: seq<Cell>, n: nat, history: seq<Read>, r: nat)
    requires ReadsOk(history, |rows|, |cells|, n) && r < |rows|
    ensures ApplyReads(rows, cells, n, history)[r] ==
            RowSum(rows[r].sum + SumColumns(cells, n, r, ColumnsOf(history, r)), rows[r].row)
  {
    if history != [] {
      var p := history[..|history| - 1];
      var last := history[|history| - 1];
      ReadsOkPrefix(history, |rows|, |cells|, n);
      ApplyReadsRow(rows, cells, n, p, r);
      assert last.row < |rows| && last.row * n + last.column < |cells|;
      if last.row == r {
        assert ColumnsOf(history, r) == ColumnsOf(p, r) + [last.column];
        SumColumnsSnoc(cells, n, r, ColumnsOf(p, r), last.column);
      } else {
        assert ColumnsOf(history, r) == ColumnsOf(p, r) + [];
        assert ColumnsOf(p, r) + [] == ColumnsOf(p, r);
      }
    }
  }

  /** Reading the columns of a row in order sums the row. */
  lemma {:induction false} RangeSumsRow(cells: seq<Cell>, n: nat, row: nat, m: nat)
    ensures SumColumns(cells, n, row, Range(m)) == RowTotal(cells, n, row, m)
  {
    if m > 0 {
      RangeSumsRow(cells, n, row, m - 1);
      assert Range(m)[..m - 1] == Range(m - 1);
    }
  }

  /** The row sums as main initialises them: every sum 0, every index its
    own position. */
  predicate Initialised(rows: seq<RowSum>) {
    forall i :: 0 <= i < |rows| ==> rows[i] == RowSum(0, i)
  }

  /** The value printed for row r: starting from the initialised row sums,
    once the columns 0 .. n - 1 have each read for row r, in order along the
    chain and interleaved in any way with the reads for other rows, the sum
    of row r is the total of its n cells. */
  lemma PrintedIsRowTotal(rows: seq<RowSum>, cells: seq<Cell>, n: nat, history: seq<Read>, r: nat)
    requires Initialised(rows) && ReadsOk(history, |rows|, |cells|, n) && r < |rows|
    requires ColumnsOf(history, r) == Range(n)
    ensures ApplyReads(rows, cells, n, history)[r] == RowSum(RowTotal(cells, n, r, n), r)
  {
    ApplyReadsRow(rows, cells, n, history, r);
    RangeSumsRow(cells, n, r, n);
  }

  // ---------------------------------------------------------------------
  // main

  /** The loop of main that fills row_sums. */
  method InitRows(k: nat) returns (rows: array<RowSum>)
    ensures fresh(rows) && rows.Length == k
    ensures Initialised(rows[..])
  {
    rows := new RowSum[k];
    var i := 0;
    while i < k
      invariant 0 <= i <= k
      invariant forall j :: 0 <= j < i ==> rows[j] == RowSum(0, j)
    {
      rows[i] := RowSum(0, i);
      i := i + 1;
    }
  }

  /** The loop of main that reads the k * n cells; `input` stands for the
    values scanf delivers, in order. */
  method ReadMatrix(input: seq<Cell>) returns (matrix: array<Cell>)
    ensures fresh(matrix) && matrix[..] == input
  {
    matrix := new Cell[|input|];
    var i := 0;
    while i < |input|
      invariant 0 <= i <= |input|
      invariant matrix[..i] == input[..i]
    {
      matrix[i] := input[i];
      i := i + 1;
    }
  }

  /** The mat_t main hands to the root with GETDATA: column 0 over the
    freshly read matrix and the initialised row sums. */
  method MainSetup(k: nat, n: nat, input: seq<Cell>) returns (mat: Mat)
    requires |input| == k * n
    ensures fresh(mat.matrix) && fresh(mat.rowSums)
    ensures mat.k == k && mat.n == n && mat.column == 0
    ensures mat.matrix[..] == input && mat.rowSums.Length == k && Initialised(mat.rowSums[..])
  {
    var matrix := ReadMatrix(input);
    var rows := InitRows(k);
    mat := Mat(k, n, 0, matrix, rows);
  }

  // ---------------------------------------------------------------------
  // The handlers

  /** state_t: the record behind an actor's state slot. */
  class State {
    var fatherId: ActorId
    var myId: ActorId
    var childId: ActorId
    var matrix: Mat

    /** malloc(sizeof(state_t)) with the two ids filled in; the other
      fields hold whatever the allocation left there. */
    constructor (fatherId: ActorId, myId: ActorId)
      ensures this.fatherId == fatherId && this.myId == myId
    {
      this.fatherId := fatherId;
      this.myId := myId;
    }

    /** hello: a spawned actor allocates its state, takes its father's id
      from the payload and sends its father the address of its state. */
    static method Hello(self: ActorId, father: ActorId) returns (st: State, sends: seq<Out>)
      ensures fresh(st)
      ensures st.fatherId == father && st.myId == self
      ensures sends == [Out(father, MSG_MEET_CHILD, StateRef(st))]
    {
      st := new State(father, self);
      sends := [Out(st.fatherId, MSG_MEET_CHILD, StateRef(st))];
    }

    /** get_data: the root allocates its state as its own father, copies the
      mat_t it is given, and either asks for a child or, with a single
      column, starts row 0 itself. */
    static method GetData(self: ActorId, mat: Mat) returns (st: State, sends: seq<Out>)
      ensures fresh(st)
      ensures st.myId == self && st.fatherId == self && st.matrix == mat
      ensures mat.column + 1 < mat.n ==> sends == [Out(self, MSG_SPAWN, SpawnRole(ROLE))]
      ensures mat.column + 1 >= mat.n ==> sends == [Out(self, MSG_COMPUTE, RowRef(0))]
    {
      st := new State(self, self);
      st.matrix := mat;
      if st.matrix.column + 1 < st.matrix.n {
        sends := [Out(st.myId, MSG_SPAWN, SpawnRole(ROLE))];
      } else {
        sends := [Out(st.myId, MSG_COMPUTE, RowRef(0))];
      }
    }

    /** meet_your_child: record the child's id and fill in the child's
      state through the address it sent: the root as its father, the next
      column, and the shared dimensions, matrix and row sums.  Then either
      the child is asked for a grandchild or, when the child holds the last
      column, the root is told to start row 0. */
    method MeetYourChild(child: State) returns (sends: seq<Out>)
      requires child != this
      modifies this, child
      ensures childId == old(child.myId)
      ensures fatherId == old(fatherId) && myId == old(myId) && matrix == old(matrix)
      ensures child.fatherId == fatherId && child.myId == old(child.myId) && child.childId == old(child.childId)
      ensures child.matrix == matrix.(column := matrix.column + 1)
      ensures child.matrix.column + 1 < child.matrix.n ==> sends == [Out(childId, MSG_SPAWN, SpawnRole(ROLE))]
      ensures child.matrix.column + 1 >= child.matrix.n ==> sends == [Out(fatherId, MSG_COMPUTE, RowRef(0))]
    {
      childId := child.myId;
      child.fatherId := fatherId;
      child.matrix := Mat(matrix.k, matrix.n, matrix.column + 1, matrix.matrix, matrix.rowSums);
      if child.matrix.column + 1 < child.matrix.n {
        sends := [Out(childId, MSG_SPAWN, SpawnRole(ROLE))];
      } else {
        sends := [Out(fatherId, MSG_COMPUTE, RowRef(0))];
      }
    }

    /** compute for the row whose entry of the row sums is at `at`: add this
      column's cell; the last column prints the sum and any other column
      passes the row on to its child.  After row k - 1 the actor terminates;
      before it, the root starts the next row. */
    method Compute(at: nat) returns (sends: seq<Out>, printed: Option<int>)
      requires at < matrix.rowSums.Length
      requires matrix.rowSums[at].row < matrix.rowSums.Length
      requires matrix.rowSums[at].row * matrix.n + matrix.column < matrix.matrix.Length
      modifies matrix.rowSums
      ensures var row := old(matrix.rowSums[at].row);
              matrix.rowSums[..] == AddCell(old(matrix.rowSums[..]), matrix.matrix[..], matrix.n, matrix.column, row)
      ensures var row := old(matrix.rowSums[at].row);
              var forward := if matrix.column + 1 == matrix.n then [] else [Out(childId, MSG_COMPUTE, RowRef(row))];
              var next := if row + 1 == matrix.k then [Out(myId, MSG_GODIE, NoData)]
                          else if myId == fatherId then [Out(myId, MSG_COMPUTE, RowRef(row + 1))]
                          else [];
              sends == forward + next &&
              printed == if matrix.column + 1 == matrix.n then Some(matrix.rowSums[row].sum) else None
    {
      var row := matrix.rowSums[at].row;
      ReadAndSum(matrix, row);
      if matrix.column + 1 == matrix.n {
        printed := Some(matrix.rowSums[row].sum);
        sends := [];
      } else {
        printed := None;
        sends := [Out(childId, MSG_COMPUTE, RowRef(row))];
      }
      if row + 1 == matrix.k {
        var me := myId;
        sends := sends + [Out(me, MSG_GODIE, NoData)];
      } else if myId == fatherId {
        sends := sends + [Out(myId, MSG_COMPUTE, RowRef(row + 1))];
      }
    }
  }
}
