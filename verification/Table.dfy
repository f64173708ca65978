/**
The storage of an Array as values: a list of columns, each a list of holders,
and the table of which they are the representation (yate/engine/Array.cpp).

A column may have more holders than the array has rows. ObjList::remove
cannot unlink the last holder of a list, it only empties it, so a deleted
last row leaves a holder behind.
*/
module Table {
  import opened Wrappers
  import opened Sequences

  /** A stored object; a null holder is None. */
  type Handle = nat
  type Cell = Option<Handle>
  type Column = seq<Cell>

  // ------------------------------------------------- one list (ObjList.cpp)

  /** `(list+i)->insert(x,false)`. */
  function Inserted<T>(s: seq<T>, i: nat, x: T): seq<T>
    requires i <= |s|
  {
    s[..i] + [x] + s[i..]
  }

  lemma InsertedAt<T>(s: seq<T>, i: nat, x: T, j: nat)
    requires i <= |s| && j <= |s|
    ensures |Inserted(s, i, x)| == |s| + 1
    ensures Inserted(s, i, x)[j] == if j < i then s[j] else if j == i then x else s[j - 1]
  {
  }

  lemma DeletedAt<T>(s: seq<T>, i: nat, j: nat)
    requires i < |s| && j < |s| - 1
    ensures |Deleted(s, i)| == |s| - 1
    ensures Deleted(s, i)[j] == if j < i then s[j] else s[j + 1]
  {
  }

  /** The list without its i-th element. */
  function Deleted<T>(s: seq<T>, i: nat): seq<T>
    requires i < |s|
  {
    s[..i] + s[i + 1..]
  }

  /** `(list+i)->remove()`: the next holder moves into this one, unless there is none. */
  function Removed<T>(s: seq<Option<T>>, i: nat): seq<Option<T>>
    requires i < |s|
  {
    if i + 1 < |s| then Deleted(s, i) else s[i := None]
  }

  /** `(*list)[i]`: the object at an index, null beyond the end. */
  function At<T>(s: seq<Option<T>>, i: nat): Option<T> {
    if i < |s| then s[i] else None
  }

  // ---------------------------------------------------- the storage operations

  predicate Covers(raw: seq<Column>, rows: nat) {
    forall c :: 0 <= c < |raw| ==> rows <= |raw[c]|
  }

  /** Every column has exactly one holder a row. */
  predicate Tight(raw: seq<Column>, rows: nat) {
    forall c :: 0 <= c < |raw| ==> |raw[c]| == rows
  }

  /** The cell a new row brings to column c. */
  function Item(row: Option<Column>, c: nat): Cell {
    if row.Some? then At(row.value, c) else None
  }

  /** What addRow does to one column: append at the end, or insert at the row. */
  function RowAdded(h: Column, rows: nat, index: nat, item: Cell): Column
    requires index <= rows <= |h|
  {
    if index == rows then h + [item] else Inserted(h, index, item)
  }

  function RawAddRow(raw: seq<Column>, rows: nat, index: nat, row: Option<Column>): (r: seq<Column>)
    requires Covers(raw, rows) && index <= rows
    ensures |r| == |raw|
  {
    seq(|raw|, c requires 0 <= c < |raw| => RowAdded(raw[c], rows, index, Item(row, c)))
  }

  function RawDelRow(raw: seq<Column>, rows: nat, index: nat): (r: seq<Column>)
    requires Covers(raw, rows) && index < rows
    ensures |r| == |raw|
  {
    seq(|raw|, c requires 0 <= c < |raw| => Removed(raw[c], index))
  }

  function WithCell(raw: seq<Column>, column: nat, row: nat, item: Cell): (r: seq<Column>)
    requires column < |raw| && row < |raw[column]|
    ensures |r| == |raw|
    ensures forall c :: 0 <= c < |raw| ==> |r[c]| == |raw[c]|
  {
    raw[column := raw[column][row := item]]
  }

  // ------------------------------------------------------------------ the table

  /** The table: the first `rows` cells of every column. */
  function Visible(raw: seq<Column>, rows: nat): (t: seq<Column>)
    requires Covers(raw, rows)
    ensures |t| == |raw|
  {
    seq(|raw|, c requires 0 <= c < |raw| => raw[c][..rows])
  }

  predicate Rectangle(t: seq<Column>, rows: nat) {
    forall c :: 0 <= c < |t| ==> |t[c]| == rows
  }

  /** One row of a table. */
  function Row(t: seq<Column>, rows: nat, r: nat): (row: seq<Cell>)
    requires Rectangle(t, rows) && r < rows
    ensures |row| == |t|
  {
    seq(|t|, c requires 0 <= c < |t| => t[c][r])
  }

  /** The table as a list of rows. */
  function Rows(t: seq<Column>, rows: nat): (rs: seq<seq<Cell>>)
    requires Rectangle(t, rows)
    ensures |rs| == rows
  {
    seq(rows, r requires 0 <= r < rows => Row(t, rows, r))
  }

  /** The row that is handed over, one cell a column. */
  function RowOf(row: Option<Column>, columns: nat): (r: seq<Cell>)
    ensures |r| == columns
  {
    seq(columns, c requires 0 <= c < columns => Item(row, c))
  }

  /** Each object goes to the column of its place in the row: a row for all
      columns is taken as it is, a longer one is cut, a shorter one filled up
      with nothing, and no row at all brings nothing. */
  lemma RowIsHandedOver(h: Column, columns: nat)
    ensures RowOf(Some(h), |h|) == h
    ensures columns <= |h| ==> RowOf(Some(h), columns) == h[..columns]
    ensures |h| <= columns ==> RowOf(Some(h), columns) == h + seq(columns - |h|, _ => None)
    ensures RowOf(None, columns) == seq(columns, _ => None)
  {
  }

  /** The list of rows shows each cell at its place. */
  lemma RowsShow(raw: seq<Column>, rows: nat, c: nat, r: nat)
    requires Covers(raw, rows) && c < |raw| && r < rows
    ensures Rectangle(Visible(raw, rows), rows) && Rows(Visible(raw, rows), rows)[r][c] == raw[c][r]
  {
    VisibleIsRectangle(raw, rows);
  }

  /** A new row brings each column the object of that column, at the row. */
  lemma ColumnsGrow(raw: seq<Column>, rows: nat, index: nat, row: Option<Column>)
    requires Covers(raw, rows) && index <= rows
    ensures forall c :: 0 <= c < |raw| ==>
      var item := if row.Some? && c < |row.value| then row.value[c] else None;
      RawAddRow(raw, rows, index, row)[c] ==
        if index == rows then raw[c] + [item] else raw[c][..index] + [item] + raw[c][index..]
  {
  }

  /** One cell is written, no other. */
  lemma OneCellChanges(raw: seq<Column>, column: nat, row: nat, item: Cell, c: nat, r: nat)
    requires column < |raw| && row < |raw[column]| && c < |raw| && r < |raw[c]|
    ensures WithCell(raw, column, row, item)[c][r] == if c == column && r == row then item else raw[c][r]
  {
  }

  // ---------------------------------------------------------- rows come and go

  lemma VisibleIsRectangle(raw: seq<Column>, rows: nat)
    requires Covers(raw, rows)
    ensures Rectangle(Visible(raw, rows), rows)
  {
  }

  lemma AddRowCovers(raw: seq<Column>, rows: nat, index: nat, row: Option<Column>)
    requires Covers(raw, rows) && index <= rows
    ensures Covers(RawAddRow(raw, rows, index, row), rows + 1)
    ensures Tight(RawAddRow(raw, rows, index, row), rows + 1) <==> Tight(raw, rows)
  {
    var raw' := RawAddRow(raw, rows, index, row);
    forall c | 0 <= c < |raw|
      ensures |raw'[c]| == |raw[c]| + 1
    {
    }
    if Tight(raw', rows + 1) {
      forall c | 0 <= c < |raw|
        ensures |raw[c]| == rows
      {
        assert |raw'[c]| == rows + 1;
      }
    }
  }

  /** Inserting before an existing row inserts the row into the list of rows. */
  lemma InsertRowInserts(raw: seq<Column>, rows: nat, index: nat, row: Option<Column>)
    requires Covers(raw, rows) && index < rows
    ensures Covers(RawAddRow(raw, rows, index, row), rows + 1)
    ensures var t, t' := Visible(raw, rows), Visible(RawAddRow(raw, rows, index, row), rows + 1);
      Rows(t', rows + 1) == Inserted(Rows(t, rows), index, RowOf(row, |raw|))
  {
    hide Inserted, RawAddRow, Visible, Row, RowOf, Covers;
    AddRowCovers(raw, rows, index, row);
    VisibleIsRectangle(raw, rows);
    VisibleIsRectangle(RawAddRow(raw, rows, index, row), rows + 1);
    var t, t' := Visible(raw, rows), Visible(RawAddRow(raw, rows, index, row), rows + 1);
    var rs, x := Rows(t, rows), RowOf(row, |raw|);
    InsertedAt(rs, index, x, 0);
    forall r | 0 <= r < rows + 1
      ensures Rows(t', rows + 1)[r] == Inserted(rs, index, x)[r]
    {
      InsertedAt(rs, index, x, r);
      InsertedRow(raw, rows, index, row, r);
    }
  }

  lemma InsertedRow(raw: seq<Column>, rows: nat, index: nat, row: Option<Column>, r: nat)
    requires Covers(raw, rows) && index < rows && r <= rows
    ensures Covers(RawAddRow(raw, rows, index, row), rows + 1)
    ensures var t, t' := Visible(raw, rows), Visible(RawAddRow(raw, rows, index, row), rows + 1);
      && Rectangle(t, rows) && Rectangle(t', rows + 1)
      && Row(t', rows + 1, r) ==
           if r < index then Row(t, rows, r) else if r == index then RowOf(row, |raw|) else Row(t, rows, r - 1)
  {
    hide RawAddRow, Visible, Item, Covers;
    AddRowCovers(raw, rows, index, row);
    VisibleIsRectangle(raw, rows);
    VisibleIsRectangle(RawAddRow(raw, rows, index, row), rows + 1);
    forall c | 0 <= c < |raw|
      ensures Visible(RawAddRow(raw, rows, index, row), rows + 1)[c][r] ==
        if r < index then Visible(raw, rows)[c][r] else if r == index then Item(row, c) else Visible(raw, rows)[c][r - 1]
    {
      InsertedCell(raw, rows, index, row, r, c);
    }
  }

  lemma InsertedCell(raw: seq<Column>, rows: nat, index: nat, row: Option<Column>, r: nat, c: nat)
    requires Covers(raw, rows) && index < rows && r <= rows && c < |raw|
    requires Covers(RawAddRow(raw, rows, index, row), rows + 1)
    ensures var t, t' := Visible(raw, rows), Visible(RawAddRow(raw, rows, index, row), rows + 1);
      && |t[c]| == rows && |t'[c]| == rows + 1
      && t'[c][r] == if r < index then t[c][r] else if r == index then Item(row, c) else t[c][r - 1]
  {
    hide Item;
    InsertedAt(raw[c], index, Item(row, c), r);
  }

  /** What the new last row shows: the item that was handed over, unless the
      column still has a holder below its last row; then that holder. */
  function Shown(raw: seq<Column>, rows: nat, row: Option<Column>): (r: seq<Cell>)
    requires Covers(raw, rows)
    ensures |r| == |raw|
  {
    seq(|raw|, c requires 0 <= c < |raw| => if |raw[c]| == rows then Item(row, c) else raw[c][rows])
  }

  lemma AppendRowShows(raw: seq<Column>, rows: nat, row: Option<Column>)
    requires Covers(raw, rows)
    ensures Covers(RawAddRow(raw, rows, rows, row), rows + 1)
    ensures var t, t' := Visible(raw, rows), Visible(RawAddRow(raw, rows, rows, row), rows + 1);
      Rows(t', rows + 1) == Rows(t, rows) + [Shown(raw, rows, row)]
  {
    AddRowCovers(raw, rows, rows, row);
    var t, t' := Visible(raw, rows), Visible(RawAddRow(raw, rows, rows, row), rows + 1);
    var want := Rows(t, rows) + [Shown(raw, rows, row)];
    forall r | 0 <= r < rows + 1
      ensures Rows(t', rows + 1)[r] == want[r]
    {
      forall c | 0 <= c < |raw|
        ensures Row(t', rows + 1, r)[c] == want[r][c]
      {
        assert t'[c] == (raw[c] + [Item(row, c)])[..rows + 1];
      }
    }
  }

  /** Appending appends the row, for every row, exactly when no column has a
      holder below its last row. */
  lemma AppendRowAppendsExactly(raw: seq<Column>, rows: nat)
    requires Covers(raw, rows)
    ensures (forall row: Option<Column> :: Shown(raw, rows, row) == RowOf(row, |raw|)) <==> Tight(raw, rows)
  {
    if Tight(raw, rows) {
      forall row: Option<Column>
        ensures Shown(raw, rows, row) == RowOf(row, |raw|)
      {
      }
    } else {
      var c :| 0 <= c < |raw| && |raw[c]| != rows;
      var other: Cell := if raw[c][rows].None? then Some(0) else None;
      var row := Some(seq(|raw|, _ => other));
      assert Shown(raw, rows, row)[c] != RowOf(row, |raw|)[c];
    }
  }

  /** Deleting a row deletes it from the list of rows, whatever lies below the last row. */
  lemma DeleteRowDeletes(raw: seq<Column>, rows: nat, index: nat)
    requires Covers(raw, rows) && index < rows
    ensures Covers(RawDelRow(raw, rows, index), rows - 1)
    ensures var t, t' := Visible(raw, rows), Visible(RawDelRow(raw, rows, index), rows - 1);
      Rows(t', rows - 1) == Deleted(Rows(t, rows), index)
  {
    var raw' := RawDelRow(raw, rows, index);
    forall c | 0 <= c < |raw|
      ensures rows - 1 <= |raw'[c]|
    {
    }
    var t, t' := Visible(raw, rows), Visible(raw', rows - 1);
    var rs := Rows(t, rows);
    forall r | 0 <= r < rows - 1
      ensures Rows(t', rows - 1)[r] == Deleted(rs, index)[r]
    {
      DeletedAt(rs, index, r);
      hide Deleted;
      forall c | 0 <= c < |raw|
        ensures Row(t', rows - 1, r)[c] == Deleted(rs, index)[r][c]
      {
        RemovedAt(raw[c], index, r);
      }
    }
  }

  lemma RemovedAt(h: Column, i: nat, j: nat)
    requires i < |h| && j < |h| - 1
    ensures j < |Removed(h, i)| && Removed(h, i)[j] == if j < i then h[j] else h[j + 1]
  {
  }

  /** After deleting a row every column has one holder a row exactly when it
      had so before, and the row was not the last one. */
  lemma DeleteRowTightExactly(raw: seq<Column>, rows: nat, index: nat)
    requires Covers(raw, rows) && index < rows && raw != []
    ensures Tight(RawDelRow(raw, rows, index), rows - 1) <==> Tight(raw, rows) && index < rows - 1
  {
    var raw' := RawDelRow(raw, rows, index);
    forall c | 0 <= c < |raw|
      ensures |raw'[c]| == if index + 1 < |raw[c]| then |raw[c]| - 1 else |raw[c]|
    {
    }
    assert |raw'[0]| == if index + 1 < |raw[0]| then |raw[0]| - 1 else |raw[0]|;
    if Tight(raw', rows - 1) {
      forall c | 0 <= c < |raw|
        ensures |raw[c]| == rows
      {
        assert |raw'[c]| == rows - 1;
      }
    }
  }

  // --------------------------------------------------------- runs of an array

  /** What can be done to an array without losing its shape. */
  datatype Act =
    | Add(row: Option<Column>, index: nat)      // addRow
    | Del(index: nat)                           // delRow
    | Put(column: nat, at: nat, item: Cell)     // set, take
    | Insert(before: nat, list: Column)         // addColumn before a column
    | Drop(dropped: nat)                        // delColumn

  /** For the record: when a column came, and with how many holders. */
  datatype Birth = Birth(time: nat, size: nat)

  datatype State = State(raw: seq<Column>, rows: nat, births: seq<Birth>)

  predicate Allowed(s: State, a: Act) {
    match a
    case Add(_, index) => index <= s.rows
    case Del(index) => index < s.rows
    case Put(column, at, _) => column < |s.raw| && at < s.rows
    case Insert(before, list) => before < |s.raw| && s.rows <= |list|
    case Drop(dropped) => dropped < |s.raw|
  }

  /** The state after the act that ends at this time. */
  function Done(s: State, a: Act, time: nat): (s': State)
    requires Covers(s.raw, s.rows) && Allowed(s, a) && |s.births| == |s.raw|
    ensures |s'.births| == |s'.raw|
  {
    match a
    case Add(row, index) => s.(raw := RawAddRow(s.raw, s.rows, index, row), rows := s.rows + 1)
    case Del(index) => s.(raw := RawDelRow(s.raw, s.rows, index), rows := s.rows - 1)
    case Put(column, at, item) => s.(raw := WithCell(s.raw, column, at, item))
    case Insert(before, list) =>
      s.(raw := Inserted(s.raw, before, list), births := Inserted(s.births, before, Birth(time, |list|)))
    case Drop(dropped) => s.(raw := Deleted(s.raw, dropped), births := Deleted(s.births, dropped))
  }

  /** A run, from columns that are all there at time 0. */
  predicate IsRun(states: seq<State>, acts: seq<Act>) {
    && |states| == |acts| + 1
    && Covers(states[0].raw, states[0].rows)
    && |states[0].births| == |states[0].raw|
    && (forall c :: 0 <= c < |states[0].raw| ==> states[0].births[c] == Birth(0, |states[0].raw[c]|))
    && forall i :: 0 <= i < |acts| ==>
         && Covers(states[i].raw, states[i].rows) && Allowed(states[i], acts[i]) && |states[i].births| == |states[i].raw|
         && states[i + 1] == Done(states[i], acts[i], i + 1)
  }

  /** What is the last row at the time is deleted. */
  predicate DeletesLast(s: State, a: Act) {
    a.Del? && a.index == s.rows - 1
  }

  /** No act from one time to another does so. */
  predicate LastRowsStay(states: seq<State>, acts: seq<Act>, from: nat, to: nat)
    requires |states| == |acts| + 1 && to <= |acts|
  {
    forall i :: from <= i < to ==> !DeletesLast(states[i], acts[i])
  }

  /** Where the column at c was before the act. */
  function Before(a: Act, c: nat): nat {
    match a
    case Insert(before, _) => if c <= before then c else c - 1
    case Drop(dropped) => if c < dropped then c else c + 1
    case _ => c
  }

  /** One act, seen by one column: it has one holder a row afterwards exactly
      when it had before, and the act did not delete the last row. */
  lemma ColumnStep(s: State, a: Act, time: nat, c: nat)
    requires Covers(s.raw, s.rows) && Allowed(s, a) && |s.births| == |s.raw|
    requires c < |Done(s, a, time).raw|
    ensures var s', d := Done(s, a, time), Before(a, c);
      if a.Insert? && c == a.before then
        s'.raw[c] == a.list && s'.births[c] == Birth(time, |a.list|) && s'.rows == s.rows
      else
        && d < |s.raw| && s'.births[c] == s.births[d]
        && (|s'.raw[c]| == s'.rows <==> |s.raw[d]| == s.rows && !DeletesLast(s, a))
  {
    match a
    case Add(row, index) =>
    case Del(index) => assert s.rows <= |s.raw[c]|;
    case Put(_, _, _) =>
    case Insert(before, list) =>
      InsertedAt(s.raw, before, list, c);
      InsertedAt(s.births, before, Birth(time, |list|), c);
    case Drop(dropped) =>
      DeletedAt(s.raw, dropped, c);
      DeletedAt(s.births, dropped, c);
  }

  lemma LastRowsStep(states: seq<State>, acts: seq<Act>, from: nat, n: nat)
    requires |states| == |acts| + 1 && n < |acts|
    ensures LastRowsStay(states, acts, from, n + 1) <==>
      LastRowsStay(states, acts, from, n) && (from <= n ==> !DeletesLast(states[n], acts[n]))
  {
    hide DeletesLast;
  }

  lemma RunAt(states: seq<State>, acts: seq<Act>, n: nat)
    requires IsRun(states, acts) && n < |acts|
    ensures |states| == |acts| + 1
    ensures Covers(states[n].raw, states[n].rows) && Allowed(states[n], acts[n]) && |states[n].births| == |states[n].raw|
    ensures states[n + 1] == Done(states[n], acts[n], n + 1)
  {
  }

  /** At every time of every run, a column has exactly one holder a row if and
      only if it had when it came, and no act since deleted the then last row. */
  lemma {:induction false} ColumnTightExactly(states: seq<State>, acts: seq<Act>, n: nat, c: nat)
    requires IsRun(states, acts) && n <= |acts| && c < |states[n].raw|
    ensures |states[n].births| == |states[n].raw| && states[n].births[c].time <= n
    ensures var b := states[n].births[c];
      |states[n].raw[c]| == states[n].rows <==>
        b.size == states[b.time].rows && LastRowsStay(states, acts, b.time, n)
  {
    if n == 0 {
      return;
    }
    RunAt(states, acts, n - 1);
    hide IsRun, Covers, Allowed, Done, LastRowsStay, DeletesLast;
    var s, a := states[n - 1], acts[n - 1];
    ColumnStep(s, a, n, c);
    if a.Insert? && c == a.before {
      NothingHappens(states, acts, n);
    } else {
      ColumnTightExactly(states, acts, n - 1, Before(a, c));
      LastRowsStep(states, acts, states[n].births[c].time, n - 1);
    }
  }

  lemma NothingHappens(states: seq<State>, acts: seq<Act>, n: nat)
    requires |states| == |acts| + 1 && n <= |acts|
    ensures LastRowsStay(states, acts, n, n)
  {
  }

  /** A column was there at the start, or came with the act before its time. */
  predicate CameSo(states: seq<State>, acts: seq<Act>, n: nat, b: Birth)
    requires states != [] && n <= |acts|
  {
    if b.time == 0 then exists d :: 0 <= d < |states[0].raw| && |states[0].raw[d]| == b.size
    else b.time <= n && acts[b.time - 1].Insert? && |acts[b.time - 1].list| == b.size
  }

  /** The record is true. */
  lemma {:induction false} BirthsAreTrue(states: seq<State>, acts: seq<Act>, n: nat, c: nat)
    requires IsRun(states, acts) && n <= |acts| && c < |states[n].raw|
    ensures |states[n].births| == |states[n].raw| && CameSo(states, acts, n, states[n].births[c])
  {
    if n == 0 {
      return;
    }
    RunAt(states, acts, n - 1);
    hide IsRun, Covers, Allowed, Done, CameSo;
    var s, a := states[n - 1], acts[n - 1];
    ColumnStep(s, a, n, c);
    if a.Insert? && c == a.before {
      JustCame(states, acts, n, a.list);
    } else {
      BirthsAreTrue(states, acts, n - 1, Before(a, c));
      StillCame(states, acts, n, states[n].births[c]);
    }
  }

  lemma JustCame(states: seq<State>, acts: seq<Act>, n: nat, list: Column)
    requires states != [] && 0 < n <= |acts| && acts[n - 1].Insert? && acts[n - 1].list == list
    ensures CameSo(states, acts, n, Birth(n, |list|))
  {
  }

  lemma StillCame(states: seq<State>, acts: seq<Act>, n: nat, b: Birth)
    requires states != [] && 0 < n <= |acts| && CameSo(states, acts, n - 1, b)
    ensures CameSo(states, acts, n, b)
  {
  }

  /** No act leaves a column with fewer holders than rows. */
  lemma DoneCovers(s: State, a: Act, time: nat)
    requires Covers(s.raw, s.rows) && Allowed(s, a) && |s.births| == |s.raw|
    ensures Covers(Done(s, a, time).raw, Done(s, a, time).rows)
  {
    match a
    case Add(row, index) => AddRowCovers(s.raw, s.rows, index, row);
    case Del(index) => DeleteRowDeletes(s.raw, s.rows, index);
    case Put(_, _, _) =>
    case Insert(before, list) => InsertColumnInserts(s.raw, s.rows, before, list);
    case Drop(dropped) => DeleteColumnDeletes(s.raw, s.rows, dropped);
  }

  /** So after any run of row and column operations every column has exactly
      one holder a row if and only if each column that is still there had when
      it came, and no act since then deleted the then last row: what a deleted
      last row leaves behind in a column goes away only with the column. */
  lemma RunTightExactly(states: seq<State>, acts: seq<Act>)
    requires IsRun(states, acts)
    ensures var s := states[|acts|];
      && Covers(s.raw, s.rows) && |s.births| == |s.raw|
      && (forall c :: 0 <= c < |s.raw| ==> s.births[c].time <= |acts|)
      && (Tight(s.raw, s.rows) <==> forall c :: 0 <= c < |s.raw| ==>
            && s.births[c].size == states[s.births[c].time].rows
            && LastRowsStay(states, acts, s.births[c].time, |acts|))
  {
    var n := |acts|;
    if n > 0 {
      RunAt(states, acts, n - 1);
      DoneCovers(states[n - 1], acts[n - 1], n);
    }
    var s := states[n];
    hide LastRowsStay, Covers, Allowed, Done;
    forall c | 0 <= c < |s.raw|
      ensures s.births[c].time <= n
      ensures |s.raw[c]| == s.rows <==>
        s.births[c].size == states[s.births[c].time].rows && LastRowsStay(states, acts, s.births[c].time, n)
    {
      ColumnTightExactly(states, acts, n, c);
    }
  }

  /** Deleting the row that was just added gives the old table back; it gives
      the old storage back exactly when the row was not appended. */
  lemma DeleteUndoesAddRow(raw: seq<Column>, rows: nat, index: nat, row: Option<Column>)
    requires Covers(raw, rows) && index <= rows
    ensures Covers(RawAddRow(raw, rows, index, row), rows + 1)
    ensures var back := RawDelRow(RawAddRow(raw, rows, index, row), rows + 1, index);
      && Covers(back, rows) && Visible(back, rows) == Visible(raw, rows)
      && (raw != [] && Tight(raw, rows) ==> (back == raw <==> index < rows))
  {
    AddRowCovers(raw, rows, index, row);
    var added := RawAddRow(raw, rows, index, row);
    var back := RawDelRow(added, rows + 1, index);
    forall c | 0 <= c < |raw|
      ensures back[c] == Removed(RowAdded(raw[c], rows, index, Item(row, c)), index)
      ensures rows <= |back[c]| && back[c][..rows] == raw[c][..rows]
      ensures index < rows ==> back[c] == raw[c]
    {
      UndoOne(raw[c], rows, index, Item(row, c));
    }
    assert forall c :: 0 <= c < |raw| ==> Visible(back, rows)[c] == Visible(raw, rows)[c];
    if raw != [] && Tight(raw, rows) && index == rows {
      assert |back[0]| == rows + 1;
    }
  }

  lemma UndoOne(h: Column, rows: nat, index: nat, item: Cell)
    requires index <= rows <= |h|
    ensures var back := Removed(RowAdded(h, rows, index, item), index);
      && rows <= |back| && back[..rows] == h[..rows]
      && (index < rows ==> back == h)
      && (index == rows && |h| == rows ==> |back| == rows + 1)
  {
  }

  /** After the last row of a tight array was deleted, the next row that is
      appended is not seen: the new last row is empty, whatever was handed over. */
  lemma AppendAfterLastDeleteIsLost(raw: seq<Column>, rows: nat, row: Option<Column>)
    requires Tight(raw, rows) && 0 < rows
    ensures Covers(raw, rows) && Covers(RawDelRow(raw, rows, rows - 1), rows - 1)
    ensures var shown := Shown(RawDelRow(raw, rows, rows - 1), rows - 1, row);
      forall c :: 0 <= c < |raw| ==> shown[c] == None
  {
    var left := RawDelRow(raw, rows, rows - 1);
    forall c | 0 <= c < |raw|
      ensures |left[c]| == rows && left[c][rows - 1] == None
    {
    }
  }

  // ------------------------------------------------------- columns come and go

  /** An inserted column list shows its first `rows` holders as a column. */
  lemma InsertColumnInserts(raw: seq<Column>, rows: nat, j: nat, h: Column)
    requires Covers(raw, rows) && j <= |raw| && rows <= |h|
    ensures Covers(Inserted(raw, j, h), rows)
    ensures Visible(Inserted(raw, j, h), rows) == Inserted(Visible(raw, rows), j, h[..rows])
    ensures Tight(Inserted(raw, j, h), rows) <==> Tight(raw, rows) && |h| == rows
  {
    var now, want := Inserted(raw, j, h), Inserted(Visible(raw, rows), j, h[..rows]);
    forall c | 0 <= c <= |raw|
      ensures rows <= |now[c]| && now[c][..rows] == want[c]
      ensures now[c] == if c < j then raw[c] else if c == j then h else raw[c - 1]
    {
      InsertedAt(raw, j, h, c);
      InsertedAt(Visible(raw, rows), j, h[..rows], c);
    }
    if Tight(now, rows) {
      assert now[j] == h;
      forall c | 0 <= c < |raw|
        ensures |raw[c]| == rows
      {
        assert now[if c < j then c else c + 1] == raw[c];
      }
    }
  }

  lemma DeleteColumnDeletes(raw: seq<Column>, rows: nat, j: nat)
    requires Covers(raw, rows) && j < |raw|
    ensures Covers(Deleted(raw, j), rows)
    ensures Visible(Deleted(raw, j), rows) == Deleted(Visible(raw, rows), j)
  {
    forall c | 0 <= c < |raw| - 1
      ensures rows <= |Deleted(raw, j)[c]| && Deleted(raw, j)[c][..rows] == Deleted(Visible(raw, rows), j)[c]
    {
      DeletedAt(raw, j, c);
      DeletedAt(Visible(raw, rows), j, c);
    }
  }

  /** Deleting the column that was just inserted gives the old storage back. */
  lemma DeleteUndoesInsertColumn(raw: seq<Column>, j: nat, h: Column)
    requires j <= |raw|
    ensures Deleted(Inserted(raw, j, h), j) == raw
  {
    InsertedAt(raw, j, h, j);
    forall c | 0 <= c < |raw|
      ensures Deleted(Inserted(raw, j, h), j)[c] == raw[c]
    {
      DeletedAt(Inserted(raw, j, h), j, c);
      InsertedAt(raw, j, h, if c < j then c else c + 1);
    }
  }

  // ------------------------------------------------------- where the objects are

  function Held(h: Column): multiset<Handle> {
    if h == [] then multiset{}
    else
      var rest, c := Held(h[..|h| - 1]), h[|h| - 1];
      if c.Some? then rest + multiset{c.value} else rest
  }

  function HeldIn(raw: seq<Column>): multiset<Handle> {
    if raw == [] then multiset{} else HeldIn(raw[..|raw| - 1]) + Held(raw[|raw| - 1])
  }

  lemma {:induction false} HeldAppend(a: Column, b: Column)
    ensures Held(a + b) == Held(a) + Held(b)
  {
    if b == [] {
      Unit(a);
    } else {
      var front, c := b[..|b| - 1], [b[|b| - 1]];
      HeldAppend(a, front);
      FrontLast(b);
      Assoc(a, front, c);
      assert (a + b)[..|a + b| - 1] == a + front;
    }
  }

  function HeldCell(c: Cell): multiset<Handle> {
    if c.Some? then multiset{c.value} else multiset{}
  }

  /** A cell holds its object once. */
  lemma HeldOnce(c: Cell)
    ensures HeldCell(c) == if c.Some? then multiset{c.value} else multiset{}
  {
  }

  lemma HeldOne(c: Cell)
    ensures Held([c]) == HeldCell(c)
  {
    assert [c][..0] == [];
  }

  /** The holders around index i. */
  lemma HeldAround(h: Column, i: nat)
    requires i < |h|
    ensures Held(h) == Held(h[..i]) + HeldCell(h[i]) + Held(h[i + 1..])
  {
    hide Held;
    HeldAppend(h[..i], [h[i]]);
    HeldAppend(h[..i] + [h[i]], h[i + 1..]);
    HeldOne(h[i]);
    Around(h, i);
  }

  lemma HeldUpdated(h: Column, i: nat, c: Cell)
    requires i < |h|
    ensures Held(h[i := c]) + HeldCell(h[i]) == Held(h) + HeldCell(c)
  {
    hide Held;
    HeldAround(h, i);
    HeldAround(h[i := c], i);
    assert h[i := c][..i] == h[..i] && h[i := c][i + 1..] == h[i + 1..];
  }

  lemma HeldRemoved(h: Column, i: nat)
    requires i < |h|
    ensures Held(Removed(h, i)) + HeldCell(h[i]) == Held(h)
  {
    hide Held;
    if i + 1 < |h| {
      HeldAround(h, i);
      HeldAppend(h[..i], h[i + 1..]);
    } else {
      HeldUpdated(h, i, None);
    }
  }

  lemma HeldRowAdded(h: Column, rows: nat, index: nat, item: Cell)
    requires index <= rows <= |h|
    ensures Held(RowAdded(h, rows, index, item)) == Held(h) + HeldCell(item)
  {
    hide Held, HeldCell;
    HeldOne(item);
    if index == rows {
      HeldAppend(h, [item]);
    } else {
      var front, back := h[..index], h[index..];
      HeldAppend(front, [item]);
      HeldAppend(front + [item], back);
      HeldAppend(front, back);
      assert front + back == h;
      Swap(Held(front), HeldCell(item), Held(back));
    }
  }

  lemma Swap(a: multiset<Handle>, b: multiset<Handle>, c: multiset<Handle>)
    ensures a + b + c == a + c + b
  {
  }

  lemma HeldLast(h: Column)
    requires h != []
    ensures Held(h) == Held(h[..|h| - 1]) + HeldCell(h[|h| - 1])
  {
  }

  lemma HeldInLast(raw: seq<Column>)
    requires raw != []
    ensures HeldIn(raw) == HeldIn(raw[..|raw| - 1]) + Held(raw[|raw| - 1])
  {
  }

  lemma RawAddRowFront(raw: seq<Column>, rows: nat, index: nat, row: Option<Column>)
    requires Covers(raw, rows) && index <= rows && raw != []
    ensures var n := |raw| - 1;
      && Covers(raw[..n], rows)
      && RawAddRow(raw, rows, index, row)[..n] == RawAddRow(raw[..n], rows, index, row)
      && RawAddRow(raw, rows, index, row)[n] == RowAdded(raw[n], rows, index, Item(row, n))
      && RowOf(row, |raw|)[..n] == RowOf(row, n) && RowOf(row, |raw|)[n] == Item(row, n)
  {
    hide RowAdded, Item;
  }

  /** A new row adds to the array what its cells hold. */
  lemma {:induction false} HeldAddRow(raw: seq<Column>, rows: nat, index: nat, row: Option<Column>)
    requires Covers(raw, rows) && index <= rows
    ensures HeldIn(RawAddRow(raw, rows, index, row)) == HeldIn(raw) + Held(RowOf(row, |raw|))
  {
    if raw == [] {
      return;
    }
    hide Held, HeldIn, RawAddRow, RowOf, RowAdded, Item;
    var n := |raw| - 1;
    RawAddRowFront(raw, rows, index, row);
    HeldAddRow(raw[..n], rows, index, row);
    HeldRowAdded(raw[n], rows, index, Item(row, n));
    HeldInLast(raw);
    HeldInLast(RawAddRow(raw, rows, index, row));
    HeldLast(RowOf(row, |raw|));
  }

  lemma RawDelRowFront(raw: seq<Column>, rows: nat, index: nat)
    requires Covers(raw, rows) && index < rows && raw != []
    ensures var n := |raw| - 1;
      && Covers(raw[..n], rows) && Rectangle(Visible(raw, rows), rows) && Rectangle(Visible(raw[..n], rows), rows)
      && RawDelRow(raw, rows, index)[..n] == RawDelRow(raw[..n], rows, index)
      && RawDelRow(raw, rows, index)[n] == Removed(raw[n], index)
      && var gone := Row(Visible(raw, rows), rows, index);
         gone[..n] == Row(Visible(raw[..n], rows), rows, index) && gone[n] == raw[n][index]
  {
    hide Removed;
    VisibleIsRectangle(raw, rows);
    VisibleIsRectangle(raw[..|raw| - 1], rows);
  }

  /** Deleting a row takes from the array what its cells held. */
  lemma {:induction false} HeldDelRow(raw: seq<Column>, rows: nat, index: nat)
    requires Covers(raw, rows) && index < rows
    ensures Rectangle(Visible(raw, rows), rows)
    ensures HeldIn(RawDelRow(raw, rows, index)) + Held(Row(Visible(raw, rows), rows, index)) == HeldIn(raw)
  {
    VisibleIsRectangle(raw, rows);
    if raw == [] {
      return;
    }
    hide Held, HeldIn, RawDelRow, Removed, Row, Visible;
    var n := |raw| - 1;
    RawDelRowFront(raw, rows, index);
    HeldDelRow(raw[..n], rows, index);
    HeldRemoved(raw[n], index);
    HeldInLast(raw);
    HeldInLast(RawDelRow(raw, rows, index));
    HeldLast(Row(Visible(raw, rows), rows, index));
  }

  lemma {:induction false} HeldInAppend(a: seq<Column>, b: seq<Column>)
    ensures HeldIn(a + b) == HeldIn(a) + HeldIn(b)
  {
    hide Held;
    if b == [] {
      Unit(a);
    } else {
      var front, c := b[..|b| - 1], [b[|b| - 1]];
      HeldInAppend(a, front);
      FrontLast(b);
      Assoc(a, front, c);
      assert (a + b)[..|a + b| - 1] == a + front;
    }
  }

  lemma HeldInOne(h: Column)
    ensures HeldIn([h]) == Held(h)
  {
    assert [h][..0] == [];
  }

  lemma HeldInAround(raw: seq<Column>, i: nat)
    requires i < |raw|
    ensures HeldIn(raw) == HeldIn(Deleted(raw, i)) + Held(raw[i])
  {
    hide Held, HeldIn;
    HeldInAppend(raw[..i], [raw[i]]);
    HeldInAppend(raw[..i] + [raw[i]], raw[i + 1..]);
    HeldInAppend(raw[..i], raw[i + 1..]);
    HeldInOne(raw[i]);
    Around(raw, i);
  }

  lemma HeldInInserted(raw: seq<Column>, i: nat, h: Column)
    requires i <= |raw|
    ensures HeldIn(Inserted(raw, i, h)) == HeldIn(raw) + Held(h)
  {
    hide Held, HeldIn;
    HeldInAround(Inserted(raw, i, h), i);
    assert Deleted(Inserted(raw, i, h), i) == raw;
  }

  lemma HeldInUpdated(raw: seq<Column>, c: nat, h: Column)
    requires c < |raw|
    ensures HeldIn(raw[c := h]) + Held(raw[c]) == HeldIn(raw) + Held(h)
  {
    hide Held, HeldIn;
    HeldInAround(raw, c);
    HeldInAround(raw[c := h], c);
    assert Deleted(raw[c := h], c) == Deleted(raw, c);
  }

  /** Changing one cell changes what is held by that cell only. */
  lemma HeldWithCell(raw: seq<Column>, column: nat, row: nat, item: Cell)
    requires column < |raw| && row < |raw[column]|
    ensures HeldIn(WithCell(raw, column, row, item)) + HeldCell(raw[column][row]) == HeldIn(raw) + HeldCell(item)
  {
    hide Held, HeldIn, HeldCell;
    HeldInUpdated(raw, column, raw[column][row := item]);
    HeldUpdated(raw[column], row, item);
    CancelMiddle(HeldIn(WithCell(raw, column, row, item)), Held(raw[column]), HeldIn(raw),
                 Held(raw[column][row := item]), HeldCell(raw[column][row]), HeldCell(item));
  }

  /** The books stay balanced when `gone` leaves the array and `came` enters it. */
  lemma Exchange(now: multiset<Handle>, gone: multiset<Handle>, before: multiset<Handle>, came: multiset<Handle>,
                 taken: multiset<Handle>, destroyed: multiset<Handle>, handed: multiset<Handle>)
    requires now + gone == before + came && before + taken + destroyed == handed
    ensures now + (taken + gone) + destroyed == handed + came
    ensures now + taken + (destroyed + gone) == handed + came
  {
    forall x: Handle
      ensures (now + (taken + gone) + destroyed)[x] == (handed + came)[x]
      ensures (now + taken + (destroyed + gone))[x] == (handed + came)[x]
    {
      assert (now + gone)[x] == (before + came)[x] && (before + taken + destroyed)[x] == handed[x];
    }
  }

  lemma CancelMiddle(a: multiset<Handle>, b: multiset<Handle>, c: multiset<Handle>,
                     d: multiset<Handle>, e: multiset<Handle>, f: multiset<Handle>)
    requires a + b == c + d && d + e == b + f
    ensures a + e == c + f
  {
    forall x: Handle
      ensures (a + e)[x] == (c + f)[x]
    {
      assert (a + b)[x] == (c + d)[x] && (d + e)[x] == (b + f)[x];
    }
  }

  /** The object is in the r-th holder of column c. */
  predicate Sits(raw: seq<Column>, c: int, r: int, x: Handle) {
    0 <= c < |raw| && 0 <= r < |raw[c]| && raw[c][r] == Some(x)
  }

  /** What the number of times that a column holds an object says about where it is. */
  lemma {:induction false} HeldWhere(h: Column, x: Handle)
    ensures Held(h)[x] == 0 <==> forall r :: 0 <= r < |h| ==> h[r] != Some(x)
    ensures Held(h)[x] <= 1 ==> forall r, s :: 0 <= r < s < |h| ==> h[r] != Some(x) || h[s] != Some(x)
  {
    if h != [] {
      hide Held;
      HeldLast(h);
      var front := h[..|h| - 1];
      HeldWhere(front, x);
      assert forall r :: 0 <= r < |front| ==> h[r] == front[r];
    }
  }

  /** The same for a whole table. */
  lemma {:induction false} HeldInWhere(raw: seq<Column>, x: Handle)
    ensures HeldIn(raw)[x] == 0 <==> forall c, r :: !Sits(raw, c, r, x)
    ensures HeldIn(raw)[x] <= 1 ==>
      forall c, r, d, s :: Sits(raw, c, r, x) && Sits(raw, d, s, x) ==> c == d && r == s
  {
    if raw == [] {
      return;
    }
    hide Held, HeldIn;
    HeldInLast(raw);
    var n := |raw| - 1;
    var front, last := raw[..n], raw[n];
    HeldInWhere(front, x);
    HeldWhere(last, x);
    assert forall c, r :: Sits(raw, c, r, x) <==> Sits(front, c, r, x) || (c == n && 0 <= r < |last| && last[r] == Some(x));
    if Held(last)[x] > 0 {
      var r :| 0 <= r < |last| && last[r] == Some(x);
      assert Sits(raw, n, r, x);
    }
    if HeldIn(front)[x] > 0 {
      var c, r :| Sits(front, c, r, x);
      assert Sits(raw, c, r, x);
    }
  }

  /** The cells of a column, or of a table, that have the object. */
  function CellsOf(h: Column, c: int, x: Handle): set<(int, int)> {
    set r | 0 <= r < |h| && h[r] == Some(x) :: (c, r)
  }

  function Cells(raw: seq<Column>, x: Handle): set<(int, int)> {
    set c, r | 0 <= c < |raw| && 0 <= r < |raw[c]| && raw[c][r] == Some(x) :: (c, r)
  }

  /** An object is held as often as there are such cells. */
  lemma {:induction false} HeldCounts(h: Column, c: int, x: Handle)
    ensures Held(h)[x] == |CellsOf(h, c, x)|
  {
    if h == [] {
      assert CellsOf(h, c, x) == {};
      return;
    }
    var n := |h| - 1;
    HeldCounts(h[..n], c, x);
    HeldLast(h);
    hide Held;
    assert CellsOf(h, c, x) == CellsOf(h[..n], c, x) + if h[n] == Some(x) then {(c, n)} else {};
  }

  lemma {:induction false} HeldInCounts(raw: seq<Column>, x: Handle)
    ensures HeldIn(raw)[x] == |Cells(raw, x)|
  {
    if raw == [] {
      assert Cells(raw, x) == {};
      return;
    }
    var n := |raw| - 1;
    HeldInCounts(raw[..n], x);
    HeldInLast(raw);
    HeldCounts(raw[n], n, x);
    hide Held, HeldIn;
    var front, last := Cells(raw[..n], x), CellsOf(raw[n], n, x);
    assert front !! last;
    assert Cells(raw, x) == front + last;
  }

  /** Where an object that was handed over once can be: in one cell, taken out
      again, or destroyed, and in only one of these, once. */
  lemma ExactlyOnePlace(raw: seq<Column>, taken: multiset<Handle>, destroyed: multiset<Handle>,
                        handed: multiset<Handle>, x: Handle)
    requires HeldIn(raw) + taken + destroyed == handed
    requires handed[x] == 1
    ensures |Cells(raw, x)| + taken[x] + destroyed[x] == 1
    ensures (exists c, r :: Sits(raw, c, r, x)) <==> taken[x] + destroyed[x] == 0
    ensures forall c, r, d, s :: Sits(raw, c, r, x) && Sits(raw, d, s, x) ==> c == d && r == s
  {
    assert (HeldIn(raw) + taken + destroyed)[x] == 1;
    HeldInCounts(raw, x);
    HeldInWhere(raw, x);
  }
}
