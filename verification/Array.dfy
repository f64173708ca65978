/**
ObjList and Array (yate/engine/ObjList.cpp, yate/engine/Array.cpp): a table
held as a list of column lists, changed in place.
*/
module Array {
  import opened Wrappers
  import opened Table

  /** A list of holders: this item and all that follow it. */
  class ObjList<T(==)> {
    var holders: seq<Option<T>>

    ghost predicate Valid()
      reads this
    {
      holders != []
    }

    constructor ()
      ensures Valid() && holders == [None]
    {
      holders := [None];
    }

    /** `append(obj,false)`. */
    method Append(obj: Option<T>)
      requires Valid()
      modifies this
      ensures Valid() && holders == old(holders) + [obj]
    {
      holders := holders + [obj];
    }

    /** `(*this + i)->insert(obj,false)`: the holder at i is pushed back by a copy of itself. */
    method InsertAt(i: nat, obj: Option<T>)
      requires Valid() && i < |holders|
      modifies this
      ensures Valid() && holders == Inserted(old(holders), i, obj)
    {
      var copy := holders[i];
      holders := holders[..i + 1] + [copy] + holders[i + 1..];
      holders := holders[i := obj];
    }

    /** `(*this + i)->remove()`: the next holder is copied into this one and
        unlinked; the last holder of a list can only be emptied. */
    method RemoveAt(i: nat) returns (gone: Option<T>)
      requires Valid() && i < |holders|
      modifies this
      ensures Valid() && holders == Removed(old(holders), i) && gone == old(holders)[i]
    {
      gone := holders[i];
      if i + 1 < |holders| {
        holders := holders[i := holders[i + 1]];
        holders := holders[..i + 1] + holders[i + 2..];
      } else {
        holders := holders[i := None];
      }
    }

    /** `(*this + i)->set(obj,...)`: nothing happens when the object is already
        there; otherwise the old object leaves the holder. */
    method SetAt(i: nat, obj: Option<T>) returns (gone: Option<T>)
      requires Valid() && i < |holders|
      modifies this
      ensures Valid() && holders == old(holders)[i := obj]
      ensures gone == if old(holders)[i] == obj then None else old(holders)[i]
    {
      if holders[i] == obj {
        return None;
      }
      gone := holders[i];
      holders := holders[i := obj];
    }
  }

  type ColumnList = ObjList<Handle>

  /** How addColumn ends: true, false, or a method called on a null pointer. */
  datatype Added = Yes | No | NullCall

  class Array {
    var rows: int
    var columns: int
    const obj: ObjList<ColumnList>

    // Every object that came in is held, was taken out again, or was destroyed.
    ghost var handed: multiset<Handle>
    ghost var taken: multiset<Handle>
    ghost var destroyed: multiset<Handle>

    ghost function Lists(): set<ColumnList>
      reads this, obj
    {
      set i | 0 <= i < |obj.holders| && obj.holders[i].Some? :: obj.holders[i].value
    }

    /** Every column up to `columns` has a list of its own; the holders beyond
        the last column are empty. */
    ghost predicate Shape()
      reads this, obj
    {
      && obj.Valid() && 0 <= rows && 0 <= columns <= |obj.holders|
      && (forall c :: 0 <= c < columns ==> obj.holders[c].Some?)
      && (forall c :: columns <= c < |obj.holders| ==> obj.holders[c].None?)
      && (forall c, d :: 0 <= c < d < columns ==> obj.holders[c].value != obj.holders[d].value)
    }

    /** The columns hold exactly this. */
    ghost predicate Stores(raw: seq<Column>)
      requires Shape()
      reads this, obj, Lists()
    {
      && |raw| == columns
      && forall c :: 0 <= c < columns ==> obj.holders[c].value.holders == raw[c] && raw[c] != []
    }

    /** And every column has a holder for every row. */
    ghost predicate Covered()
      reads this, obj, Lists()
    {
      Shape() && forall c :: 0 <= c < columns ==>
        obj.holders[c].value.Valid() && rows <= |obj.holders[c].value.holders|
    }

    /** All holders of all columns. */
    ghost function Raw(): (raw: seq<Column>)
      requires Covered()
      reads this, obj, Lists()
      ensures |raw| == columns && Covers(raw, rows)
      ensures forall c :: 0 <= c < columns ==> raw[c] == obj.holders[c].value.holders
    {
      seq(columns, c requires 0 <= c < columns && Covered() reads this, obj, Lists() => obj.holders[c].value.holders)
    }

    /** Conservation of the objects. */
    ghost predicate Balanced()
      requires Covered()
      reads this, obj, Lists()
    {
      HeldIn(Raw()) + taken + destroyed == handed
    }

    /** A zero dimension creates no column at all; for a negative number of
        rows each column gets one holder. */
    constructor (columns: int, rows: int)
      ensures this.columns == columns && this.rows == rows && fresh(obj)
      ensures handed == taken == destroyed == multiset{}
      ensures Covered() <==> rows >= 0 && columns >= 0 && (rows > 0 || columns == 0)
      ensures rows != 0 && columns > 0 ==>
        && fresh(Lists()) && Created(obj, columns, HoldersFor(rows))
      ensures rows > 0 && columns > 0 ==> Raw() == Blank(columns, rows) && Balanced()
      ensures rows < 0 && columns > 0 ==>
        |obj.holders| == columns && forall c :: 0 <= c < columns ==> obj.holders[c].Some? && obj.holders[c].value.holders == [None]
      ensures rows == 0 || columns <= 0 ==> obj.holders == [None]
    {
      obj := new ObjList();
      this.rows, this.columns := rows, columns;
      handed, taken, destroyed := multiset{}, multiset{}, multiset{};
      new;
      if rows != 0 && columns > 0 {
        hide Blank, Empty, Covered, Shape, Raw, Balanced;
        CreateColumns(obj, columns, rows);
        if rows > 0 {
          CreatedIsCovered();
        } else {
          NegativeIsNotCovered();
          OneEmpty();
        }
      } else {
        hide Raw, Held, HeldIn;
        NothingCreated();
      }
    }

    static function HoldersFor(rows: int): nat {
      if rows < 1 then 1 else rows
    }

    lemma NegativeIsNotCovered()
      requires rows < 0
      ensures !Covered()
    {
    }

    lemma NothingCreated()
      requires obj.holders == [None] && (rows == 0 || columns <= 0)
      ensures Covered() <==> rows >= 0 && columns == 0
    {
      if columns > 0 {
        assert obj.holders[0].None?;
      }
    }

    static ghost predicate Created(list: ObjList<ColumnList>, n: nat, rows: nat)
      reads list, set i | 0 <= i < |list.holders| && list.holders[i].Some? :: list.holders[i].value
    {
      && |list.holders| == n
      && (forall c :: 0 <= c < n ==> list.holders[c].Some? && list.holders[c].value.holders == Empty(rows))
      && (forall c, d :: 0 <= c < d < n ==> list.holders[c].value != list.holders[d].value)
    }

    lemma CreatedIsCovered()
      requires 0 < columns && 0 < rows && obj.Valid() && Created(obj, columns, rows)
      requires handed == taken == destroyed == multiset{}
      ensures Covered() && Raw() == Blank(columns, rows) && Balanced()
    {
      hide Empty, Blank, Held, HeldIn;
      assert Shape();
      BlankHoldsNothing(columns, rows);
    }

    /** The constructor's loop over the columns. */
    static method CreateColumns(list: ObjList<ColumnList>, columns: nat, rows: int)
      requires list.holders == [None] && columns > 0 && rows != 0
      modifies list
      ensures Created(list, columns, HoldersFor(rows))
      ensures forall c :: 0 <= c < columns ==> fresh(list.holders[c].value)
    {
      hide Empty;
      for i := 0 to columns
        invariant if i == 0 then list.holders == [None] else Created(list, i, HoldersFor(rows))
        invariant i > 0 ==> forall c :: 0 <= c < i ==> fresh(list.holders[c].value)
      {
        var a := new ObjList<Handle>();
        if i == 0 {
          var _ := list.SetAt(0, Some(a));
        } else {
          list.Append(Some(a));
        }
        AddHolders(a, rows);
      }
    }

    /** And some empty holders, one for each further item. */
    static method AddHolders(a: ColumnList, rows: int)
      requires a.holders == [None]
      modifies a
      ensures a.holders == Empty(HoldersFor(rows))
    {
      assert Empty(1) == [None];
      var k := 1;
      while k < rows
        invariant 1 <= k <= HoldersFor(rows) && a.holders == Empty(k)
      {
        a.Append(None);
        k := k + 1;
      }
    }

    /** Inserts a row of objects before a row, or appends it. The holders
        beyond the last row, if a column has any, are not looked at. */
    method AddRow(row: Option<Column>, index: int) returns (ok: bool)
      requires Covered() && Balanced()
      modifies this`rows, this`handed, Lists()
      ensures Covered() && Balanced()
      ensures ok <==> index <= old(rows)
      ensures !ok ==> rows == old(rows) && Raw() == old(Raw()) && handed == old(handed)
      ensures ok ==>
        && rows == old(rows) + 1
        && Raw() == RawAddRow(old(Raw()), old(rows), if index < 0 then old(rows) else index, row)
        && handed == old(handed) + Held(RowOf(row, columns))
      ensures ok ==> forall c :: 0 <= c < columns ==>
        var at, h, h' := if index < 0 then old(rows) else index, old(Raw())[c], Raw()[c];
        var item := if row.Some? && c < |row.value| then row.value[c] else None;
        h' == if at == old(rows) then h + [item] else h[..at] + [item] + h[at..]
    {
      hide HeldIn, Held, RowAdded, Item, RawAddRow, RowOf, Lists, Tight;
      var at := index;
      if at < 0 {
        at := rows;
      }
      if at > rows {
        return false;
      }
      ghost var raw := Raw();
      ColumnsGrow(raw, rows, at, row);
      PutRow(row, at, raw);
      return true;
    }

    /** The rest of addRow, with its books. */
    method PutRow(row: Option<Column>, at: nat, ghost raw: seq<Column>)
      requires Covered() && Balanced() && at <= rows && raw == Raw()
      modifies this`rows, this`handed, Lists()
      ensures Covered() && Balanced() && rows == old(rows) + 1
      ensures Raw() == RawAddRow(raw, old(rows), at, row)
      ensures handed == old(handed) + Held(RowOf(row, columns))
    {
      hide HeldIn, Held, RowAdded, Item, RawAddRow, RowOf, Lists, Tight;
      ghost var n := rows;
      hide Covered, Raw;
      AddToColumns(row, at, raw);
      HeldAddRow(raw, n, at, row);
      AddRowCovers(raw, n, at, row);
      ghost var added := RawAddRow(raw, n, at, row);
      Exchange(HeldIn(added), multiset{}, HeldIn(raw), Held(RowOf(row, columns)), taken, destroyed, handed);
      handed := handed + Held(RowOf(row, columns));
      rows := rows + 1;
      assert Shape() && Stores(added);
      hide Shape, Stores;
      Restate(added);
    }

    /** The loop of addRow over the columns. */
    method AddToColumns(row: Option<Column>, at: nat, ghost raw: seq<Column>)
      requires Covered() && raw == Raw() && at <= rows
      modifies Lists()
      ensures Shape() && Stores(RawAddRow(raw, rows, at, row))
    {
      hide HeldIn, Held, Item;
      for i := 0 to columns
        invariant Shape()
        invariant forall c :: 0 <= c < i ==> obj.holders[c].value.holders == RowAdded(raw[c], rows, at, Item(row, c))
        invariant forall c :: i <= c < columns ==> obj.holders[c].value.holders == raw[c]
      {
        var list := obj.holders[i].value;
        var item := ItemOf(row, i);
        if at == rows {
          list.Append(item);
        } else {
          list.InsertAt(at, item);
        }
      }
    }

    lemma Restate(raw: seq<Column>)
      requires Shape() && Stores(raw) && Covers(raw, rows)
      ensures Covered() && Raw() == raw
    {
    }

    /** Deletes a row with its objects. */
    method DelRow(index: int) returns (ok: bool)
      requires Covered() && Balanced()
      modifies this`rows, this`destroyed, Lists()
      ensures Covered() && Balanced()
      ensures ok <==> 0 <= index < old(rows)
      ensures !ok ==> rows == old(rows) && Raw() == old(Raw()) && destroyed == old(destroyed)
      ensures ok ==>
        && rows == old(rows) - 1
        && Raw() == RawDelRow(old(Raw()), old(rows), index)
        && destroyed == old(destroyed) + Held(Row(Visible(old(Raw()), old(rows)), old(rows), index))
    {
      hide HeldIn, Held, Removed, RawDelRow, Row, Visible, Lists;
      if index < 0 || index >= rows {
        return false;
      }
      ghost var raw, n := Raw(), rows;
      hide Covered, Raw;
      RemoveFromColumns(index, raw);
      HeldDelRow(raw, n, index);
      DeleteRowDeletes(raw, n, index);
      ghost var left := RawDelRow(raw, n, index);
      destroyed := destroyed + Held(Row(Visible(raw, n), n, index));
      rows := rows - 1;
      assert Shape() && Stores(left);
      hide Shape, Stores;
      Restate(left);
      return true;
    }

    /** The loop of delRow over the columns. */
    method RemoveFromColumns(index: nat, ghost raw: seq<Column>)
      requires Covered() && raw == Raw() && index < rows
      modifies Lists()
      ensures Shape() && Stores(RawDelRow(raw, rows, index))
    {
      hide HeldIn, Held;
      for i := 0 to columns
        invariant Shape()
        invariant forall c :: 0 <= c < i ==> obj.holders[c].value.holders == Removed(raw[c], index)
        invariant forall c :: i <= c < columns ==> obj.holders[c].value.holders == raw[c]
      {
        var _ := obj.holders[i].value.RemoveAt(index);
      }
    }

    /** Inserts a column list before a column, or appends it behind whatever
        holder follows the last column; with no such holder there is none to
        call append on. */
    method AddColumn(column: ObjList?<Handle>, index: int) returns (r: Added)
      requires Covered() && Balanced()
      requires column != null ==> column.Valid() && column !in Lists()
      modifies this`columns, this`handed, obj
      ensures r == No <==> index > old(columns)
      ensures r == NullCall <==> (index < 0 || index == old(columns)) && old(|obj.holders|) == old(columns)
      ensures r != Yes ==> Covered() && Raw() == old(Raw()) && columns == old(columns) && handed == old(handed)
      ensures r == Yes ==> columns == old(columns) + 1
      ensures r == Yes && (index < 0 || index == old(columns)) ==>
        obj.holders == old(obj.holders) + [if column == null then None else Some(column)]
      ensures r == Yes && (index < 0 || index == old(columns)) ==> !Shape()
      ensures r == Yes && 0 <= index < old(columns) ==>
        && (Covered() <==> column != null && rows <= |column.holders|)
        && (column != null && rows <= |column.holders| ==>
             && Raw() == Inserted(old(Raw()), index, column.holders)
             && handed == old(handed) + Held(column.holders) && Balanced())
    {
      hide HeldIn, Held;
      var at := index;
      if at < 0 {
        at := columns;
      }
      if at > columns {
        return No;
      }
      var item := if column == null then None else Some(column);
      if at == columns {
        if at >= |obj.holders| {
          return NullCall;
        }
        obj.Append(item);
        columns := columns + 1;
        assert obj.holders[columns - 1].None?;
      } else {
        ghost var raw, was := Raw(), obj.holders;
        obj.InsertAt(at, item);
        columns := columns + 1;
        ColumnsInserted(was, at, item);
        assert obj.holders[at] == item;
        if column != null && rows <= |column.holders| {
          handed := handed + Held(column.holders);
          HeldInInserted(raw, at, column.holders);
          InsertedColumn(raw, was, at, column);
        }
      }
      return Yes;
    }

    lemma ColumnsInserted(was: seq<Option<ColumnList>>, at: nat, item: Option<ColumnList>)
      requires at < |was|
      ensures forall j :: 0 <= j <= |was| ==>
        Inserted(was, at, item)[j] == if j < at then was[j] else if j == at then item else was[j - 1]
    {
      forall j | 0 <= j <= |was|
        ensures Inserted(was, at, item)[j] == if j < at then was[j] else if j == at then item else was[j - 1]
      {
        InsertedAt(was, at, item, j);
      }
      assert |Inserted(was, at, item)| == |was| + 1;
    }

    lemma InsertedColumn(raw: seq<Column>, was: seq<Option<ColumnList>>, at: nat, column: ColumnList)
      requires 0 <= rows && |raw| == columns - 1 && at < |raw| <= |was|
      requires Covers(raw, rows)
      requires forall c :: 0 <= c < |raw| ==> was[c].Some? && was[c].value.Valid() && was[c].value.holders == raw[c]
      requires forall c :: |raw| <= c < |was| ==> was[c].None?
      requires forall c, d :: 0 <= c < d < |raw| ==> was[c].value != was[d].value
      requires obj.Valid() && obj.holders == Inserted(was, at, Some(column))
      requires column.Valid() && rows <= |column.holders|
      requires forall c :: 0 <= c < |raw| ==> was[c].value != column
      ensures Covered() && Raw() == Inserted(raw, at, column.holders)
    {
      ColumnsInserted(was, at, Some(column));
      forall c | 0 <= c < columns
        ensures obj.holders[c].Some? && obj.holders[c].value.holders == Inserted(raw, at, column.holders)[c]
        ensures obj.holders[c].value.Valid() && rows <= |obj.holders[c].value.holders|
      {
        InsertedAt(raw, at, column.holders, c);
      }
    }

    /** Deletes a column with its list and everything in it. */
    method DelColumn(index: int) returns (ok: bool)
      requires Covered() && Balanced()
      modifies this`columns, this`destroyed, obj
      ensures Covered() && Balanced()
      ensures ok <==> 0 <= index < old(columns)
      ensures !ok ==> columns == old(columns) && Raw() == old(Raw()) && destroyed == old(destroyed)
      ensures ok ==>
        && columns == old(columns) - 1
        && Raw() == Deleted(old(Raw()), index)
        && destroyed == old(destroyed) + Held(old(Raw())[index])
        && |obj.holders| == old(|obj.holders|) - if index == old(|obj.holders|) - 1 then 0 else 1
    {
      hide HeldIn, Held;
      if index < 0 || index >= columns {
        return false;
      }
      ghost var raw, was := Raw(), obj.holders;
      var _ := obj.RemoveAt(index);
      columns := columns - 1;
      destroyed := destroyed + Held(raw[index]);
      HeldInAround(raw, index);
      ColumnsRemoved(was, index);
      forall c | 0 <= c < columns
        ensures obj.holders[c].Some? && obj.holders[c].value.holders == Deleted(raw, index)[c]
        ensures obj.holders[c] == was[if c < index then c else c + 1]
      {
        DeletedAt(raw, index, c);
      }
      assert Raw() == Deleted(raw, index);
      return true;
    }

    lemma ColumnsRemoved(was: seq<Option<ColumnList>>, at: nat)
      requires at < |was|
      ensures var now := Removed(was, at);
        && |now| == |was| - (if at + 1 == |was| then 0 else 1)
        && (forall j :: 0 <= j < |was| - 1 ==> now[j] == was[if j < at then j else j + 1])
        && (at + 1 == |was| ==> now[at].None?)
    {
    }

    /** `m_obj[column]`, then `(*l)+row`: the list whose row-th holder is the
        cell, null when there is none (the "does not exist!" branch). */
    method Holder(column: nat, row: nat) returns (l: ObjList?<Handle>)
      requires Covered() && column < columns && row < rows
      ensures l != null && column < |obj.holders| && obj.holders[column] == Some(l) && row < |l.holders|
    {
      l := if column < |obj.holders| && obj.holders[column].Some? then obj.holders[column].value else null;
      if l != null && row >= |l.holders| {
        l := null;
      }
    }

    predicate InBounds(column: int, row: int)
      reads this
    {
      0 <= column < columns && 0 <= row < rows
    }

    method Get(column: int, row: int) returns (r: Cell)
      requires Covered()
      ensures r == if InBounds(column, row) then Visible(Raw(), rows)[column][row] else None
      ensures InBounds(column, row) ==> r == Raw()[column][row] == obj.holders[column].value.holders[row]
    {
      if column < 0 || column >= columns || row < 0 || row >= rows {
        return None;
      }
      var l := Holder(column, row);
      return l.holders[row];
    }

    /** Takes an object out of its cell. */
    method Take(column: int, row: int) returns (r: Cell)
      requires Covered() && Balanced()
      modifies this`taken, Lists()
      ensures Covered() && Balanced() && taken == old(taken) + if r.Some? then multiset{r.value} else multiset{}
      ensures !InBounds(column, row) ==> r == None && Raw() == old(Raw())
      ensures InBounds(column, row) ==>
        && r == old(Raw())[column][row]
        && Raw() == WithCell(old(Raw()), column, row, None)
    {
      hide HeldIn, Held, HeldCell, WithCell;
      if column < 0 || column >= columns || row < 0 || row >= rows {
        NothingInCell();
        return None;
      }
      ghost var raw := Raw();
      var l := Holder(column, row);
      r := l.SetAt(row, None);
      taken := taken + HeldCell(r);
      CellStored(raw, column, row, None);
      hide Covered, Raw;
      NothingInCell();
      HeldWithCell(raw, column, row, None);
      Exchange(HeldIn(WithCell(raw, column, row, None)), HeldCell(r), HeldIn(raw), multiset{},
               old(taken), destroyed, handed);
      HeldOnce(r);
    }

    /** Puts an object into a cell; the one that was there is destroyed,
        unless it is the same. */
    method Set(item: Cell, column: int, row: int) returns (ok: bool)
      requires Covered() && Balanced()
      modifies this`handed, this`destroyed, Lists()
      ensures Covered() && Balanced() && (ok <==> InBounds(column, row))
      ensures !ok ==> Raw() == old(Raw()) && handed == old(handed) && destroyed == old(destroyed)
      ensures ok ==>
        && Raw() == WithCell(old(Raw()), column, row, item)
        && var gone := old(Raw())[column][row];
           && handed == old(handed) + (if gone == item then multiset{} else HeldCell(item))
           && destroyed == old(destroyed) + (if gone == item then multiset{} else HeldCell(gone))
    {
      hide HeldIn, Held, HeldCell, WithCell;
      if column < 0 || column >= columns || row < 0 || row >= rows {
        return false;
      }
      ghost var raw := Raw();
      var l := Holder(column, row);
      var gone := l.SetAt(row, item);
      if raw[column][row] != item {
        handed := handed + HeldCell(item);
        destroyed := destroyed + HeldCell(gone);
      }
      CellStored(raw, column, row, item);
      hide Covered, Raw;
      HeldWithCell(raw, column, row, item);
      Exchange(HeldIn(WithCell(raw, column, row, item)), HeldCell(raw[column][row]), HeldIn(raw), HeldCell(item),
               taken, old(destroyed), old(handed));
      if raw[column][row] == item {
        SameCell(raw, column, row);
      }
      return true;
    }

    lemma SameCell(raw: seq<Column>, column: nat, row: nat)
      requires column < |raw| && row < |raw[column]|
      ensures WithCell(raw, column, row, raw[column][row]) == raw
    {
      assert raw[column][row := raw[column][row]] == raw[column];
    }

    lemma NothingInCell()
      ensures HeldCell(None) == multiset{}
    {
    }

    lemma CellStored(raw: seq<Column>, column: nat, row: nat, item: Cell)
      requires Shape() && |raw| == columns && column < columns && row < rows && Covers(raw, rows)
      requires forall c :: 0 <= c < columns ==>
        obj.holders[c].value.holders == if c == column then raw[c][row := item] else raw[c]
      ensures Covered() && Raw() == WithCell(raw, column, row, item)
    {
    }

    /** `row ? (*row)[i] : 0`. */
    static function ItemOf(row: Option<Column>, i: nat): (c: Cell)
      ensures c == Item(row, i)
    {
      if row.Some? && i < |row.value| then row.value[i] else None
    }
  }

  /** n empty holders. */
  function Empty(n: nat): (h: Column)
    ensures |h| == n && forall i :: 0 <= i < n ==> h[i] == None
  {
    if n == 0 then [] else Empty(n - 1) + [None]
  }

  lemma OneEmpty()
    ensures Empty(1) == [None]
  {
  }

  function Blank(columns: nat, rows: nat): (t: seq<Column>)
    ensures |t| == columns && forall c :: 0 <= c < columns ==> t[c] == Empty(rows)
  {
    if columns == 0 then [] else Blank(columns - 1, rows) + [Empty(rows)]
  }

  lemma {:induction false} EmptyHoldsNothing(rows: nat)
    ensures Held(Empty(rows)) == multiset{}
  {
    if rows > 0 {
      EmptyHoldsNothing(rows - 1);
      assert Empty(rows)[..rows - 1] == Empty(rows - 1);
    }
  }

  lemma {:induction false} BlankHoldsNothing(columns: nat, rows: nat)
    ensures HeldIn(Blank(columns, rows)) == multiset{}
  {
    if columns > 0 {
      BlankHoldsNothing(columns - 1, rows);
      EmptyHoldsNothing(rows);
      assert Blank(columns, rows)[..columns - 1] == Blank(columns - 1, rows);
    }
  }
}
