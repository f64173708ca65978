/**
RefStorage and SliceVector (yate/yatemath.h): vectors that are windows into
shared, reference counted storage. The contracts of ref, deref and destruct
are those of RefObject (yate/engine/TelEngine.cpp).

Lengths and offsets are counted in elements. The ghost Registry knows every
storage that was ever made and every vector that is alive; the ghost holders
of a storage are the live vectors that point at it.
*/
module Slices {
  import opened Wrappers
  import opened Elementwise

  /** The range of unsigned int. */
  const U32 := 0x1_0000_0000

  function Add32(a: nat, b: nat): nat {
    (a + b) % U32
  }

  /** The sum is so large that it comes around into a window of this length again. */
  predicate Wraps(offs: nat, len: nat, length: nat) {
    U32 <= offs + len <= U32 + length
  }

  function Max(a: nat, b: nat): nat {
    if a < b then b else a
  }

  class RefStorage<T> {
    const cells: array<T>
    var refcount: nat
    ghost var holders: set<SliceVector<T>>

    /** A copy of the value, or cells of zero bytes. */
    constructor (value: Option<seq<T>>, len: nat, zero: T)
      requires value.Some? ==> len <= |value.value|
      ensures fresh(cells) && cells.Length == len && refcount == 1 && holders == {}
      ensures forall i :: 0 <= i < len ==> cells[i] == if value.Some? then value.value[i] else zero
    {
      cells := new T[len](i => if value.Some? && 0 <= i < |value.value| then value.value[i] else zero);
      refcount, holders := 1, {};
    }

    /** Fails on an object that is gone already. */
    method Ref() returns (ok: bool)
      modifies this`refcount
      ensures ok <==> old(refcount) > 0
      ensures refcount == old(refcount) + if ok then 1 else 0
    {
      if refcount > 0 {
        refcount := refcount + 1;
        return true;
      }
      return false;
    }

    /** True when the object is gone; zeroRefs deletes it when the count comes down to zero. */
    method Deref() returns (gone: bool)
      modifies this`refcount
      ensures refcount == if old(refcount) > 0 then old(refcount) - 1 else 0
      ensures gone <==> old(refcount) <= 1
    {
      var i := refcount;
      if i > 0 {
        refcount := refcount - 1;
      }
      return i <= 1;
    }

    /** `set`: copies a buffer into the storage if the range is available. */
    method Set(buf: Option<seq<T>>, len: nat, offs: nat) returns (ok: bool)
      requires buf.Some? ==> len <= |buf.value|
      requires offs < U32 && len < U32 && !Wraps(offs, len, cells.Length)
      modifies cells
      ensures ok <==> len == 0 || (buf.Some? && offs + len <= cells.Length)
      ensures forall i :: 0 <= i < cells.Length ==>
        cells[i] == if ok && offs <= i < offs + len then buf.value[i - offs] else old(cells[i])
    {
      var dest := len != 0 && Add32(offs, len) <= cells.Length;
      if !(len != 0 && dest && buf.Some?) {
        return len == 0;
      }
      forall i | 0 <= i < len {
        cells[offs + i] := buf.value[i];
      }
      return true;
    }
  }

  /** Everything that is alive, and every storage that ever was. */
  class Registry<T> {
    ghost var vectors: set<SliceVector<T>>
    ghost var storages: set<RefStorage<T>>

    /** Vectors and storages know each other, and no two storages share memory. */
    ghost predicate Linked()
      reads this, vectors, storages
    {
      && (forall v <- vectors :: v.storage != null ==> v.storage in storages && v in v.storage.holders)
      && (forall s <- storages, v <- s.holders :: v in vectors && v.storage == s)
      && (forall s <- storages :: s.cells.Length < U32)
      && (forall s <- storages, t <- storages :: s != t ==> s.cells != t.cells)
    }

    /** Each count is the number of holders, but for one reference to a storage
        that is about to get a holder. */
    ghost predicate CountedBut(spare: RefStorage?<T>)
      reads this, storages
    {
      forall s <- storages :: s.refcount == |s.holders| + if s == spare then 1 else 0
    }

    /** The same, while one holder of another storage has no reference. */
    ghost predicate CountedWith(spare: RefStorage?<T>, short: RefStorage?<T>)
      reads this, storages
    {
      forall s <- storages ::
        s.refcount + (if s == short then 1 else 0) == |s.holders| + if s == spare then 1 else 0
    }

    /** Each count is the number of holders. */
    ghost predicate Counted()
      reads this, storages
    {
      CountedBut(null)
    }

    ghost predicate Windowed()
      reads this, vectors
    {
      forall v <- vectors :: v.Window()
    }

    ghost predicate Valid()
      reads this, vectors, storages
    {
      Linked() && Counted() && Windowed()
    }

    lemma Member(v: SliceVector<T>)
      requires Valid() && v in vectors
      ensures v.Window() && (v.storage != null ==> v.storage in storages && v.storage.cells.Length < U32)
    {
    }

    lemma Placed(v: SliceVector<T>)
      requires Valid() && v in vectors
      ensures v.storage != null ==> v.start.Some? && v.start.value + v.length <= v.storage.cells.Length
      ensures v.storage == null ==> v.length == 0
    {
    }

    lemma OwnMemory(v: SliceVector<T>, w: SliceVector<T>)
      requires Valid() && v in vectors && w in vectors
      ensures v.storage != null && w.storage != null && v.storage != w.storage ==> v.storage.cells != w.storage.cells
    {
    }

    constructor ()
      ensures Valid() && vectors == {} && storages == {}
    {
      vectors, storages := {}, {};
    }
  }

  class SliceVector<T> {
    var storage: RefStorage?<T>
    var start: Option<nat>      // the data pointer, as a cell of the storage
    var length: nat
    var maxLen: nat

    ghost predicate Empty()
      reads this
    {
      storage == null && start == None && length == 0 && maxLen == 0
    }

    /** A vector is empty, or its whole window lies inside its storage. */
    ghost predicate Window()
      reads this
    {
      || Empty()
      || (storage != null && start.Some? && 0 < maxLen && length <= maxLen
          && start.value + maxLen <= storage.cells.Length)
    }

    /** The storage, as a set of at most one. */
    ghost function Store(): set<RefStorage<T>>
      reads this
    {
      if storage == null then {} else {storage}
    }

    ghost function Memory(): set<array<T>>
      reads this
    {
      if storage == null then {} else {storage.cells}
    }

    ghost function Contents(): (s: seq<T>)
      requires Window()
      reads this, Memory()
      ensures |s| == length
    {
      if storage == null then [] else storage.cells[start.value..start.value + length]
    }

    /** `data(offs,len)`. */
    method Data(offs: nat, len: nat) returns (d: Option<nat>)
      requires Window() && offs < U32 && len < U32
      ensures d == if len != 0 && length != 0 && Add32(offs, len) <= length then Some(start.value + offs) else None
    {
      if len != 0 && length != 0 && Add32(offs, len) <= length {
        return Some(start.value + offs);
      }
      return None;
    }

    /** `available(offs,len)`: the most elements, but no more than asked for,
        that there are from an offset on; a negative len asks for all. */
    method Available(offs: nat, len: int) returns (n: nat)
      requires Window()
      ensures n == 0 <==> len == 0 || length <= offs
      ensures n > 0 ==> offs + n <= length && (len < 0 || n <= len) && (offs + n == length || n == len)
    {
      if len != 0 && offs < length {
        var rest := length - offs;
        return if len < 0 || rest <= len then rest else len;
      }
      return 0;
    }

    /** `data()` with what it points at: no pointer to an empty vector. */
    method DataBuffer() returns (b: Option<seq<T>>)
      requires Window()
      ensures b == if length == 0 then None else Some(Contents())
    {
      if length == 0 {
        return None;
      }
      return Some(storage.cells[start.value..start.value + length]);
    }

    /** The bookkeeping around one vector, whose own window may be out of date. */
    ghost predicate Known(reg: Registry<T>, spare: RefStorage?<T>)
      reads this, reg, reg.vectors, reg.storages
    {
      && this in reg.vectors && reg.Linked() && reg.CountedBut(spare)
      && forall v <- reg.vectors :: v != this ==> v.Window()
    }

    /** `TelEngine::destruct(m_storage)`. */
    method DropStorage(ghost reg: Registry<T>, ghost spare: RefStorage?<T>)
      requires Known(reg, spare) && (storage == null || storage != spare)
      modifies this`storage, Store()
      ensures Known(reg, spare) && storage == null
      ensures old(storage) != null ==>
        && old(storage).refcount == old(storage.refcount) - 1
        && old(storage).holders == old(storage.holders) - {this}
    {
      if storage != null {
        assert this in storage.holders;
        var _ := storage.Deref();
        storage.holders := storage.holders - {this};
        storage := null;
      }
    }

    /** `m_storage = tmp`, with a reference to tmp in hand. */
    method TakeStorage(tmp: RefStorage<T>, ghost reg: Registry<T>)
      requires Known(reg, tmp) && storage == null && tmp in reg.storages
      modifies this`storage, tmp`holders
      ensures Known(reg, null) && storage == tmp
      ensures tmp.holders == old(tmp.holders) + {this}
    {
      assert this !in tmp.holders;
      storage := tmp;
      tmp.holders := tmp.holders + {this};
    }

    /** Sets the data; without a data pointer the storage is let go. */
    method SetData(data: Option<nat>, len: nat, maxLen: nat, ghost reg: Registry<T>) returns (ok: bool)
      requires Known(reg, null)
      requires data.Some? ==> storage != null
      modifies this, Store()
      ensures Known(reg, null) && (Window() ==> reg.Valid())
      ensures ok <==> data.Some?
      ensures ok ==> storage == old(storage) && start == data && length == len && this.maxLen == maxLen
      ensures ok && storage != null ==>
        storage.refcount == old(storage.refcount) && storage.holders == old(storage.holders)
      ensures !ok ==> Empty()
      ensures !ok && old(storage) != null ==>
        && old(storage).refcount == old(storage.refcount) - 1
        && old(storage).holders == old(storage.holders) - {this}
    {
      if data.Some? {
        start := data;
        length := len;
        this.maxLen := maxLen;
        return true;
      }
      start := None;
      length, this.maxLen := 0, 0;
      DropStorage(reg, null);
      return false;
    }

    /** The storage of initStorage, with the data copied in. */
    static method NewStorage(len: nat, data: Option<seq<T>>, max: nat, zero: T) returns (s: RefStorage<T>)
      requires data.Some? ==> len <= |data.value|
      requires len <= max < U32
      ensures fresh(s) && fresh(s.cells) && s.cells.Length == max && s.refcount == 1 && s.holders == {}
      ensures forall i :: 0 <= i < max ==> s.cells[i] == if data.Some? && i < len then data.value[i] else zero
    {
      if data.None? || max == len {
        s := new RefStorage(data, max, zero);
      } else {
        s := new RefStorage(None, max, zero);
        var _ := s.Set(data, len, 0);
      }
    }

    /** A storage that was just made, with its first reference in hand. */
    ghost method AddStorage(made: RefStorage<T>, reg: Registry<T>)
      requires reg.Valid() && this in reg.vectors && made !in reg.storages
      requires made.refcount == 1 && made.holders == {} && made.cells.Length < U32
      requires forall s <- reg.storages :: s.cells != made.cells
      modifies reg`storages
      ensures Known(reg, made) && reg.storages == old(reg.storages) + {made}
    {
      reg.storages := reg.storages + {made};
    }

    /** Builds a storage of its own for a vector without one. */
    method InitStorage(len: nat, data: Option<seq<T>>, maxLen: nat, ghost reg: Registry<T>, zero: T) returns (ok: bool)
      requires reg.Valid() && this in reg.vectors && Empty()
      requires data.Some? ==> len <= |data.value|
      requires Max(len, maxLen) < U32
      modifies this, reg`storages
      ensures reg.Valid()
      ensures ok <==> Max(len, maxLen) > 0
      ensures !ok ==> Empty() && reg.storages == old(reg.storages)
      ensures ok ==>
        && storage != null && fresh(storage) && fresh(storage.cells)
        && reg.storages == old(reg.storages) + {storage}
        && storage.refcount == 1 && storage.holders == {this}
        && storage.cells.Length == Max(len, maxLen)
        && start == Some(0) && length == len && this.maxLen == Max(len, maxLen)
      ensures ok ==> forall i :: 0 <= i < Max(len, maxLen) ==>
        storage.cells[i] == if data.Some? && i < len then data.value[i] else zero
    {
      var max := maxLen;
      if max < len {
        max := len;
      }
      if max == 0 {
        return false;
      }
      var made := NewStorage(len, data, max, zero);
      AddStorage(made, reg);
      TakeStorage(made, reg);
      ok := SetData(Some(0), len, max, reg);
    }

    /** Makes this vector a window of another one; asks for the whole of it
        when len is 0, whatever the offset. The result lies inside the storage,
        like every other vector, unless the sum comes around. */
    method InitSlice(del: bool, other: SliceVector<T>, offs: nat, len: nat, ghost reg: Registry<T>) returns (ok: bool)
      requires reg.Valid() && this in reg.vectors && other in reg.vectors
      requires !del ==> Empty()
      requires offs < U32 && len < U32
      modifies this, Store(), other.Store()
      ensures Known(reg, null)
      ensures var n, m := if len == 0 then old(other.length) else len, old(other.length);
        if n > 0 && m > 0 && Add32(offs, n) <= m then
          && ok && storage == old(other.storage) && length == n && maxLen == n
          && start == Some(old(other.start.value) + offs)
          && (Window() <==> !Wraps(offs, n, m)) && (reg.Valid() <==> !Wraps(offs, n, m))
        else
          ok == (n == 0) && Empty() && reg.Valid()
      ensures other != this ==> other.storage == old(other.storage)
      ensures forall s <- reg.storages ::
        s.refcount == old(s.refcount) + (if s == storage then 1 else 0) - (if s == old(storage) then 1 else 0)
    {
      hide Registry.Linked, Registry.CountedBut, Add32, Wraps;
      var n := len;
      if n == 0 {
        n := other.length;
      }
      reg.Member(other);
      var d := other.Data(offs, n);
      if d.None? {
        if del {
          var _ := SetData(None, 0, 0, reg);
        }
        return n == 0;
      }
      InsideOrAround(offs, n, other.length, other.start.value, other.maxLen, other.storage.cells.Length);
      if storage == other.storage {
        ok := SetData(d, n, n, reg);
        return;
      }
      ok := ShareStorage(other, d.value, n, reg);
    }

    /** `destruct(m_storage); m_storage = tmp; return setData(d,len,len);` */
    method Exchange(tmp: RefStorage<T>, d: nat, n: nat, ghost reg: Registry<T>)
      requires Known(reg, tmp) && tmp in reg.storages && tmp != storage
      modifies this, Store(), tmp
      ensures Known(reg, null) && (Window() ==> reg.Valid())
      ensures storage == tmp && length == n && maxLen == n && start == Some(d)
      ensures tmp.refcount == old(tmp.refcount)
      ensures old(storage) != null ==> old(storage).refcount == old(storage.refcount) - 1
    {
      DropStorage(reg, tmp);
      TakeStorage(tmp, reg);
      var _ := SetData(Some(d), n, n, reg);
    }

    /** The branch for another storage: a reference first, then the exchange. */
    method ShareStorage(other: SliceVector<T>, d: nat, n: nat, ghost reg: Registry<T>) returns (ok: bool)
      requires reg.Valid() && this in reg.vectors && other in reg.vectors
      requires other.storage != null && storage != other.storage
      modifies this, Store(), other.Store()
      ensures Known(reg, null) && (Window() ==> reg.Valid()) && ok
      ensures storage == old(other.storage) && length == n && maxLen == n && start == Some(d)
      ensures storage.refcount == old(other.storage.refcount) + 1
      ensures old(storage) != null ==> old(storage).refcount == old(storage.refcount) - 1
    {
      var tmp := other.storage;
      assert other in tmp.holders;
      ok := tmp.Ref();
      if ok {
        assert Known(reg, tmp);
        Exchange(tmp, d, n, reg);
        return;
      }
      assert false;
    }

    // ------------------------------------------------------------ constructors

    /** What a constructor or a method may leave as it was: every other vector
        and the contents of all memory. */
    ghost predicate Born(reg: Registry<T>, before: set<SliceVector<T>>)
      reads this, reg, reg.vectors, reg.storages
    {
      reg.Valid() && reg.vectors == before + {this} && this !in before
    }

    /** The same of a vector whose window may lie outside its storage. */
    ghost predicate Entered(reg: Registry<T>, before: set<SliceVector<T>>)
      reads this, reg, reg.vectors, reg.storages
    {
      Known(reg, null) && reg.vectors == before + {this} && this !in before
    }

    /** A new vector is empty at first. */
    ghost method Enter(reg: Registry<T>)
      requires reg.Valid() && Empty() && this !in reg.vectors
      modifies reg`vectors
      ensures Born(reg, old(reg.vectors))
    {
      reg.vectors := reg.vectors + {this};
    }

    constructor Nothing(ghost reg: Registry<T>)
      requires reg.Valid()
      modifies reg`vectors
      ensures Born(reg, old(reg.vectors)) && Empty()
    {
      storage, start, length, maxLen := null, None, 0, 0;
      new;
      Enter(reg);
    }

    /** A vector over a storage of its own, from a buffer or zeroed. */
    constructor Sized(len: nat, buf: Option<seq<T>>, max: nat, ghost reg: Registry<T>, zero: T)
      requires reg.Valid() && Max(len, max) < U32
      requires buf.Some? ==> len <= |buf.value|
      modifies reg
      ensures Born(reg, old(reg.vectors))
      ensures storage == null <==> Max(len, max) == 0
      ensures storage != null ==> fresh(storage) && fresh(storage.cells)
      ensures length == len && maxLen == Max(len, max)
      ensures forall i :: 0 <= i < len ==> Contents()[i] == if buf.Some? then buf.value[i] else zero
    {
      storage, start, length, maxLen := null, None, 0, 0;
      new;
      Enter(reg);
      Construct(len, buf, max, reg, zero);
    }

    /** initStorage on a vector that has just been made. */
    method Construct(len: nat, buf: Option<seq<T>>, max: nat, ghost reg: Registry<T>, zero: T)
      requires reg.Valid() && this in reg.vectors && Empty() && Max(len, max) < U32
      requires buf.Some? ==> len <= |buf.value|
      modifies this, reg`storages
      ensures reg.Valid()
      ensures storage == null <==> Max(len, max) == 0
      ensures storage != null ==> fresh(storage) && fresh(storage.cells)
      ensures length == len && maxLen == Max(len, max)
      ensures forall i :: 0 <= i < len ==> Contents()[i] == if buf.Some? then buf.value[i] else zero
    {
      hide Registry.Linked, Registry.CountedBut, Registry.Windowed;
      var _ := InitStorage(len, buf, max, reg, zero);
    }

    /** initSlice, and what the new window shows. */
    method Cut(del: bool, other: SliceVector<T>, offs: nat, len: nat, ghost reg: Registry<T>) returns (ok: bool)
      requires reg.Valid() && this in reg.vectors && other in reg.vectors
      requires !del ==> Empty()
      requires offs < U32 && len < U32
      modifies this, Store(), other.Store()
      ensures Known(reg, null)
      ensures var n, m := if len == 0 then old(other.length) else len, old(other.length);
        if n > 0 && m > 0 && Add32(offs, n) <= m then
          && ok && storage == old(other.storage) && length == n && maxLen == n
          && start == Some(old(other.start.value) + offs)
          && (reg.Valid() <==> !Wraps(offs, n, m))
          && (offs + n <= m ==> Window() && Contents() == old(other.Contents())[offs..offs + n])
        else ok == (n == 0) && Empty() && reg.Valid()
    {
      hide Registry.Linked, Registry.CountedBut, Wraps, Add32;
      reg.Member(other);
      reg.Placed(other);
      ghost var p, n := other.start, other.length;
      ghost var m := if other.storage == null then [] else other.storage.cells[..];
      ok := InitSlice(del, other, offs, len, reg);
      if storage != null && offs + length <= n {
        NotAround(offs, length, n);
        SliceOfSlice(m, p.value, n, offs, length);
      }
    }

    /** A vector whose own memory is not written keeps its contents. */
    static twostate lemma SameContents(v: SliceVector<T>)
      requires old(v.Window()) && unchanged(v) && forall a <- old(v.Memory()) :: unchanged(a)
      ensures v.Window() && v.Contents() == old(v.Contents())
    {
    }

    /** initSlice on a vector that has just been made. */
    method ConstructSlice(other: SliceVector<T>, offs: nat, len: nat, ghost reg: Registry<T>)
      requires reg.Valid() && other in reg.vectors && Empty() && this !in reg.vectors
      requires offs < U32 && len < U32
      modifies this, reg`vectors, other.Store()
      ensures Entered(reg, old(reg.vectors)) && reg.storages == old(reg.storages)
      ensures var n := if len == 0 then other.length else len;
        if n > 0 && other.length > 0 && Add32(offs, n) <= other.length then
          && storage == other.storage && length == n && maxLen == n
          && start == Some(other.start.value + offs)
          && (reg.Valid() <==> !Wraps(offs, n, other.length))
          && (offs + n <= other.length ==> Window() && Contents() == other.Contents()[offs..offs + n])
        else Empty() && reg.Valid()
    {
      hide Registry.Linked, Registry.CountedBut, Registry.Windowed, Add32, Wraps;
      reg.Member(other);
      Enter(reg);
      SameContents(other);
      var _ := Cut(false, other, offs, len, reg);
    }

    /** A slice of another vector: inside it, and no longer, but for a sum that comes around. */
    constructor Slice(other: SliceVector<T>, offs: nat, len: nat, ghost reg: Registry<T>)
      requires reg.Valid() && other in reg.vectors
      requires offs < U32 && len < U32
      modifies reg`vectors, other.Store()
      ensures Entered(reg, old(reg.vectors)) && reg.storages == old(reg.storages)
      ensures var n := if len == 0 then other.length else len;
        if n > 0 && other.length > 0 && Add32(offs, n) <= other.length then
          && storage == other.storage && length == n && maxLen == n
          && start == Some(other.start.value + offs)
          && (reg.Valid() <==> !Wraps(offs, n, other.length))
          && (offs + n <= other.length ==> Window() && Contents() == other.Contents()[offs..offs + n])
        else Empty() && reg.Valid()
    {
      hide Registry.Linked, Registry.CountedBut, Registry.Windowed, Add32, Wraps;
      storage, start, length, maxLen := null, None, 0, 0;
      new;
      ConstructSlice(other, offs, len, reg);
    }

    /** The concatenation of two vectors, in a storage of its own. */
    constructor Concat(v1: SliceVector<T>, v2: SliceVector<T>, ghost reg: Registry<T>, zero: T)
      requires reg.Valid() && v1 in reg.vectors && v2 in reg.vectors
      requires v1.length + v2.length < U32
      modifies reg
      ensures Born(reg, old(reg.vectors))
      ensures storage != null ==> fresh(storage) && fresh(storage.cells)
      ensures Contents() == v1.Contents() + v2.Contents()
      ensures forall v <- old(reg.vectors) :: v.Contents() == old(v.Contents())
    {
      hide Registry.Linked, Registry.CountedBut;
      storage, start, length, maxLen := null, None, 0, 0;
      new;
      Enter(reg);
      BuildConcat(v1, v2, null, reg, zero);
    }

    /** `m_storage->set(v.data(),v.size(),...)`. */
    method CopyIn(v: SliceVector<T>, at: nat)
      requires v.Window() && storage != null
      requires v.storage != null ==> storage.cells != v.storage.cells
      requires at + v.length <= storage.cells.Length < U32
      modifies storage.cells
      ensures storage.cells[..] == Overwritten(old(storage.cells[..]), at, v.Contents())
    {
      ghost var was, b := storage.cells[..], v.Contents();
      var buf := v.DataBuffer();
      var _ := storage.Set(buf, v.length, at);
      assert forall i :: 0 <= i < |was| ==> storage.cells[i] == Overwritten(was, at, b)[i];
    }

    /** The concatenation of three vectors. */
    constructor Concat3(v1: SliceVector<T>, v2: SliceVector<T>, v3: SliceVector<T>, ghost reg: Registry<T>, zero: T)
      requires reg.Valid() && v1 in reg.vectors && v2 in reg.vectors && v3 in reg.vectors
      requires v1.length + v2.length + v3.length < U32
      modifies reg
      ensures Born(reg, old(reg.vectors))
      ensures storage != null ==> fresh(storage) && fresh(storage.cells)
      ensures Contents() == v1.Contents() + v2.Contents() + v3.Contents()
      ensures forall v <- old(reg.vectors) :: v.Contents() == old(v.Contents())
    {
      hide Registry.Linked, Registry.CountedBut;
      storage, start, length, maxLen := null, None, 0, 0;
      new;
      Enter(reg);
      BuildConcat(v1, v2, v3, reg, zero);
    }

    /** The length and the contents of a vector that may be missing. */
    static ghost function LengthOf(v: SliceVector?<T>): nat
      reads v
    {
      if v == null then 0 else v.length
    }

    static ghost function ContentsOf(v: SliceVector?<T>): (s: seq<T>)
      requires v != null ==> v.Window()
      reads v, if v == null then {} else v.Memory()
      ensures |s| == LengthOf(v)
    {
      if v == null then [] else v.Contents()
    }

    /** The body of both concatenating constructors: a storage for everything,
        the first vector copied when it is made, the others after it. */
    method BuildConcat(v1: SliceVector<T>, v2: SliceVector<T>, v3: SliceVector?<T>, ghost reg: Registry<T>, zero: T)
      requires reg.Valid() && this in reg.vectors && Empty()
      requires v1 in reg.vectors && v2 in reg.vectors && this != v1 && this != v2 && this != v3
      requires v3 != null ==> v3 in reg.vectors
      requires v1.length + v2.length + LengthOf(v3) < U32
      modifies this, reg`storages
      ensures reg.Valid()
      ensures storage != null ==> fresh(storage) && fresh(storage.cells)
      ensures Contents() == v1.Contents() + v2.Contents() + ContentsOf(v3)
    {
      hide Registry.Linked, Registry.CountedBut;
      var n := v1.length + v2.length;
      if v3 != null {
        n := n + v3.length;
      }
      var ok := StartConcat(v1, n, reg, zero);
      if !ok {
        return;
      }
      hide Max, Add32;
      FillRest(v1, v2, v3);
    }

    /** `m_storage->set(...)` for the vectors after the first. */
    method FillIn(first: nat, v2: SliceVector<T>, v3: SliceVector?<T>, ghost a: seq<T>, ghost b: seq<T>, ghost c: seq<T>)
      requires storage != null && storage.cells.Length < U32
      requires v2.Window() && (v2.storage != null ==> storage.cells != v2.storage.cells)
      requires v3 != null ==> v3.Window() && (v3.storage != null ==> storage.cells != v3.storage.cells)
      requires first == |a| && b == v2.Contents() && c == ContentsOf(v3) && |a| + |b| + |c| == storage.cells.Length
      requires storage.cells[..|a|] == a
      modifies storage.cells
      ensures storage.cells[..] == a + b + c
    {
      hide Overwritten, SliceVector.Window, SliceVector.Empty;
      ghost var m := storage.cells[..];
      assert m[..|a|] == a;
      CopyIn(v2, first);
      if v3 == null {
        Glued(m, a, b, []);
      } else {
        assert c == v3.Contents();
        CopyIn(v3, first + v2.length);
        Glued(m, a, b, c);
      }
    }

    /** The same, told of the vector that is being built. */
    method FillRest(v1: SliceVector<T>, v2: SliceVector<T>, v3: SliceVector?<T>)
      requires Window() && storage != null && start == Some(0)
      requires v1.Window() && (v1.storage != null ==> storage.cells != v1.storage.cells)
      requires v2.Window() && (v2.storage != null ==> storage.cells != v2.storage.cells)
      requires v3 != null ==> v3.Window() && (v3.storage != null ==> storage.cells != v3.storage.cells)
      requires v1.length + v2.length + LengthOf(v3) == length == storage.cells.Length < U32
      requires storage.cells[..v1.length] == v1.Contents()
      modifies storage.cells
      ensures Contents() == v1.Contents() + v2.Contents() + ContentsOf(v3)
    {
      ghost var a, b, c := v1.Contents(), v2.Contents(), ContentsOf(v3);
      FillIn(v1.length, v2, v3, a, b, c);
      SameContents(v1);
      SameContents(v2);
      if v3 != null {
        SameContents(v3);
      }
      assert Contents() == storage.cells[..];
    }

    method StartConcat(v1: SliceVector<T>, n: nat, ghost reg: Registry<T>, zero: T) returns (ok: bool)
      requires reg.Valid() && this in reg.vectors && Empty()
      requires v1 in reg.vectors && this != v1 && v1.length <= n < U32
      modifies this, reg`storages
      ensures reg.Valid()
      ensures if n == 0 then !ok && Empty() else
        && ok && storage != null && fresh(storage) && fresh(storage.cells)
        && storage.cells.Length == n && start == Some(0) && length == n && maxLen == n
      ensures ok ==> storage.cells[..v1.length] == v1.Contents()
    {
      var b1 := v1.DataBuffer();
      ok := InitStorage(v1.length, b1, n, reg, zero);
      if ok {
        ResizeMax(reg);
      }
    }

    // ------------------------------------------------------------------ methods

    /** Fails beyond the window, so a slice cannot grow past what it was cut from. */
    method Resize(len: nat, ghost reg: Registry<T>) returns (ok: bool)
      requires reg.Valid() && this in reg.vectors
      modifies this`length
      ensures reg.Valid()
      ensures ok <==> len <= maxLen
      ensures length == if ok then len else old(length)
    {
      if len <= maxLen {
        length := len;
        return true;
      }
      return false;
    }

    method ResizeMax(ghost reg: Registry<T>)
      requires reg.Valid() && this in reg.vectors
      modifies this`length
      ensures reg.Valid() && length == maxLen
    {
      var _ := Resize(maxLen, reg);
    }

    /** The destructor. */
    method Destroy(ghost reg: Registry<T>)
      requires reg.Valid() && this in reg.vectors
      modifies this, Store(), reg`vectors
      ensures reg.Valid() && reg.vectors == old(reg.vectors) - {this}
      ensures old(storage) != null ==>
        && old(storage).refcount == old(storage.refcount) - 1
        && (old(storage).refcount == 0 <==> forall v <- reg.vectors :: v.storage != old(storage))
      ensures forall v <- reg.vectors :: v.Contents() == old(v.Contents())
    {
      ghost var s := storage;
      var _ := SetData(None, 0, 0, reg);
      reg.vectors := reg.vectors - {this};
      if s != null {
        assert s.refcount == 0 <==> s.holders == {};
        if s.holders != {} {
          var v :| v in s.holders;
          assert v in reg.vectors && v.storage == s;
        }
      }
    }

    /** `resetStorage`. */
    method ResetStorage(len: nat, max: nat, ghost reg: Registry<T>, zero: T)
      requires reg.Valid() && this in reg.vectors && Max(len, max) < U32
      modifies this, Store(), reg`storages
      ensures reg.Valid()
      ensures storage != null ==> fresh(storage) && fresh(storage.cells)
      ensures length == len && maxLen == Max(len, max)
      ensures forall i :: 0 <= i < len ==> Contents()[i] == zero
      ensures reg.storages == old(reg.storages) + Store()
      ensures storage == null <==> Max(len, max) == 0
      ensures storage != null ==> storage.refcount == 1 && storage.holders == {this}
      ensures old(storage) != null ==> old(storage).refcount == old(storage.refcount) - 1
    {
      hide Registry.Linked, Registry.CountedBut;
      var _ := SetData(None, 0, 0, reg);
      var _ := InitStorage(len, None, max, reg, zero);
    }

    /** `setSlice`, which the assignment operator calls with offs and len 0,
        and `slice(dest,offs,len)` with the roles exchanged. */
    method SetSlice(other: SliceVector<T>, offs: nat, len: nat, ghost reg: Registry<T>) returns (ok: bool)
      requires reg.Valid() && this in reg.vectors && other in reg.vectors
      requires offs < U32 && len < U32
      modifies this, Store(), other.Store()
      ensures Known(reg, null)
      ensures var n, m := if len == 0 then old(other.length) else len, old(other.length);
        if n > 0 && m > 0 && Add32(offs, n) <= m then
          && ok && storage == old(other.storage) && length == n && maxLen == n
          && start == Some(old(other.start.value) + offs)
          && (reg.Valid() <==> !Wraps(offs, n, m))
          && (offs + n <= m ==> Window() && Contents() == old(other.Contents())[offs..offs + n])
        else ok == (n == 0) && Empty() && reg.Valid()
      ensures forall v <- reg.vectors :: v != this ==> v.Contents() == old(v.Contents())
    {
      ok := Cut(true, other, offs, len, reg);
    }

    /** `head(len)`: the whole vector for len 0. */
    method Head(len: nat, ghost reg: Registry<T>) returns (r: SliceVector<T>)
      requires reg.Valid() && this in reg.vectors && len < U32
      modifies reg`vectors, Store()
      ensures r.Born(reg, old(reg.vectors)) && fresh(r) && reg.storages == old(reg.storages)
      ensures length == old(length) && storage == old(storage)
      ensures forall v <- old(reg.vectors) :: v.Contents() == old(v.Contents())
      ensures r.Contents() ==
        if len == 0 then Contents() else if len <= length then Contents()[..len] else []
    {
      reg.Member(this);
      r := new SliceVector<T>.Slice(this, 0, len, reg);
    }

    /** `tail(len)` by value: empty for len == length() too. For len 0 it asks
        for length() elements behind the last one: there are none, but from
        half the range on the sum comes around. */
    method Tail(len: nat, ghost reg: Registry<T>) returns (r: SliceVector<T>)
      requires reg.Valid() && this in reg.vectors && len < U32
      modifies reg`vectors, Store()
      ensures r.Entered(reg, old(reg.vectors)) && fresh(r) && reg.storages == old(reg.storages)
      ensures length == old(length) && storage == old(storage)
      ensures forall v <- old(reg.vectors) :: v.Contents() == old(v.Contents())
      ensures reg.Valid() <==> len > 0 || 2 * length < U32
      ensures reg.Valid() ==> r.Window() && r.Contents() == if 0 < len < length then Contents()[length - len..] else []
    {
      hide Registry.Linked, Registry.CountedBut, Wraps, Add32;
      reg.Member(this);
      reg.Placed(this);
      if len < length {
        TailSum(length, len);
        r := new SliceVector<T>.Slice(this, length - len, len, reg);
      } else {
        r := new SliceVector<T>.Nothing(reg);
      }
    }

    /** `tail(dest,len)`: takes len == length() as well. */
    method TailInto(dest: SliceVector<T>, len: nat, ghost reg: Registry<T>) returns (ok: bool)
      requires reg.Valid() && this in reg.vectors && dest in reg.vectors && len < U32
      modifies dest, dest.Store(), Store()
      ensures dest.Known(reg, null)
      ensures reg.Valid() <==> len > 0 || 2 * old(length) < U32
      ensures reg.Valid() ==> (ok <==> len <= old(length) && (len > 0 || old(length) == 0))
      ensures reg.Valid() ==>
        dest.Window() && dest.Contents() == if 0 < len <= old(length) then old(Contents())[old(length) - len..] else []
    {
      hide Registry.Linked, Registry.CountedBut;
      reg.Member(this);
      reg.Placed(this);
      if len <= length {
        ok := dest.InitSlice(true, this, length - len, len, reg);
        return;
      }
      var _ := dest.SetData(None, 0, 0, reg);
      return false;
    }

    /** `steal`: takes what other has and leaves other empty; what this vector
        held is forgotten, not released. The counts stay right exactly when it
        held nothing. */
    method Steal(other: SliceVector<T>, ghost reg: Registry<T>)
      requires reg.Valid() && this in reg.vectors && other in reg.vectors
      modifies this, other, Store(), other.Store()
      ensures reg.Linked() && reg.Windowed()
      ensures reg.Counted() <==> old(storage) == null
      ensures other.Empty()
      ensures other != this ==>
        && storage == old(other.storage) && start == old(other.start)
        && length == old(other.length) && maxLen == old(other.maxLen)
      ensures old(storage) != null ==>
        old(storage).refcount == |old(storage).holders| + 1
    {
      ghost var s := storage;
      reg.Member(other);
      TakeFields(other, reg);
      assert reg.Windowed();
      other.LoseFields(s, reg);
      if s != null {
        assert s in reg.storages && s.refcount == |s.holders| + 1;
      }
    }

    /** The first half of `steal`: two vectors with one reference. */
    method TakeFields(other: SliceVector<T>, ghost reg: Registry<T>)
      requires reg.Linked() && reg.Counted() && this in reg.vectors && other in reg.vectors
      modifies this, Store(), other.Store()
      ensures reg.Linked() && reg.CountedWith(old(storage), other.storage)
      ensures storage == old(other.storage) && start == old(other.start)
      ensures length == old(other.length) && maxLen == old(other.maxLen)
      ensures other != this ==> other.storage == old(other.storage) && other.start == old(other.start)
      ensures other != this ==> other.length == old(other.length) && other.maxLen == old(other.maxLen)
    {
      ghost var s, t := storage, other.storage;
      assert s != null ==> this in s.holders;
      assert t != null ==> other in t.holders;
      storage := other.storage;
      start := other.start;
      length := other.length;
      maxLen := other.maxLen;
      if s != t {
        Rehold(s, t, reg);
      }
    }

    /** The holders follow the pointer. */
    ghost method Rehold(s: RefStorage?<T>, t: RefStorage?<T>, reg: Registry<T>)
      requires s != t && storage == t && this in reg.vectors && reg.Counted()
      requires s != null ==> s in reg.storages && this in s.holders
      requires t != null ==> t in reg.storages && this !in t.holders
      requires forall v <- reg.vectors :: v != this && v.storage != null ==> v.storage in reg.storages && v in v.storage.holders
      requires forall u <- reg.storages, v <- u.holders :: v in reg.vectors && (v != this ==> v.storage == u)
      requires forall u <- reg.storages :: u != s ==> this !in u.holders
      requires forall u <- reg.storages :: u.cells.Length < U32
      requires forall u <- reg.storages, w <- reg.storages :: u != w ==> u.cells != w.cells
      modifies if s == null then {} else {s}, if t == null then {} else {t}
      ensures reg.Linked() && reg.CountedWith(s, t) && storage == t
    {
      if s != null {
        s.holders := s.holders - {this};
      }
      if t != null {
        t.holders := t.holders + {this};
      }
    }

    /** The second half of `steal`, on the vector stolen from. */
    method LoseFields(ghost spare: RefStorage?<T>, ghost reg: Registry<T>)
      requires this in reg.vectors && reg.Linked() && reg.Windowed() && reg.CountedWith(spare, storage)
      modifies this, Store()
      ensures reg.Linked() && reg.Windowed() && reg.CountedWith(spare, null) && Empty()
    {
      assert storage != null ==> this in storage.holders;
      if storage != null {
        storage.holders := storage.holders - {this};
      }
      storage := null;
      start := None;
      length, maxLen := 0, 0;
    }

    /** `copy(src,len,offs,srcOffs)`, for ranges that are the same or do not overlap. */
    method Copy(src: SliceVector<T>, len: nat, offs: nat, srcOffs: nat, ghost reg: Registry<T>) returns (ok: bool)
      requires reg.Valid() && this in reg.vectors && src in reg.vectors
      requires offs < U32 && srcOffs < U32 && len < U32
      requires !Wraps(offs, len, length) && !Wraps(srcOffs, len, src.length)
      requires storage != null && storage == src.storage && offs + len <= length && srcOffs + len <= src.length ==>
        var p, q := start.value + offs, src.start.value + srcOffs;
        p == q || p + len <= q || q + len <= p
      modifies Memory()
      ensures ok <==> len == 0 || (offs + len <= length && srcOffs + len <= src.length)
      ensures ok && len > 0 ==> Contents() == Overwritten(old(Contents()), offs, old(src.Contents())[srcOffs..srcOffs + len])
      ensures len == 0 ==> Contents() == old(Contents())
      ensures !ok ==> Contents() == old(Contents())
      ensures storage != null ==> SameOutside(old(storage.cells[..]), storage.cells[..], start.value, length)
    {
      hide Registry.Linked, Registry.CountedBut, Registry.Windowed, Overwritten, SliceVector.Window, SliceVector.Empty,
        SameOutside, Add32, Wraps;
      reg.Member(this);
      reg.Member(src);
      reg.Placed(this);
      reg.Placed(src);
      reg.OwnMemory(this, src);
      var d := Data(offs, len);
      var s := src.Data(srcOffs, len);
      if len > 0 && length > 0 {
        RangeCheckExactly(length, offs, len);
      }
      if len > 0 && src.length > 0 {
        RangeCheckExactly(src.length, srcOffs, len);
      }
      if len == 0 || d.None? || s.None? {
        if storage != null {
          NothingOutside(storage.cells[..], start.value, length);
        }
        return len == 0;
      }
      CopyAvailable(src, len, offs, srcOffs);
      return true;
    }

    /** The copy itself, for ranges that both vectors have. */
    method CopyAvailable(src: SliceVector<T>, len: nat, offs: nat, srcOffs: nat)
      requires Window() && src.Window() && storage != null && src.storage != null
      requires offs + len <= length && srcOffs + len <= src.length
      requires storage.cells == src.storage.cells ==>
        var p, q := start.value + offs, src.start.value + srcOffs;
        p == q || p + len <= q || q + len <= p
      modifies Memory()
      ensures Contents() == Overwritten(old(Contents()), offs, old(src.Contents())[srcOffs..srcOffs + len])
      ensures SameOutside(old(storage.cells[..]), storage.cells[..], start.value, length)
    {
      hide Overwritten, SameOutside;
      CopyRange(storage.cells, start.value, length, offs, src.storage.cells, src.start.value, src.length, srcOffs, len);
    }

    /** `sum(other)`, `sub(other)` and `mul(other)`: one loop with op for the
        assignment operator in it. Where other starts earlier in the same
        storage, results are read back. */
    method Combine(other: SliceVector<T>, op: (T, T) -> T, ghost reg: Registry<T>) returns (ok: bool)
      requires reg.Valid() && this in reg.vectors && other in reg.vectors
      modifies Memory()
      ensures ok <==> length == other.length
      ensures !ok ==> Contents() == old(Contents())
      ensures ok ==> Contents() == Chain(old(Contents()), old(other.Contents()), Behind(other), op, length)
      ensures storage != null ==> SameOutside(old(storage.cells[..]), storage.cells[..], start.value, length)
    {
      hide Registry.Linked, Registry.CountedBut, Registry.Windowed, Chain;
      reg.Member(this);
      reg.Member(other);
      reg.OwnMemory(this, other);
      if length != other.length {
        return false;
      }
      if length > 0 {
        ChainIgnoresFarLag(Contents(), other.Contents(), Behind(other),
          Lag(storage.cells, start.value, other.storage.cells, other.start.value, length), op, length);
        CombineWindows(storage.cells, start.value, other.storage.cells, other.start.value, length, op);
      }
      return true;
    }

    /** How many cells before this window the other one starts, if it matters. */
    ghost function Behind(other: SliceVector<T>): (k: nat)
      requires Window() && other.Window()
      reads this, other
      ensures 0 < k
    {
      if storage != null && storage == other.storage && other.start.value < start.value
      then start.value - other.start.value
      else length + 1
    }

    /** `fill(value)`. */
    method Fill(value: T, ghost reg: Registry<T>)
      requires reg.Valid() && this in reg.vectors
      modifies Memory()
      ensures forall i :: 0 <= i < length ==> Contents()[i] == value
      ensures storage != null ==> SameOutside(old(storage.cells[..]), storage.cells[..], start.value, length)
    {
      if length > 0 {
        MapWindow(storage.cells, start.value, length, _ => value);
      }
    }

    /** `sum()`: the elements added up, from the left. */
    method Sum(op: (T, T) -> T, zero: T, ghost reg: Registry<T>) returns (r: T)
      requires reg.Valid() && this in reg.vectors
      ensures r == Fold(op, zero, Contents())
    {
      if length == 0 {
        return zero;
      }
      r := FoldWindow(storage.cells, start.value, length, op, zero);
    }
  }

  /** RefStorage::copy from a range of one window to a range of another. */
  method CopyRange<T>(x: array<T>, p: nat, length: nat, offs: nat, y: array<T>, q: nat, srcLength: nat, srcOffs: nat, len: nat)
    requires p + length <= x.Length && q + srcLength <= y.Length
    requires offs + len <= length && srcOffs + len <= srcLength
    requires x == y ==> p + offs == q + srcOffs || p + offs + len <= q + srcOffs || q + srcOffs + len <= p + offs
    modifies x
    ensures x[p..p + length] == Overwritten(old(x[p..p + length]), offs, old(y[q..q + srcLength])[srcOffs..srcOffs + len])
    ensures SameOutside(old(x[..]), x[..], p, length)
  {
    hide Overwritten;
    ghost var was, other := x[..], y[..];
    ghost var w, o := was[p..p + length], other[q..q + srcLength];
    assert w == x[p..p + length] && o == y[q..q + srcLength];
    SliceOfSlice(other, q, srcLength, srcOffs, len);
    assert other[q + srcOffs..q + srcOffs + len] == y[q + srcOffs..q + srcOffs + len];
    CopyWindow(x, p + offs, y, q + srcOffs, len);
    ghost var now := x[..];
    WindowOverwritten(was, now, p, length, offs, o[srcOffs..srcOffs + len]);
    assert now[p..p + length] == x[p..p + length];
  }

  // ------------------------------------------------------------ what follows

  /** The reference count of a storage is the number of live vectors that
      point at it; so it is released exactly when the last of them lets go,
      and none of them holds a released one. */
  lemma CountIsNumberOfHolders<T>(reg: Registry<T>, s: RefStorage<T>)
    requires reg.Valid() && s in reg.storages
    ensures s.refcount == |set v | v in reg.vectors && v.storage == s|
    ensures s.refcount == 0 <==> forall v <- reg.vectors :: v.storage != s
    ensures forall v <- reg.vectors :: v.storage != null ==> v.storage.refcount > 0
  {
    assert s.holders == set v | v in reg.vectors && v.storage == s;
    if s.refcount == 0 {
      assert s.holders == {};
    } else {
      var v :| v in s.holders;
      assert v in reg.vectors && v.storage == s;
    }
    forall v | v in reg.vectors && v.storage != null
      ensures v.storage.refcount > 0
    {
      assert v in v.storage.holders;
    }
  }

  /** What `data(offs,len)` promises holds of every argument but those for
      which the sum wraps around into the window again. */
  lemma RangeCheckExactly(length: nat, offs: nat, len: nat)
    requires 0 < length < U32 && offs < U32 && 0 < len < U32
    ensures (Add32(offs, len) <= length <==> offs + len <= length) <==> !Wraps(offs, len, length)
  {
  }

  /** Where the range check passes, the new window lies inside the storage, or the sum came around. */
  lemma InsideOrAround(offs: nat, n: nat, length: nat, start: nat, maxLen: nat, cells: nat)
    requires 0 < n < U32 && offs < U32 && length <= maxLen && start + maxLen <= cells < U32
    requires Add32(offs, n) <= length
    ensures start + offs + n <= cells <==> !Wraps(offs, n, length)
  {
  }

  lemma NotAround(offs: nat, len: nat, length: nat)
    requires offs + len <= length < U32
    ensures !Wraps(offs, len, length)
  {
  }

  lemma RestSum(length: nat, offs: nat)
    requires length < U32 && offs < U32
    ensures length > 0 ==> (Add32(offs, length) <= length <==> offs == 0 || Wraps(offs, length, length))
    ensures offs == 0 || length == 0 ==> !Wraps(offs, length, length)
  {
  }

  lemma TailSum(length: nat, len: nat)
    requires len < length < U32
    ensures len > 0 ==> Add32(length - len, len) == length && !Wraps(length - len, len, length)
    ensures len == 0 ==> (Wraps(length, length, length) <==> U32 <= 2 * length)
    ensures len == 0 ==> (Add32(length, length) <= length <==> U32 <= 2 * length)
  {
  }

  /** For 0 < n < length: head and tail, put together, are the vector again, in new memory. */
  method HeadTailConcat<T>(v: SliceVector<T>, n: nat, ghost reg: Registry<T>, zero: T) returns (w: SliceVector<T>)
    requires reg.Valid() && v in reg.vectors && 0 < n < v.length
    modifies reg, v.Store()
    ensures reg.Valid() && w in reg.vectors
    ensures w.Contents() == old(v.Contents())
    ensures w.storage != null && fresh(w.storage) && fresh(w.storage.cells)
  {
    hide Registry.Linked, Registry.CountedBut, SliceVector.Contents;
    reg.Member(v);
    ghost var s := v.Contents();
    var head := v.Head(n, reg);
    reg.Member(v);
    reg.Member(head);
    var tail := v.Tail(v.length - n, reg);
    reg.Member(head);
    reg.Member(tail);
    assert head.Contents() == s[..n] && tail.Contents() == s[n..];
    assert s[..n] + s[n..] == s;
    w := new SliceVector<T>.Concat(head, tail, reg, zero);
    reg.Member(w);
  }

  /** Asking for 0 elements from an offset on is documented to take all that
      are left. It gives them, in a vector inside the storage, exactly when the
      offset is 0, or when there are none left and the sum of offset and length
      does not come around. */
  method SliceRest<T>(v: SliceVector<T>, offs: nat, ghost reg: Registry<T>) returns (w: SliceVector<T>)
    requires reg.Valid() && v in reg.vectors && offs < U32
    modifies reg, v.Store()
    ensures w.Entered(reg, old(reg.vectors)) && v.Window() && v.Contents() == old(v.Contents())
    ensures w.Window() && w.Contents() == (if offs <= v.length then v.Contents()[offs..] else [])
      <==> offs == 0 || (v.length <= offs && !Wraps(offs, v.length, v.length))
  {
    hide Registry.Linked, Registry.CountedBut, Add32, Wraps;
    reg.Member(v);
    reg.Placed(v);
    RestSum(v.length, offs);
    ghost var all := v.Contents();
    w := new SliceVector<T>.Slice(v, offs, 0, reg);
    assert v.Contents() == all && all[0..] == all && all[0..v.length] == all;
  }

  /** The three-way constructor agrees with nesting the two-way one, for all
      arguments, empty and aliased ones included. */
  method ConcatAgrees<T>(v1: SliceVector<T>, v2: SliceVector<T>, v3: SliceVector<T>, ghost reg: Registry<T>, zero: T)
    returns (flat: SliceVector<T>, nested: SliceVector<T>)
    requires reg.Valid() && v1 in reg.vectors && v2 in reg.vectors && v3 in reg.vectors
    requires v1.length + v2.length + v3.length < U32
    modifies reg
    ensures reg.Valid() && flat in reg.vectors && nested in reg.vectors
    ensures flat.Contents() == nested.Contents() == old(v1.Contents() + v2.Contents() + v3.Contents())
    ensures flat.storage != null ==> flat.storage != nested.storage
  {
    hide Registry.Linked, Registry.CountedBut, SliceVector.Contents;
    reg.Member(v1);
    reg.Member(v2);
    reg.Member(v3);
    ghost var s := v1.Contents() + v2.Contents() + v3.Contents();
    flat := new SliceVector<T>.Concat3(v1, v2, v3, reg, zero);
    reg.Member(flat);
    assert flat.Contents() == s;
    nested := NestedConcat(v1, v2, v3, reg, zero);
    reg.Member(nested);
  }

  method NestedConcat<T>(v1: SliceVector<T>, v2: SliceVector<T>, v3: SliceVector<T>, ghost reg: Registry<T>, zero: T)
    returns (nested: SliceVector<T>)
    requires reg.Valid() && v1 in reg.vectors && v2 in reg.vectors && v3 in reg.vectors
    requires v1.length + v2.length + v3.length < U32
    modifies reg
    ensures reg.Valid() && old(reg.vectors) <= reg.vectors && nested in reg.vectors && fresh(nested)
    ensures nested.storage != null ==> fresh(nested.storage)
    ensures nested.Contents() == old(v1.Contents() + v2.Contents() + v3.Contents())
    ensures forall v <- old(reg.vectors) :: v.Contents() == old(v.Contents())
  {
    hide Registry.Linked, Registry.CountedBut, SliceVector.Contents;
    reg.Member(v1);
    reg.Member(v2);
    reg.Member(v3);
    ghost var c := v3.Contents();
    var pair := new SliceVector<T>.Concat(v1, v2, reg, zero);
    reg.Member(pair);
    assert v3.Contents() == c;
    nested := new SliceVector<T>.Concat(pair, v3, reg, zero);
    reg.Member(nested);
  }

  /** A window of memory in which some cells were written over. */
  lemma WindowOverwritten<T>(was: seq<T>, now: seq<T>, p: nat, len: nat, offs: nat, s: seq<T>)
    requires |now| == |was| && p + len <= |was| && offs + |s| <= len
    requires now[p + offs..p + offs + |s|] == s
    requires forall i :: 0 <= i < |was| && !(p + offs <= i < p + offs + |s|) ==> now[i] == was[i]
    ensures now[p..p + len] == Overwritten(was[p..p + len], offs, s)
  {
    var a, b := now[p..p + len], was[p..p + len];
    assert forall i :: 0 <= i < len ==> a[i] == now[p + i] && b[i] == was[p + i];
    assert a[offs..offs + |s|] == s by { SliceOfSlice(now, p, len, offs, |s|); }
    assert a == a[..offs] + a[offs..offs + |s|] + a[offs + |s|..];
    assert a[..offs] == b[..offs] && a[offs + |s|..] == b[offs + |s|..];
  }

  lemma SliceOfSlice<T>(s: seq<T>, p: nat, len: nat, offs: nat, n: nat)
    requires p + len <= |s| && offs + n <= len
    ensures s[p + offs..p + offs + n] == s[p..p + len][offs..offs + n]
  {
    var w := s[p..p + len];
    assert forall i :: 0 <= i < len ==> w[i] == s[p + i];
    var u := w[offs..offs + n];
    assert forall i :: 0 <= i < n ==> u[i] == w[offs + i];
  }

  /** Two states of a memory that differ at most inside a window. */
  ghost predicate SameOutside<T>(was: seq<T>, now: seq<T>, p: nat, n: nat) {
    |now| == |was| && forall i :: 0 <= i < |was| && !(p <= i < p + n) ==> now[i] == was[i]
  }

  lemma NothingOutside<T>(m: seq<T>, p: nat, n: nat)
    ensures SameOutside(m, m, p, n)
  {
  }

  /** Memory with a text written over it from `at` on. */
  ghost function Overwritten<T>(m: seq<T>, at: nat, s: seq<T>): (r: seq<T>)
    requires at + |s| <= |m|
    ensures |r| == |m|
  {
    m[..at] + s + m[at + |s|..]
  }

  /** Parts that are written one behind the other make up their concatenation. */
  lemma Glued<T>(m: seq<T>, a: seq<T>, b: seq<T>, c: seq<T>)
    requires |m| == |a| + |b| + |c| && m[..|a|] == a
    ensures Overwritten(Overwritten(m, |a|, b), |a| + |b|, c) == a + b + c
    ensures c == [] ==> Overwritten(m, |a|, b) == a + b + c
  {
    var m1 := Overwritten(m, |a|, b);
    assert m1 == a + b + m[|a| + |b|..];
    assert m1[..|a| + |b|] == a + b;
  }
}
