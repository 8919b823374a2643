/**
 * The iterator of the LSM-tree library, which is not part of this model, as
 * an assumed contract. An iterator is a cursor over a snapshot of the keys
 * of its range, in ascending order. A fresh iterator sits before the first
 * key; `Next` from there goes to the first key and `Prev` from there stays
 * put and reports false. Stepping past the last key leaves it after the
 * last key, from where `Next` reports false and `Prev` goes to the last key.
 * `Seek` moves to the first key at or above its target, and `Last` to the
 * last key (before the first when the range is empty).
 */
module LevelIterator {
  import opened ByteOrder

  datatype Position = BeforeFirst | At(index: nat) | AfterLast

  /** A position that names a key only if there is one. */
  predicate InRange(c: Position, n: nat) {
    c.At? ==> c.index < n
  }

  function NextPos(c: Position, n: nat): (r: Position)
    requires InRange(c, n)
    ensures InRange(r, n)
  {
    match c
    case BeforeFirst => if n > 0 then At(0) else AfterLast
    case At(i) => if i + 1 < n then At(i + 1) else AfterLast
    case AfterLast => AfterLast
  }

  function PrevPos(c: Position, n: nat): (r: Position)
    requires InRange(c, n)
    ensures InRange(r, n)
  {
    match c
    case BeforeFirst => BeforeFirst
    case At(i) => if i > 0 then At(i - 1) else BeforeFirst
    case AfterLast => LastPos(n)
  }

  function LastPos(n: nat): (r: Position)
    ensures InRange(r, n)
  {
    if n > 0 then At(n - 1) else BeforeFirst
  }

  function SeekPos(keys: seq<Bytes>, target: Bytes): (r: Position)
    ensures InRange(r, |keys|)
  {
    var j := LowerBound(keys, target);
    if j < |keys| then At(j) else AfterLast
  }

  /** An iterator over a snapshot of the store restricted to one range. */
  class Iterator {
    const snapshot: map<Bytes, Bytes>
    const keys: seq<Bytes>
    var pos: Position

    ghost predicate Valid()
      reads this
    {
      (forall k :: k in keys ==> k in snapshot) && InRange(pos, |keys|)
    }

    constructor (snapshot: map<Bytes, Bytes>, keys: seq<Bytes>)
      requires forall k :: k in keys ==> k in snapshot
      ensures Valid()
      ensures this.snapshot == snapshot && this.keys == keys && pos == BeforeFirst
    {
      this.snapshot := snapshot;
      this.keys := keys;
      pos := BeforeFirst;
    }

    method Next() returns (ok: bool)
      requires Valid()
      modifies this
      ensures Valid() && pos == NextPos(old(pos), |keys|) && ok == pos.At?
    {
      pos := NextPos(pos, |keys|);
      ok := pos.At?;
    }

    method Prev() returns (ok: bool)
      requires Valid()
      modifies this
      ensures Valid() && pos == PrevPos(old(pos), |keys|) && ok == pos.At?
    {
      pos := PrevPos(pos, |keys|);
      ok := pos.At?;
    }

    method Seek(target: Bytes) returns (ok: bool)
      requires Valid()
      modifies this
      ensures Valid() && pos == SeekPos(keys, target) && ok == pos.At?
    {
      pos := SeekPos(keys, target);
      ok := pos.At?;
    }

    method Last() returns (ok: bool)
      requires Valid()
      modifies this
      ensures Valid() && pos == LastPos(|keys|) && ok == pos.At?
    {
      pos := LastPos(|keys|);
      ok := pos.At?;
    }

    /** The iterator sits on a key. */
    predicate Positioned()
      reads this
    {
      pos.At?
    }

    function Key(): (k: Bytes)
      reads this
      requires Valid() && pos.At?
      ensures k in keys && k in snapshot
    {
      keys[pos.index]
    }

    function Value(): (v: Bytes)
      reads this
      requires Valid() && pos.At?
      ensures v == snapshot[Key()]
    {
      snapshot[keys[pos.index]]
    }
  }
}
