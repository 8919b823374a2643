/**
 * The LSM-tree backend driver: point operations on an ordered byte-keyed
 * map, and the scan, which positions a library iterator from the scan
 * options and then offers records to the caller's filter one at a time.
 *
 * The scan is modelled as written: its loop advances the cursor before
 * every filter call, so the key the cursor sits on after `Seek` or `Last`
 * is never itself offered. `ScanTrace` is the operational specification
 * (the cursor walk), `CandidateKeys` a declarative one (which slice of the
 * sorted range is walked), and `ScanIsFilterRun` proves they agree.
 */
module LevelDB {
  import opened Wrappers
  import opened ByteOrder
  import opened StorageDriver
  import opened LevelIterator

  // ---------------------------------------------------------------------
  // The range a scan iterates over
  // ---------------------------------------------------------------------

  /** Keys of `db` inside the iterator's range: all of them, or those with the prefix. */
  function RangeKeys(db: map<Bytes, Bytes>, prefix: Option<Bytes>): (r: set<Bytes>)
    ensures forall k :: k in r <==> k in db && (prefix.Some? ==> StartsWith(k, prefix.value))
  {
    set k | k in db && (prefix.None? || StartsWith(k, prefix.value))
  }

  /** The iterator's snapshot of its range, in ascending key order. */
  function RangeOf(db: map<Bytes, Bytes>, prefix: Option<Bytes>): (r: seq<Bytes>)
    ensures Ascending(r)
    ensures forall k :: k in r <==> k in db && (prefix.Some? ==> StartsWith(k, prefix.value))
  {
    SortedKeys(RangeKeys(db, prefix))
  }

  /** The records of `db` under `ks`, in the order of `ks`. */
  function Entries(db: map<Bytes, Bytes>, ks: seq<Bytes>): (r: seq<KeyValue>)
    requires forall k :: k in ks ==> k in db
    ensures |r| == |ks|
    ensures forall i :: 0 <= i < |ks| ==> r[i] == KeyValue(ks[i], db[ks[i]])
  {
    if ks == [] then [] else [KeyValue(ks[0], db[ks[0]])] + Entries(db, ks[1..])
  }

  // ---------------------------------------------------------------------
  // Operational specification: the cursor walk of the scan
  // ---------------------------------------------------------------------

  /** The scan's `next`: `Prev` for a reverse scan, `Next` otherwise. */
  function Step(c: Position, n: nat, reverse: bool): (r: Position)
    requires InRange(c, n)
    ensures InRange(r, n)
  {
    if reverse then PrevPos(c, n) else NextPos(c, n)
  }

  /**
   * Where the cursor is when the loop starts: the positioning of the scan.
   * `j` is the index `Seek` lands on, the first key not below the offset.
   */
  function StartPos(keys: seq<Bytes>, opts: ScanOpts): (c: Position)
    ensures InRange(c, |keys|)
    ensures opts.offset.None? && !(opts.reverseScan && opts.prefix.None?) ==> c == BeforeFirst
    ensures opts.offset.None? && opts.reverseScan && opts.prefix.None? ==>
              if |keys| == 0 then c == BeforeFirst else c == At(|keys| - 1)
    ensures opts.offset.Some? && opts.includeOffset ==>
              var j := LowerBound(keys, opts.offset.value);
              if j < |keys| then c == At(j) else c == AfterLast
    ensures opts.offset.Some? && !opts.includeOffset && !opts.reverseScan ==>
              var j := LowerBound(keys, opts.offset.value);
              if j + 1 < |keys| then c == At(j + 1) else c == AfterLast
    ensures opts.offset.Some? && !opts.includeOffset && opts.reverseScan ==>
              var j := LowerBound(keys, opts.offset.value);
              if j == 0 then c == BeforeFirst else c == At(j - 1)
  {
    var n := |keys|;
    var sought := if opts.offset.Some? then SeekPos(keys, opts.offset.value) else BeforeFirst;
    var placed := if opts.reverseScan && opts.offset.None? && opts.prefix.None? then LastPos(n) else sought;
    if opts.offset.Some? && !opts.includeOffset then Step(placed, n, opts.reverseScan) else placed
  }

  /** Steps left before the cursor runs off the end it is moving towards. */
  function Rank(c: Position, n: nat, reverse: bool): nat
    requires InRange(c, n)
  {
    var ord := match c
      case BeforeFirst => 0
      case At(i) => i + 1
      case AfterLast => n + 1;
    if reverse then ord else n + 1 - ord
  }

  /**
   * What the loop offers to the filter once the cursor has just been moved
   * to `c`: nothing if `c` names no key; otherwise that record, and, if the
   * filter accepts it, whatever is offered after the next step.
   */
  function Offered(db: map<Bytes, Bytes>, keys: seq<Bytes>, f: (Bytes, Bytes) -> bool,
                   reverse: bool, c: Position): (r: seq<KeyValue>)
    requires forall k :: k in keys ==> k in db
    requires InRange(c, |keys|)
    ensures c.At? ==> |r| <= Rank(c, |keys|, reverse)
    ensures !c.At? ==> r == []
    ensures forall kv :: kv in r ==> kv.key in keys && kv.key in db && kv.value == db[kv.key]
    decreases Rank(c, |keys|, reverse)
  {
    if c.At? then
      var k := keys[c.index];
      [KeyValue(k, db[k])] + (if f(k, db[k]) then Offered(db, keys, f, reverse, Step(c, |keys|, reverse)) else [])
    else []
  }

  /** One turn of the scan loop: the record under the cursor, then the rest if the filter accepts it. */
  lemma OfferedStep(db: map<Bytes, Bytes>, keys: seq<Bytes>, f: (Bytes, Bytes) -> bool,
                    reverse: bool, c: Position, before: seq<KeyValue>)
    requires forall k :: k in keys ==> k in db
    requires InRange(c, |keys|) && c.At?
    ensures var kv := KeyValue(keys[c.index], db[keys[c.index]]);
            before + Offered(db, keys, f, reverse, c) ==
            (before + [kv]) + (if f(kv.key, kv.value) then Offered(db, keys, f, reverse, Step(c, |keys|, reverse)) else [])
  {
  }

  /** The records a scan of `db` with `opts` offers to its filter, in order. */
  function ScanTrace(db: map<Bytes, Bytes>, opts: ScanOpts): (r: seq<KeyValue>)
    ensures opts.filter.None? ==> r == []
    ensures |r| <= |RangeOf(db, opts.prefix)|
    ensures forall kv :: kv in r ==> kv.key in db && kv.value == db[kv.key]
    ensures forall kv :: kv in r && opts.prefix.Some? ==> StartsWith(kv.key, opts.prefix.value)
  {
    if opts.filter.None? then []
    else
      var keys := RangeOf(db, opts.prefix);
      Offered(db, keys, opts.filter.value, opts.reverseScan, Step(StartPos(keys, opts), |keys|, opts.reverseScan))
  }

  // ---------------------------------------------------------------------
  // Declarative specification: which slice of the range is walked
  // ---------------------------------------------------------------------

  function Reverse(s: seq<Bytes>): (r: seq<Bytes>)
    ensures |r| == |s|
    ensures forall i :: 0 <= i < |s| ==> r[i] == s[|s| - 1 - i]
  {
    if s == [] then [] else [s[|s| - 1]] + Reverse(s[..|s| - 1])
  }

  /** The records offered until the filter first answers false (that one included). */
  function FilterRun(f: (Bytes, Bytes) -> bool, kvs: seq<KeyValue>): seq<KeyValue>
  {
    if kvs == [] then []
    else [kvs[0]] + (if f(kvs[0].key, kvs[0].value) then FilterRun(f, kvs[1..]) else [])
  }

  /**
   * The keys of the ascending range `keys` that the scan walks through, in
   * order, when the filter never stops it. With `j` the index `Seek` lands
   * on: a forward scan starts one after `j`, or two after when the offset is
   * excluded; a reverse scan with an offset walks down from just below `j`,
   * or from one lower when the offset is excluded; a reverse scan without an
   * offset starts below the last key, and walks nothing at all when a prefix
   * is set (the cursor was never placed).
   */
  function CandidateKeys(keys: seq<Bytes>, opts: ScanOpts): seq<Bytes>
  {
    var n := |keys|;
    if !opts.reverseScan then
      if opts.offset.None? then keys
      else
        var from := LowerBound(keys, opts.offset.value) + (if opts.includeOffset then 1 else 2);
        if from <= n then keys[from..] else []
    else if opts.offset.None? then
      if opts.prefix.None? && n > 0 then Reverse(keys[..n - 1]) else []
    else
      var j := LowerBound(keys, opts.offset.value);
      var upto := if opts.includeOffset then j else j - 1;
      if upto >= 0 then Reverse(keys[..upto]) else []
  }

  /** The keys the walk passes from `c` on, whatever the filter says. */
  function Ahead(keys: seq<Bytes>, c: Position, reverse: bool): seq<Bytes>
    requires InRange(c, |keys|)
  {
    if !c.At? then []
    else if reverse then Reverse(keys[..c.index + 1])
    else keys[c.index..]
  }

  lemma {:induction false} OfferedIsFilterRun(db: map<Bytes, Bytes>, keys: seq<Bytes>, f: (Bytes, Bytes) -> bool,
                                              reverse: bool, c: Position)
    requires forall k :: k in keys ==> k in db
    requires InRange(c, |keys|)
    ensures Offered(db, keys, f, reverse, c) == FilterRun(f, Entries(db, Ahead(keys, c, reverse)))
    decreases Rank(c, |keys|, reverse)
  {
    if c.At? {
      var i, n := c.index, |keys|;
      var next := Step(c, n, reverse);
      var ahead := Ahead(keys, c, reverse);
      var es := Entries(db, ahead);
      OfferedIsFilterRun(db, keys, f, reverse, next);
      assert ahead[0] == keys[i];
      assert ahead[1..] == Ahead(keys, next, reverse) by {
        if reverse {
          assert keys[..i + 1][..i] == keys[..i];
        } else if i + 1 == n {
          assert ahead[1..] == [];
        }
      }
      assert es[1..] == Entries(db, ahead[1..]);
    }
  }

  lemma CandidatesAreAhead(keys: seq<Bytes>, opts: ScanOpts)
    ensures CandidateKeys(keys, opts) == Ahead(keys, Step(StartPos(keys, opts), |keys|, opts.reverseScan), opts.reverseScan)
  {
    var n := |keys|;
    if opts.reverseScan && opts.offset.Some? {
      var j := LowerBound(keys, opts.offset.value);
      if j == n {
        assert keys[..n] == keys;
      }
    }
  }

  /** The cursor walk and the declarative slice agree: the trace is the slice, cut after the first refusal. */
  lemma ScanIsFilterRun(db: map<Bytes, Bytes>, opts: ScanOpts)
    requires opts.filter.Some?
    ensures ScanTrace(db, opts) ==
            FilterRun(opts.filter.value, Entries(db, CandidateKeys(RangeOf(db, opts.prefix), opts)))
  {
    var keys := RangeOf(db, opts.prefix);
    CandidatesAreAhead(keys, opts);
    OfferedIsFilterRun(db, keys, opts.filter.value, opts.reverseScan,
                       Step(StartPos(keys, opts), |keys|, opts.reverseScan));
  }

  // ---------------------------------------------------------------------
  // Properties of the declarative specification
  // ---------------------------------------------------------------------

  /**
   * A filter run is a prefix of what it is offered; every record but the
   * last was accepted; it ends early only on a refusal, so it is the whole
   * input when the filter accepted every record of it.
   */
  lemma {:induction false} FilterRunStopsOnRefusal(f: (Bytes, Bytes) -> bool, kvs: seq<KeyValue>)
    ensures |FilterRun(f, kvs)| <= |kvs|
    ensures FilterRun(f, kvs) == kvs[..|FilterRun(f, kvs)|]
    ensures kvs != [] ==> FilterRun(f, kvs) != []
    ensures forall i :: 0 <= i < |FilterRun(f, kvs)| - 1 ==> f(kvs[i].key, kvs[i].value)
    ensures |FilterRun(f, kvs)| < |kvs| ==>
              var last := kvs[|FilterRun(f, kvs)| - 1]; !f(last.key, last.value)
    ensures var r := FilterRun(f, kvs);
            (forall i :: 0 <= i < |r| ==> f(r[i].key, r[i].value)) ==> r == kvs
  {
    if kvs != [] && f(kvs[0].key, kvs[0].value) {
      FilterRunStopsOnRefusal(f, kvs[1..]);
      assert kvs == [kvs[0]] + kvs[1..];
    }
  }

  lemma SuffixAscending(keys: seq<Bytes>, from: nat)
    requires Ascending(keys) && from <= |keys|
    ensures Ascending(keys[from..])
    ensures forall k :: k in keys[from..] ==> k in keys
  {
    forall k | k in keys[from..] ensures k in keys {
      var i :| 0 <= i < |keys| - from && keys[from..][i] == k;
      assert keys[from + i] == k;
    }
  }

  lemma ReversedPrefixDescending(keys: seq<Bytes>, upto: nat)
    requires Ascending(keys) && upto <= |keys|
    ensures Descending(Reverse(keys[..upto]))
    ensures forall k :: k in Reverse(keys[..upto]) ==> k in keys
  {
    var r := Reverse(keys[..upto]);
    forall i, j | 0 <= i < j < |r| ensures Below(r[j], r[i]) {
      assert r[j] == keys[upto - 1 - j] && r[i] == keys[upto - 1 - i];
    }
    forall k | k in r ensures k in keys {
      var i :| 0 <= i < |r| && r[i] == k;
      assert k == keys[upto - 1 - i];
    }
  }

  /** The walked keys are range keys, strictly ascending forward and strictly descending in reverse. */
  lemma CandidatesOrdered(keys: seq<Bytes>, opts: ScanOpts)
    requires Ascending(keys)
    ensures forall k :: k in CandidateKeys(keys, opts) ==> k in keys
    ensures !opts.reverseScan ==> Ascending(CandidateKeys(keys, opts))
    ensures opts.reverseScan ==> Descending(CandidateKeys(keys, opts))
  {
    var n := |keys|;
    if !opts.reverseScan {
      if opts.offset.None? {
        SuffixAscending(keys, 0);
      } else {
        var from := LowerBound(keys, opts.offset.value) + (if opts.includeOffset then 1 else 2);
        if from <= n {
          SuffixAscending(keys, from);
        }
      }
    } else if opts.offset.None? {
      if opts.prefix.None? && n > 0 {
        ReversedPrefixDescending(keys, n - 1);
      }
    } else {
      var j: int := LowerBound(keys, opts.offset.value);
      var upto: int := if opts.includeOffset then j else j - 1;
      if upto >= 0 {
        ReversedPrefixDescending(keys, upto);
      }
    }
  }

  /** Forward from an offset, every walked key lies strictly above the key `Seek` found, hence above the offset. */
  lemma ForwardCandidatesAboveSought(keys: seq<Bytes>, opts: ScanOpts)
    requires Ascending(keys)
    requires !opts.reverseScan && opts.offset.Some?
    ensures var j := LowerBound(keys, opts.offset.value);
            j < |keys| ==> forall k :: k in CandidateKeys(keys, opts) ==> Below(keys[j], k)
    ensures var j := LowerBound(keys, opts.offset.value);
            !opts.includeOffset && j + 1 < |keys| ==> forall k :: k in CandidateKeys(keys, opts) ==> Below(keys[j + 1], k)
    ensures forall k :: k in CandidateKeys(keys, opts) ==> Below(opts.offset.value, k)
  {
    var target := opts.offset.value;
    var j := LowerBound(keys, target);
    var cs := CandidateKeys(keys, opts);
    forall k | k in cs
      ensures Below(keys[j], k)
      ensures !opts.includeOffset && j + 1 < |keys| ==> Below(keys[j + 1], k)
      ensures Below(target, k)
    {
      var from := j + (if opts.includeOffset then 1 else 2);
      var i :| 0 <= i < |cs| && cs[i] == k;
      assert k == keys[from + i];
      BelowTotal(keys[j], target);
      if Below(target, keys[j]) {
        BelowTransitive(target, keys[j], k);
      }
    }
  }

  /** In reverse from an offset, every walked key lies strictly below the offset. */
  lemma ReverseCandidatesBelowOffset(keys: seq<Bytes>, opts: ScanOpts)
    requires opts.reverseScan && opts.offset.Some?
    ensures forall k :: k in CandidateKeys(keys, opts) ==> Below(k, opts.offset.value)
  {
    var j: int := LowerBound(keys, opts.offset.value);
    var upto: int := if opts.includeOffset then j else j - 1;
    var cs := CandidateKeys(keys, opts);
    forall k | k in cs ensures Below(k, opts.offset.value) {
      var i :| 0 <= i < |cs| && cs[i] == k;
      assert k == keys[upto - 1 - i];
    }
  }

  /** The trace is the walked slice of the range, cut short; this is what the lemmas below build on. */
  lemma TraceIsCandidatePrefix(db: map<Bytes, Bytes>, opts: ScanOpts)
    requires opts.filter.Some?
    ensures var t, cs := ScanTrace(db, opts), CandidateKeys(RangeOf(db, opts.prefix), opts);
            && |t| <= |cs|
            && (forall k :: k in cs ==> k in RangeOf(db, opts.prefix))
            && (forall i :: 0 <= i < |t| ==> t[i] == KeyValue(cs[i], db[cs[i]]))
  {
    var keys := RangeOf(db, opts.prefix);
    var cs := CandidateKeys(keys, opts);
    CandidatesOrdered(keys, opts);
    ScanIsFilterRun(db, opts);
    FilterRunStopsOnRefusal(opts.filter.value, Entries(db, cs));
  }

  /** Without a filter nothing is offered (the scan returns before making an iterator). */
  lemma ScanWithoutFilterOffersNothing(db: map<Bytes, Bytes>, opts: ScanOpts)
    requires opts.filter.None?
    ensures ScanTrace(db, opts) == []
  {
  }

  /** Every record offered is a record of the store, and lies under the prefix when one is set. */
  lemma ScanOffersStoredRecords(db: map<Bytes, Bytes>, opts: ScanOpts)
    ensures var t := ScanTrace(db, opts);
            forall i :: 0 <= i < |t| ==> t[i].key in db && db[t[i].key] == t[i].value
    ensures var t := ScanTrace(db, opts);
            opts.prefix.Some? ==> forall i :: 0 <= i < |t| ==> StartsWith(t[i].key, opts.prefix.value)
  {
    if opts.filter.Some? {
      TraceIsCandidatePrefix(db, opts);
      var t, cs := ScanTrace(db, opts), CandidateKeys(RangeOf(db, opts.prefix), opts);
      assert forall i :: 0 <= i < |t| ==> t[i].key == cs[i] && cs[i] in cs;
    }
  }

  /** Keys are offered strictly ascending, or strictly descending for a reverse scan. */
  lemma ScanOffersInKeyOrder(db: map<Bytes, Bytes>, opts: ScanOpts)
    ensures var t := ScanTrace(db, opts);
            !opts.reverseScan ==> forall i, j :: 0 <= i < j < |t| ==> Below(t[i].key, t[j].key)
    ensures var t := ScanTrace(db, opts);
            opts.reverseScan ==> forall i, j :: 0 <= i < j < |t| ==> Below(t[j].key, t[i].key)
  {
    if opts.filter.Some? {
      var keys := RangeOf(db, opts.prefix);
      TraceIsCandidatePrefix(db, opts);
      CandidatesOrdered(keys, opts);
    }
  }

  /**
   * The filter is never asked again once it has answered false; and the scan
   * ends early only on such an answer: when the filter accepts every record
   * offered, it has been offered the whole walked slice.
   */
  lemma ScanStopsOnRefusal(db: map<Bytes, Bytes>, opts: ScanOpts)
    requires opts.filter.Some?
    ensures var t, f := ScanTrace(db, opts), opts.filter.value;
            forall i :: 0 <= i < |t| - 1 ==> f(t[i].key, t[i].value)
    ensures var t, f := ScanTrace(db, opts), opts.filter.value;
            (forall i :: 0 <= i < |t| ==> f(t[i].key, t[i].value)) ==>
              t == Entries(db, CandidateKeys(RangeOf(db, opts.prefix), opts))
  {
    var f := opts.filter.value;
    var keys := RangeOf(db, opts.prefix);
    var cs := CandidateKeys(keys, opts);
    CandidatesOrdered(keys, opts);
    var es := Entries(db, cs);
    ScanIsFilterRun(db, opts);
    FilterRunStopsOnRefusal(f, es);
  }

  /**
   * From an offset, a forward scan offers only keys strictly above the key
   * `Seek` lands on (so never the offset itself, even when it is included),
   * and with the offset excluded only keys above the one after it; a reverse
   * scan offers only keys strictly below the offset.
   */
  lemma ScanRespectsOffset(db: map<Bytes, Bytes>, opts: ScanOpts)
    requires opts.offset.Some?
    ensures var t := ScanTrace(db, opts);
            !opts.reverseScan ==> forall i :: 0 <= i < |t| ==> Below(opts.offset.value, t[i].key)
    ensures var t, keys := ScanTrace(db, opts), RangeOf(db, opts.prefix);
            var j := LowerBound(keys, opts.offset.value);
            !opts.reverseScan && j < |keys| ==> forall i :: 0 <= i < |t| ==> Below(keys[j], t[i].key)
    ensures var t, keys := ScanTrace(db, opts), RangeOf(db, opts.prefix);
            var j := LowerBound(keys, opts.offset.value);
            !opts.reverseScan && !opts.includeOffset && j + 1 < |keys| ==>
              forall i :: 0 <= i < |t| ==> Below(keys[j + 1], t[i].key)
    ensures var t := ScanTrace(db, opts);
            opts.reverseScan ==> forall i :: 0 <= i < |t| ==> Below(t[i].key, opts.offset.value)
  {
    if opts.filter.Some? {
      var keys := RangeOf(db, opts.prefix);
      var cs := CandidateKeys(keys, opts);
      TraceIsCandidatePrefix(db, opts);
      var t := ScanTrace(db, opts);
      assert forall i :: 0 <= i < |t| ==> t[i].key == cs[i] && cs[i] in cs;
      if opts.reverseScan {
        ReverseCandidatesBelowOffset(keys, opts);
      } else {
        ForwardCandidatesAboveSought(keys, opts);
      }
    }
  }

  /** A reverse scan over the whole store, without an offset, never offers the greatest key. */
  lemma ReverseScanSkipsGreatestKey(db: map<Bytes, Bytes>, opts: ScanOpts, top: Bytes)
    requires opts.reverseScan && opts.prefix.None? && opts.offset.None?
    requires top in db && forall k :: k in db ==> k == top || Below(k, top)
    ensures forall i :: 0 <= i < |ScanTrace(db, opts)| ==> ScanTrace(db, opts)[i].key != top
  {
    if opts.filter.Some? {
      var keys := RangeOf(db, opts.prefix);
      var n := |keys|;
      TraceIsCandidatePrefix(db, opts);
      var i :| 0 <= i < n && keys[i] == top;
      if i < n - 1 {
        BelowAsymmetric(keys[i], keys[n - 1]);
      }
      forall m | 0 <= m < n - 1 ensures keys[m] != top {
        BelowIrreflexive(top);
      }
    }
  }

  /** A reverse scan with a prefix and no offset offers nothing: the cursor is never placed. */
  lemma ReversePrefixScanOffersNothing(db: map<Bytes, Bytes>, opts: ScanOpts)
    requires opts.reverseScan && opts.prefix.Some? && opts.offset.None?
    ensures ScanTrace(db, opts) == []
  {
    if opts.filter.Some? {
      TraceIsCandidatePrefix(db, opts);
    }
  }

  // ---------------------------------------------------------------------
  // Batch writes
  // ---------------------------------------------------------------------

  /** Applies the `Put`s of a batch to `db` in order, as the engine's batch write does. */
  function Replay(db: map<Bytes, Bytes>, batch: seq<KeyValue>): (r: map<Bytes, Bytes>)
    ensures r.Keys == db.Keys + set i | 0 <= i < |batch| :: batch[i].key
    ensures |batch| > 0 ==> r[batch[|batch| - 1].key] == batch[|batch| - 1].value
  {
    if batch == [] then db
    else
      var last := batch[|batch| - 1];
      Replay(db, batch[..|batch| - 1])[last.key := last.value]
  }

  /** The last value `pairs` gives for `k`, if it gives one. */
  function LastWrite(pairs: seq<KeyValue>, k: Bytes): (r: Option<Bytes>)
    ensures r.None? <==> forall i :: 0 <= i < |pairs| ==> pairs[i].key != k
    ensures r.Some? ==> exists i :: 0 <= i < |pairs| && pairs[i] == KeyValue(k, r.value) &&
                                   forall j :: i < j < |pairs| ==> pairs[j].key != k
  {
    if pairs == [] then None
    else
      var last := pairs[|pairs| - 1];
      if last.key == k then Some(last.value) else LastWrite(pairs[..|pairs| - 1], k)
  }

  /** After a batch, a key holds the last value the batch gives it, or what it held before. */
  lemma {:induction false} ReplayLastWrite(db: map<Bytes, Bytes>, pairs: seq<KeyValue>, k: Bytes)
    ensures k in Replay(db, pairs) <==> k in db || LastWrite(pairs, k).Some?
    ensures LastWrite(pairs, k).Some? ==> Replay(db, pairs)[k] == LastWrite(pairs, k).value
    ensures LastWrite(pairs, k).None? && k in db ==> Replay(db, pairs)[k] == db[k]
  {
    if pairs != [] {
      ReplayLastWrite(db, pairs[..|pairs| - 1], k);
    }
  }

  // ---------------------------------------------------------------------
  // The driver
  // ---------------------------------------------------------------------

  /** The scan's `next` function variable: one step in the scan's direction. */
  method Advance(iter: Iterator, reverse: bool) returns (ok: bool)
    requires iter.Valid()
    modifies iter
    ensures iter.Valid() && iter.pos == Step(old(iter.pos), |iter.keys|, reverse) && ok == iter.pos.At?
  {
    if reverse {
      ok := iter.Prev();
    } else {
      ok := iter.Next();
    }
  }

  /**
   * The scan loop: step, stop when the cursor leaves the range, hand the
   * record under the cursor to the filter, stop when it answers false.
   */
  method OfferRecords(iter: Iterator, filter: (Bytes, Bytes) -> bool, reverse: bool) returns (trace: seq<KeyValue>)
    requires iter.Valid()
    modifies iter
    ensures trace == Offered(iter.snapshot, iter.keys, filter, reverse, Step(old(iter.pos), |iter.keys|, reverse))
  {
    ghost var db, keys := iter.snapshot, iter.keys;
    trace := [];
    var more := Advance(iter, reverse);
    ghost var total := Offered(db, keys, filter, reverse, iter.pos);
    while more
      invariant iter.Valid()
      invariant more == iter.pos.At?
      invariant trace + Offered(db, keys, filter, reverse, iter.pos) == total
      decreases Rank(iter.pos, |keys|, reverse)
    {
      if !iter.Positioned() {
        break;
      }
      // The key and value are handed over as fresh copies; a sequence is a value.
      var k, v := iter.Key(), iter.Value();
      OfferedStep(db, keys, filter, reverse, iter.pos, trace);
      trace := trace + [KeyValue(k, v)];
      if !filter(k, v) {
        break;
      }
      more := Advance(iter, reverse);
    }
  }

  /** A driver bound to one opened database, whose records are `db`. */
  class Driver {
    var db: map<Bytes, Bytes>

    /** Binds a driver to a database that already holds `persisted`. */
    constructor Open(persisted: map<Bytes, Bytes>)
      ensures db == persisted
    {
      db := persisted;
    }

    method Put(k: Bytes, v: Bytes)
      modifies this
      ensures db == old(db)[k := v]
    {
      db := db[k := v];
    }

    method BulkPut(pairs: seq<KeyValue>)
      modifies this
      ensures db == Replay(old(db), pairs)
      ensures forall k :: k in db <==> k in old(db) || LastWrite(pairs, k).Some?
      ensures forall k :: LastWrite(pairs, k).Some? ==> db[k] == LastWrite(pairs, k).value
      ensures forall k :: k in old(db) && LastWrite(pairs, k).None? ==> db[k] == old(db)[k]
    {
      var batch: seq<KeyValue> := [];
      for i := 0 to |pairs|
        invariant batch == pairs[..i]
      {
        batch := batch + [pairs[i]];
      }
      assert batch == pairs;
      forall k
        ensures k in Replay(db, pairs) <==> k in db || LastWrite(pairs, k).Some?
        ensures LastWrite(pairs, k).Some? ==> Replay(db, pairs)[k] == LastWrite(pairs, k).value
        ensures LastWrite(pairs, k).None? && k in db ==> Replay(db, pairs)[k] == db[k]
      {
        ReplayLastWrite(db, pairs, k);
      }
      db := Replay(db, batch);
    }

    /** A missing key is reported as `None` (the engine's not-found error). */
    method Get(k: Bytes) returns (r: Option<Bytes>)
      ensures r.Some? <==> k in db
      ensures r.Some? ==> r.value == db[k]
    {
      if k in db {
        r := Some(db[k]);
      } else {
        r := None;
      }
    }

    method Delete(k: Bytes)
      modifies this
      ensures db == old(db) - {k}
    {
      db := db - {k};
    }

    /**
     * Runs a scan and returns the records it offered to `opts.filter`, in
     * the order offered.
     */
    method Scan(opts: ScanOpts) returns (trace: seq<KeyValue>)
      ensures trace == ScanTrace(db, opts)
      ensures opts.filter.None? ==> trace == []
      ensures forall i :: 0 <= i < |trace| ==> trace[i].key in db && db[trace[i].key] == trace[i].value
      ensures opts.prefix.Some? ==> forall i :: 0 <= i < |trace| ==> StartsWith(trace[i].key, opts.prefix.value)
      ensures !opts.reverseScan ==> forall i, j :: 0 <= i < j < |trace| ==> Below(trace[i].key, trace[j].key)
      ensures opts.reverseScan ==> forall i, j :: 0 <= i < j < |trace| ==> Below(trace[j].key, trace[i].key)
      ensures opts.filter.Some? ==> forall i :: 0 <= i < |trace| - 1 ==> opts.filter.value(trace[i].key, trace[i].value)
      ensures !opts.reverseScan && opts.offset.Some? ==> forall i :: 0 <= i < |trace| ==> Below(opts.offset.value, trace[i].key)
      ensures opts.reverseScan && opts.offset.Some? ==> forall i :: 0 <= i < |trace| ==> Below(trace[i].key, opts.offset.value)
    {
      ScanOffersStoredRecords(db, opts);
      ScanOffersInKeyOrder(db, opts);
      if opts.offset.Some? {
        ScanRespectsOffset(db, opts);
      }
      trace := [];
      if opts.filter.None? {
        return;
      }
      ScanStopsOnRefusal(db, opts);
      var filter := opts.filter.value;
      var reverse := opts.reverseScan;
      var keys := RangeOf(db, opts.prefix);
      var iter := new Iterator(db, keys);
      var found: bool;
      if opts.offset.Some? {
        found := iter.Seek(opts.offset.value);
      }
      if reverse && opts.offset.None? && opts.prefix.None? {
        found := iter.Last();
      }
      if opts.offset.Some? && !opts.includeOffset {
        found := Advance(iter, reverse);
      }
      assert iter.pos == StartPos(keys, opts);
      trace := OfferRecords(iter, filter, reverse);
    }
  }
}
