/**
 * The flat key/value command handlers SET, GET, DEL and INCR. Each handler
 * checks its arguments, builds the stored key by putting the namespace
 * prefix of plain values in front of the user's key, makes at most one
 * call into the logical entry store and writes exactly one reply.
 *
 * The store is abstract: `calls` logs every call a handler makes into it,
 * and a `Store` gives its answers as functions of the calls made before, so
 * any deterministic store fits. The duration and number parsers are
 * abstract partial functions as well.
 */
module FlatKV {
  import opened Wrappers
  import opened ByteOrder

  /** The text of an error reply. The wording of the arity error is defined outside this model. */
  datatype ErrorText = IncorrectArgsCount | Message(text: string)

  /** The one reply a handler writes on its connection. */
  datatype Reply =
    | Error(err: ErrorText)
    | Str(s: string)
    | Bulk(data: Bytes)
    | Int(n: int)
    | Null
      /** a bulk string holding the shortest decimal rendering of `number` */
    | BulkString(number: real)

  /**
   * A logical entry. `value` is `None` for the entries of a delete batch
   * (Go's nil slice); `ttl` is a duration in nanoseconds, 0 when unset.
   */
  datatype Entry = Entry(key: Bytes, value: Option<Bytes>, ttl: int)

  /** A call a handler makes into the logical entry store. */
  datatype StoreCall =
    | PutCall(entry: Entry)
    | GetCall(key: Bytes)
    | BatchCall(entries: seq<Entry>)
    | IncrCall(key: Bytes, delta: real, ttl: int)

  /** What the store's `Get` returns: an error, nil, or a value (possibly empty). */
  datatype GetAnswer = GetFailed(msg: string) | Missing | Found(value: Bytes)

  /** What the store's `Incr` returns: an error or the new number. */
  datatype IncrAnswer = IncrFailed(msg: string) | Incremented(value: real)

  /** What the duration parser makes of an argument. */
  datatype DurationParse = Duration(nanos: int) | BadDuration(msg: string)

  /** The answers of the store, as functions of the calls made before and the call's arguments. */
  datatype Store = Store(
    get: (seq<StoreCall>, Bytes) -> GetAnswer,
    incr: (seq<StoreCall>, Bytes, real, int) -> IncrAnswer)

  /** The stored key of a user key: the namespace prefix, then the user key. */
  function Namespaced(prefix: Bytes, key: Bytes): (r: Bytes)
    ensures |r| == |prefix| + |key|
    ensures StartsWith(r, prefix) && r[|prefix|..] == key
  {
    prefix + key
  }

  /** Distinct user keys never share a stored key. */
  lemma NamespacedInjective(prefix: Bytes, a: Bytes, b: Bytes)
    ensures Namespaced(prefix, a) == Namespaced(prefix, b) <==> a == b
  {
    if Namespaced(prefix, a) == Namespaced(prefix, b) {
      assert a == Namespaced(prefix, a)[|prefix|..];
    }
  }

  /** The number has no fractional part. */
  predicate Integral(x: real) {
    x.Floor as real == x
  }

  /** INCR's reply: an integer when the new value is whole, its decimal text otherwise. */
  function IncrReply(v: real): (r: Reply)
    ensures r.Int? || r.BulkString?
    ensures r.Int? <==> Integral(v)
    ensures r.Int? ==> r.n as real == v
    ensures r.BulkString? ==> r.number == v
  {
    if Integral(v) then Int(v.Floor) else BulkString(v)
  }

  /** The handlers of one connection, with the calls they made and the replies they wrote. */
  class Handlers {
    const prefix: Bytes
    const store: Store
    const parseDuration: Bytes -> DurationParse
    const parseFloat: Bytes -> Option<real>
    var calls: seq<StoreCall>
    var replies: seq<Reply>

    constructor (prefix: Bytes, store: Store, parseDuration: Bytes -> DurationParse,
                 parseFloat: Bytes -> Option<real>)
      ensures this.prefix == prefix && this.store == store
      ensures this.parseDuration == parseDuration && this.parseFloat == parseFloat
      ensures calls == [] && replies == []
    {
      this.prefix := prefix;
      this.store := store;
      this.parseDuration := parseDuration;
      this.parseFloat := parseFloat;
      calls := [];
      replies := [];
    }

    /** SET key value [ttl] */
    method Set(args: seq<Bytes>)
      modifies this
      ensures |args| < 2 ==>
                calls == old(calls) && replies == old(replies) + [Error(IncorrectArgsCount)]
      ensures |args| > 2 && parseDuration(args[2]).BadDuration? ==>
                calls == old(calls) && replies == old(replies) + [Error(Message(parseDuration(args[2]).msg))]
      ensures |args| >= 2 && (|args| == 2 || parseDuration(args[2]).Duration?) ==>
                var ttl := if |args| > 2 then parseDuration(args[2]).nanos else 0;
                && calls == old(calls) + [PutCall(Entry(Namespaced(prefix, args[0]), Some(args[1]), ttl))]
                && replies == old(replies) + [Str("OK")]
    {
      if |args| < 2 {
        replies := replies + [Error(IncorrectArgsCount)];
        return;
      }
      var entry := Entry(Namespaced(prefix, args[0]), Some(args[1]), 0);
      if |args| > 2 {
        var parsed := parseDuration(args[2]);
        if parsed.BadDuration? {
          replies := replies + [Error(Message(parsed.msg))];
          return;
        }
        entry := entry.(ttl := parsed.nanos);
      }
      // The store's error is not looked at: the reply is OK either way.
      calls := calls + [PutCall(entry)];
      replies := replies + [Str("OK")];
    }

    /** GET key */
    method Get(args: seq<Bytes>)
      modifies this
      ensures |args| < 1 ==>
                calls == old(calls) && replies == old(replies) + [Error(IncorrectArgsCount)]
      ensures |args| >= 1 ==>
                var k := Namespaced(prefix, args[0]);
                var answer := store.get(old(calls), k);
                && calls == old(calls) + [GetCall(k)]
                && (answer.GetFailed? ==> replies == old(replies) + [Error(Message(answer.msg))])
                && (answer.Missing? ==> replies == old(replies) + [Null])
                && (answer.Found? ==> replies == old(replies) + [Bulk(answer.value)])
    {
      if |args| < 1 {
        replies := replies + [Error(IncorrectArgsCount)];
        return;
      }
      var k := Namespaced(prefix, args[0]);
      var answer := store.get(calls, k);
      calls := calls + [GetCall(k)];
      if answer.GetFailed? {
        replies := replies + [Error(Message(answer.msg))];
        return;
      }
      if answer.Missing? {
        replies := replies + [Null];
        return;
      }
      replies := replies + [Bulk(answer.value)];
    }

    /** The delete batch of DEL: one value-less entry per argument, in argument order. */
    method DeleteEntries(args: seq<Bytes>) returns (entries: seq<Entry>)
      ensures |entries| == |args|
      ensures forall i :: 0 <= i < |args| ==> entries[i] == Entry(Namespaced(prefix, args[i]), None, 0)
    {
      entries := [];
      for i := 0 to |args|
        invariant |entries| == i
        invariant forall j :: 0 <= j < i ==> entries[j] == Entry(Namespaced(prefix, args[j]), None, 0)
      {
        entries := entries + [Entry(Namespaced(prefix, args[i]), None, 0)];
      }
    }

    /** DEL key... : replies with the number of keys asked for, present or not. */
    method Del(args: seq<Bytes>)
      modifies this
      ensures replies == old(replies) + [Int(|args|)]
      ensures |args| == 0 ==> calls == old(calls)
      ensures |args| > 0 ==>
                && |calls| == |old(calls)| + 1 && calls[..|old(calls)|] == old(calls)
                && calls[|old(calls)|].BatchCall?
                && var batch := calls[|old(calls)|].entries;
                   && |batch| == |args|
                   && forall i :: 0 <= i < |args| ==> batch[i] == Entry(Namespaced(prefix, args[i]), None, 0)
    {
      if |args| < 1 {
        replies := replies + [Int(0)];
        return;
      }
      var entries := DeleteEntries(args);
      // The store's answer is not looked at.
      calls := calls + [BatchCall(entries)];
      replies := replies + [Int(|entries|)];
    }

    /** INCR key [delta] [ttl] */
    method Incr(args: seq<Bytes>)
      modifies this
      ensures |args| < 1 ==>
                calls == old(calls) && replies == old(replies) + [Error(IncorrectArgsCount)]
      ensures |args| > 2 && parseDuration(args[2]).BadDuration? ==>
                calls == old(calls) && replies == old(replies) + [Error(Message(parseDuration(args[2]).msg))]
      ensures |args| >= 1 && (|args| <= 2 || parseDuration(args[2]).Duration?) ==>
                var k := Namespaced(prefix, args[0]);
                var delta := if |args| > 1 then parseFloat(args[1]).GetOr(0.0) else 0.0;
                var ttl := if |args| > 2 then parseDuration(args[2]).nanos else 0;
                var answer := store.incr(old(calls), k, delta, ttl);
                && calls == old(calls) + [IncrCall(k, delta, ttl)]
                && (answer.IncrFailed? ==> replies == old(replies) + [Error(Message(answer.msg))])
                && (answer.Incremented? ==> replies == old(replies) + [IncrReply(answer.value)])
    {
      if |args| < 1 {
        replies := replies + [Error(IncorrectArgsCount)];
        return;
      }
      var entry := Entry(Namespaced(prefix, args[0]), None, 0);
      var delta := 0.0;
      if |args| > 1 {
        // A number that does not parse is not an error: the delta stays 0.
        delta := parseFloat(args[1]).GetOr(0.0);
      }
      if |args| > 2 {
        var parsed := parseDuration(args[2]);
        if parsed.BadDuration? {
          replies := replies + [Error(Message(parsed.msg))];
          return;
        }
        entry := entry.(ttl := parsed.nanos);
      }
      var answer := store.incr(calls, entry.key, delta, entry.ttl);
      calls := calls + [IncrCall(entry.key, delta, entry.ttl)];
      if answer.IncrFailed? {
        replies := replies + [Error(Message(answer.msg))];
        return;
      }
      replies := replies + [IncrReply(answer.value)];
    }
  }
}
