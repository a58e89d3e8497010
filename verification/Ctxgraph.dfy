/**
 * The content-addressed store of ctxgraph (pkg/ctxgraph/src/entry.rs, pkg/ctxgraph/src/store.rs).
 * SHA-256 and the JSON encoders are parameters; text stands for its UTF-8 bytes.
 */
module Ctxgraph {
  import opened Collections
  import opened Wrappers
  import Like

  const NUL: char := '\0'

  /** The functions the store is built on: canonical_json, to_string, from_str, hex of SHA-256. */
  datatype Codec<!V(!new)> = Codec(
    canonical: V -> string,
    toJson: V -> string,
    fromJson: string -> V,
    hash: string -> string)
  {
    /** JSON text has no raw NUL, the canonical form loses nothing, and the hash is free of collisions. */
    ghost predicate Sound() {
      && (forall v :: NUL !in canonical(v))
      && (forall v, w :: canonical(v) == canonical(w) ==> v == w)
      && (forall s, t :: hash(s) == hash(t) ==> s == t)
    }

    /** The stored text reads back as the value; some floating-point numbers do not. */
    ghost predicate Exact(v: V) {
      fromJson(toJson(v)) == v
    }
  }

  /** The assumptions can be met: here with two values and no hashing at all. */
  lemma SoundCodecsExist()
    ensures exists codec: Codec<bool> :: codec.Sound() && forall v :: codec.Exact(v)
  {
    var digit := (b: bool) => if b then "1" else "0";
    var codec := Codec(digit, digit, (s: string) => s == "1", (s: string) => s);
    assert codec.Sound() && forall v :: codec.Exact(v);
  }

  // ---------------------------------------------------------------- framing (entry.rs)

  /** What compute_hash feeds to the hasher, piece by piece. */
  function Frame(agentId: string, key: string, json: string): string {
    agentId + [NUL] + key + [NUL] + json
  }

  predicate NulFree(agentId: string, key: string) {
    NUL !in agentId && NUL !in key
  }

  function NulFreeLength(s: string): nat {
    if s == "" || s[0] == NUL then 0 else 1 + NulFreeLength(s[1..])
  }

  lemma {:induction false} NulFreePrefix(a: string, x: string)
    requires NUL !in a
    ensures NulFreeLength(a + [NUL] + x) == |a|
  {
    if a != "" {
      assert (a + [NUL] + x)[1..] == a[1..] + [NUL] + x;
      NulFreePrefix(a[1..], x);
    }
  }

  /** The first NUL tells where the first piece ends. */
  lemma FirstNul(a: string, b: string, x: string, y: string)
    requires NUL !in a && NUL !in b
    requires a + [NUL] + x == b + [NUL] + y
    ensures a == b && x == y
  {
    var s := a + [NUL] + x;
    NulFreePrefix(a, x);
    NulFreePrefix(b, y);
    assert a == s[..|a|] && b == s[..|b|];
    assert x == s[|a| + 1..] && y == s[|b| + 1..];
  }

  lemma FramingIsInjective(a: string, k: string, j: string, a': string, k': string, j': string)
    requires NulFree(a, k) && NulFree(a', k')
    requires Frame(a, k, j) == Frame(a', k', j')
    ensures a == a' && k == k' && j == j'
  {
    assert Frame(a, k, j) == a + [NUL] + (k + [NUL] + j);
    assert Frame(a', k', j') == a' + [NUL] + (k' + [NUL] + j');
    FirstNul(a, a', k + [NUL] + j, k' + [NUL] + j');
    FirstNul(k, k', j, j');
  }

  function Nuls(s: string): nat {
    if s == "" then 0 else (if s[0] == NUL then 1 else 0) + Nuls(s[1..])
  }

  lemma {:induction false} NulsConcat(s: string, t: string)
    ensures Nuls(s + t) == Nuls(s) + Nuls(t)
  {
    if s == "" {
      assert s + t == t;
    } else {
      assert (s + t)[1..] == s[1..] + t;
      NulsConcat(s[1..], t);
    }
  }

  lemma {:induction false} NulsZero(s: string)
    ensures Nuls(s) == 0 <==> NUL !in s
  {
    if s != "" {
      NulsZero(s[1..]);
      assert s == [s[0]] + s[1..];
    }
  }

  lemma FrameNuls(a: string, k: string, j: string)
    ensures Nuls(Frame(a, k, j)) == Nuls(a) + Nuls(k) + Nuls(j) + 2
  {
    assert [NUL][1..] == "";
    NulsConcat(a, [NUL]);
    NulsConcat(a + [NUL], k);
    NulsConcat(a + [NUL] + k, [NUL]);
    NulsConcat(a + [NUL] + k + [NUL], j);
  }

  /** No other agent id, key and value hash the same input. */
  ghost predicate FramedUniquely<V(!new)>(codec: Codec<V>, a: string, k: string, v: V) {
    forall a', k', v' :: Frame(a', k', codec.canonical(v')) == Frame(a, k, codec.canonical(v))
      ==> a' == a && k' == k && v' == v
  }

  /** The framing identifies agent id, key and value exactly when neither id nor key holds a NUL. */
  lemma FramingMeaning<V(!new)>(codec: Codec<V>, a: string, k: string, v: V)
    requires codec.Sound()
    ensures FramedUniquely(codec, a, k, v) <==> NulFree(a, k)
  {
    var j := codec.canonical(v);
    if NulFree(a, k) {
      forall a', k', v' | Frame(a', k', codec.canonical(v')) == Frame(a, k, j)
        ensures a' == a && k' == k && v' == v
      {
        var j' := codec.canonical(v');
        FrameNuls(a, k, j);
        FrameNuls(a', k', j');
        NulsZero(a); NulsZero(k); NulsZero(j);
        NulsZero(a'); NulsZero(k'); NulsZero(j');
        FramingIsInjective(a', k', j', a, k, j);
      }
    } else if NUL in a {
      var i :| 0 <= i < |a| && a[i] == NUL;
      var a', k' := a[..i], a[i + 1..] + [NUL] + k;
      assert a == a' + [NUL] + a[i + 1..];
      assert Frame(a', k', j) == Frame(a, k, j);
      assert |a'| < |a|;
    } else {
      var i :| 0 <= i < |k| && k[i] == NUL;
      var a', k' := a + [NUL] + k[..i], k[i + 1..];
      assert k == k[..i] + [NUL] + k';
      assert Frame(a', k', j) == Frame(a, k, j);
      assert |a'| > |a|;
    }
  }

  // ---------------------------------------------------------------- the table (store.rs)

  datatype Row = Row(hash: string, agentId: string, key: string, value: string, timestamp: int)

  datatype Entry<V> = Entry(hash: string, agentId: string, key: string, value: V, timestamp: int)

  datatype WriteOp<V> = WriteOp(agentId: string, key: string, value: V, now: int)

  function ComputeHash<V(!new)>(codec: Codec<V>, agentId: string, key: string, value: V): string {
    codec.hash(Frame(agentId, key, codec.canonical(value)))
  }

  /** compute_hash: the hasher is fed piece by piece. */
  method HashEntry<V(!new)>(codec: Codec<V>, agentId: string, key: string, value: V) returns (hash: string)
    ensures hash == codec.hash(agentId + [NUL] + key + [NUL] + codec.canonical(value))
    ensures hash == ComputeHash(codec, agentId, key, value)
  {
    var fed := agentId;
    fed := fed + [NUL];
    fed := fed + key;
    fed := fed + [NUL];
    var json := codec.canonical(value);
    fed := fed + json;
    hash := codec.hash(fed);
  }

  function HashOf<V(!new)>(codec: Codec<V>, w: WriteOp<V>): string {
    ComputeHash(codec, w.agentId, w.key, w.value)
  }

  function RowOf<V(!new)>(codec: Codec<V>, w: WriteOp<V>): Row {
    Row(HashOf(codec, w), w.agentId, w.key, codec.toJson(w.value), w.now)
  }

  function EntryOf<V(!new)>(codec: Codec<V>, row: Row): Entry<V> {
    Entry(row.hash, row.agentId, row.key, codec.fromJson(row.value), row.timestamp)
  }

  /** INSERT OR IGNORE on the primary key. */
  function InsertOrIgnore(table: map<string, Row>, row: Row): map<string, Row> {
    if row.hash in table then table else table[row.hash := row]
  }

  function Lookup<V(!new)>(codec: Codec<V>, table: map<string, Row>, hash: string): Option<Entry<V>> {
    if hash in table then Some(EntryOf(codec, table[hash])) else None
  }

  class Store<V(!new)> {
    const codec: Codec<V>
    var table: map<string, Row>
    // Every write there has been; the program keeps only the table.
    ghost var log: seq<WriteOp<V>>

    ghost predicate Valid()
      reads this
    {
      table == TableAfter(codec, log)
    }

    constructor (codec: Codec<V>)
      ensures this.codec == codec && Valid() && log == []
    {
      this.codec := codec;
      table, log := map[], [];
    }

    method Write(agentId: string, key: string, value: V, now: int) returns (hash: string)
      requires Valid()
      modifies this
      ensures Valid() && log == old(log) + [WriteOp(agentId, key, value, now)]
      ensures hash == codec.hash(agentId + [NUL] + key + [NUL] + codec.canonical(value))
    {
      hash := HashEntry(codec, agentId, key, value);
      var json := codec.toJson(value);
      if hash !in table { table := table[hash := Row(hash, agentId, key, json, now)]; }
      log := log + [WriteOp(agentId, key, value, now)];
      assert log[..|log| - 1] == old(log);
    }

    /**
     * Nothing is found exactly under hashes that no write returned; and the hash of a write of
     * NUL-free names and an exact value leads to what it wrote, with the time of the first such write.
     */
    method Read(hash: string) returns (entry: Option<Entry<V>>)
      requires Valid()
      ensures entry.None? <==> forall i :: 0 <= i < |log| ==> HashOf(codec, log[i]) != hash
      ensures codec.Sound() ==>
                forall i :: 0 <= i < |log| && HashOf(codec, log[i]) == hash && Faithful(codec, log[i]) ==>
                  entry == Some(Written(codec, log, i))
    {
      if hash in table {
        var row := table[hash];
        entry := Some(Entry(row.hash, row.agentId, row.key, codec.fromJson(row.value), row.timestamp));
      } else {
        entry := None;
      }
      KnownHashes(codec, log, hash);
      if codec.Sound() {
        forall i | 0 <= i < |log| && HashOf(codec, log[i]) == hash && Faithful(codec, log[i])
          ensures entry == Some(Written(codec, log, i))
        {
          ReadsBack(codec, log, i);
          assert ReadsBackAt(codec, log, i);
        }
      }
    }

    /** The rows whose key the pattern selects, each once, newest first. */
    method QueryByPrefix(prefix: string) returns (entries: seq<Entry<V>>)
      requires Valid()
      ensures NewestFirst(entries) && DistinctHashes(entries)
      ensures forall e :: e in entries <==>
                exists h :: h in table && Like.Selects(prefix, table[h].key) && e == EntryOf(codec, table[h])
      ensures Like.Plain(prefix) ==> forall e :: e in entries <==>
                exists h :: h in table && Like.BeginsWith(table[h].key, prefix) && e == EntryOf(codec, table[h])
    {
      var hashes := Enumerate(table.Keys);
      entries := [];
      for i := 0 to |hashes|
        invariant NewestFirst(entries) && DistinctHashes(entries)
        invariant forall e :: e in entries ==> e.hash in hashes[..i]
        invariant forall e :: e in entries <==>
          exists h :: h in hashes[..i] && Like.Selects(prefix, table[h].key) && e == EntryOf(codec, table[h])
      {
        var row := table[hashes[i]];
        FiledByHash(codec, log, hashes[i]);
        assert hashes[i] !in hashes[..i];
        if Like.Selects(prefix, row.key) {
          InsertKeepsDistinct(EntryOf(codec, row), entries);
          entries := InsertByTime(EntryOf(codec, row), entries);
        }
      }
      Like.PrefixQueryMeaning(prefix);
    }
  }

  ghost predicate NewestFirst<V(!new)>(entries: seq<Entry<V>>) {
    forall i, j :: 0 <= i < j < |entries| ==> entries[i].timestamp >= entries[j].timestamp
  }

  ghost predicate DistinctHashes<V(!new)>(entries: seq<Entry<V>>) {
    forall i, j :: 0 <= i < j < |entries| ==> entries[i].hash != entries[j].hash
  }

  function InsertByTime<V(!new)>(e: Entry<V>, entries: seq<Entry<V>>): (r: seq<Entry<V>>)
    requires NewestFirst(entries)
    ensures NewestFirst(r) && forall x :: x in r <==> x == e || x in entries
  {
    if entries == [] then [e]
    else if e.timestamp >= entries[0].timestamp then [e] + entries
    else
      var rest := InsertByTime(e, entries[1..]);
      assert forall x :: x in rest ==> x.timestamp <= entries[0].timestamp;
      [entries[0]] + rest
  }

  lemma {:induction false} InsertKeepsDistinct<V(!new)>(e: Entry<V>, entries: seq<Entry<V>>)
    requires NewestFirst(entries) && DistinctHashes(entries) && forall x :: x in entries ==> x.hash != e.hash
    ensures DistinctHashes(InsertByTime(e, entries))
  {
    if entries != [] && e.timestamp < entries[0].timestamp {
      InsertKeepsDistinct(e, entries[1..]);
      forall x | x in InsertByTime(e, entries[1..]) ensures x.hash != entries[0].hash {
      }
    }
  }

  // ---------------------------------------------------------------- runs of writes

  /** The table after a run of writes on an empty store. */
  function TableAfter<V(!new)>(codec: Codec<V>, writes: seq<WriteOp<V>>): map<string, Row> {
    if writes == [] then map[]
    else
      var last := writes[|writes| - 1];
      InsertOrIgnore(TableAfter(codec, writes[..|writes| - 1]), RowOf(codec, last))
  }

  /** The position of the first write of the same content as write `i`. */
  function FirstWrite<V(!new)>(codec: Codec<V>, writes: seq<WriteOp<V>>, i: nat): (f: nat)
    requires i < |writes|
    ensures f <= i && HashOf(codec, writes[f]) == HashOf(codec, writes[i])
    ensures forall k :: 0 <= k < f ==> HashOf(codec, writes[k]) != HashOf(codec, writes[i])
  {
    FirstFrom(codec, writes, 0, i)
  }

  function FirstFrom<V(!new)>(codec: Codec<V>, writes: seq<WriteOp<V>>, start: nat, i: nat): (f: nat)
    requires start <= i < |writes|
    ensures start <= f <= i && HashOf(codec, writes[f]) == HashOf(codec, writes[i])
    ensures forall k :: start <= k < f ==> HashOf(codec, writes[k]) != HashOf(codec, writes[i])
    decreases i - start
  {
    if start == i || HashOf(codec, writes[start]) == HashOf(codec, writes[i]) then start
    else FirstFrom(codec, writes, start + 1, i)
  }

  /** Append-only: a row, once in the table, is there unchanged after any further writes. */
  lemma {:induction false} AppendOnly<V(!new)>(codec: Codec<V>, writes: seq<WriteOp<V>>, more: seq<WriteOp<V>>, h: string)
    requires h in TableAfter(codec, writes)
    ensures h in TableAfter(codec, writes + more)
    ensures TableAfter(codec, writes + more)[h] == TableAfter(codec, writes)[h]
  {
    if more == [] {
      assert writes + more == writes;
    } else {
      var all := writes + more;
      assert all[..|all| - 1] == writes + more[..|more| - 1];
      AppendOnly(codec, writes, more[..|more| - 1], h);
    }
  }

  /** The row stored for write `i` is that of the first write of the same hash. */
  lemma FirstWriteWins<V(!new)>(codec: Codec<V>, writes: seq<WriteOp<V>>, i: nat)
    requires i < |writes|
    ensures HashOf(codec, writes[i]) in TableAfter(codec, writes)
    ensures TableAfter(codec, writes)[HashOf(codec, writes[i])]
         == RowOf(codec, writes[FirstWrite(codec, writes, i)])
  {
    var f := FirstWrite(codec, writes, i);
    var h := HashOf(codec, writes[i]);
    NotYetWritten(codec, writes[..f], h);
    assert writes[..f + 1][..f] == writes[..f];
    AppendOnly(codec, writes[..f + 1], writes[f + 1..], h);
    assert writes[..f + 1] + writes[f + 1..] == writes;
  }

  lemma {:induction false} NotYetWritten<V(!new)>(codec: Codec<V>, writes: seq<WriteOp<V>>, h: string)
    requires forall k :: 0 <= k < |writes| ==> HashOf(codec, writes[k]) != h
    ensures h !in TableAfter(codec, writes)
  {
    if writes != [] { NotYetWritten(codec, writes[..|writes| - 1], h); }
  }

  lemma {:induction false} FiledByHash<V(!new)>(codec: Codec<V>, writes: seq<WriteOp<V>>, h: string)
    requires h in TableAfter(codec, writes)
    ensures TableAfter(codec, writes)[h].hash == h
  {
    var init := writes[..|writes| - 1];
    if h in TableAfter(codec, init) { FiledByHash(codec, init, h); }
  }

  /** The table knows exactly the hashes of the writes. */
  lemma KnownHashes<V(!new)>(codec: Codec<V>, writes: seq<WriteOp<V>>, h: string)
    ensures h !in TableAfter(codec, writes) <==> forall i :: 0 <= i < |writes| ==> HashOf(codec, writes[i]) != h
  {
    if i :| 0 <= i < |writes| && HashOf(codec, writes[i]) == h {
      FirstWriteWins(codec, writes, i);
    } else {
      NotYetWritten(codec, writes, h);
    }
  }

  /** A write that the framing and the JSON text both preserve. */
  ghost predicate Faithful<V(!new)>(codec: Codec<V>, w: WriteOp<V>) {
    NulFree(w.agentId, w.key) && codec.Exact(w.value)
  }

  /** What write `i` wrote, with the time of the first write of the same content. */
  function Written<V(!new)>(codec: Codec<V>, writes: seq<WriteOp<V>>, i: nat): Entry<V>
    requires i < |writes|
  {
    var w := writes[i];
    Entry(HashOf(codec, w), w.agentId, w.key, w.value, writes[FirstWrite(codec, writes, i)].now)
  }

  ghost predicate ReadsBackAt<V(!new)>(codec: Codec<V>, writes: seq<WriteOp<V>>, i: nat)
    requires i < |writes|
  {
    Lookup(codec, TableAfter(codec, writes), HashOf(codec, writes[i])) == Some(Written(codec, writes, i))
  }

  /** Whatever the other writes are, a faithful write reads back for ever. */
  lemma ReadsBack<V(!new)>(codec: Codec<V>, writes: seq<WriteOp<V>>, i: nat)
    requires codec.Sound() && i < |writes| && Faithful(codec, writes[i])
    ensures ReadsBackAt(codec, writes, i)
  {
    var w, first := writes[i], writes[FirstWrite(codec, writes, i)];
    FirstWriteWins(codec, writes, i);
    FramingMeaning(codec, w.agentId, w.key, w.value);
    assert Frame(first.agentId, first.key, codec.canonical(first.value))
        == Frame(w.agentId, w.key, codec.canonical(w.value));
  }

  /**
   * A write reads back in every run it occurs in exactly when its agent id and key are NUL-free
   * and its value survives the JSON text.
   */
  lemma ReadBackMeaning<V(!new)>(codec: Codec<V>, w: WriteOp<V>)
    requires codec.Sound()
    ensures Faithful(codec, w)
       <==> forall writes, i :: 0 <= i < |writes| && writes[i] == w ==> ReadsBackAt(codec, writes, i)
  {
    if Faithful(codec, w) {
      forall writes: seq<WriteOp<V>>, i | 0 <= i < |writes| && writes[i] == w ensures ReadsBackAt(codec, writes, i) {
        ReadsBack(codec, writes, i);
      }
    } else if !NulFree(w.agentId, w.key) {
      FramingMeaning(codec, w.agentId, w.key, w.value);
      var a, k, v :| Frame(a, k, codec.canonical(v)) == Frame(w.agentId, w.key, codec.canonical(w.value))
                     && !(a == w.agentId && k == w.key && v == w.value);
      Overshadowed(codec, WriteOp(a, k, v, w.now), w);
    } else {
      FirstWriteWins(codec, [w], 0);
      assert !ReadsBackAt(codec, [w], 0);
    }
  }

  /** After a different write of the same hash input, a write does not read back. */
  lemma Overshadowed<V(!new)>(codec: Codec<V>, other: WriteOp<V>, w: WriteOp<V>)
    requires codec.Sound()
    requires Frame(other.agentId, other.key, codec.canonical(other.value))
          == Frame(w.agentId, w.key, codec.canonical(w.value))
    requires !(other.agentId == w.agentId && other.key == w.key && other.value == w.value)
    ensures !ReadsBackAt(codec, [other, w], 1)
  {
    var writes := [other, w];
    FirstWriteWins(codec, writes, 1);
    FrameTail(w.agentId, w.key, codec.canonical(other.value), codec.canonical(w.value));
    assert FirstWrite(codec, writes, 1) == 0;
  }

  lemma FrameTail(a: string, k: string, j: string, j': string)
    ensures Frame(a, k, j) == Frame(a, k, j') ==> j == j'
  {
    assert j == Frame(a, k, j)[|a| + |k| + 2..] && j' == Frame(a, k, j')[|a| + |k| + 2..];
  }

  /** Idempotent: writing a content again, at whatever time, changes nothing. */
  lemma WritingAgainIsNoOp<V(!new)>(codec: Codec<V>, writes: seq<WriteOp<V>>, i: nat, now: int)
    requires i < |writes|
    ensures TableAfter(codec, writes + [writes[i].(now := now)]) == TableAfter(codec, writes)
  {
    var again := writes[i].(now := now);
    FirstWriteWins(codec, writes, i);
    assert (writes + [again])[..|writes|] == writes;
  }

  /** Two such writes: each id or key holds a NUL, and they share a row. */
  lemma NulBreaksReadBack<V(!new)>(codec: Codec<V>, v: V)
    requires codec.Sound()
    ensures var writes := [WriteOp("a", "b\0c", v, 1), WriteOp("a\0b", "c", v, 2)];
            HashOf(codec, writes[0]) == HashOf(codec, writes[1]) && !ReadsBackAt(codec, writes, 1)
  {
    var one, two := WriteOp("a", "b\0c", v, 1), WriteOp("a\0b", "c", v, 2);
    assert Frame(one.agentId, one.key, codec.canonical(v)) == Frame(two.agentId, two.key, codec.canonical(v));
    Overshadowed(codec, one, two);
  }
}
