/**
  The append-only journal (core/src/store/journal.rs) over an abstract file: a
  byte sequence on which a write may stop after any number of bytes.
 */
module Journals {
  import opened Base
  import opened Items
  import opened IdSums
  import opened Entries

  const MAGIC: seq<byte> := [0x52, 0x41, 0x43, 0x4E, 0x45, 0x54, 0x30, 0x31]
  const MAX_RECORD: nat := 1_048_576
  const MAX_BYTES: nat := 64 * 1024 * 1024
  const MAX_ENTRIES: nat := 10_000

  datatype StoreError = Storage(why: string) | Capacity | BadSignature | SortKeyReserved

  /** What the file system does to one append. */
  datatype Fault =
    | NoFault
    | TruncateFails
    | TornAt(written: nat)

  /** A record: the entry's length as four little-endian octets, then the entry. */
  function Record(e: Entry): seq<byte> {
    LeBytes(|Encode(e)|, 4) + Encode(e)
  }

  /** The records of a log, in order. */
  function Records(log: seq<Entry>): seq<byte> {
    if log == [] then [] else Records(log[..|log| - 1]) + Record(log[|log| - 1])
  }

  /** The entries a log holds, by id; the first one stays. */
  function Held(c: Crypto, log: seq<Entry>): map<Id, Entry> {
    if log == [] then map[]
    else Keep(Held(c, log[..|log| - 1]), IdOf(c, log[|log| - 1]), log[|log| - 1])
  }

  function Keep(entries: map<Id, Entry>, id: Id, e: Entry): map<Id, Entry> {
    if id in entries then entries else entries[id := e]
  }

  /** The checks of an in-memory insertion. */
  function Admit(c: Crypto, entries: map<Id, Entry>, e: Entry): Result<(map<Id, Entry>, bool), StoreError> {
    if e.sortKey == U64_MAX then Err(SortKeyReserved)
    else if !c.verifies(e) then Err(BadSignature)
    else if IdOf(c, e) in entries then Ok((entries, false))
    else Ok((entries[IdOf(c, e) := e], true))
  }

  /** Reads records from `offset` until the file ends or a record is cut short. */
  function Recover(c: Crypto, file: seq<byte>, offset: nat, entries: map<Id, Entry>): (r: Result<(map<Id, Entry>, nat), StoreError>)
    requires offset <= |file|
    ensures r.Ok? ==> offset <= r.value.1 <= |file|
    decreases |file| - offset
  {
    if |file| - offset < 4 then Ok((entries, offset))
    else
      var size := LittleEndian(file[offset..offset + 4]);
      if size == 0 || size > MAX_RECORD then Err(StoreError.Storage("invalid journal record length"))
      else if |file| - offset - 4 < size then Ok((entries, offset))
      else
        var bytes := file[offset + 4..offset + 4 + size];
        match ReadEntry(bytes)
        case None => Err(StoreError.Storage("undecodable journal record"))
        case Some((e, _)) =>
          if Encode(e) != bytes then Err(StoreError.Storage("noncanonical journal record"))
          else if |entries| >= MAX_ENTRIES then Err(Capacity)
          else
            var (entries', _) :- Admit(c, entries, e);
            Recover(c, file, offset + 4 + size, entries')
  }

  /** A log whose entries were acceptable when they were written. */
  ghost predicate Committable(c: Crypto, log: seq<Entry>) {
    forall i :: 0 <= i < |log| ==> Storable(c, log[i]) && |Held(c, log[..i])| < MAX_ENTRIES
  }

  ghost predicate Storable(c: Crypto, e: Entry) {
    e.sortKey < U64_MAX && c.verifies(e) && |Encode(e)| <= MAX_RECORD
  }

  lemma HeldSnoc(c: Crypto, log: seq<Entry>, e: Entry)
    ensures Held(c, log + [e]) == Keep(Held(c, log), IdOf(c, e), e)
    ensures Records(log + [e]) == Records(log) + Record(e)
  {
    assert (log + [e])[..|log|] == log;
  }

  lemma SizeField(e: Entry)
    requires |Encode(e)| <= MAX_RECORD
    ensures LittleEndian(LeBytes(|Encode(e)|, 4)) == |Encode(e)| > 0
  {
    hide Encode;
    EncodedSize(e);
    assert Pow256(4) == 0x1_0000_0000;
    ValueOfLeBytes(|Encode(e)|, 4);
  }

  lemma RecordSlices(pre: seq<byte>, e: Entry, post: seq<byte>)
    ensures var file, size := pre + Record(e) + post, |Encode(e)|;
            && |file| == |pre| + 4 + size + |post|
            && file[|pre|..|pre| + 4] == LeBytes(size, 4)
            && file[|pre| + 4..|pre| + 4 + size] == Encode(e)
  {
    hide Encode, LeBytes;
  }

  lemma ReadBack(e: Entry)
    ensures ReadEntry(Encode(e)) == Some((e, []))
  {
    hide Encode, ReadEntry;
    RoundTrip(e, []);
    assert Encode(e) + [] == Encode(e);
  }

  /** One complete record at `offset` is read back and inserted. */
  lemma RecoverRecord(c: Crypto, pre: seq<byte>, e: Entry, post: seq<byte>, entries: map<Id, Entry>)
    requires Storable(c, e) && |entries| < MAX_ENTRIES
    ensures var file := pre + Record(e) + post;
            && |pre| + |Record(e)| <= |file|
            && Recover(c, file, |pre|, entries) == Recover(c, file, |pre| + |Record(e)|, Keep(entries, IdOf(c, e), e))
  {
    hide Encode, LeBytes, LittleEndian, ReadEntry, Record, IdOf;
    RecordSize(e);
    SizeField(e);
    RecordSlices(pre, e, post);
    ReadBack(e);
  }

  /** A record cut anywhere before its end is not read at all. */
  lemma RecoverTorn(c: Crypto, pre: seq<byte>, e: Entry, k: nat, entries: map<Id, Entry>)
    requires |Encode(e)| <= MAX_RECORD && k < |Record(e)|
    ensures Recover(c, pre + Record(e)[..k], |pre|, entries) == Ok((entries, |pre|))
  {
    hide Encode, LeBytes, LittleEndian, ReadEntry;
    var file := pre + Record(e)[..k];
    if k >= 4 {
      SizeField(e);
      assert file[|pre|..|pre| + 4] == LeBytes(|Encode(e)|, 4);
    }
  }

  /** What follows the committed records: nothing, or part of one more record. */
  ghost predicate TornTail(c: Crypto, log: seq<Entry>, e: Entry, k: nat, tail: seq<byte>) {
    k <= |Record(e)| && tail == Record(e)[..k] && (k > 0 ==> Committable(c, log + [e]))
  }

  lemma {:induction false} RecordsConcat(a: seq<Entry>, b: seq<Entry>)
    ensures Records(a + b) == Records(a) + Records(b)
  {
    hide Record;
    if b == [] {
      assert a + b == a;
    } else {
      var n := |b| - 1;
      assert (a + b)[..|a + b| - 1] == a + b[..n];
      RecordsConcat(a, b[..n]);
    }
  }

  lemma Regroup<T>(m: seq<T>, a: seq<T>, b: seq<T>, c: seq<T>, t: seq<T>)
    ensures m + ((a + b) + c) + t == (m + a) + b + (c + t)
    ensures m + (a + b) == (m + a) + b
  {
  }

  lemma RecordsSplit(m: seq<byte>, done: seq<Entry>, e: Entry, rest: seq<Entry>, tail: seq<byte>)
    ensures m + Records(done + [e] + rest) + tail == (m + Records(done)) + Record(e) + (Records(rest) + tail)
    ensures m + Records(done + [e]) == (m + Records(done)) + Record(e)
  {
    hide Record, Records;
    RecordsConcat(done + [e], rest);
    RecordsConcat(done, [e]);
    RecordsOne(e);
    Regroup(m, Records(done), Record(e), Records(rest), tail);
  }

  lemma RecordsOne(e: Entry)
    ensures Records([e]) == Record(e)
  {
    assert [e][..0] == [];
  }

  /** Reading the committed records rebuilds exactly the committed entries. */
  lemma {:induction false} RecoverRecords(c: Crypto, log: seq<Entry>, n: nat, tail: seq<byte>)
    requires Committable(c, log) && n <= |log|
    ensures var file := MAGIC + Records(log) + tail;
            |MAGIC + Records(log[..n])| <= |file|
            && Recover(c, file, |MAGIC|, map[]) == Recover(c, file, |MAGIC + Records(log[..n])|, Held(c, log[..n]))
  {
    hide Record, Recover, Encode, IdOf, Records, Held;
    if n > 0 {
      RecoverRecords(c, log, n - 1, tail);
      var done, e := log[..n - 1], log[n - 1];
      assert done + [e] == log[..n] && done + [e] + log[n..] == log;
      RecordsSplit(MAGIC, done, e, log[n..], tail);
      RecoverRecord(c, MAGIC + Records(done), e, Records(log[n..]) + tail, Held(c, done));
      HeldSnoc(c, done, e);
    } else {
      assert log[..0] == [];
      NothingHeld(c);
    }
  }

  lemma NothingHeld(c: Crypto)
    ensures Held(c, []) == map[] && Records([]) == []
  {
  }

  lemma CommittableSnoc(c: Crypto, log: seq<Entry>, e: Entry)
    ensures Committable(c, log + [e]) <==> Committable(c, log) && Storable(c, e) && |Held(c, log)| < MAX_ENTRIES
  {
    hide Storable, Held;
    var l := log + [e];
    assert l[|log|] == e && l[..|log|] == log;
    forall i | 0 <= i < |log| ensures l[i] == log[i] && l[..i] == log[..i] {
    }
  }

  lemma RecordIs(e: Entry)
    ensures Record(e) == LeBytes(|Encode(e)|, 4) + Encode(e)
  {
  }

  /** What recovery finds behind the committed records. */
  function Survivors(log: seq<Entry>, e: Entry, k: nat): seq<Entry> {
    if k == |Record(e)| then log + [e] else log
  }

  /**
    Crash recovery: after any sequence of commits, with the next record written
    up to any byte, recovery succeeds with exactly the committed entries, plus
    the last one when all of its bytes arrived, and stops at a record boundary.
   */
  lemma RecoverAfterCrash(c: Crypto, log: seq<Entry>, e: Entry, k: nat, tail: seq<byte>)
    requires Committable(c, log) && TornTail(c, log, e, k, tail)
    ensures var kept := Survivors(log, e, k);
            && Committable(c, kept)
            && Recover(c, MAGIC + Records(log) + tail, |MAGIC|, map[]) == Ok((Held(c, kept), |MAGIC + Records(kept)|))
            && MAGIC + Records(kept) <= MAGIC + Records(log) + tail
  {
    hide Record, Recover, Encode, IdOf, Held, Records;
    assert log[..|log|] == log;
    if k == |Record(e)| {
      RecordSize(e);
      assert tail == Record(e);
      RecoverWhole(c, log, e, tail);
    } else {
      RecoverRecords(c, log, |log|, tail);
      RecoverCut(c, MAGIC + Records(log), e, k, tail, Held(c, log), log);
    }
  }

  lemma RecordSize(e: Entry)
    ensures |Record(e)| == 4 + |Encode(e)| > 4
  {
    EncodedSize(e);
  }

  lemma RecoverCut(c: Crypto, pre: seq<byte>, e: Entry, k: nat, tail: seq<byte>, entries: map<Id, Entry>, log: seq<Entry>)
    requires TornTail(c, log, e, k, tail) && k < |Record(e)|
    ensures Recover(c, pre + tail, |pre|, entries) == Ok((entries, |pre|))
  {
    hide Record, Encode, IdOf, Held, Records;
    if k > 0 {
      CommittableSnoc(c, log, e);
      RecoverTorn(c, pre, e, k, entries);
    }
  }

  lemma RecoverWhole(c: Crypto, log: seq<Entry>, e: Entry, tail: seq<byte>)
    requires Committable(c, log + [e]) && tail == Record(e)
    ensures Recover(c, MAGIC + Records(log) + tail, |MAGIC|, map[]) == Ok((Held(c, log + [e]), |MAGIC + Records(log + [e])|))
    ensures MAGIC + Records(log + [e]) == MAGIC + Records(log) + tail
  {
    hide Record, Encode, IdOf, Held;
    var full := log + [e];
    assert full[..|full| - 1] == log && full[..|full|] == full;
    RecoverRecords(c, full, |full|, []);
    assert MAGIC + Records(full) + [] == MAGIC + Records(log) + tail;
    RecoverEnd(c, MAGIC + Records(full), Held(c, full));
  }

  lemma RecoverEnd(c: Crypto, file: seq<byte>, entries: map<Id, Entry>)
    ensures Recover(c, file, |file|, entries) == Ok((entries, |file|))
  {
  }

  lemma NothingCommitted(c: Crypto)
    ensures Committable(c, [])
  {
  }

  /** An accepted record extends the log that the bytes before it spell. */
  lemma ReplayedRecord(c: Crypto, file: seq<byte>, offset: nat, log: seq<Entry>, e: Entry)
    requires offset + 4 + |Encode(e)| <= |file| && |Encode(e)| <= MAX_RECORD
    requires file[..offset] == MAGIC + Records(log)
    requires LittleEndian(file[offset..offset + 4]) == |Encode(e)|
    requires file[offset + 4..offset + 4 + |Encode(e)|] == Encode(e)
    requires Committable(c, log) && e.sortKey < U64_MAX && c.verifies(e) && |Held(c, log)| < MAX_ENTRIES
    ensures file[..offset + 4 + |Encode(e)|] == MAGIC + Records(log + [e])
    ensures Committable(c, log + [e])
    ensures Held(c, log + [e]) == Keep(Held(c, log), IdOf(c, e), e)
  {
    hide Encode, LeBytes, LittleEndian, Records, Held, Committable, IdOf, Keep, Record;
    CommittableSnoc(c, log, e);
    HeldSnoc(c, log, e);
    LeBytesOfValue(file[offset..offset + 4]);
    RecordIs(e);
    var n := offset + 4 + |Encode(e)|;
    assert file[..n] == file[..offset] + (file[offset..offset + 4] + file[offset + 4..n]);
    Regroup(MAGIC, Records(log), Record(e), [], []);
  }

  /** What recovery keeps is recovered in full, with nothing left over. */
  lemma {:induction false} RecoverPrefix(c: Crypto, file: seq<byte>, offset: nat, entries: map<Id, Entry>)
    requires offset <= |file| && Recover(c, file, offset, entries).Ok?
    ensures var (kept, end) := Recover(c, file, offset, entries).value;
            Recover(c, file[..end], offset, entries) == Ok((kept, end))
    decreases |file| - offset
  {
    hide Encode, ReadEntry, LittleEndian, IdOf;
    var end := Recover(c, file, offset, entries).value.1;
    if end == offset {
      RecoverEnd(c, file[..end], entries);
    } else {
      var size := LittleEndian(file[offset..offset + 4]);
      var next := offset + 4 + size;
      var bytes := file[offset + 4..next];
      var entries' := Admit(c, entries, ReadEntry(bytes).value.0).value.0;
      assert Recover(c, file, offset, entries) == Recover(c, file, next, entries');
      RecoverPrefix(c, file, next, entries');
      assert file[..end][offset..offset + 4] == file[offset..offset + 4];
      assert file[..end][offset + 4..next] == bytes;
    }
  }

  lemma HeldSmall(c: Crypto, log: seq<Entry>)
    requires Committable(c, log)
    ensures |Held(c, log)| <= MAX_ENTRIES
  {
    hide IdOf, Storable;
    if log != [] {
      var h := Held(c, log[..|log| - 1]);
      assert Storable(c, log[|log| - 1]) && |h| < MAX_ENTRIES;
      var e := log[|log| - 1];
      assert h[IdOf(c, e) := e].Keys == h.Keys + {IdOf(c, e)};
    }
  }

  lemma SurvivorsHeld(c: Crypto, log: seq<Entry>, e: Entry, tail: seq<byte>)
    requires |tail| <= |Record(e)| && tail == Record(e)[..|tail|]
    ensures Held(c, Survivors(log, e, |tail|)) == if tail == Record(e) then Keep(Held(c, log), IdOf(c, e), e) else Held(c, log)
  {
    hide Record, Held, Keep, IdOf;
    HeldSnoc(c, log, e);
  }

  lemma SurvivorsPrefix(log: seq<Entry>, e: Entry, tail: seq<byte>)
    requires |tail| <= |Record(e)| && tail == Record(e)[..|tail|]
    ensures MAGIC + Records(Survivors(log, e, |tail|)) <= MAGIC + Records(log) + tail
  {
    hide Record, Records;
    if |tail| == |Record(e)| {
      RecordsConcat(log, [e]);
      RecordsOne(e);
    }
  }
}
