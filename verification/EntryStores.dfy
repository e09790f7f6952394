/**
  The durable entry store (core/src/store/mod.rs and core/src/store/journal.rs):
  the in-memory index over an append-only journal whose writes may fail at any
  byte.
 */
module EntryStores {
  import opened Base
  import opened Items
  import opened IdSums
  import opened Geometry
  import opened Entries
  import opened OrderIndexes
  import opened Vaults
  import BalancedTrees
  import J = Journals

  type StoreError = J.StoreError

  /** The file of a journal: the committed records, then what a failed append left behind. */
  ghost predicate Holds(c: Crypto, file: seq<byte>, log: seq<Entry>, tail: seq<byte>, e: Entry) {
    && J.Committable(c, log)
    && J.TornTail(c, log, e, |tail|, tail)
    && file == J.MAGIC + J.Records(log) + tail
    && |file| <= J.MAX_BYTES
  }

  class Journal {
    ghost const crypto: Crypto
    var file: seq<byte>
    var len: nat
    /** The committed entries, in order of commitment. */
    ghost var log: seq<Entry>
    /** The bytes beyond `len`, and the entry whose append left them. */
    ghost var tail: seq<byte>
    ghost var pending: Entry

    ghost predicate Valid()
      reads this
    {
      && Holds(crypto, file, log, tail, pending)
      && len == |J.MAGIC + J.Records(log)|
    }

    constructor (ghost c: Crypto, ghost entries: seq<Entry>, ghost last: Entry, contents: seq<byte>)
      requires Holds(c, contents, entries, [], last)
      ensures Valid() && crypto == c && log == entries && tail == [] && file == contents
    {
      crypto, log, tail, pending := c, entries, [], last;
      file := contents;
      len := |contents|;
      new;
      assert J.MAGIC + J.Records(log) + [] == J.MAGIC + J.Records(log);
    }

    /**
      Appends one record. Whatever the fault, the committed records stay; only a
      fault-free append within the capacity commits the entry.
     */
    method Append(e: Entry, fault: J.Fault) returns (r: Result<(), StoreError>)
      requires Valid() && |J.Held(crypto, log)| < J.MAX_ENTRIES && e.sortKey < U64_MAX && crypto.verifies(e)
      modifies this
      ensures Valid()
      ensures r.Ok? <==> Fits(old(len), e) && fault.NoFault?
      ensures !Fits(old(len), e) ==> r == Err(J.Capacity) && file == old(file)
      ensures log == if r.Ok? then old(log) + [e] else old(log)
      ensures r.Err? ==> len == old(len)
      ensures r.Ok? ==> file == J.MAGIC + J.Records(log) && tail == []
      ensures Fits(old(len), e) && fault.TornAt? ==> file == file[..old(len)] + J.Record(e)[..Clamp(fault.written, |J.Record(e)|)]
      ensures fault.TruncateFails? ==> file == old(file)
    {
      hide J.Committable, J.Records, J.Held, Encode, J.Record, IdOf;
      var bytes := Encode(e);
      J.RecordSize(e);
      if |bytes| > J.MAX_RECORD || len + 4 + |bytes| > J.MAX_BYTES {
        return Err(J.Capacity);
      }
      if fault.TruncateFails? {
        return Err(J.StoreError.Storage("set_len"));
      }
      J.CommittableSnoc(crypto, log, e);
      assert file[..len] == J.MAGIC + J.Records(log);
      file := file[..len];
      var record := LeBytes(|bytes|, 4) + bytes;
      assert record == J.Record(e) by { J.RecordIs(e); }
      if fault.TornAt? {
        var k := Clamp(fault.written, |record|);
        file := file + record[..k];
        tail, pending := record[..k], e;
        return Err(J.StoreError.Storage("write"));
      }
      J.HeldSnoc(crypto, log, e);
      file := file + record;
      len := len + 4 + |bytes|;
      log, tail, pending := log + [e], [], e;
      assert file == J.MAGIC + J.Records(log);
      assert file == J.MAGIC + J.Records(log) + [];
      r := Ok(());
    }
  }

  /** Whether an entry may be appended to a journal of this length. */
  predicate Fits(len: nat, e: Entry) {
    |Encode(e)| <= J.MAX_RECORD && len + 4 + |Encode(e)| <= J.MAX_BYTES
  }

  function Clamp(n: nat, max: nat): nat {
    if n < max then n else max
  }

  class EntryStore {
    const crypto: Crypto
    var entries: map<Id, Entry>
    const order: OrderIndex
    var journal: Journal?

    /** The contents as a value. */
    ghost function View(): Vault
      reads this, order
    {
      Vault(entries, order.Contents())
    }

    ghost function Repr(): set<object>
      reads this
    {
      if journal == null then {this, order} else {this, order, journal}
    }

    ghost predicate Valid()
      reads this, order, journal
    {
      && order.Valid()
      && Sound(crypto, View())
      && (journal != null ==> Durable(crypto, entries, journal))
    }

    /** An empty store in memory. */
    constructor (c: Crypto)
      ensures Valid() && View() == EMPTY && crypto == c && journal == null && fresh(Repr())
    {
      crypto := c;
      entries := map[];
      order := new OrderIndex();
      journal := null;
    }

    /**
      Verifies and inserts. Every outcome is spelled out: the two rejections and
      the duplicate change nothing, a journal failure leaves the memory and the
      committed records alone, and success extends both alike.
     */
    method Insert(e: Entry, fault: J.Fault) returns (r: Result<bool, StoreError>)
      requires Valid() && |entries| < NIL
      modifies Repr()
      ensures Valid() && journal == old(journal)
      ensures var spec := Vaults.Insert(crypto, old(View()), e);
              && (r.Ok? ==> spec.Ok? && spec.value == (View(), r.value))
              && (r.Err? ==> View() == old(View()))
              && (spec.Err? ==> r.Err? && r.error == spec.error)
              && (spec.Ok? && r.Err? ==> journal != null && spec.value.1)
      ensures journal == null ==> (r.Ok? <==> Vaults.Insert(crypto, old(View()), e).Ok?)
      ensures journal != null && r.Ok? && r.value ==> journal.log == old(journal.log) + [e] && journal.tail == []
      ensures journal != null && !(r.Ok? && r.value) ==> journal.log == old(journal.log) && journal.len == old(journal.len)
      ensures journal != null && Vaults.Insert(crypto, old(View()), e).Ok? && IdOf(crypto, e) !in old(entries) ==>
                (r.Ok? <==> |old(entries)| < J.MAX_ENTRIES && Fits(old(journal.len), e) && fault.NoFault?)
    {
      hide IdOf, Encode, Sorted, BalancedTrees.Inserted, Durable, Sound, Fits;
      if e.sortKey == U64_MAX {
        return Err(J.SortKeyReserved);
      }
      if !crypto.verifies(e) {
        return Err(J.BadSignature);
      }
      var id := IdOf(crypto, e);
      if id in entries {
        return Ok(false);
      }
      InsertSound(crypto, View(), e);
      SoundCounts(crypto, View());
      if journal != null {
        var committed := Commit(e, fault);
        if committed.Err? {
          return Err(committed.error);
        }
      }
      var _ := order.Insert(Item(e.sortKey, id));
      entries := entries[id := e];
      r := Ok(true);
    }

    /** Makes room for and appends an entry to the journal. */
    method Commit(e: Entry, fault: J.Fault) returns (r: Result<(), StoreError>)
      requires journal != null && Durable(crypto, entries, journal)
      requires e.sortKey < U64_MAX && crypto.verifies(e) && IdOf(crypto, e) !in entries
      modifies journal
      ensures r.Ok? <==> |entries| < J.MAX_ENTRIES && Fits(old(journal.len), e) && fault.NoFault?
      ensures journal.log == if r.Ok? then old(journal.log) + [e] else old(journal.log)
      ensures r.Ok? ==> journal.tail == []
      ensures r.Err? ==> journal.len == old(journal.len)
      ensures Durable(crypto, if r.Ok? then entries[IdOf(crypto, e) := e] else entries, journal)
    {
      hide IdOf, Encode, Fits, J.Held, Holds;
      if |entries| >= J.MAX_ENTRIES {
        return Err(J.Capacity);
      }
      J.HeldSnoc(crypto, journal.log, e);
      r := journal.Append(e, fault);
    }

    /** The items of a sort-key window, copied out in order. */
    method Snapshot(since: u64, until: u64) returns (items: seq<Item>)
      requires Valid()
      ensures items == Window(order.Contents(), since, until)
      ensures Sorted(items)
      ensures forall x :: x in items <==> x in order.Contents() && since <= x.sortKey < until
    {
      hide Key, Rank, IdOf;
      WindowExact(order.Contents(), since, until);
      var lo := order.LowerBoundOf(Item(since, seq(32, _ => 0)));
      var hi := order.LowerBoundOf(Item(until, seq(32, _ => 0)));
      assert Item(since, seq(32, _ => 0)) == From(since) && Item(until, seq(32, _ => 0)) == From(until);
      items := CollectRange(order, lo, if hi < lo then lo else hi);
    }
  }

  /** The journal and the memory hold the same entries. */
  ghost predicate Durable(c: Crypto, entries: map<Id, Entry>, journal: Journal)
    reads journal
  {
    && journal.Valid() && journal.crypto == c
    && entries == J.Held(c, journal.log)
  }

  lemma SoundCounts(c: Crypto, v: Vault)
    requires Sound(c, v)
    ensures |v.order| == |v.entries| && forall x :: x in v.order ==> x.id in v.entries
  {
  }

  /* ----- opening ----- */

  /** What opening a file yields: the entries, and the file it continues with. */
  function OpenSpec(c: Crypto, file: seq<byte>): Result<(map<Id, Entry>, seq<byte>), StoreError> {
    if |file| > J.MAX_BYTES then Err(J.Capacity)
    else if |file| < |J.MAGIC| then
      if file == J.MAGIC[..|file|] then Ok((map[], J.MAGIC)) else Err(J.StoreError.Storage("unrecognized entry journal"))
    else if file[..|J.MAGIC|] != J.MAGIC then Err(J.StoreError.Storage("unrecognized entry journal"))
    else
      var (entries, offset) :- J.Recover(c, file, |J.MAGIC|, map[]);
      Ok((entries, file[..offset]))
  }

  /**
    Opens a journal file: completes a header that creation left unfinished,
    replays the records, cuts off an incomplete last one.
   */
  method Open(c: Crypto, contents: seq<byte>) returns (r: Result<EntryStore, StoreError>)
    ensures OpenSpec(c, contents).Err? ==> r == Err(OpenSpec(c, contents).error)
    ensures OpenSpec(c, contents).Ok? ==>
              && r.Ok? && r.value.Valid() && r.value.crypto == c && fresh(r.value.Repr())
              && r.value.entries == OpenSpec(c, contents).value.0
              && r.value.journal != null
              && r.value.journal.file == J.MAGIC + J.Records(r.value.journal.log) == OpenSpec(c, contents).value.1
  {
    hide J.Recover, J.Records, J.Held, J.Committable, IdOf, Encode, ReadEntry, LittleEndian, Sound;
    var file := contents;
    if |file| > J.MAX_BYTES {
      return Err(J.Capacity);
    }
    if |file| < |J.MAGIC| {
      if file != J.MAGIC[..|file|] {
        return Err(J.StoreError.Storage("unrecognized entry journal"));
      }
      file := J.MAGIC;
      J.RecoverEnd(c, file, map[]);
    }
    if file[..|J.MAGIC|] != J.MAGIC {
      return Err(J.StoreError.Storage("unrecognized entry journal"));
    }
    var store := new EntryStore(c);
    r := Replay(store, file);
  }

  /** Reads records into an empty store until the file ends or a record is cut short. */
  method Replay(store: EntryStore, contents: seq<byte>) returns (r: Result<EntryStore, StoreError>)
    requires store.Valid() && store.View() == EMPTY && store.journal == null
    requires |J.MAGIC| <= |contents| <= J.MAX_BYTES && contents[..|J.MAGIC|] == J.MAGIC
    modifies store.Repr()
    ensures var spec := J.Recover(store.crypto, contents, |J.MAGIC|, map[]);
            && (spec.Err? ==> r == Err(spec.error))
            && (spec.Ok? ==>
                  && r == Ok(store) && store.Valid() && store.entries == spec.value.0
                  && store.journal != null && fresh(store.journal)
                  && store.journal.file == J.MAGIC + J.Records(store.journal.log) == contents[..spec.value.1])
  {
    hide J.Recover, J.Records, J.Held, J.Committable, Sound;
    var c := store.crypto;
    var offset := |J.MAGIC|;
    ghost var log: seq<Entry> := [];
    J.NothingHeld(c);
    J.NothingCommitted(c);
    while offset < |contents|
      invariant store.Valid() && store.journal == null
      invariant Replayed(c, contents, offset, log, store.entries)
      invariant J.Recover(c, contents, |J.MAGIC|, map[]) == J.Recover(c, contents, offset, store.entries)
    {
      var next;
      next, log := ReplayRecord(store, contents, offset, log);
      if next.Err? {
        return Err(next.error);
      }
      if next.value.None? {
        break;
      }
      offset := next.value.value;
    }
    J.RecoverEnd(c, contents, store.entries);
    ghost var last := Entry(seq(32, _ => 0), 0, 0, [], seq(64, _ => 0));
    var file := contents[..offset];
    assert file + [] == file;
    store.journal := new Journal(c, log, last, file);
    r := Ok(store);
  }

  /** The bytes before `offset` spell the log whose entries are held. */
  ghost predicate Replayed(c: Crypto, file: seq<byte>, offset: nat, log: seq<Entry>, entries: map<Id, Entry>) {
    && |J.MAGIC| <= offset <= |file|
    && file[..offset] == J.MAGIC + J.Records(log)
    && J.Committable(c, log) && entries == J.Held(c, log) && |entries| <= J.MAX_ENTRIES
  }

  /** Reads the record at `offset`; returns where the next one starts, or none at the cut. */
  method ReplayRecord(store: EntryStore, file: seq<byte>, offset: nat, ghost log: seq<Entry>)
    returns (r: Result<Option<nat>, StoreError>, ghost log': seq<Entry>)
    requires store.Valid() && store.journal == null && Replayed(store.crypto, file, offset, log, store.entries)
    modifies store.Repr()
    ensures store.Valid() && store.journal == null
    ensures var spec := J.Recover(store.crypto, file, offset, old(store.entries));
            match r
            case Err(e) => spec == Err(e)
            case Ok(None) => spec == Ok((store.entries, offset)) && log' == log && store.entries == old(store.entries)
            case Ok(Some(next)) =>
              && offset < next && Replayed(store.crypto, file, next, log', store.entries)
              && spec == J.Recover(store.crypto, file, next, store.entries)
  {
    hide J.Records, J.Held, J.Committable, J.Storable, IdOf, Encode, ReadEntry, LittleEndian, Sound, BalancedTrees.Inserted;
    log' := log;
    if |file| - offset < 4 {
      return Ok(None), log;
    }
    var size := LittleEndian(file[offset..offset + 4]);
    if size == 0 || size > J.MAX_RECORD {
      return Err(J.StoreError.Storage("invalid journal record length")), log;
    }
    if |file| - offset - 4 < size {
      return Ok(None), log;
    }
    var bytes := file[offset + 4..offset + 4 + size];
    var entry := ReadEntry(bytes);
    if entry.None? {
      return Err(J.StoreError.Storage("undecodable journal record")), log;
    }
    var e := entry.value.0;
    if Encode(e) != bytes {
      return Err(J.StoreError.Storage("noncanonical journal record")), log;
    }
    if |store.entries| >= J.MAX_ENTRIES {
      return Err(J.Capacity), log;
    }
    var inserted := store.Insert(e, J.NoFault);
    if inserted.Err? {
      return Err(inserted.error), log;
    }
    J.ReplayedRecord(store.crypto, file, offset, log, e);
    log' := log + [e];
    r := Ok(Some(offset + 4 + size));
  }

  /**
    Recovery: whatever appends and failures a journal went through, opening what
    is on disk succeeds with exactly the committed entries, plus the one being
    written if it arrived whole, and continues from a record boundary.
   */
  lemma ReopenAfterCrash(c: Crypto, file: seq<byte>, log: seq<Entry>, tail: seq<byte>, e: Entry)
    requires Holds(c, file, log, tail, e)
    ensures var kept := J.Survivors(log, e, |tail|);
            && OpenSpec(c, file) == Ok((J.Held(c, kept), J.MAGIC + J.Records(kept)))
            && Holds(c, J.MAGIC + J.Records(kept), kept, [], e)
  {
    hide J.Recover, J.Records, J.Held, J.Committable, J.Record, IdOf;
    J.RecoverAfterCrash(c, log, e, |tail|, tail);
    var kept := J.Survivors(log, e, |tail|);
    assert file[..|J.MAGIC|] == J.MAGIC;
    assert file[..|J.MAGIC + J.Records(kept)|] == J.MAGIC + J.Records(kept);
    assert J.MAGIC + J.Records(kept) + [] == J.MAGIC + J.Records(kept);
  }

  /** A creation interrupted at any byte of the header opens as an empty journal. */
  lemma ReopenUnfinishedHeader(c: Crypto, k: nat)
    requires k <= |J.MAGIC|
    ensures OpenSpec(c, J.MAGIC[..k]) == Ok((map[], J.MAGIC))
  {
    hide J.Recover;
    if k == |J.MAGIC| {
      assert J.MAGIC[..k] == J.MAGIC;
      J.RecoverEnd(c, J.MAGIC, map[]);
    }
  }

  /** Opening twice is opening once. */
  lemma ReopenIsStable(c: Crypto, file: seq<byte>)
    requires OpenSpec(c, file).Ok?
    ensures var (entries, file') := OpenSpec(c, file).value;
            OpenSpec(c, file') == Ok((entries, file'))
  {
    hide J.Recover;
    if |file| < |J.MAGIC| {
      J.RecoverEnd(c, J.MAGIC, map[]);
    } else {
      J.RecoverPrefix(c, file, |J.MAGIC|, map[]);
      var end := J.Recover(c, file, |J.MAGIC|, map[]).value.1;
      assert file[..end][..|J.MAGIC|] == file[..|J.MAGIC|] && file[..end][..end] == file[..end];
    }
  }

  /**
    A whole life of a store: any insertions, each meeting any fault, then a crash
    and a reopening of the file as it lies. What comes back is what the store
    held, or that and the one entry whose record was complete on disk.
   */
  method CrashAndReopen(store: EntryStore, work: seq<(Entry, J.Fault)>) returns (again: EntryStore)
    requires store.Valid() && store.journal != null
    modifies store.Repr()
    ensures store.Valid() && store.journal == old(store.journal)
    ensures again.Valid() && again.journal != null && again.crypto == store.crypto
    ensures var tail, last := store.journal.tail, store.journal.pending;
            again.entries == if tail == J.Record(last) then J.Keep(store.entries, IdOf(store.crypto, last), last) else store.entries
    ensures again.journal.file == J.MAGIC + J.Records(again.journal.log) <= store.journal.file
    ensures |again.entries| <= J.MAX_ENTRIES && |again.journal.file| <= J.MAX_BYTES
  {
    hide J.Records, J.Held, J.Committable, J.Storable, J.Keep, J.Record, IdOf, Encode, Sound, Fits, OpenSpec, Vaults.Insert;
    for i := 0 to |work|
      invariant store.Valid() && store.journal == old(store.journal)
    {
      J.HeldSmall(store.crypto, store.journal.log);
      var _ := store.Insert(work[i].0, work[i].1);
    }
    ghost var log, tail, last := store.journal.log, store.journal.tail, store.journal.pending;
    ReopenAfterCrash(store.crypto, store.journal.file, log, tail, last);
    J.SurvivorsHeld(store.crypto, log, last, tail);
    ghost var kept := J.Survivors(log, last, |tail|);
    J.HeldSmall(store.crypto, kept);
    J.SurvivorsPrefix(log, last, tail);
    var r := Open(store.crypto, store.journal.file);
    again := r.value;
  }
}
