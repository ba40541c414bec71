/** Moving the configuration key from its old file to the credential store
    (`src-tauri/src/config_store.rs`). Every file and store operation may fail at any call; a
    write may also be done without being acknowledged, or acknowledged without being done. */
module KeyMigration {
  import opened Text

  /** 32 key bytes, as one opaque value. */
  type Key = int

  /** The old key file: absent, or some text. */
  type OldFile = Option<string>

  /** The credential store's entry; `Unreadable` does not decode to a key. */
  datatype Store = NoEntry | Unreadable | Holds(key: Key)

  datatype Disk = Disk(file: OldFile, store: Store)

  /** What an operation reports, and whether it took place. */
  datatype Fate = Fate(reported: bool, done: bool)

  /** Faults of one call, and the random key it would draw. */
  datatype Faults = Faults(fileReadable: bool, answers: nat -> bool, write: Fate, remove: Fate, random: Key)

  datatype Error = FileUnreadable | BadFile | StoreFailed | NotVerified | NotRemoved

  /** `decode` is `decode_key`: base64 text of exactly 32 bytes, or None. */
  type Decoder = string -> Option<Key>

  function Written(store: Store, key: Key, fate: Fate): (s: Store) {
    if fate.done then Holds(key) else store
  }

  /** The `n`-th read of a call: a key, no entry, or an error. */
  function ReadStore(store: Store, faults: Faults, n: nat): (r: Result<Option<Key>, Error>) {
    if !faults.answers(n) || store.Unreadable? then Failure(StoreFailed)
    else Success(if store.Holds? then Some(store.key) else None)
  }

  /** One call: the disk it leaves, its result, and whether it drew a fresh key. */
  function Call(decode: Decoder, disk: Disk, faults: Faults): (r: (Disk, Result<Key, Error>, bool)) {
    if !faults.fileReadable then (disk, Failure(FileUnreadable), false)
    else if disk.file.Some? then
      var key := decode(disk.file.value);
      if key.None? then (disk, Failure(BadFile), false)
      else
        var kept := disk.(store := Written(disk.store, key.value, faults.write));
        if !faults.write.reported then (kept, Failure(StoreFailed), false)
        else
          var back := ReadStore(kept.store, faults, 0);
          if back.Failure? then (kept, Failure(StoreFailed), false)
          else if back.value != Some(key.value) then (kept, Failure(NotVerified), false)
          else
            var left := kept.(file := if faults.remove.done then None else kept.file);
            if !faults.remove.reported then (left, Failure(NotRemoved), false)
            else (left, Success(key.value), false)
    else
      var found := ReadStore(disk.store, faults, 0);
      if found.Failure? then (disk, Failure(StoreFailed), false)
      else if found.value.Some? then (disk, Success(found.value.value), false)
      else
        var stored := disk.(store := Written(disk.store, faults.random, faults.write));
        if !faults.write.reported then (stored, Failure(StoreFailed), true)
        else
          var back := ReadStore(stored.store, faults, 1);
          if back.Failure? then (stored, Failure(StoreFailed), true)
          else if back.value != Some(faults.random) then (stored, Failure(NotVerified), true)
          else (stored, Success(faults.random), true)
  }

  class Keeper {
    const decode: Decoder
    var file: OldFile
    var store: Store

    constructor (decoder: Decoder, disk: Disk)
      ensures decode == decoder && Disk(file, store) == disk
    {
      decode, file, store := decoder, disk.file, disk.store;
    }

    method MigrateOrCreateKey(faults: Faults) returns (r: Result<Key, Error>, ghost drew: bool)
      modifies this
      ensures (Disk(file, store), r, drew) == Call(decode, old(Disk(file, store)), faults)
    {
      drew := false;
      var count := 0;
      if !faults.fileReadable { return Failure(FileUnreadable), drew; }
      if file.Some? {
        var key := decode(file.value);
        if key.None? { return Failure(BadFile), drew; }
        if faults.write.done { store := Holds(key.value); }
        if !faults.write.reported { return Failure(StoreFailed), drew; }
        var back := ReadStore(store, faults, count);
        if back.Failure? { return Failure(StoreFailed), drew; }
        if back.value != Some(key.value) { return Failure(NotVerified), drew; }
        if faults.remove.done { file := None; }
        if !faults.remove.reported { return Failure(NotRemoved), drew; }
        return Success(key.value), drew;
      }
      var found := ReadStore(store, faults, count);
      count := count + 1;
      if found.Failure? { return Failure(StoreFailed), drew; }
      if found.value.Some? { return Success(found.value.value), drew; }
      var key := faults.random;
      drew := true;
      if faults.write.done { store := Holds(key); }
      if !faults.write.reported { return Failure(StoreFailed), drew; }
      var back := ReadStore(store, faults, count);
      if back.Failure? { return Failure(StoreFailed), drew; }
      if back.value != Some(key) { return Failure(NotVerified), drew; }
      return Success(key), drew;
    }
  }

  // ---------------------------------------------------------------- any sequence of calls

  /** The disk before the `n`-th call of a sequence. */
  function DiskAt(decode: Decoder, start: Disk, calls: seq<Faults>, n: nat): (disk: Disk)
    requires n <= |calls|
  {
    if n == 0 then start else Call(decode, DiskAt(decode, start, calls, n - 1), calls[n - 1]).0
  }

  function ResultAt(decode: Decoder, start: Disk, calls: seq<Faults>, n: nat): (r: Result<Key, Error>)
    requires n < |calls|
  {
    Call(decode, DiskAt(decode, start, calls, n), calls[n]).1
  }

  function DrewAt(decode: Decoder, start: Disk, calls: seq<Faults>, n: nat): (drew: bool)
    requires n < |calls|
  {
    Call(decode, DiskAt(decode, start, calls, n), calls[n]).2
  }

  /** A removal that reports success without having happened is not a possible fault. */
  predicate Honest(faults: Faults) { faults.remove.reported ==> faults.remove.done }

  /** The key is in the store alone. */
  predicate Settled(disk: Disk, key: Key) { disk == Disk(None, Holds(key)) }

  /** In every call the old file is removed only once the store holds the key it has, is never
      replaced, and rules out a fresh key; a stored key is replaced only by the file's. */
  lemma FileOutlivesVerification(decode: Decoder, start: Disk, calls: seq<Faults>, n: nat)
    requires n < |calls|
    ensures var (before, after) := (DiskAt(decode, start, calls, n), DiskAt(decode, start, calls, n + 1));
      && (after.file == before.file || after.file.None?)
      && (before.file.Some? && after.file.None? ==>
        decode(before.file.value).Some? && after.store == Holds(decode(before.file.value).value))
      && (DrewAt(decode, start, calls, n) ==> before.file.None? && before.store.NoEntry?)
      && (after.store != before.store ==>
        if before.file.Some? then decode(before.file.value).Some? && after.store == Holds(decode(before.file.value).value)
        else before.store.NoEntry? && after.store == Holds(calls[n].random))
  {
  }

  lemma {:induction false} SettledForGood(decode: Decoder, start: Disk, calls: seq<Faults>, n: nat, m: nat, key: Key)
    requires n <= m <= |calls| && Settled(DiskAt(decode, start, calls, n), key)
    ensures Settled(DiskAt(decode, start, calls, m), key)
    decreases m
  {
    if n < m {
      SettledForGood(decode, start, calls, n, m - 1, key);
    }
  }

  /** Once a call has returned a key, every later call that succeeds returns that key. */
  lemma OneKeyForever(decode: Decoder, start: Disk, calls: seq<Faults>, n: nat, m: nat)
    requires n < m < |calls| && Honest(calls[n])
    requires ResultAt(decode, start, calls, n).Success? && ResultAt(decode, start, calls, m).Success?
    ensures ResultAt(decode, start, calls, n) == ResultAt(decode, start, calls, m)
  {
    var key := ResultAt(decode, start, calls, n).value;
    assert Settled(DiskAt(decode, start, calls, n + 1), key);
    SettledForGood(decode, start, calls, n + 1, m, key);
  }

  /** A legacy key is never lost and never joined by another: at any time the file is still
      there or the store alone has its key, no call draws a fresh key, and every success
      returns the legacy key. */
  lemma {:induction false} LegacyKeyIsNeverLost(decode: Decoder, start: Disk, calls: seq<Faults>, n: nat)
    requires n <= |calls| && start.file.Some? && decode(start.file.value).Some?
    ensures var key := decode(start.file.value).value;
      var disk := DiskAt(decode, start, calls, n);
      && (disk.file == start.file || Settled(disk, key))
      && (n < |calls| ==>
        && !DrewAt(decode, start, calls, n)
        && (ResultAt(decode, start, calls, n).Success? ==> ResultAt(decode, start, calls, n).value == key))
  {
    if n > 0 {
      LegacyKeyIsNeverLost(decode, start, calls, n - 1);
    }
  }
}
