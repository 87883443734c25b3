/** The store as one process runs it, call by call, with nothing in between:
    the cached map and its signature in front of the state file. */
module DurableNonceState {
  import opened Wrappers
  import opened FloorEntries
  import StoreMachine

  datatype LoadError = Missing | Unparsable

  /** How far the persisting of a change gets: through the rename and the new
      signature, through the rename only, or not even to the rename. */
  datatype Fate = Persisted | SignatureUnread | Unwritten

  class FloorStore {
    var entries: Entries
    var loaded: bool
    var lastLoadedSignature: Option<nat>
    var file: Option<StoreMachine.Content>
    var version: nat                              // of the file: each rename gives a new one
    ghost var pending: Option<Op>                 // a change of `entries` that no rename has written

    function OnDisk(): Entries
      reads this
    {
      StoreMachine.Disk(file)
    }

    function GetStateFileSignature(): Option<nat>
      reads this
    {
      if file.None? then None else Some(version)
    }

    /** What the cache shows when its signature matches: the disk, with the
        unwritten change on top when a write has failed. */
    ghost function Shown(): Entries
      reads this
    {
      StoreMachine.With(OnDisk(), pending)
    }

    predicate Matches()
      reads this
    {
      loaded && lastLoadedSignature == GetStateFileSignature()
    }

    /** A signature that matches vouches for the cached entries, and none is
        ahead of the file. */
    ghost predicate Valid()
      reads this
    {
      && (lastLoadedSignature.Some? ==> lastLoadedSignature.value <= version)
      && (Matches() ==> entries == Shown() && file != Some(StoreMachine.Garbage))
    }

    /** Another process has renamed its own file into place. */
    method ReplacedByAnother(content: StoreMachine.Content)
      requires Valid()
      modifies this`file, this`version
      ensures Valid() && file == Some(content)
    {
      file, version := Some(content), version + 1;
    }

    constructor (file: Option<StoreMachine.Content>)
      ensures Valid() && this.file == file && !loaded
    {
      entries, loaded, lastLoadedSignature := map[], false, None;
      this.file, version, pending := file, 0, None;
    }

    method LoadEntriesFromStateFile(listing: seq<Entry>)
      modifies this`entries
      ensures entries == Load(listing)
    {
      entries := map[];
      for i := 0 to |listing|
        invariant entries == Load(listing[..i])
      {
        assert listing[..i + 1][..i] == listing[..i];
        var normalized := Normalized(listing[i]);
        LowerAgain(listing[i]);
        entries := entries[EntryKey(normalized) := normalized];
      }
      assert listing[..|listing|] == listing;
    }

    static lemma LowerAgain(e: Entry)
      ensures EntryKey(Normalized(e)) == EntryKey(e)
    {
      PutKeepsWellKeyed(map[], e);
    }

    method ReloadFromDisk() returns (r: Result<(), LoadError>)
      modifies this`entries, this`loaded, this`lastLoadedSignature, this`pending
      ensures r == if file.None? then Err(Missing) else if file.value.Garbage? then Err(Unparsable) else Ok(())
      ensures r.Ok? ==> entries == OnDisk() && Matches() && pending.None?
      ensures r.Err? ==> CacheUntouched()
    {
      if file.None? {
        return Err(Missing);
      }
      if file.value.Garbage? {
        return Err(Unparsable);
      }
      LoadEntriesFromStateFile(file.value.entries);
      loaded := true;
      lastLoadedSignature := GetStateFileSignature();
      pending := None;
      r := Ok(());
    }

    twostate predicate CacheUntouched()
      reads this
    {
      && entries == old(entries) && loaded == old(loaded)
      && lastLoadedSignature == old(lastLoadedSignature) && pending == old(pending)
    }

    /** A reload in which a missing file counts as an empty one. */
    method ReloadOrReset() returns (ok: bool)
      modifies this`entries, this`loaded, this`lastLoadedSignature, this`pending
      ensures ok <==> file != Some(StoreMachine.Garbage)
      ensures ok ==> entries == OnDisk() && Matches() && pending.None?
      ensures !ok ==> CacheUntouched()
    {
      var r := ReloadFromDisk();
      if r == Err(Missing) {
        entries, loaded, lastLoadedSignature, pending := map[], true, None, None;
      }
      ok := r != Err(Unparsable);
    }

    /** Afterwards the cache shows the disk; an unwritten change stays on top of it
        as long as nobody has replaced the file. */
    method EnsureLoaded() returns (ok: bool)
      requires Valid()
      modifies this`entries, this`loaded, this`lastLoadedSignature, this`pending
      ensures Valid() && (ok <==> file != Some(StoreMachine.Garbage))
      ensures ok ==> entries == Shown() && pending == if old(Matches()) then old(pending) else None
      ensures !ok ==> CacheUntouched()
    {
      if loaded && GetStateFileSignature() == lastLoadedSignature {
        return true;
      }
      ok := ReloadOrReset();
    }

    /** The lookup answers from the disk as it is, cached or not, with the process's
        own unwritten change on top after a failed write, and fails on an unparsable
        file rather than finding nothing in it. */
    method GetDurableNonceFloor(chainId: nat, address: string) returns (r: Result<Option<Entry>, ()>)
      requires Valid()
      modifies this`entries, this`loaded, this`lastLoadedSignature, this`pending
      ensures Valid()
      ensures r.Ok? <==> file != Some(StoreMachine.Garbage)
      ensures r.Ok? ==>
                r.value == if KeyOf(chainId, address) in Shown() then Some(Shown()[KeyOf(chainId, address)]) else None
      ensures r.Ok? ==> pending == if old(Matches()) then old(pending) else None
    {
      var ok := EnsureLoaded();
      if !ok {
        return Err(());
      }
      var key := KeyOf(chainId, address);
      r := Ok(if key in entries then Some(entries[key]) else None);
    }

    /** The entries in some order. */
    method ListEntries() returns (listing: seq<Entry>)
      requires WellKeyed(entries)
      ensures Lists(listing, entries)
    {
      var keys := entries.Keys;
      listing := [];
      while keys != {}
        invariant keys <= entries.Keys
        invariant forall i :: 0 <= i < |listing| ==>
                    EntryKey(listing[i]) in entries && entries[EntryKey(listing[i])] == listing[i]
        invariant forall k :: k in entries && k !in keys ==> entries[k] in listing
        decreases |keys|
      {
        var k :| k in keys;
        listing := listing + [entries[k]];
        assert listing[|listing| - 1] == entries[k];
        keys := keys - {k};
      }
    }

    /** The snapshot, the temporary file and the rename. */
    method WriteStateFile()
      requires WellKeyed(entries)
      modifies this`file, this`version
      ensures OnDisk() == entries && file.Some? && file.value.Listing? && version == old(version) + 1
    {
      var listing := ListEntries();
      LoadsWhatWasSaved(listing, entries);
      file, version := Some(StoreMachine.Listing(listing)), version + 1;
    }

    /** Writes the cached entries, which are the disk's with `op` on top. */
    method PersistLoadedEntries(fate: Fate, ghost op: Op) returns (ok: bool)
      requires WellKeyed(entries) && entries == Apply(OnDisk(), op) && file != Some(StoreMachine.Garbage)
      requires lastLoadedSignature.Some? ==> lastLoadedSignature.value <= version
      modifies this`file, this`version, this`loaded, this`lastLoadedSignature, this`pending
      ensures ok == fate.Persisted? && Valid()
      ensures if fate.Unwritten? then file == old(file) && version == old(version) && pending == Some(op)
              else OnDisk() == entries && file.Some? && file.value.Listing? && pending.None?
      ensures if ok then Matches() else loaded == old(loaded) && lastLoadedSignature == old(lastLoadedSignature)
    {
      ok := false;
      if fate.Unwritten? {
        pending := Some(op);
        return;
      }
      WriteStateFile();
      pending := None;
      if fate.SignatureUnread? {
        return;
      }
      loaded := true;
      lastLoadedSignature := GetStateFileSignature();
      ok := true;
    }

    /** What one locked operation has done when it is over, however it ended: it
        fails on an unparsable file, and where there is something to write it
        succeeds exactly when that is persisted. The disk changes by the whole
        operation or not at all, and a change that did not reach it stays pending
        in the cache. */
    twostate predicate Performed(op: Op, fate: Fate, ok: bool)
      reads this
    {
      var before := old(OnDisk());
      && Valid()
      && (ok <==> old(file) != Some(StoreMachine.Garbage) && (fate.Persisted? || !Effective(before, op)))
      && (if old(file) == Some(StoreMachine.Garbage) then file == old(file) && CacheUntouched()
          else if !Effective(before, op) then file == old(file) && pending.None? && Matches()
          else if fate.Unwritten? then file == old(file) && pending == Some(op) && Matches()
          else OnDisk() == Apply(before, op) && pending.None? && (fate.Persisted? ==> Matches()))
    }

    /** The whole upsert, but for the lock. */
    method UpsertDurableNonceFloor(entry: Entry, fate: Fate) returns (ok: bool)
      requires Valid()
      modifies this`entries, this`loaded, this`lastLoadedSignature, this`file, this`version, this`pending
      ensures Performed(Upsert(entry), fate, ok)
    {
      ok := ReloadOrReset();
      if !ok {
        return;
      }
      DiskIsWellKeyed(file);
      var normalized := Normalized(entry);
      LowerAgain(entry);
      var key := EntryKey(normalized);
      if key in entries && entries[key].nextNonce > normalized.nextNonce {
        return true;
      }
      PutKeepsWellKeyed(entries, entry);
      entries := entries[key := normalized];
      ok := PersistLoadedEntries(fate, Upsert(entry));
    }

    /** The whole clearing, but for the lock; `deleted` says whether there was
        anything to delete. */
    method ClearDurableNonceFloor(chainId: nat, address: string, fate: Fate) returns (ok: bool, deleted: bool)
      requires Valid()
      modifies this`entries, this`loaded, this`lastLoadedSignature, this`file, this`version, this`pending
      ensures Performed(Clear(chainId, address), fate, ok)
      ensures ok ==> (deleted <==> KeyOf(chainId, address) in old(OnDisk())) && KeyOf(chainId, address) !in OnDisk()
    {
      deleted := false;
      ok := ReloadOrReset();
      if !ok {
        return;
      }
      DiskIsWellKeyed(file);
      var key := KeyOf(chainId, address);
      deleted := key in entries;
      entries := entries - {key};
      if deleted {
        ok := PersistLoadedEntries(fate, Clear(chainId, address));
      }
    }

    static lemma DiskIsWellKeyed(file: Option<StoreMachine.Content>)
      ensures WellKeyed(StoreMachine.Disk(file))
    {
      if file.Some? && file.value.Listing? {
        LoadIsWellKeyed(file.value.entries);
      }
    }
  }
}
