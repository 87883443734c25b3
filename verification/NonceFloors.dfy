/** The nonce machine's floors are the store's entries, seen through one key. */
module NonceFloors {
  import opened Wrappers
  import opened FloorEntries
  import opened NonceMachine
  import StoreMachine

  function FloorIn(e: Entry): Floor { Floor(e.nextNonce, e.expiresAtMs, e.expiresAtBlock) }

  function FloorAt(es: Entries, k: Key): Option<Floor> {
    if k in es then Some(FloorIn(es[k])) else None
  }

  /** An upsert raises the floor of its own key, and writes something exactly when no
      higher one is kept; a clearing removes it, and writes something exactly when
      there is one. No other key is touched. */
  lemma OperationsActOnOneFloor(es: Entries, op: Op, k: Key)
    ensures FloorAt(Apply(es, op), k) ==
              if OpKey(op) != k then FloorAt(es, k)
              else if op.Upsert? then Some(RaiseFloor(FloorAt(es, k), FloorIn(op.entry)))
              else None
    ensures OpKey(op) == k ==>
              (Effective(es, op) <==>
                 if op.Upsert? then !Keeps(FloorAt(es, k), op.entry.nextNonce) else FloorAt(es, k).Some?)
  {
  }

  /** The machine's cache for a key: the disk's floor, but for a pending change of
      that very key. */
  function CacheAt(disk: Entries, pending: Option<Op>, k: Key): Cache {
    if pending.None? || OpKey(pending.value) != k || !Effective(disk, pending.value) then Current
    else Unwritten(if pending.value.Upsert? then Some(FloorIn(pending.value.entry)) else None)
  }

  /** What the store's cached map has for a key under a matching signature is what
      the nonce machine takes the cache to show. */
  lemma TheCacheShowsTheFloor(disk: Entries, pending: Option<Op>, k: Key, a: Account)
    requires a.floor == FloorAt(disk, k) && a.cache == CacheAt(disk, pending, k)
    ensures Shown(a) == FloorAt(StoreMachine.With(disk, pending), k)
  {
    if pending.Some? {
      OperationsActOnOneFloor(disk, pending.value, k);
    }
  }

  /** Along every run of the store, the lookup of a process whose signature matches
      is what the nonce machine takes the cache to show. */
  lemma LookupsAreShown(
      start: Option<StoreMachine.Content>, s: StoreMachine.State, p: nat, k: Key, a: Account)
    requires StoreMachine.Reached(start, s)
    requires StoreMachine.MemoryOf(s, p).loaded && StoreMachine.MemoryOf(s, p).signature == StoreMachine.Signature(s)
    requires a.floor == FloorAt(StoreMachine.Disk(s.file), k)
    requires a.cache == CacheAt(StoreMachine.Disk(s.file), StoreMachine.MemoryOf(s, p).pending, k)
    ensures Shown(a) == FloorAt(StoreMachine.MemoryOf(s, p).entries, k)
  {
    StoreMachine.MatchingSignatureMeansCurrent(start, s, p);
    TheCacheShowsTheFloor(StoreMachine.Disk(s.file), StoreMachine.MemoryOf(s, p).pending, k, a);
  }
}
