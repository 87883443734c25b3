/** The state file shared by processes: a lock file, a locked reload, merge,
    temporary write and rename, and the unlocked reloads of readers. Every
    stretch between two awaits is one step, and a process may die between any
    two of them.

    Tasks are the locked operations, numbered in the order they began. */
module StoreMachine {
  import opened Wrappers
  import opened FloorEntries

  /** A file's text: not (yet) JSON, or the entries it lists. */
  datatype Content = Garbage | Listing(entries: seq<Entry>)

  datatype Pc =
    | Waiting                          // for the lock
    | Entered                          // holds it; the file is being read
    | Statting                         // loaded; its signature is being read
    | Merged                           // changed in memory; the directory is being made
    | Writing(listing: seq<Entry>)     // the snapshot is being written to the temporary file
    | Written                          // the rename is under way
    | Renamed                          // the new signature is being read
    | Releasing(ok: bool)
    | Done(ok: bool)
    | Died

  datatype Task = Task(process: nat, op: Op, pc: Pc)

  /** An unlocked reload under way: its text is on the way, or it is loaded and
      its signature on the way. `version` is the file's when the text was read. */
  datatype Reload = Idle | Fetched(content: Option<Content>, version: nat) | Landed(version: nat)

  /** One process: `entries`, `loaded` and `lastLoadedSignature`. History: the
      file version that `entries` was loaded from or written to, and the change
      made in memory that no rename has brought to the disk. */
  datatype Memory = Memory(
    entries: Entries, loaded: bool, signature: Option<nat>, reload: Reload,
    asOf: nat, pending: Option<Op>)

  datatype Lock = Lock(owner: nat, createdAt: nat)

  /** The disk, the clock, the processes and the tasks. History: the tasks in
      the order their operations took effect, and those operations. */
  datatype State = State(
    file: Option<Content>, version: nat, tmp: Option<Content>, lock: Option<Lock>, now: nat,
    memories: map<nat, Memory>, tasks: seq<Task>, log: seq<nat>, ops: seq<Op>)

  datatype Event =
    | Begin(process: nat, op: Op)
    | TryLock(task: nat)               // open with the flag `wx`
    | GiveUp(task: nat)                // the lock timeout
    | ClearStale(task: nat)            // stat, age check and rm of the lock
    | ReadFile(task: nat)
    | StatFile(task: nat)
    | Snapshot(task: nat, listing: seq<Entry>)
    | WriteDone(task: nat)
    | RenameDone(task: nat)
    | StatAgain(task: nat)
    | Fail(task: nat)                  // whatever is awaited throws
    | Release(task: nat)
    | FetchUnlocked(process: nat)
    | LandUnlocked(process: nat)
    | StatUnlocked(process: nat)
    | ReloadFails(process: nat)        // reading the file, or its signature, throws
    | Tick(now: nat)
    | Crash(process: nat)

  const STATE_LOCK_STALE_MS: nat := 10000

  function Initial(start: Option<Content>): State {
    State(start, 0, None, None, 0, map[], [], [], [])
  }

  const BLANK := Memory(map[], false, None, Idle, 0, None)

  function MemoryOf(s: State, process: nat): Memory {
    if process in s.memories then s.memories[process] else BLANK
  }

  /** The entries a file stands for; none when it is missing or unparsable. */
  function Disk(file: Option<Content>): Entries {
    if file.Some? && file.value.Listing? then Load(file.value.entries) else map[]
  }

  /** What getStateFileSignature returns: each rename gives a new one. */
  function Signature(s: State): Option<nat> {
    if s.file.None? then None else Some(s.version)
  }

  predicate At(s: State, t: nat) { t < |s.tasks| }

  function Move(s: State, t: nat, pc: Pc): State
    requires At(s, t)
  {
    s.(tasks := s.tasks[t := s.tasks[t].(pc := pc)])
  }

  function Remember(s: State, process: nat, m: Memory): State {
    s.(memories := s.memories[process := m])
  }

  /** The operation of task t takes effect. */
  function Commit(s: State, t: nat): State
    requires At(s, t)
  {
    s.(log := s.log + [t], ops := s.ops + [s.tasks[t].op])
  }

  /** loadEntriesFromStateFile or, for a missing file, resetLoadedState. */
  function Loaded(m: Memory, content: Option<Content>, version: nat): Memory {
    m.(entries := Disk(content), loaded := true, signature := if content.None? then None else m.signature,
       asOf := version, pending := None)
  }

  /** The locked operation itself, on the entries just reloaded. */
  function Merge(s: State, t: nat): State
    requires At(s, t)
  {
    var m := MemoryOf(s, s.tasks[t].process);
    var op := s.tasks[t].op;
    if Effective(m.entries, op)
    then Move(Remember(s, s.tasks[t].process, m.(entries := Apply(m.entries, op), pending := Some(op))), t, Merged)
    else Move(Commit(s, t), t, Releasing(true))
  }

  function ReadLocked(s: State, t: nat): State
    requires At(s, t)
  {
    var p := s.tasks[t].process;
    if s.file == Some(Garbage) then Move(s, t, Releasing(false))
    else
      var s1 := Remember(s, p, Loaded(MemoryOf(s, p), s.file, s.version));
      if s.file.None? then Merge(s1, t) else Move(s1, t, Statting)
  }

  function StatLocked(s: State, t: nat): State
    requires At(s, t)
  {
    var p := s.tasks[t].process;
    Merge(Remember(s, p, MemoryOf(s, p).(signature := Signature(s))), t)
  }

  /** The rename brings what the temporary file holds. */
  function RenameTmp(s: State, t: nat): State
    requires At(s, t) && s.tmp.Some?
  {
    var m := MemoryOf(s, s.tasks[t].process);
    var renamed := Commit(s, t).(file := s.tmp, tmp := None, version := s.version + 1);
    Move(Remember(renamed, s.tasks[t].process, m.(asOf := s.version + 1, pending := None)), t, Renamed)
  }

  function Buried(tasks: seq<Task>, process: nat): seq<Task> {
    seq(|tasks|, i requires 0 <= i < |tasks| =>
      if tasks[i].process == process && !tasks[i].pc.Done? then tasks[i].(pc := Died) else tasks[i])
  }

  function Step(s: State, e: Event): State {
    match e
    case Begin(p, op) => s.(tasks := s.tasks + [Task(p, op, Waiting)])
    case TryLock(t) =>
      if At(s, t) && s.tasks[t].pc.Waiting? && s.lock.None?
      then Move(s.(lock := Some(Lock(t, s.now))), t, Entered) else s
    case GiveUp(t) =>
      if At(s, t) && s.tasks[t].pc.Waiting? then Move(s, t, Done(false)) else s
    case ClearStale(t) =>
      if At(s, t) && s.tasks[t].pc.Waiting? && s.lock.Some? && s.now >= s.lock.value.createdAt + STATE_LOCK_STALE_MS
      then s.(lock := None) else s
    case ReadFile(t) =>
      if At(s, t) && s.tasks[t].pc.Entered? then ReadLocked(s, t) else s
    case StatFile(t) =>
      if At(s, t) && s.tasks[t].pc.Statting? then StatLocked(s, t) else s
    case Snapshot(t, listing) =>
      if At(s, t) && s.tasks[t].pc.Merged? && Lists(listing, MemoryOf(s, s.tasks[t].process).entries)
      then Move(s.(tmp := Some(Garbage)), t, Writing(listing)) else s
    case WriteDone(t) =>
      if At(s, t) && s.tasks[t].pc.Writing?
      then Move(s.(tmp := Some(Listing(s.tasks[t].pc.listing))), t, Written) else s
    case RenameDone(t) =>
      if At(s, t) && s.tasks[t].pc.Written? && s.tmp.Some? then RenameTmp(s, t) else s
    case StatAgain(t) =>
      if At(s, t) && s.tasks[t].pc.Renamed?
      then
        var p := s.tasks[t].process;
        Move(Remember(s, p, MemoryOf(s, p).(loaded := true, signature := Signature(s))), t, Releasing(true))
      else s
    case Fail(t) =>
      if At(s, t) && Holding(s.tasks[t].pc) && !s.tasks[t].pc.Releasing? then Move(s, t, Releasing(false)) else s
    case Release(t) =>
      if At(s, t) && s.tasks[t].pc.Releasing?
      then Move(s.(lock := None), t, Done(s.tasks[t].pc.ok)) else s
    case FetchUnlocked(p) =>
      if MemoryOf(s, p).reload.Idle?
      then Remember(s, p, MemoryOf(s, p).(reload := Fetched(s.file, s.version))) else s
    case LandUnlocked(p) =>
      var m := MemoryOf(s, p);
      if !m.reload.Fetched? then s
      else if m.reload.content == Some(Garbage) then Remember(s, p, m.(reload := Idle))
      else if m.reload.content.None? then Remember(s, p, Loaded(m, None, m.reload.version).(reload := Idle))
      else Remember(s, p, Loaded(m, m.reload.content, m.reload.version).(reload := Landed(m.reload.version)))
    case StatUnlocked(p) =>
      var m := MemoryOf(s, p);
      if m.reload.Landed? then Remember(s, p, m.(signature := Signature(s), reload := Idle)) else s
    case ReloadFails(p) => Remember(s, p, MemoryOf(s, p).(reload := Idle))
    case Tick(now) => s.(now := if now > s.now then now else s.now)
    case Crash(p) => s.(tasks := Buried(s.tasks, p), memories := s.memories - {p})
  }

  // ------------------------------------------------------------ assumptions

  /** Tasks that hold the lock. */
  predicate Holding(pc: Pc) { !pc.Waiting? && !pc.Done? && !pc.Died? }

  /** From the merge in memory to the second signature. */
  predicate Persisting(pc: Pc) { pc.Merged? || pc.Writing? || pc.Written? || pc.Renamed? }

  ghost predicate PersistingIn(s: State, process: nat) {
    exists t :: 0 <= t < |s.tasks| && s.tasks[t].process == process && Persisting(s.tasks[t].pc)
  }

  predicate HeldAlive(s: State) {
    s.lock.Some? && At(s, s.lock.value.owner) && Holding(s.tasks[s.lock.value.owner].pc)
  }

  /** A live holder is done before its lock counts as stale; an unlocked reload
      sees no rename between its read and its stat, and does not land while its
      process is persisting a change. */
  ghost predicate Fair(s: State, e: Event) {
    match e
    case Tick(now) =>
      HeldAlive(s) ==> now < s.lock.value.createdAt + STATE_LOCK_STALE_MS
    case LandUnlocked(p) =>
      var m := MemoryOf(s, p);
      m.reload.Fetched? ==> m.reload.version == s.version && !PersistingIn(s, p)
    case StatUnlocked(p) =>
      var m := MemoryOf(s, p);
      m.reload.Landed? ==> m.reload.version == s.version
    case _ => true
  }

  ghost predicate ReachedIn(start: Option<Content>, n: nat, s: State) {
    if n == 0 then s == Initial(start)
    else exists r, e :: ReachedIn(start, n - 1, r) && Fair(r, e) && Step(r, e) == s
  }

  ghost predicate Reached(start: Option<Content>, s: State) {
    exists n: nat :: ReachedIn(start, n, s)
  }

  // -------------------------------------------------------------- invariant

  /** Not yet in effect; and in effect for sure. */
  predicate Before(pc: Pc) {
    pc.Waiting? || pc.Entered? || pc.Statting? || pc.Merged? || pc.Writing? || pc.Written?
  }

  predicate After(pc: Pc) { pc.Renamed? || pc == Releasing(true) || pc == Done(true) }

  function With(es: Entries, pending: Option<Op>): Entries {
    if pending.None? then es else Apply(es, pending.value)
  }

  /** A process whose entries are the file's, with its own pending change on top. */
  predicate Current(s: State, m: Memory) { m.loaded && m.asOf == s.version }

  ghost predicate WorkOk(s: State, task: Task) {
    var m, op := MemoryOf(s, task.process), task.op;
    match task.pc
    case Statting => Current(s, m) && m.pending.None?
    case Merged => Current(s, m) && m.pending == Some(op) && Effective(Disk(s.file), op)
    case Writing(listing) => Current(s, m) && m.pending == Some(op) && Load(listing) == Apply(Disk(s.file), op)
    case Written =>
      && Current(s, m) && m.pending == Some(op)
      && s.tmp.Some? && s.tmp.value.Listing? && Load(s.tmp.value.entries) == Apply(Disk(s.file), op)
    case Renamed => Current(s, m) && m.pending.None?
    case _ => true
  }

  predicate LogFits(pc: Pc, logged: bool) { (Before(pc) ==> !logged) && (After(pc) ==> logged) }

  ghost predicate HoldsLock(s: State, t: nat) {
    s.lock.Some? && s.lock.value.owner == t && s.now < s.lock.value.createdAt + STATE_LOCK_STALE_MS
  }

  ghost predicate TaskOk(s: State, t: nat)
    requires At(s, t)
  {
    var task := s.tasks[t];
    (Holding(task.pc) ==> HoldsLock(s, t)) && LogFits(task.pc, t in s.log) && WorkOk(s, task)
  }

  ghost predicate MemoryOk(file: Option<Content>, version: nat, m: Memory) {
    && m.asOf <= version && WellKeyed(m.entries)
    && (m.loaded ==> file != Some(Garbage))
    && (m.signature.Some? ==> m.signature.value <= m.asOf)
    && (m.loaded && m.asOf == version ==> m.entries == With(Disk(file), m.pending))
    && (m.reload.Fetched? ==> m.reload.version <= version && (m.reload.version == version ==> m.reload.content == file))
    && (m.reload.Landed? ==> m.reload.version <= m.asOf)
  }

  ghost predicate MemoriesOk(s: State) {
    forall p :: p in s.memories ==> MemoryOk(s.file, s.version, s.memories[p])
  }

  ghost predicate LogOk(tasks: seq<Task>, log: seq<nat>, ops: seq<Op>) {
    && |log| == |ops|
    && (forall i :: 0 <= i < |log| ==> log[i] < |tasks| && tasks[log[i]].op == ops[i])
    && (forall i, j :: 0 <= i < j < |log| ==> log[i] != log[j])
  }

  predicate FileOk(start: Option<Content>, file: Option<Content>, version: nat) {
    (file.None? ==> version == 0) && (start == Some(Garbage) <==> file == Some(Garbage))
  }

  /** All of the invariant but the tasks. */
  ghost predicate CoreOk(start: Option<Content>, s: State) {
    FileOk(start, s.file, s.version) && LogOk(s.tasks, s.log, s.ops) && MemoriesOk(s)
  }

  ghost predicate Inv(start: Option<Content>, s: State) {
    CoreOk(start, s) && forall t :: 0 <= t < |s.tasks| ==> TaskOk(s, t)
  }

  /** No task but t holds the lock. */
  ghost predicate Alone(tasks: seq<Task>, log: seq<nat>, t: nat) {
    && t < |tasks|
    && forall i :: 0 <= i < |tasks| && i != t ==> !Holding(tasks[i].pc) && LogFits(tasks[i].pc, i in log)
  }

  lemma HolderIsAlone(start: Option<Content>, s: State, t: nat)
    requires Inv(start, s) && At(s, t) && Holding(s.tasks[t].pc)
    ensures Alone(s.tasks, s.log, t) && TaskOk(s, t)
  {
    forall i | 0 <= i < |s.tasks| && i != t ensures !Holding(s.tasks[i].pc) && LogFits(s.tasks[i].pc, i in s.log) {
      assert TaskOk(s, i) && TaskOk(s, t);
    }
  }

  /** Then task t decides. */
  lemma LonerDecides(start: Option<Content>, s: State, t: nat)
    requires CoreOk(start, s) && Alone(s.tasks, s.log, t) && TaskOk(s, t)
    ensures Inv(start, s)
  {
  }

  lemma MoveKeepsAlone(tasks: seq<Task>, log: seq<nat>, ops: seq<Op>, t: nat, pc: Pc)
    requires Alone(tasks, log, t) && LogOk(tasks, log, ops)
    ensures Alone(tasks[t := tasks[t].(pc := pc)], log, t) && LogOk(tasks[t := tasks[t].(pc := pc)], log, ops)
  {
  }

  /** Moving the holder on. */
  lemma MoveKeepsInv(start: Option<Content>, s: State, t: nat, pc: Pc)
    requires CoreOk(start, s) && Alone(s.tasks, s.log, t)
    requires Holding(pc) ==> HoldsLock(s, t)
    requires LogFits(pc, t in s.log) && WorkOk(s, s.tasks[t].(pc := pc))
    ensures Inv(start, Move(s, t, pc))
  {
    MoveKeepsAlone(s.tasks, s.log, s.ops, t, pc);
    LonerDecides(start, Move(s, t, pc), t);
  }

  lemma CommitKeepsLog(tasks: seq<Task>, log: seq<nat>, ops: seq<Op>, t: nat)
    requires Alone(tasks, log, t) && LogOk(tasks, log, ops) && t !in log
    ensures Alone(tasks, log + [t], t) && LogOk(tasks, log + [t], ops + [tasks[t].op])
    ensures t in log + [t]
  {
    forall i | 0 <= i < |tasks| && i != t ensures i in log + [t] <==> i in log {
    }
  }

  lemma MemoryOfIsOk(s: State, p: nat)
    requires MemoriesOk(s)
    ensures MemoryOk(s.file, s.version, MemoryOf(s, p))
  {
  }

  lemma RememberKeepsCore(start: Option<Content>, s: State, p: nat, m: Memory)
    requires CoreOk(start, s) && MemoryOk(s.file, s.version, m)
    ensures CoreOk(start, Remember(s, p, m))
  {
  }

  /** The file just loaded, under a lock that is held. */
  ghost predicate JustLoaded(s: State, t: nat) {
    && At(s, t) && HoldsLock(s, t) && t !in s.log && Alone(s.tasks, s.log, t)
    && Current(s, MemoryOf(s, s.tasks[t].process)) && MemoryOf(s, s.tasks[t].process).pending.None?
  }

  lemma MergeKeepsInv(start: Option<Content>, s: State, t: nat)
    requires CoreOk(start, s) && JustLoaded(s, t)
    ensures Inv(start, Merge(s, t))
  {
    var p, op := s.tasks[t].process, s.tasks[t].op;
    var m := MemoryOf(s, p);
    MemoryOfIsOk(s, p);
    if Effective(m.entries, op) {
      ChangeKeepsInv(start, s, t, m.(entries := Apply(m.entries, op), pending := Some(op)));
    } else {
      NoChangeKeepsInv(start, s, t);
    }
  }

  lemma ChangeKeepsInv(start: Option<Content>, s: State, t: nat, merged: Memory)
    requires CoreOk(start, s) && JustLoaded(s, t)
    requires var m, op := MemoryOf(s, s.tasks[t].process), s.tasks[t].op;
             Effective(m.entries, op) && merged == m.(entries := Apply(m.entries, op), pending := Some(op))
    ensures Inv(start, Move(Remember(s, s.tasks[t].process, merged), t, Merged))
  {
    var p := s.tasks[t].process;
    MemoryOfIsOk(s, p);
    ApplyKeepsWellKeyed(MemoryOf(s, p).entries, s.tasks[t].op);
    RememberKeepsCore(start, s, p, merged);
    MoveKeepsInv(start, Remember(s, p, merged), t, Merged);
  }

  lemma NoChangeKeepsInv(start: Option<Content>, s: State, t: nat)
    requires CoreOk(start, s) && JustLoaded(s, t)
    requires !Effective(Disk(s.file), s.tasks[t].op)
    ensures Inv(start, Move(Commit(s, t), t, Releasing(true)))
  {
    CommitKeepsLog(s.tasks, s.log, s.ops, t);
    MoveKeepsInv(start, Commit(s, t), t, Releasing(true));
  }

  lemma LoadedIsOk(s: State, m: Memory, content: Option<Content>)
    requires MemoryOk(s.file, s.version, m) && content == s.file && content != Some(Garbage)
    ensures MemoryOk(s.file, s.version, Loaded(m, content, s.version))
  {
    if content.Some? {
      LoadIsWellKeyed(content.value.entries);
    }
  }

  lemma ReadKeepsInv(start: Option<Content>, s: State, t: nat)
    requires Inv(start, s) && At(s, t) && s.tasks[t].pc.Entered?
    ensures Inv(start, ReadLocked(s, t))
  {
    HolderIsAlone(start, s, t);
    var p := s.tasks[t].process;
    if s.file == Some(Garbage) {
      MoveKeepsInv(start, s, t, Releasing(false));
    } else {
      var m := Loaded(MemoryOf(s, p), s.file, s.version);
      MemoryOfIsOk(s, p);
      LoadedIsOk(s, MemoryOf(s, p), s.file);
      RememberKeepsCore(start, s, p, m);
      if s.file.None? {
        MergeKeepsInv(start, Remember(s, p, m), t);
      } else {
        MoveKeepsInv(start, Remember(s, p, m), t, Statting);
      }
    }
  }

  lemma StatKeepsInv(start: Option<Content>, s: State, t: nat)
    requires Inv(start, s) && At(s, t) && s.tasks[t].pc.Statting?
    ensures Inv(start, StatLocked(s, t))
  {
    HolderIsAlone(start, s, t);
    var p := s.tasks[t].process;
    var m := MemoryOf(s, p).(signature := Signature(s));
    MemoryOfIsOk(s, p);
    RememberKeepsCore(start, s, p, m);
    MergeKeepsInv(start, Remember(s, p, m), t);
  }

  lemma SnapshotKeepsInv(start: Option<Content>, s: State, t: nat, listing: seq<Entry>)
    requires Inv(start, s) && At(s, t) && s.tasks[t].pc.Merged?
    requires Lists(listing, MemoryOf(s, s.tasks[t].process).entries)
    ensures Inv(start, Move(s.(tmp := Some(Garbage)), t, Writing(listing)))
  {
    HolderIsAlone(start, s, t);
    MemoryOfIsOk(s, s.tasks[t].process);
    LoadsWhatWasSaved(listing, MemoryOf(s, s.tasks[t].process).entries);
    MoveKeepsInv(start, s.(tmp := Some(Garbage)), t, Writing(listing));
  }

  lemma WriteKeepsInv(start: Option<Content>, s: State, t: nat)
    requires Inv(start, s) && At(s, t) && s.tasks[t].pc.Writing?
    ensures Inv(start, Step(s, WriteDone(t)))
  {
    HolderIsAlone(start, s, t);
    MoveKeepsInv(start, s.(tmp := Some(Listing(s.tasks[t].pc.listing))), t, Written);
  }

  lemma RenameKeepsInv(start: Option<Content>, s: State, t: nat)
    requires Inv(start, s) && At(s, t) && s.tasks[t].pc.Written? && s.tmp.Some?
    ensures Inv(start, RenameTmp(s, t))
  {
    HolderIsAlone(start, s, t);
    MemoryOfIsOk(s, s.tasks[t].process);
    RenameOfLonerKeepsInv(start, s, t, MemoryOf(s, s.tasks[t].process));
  }

  lemma RenameOfLonerKeepsInv(start: Option<Content>, s: State, t: nat, m: Memory)
    requires CoreOk(start, s) && Alone(s.tasks, s.log, t) && TaskOk(s, t) && s.tasks[t].pc.Written? && s.tmp.Some?
    requires m == MemoryOf(s, s.tasks[t].process) && MemoryOk(s.file, s.version, m)
    ensures Inv(start, RenameTmp(s, t))
  {
    var renamed := RenameKeepsCore(start, s, t);
    var written := m.(asOf := s.version + 1, pending := None);
    RenamedMemoryIsOk(s, t, m);
    assert RenameTmp(s, t) == Move(Remember(renamed, s.tasks[t].process, written), t, Renamed);
    FinishRename(start, renamed, t, written, RenameTmp(s, t));
  }

  /** The entries in memory are those that the rename brings. */
  lemma RenamedMemoryIsOk(s: State, t: nat, m: Memory)
    requires At(s, t) && s.tasks[t].pc.Written? && WorkOk(s, s.tasks[t]) && s.file != Some(Garbage)
    requires m == MemoryOf(s, s.tasks[t].process) && MemoryOk(s.file, s.version, m)
    ensures MemoryOk(s.tmp, s.version + 1, m.(asOf := s.version + 1, pending := None))
  {
  }

  lemma RenameKeepsCore(start: Option<Content>, s: State, t: nat) returns (renamed: State)
    requires CoreOk(start, s) && Alone(s.tasks, s.log, t) && t !in s.log
    requires s.file != Some(Garbage) && s.tmp.Some? && s.tmp.value.Listing?
    ensures renamed == Commit(s, t).(file := s.tmp, tmp := None, version := s.version + 1)
    ensures CoreOk(start, renamed) && Alone(renamed.tasks, renamed.log, t)
  {
    renamed := Commit(s, t).(file := s.tmp, tmp := None, version := s.version + 1);
    CommitKeepsLog(s.tasks, s.log, s.ops, t);
    OldMemoriesAreBehind(s, renamed);
  }

  lemma FinishRename(start: Option<Content>, s: State, t: nat, written: Memory, r: State)
    requires CoreOk(start, s) && Alone(s.tasks, s.log, t) && HoldsLock(s, t) && t in s.log
    requires MemoryOk(s.file, s.version, written) && Current(s, written) && written.pending.None?
    requires r == Move(Remember(s, s.tasks[t].process, written), t, Renamed)
    ensures Inv(start, r)
  {
    RememberKeepsCore(start, s, s.tasks[t].process, written);
    MoveKeepsInv(start, Remember(s, s.tasks[t].process, written), t, Renamed);
  }

  lemma OldMemoriesAreBehind(s: State, renamed: State)
    requires MemoriesOk(s) && renamed.memories == s.memories
    requires renamed.version == s.version + 1 && renamed.file != Some(Garbage)
    ensures MemoriesOk(renamed)
  {
  }

  lemma StatAgainKeepsInv(start: Option<Content>, s: State, t: nat)
    requires Inv(start, s) && At(s, t) && s.tasks[t].pc.Renamed?
    ensures Inv(start, Step(s, StatAgain(t)))
  {
    HolderIsAlone(start, s, t);
    var p := s.tasks[t].process;
    var m := MemoryOf(s, p).(loaded := true, signature := Signature(s));
    MemoryOfIsOk(s, p);
    RememberKeepsCore(start, s, p, m);
    MoveKeepsInv(start, Remember(s, p, m), t, Releasing(true));
  }

  /** Letting go of the lock, or failing on the way. */
  lemma EndingKeepsInv(start: Option<Content>, s: State, e: Event)
    requires Inv(start, s) && (e.Fail? || e.Release?)
    ensures Inv(start, Step(s, e))
  {
    var t := e.task;
    if At(s, t) && Holding(s.tasks[t].pc) {
      HolderIsAlone(start, s, t);
      if e.Fail? && !s.tasks[t].pc.Releasing? {
        MoveKeepsInv(start, s, t, Releasing(false));
      } else if e.Release? && s.tasks[t].pc.Releasing? {
        MoveKeepsInv(start, s.(lock := None), t, Done(s.tasks[t].pc.ok));
      }
    }
  }

  /** While the lock is free, or its owner no longer runs, no task holds it. */
  lemma NobodyHolds(start: Option<Content>, s: State, t: nat)
    requires Inv(start, s) && At(s, t) && !Holding(s.tasks[t].pc)
    requires s.lock.None? || s.now >= s.lock.value.createdAt + STATE_LOCK_STALE_MS
    ensures Alone(s.tasks, s.log, t)
  {
    forall i | 0 <= i < |s.tasks| && i != t ensures !Holding(s.tasks[i].pc) && LogFits(s.tasks[i].pc, i in s.log) {
      assert TaskOk(s, i);
    }
  }

  lemma WaitingKeepsInv(start: Option<Content>, s: State, e: Event)
    requires Inv(start, s) && (e.TryLock? || e.ClearStale?)
    ensures Inv(start, Step(s, e))
  {
    var t := e.task;
    if At(s, t) && s.tasks[t].pc.Waiting? && Step(s, e) != s {
      NobodyHolds(start, s, t);
      assert TaskOk(s, t);
      if e.TryLock? {
        MoveKeepsInv(start, s.(lock := Some(Lock(t, s.now))), t, Entered);
      } else {
        LonerDecides(start, s.(lock := None), t);
      }
    }
  }

  lemma BeginKeepsInv(start: Option<Content>, s: State, p: nat, op: Op)
    requires Inv(start, s)
    ensures Inv(start, Step(s, Begin(p, op)))
  {
    var t := Step(s, Begin(p, op));
    assert |s.tasks| !in s.log;
    forall i | 0 <= i < |t.tasks| ensures TaskOk(t, i) {
      if i < |s.tasks| {
        assert TaskOk(s, i);
      }
    }
  }

  lemma GiveUpKeepsInv(start: Option<Content>, s: State, t: nat)
    requires Inv(start, s) && At(s, t) && s.tasks[t].pc.Waiting?
    ensures Inv(start, Move(s, t, Done(false)))
  {
    var r := Move(s, t, Done(false));
    forall i | 0 <= i < |r.tasks| ensures TaskOk(r, i) {
      assert TaskOk(s, i);
    }
  }

  lemma TickKeepsInv(start: Option<Content>, s: State, now: nat)
    requires Inv(start, s) && Fair(s, Tick(now))
    ensures Inv(start, Step(s, Tick(now)))
  {
    var r := Step(s, Tick(now));
    forall i | 0 <= i < |r.tasks| ensures TaskOk(r, i) {
      assert TaskOk(s, i);
    }
  }

  lemma CrashKeepsInv(start: Option<Content>, s: State, p: nat)
    requires Inv(start, s)
    ensures Inv(start, Step(s, Crash(p)))
  {
    var r := Step(s, Crash(p));
    forall i | 0 <= i < |r.tasks| ensures TaskOk(r, i) {
      assert TaskOk(s, i);
      if s.tasks[i].process != p {
        assert MemoryOf(r, s.tasks[i].process) == MemoryOf(s, s.tasks[i].process);
      }
    }
  }

  predicate SameContents(m: Memory, n: Memory) {
    m.asOf == n.asOf && m.loaded == n.loaded && m.pending == n.pending && m.entries == n.entries
  }

  /** What an unlocked reload must leave in the memory of its process for the
      tasks of that process to be undisturbed. */
  lemma UnlockedKeepsInv(start: Option<Content>, s: State, p: nat, m: Memory)
    requires Inv(start, s) && MemoryOk(s.file, s.version, m)
    requires SameContents(m, MemoryOf(s, p)) || (Current(s, m) && m.pending.None? && !PersistingIn(s, p))
    ensures Inv(start, Remember(s, p, m))
  {
    var r := Remember(s, p, m);
    RememberKeepsCore(start, s, p, m);
    forall i | 0 <= i < |r.tasks| ensures TaskOk(r, i) {
      assert TaskOk(s, i);
      if s.tasks[i].process == p {
        assert MemoryOf(r, p) == m;
      } else {
        assert MemoryOf(r, s.tasks[i].process) == MemoryOf(s, s.tasks[i].process);
      }
    }
  }

  lemma ReloadsKeepInv(start: Option<Content>, s: State, e: Event)
    requires Inv(start, s) && Fair(s, e)
    requires e.FetchUnlocked? || e.LandUnlocked? || e.StatUnlocked? || e.ReloadFails?
    ensures Inv(start, Step(s, e))
  {
    var p := e.process;
    var m := MemoryOf(s, p);
    MemoryOfIsOk(s, p);
    match e
    case FetchUnlocked(_) =>
      if m.reload.Idle? {
        UnlockedKeepsInv(start, s, p, m.(reload := Fetched(s.file, s.version)));
      }
    case LandUnlocked(_) =>
      if m.reload.Fetched? {
        LandingKeepsInv(start, s, p);
      }
    case StatUnlocked(_) =>
      if m.reload.Landed? {
        UnlockedKeepsInv(start, s, p, m.(signature := Signature(s), reload := Idle));
      }
    case ReloadFails(_) => UnlockedKeepsInv(start, s, p, m.(reload := Idle));
    case _ =>
  }

  lemma LandingKeepsInv(start: Option<Content>, s: State, p: nat)
    requires Inv(start, s) && Fair(s, LandUnlocked(p)) && MemoryOf(s, p).reload.Fetched?
    ensures Inv(start, Step(s, LandUnlocked(p)))
  {
    var m := MemoryOf(s, p);
    MemoryOfIsOk(s, p);
    if s.file == Some(Garbage) {
      UnlockedKeepsInv(start, s, p, m.(reload := Idle));
    } else {
      LoadedIsOk(s, m, s.file);
      var next := if s.file.None? then Idle else Landed(s.version);
      UnlockedKeepsInv(start, s, p, Loaded(m, s.file, s.version).(reload := next));
    }
  }

  lemma StepKeepsInv(start: Option<Content>, s: State, e: Event)
    requires Inv(start, s) && Fair(s, e)
    ensures Inv(start, Step(s, e))
  {
    if Step(s, e) != s {
      match e
      case Begin(p, op) => BeginKeepsInv(start, s, p, op);
      case TryLock(_) => WaitingKeepsInv(start, s, e);
      case GiveUp(t) => GiveUpKeepsInv(start, s, t);
      case ClearStale(_) => WaitingKeepsInv(start, s, e);
      case ReadFile(t) => ReadKeepsInv(start, s, t);
      case StatFile(t) => StatKeepsInv(start, s, t);
      case Snapshot(t, listing) => SnapshotKeepsInv(start, s, t, listing);
      case WriteDone(t) => WriteKeepsInv(start, s, t);
      case RenameDone(t) => RenameKeepsInv(start, s, t);
      case StatAgain(t) => StatAgainKeepsInv(start, s, t);
      case Fail(_) => EndingKeepsInv(start, s, e);
      case Release(_) => EndingKeepsInv(start, s, e);
      case FetchUnlocked(_) => ReloadsKeepInv(start, s, e);
      case LandUnlocked(_) => ReloadsKeepInv(start, s, e);
      case StatUnlocked(_) => ReloadsKeepInv(start, s, e);
      case ReloadFails(_) => ReloadsKeepInv(start, s, e);
      case Tick(now) => TickKeepsInv(start, s, now);
      case Crash(p) => CrashKeepsInv(start, s, p);
    }
  }

  /** What one step does to the file and to the log of operations. */
  ghost predicate Extends(file: Option<Content>, ops: seq<Op>, newFile: Option<Content>, newOps: seq<Op>) {
    || (newFile == file && newOps == ops)
    || (exists op :: newOps == ops + [op] && Disk(newFile) == Apply(Disk(file), op))
  }

  lemma StepExtends(start: Option<Content>, s: State, e: Event)
    requires Inv(start, s)
    ensures Extends(s.file, s.ops, Step(s, e).file, Step(s, e).ops)
  {
    var r := Step(s, e);
    if r.ops != s.ops {
      var t := e.task;
      var op := s.tasks[t].op;
      assert TaskOk(s, t);
      MemoryOfIsOk(s, s.tasks[t].process);
      assert r.ops == s.ops + [op];
      assert Disk(r.file) == Apply(Disk(s.file), op);
    }
  }

  ghost predicate Folded(start: Option<Content>, file: Option<Content>, ops: seq<Op>) {
    Disk(file) == ApplyAll(Disk(start), ops)
  }

  lemma ExtendingKeepsFolded(
      start: Option<Content>, file: Option<Content>, ops: seq<Op>, newFile: Option<Content>, newOps: seq<Op>)
    requires Folded(start, file, ops) && Extends(file, ops, newFile, newOps)
    ensures Folded(start, newFile, newOps)
  {
    if newOps != ops {
      assert newOps[..|ops|] == ops;
    }
  }

  lemma InitialIsInv(start: Option<Content>, s: State)
    requires s == Initial(start)
    ensures Inv(start, s) && Folded(start, s.file, s.ops)
  {
  }

  lemma {:induction false} ReachedInIsInv(start: Option<Content>, n: nat, s: State)
    requires ReachedIn(start, n, s)
    ensures Inv(start, s) && Folded(start, s.file, s.ops)
    decreases n, 1
  {
    if n == 0 {
      InitialIsInv(start, s);
    } else {
      var r, e :| ReachedIn(start, n - 1, r) && Fair(r, e) && Step(r, e) == s;
      NextIsInv(start, n - 1, r, e, s);
    }
  }

  lemma {:induction false} NextIsInv(start: Option<Content>, n: nat, s: State, e: Event, t: State)
    requires ReachedIn(start, n, s) && Fair(s, e) && Step(s, e) == t
    ensures Inv(start, t) && Folded(start, t.file, t.ops)
    decreases n, 2
  {
    ReachedInIsInv(start, n, s);
    StepKeepsInv(start, s, e);
    StepExtends(start, s, e);
    ExtendingKeepsFolded(start, s.file, s.ops, t.file, t.ops);
  }

  /** The invariant holds in every state of every fair run. */
  lemma ReachedIsInv(start: Option<Content>, s: State)
    requires Reached(start, s)
    ensures Inv(start, s) && Folded(start, s.file, s.ops)
  {
    var n: nat :| ReachedIn(start, n, s);
    ReachedInIsInv(start, n, s);
  }

  lemma ReachedStep(start: Option<Content>, s: State, e: Event, t: State)
    requires Reached(start, s) && Fair(s, e) && t == Step(s, e)
    ensures Reached(start, t)
  {
    var n: nat :| ReachedIn(start, n, s);
    assert ReachedIn(start, n + 1, t);
  }

  // ----------------------------------------------------------- main results

  /** At most one task is inside the critical section, stale locks, crashes and
      release by path notwithstanding. */
  lemma AtMostOneHolder(start: Option<Content>, s: State, t: nat, u: nat)
    requires Reached(start, s) && At(s, t) && At(s, u)
    requires Holding(s.tasks[t].pc) && Holding(s.tasks[u].pc)
    ensures t == u && s.lock.Some? && s.lock.value.owner == t
  {
    ReachedIsInv(start, s);
    assert TaskOk(s, t) && TaskOk(s, u);
  }

  /** No lost update: the disk is what the operations that took effect make of
      the old one, applied one after the other. Each operation is among them at
      most once, and exactly once when its task has reported success. */
  lemma DiskIsTheOperationsInOrder(start: Option<Content>, s: State)
    requires Reached(start, s)
    ensures Disk(s.file) == ApplyAll(Disk(start), s.ops) && |s.log| == |s.ops|
    ensures forall i :: 0 <= i < |s.log| ==> At(s, s.log[i]) && s.ops[i] == s.tasks[s.log[i]].op
    ensures forall i, j :: 0 <= i < j < |s.log| ==> s.log[i] != s.log[j]
    ensures forall t :: 0 <= t < |s.tasks| && s.tasks[t].pc == Done(true) ==> t in s.log
  {
    ReachedIsInv(start, s);
    forall t | 0 <= t < |s.tasks| && s.tasks[t].pc == Done(true) ensures t in s.log {
      assert TaskOk(s, t);
    }
  }

  /** While only upserts have run, a successful one is never undercut: its key's
      floor on disk is at least what it asked for, whoever else was writing. */
  lemma SuccessfulUpsertsStand(start: Option<Content>, s: State, t: nat)
    requires Reached(start, s) && AllUpserts(s.ops) && At(s, t) && s.tasks[t].pc == Done(true)
    ensures s.tasks[t].op.Upsert?
    ensures OpKey(s.tasks[t].op) in Disk(s.file)
    ensures s.tasks[t].op.entry.nextNonce <= Disk(s.file)[OpKey(s.tasks[t].op)].nextNonce
  {
    DiskIsTheOperationsInOrder(start, s);
    var i :| 0 <= i < |s.log| && s.log[i] == t;
    UpsertsKeepTheMaximum(Disk(start), s.ops, OpKey(s.tasks[t].op));
  }

  /** Every step leaves the state file alone, or replaces it by one that holds
      exactly one task's operation on top of what was there. A crash at any point
      leaves it alone. */
  lemma TheFileIsOldOrNew(start: Option<Content>, s: State, e: Event)
    requires Reached(start, s) && Fair(s, e)
    ensures var file := Step(s, e).file;
            || file == s.file
            || (&& e.RenameDone? && At(s, e.task) && file.Some? && file.value.Listing?
                && Disk(file) == Apply(Disk(s.file), s.tasks[e.task].op))
  {
    ReachedIsInv(start, s);
    if e.RenameDone? && At(s, e.task) {
      assert TaskOk(s, e.task);
    }
  }

  /** An unparsable state file stays as it is. */
  lemma UnparsableFileIsNeverOverwritten(start: Option<Content>, s: State)
    requires Reached(start, s)
    ensures start == Some(Garbage) <==> s.file == Some(Garbage)
  {
    ReachedIsInv(start, s);
  }

  /** When the stored signature is the file's, the cached entries are the disk's
      with this process's own unwritten change, if it has one, on top. */
  lemma MatchingSignatureMeansCurrent(start: Option<Content>, s: State, p: nat)
    requires Reached(start, s) && MemoryOf(s, p).loaded && MemoryOf(s, p).signature == Signature(s)
    ensures MemoryOf(s, p).entries == With(Disk(s.file), MemoryOf(s, p).pending)
    ensures MemoryOf(s, p).pending.None? ==> MemoryOf(s, p).entries == Disk(s.file)
  {
    ReachedIsInv(start, s);
    MemoryOfIsOk(s, p);
  }

  // ------------------------------------------------------- nothing in the way

  /** An operation that finds the lock free and a readable file, and is left
      alone, succeeds: its effect is on disk, the lock is free again, and its
      process's cache is vouched for by the new signature. */
  lemma UndisturbedTasksComplete(start: Option<Content>, s: State, t: nat) returns (r: State)
    requires Reached(start, s) && At(s, t) && s.tasks[t].pc.Waiting? && s.lock.None? && s.file != Some(Garbage)
    ensures Reached(start, r) && r.tasks == s.tasks[t := s.tasks[t].(pc := Done(true))] && r.lock.None?
    ensures Disk(r.file) == Apply(Disk(s.file), s.tasks[t].op) && r.ops == s.ops + [s.tasks[t].op]
    ensures var m := MemoryOf(r, s.tasks[t].process);
            m.loaded && m.signature == Signature(r) && m.entries == Disk(r.file)
  {
    r := EnterAndMerge(start, s, t);
    if r.tasks[t].pc.Merged? {
      r := Persist(start, r, t);
    }
    assert s.tasks[t := s.tasks[t].(pc := Releasing(true))][t := s.tasks[t].(pc := Done(true))]
        == s.tasks[t := s.tasks[t].(pc := Done(true))];
    var last := r;
    r := Move(last.(lock := None), t, Done(true));
    ReachedStep(start, last, Release(t), r);
    LastOperation(start, s, r);
    MatchingWithNothingPending(start, r, s.tasks[t].process);
  }

  lemma LastOperation(start: Option<Content>, s: State, r: State)
    requires Reached(start, s) && Reached(start, r) && |r.ops| > 0 && r.ops[..|r.ops| - 1] == s.ops
    ensures Disk(r.file) == Apply(Disk(s.file), r.ops[|r.ops| - 1])
  {
    ReachedIsInv(start, s);
    ReachedIsInv(start, r);
  }

  lemma MatchingWithNothingPending(start: Option<Content>, s: State, p: nat)
    requires Reached(start, s) && MemoryOf(s, p).loaded && MemoryOf(s, p).pending.None?
    requires MemoryOf(s, p).signature == Signature(s)
    ensures MemoryOf(s, p).entries == Disk(s.file)
  {
    MatchingSignatureMeansCurrent(start, s, p);
  }

  ghost predicate Clean(s: State, p: nat) {
    MemoryOf(s, p).loaded && MemoryOf(s, p).pending.None? && MemoryOf(s, p).signature == Signature(s)
  }

  /** Up to the change in memory, or to the end when there is nothing to change. */
  lemma EnterAndMerge(start: Option<Content>, s: State, t: nat) returns (r: State)
    requires Reached(start, s) && At(s, t) && s.tasks[t].pc.Waiting? && s.lock.None? && s.file != Some(Garbage)
    ensures Reached(start, r) && At(r, t) && r.tasks == s.tasks[t := s.tasks[t].(pc := r.tasks[t].pc)]
    ensures r.tasks[t].pc == Merged || (r.tasks[t].pc == Releasing(true) && Clean(r, s.tasks[t].process))
    ensures r.ops == if r.tasks[t].pc.Merged? then s.ops else s.ops + [s.tasks[t].op]
  {
    var entered := Move(s.(lock := Some(Lock(t, s.now))), t, Entered);
    ReachedStep(start, s, TryLock(t), entered);
    var read := ReadLocked(entered, t);
    ReachedStep(start, entered, ReadFile(t), read);
    r := read;
    if read.tasks[t].pc.Statting? {
      r := StatLocked(read, t);
      ReachedStep(start, read, StatFile(t), r);
    }
  }

  /** From the change in memory to the new signature. */
  lemma Persist(start: Option<Content>, s: State, t: nat) returns (r: State)
    requires Reached(start, s) && At(s, t) && s.tasks[t].pc.Merged?
    ensures Reached(start, r) && r.tasks == s.tasks[t := s.tasks[t].(pc := Releasing(true))]
    ensures r.ops == s.ops + [s.tasks[t].op] && Clean(r, s.tasks[t].process)
  {
    var p := s.tasks[t].process;
    ReachedIsInv(start, s);
    MemoryOfIsOk(s, p);
    var listing := AListing(MemoryOf(s, p).entries);
    var writing := Move(s.(tmp := Some(Garbage)), t, Writing(listing));
    ReachedStep(start, s, Snapshot(t, listing), writing);
    var written := Move(writing.(tmp := Some(Listing(listing))), t, Written);
    ReachedStep(start, writing, WriteDone(t), written);
    r := RenameAndStat(start, written, t);
    assert r.tasks == s.tasks[t := s.tasks[t].(pc := Releasing(true))];
  }

  lemma RenameAndStat(start: Option<Content>, s: State, t: nat) returns (r: State)
    requires Reached(start, s) && At(s, t) && s.tasks[t].pc.Written? && s.tmp.Some?
    ensures Reached(start, r) && r.tasks == s.tasks[t := s.tasks[t].(pc := Releasing(true))]
    ensures r.ops == s.ops + [s.tasks[t].op] && Clean(r, s.tasks[t].process)
  {
    var p := s.tasks[t].process;
    var renamed := RenameTmp(s, t);
    ReachedStep(start, s, RenameDone(t), renamed);
    r := Step(renamed, StatAgain(t));
    ReachedStep(start, renamed, StatAgain(t), r);
    assert r.tasks == s.tasks[t := s.tasks[t].(pc := Releasing(true))];
  }

  /** A lock that nobody holds any more does not stay: once it counts as stale, a
      waiting task clears it, gets in and completes. */
  lemma AbandonedLocksAreCleared(start: Option<Content>, s: State, t: nat) returns (r: State)
    requires Reached(start, s) && At(s, t) && s.tasks[t].pc.Waiting? && s.lock.Some? && !HeldAlive(s)
    requires s.file != Some(Garbage)
    ensures Reached(start, r) && r.tasks == s.tasks[t := s.tasks[t].(pc := Done(true))] && r.lock.None?
    ensures Disk(r.file) == Apply(Disk(s.file), s.tasks[t].op)
  {
    var stale := s.lock.value.createdAt + STATE_LOCK_STALE_MS;
    var late := s.(now := if stale > s.now then stale else s.now);
    ReachedStep(start, s, Tick(stale), late);
    var cleared := late.(lock := None);
    ReachedStep(start, late, ClearStale(t), cleared);
    r := UndisturbedTasksComplete(start, cleared, t);
  }

  /** A process that dies inside the critical section loses its memory and its tasks,
      and nothing else changes; every other process can still get its operation done. */
  lemma CrashesDoNotBlock(start: Option<Content>, s: State, owner: nat, t: nat) returns (crashed: State, r: State)
    requires Reached(start, s) && At(s, owner) && Holding(s.tasks[owner].pc) && s.file != Some(Garbage)
    requires At(s, t) && s.tasks[t].pc.Waiting? && s.tasks[t].process != s.tasks[owner].process
    ensures crashed == Step(s, Crash(s.tasks[owner].process)) && Reached(start, crashed)
    ensures crashed == s.(tasks := crashed.tasks, memories := crashed.memories)
    ensures MemoryOf(crashed, s.tasks[owner].process) == BLANK
    ensures forall p :: p != s.tasks[owner].process ==> MemoryOf(crashed, p) == MemoryOf(s, p)
    ensures |crashed.tasks| == |s.tasks| && crashed.tasks[owner].pc.Died? && crashed.tasks[t] == s.tasks[t]
    ensures Reached(start, r) && r.tasks == crashed.tasks[t := s.tasks[t].(pc := Done(true))] && r.lock.None?
    ensures Disk(r.file) == Apply(Disk(s.file), s.tasks[t].op)
  {
    AtMostOneHolder(start, s, owner, owner);
    crashed := Step(s, Crash(s.tasks[owner].process));
    ReachedStep(start, s, Crash(s.tasks[owner].process), crashed);
    r := AbandonedLocksAreCleared(start, crashed, t);
  }

  /** A task that fails anywhere inside the critical section, or gives up waiting,
      reports so; it leaves the file alone and the lock free, or as it was. */
  lemma FailingTasksLetGo(start: Option<Content>, s: State, t: nat)
    requires Reached(start, s) && At(s, t)
    ensures s.tasks[t].pc.Waiting? ==> Step(s, GiveUp(t)) == s.(tasks := s.tasks[t := s.tasks[t].(pc := Done(false))])
    ensures Holding(s.tasks[t].pc) && !s.tasks[t].pc.Releasing? ==>
              Step(Step(s, Fail(t)), Release(t))
              == s.(tasks := s.tasks[t := s.tasks[t].(pc := Done(false))], lock := None)
  {
    if Holding(s.tasks[t].pc) && !s.tasks[t].pc.Releasing? {
      var failed := Step(s, Fail(t));
      assert failed.tasks[t].pc == Releasing(false);
      assert failed.tasks[t := failed.tasks[t].(pc := Done(false))] == s.tasks[t := s.tasks[t].(pc := Done(false))];
    }
  }

  /** A reader's reload with nothing in between shows the file as it is, and its
      signature vouches for it. */
  lemma UndisturbedReloadsAreCurrent(start: Option<Content>, s: State, p: nat) returns (r: State)
    requires Reached(start, s) && MemoryOf(s, p).reload.Idle? && !PersistingIn(s, p) && s.file != Some(Garbage)
    ensures r == Step(Step(Step(s, FetchUnlocked(p)), LandUnlocked(p)), StatUnlocked(p)) && Reached(start, r)
    ensures r == s.(memories := r.memories) && MemoryOf(r, p).reload.Idle?
    ensures MemoryOf(r, p).loaded && MemoryOf(r, p).signature == Signature(r) && MemoryOf(r, p).entries == Disk(s.file)
  {
    var fetched := Step(s, FetchUnlocked(p));
    ReachedStep(start, s, FetchUnlocked(p), fetched);
    var landed := Step(fetched, LandUnlocked(p));
    ReachedStep(start, fetched, LandUnlocked(p), landed);
    r := Step(landed, StatUnlocked(p));
    ReachedStep(start, landed, StatUnlocked(p), r);
  }

  /** One that fails leaves the cache as it was, and the next can begin. */
  lemma FailedReloadsChangeNothing(start: Option<Content>, s: State, p: nat)
    requires Reached(start, s)
    ensures var r := Step(s, ReloadFails(p));
            && Reached(start, r) && r == s.(memories := r.memories)
            && MemoryOf(r, p) == MemoryOf(s, p).(reload := Idle)
            && forall q :: q != p ==> MemoryOf(r, q) == MemoryOf(s, q)
  {
    ReachedStep(start, s, ReloadFails(p), Step(s, ReloadFails(p)));
  }

  /** Every well-keyed map can be listed. */
  lemma {:induction false} AListing(es: Entries) returns (listing: seq<Entry>)
    requires WellKeyed(es)
    ensures Lists(listing, es)
    decreases |es|
  {
    if es == map[] {
      listing := [];
    } else {
      var k :| k in es;
      var rest := AListing(es - {k});
      listing := rest + [es[k]];
      forall j | j in es ensures es[j] in listing {
        if j == k {
          assert listing[|rest|] == es[k];
        } else {
          assert (es - {k})[j] in rest;
        }
      }
    }
  }

  // ------------------------------------------- what the assumptions are for

  /** The only task: an upsert by process 0 of the floor `e`, about to be written. */
  lemma FirstUpsertMerged(e: Entry) returns (s: State)
    requires Normalized(e) == e
    ensures Reached(None, s)
    ensures s == State(None, 0, None, Some(Lock(0, 0)), 0,
      map[0 := Memory(map[EntryKey(e) := e], true, None, Fetched(None, 0), 0, Some(Upsert(e)))],
      [Task(0, Upsert(e), Merged)], [], [])
  {
    var entered := FirstUpsertEntered(Upsert(e));
    s := ReadLocked(entered, 0);
    ReachedStep(None, entered, ReadFile(0), s);
  }

  lemma FirstUpsertEntered(op: Op) returns (s: State)
    ensures Reached(None, s)
    ensures s == State(None, 0, None, Some(Lock(0, 0)), 0,
      map[0 := BLANK.(reload := Fetched(None, 0))], [Task(0, op, Entered)], [], [])
  {
    assert ReachedIn(None, 0, Initial(None));
    var fetched := Remember(Initial(None), 0, BLANK.(reload := Fetched(None, 0)));
    ReachedStep(None, Initial(None), FetchUnlocked(0), fetched);
    var begun := fetched.(tasks := [Task(0, op, Waiting)]);
    ReachedStep(None, fetched, Begin(0, op), begun);
    s := begun.(tasks := [Task(0, op, Entered)], lock := Some(Lock(0, 0)));
    ReachedStep(None, begun, TryLock(0), s);
  }

  /** The rest of task t, from its snapshot on. */
  function PersistTo(s: State, t: nat, listing: seq<Entry>): State {
    Step(Step(Step(Step(Step(s, Snapshot(t, listing)), WriteDone(t)), RenameDone(t)), StatAgain(t)), Release(t))
  }

  /** Whatever the process holds in memory is what ends up on disk. */
  lemma PersistingSaves(s: State, t: nat, listing: seq<Entry>)
    requires At(s, t) && s.tasks[t].pc.Merged? && Lists(listing, MemoryOf(s, s.tasks[t].process).entries)
    requires WellKeyed(MemoryOf(s, s.tasks[t].process).entries)
    ensures var r := PersistTo(s, t, listing);
            && Disk(r.file) == MemoryOf(s, s.tasks[t].process).entries
            && At(r, t) && r.tasks[t] == s.tasks[t].(pc := Done(true))
  {
    LoadsWhatWasSaved(listing, MemoryOf(s, s.tasks[t].process).entries);
    var s1 := Step(s, Snapshot(t, listing));
    assert s1.tasks[t] == s.tasks[t].(pc := Writing(listing));
    var s2 := Step(s1, WriteDone(t));
    assert s2.tasks[t] == s.tasks[t].(pc := Written) && s2.tmp == Some(Listing(listing));
    RenameToRelease(s2, t, Step(s2, RenameDone(t)), listing);
  }

  lemma RenameToRelease(s: State, t: nat, renamed: State, listing: seq<Entry>)
    requires At(s, t) && s.tasks[t].pc.Written? && s.tmp == Some(Listing(listing)) && renamed == Step(s, RenameDone(t))
    ensures var r := Step(Step(renamed, StatAgain(t)), Release(t));
            r.file == Some(Listing(listing)) && At(r, t) && r.tasks[t] == s.tasks[t].(pc := Done(true))
  {
    assert renamed.tasks[t] == s.tasks[t].(pc := Renamed);
    assert Step(renamed, StatAgain(t)).tasks[t] == s.tasks[t].(pc := Releasing(true));
  }

  /** The file holds a floor that is at least the one the upsert asked for. */
  predicate Stands(file: Option<Content>, e: Entry) {
    EntryKey(e) in Disk(file) && e.nextNonce <= Disk(file)[EntryKey(e)].nextNonce
  }

  /** An unlocked reload that lands between an upsert's change in memory and its
      snapshot: the upsert reports success all the same, and its floor is on disk
      exactly when the text that was read already had it, or did not parse. If
      that text is the file's own, any floor that the upsert raises is lost. */
  lemma UnlockedReloadDecides(
      start: Option<Content>, s: State, t: nat, landed: State, listing: seq<Entry>) returns (r: State)
    requires Reached(start, s) && At(s, t) && s.tasks[t].pc.Merged? && s.tasks[t].op.Upsert?
    requires MemoryOf(s, s.tasks[t].process).reload.Fetched? && landed == Step(s, LandUnlocked(s.tasks[t].process))
    requires Lists(listing, MemoryOf(landed, s.tasks[t].process).entries)
    ensures r == PersistTo(landed, t, listing) && At(r, t) && r.tasks[t] == s.tasks[t].(pc := Done(true))
    ensures var read, e := MemoryOf(s, s.tasks[t].process).reload, s.tasks[t].op.entry;
            && (Stands(r.file, e) <==> read.content == Some(Garbage) || Stands(read.content, e))
            && (read.version == s.version && Stands(r.file, e) ==>
                  FloorOf(Disk(s.file), EntryKey(e)) == e.nextNonce)
  {
    r := PersistTo(landed, t, listing);
    LandedEntries(start, s, t, landed, r.file);
    PersistingSaves(landed, t, listing);
  }

  /** What the process then holds in memory, and what that says of any file that
      is loaded as the same. */
  lemma LandedEntries(start: Option<Content>, s: State, t: nat, landed: State, file: Option<Content>)
    requires Reached(start, s) && At(s, t) && s.tasks[t].pc.Merged? && s.tasks[t].op.Upsert?
    requires MemoryOf(s, s.tasks[t].process).reload.Fetched? && landed == Step(s, LandUnlocked(s.tasks[t].process))
    ensures At(landed, t) && landed.tasks[t] == s.tasks[t] && WellKeyed(MemoryOf(landed, s.tasks[t].process).entries)
    ensures var read, e := MemoryOf(s, s.tasks[t].process).reload, s.tasks[t].op.entry;
            Disk(file) == MemoryOf(landed, s.tasks[t].process).entries ==>
              && (Stands(file, e) <==> read.content == Some(Garbage) || Stands(read.content, e))
              && (read.version == s.version && Stands(file, e) ==>
                    FloorOf(Disk(s.file), EntryKey(e)) == e.nextNonce)
  {
    MergedMemory(start, s, t);
    LandedFrom(s, t, landed, MemoryOf(s, s.tasks[t].process), file);
  }

  lemma LandedFrom(s: State, t: nat, landed: State, m: Memory, file: Option<Content>)
    requires At(s, t) && s.tasks[t].op.Upsert? && m == MemoryOf(s, s.tasks[t].process) && m.reload.Fetched?
    requires landed == Step(s, LandUnlocked(s.tasks[t].process))
    requires WellKeyed(m.entries) && Effective(Disk(s.file), s.tasks[t].op)
    requires m.entries == Apply(Disk(s.file), s.tasks[t].op)
    requires m.reload.version == s.version ==> m.reload.content == s.file != Some(Garbage)
    ensures At(landed, t) && landed.tasks[t] == s.tasks[t] && WellKeyed(MemoryOf(landed, s.tasks[t].process).entries)
    ensures var read, e := m.reload, s.tasks[t].op.entry;
            Disk(file) == MemoryOf(landed, s.tasks[t].process).entries ==>
              && (Stands(file, e) <==> read.content == Some(Garbage) || Stands(read.content, e))
              && (read.version == s.version && Stands(file, e) ==>
                    FloorOf(Disk(s.file), EntryKey(e)) == e.nextNonce)
  {
    var read := m.reload.content;
    if read.Some? && read.value.Listing? {
      LoadIsWellKeyed(read.value.entries);
    }
  }

  lemma MergedMemory(start: Option<Content>, s: State, t: nat)
    requires Reached(start, s) && At(s, t) && s.tasks[t].pc.Merged?
    ensures var m, op := MemoryOf(s, s.tasks[t].process), s.tasks[t].op;
            && WellKeyed(m.entries) && Effective(Disk(s.file), op) && m.entries == Apply(Disk(s.file), op)
            && (m.reload.Fetched? && m.reload.version == s.version ==> m.reload.content == s.file != Some(Garbage))
  {
    ReachedIsInv(start, s);
    assert TaskOk(s, t);
    MemoryOfIsOk(s, s.tasks[t].process);
  }

  /** Such a landing is within reach, so that without the assumption a first
      upsert reports success while no floor at all is on disk. */
  lemma UnlockedReloadLosesAnUpdate(e: Entry) returns (s: State)
    requires Normalized(e) == e
    ensures Reached(None, s) && At(s, 0) && s.tasks[0] == Task(0, Upsert(e), Merged)
    ensures var r := PersistTo(Step(s, LandUnlocked(0)), 0, []);
            Disk(r.file) == map[] && At(r, 0) && r.tasks[0] == Task(0, Upsert(e), Done(true))
  {
    s := FirstUpsertMerged(e);
    var landed := Step(s, LandUnlocked(0));
    assert MemoryOf(landed, 0).entries == map[];
    PersistingSaves(landed, 0, []);
  }

  /** A failed write leaves the change in memory under a matching signature: the
      cache shows a floor that the disk does not have. */
  lemma FailedWriteLeavesTheCacheAhead(e: Entry) returns (s: State)
    requires Normalized(e) == e
    ensures Reached(None, s) && s.tasks == [Task(0, Upsert(e), Done(false))]
    ensures var m := MemoryOf(s, 0);
            m.loaded && m.signature == Signature(s) && EntryKey(e) in m.entries && Disk(s.file) == map[]
  {
    var merged := FirstUpsertMerged(e);
    var failed := merged.(tasks := [Task(0, Upsert(e), Releasing(false))]);
    ReachedStep(None, merged, Fail(0), failed);
    s := failed.(tasks := [Task(0, Upsert(e), Done(false))], lock := None);
    ReachedStep(None, failed, Release(0), s);
  }
}
