/** Concurrent writers on one store: every load, staging write, rename and lock
    operation is a step of its own, and steps interleave freely under the per-file
    locks; the process may die between any two of them. */
module StateConcurrency {
  import opened Json
  import opened StateStore

  /** What runs under one lock. A delete is two of them, one after the other. */
  datatype Txn =
    | TSet(ns: string, key: string, v: Json)
    | TSetNx(ns: string, key: string, v: Json)
    | TIncr(ns: string, key: string, delta: F64, default: F64)
    | TRemoveFile(key: string)
    | TRemoveEntry(ns: string, key: string)

  datatype Ret = RUnit | RBool(b: bool) | RNum(x: F64) | RErr

  /** What a transaction decides once it has read. */
  datatype Plan = Write(text: string, ret: Ret) | Remove(ret: Ret) | Answer(ret: Ret)

  /** The file a transaction locks; phase one of a delete exists only for keys with
      a file of their own. */
  function PathOf(t: Txn): Path {
    match t
    case TRemoveEntry(ns, _) => Legacy(ns)
    case TRemoveFile(key) => if DispatchPath(key).Some? then DispatchPath(key).value else Legacy("")
    case _ => if DispatchPath(t.key).Some? then DispatchPath(t.key).value else Legacy(t.ns)
  }

  predicate IsTxn(t: Txn) {
    t.TRemoveFile? ==> DispatchPath(t.key).Some?
  }

  function PutText(disk: Disk, ns: string, key: string, v: Json, codec: JsonCodec): string
    requires CanPut(disk, ns, key, codec)
  {
    if DispatchPath(key).Some? then codec.render(v)
    else codec.render(Obj(ReadLegacy(disk, ns, codec).value[key := v]))
  }

  function PlanOf(disk: Disk, t: Txn, codec: JsonCodec): Plan {
    match t
    case TSet(ns, key, v) =>
      if CanPut(disk, ns, key, codec) then Write(PutText(disk, ns, key, v, codec), RUnit) else Answer(RErr)
    case TSetNx(ns, key, v) =>
      var h := HasKey(disk, ns, key, codec);
      if h.Err? then Answer(RErr)
      else if h.value then Answer(RBool(false))
      else Write(PutText(disk, ns, key, v, codec), RBool(true))
    case TIncr(ns, key, delta, default) =>
      var cur := Lookup(disk, ns, key, codec);
      if cur.Err? || (cur.value.Some? && !IsNumber(cur.value.value)) then Answer(RErr)
      else
        var sum := AddF64(if cur.value.Some? then NumberOf(cur.value.value) else default, delta);
        Write(PutText(disk, ns, key, Float(sum), codec), RNum(sum))
    case TRemoveFile(key) => if InFile(disk, key) then Remove(RBool(true)) else Answer(RBool(false))
    case TRemoveEntry(ns, key) =>
      var m := ReadLegacy(disk, ns, codec);
      if m.Err? then Answer(RErr)
      else if key !in m.value then Answer(RBool(false))
      else Write(codec.render(Obj(m.value - {key})), RBool(true))
  }

  function Commit(disk: Disk, path: Path, plan: Plan): Disk {
    match plan
    case Write(text, _) => disk[Live(path) := text]
    case Remove(_) => disk - {Live(path)}
    case Answer(_) => disk
  }

  /** The live files of a disk. */
  function LiveOnly(disk: Disk): Disk {
    map f | f in disk && f.Live? :: disk[f]
  }

  predicate AllLive(disk: Disk) {
    forall f | f in disk :: f.Live?
  }

  // ----- the system -----

  /** A committed transaction, with the length of the log when it had read. */
  datatype Entry = Entry(txn: Txn, plan: Plan, at: nat)

  datatype Pc =
    | Locked(txn: Txn)
    | Planned(txn: Txn, plan: Plan, at: nat)
    | Staging(txn: Txn, plan: Plan, at: nat)
    | Staged(txn: Txn, plan: Plan, at: nat)
    | Committed(txn: Txn, ret: Ret)

  datatype Sys = Sys(codec: JsonCodec, start: Disk, disk: Disk, locks: set<Path>, tasks: map<nat, Pc>,
    log: seq<Entry>)

  function Boot(codec: JsonCodec, disk: Disk): Sys {
    Sys(codec, LiveOnly(disk), disk, {}, map[], [])
  }

  datatype Move =
    | Acquire(task: nat, txn: Txn)
    | Load(task: nat)
    | Stage(task: nat, partial: string)
    | Fill(task: nat)
    | Rename(task: nat)
    | Unlink(task: nat)
    | Settle(task: nat)
    | Release(task: nat)
    | Fail(task: nat)
    | Crash

  predicate Enabled(s: Sys, m: Move) {
    match m
    case Acquire(k, t) => k !in s.tasks && IsTxn(t) && PathOf(t) !in s.locks
    case Load(k) => k in s.tasks && s.tasks[k].Locked?
    case Stage(k, _) => k in s.tasks && s.tasks[k].Planned? && s.tasks[k].plan.Write?
    case Fill(k) => k in s.tasks && s.tasks[k].Staging? && s.tasks[k].plan.Write?
    case Rename(k) => k in s.tasks && s.tasks[k].Staged? && Tmp(PathOf(s.tasks[k].txn)) in s.disk
    case Unlink(k) => k in s.tasks && s.tasks[k].Planned? && s.tasks[k].plan.Remove?
    case Settle(k) => k in s.tasks && s.tasks[k].Planned? && s.tasks[k].plan.Answer?
    case Release(k) => k in s.tasks && s.tasks[k].Committed?
    case Fail(k) => k in s.tasks && (s.tasks[k].Planned? || s.tasks[k].Staging? || s.tasks[k].Staged?)
    case Crash => true
  }

  function Next(s: Sys, m: Move): Sys
    requires Enabled(s, m)
  {
    match m
    case Acquire(k, t) => s.(locks := s.locks + {PathOf(t)}, tasks := s.tasks[k := Locked(t)])
    case Load(k) =>
      var t := s.tasks[k].txn;
      s.(tasks := s.tasks[k := Planned(t, PlanOf(s.disk, t, s.codec), |s.log|)])
    case Stage(k, partial) =>
      var pc := s.tasks[k];
      s.(disk := s.disk[Tmp(PathOf(pc.txn)) := partial], tasks := s.tasks[k := Staging(pc.txn, pc.plan, pc.at)])
    case Fill(k) =>
      var pc := s.tasks[k];
      s.(disk := s.disk[Tmp(PathOf(pc.txn)) := pc.plan.text], tasks := s.tasks[k := Staged(pc.txn, pc.plan, pc.at)])
    case Rename(k) =>
      var pc := s.tasks[k];
      var path := PathOf(pc.txn);
      s.(disk := s.disk[Live(path) := s.disk[Tmp(path)]] - {Tmp(path)},
      tasks := s.tasks[k := Committed(pc.txn, pc.plan.ret)], log := s.log + [Entry(pc.txn, pc.plan, pc.at)])
    case Unlink(k) =>
      var pc := s.tasks[k];
      s.(disk := s.disk - {Live(PathOf(pc.txn))},
      tasks := s.tasks[k := Committed(pc.txn, pc.plan.ret)], log := s.log + [Entry(pc.txn, pc.plan, pc.at)])
    case Settle(k) =>
      var pc := s.tasks[k];
      s.(tasks := s.tasks[k := Committed(pc.txn, pc.plan.ret)], log := s.log + [Entry(pc.txn, pc.plan, pc.at)])
    case Release(k) => s.(locks := s.locks - {PathOf(s.tasks[k].txn)}, tasks := s.tasks - {k})
    case Fail(k) => s.(locks := s.locks - {PathOf(s.tasks[k].txn)}, tasks := s.tasks - {k})
    case Crash => s.(locks := {}, tasks := map[])
  }

  // ----- the invariant -----

  function Replay(start: Disk, log: seq<Entry>): Disk {
    if log == [] then start
    else
      var e := log[|log| - 1];
      Commit(Replay(start, log[..|log| - 1]), PathOf(e.txn), e.plan)
  }

  /** No entry from the given place on touched this file. */
  predicate Untouched(log: seq<Entry>, at: nat, path: Path) {
    at <= |log| && forall i | at <= i < |log| :: PathOf(log[i].txn) != path
  }

  /** The plan was made from the disk as it was after the first `at` entries, and its
      own file has not been touched since. */
  ghost predicate PlanIsCurrent(start: Disk, log: seq<Entry>, codec: JsonCodec, t: Txn, plan: Plan, at: nat) {
    && IsTxn(t) && Untouched(log, at, PathOf(t))
    && plan == PlanOf(Replay(start, log[..at]), t, codec)
  }

  predicate HasPlan(pc: Pc) {
    pc.Planned? || pc.Staging? || pc.Staged?
  }

  ghost predicate TaskOk(s: Sys, k: nat)
    requires k in s.tasks
  {
    var pc := s.tasks[k];
    && IsTxn(pc.txn) && PathOf(pc.txn) in s.locks
    && (HasPlan(pc) ==> PlanIsCurrent(s.start, s.log, s.codec, pc.txn, pc.plan, pc.at))
    && (pc.Staging? || pc.Staged? ==> pc.plan.Write?)
    && (pc.Staged? ==> Tmp(PathOf(pc.txn)) in s.disk && s.disk[Tmp(PathOf(pc.txn))] == pc.plan.text)
  }

  ghost predicate Exclusive(s: Sys) {
    forall j, k | j in s.tasks && k in s.tasks && PathOf(s.tasks[j].txn) == PathOf(s.tasks[k].txn) :: j == k
  }

  ghost predicate EntryOk(s: Sys, i: nat)
    requires i < |s.log|
  {
    var e := s.log[i];
    PlanIsCurrent(s.start, s.log[..i], s.codec, e.txn, e.plan, e.at)
  }

  ghost predicate Inv(s: Sys) {
    && LiveOnly(s.disk) == Replay(s.start, s.log)
    && (forall k | k in s.tasks :: TaskOk(s, k))
    && Exclusive(s)
    && (forall i | 0 <= i < |s.log| :: EntryOk(s, i))
  }

  lemma BootInv(codec: JsonCodec, disk: Disk)
    ensures Inv(Boot(codec, disk))
  {
  }

  // ----- reads see the live files only -----

  lemma PlanIgnoresStaging(disk: Disk, t: Txn, codec: JsonCodec)
    requires IsTxn(t)
    ensures PlanOf(LiveOnly(disk), t, codec) == PlanOf(disk, t, codec)
  {
    hide IsSafeSegment, DispatchPath;
    var live := LiveOnly(disk);
    assert forall p :: (Live(p) in live <==> Live(p) in disk) && (Live(p) in disk ==> live[Live(p)] == disk[Live(p)]);
    if !t.TRemoveFile? {
      assert ReadLegacy(live, t.ns, codec) == ReadLegacy(disk, t.ns, codec);
    }
  }

  // ----- every move keeps it -----

  lemma PrefixUntouched(log: seq<Entry>, e: Entry, at: nat, path: Path)
    requires Untouched(log, at, path)
    ensures Untouched(log + [e], at, path) <==> PathOf(e.txn) != path
  {
    hide PathOf;
    assert (log + [e])[|log|] == e;
    forall i | at <= i < |log|
      ensures PathOf((log + [e])[i].txn) != path
    {
      assert (log + [e])[i] == log[i];
    }
  }

  lemma PlanStaysCurrent(start: Disk, log: seq<Entry>, codec: JsonCodec, t: Txn, plan: Plan, at: nat, e: Entry)
    requires PlanIsCurrent(start, log, codec, t, plan, at) && PathOf(e.txn) != PathOf(t)
    ensures PlanIsCurrent(start, log + [e], codec, t, plan, at)
  {
    hide PathOf, PlanOf;
    PrefixUntouched(log, e, at, PathOf(t));
    assert (log + [e])[..at] == log[..at];
  }

  lemma ReplaySnoc(start: Disk, log: seq<Entry>, e: Entry)
    ensures Replay(start, log + [e]) == Commit(Replay(start, log), PathOf(e.txn), e.plan)
  {
    assert (log + [e])[..|log|] == log;
  }

  /** Only this task moves, and neither the log nor a live file changes. */
  ghost predicate Local(s: Sys, s': Sys, k: nat) {
    && s'.codec == s.codec && s'.start == s.start && s'.log == s.log
    && LiveOnly(s'.disk) == LiveOnly(s.disk)
    && (forall j | j != k :: j in s.tasks <==> j in s'.tasks)
    && (forall j | j != k && j in s.tasks :: s'.tasks[j] == s.tasks[j])
  }

  /** What another task relies on. */
  ghost predicate Spares(s: Sys, s': Sys, path: Path) {
    && (path in s.locks ==> path in s'.locks)
    && (Tmp(path) in s.disk ==> Tmp(path) in s'.disk && s'.disk[Tmp(path)] == s.disk[Tmp(path)])
  }

  lemma LocalMove(s: Sys, s': Sys, k: nat, path: Path)
    requires Inv(s) && Local(s, s', k)
    requires k in s.tasks ==> PathOf(s.tasks[k].txn) == path
    requires k in s'.tasks ==> TaskOk(s', k) && PathOf(s'.tasks[k].txn) == path
    requires k in s.tasks || path !in s.locks
    requires forall p | p != path :: Spares(s, s', p)
    ensures Inv(s')
  {
    hide PathOf, PlanOf, PlanIsCurrent, LiveOnly, Replay, IsTxn;
    forall j | j in s.tasks && j != k
      ensures PathOf(s.tasks[j].txn) != path && TaskOk(s', j)
    {
      assert TaskOk(s, j);
      assert Spares(s, s', PathOf(s.tasks[j].txn));
    }
    forall i | 0 <= i < |s'.log|
      ensures EntryOk(s', i)
    {
      assert EntryOk(s, i);
    }
  }

  lemma AcquireKeeps(s: Sys, k: nat, t: Txn)
    requires Inv(s) && Enabled(s, Acquire(k, t))
    ensures Inv(Next(s, Acquire(k, t)))
  {
    hide PathOf, PlanOf, PlanIsCurrent, LiveOnly, Replay, IsTxn, Inv;
    LocalMove(s, Next(s, Acquire(k, t)), k, PathOf(t));
  }

  lemma LoadKeeps(s: Sys, k: nat)
    requires Inv(s) && Enabled(s, Load(k))
    ensures Inv(Next(s, Load(k)))
  {
    hide PathOf, PlanOf, LiveOnly, Replay, IsTxn;
    var t := s.tasks[k].txn;
    assert TaskOk(s, k);
    PlanIgnoresStaging(s.disk, t, s.codec);
    assert s.log[..|s.log|] == s.log;
    hide Inv;
    LocalMove(s, Next(s, Load(k)), k, PathOf(t));
  }

  lemma TmpIsNotLive(disk: Disk, path: Path, text: string)
    ensures LiveOnly(disk[Tmp(path) := text]) == LiveOnly(disk)
  {
  }

  lemma StageKeeps(s: Sys, k: nat, partial: string)
    requires Inv(s) && Enabled(s, Stage(k, partial))
    ensures Inv(Next(s, Stage(k, partial)))
  {
    hide PathOf, PlanOf, PlanIsCurrent, LiveOnly, Replay, IsTxn;
    var path := PathOf(s.tasks[k].txn);
    assert TaskOk(s, k);
    TmpIsNotLive(s.disk, path, partial);
    hide Inv;
    LocalMove(s, Next(s, Stage(k, partial)), k, path);
  }

  lemma FillKeeps(s: Sys, k: nat)
    requires Inv(s) && Enabled(s, Fill(k))
    ensures Inv(Next(s, Fill(k)))
  {
    hide PathOf, PlanOf, PlanIsCurrent, LiveOnly, Replay, IsTxn;
    var path := PathOf(s.tasks[k].txn);
    assert TaskOk(s, k);
    TmpIsNotLive(s.disk, path, s.tasks[k].plan.text);
    hide Inv;
    LocalMove(s, Next(s, Fill(k)), k, path);
  }

  lemma ReleaseKeeps(s: Sys, k: nat, m: Move)
    requires Inv(s) && Enabled(s, m) && (m == Release(k) || m == Fail(k))
    ensures Inv(Next(s, m))
  {
    hide PathOf, PlanOf, PlanIsCurrent, LiveOnly, Replay, IsTxn, Inv;
    LocalMove(s, Next(s, m), k, PathOf(s.tasks[k].txn));
  }

  lemma CrashKeeps(s: Sys)
    requires Inv(s)
    ensures Inv(Next(s, Crash))
  {
    hide PlanIsCurrent, LiveOnly, Replay;
    var s' := Next(s, Crash);
    forall i | 0 <= i < |s'.log|
      ensures EntryOk(s', i)
    {
      assert EntryOk(s, i);
    }
  }

  /** A commit: one task logs its plan and the live files follow. */
  lemma CommitKeeps(s: Sys, s': Sys, k: nat)
    requires Inv(s) && k in s.tasks && HasPlan(s.tasks[k])
    requires var pc := s.tasks[k];
             && s'.codec == s.codec && s'.start == s.start && s'.locks == s.locks
             && s'.tasks == s.tasks[k := Committed(pc.txn, pc.plan.ret)]
             && s'.log == s.log + [Entry(pc.txn, pc.plan, pc.at)]
             && LiveOnly(s'.disk) == Commit(LiveOnly(s.disk), PathOf(pc.txn), pc.plan)
             && forall p | p != PathOf(pc.txn) :: Spares(s, s', p)
    ensures Inv(s')
  {
    hide PathOf, PlanOf, PlanIsCurrent, LiveOnly, Replay, IsTxn, Commit;
    var pc := s.tasks[k];
    var e := Entry(pc.txn, pc.plan, pc.at);
    assert TaskOk(s, k);
    ReplaySnoc(s.start, s.log, e);
    forall j | j in s'.tasks
      ensures TaskOk(s', j)
    {
      assert TaskOk(s, j);
      if j != k {
        assert PathOf(s.tasks[j].txn) != PathOf(pc.txn);
        assert Spares(s, s', PathOf(s.tasks[j].txn));
        if HasPlan(s.tasks[j]) {
          PlanStaysCurrent(s.start, s.log, s.codec, s.tasks[j].txn, s.tasks[j].plan, s.tasks[j].at, e);
        }
      }
    }
    forall i | 0 <= i < |s'.log|
      ensures EntryOk(s', i)
    {
      if i < |s.log| {
        assert EntryOk(s, i);
        assert s'.log[..i] == s.log[..i];
      } else {
        assert s'.log[..i] == s.log;
      }
    }
  }

  lemma RenameIsCommit(disk: Disk, path: Path, plan: Plan)
    requires plan.Write? && Tmp(path) in disk && disk[Tmp(path)] == plan.text
    ensures LiveOnly(disk[Live(path) := disk[Tmp(path)]] - {Tmp(path)}) == Commit(LiveOnly(disk), path, plan)
  {
  }

  lemma UnlinkIsCommit(disk: Disk, path: Path, plan: Plan)
    requires plan.Remove?
    ensures LiveOnly(disk - {Live(path)}) == Commit(LiveOnly(disk), path, plan)
  {
  }

  lemma CommitMoveKeeps(s: Sys, k: nat, m: Move)
    requires Inv(s) && Enabled(s, m) && (m == Rename(k) || m == Unlink(k) || m == Settle(k))
    ensures Inv(Next(s, m))
  {
    hide PathOf, PlanOf, PlanIsCurrent, LiveOnly, Replay, IsTxn;
    var pc := s.tasks[k];
    assert TaskOk(s, k);
    match m {
      case Rename(_) => RenameIsCommit(s.disk, PathOf(pc.txn), pc.plan);
      case Unlink(_) => UnlinkIsCommit(s.disk, PathOf(pc.txn), pc.plan);
      case Settle(_) =>
    }
    hide Inv, TaskOk, Commit;
    CommitKeeps(s, Next(s, m), k);
  }

  lemma MoveKeepsInv(s: Sys, m: Move)
    requires Inv(s) && Enabled(s, m)
    ensures Inv(Next(s, m))
  {
    hide Inv, Next, Enabled;
    match m {
      case Acquire(k, t) => AcquireKeeps(s, k, t);
      case Load(k) => LoadKeeps(s, k);
      case Stage(k, partial) => StageKeeps(s, k, partial);
      case Fill(k) => FillKeeps(s, k);
      case Release(k) => ReleaseKeeps(s, k, m);
      case Fail(k) => ReleaseKeeps(s, k, m);
      case Crash => CrashKeeps(s);
      case _ => CommitMoveKeeps(s, m.task, m);
    }
  }

  ghost predicate IsRun(ss: seq<Sys>, ms: seq<Move>) {
    && |ss| == |ms| + 1
    && forall n | 0 <= n < |ms| :: StepAt(ss[n], ms[n], ss[n + 1])
  }

  ghost predicate StepAt(s: Sys, m: Move, s': Sys) {
    Enabled(s, m) && s' == Next(s, m)
  }

  /** At every step of every interleaving, crashes and failed writes included, each
      live file is exactly what the committed transactions made of it: no reader and
      no restart ever sees part of a write. */
  lemma {:induction false} LiveFilesAreWhole(ss: seq<Sys>, ms: seq<Move>, n: nat, codec: JsonCodec, disk: Disk)
    requires IsRun(ss, ms) && ss[0] == Boot(codec, disk) && n < |ss|
    ensures Inv(ss[n]) && LiveOnly(ss[n].disk) == Replay(ss[n].start, ss[n].log)
    ensures ss[n].codec == codec && ss[n].start == LiveOnly(disk)
  {
    if n == 0 {
      BootInv(codec, disk);
    } else {
      hide Inv, Next, Enabled, LiveOnly, Replay;
      LiveFilesAreWhole(ss, ms, n - 1, codec, disk);
      assert StepAt(ss[n - 1], ms[n - 1], ss[n - 1 + 1]);
      MoveKeepsInv(ss[n - 1], ms[n - 1]);
      MoveKeepsStart(ss[n - 1], ms[n - 1]);
      InvIsReplay(ss[n]);
    }
  }

  lemma InvIsReplay(s: Sys)
    requires Inv(s)
    ensures LiveOnly(s.disk) == Replay(s.start, s.log)
  {
  }

  lemma MoveKeepsStart(s: Sys, m: Move)
    requires Enabled(s, m)
    ensures Next(s, m).codec == s.codec && Next(s, m).start == s.start
  {
  }

  // ----- no update is lost -----

  /** The transaction may read a namespace file it does not lock. */
  predicate NeedsFallback(t: Txn) {
    (t.TSetNx? || t.TIncr?) && DispatchPath(t.key).Some?
  }

  predicate SameFile(a: Disk, b: Disk, path: Path) {
    (Live(path) in a <==> Live(path) in b) && (Live(path) in a ==> a[Live(path)] == b[Live(path)])
  }

  /** What a plan depends on: the locked file, and for a key without a file of its
      own the entry it falls back to. */
  lemma PlanDepends(a: Disk, b: Disk, t: Txn, codec: JsonCodec)
    requires IsTxn(t) && SameFile(a, b, PathOf(t))
    requires NeedsFallback(t) && !InFile(a, t.key) ==>
               LegacyEntry(a, t.ns, t.key, codec) == LegacyEntry(b, t.ns, t.key, codec)
    ensures PlanOf(a, t, codec) == PlanOf(b, t, codec)
  {
    hide IsSafeSegment, DispatchPath;
    if !t.TRemoveFile? && (t.TRemoveEntry? || DispatchPath(t.key).None?) {
      assert ReadLegacy(a, t.ns, codec) == ReadLegacy(b, t.ns, codec);
    }
  }

  lemma {:induction false} UntouchedIsSame(start: Disk, log: seq<Entry>, at: nat, path: Path)
    requires Untouched(log, at, path)
    ensures SameFile(Replay(start, log[..at]), Replay(start, log), path)
  {
    hide PathOf;
    if at < |log| {
      var n := |log| - 1;
      assert log[..n][..at] == log[..at];
      forall i | at <= i < n
        ensures PathOf(log[..n][i].txn) != path
      {
        assert log[..n][i] == log[i];
      }
      UntouchedIsSame(start, log[..n], at, path);
      assert PathOf(log[n].txn) != path;
      CommitElsewhere(Replay(start, log[..n]), PathOf(log[n].txn), log[n].plan, path);
    } else {
      assert log[..at] == log;
    }
  }

  lemma CommitElsewhere(disk: Disk, at: Path, plan: Plan, path: Path)
    requires at != path
    ensures SameFile(disk, Commit(disk, at, plan), path)
  {
  }

  /** A transaction whose file holds all it reads has planned on exactly the disk it
      commits to. */
  lemma LockedIsSequential(start: Disk, log: seq<Entry>, codec: JsonCodec, t: Txn, plan: Plan, at: nat)
    requires PlanIsCurrent(start, log, codec, t, plan, at) && !NeedsFallback(t)
    ensures plan == PlanOf(Replay(start, log), t, codec)
  {
    hide PathOf, PlanOf, Replay, NeedsFallback;
    UntouchedIsSame(start, log, at, PathOf(t));
    PlanDepends(Replay(start, log[..at]), Replay(start, log), t, codec);
  }

  /** Only removing a dispatch-shaped key's entry changes that entry. */
  lemma CommitKeepsEntry(disk: Disk, t: Txn, plan: Plan, codec: JsonCodec, ns: string, key: string)
    requires Inverse(codec) && IsTxn(t) && DispatchPath(key).Some? && t != TRemoveEntry(ns, key)
    requires !NeedsFallback(t) ==> plan == PlanOf(disk, t, codec)
    ensures LegacyEntry(Commit(disk, PathOf(t), plan), ns, key, codec) == LegacyEntry(disk, ns, key, codec)
  {
    hide IsSafeSegment, DispatchPath;
    DispatchedOnly(t.key);
    var after := Commit(disk, PathOf(t), plan);
    if PathOf(t) == Legacy(ns) && plan.Write? {
      assert !NeedsFallback(t);
      LegacyText(disk, t, codec, key);
    } else if PathOf(t) != Legacy(ns) {
      assert ReadLegacy(after, ns, codec) == ReadLegacy(disk, ns, codec);
    }
  }

  /** A text written to a namespace file is that file's map with one key changed. */
  lemma LegacyText(disk: Disk, t: Txn, codec: JsonCodec, key: string)
    requires Inverse(codec) && PathOf(t).Legacy? && IsTxn(t) && PlanOf(disk, t, codec).Write?
    requires key != t.key || DispatchPath(key).Some?
    requires t != TRemoveEntry(PathOf(t).ns, key)
    ensures !t.TRemoveFile? && PathOf(t).ns == t.ns && ReadLegacy(disk, t.ns, codec).Ok?
    ensures var m := codec.parse(PlanOf(disk, t, codec).text);
            var was := ReadLegacy(disk, t.ns, codec).value;
            && m.Some? && m.value.Obj?
            && (key in m.value.m <==> key in was) && (key in was ==> m.value.m[key] == was[key])
  {
    hide IsSafeSegment, DispatchPath;
    DispatchedOnly(t.key);
  }

  /** A committed removal that found its entry. */
  predicate Removes(e: Entry, ns: string, key: string) {
    e.txn == TRemoveEntry(ns, key) && e.plan.Write?
  }

  /** The entry a transaction may have read was not removed between its read and its
      commit. */
  predicate NoRace(log: seq<Entry>, i: nat)
    requires i < |log|
  {
    NeedsFallback(log[i].txn) ==>
      forall j | log[i].at <= j < i :: !Removes(log[j], log[i].txn.ns, log[i].txn.key)
  }

  lemma EntryPlan(s: Sys, i: nat)
    requires Inv(s) && i < |s.log|
    ensures PlanIsCurrent(s.start, s.log[..i], s.codec, s.log[i].txn, s.log[i].plan, s.log[i].at)
  {
    assert EntryOk(s, i);
  }

  /** An entry that was committed with everything it reads under its lock. */
  lemma LockedEntry(s: Sys, i: nat)
    requires Inv(s) && i < |s.log| && !NeedsFallback(s.log[i].txn)
    ensures s.log[i].plan == PlanOf(Replay(s.start, s.log[..i]), s.log[i].txn, s.codec)
  {
    hide Inv, PlanIsCurrent, PlanOf, Replay, NeedsFallback;
    EntryPlan(s, i);
    LockedIsSequential(s.start, s.log[..i], s.codec, s.log[i].txn, s.log[i].plan, s.log[i].at);
  }

  lemma ReplayStep(s: Sys, i: nat)
    requires i < |s.log|
    ensures Replay(s.start, s.log[..i + 1])
         == Commit(Replay(s.start, s.log[..i]), PathOf(s.log[i].txn), s.log[i].plan)
  {
    hide Commit, PathOf, Replay;
    assert s.log[..i + 1] == s.log[..i] + [s.log[i]];
    ReplaySnoc(s.start, s.log[..i], s.log[i]);
  }

  lemma RemovalAnswers(disk: Disk, ns: string, key: string, codec: JsonCodec)
    ensures var plan := PlanOf(disk, TRemoveEntry(ns, key), codec);
            plan.Write? || plan.Answer?
  {
  }

  /** One step of the log leaves a dispatch-shaped key's fallback entry alone. */
  lemma StepKeepsEntry(s: Sys, i: nat, ns: string, key: string)
    requires Inv(s) && Inverse(s.codec) && i < |s.log| && DispatchPath(key).Some?
    requires !Removes(s.log[i], ns, key)
    ensures LegacyEntry(Replay(s.start, s.log[..i + 1]), ns, key, s.codec)
         == LegacyEntry(Replay(s.start, s.log[..i]), ns, key, s.codec)
  {
    hide Inv, PathOf, PlanOf, NeedsFallback, DispatchPath, LegacyEntry, Replay;
    var e, before := s.log[i], Replay(s.start, s.log[..i]);
    EntryPlan(s, i);
    ReplayStep(s, i);
    if !NeedsFallback(e.txn) {
      LockedEntry(s, i);
    }
    if e.txn == TRemoveEntry(ns, key) {
      RemovalNeedsNone(ns, key);
      RemovalAnswers(before, ns, key, s.codec);
    } else {
      hide Commit;
      CommitKeepsEntry(before, e.txn, e.plan, s.codec, ns, key);
    }
  }

  lemma RemovalNeedsNone(ns: string, key: string)
    ensures !NeedsFallback(TRemoveEntry(ns, key))
  {
  }

  lemma {:induction false} EntryStable(s: Sys, at: nat, i: nat, ns: string, key: string)
    requires Inv(s) && Inverse(s.codec) && at <= i <= |s.log| && DispatchPath(key).Some?
    requires forall j | at <= j < i :: !Removes(s.log[j], ns, key)
    ensures LegacyEntry(Replay(s.start, s.log[..i]), ns, key, s.codec)
         == LegacyEntry(Replay(s.start, s.log[..at]), ns, key, s.codec)
  {
    hide Inv, Replay, DispatchPath, LegacyEntry, Removes;
    if at < i {
      EntryStable(s, at, i - 1, ns, key);
      StepKeepsEntry(s, i - 1, ns, key);
    }
  }

  /** Without such a race a committed plan is the one the transaction would make
      running alone at its place in the log. */
  lemma EntryIsSequential(s: Sys, i: nat)
    requires Inv(s) && Inverse(s.codec) && i < |s.log| && NoRace(s.log, i)
    ensures s.log[i].plan == PlanOf(Replay(s.start, s.log[..i]), s.log[i].txn, s.codec)
  {
    hide Inv, PathOf, PlanOf, Replay, DispatchPath, LegacyEntry;
    var e := s.log[i];
    EntryPlan(s, i);
    if !NeedsFallback(e.txn) {
      LockedIsSequential(s.start, s.log[..i], s.codec, e.txn, e.plan, e.at);
    } else {
      EntryStable(s, e.at, i, e.txn.ns, e.txn.key);
      UntouchedIsSame(s.start, s.log[..i], e.at, PathOf(e.txn));
      assert s.log[..i][..e.at] == s.log[..e.at];
      PlanDepends(Replay(s.start, s.log[..e.at]), Replay(s.start, s.log[..i]), e.txn, s.codec);
    }
  }

  // ----- the race, exactly -----

  lemma RemovalEmptiesDisk(disk: Disk, ns: string, key: string, codec: JsonCodec)
    requires AllLive(disk) && Inverse(codec) && PlanOf(disk, TRemoveEntry(ns, key), codec).Write?
    ensures LegacyEntry(disk, ns, key, codec).Ok? && LegacyEntry(disk, ns, key, codec).value.Some?
    ensures var t := TRemoveEntry(ns, key);
            LegacyEntry(Commit(disk, PathOf(t), PlanOf(disk, t, codec)), ns, key, codec) == Ok(None)
  {
    RemovalPlan(disk, ns, key, codec);
    hide IsSafeSegment, DispatchPath, ReadLegacy;
    DeleteEntryIsRemoval(disk, ns, key, codec, ns, key);
  }

  lemma {:induction false} ReplayIsLive(start: Disk, log: seq<Entry>)
    requires AllLive(start)
    ensures AllLive(Replay(start, log))
  {
    hide PathOf;
    if log != [] {
      ReplayIsLive(start, log[..|log| - 1]);
    }
  }

  lemma RemovalEmpties(s: Sys, i: nat, ns: string, key: string)
    requires Inv(s) && Inverse(s.codec) && AllLive(s.start) && i < |s.log| && Removes(s.log[i], ns, key)
    ensures var was := LegacyEntry(Replay(s.start, s.log[..i]), ns, key, s.codec);
            was.Ok? && was.value.Some?
    ensures LegacyEntry(Replay(s.start, s.log[..i + 1]), ns, key, s.codec) == Ok(None)
  {
    hide Inv, PathOf, PlanOf, NeedsFallback, LegacyEntry, Replay, Commit;
    RemovalNeedsNone(ns, key);
    LockedEntry(s, i);
    ReplayStep(s, i);
    ReplayIsLive(s.start, s.log[..i]);
    RemovalEmptiesDisk(Replay(s.start, s.log[..i]), ns, key, s.codec);
  }

  lemma {:induction false} StaysEmpty(s: Sys, at: nat, i: nat, ns: string, key: string)
    requires Inv(s) && Inverse(s.codec) && AllLive(s.start) && at <= i <= |s.log| && DispatchPath(key).Some?
    requires LegacyEntry(Replay(s.start, s.log[..at]), ns, key, s.codec) == Ok(None)
    ensures LegacyEntry(Replay(s.start, s.log[..i]), ns, key, s.codec) == Ok(None)
  {
    hide Inv, Replay, DispatchPath, LegacyEntry, Removes;
    if at < i {
      StaysEmpty(s, at, i - 1, ns, key);
      if Removes(s.log[i - 1], ns, key) {
        RemovalEmpties(s, i - 1, ns, key);
      } else {
        StepKeepsEntry(s, i - 1, ns, key);
      }
    }
  }

  lemma {:induction false} FirstRemoval(log: seq<Entry>, at: nat, j: nat, ns: string, key: string) returns (k: nat)
    requires at <= j < |log| && Removes(log[j], ns, key)
    ensures at <= k <= j && Removes(log[k], ns, key) && forall i | at <= i < k :: !Removes(log[i], ns, key)
    decreases |log| - at
  {
    hide Removes;
    if Removes(log[at], ns, key) {
      k := at;
    } else {
      k := FirstRemoval(log, at + 1, j, ns, key);
    }
  }

  /** A racing transaction has read an entry that is gone when it commits. */
  lemma RaceReadsStale(s: Sys, i: nat)
    requires Inv(s) && Inverse(s.codec) && AllLive(s.start) && i < |s.log| && !NoRace(s.log, i)
    ensures var t, at := s.log[i].txn, s.log[i].at;
            && at <= i && (t.TSetNx? || t.TIncr?) && DispatchPath(t.key).Some?
            && var was := LegacyEntry(Replay(s.start, s.log[..at]), t.ns, t.key, s.codec);
               && was.Ok? && was.value.Some?
               && LegacyEntry(Replay(s.start, s.log[..i]), t.ns, t.key, s.codec) == Ok(None)
  {
    hide Inv, Replay, DispatchPath, LegacyEntry, Removes;
    var t, at := s.log[i].txn, s.log[i].at;
    var j :| at <= j < i && Removes(s.log[j], t.ns, t.key);
    var k := FirstRemoval(s.log, at, j, t.ns, t.key);
    EntryStable(s, at, k, t.ns, t.key);
    RemovalEmpties(s, k, t.ns, t.key);
    StaysEmpty(s, k + 1, i, t.ns, t.key);
  }

  /** What a stale and a fresh read of one entry make of the same transaction. */
  lemma StalePlan(a: Disk, b: Disk, t: Txn, codec: JsonCodec)
    requires (t.TSetNx? || t.TIncr?) && DispatchPath(t.key).Some? && !InFile(a, t.key) && !InFile(b, t.key)
    requires LegacyEntry(a, t.ns, t.key, codec).Ok? && LegacyEntry(a, t.ns, t.key, codec).value.Some?
    requires LegacyEntry(b, t.ns, t.key, codec) == Ok(None)
    ensures PlanOf(a, t, codec) == PlanOf(b, t, codec)
       <==> t.TIncr? && var v := LegacyEntry(a, t.ns, t.key, codec).value.value;
                        IsNumber(v) && AsF64(v) == t.default
  {
    hide IsSafeSegment, DispatchPath, LegacyEntry;
  }

  /** The exact condition: a committed decision is the one the transaction would make
      alone at its place in the log, unless it read an entry that was removed before
      it committed and its key has no file; then only an increment whose default is
      the removed number decides the same. */
  lemma SequentialExactly(s: Sys, i: nat)
    requires Inv(s) && Inverse(s.codec) && AllLive(s.start) && i < |s.log|
    ensures var t, now := s.log[i].txn, Replay(s.start, s.log[..i]);
            && s.log[i].at <= i
            && var read := Replay(s.start, s.log[..s.log[i].at]);
               s.log[i].plan == PlanOf(now, t, s.codec)
               <==> NoRace(s.log, i) || InFile(now, t.key)
                    || (t.TIncr? && var e := LegacyEntry(read, t.ns, t.key, s.codec);
                                    e.Ok? && e.value.Some? && IsNumber(e.value.value)
                                    && AsF64(e.value.value) == t.default)
  {
    hide Inv, PathOf, PlanOf, Replay, DispatchPath, LegacyEntry, NoRace;
    var e := s.log[i];
    EntryPlan(s, i);
    if NoRace(s.log, i) {
      EntryIsSequential(s, i);
    } else {
      RaceReadsStale(s, i);
      UntouchedIsSame(s.start, s.log[..i], e.at, PathOf(e.txn));
      assert s.log[..i][..e.at] == s.log[..e.at];
      var read, now := Replay(s.start, s.log[..e.at]), Replay(s.start, s.log[..i]);
      HomeFile(read, now, e.txn);
      if InFile(now, e.txn.key) {
        PlanDepends(read, now, e.txn, s.codec);
      } else {
        StalePlan(read, now, e.txn, s.codec);
      }
    }
  }

  lemma HomeFile(a: Disk, b: Disk, t: Txn)
    requires (t.TSetNx? || t.TIncr?) && DispatchPath(t.key).Some? && SameFile(a, b, PathOf(t)) && IsTxn(t)
    ensures InFile(a, t.key) <==> InFile(b, t.key)
  {
  }

  lemma RemovalPlan(disk: Disk, ns: string, key: string, codec: JsonCodec)
    requires AllLive(disk) && LegacyEntry(disk, ns, key, codec).Ok? && LegacyEntry(disk, ns, key, codec).value.Some?
    ensures var t := TRemoveEntry(ns, key);
            Commit(disk, PathOf(t), PlanOf(disk, t, codec)) == DeleteEntryOutcome(disk, ns, key, Works, codec).disk
  {
  }

  // ----- the sequential store -----

  function SeqRun(start: Disk, txns: seq<Txn>, codec: JsonCodec): Disk {
    if txns == [] then start
    else
      var before, t := SeqRun(start, txns[..|txns| - 1], codec), txns[|txns| - 1];
      Commit(before, PathOf(t), PlanOf(before, t, codec))
  }

  function TxnsOf(log: seq<Entry>): (ts: seq<Txn>)
    ensures |ts| == |log| && forall i | 0 <= i < |ts| :: ts[i] == log[i].txn
  {
    seq(|log|, i requires 0 <= i < |log| => log[i].txn)
  }

  lemma {:induction false} ReplayIsSequential(s: Sys, n: nat)
    requires Inv(s) && Inverse(s.codec) && n <= |s.log| && forall i | 0 <= i < |s.log| :: NoRace(s.log, i)
    ensures Replay(s.start, s.log[..n]) == SeqRun(s.start, TxnsOf(s.log)[..n], s.codec)
  {
    hide Inv, PathOf, PlanOf, Commit, NoRace;
    if n > 0 {
      var ts := TxnsOf(s.log);
      ReplayIsSequential(s, n - 1);
      EntryIsSequential(s, n - 1);
      assert s.log[..n] == s.log[..n - 1] + [s.log[n - 1]];
      ReplaySnoc(s.start, s.log[..n - 1], s.log[n - 1]);
      assert ts[..n][..n - 1] == ts[..n - 1] && ts[..n][n - 1] == ts[n - 1];
    }
  }

  /** No update is lost: over any interleaving without that race the store ends as,
      and every call returned what, the committed transactions give one after the
      other in commit order. */
  lemma NoUpdateIsLost(s: Sys)
    requires Inv(s) && Inverse(s.codec) && forall i | 0 <= i < |s.log| :: NoRace(s.log, i)
    ensures LiveOnly(s.disk) == SeqRun(s.start, TxnsOf(s.log), s.codec)
    ensures forall i | 0 <= i < |s.log| ::
              s.log[i].plan == PlanOf(SeqRun(s.start, TxnsOf(s.log)[..i], s.codec), s.log[i].txn, s.codec)
  {
    hide Inv, PlanOf, NoRace, SeqRun, LiveOnly;
    InvIsReplay(s);
    ReplayIsSequential(s, |s.log|);
    assert s.log[..|s.log|] == s.log && TxnsOf(s.log)[..|s.log|] == TxnsOf(s.log);
    forall i | 0 <= i < |s.log|
      ensures s.log[i].plan == PlanOf(SeqRun(s.start, TxnsOf(s.log)[..i], s.codec), s.log[i].txn, s.codec)
    {
      ReplayIsSequential(s, i);
      EntryIsSequential(s, i);
    }
  }

  // ----- siblings and counters -----

  /** The transaction can change what this key reads as. */
  predicate Touches(t: Txn, ns: string, key: string) {
    match t
    case TRemoveFile(k) => k == key
    case TRemoveEntry(n, k) => n == ns && k == key
    case _ => SameEntry(t.ns, t.key, ns, key)
  }

  lemma WriteIsPut(disk: Disk, ns: string, key: string, v: Json, codec: JsonCodec, path: Path, ret: Ret)
    requires AllLive(disk) && CanPut(disk, ns, key, codec)
    requires path == if DispatchPath(key).Some? then DispatchPath(key).value else Legacy(ns)
    ensures Commit(disk, path, Write(PutText(disk, ns, key, v, codec), ret)) == Put(disk, ns, key, v, Works, codec)
  {
    hide IsSafeSegment, DispatchPath, ReadLegacy;
  }

  /** A transaction that does not touch a key leaves what the key reads as. */
  lemma TxnFrame(disk: Disk, t: Txn, codec: JsonCodec, ns: string, key: string)
    requires AllLive(disk) && Inverse(codec) && IsTxn(t) && !Touches(t, ns, key)
    ensures Lookup(Commit(disk, PathOf(t), PlanOf(disk, t, codec)), ns, key, codec) == Lookup(disk, ns, key, codec)
  {
    hide IsSafeSegment, DispatchPath, Lookup, ReadLegacy, PutText, Put, HasKey, CanPut;
    var plan := PlanOf(disk, t, codec);
    match t {
      case TRemoveFile(k) =>
        if plan.Remove? {
          RemoveFrame(disk, k, codec, ns, key);
        }
      case TRemoveEntry(n, k) =>
        if plan.Write? {
          RemoveEntryFrame(disk, n, k, codec, ns, key);
        }
      case TSet(n, k, v) =>
        if plan.Write? {
          WriteIsPut(disk, n, k, v, codec, PathOf(t), plan.ret);
          PutIsUpdate(disk, n, k, v, codec, ns, key);
        }
      case TSetNx(n, k, v) =>
        if plan.Write? {
          HasMeansCanPut(disk, n, k, codec);
          WriteIsPut(disk, n, k, v, codec, PathOf(t), plan.ret);
          PutIsUpdate(disk, n, k, v, codec, ns, key);
        }
      case TIncr(n, k, _, _) =>
        if plan.Write? {
          ReadMeansCanPut(disk, n, k, codec);
          WriteIsPut(disk, n, k, Float(plan.ret.x), codec, PathOf(t), plan.ret);
          PutIsUpdate(disk, n, k, Float(plan.ret.x), codec, ns, key);
        }
    }
  }

  lemma RemoveFrame(disk: Disk, k: string, codec: JsonCodec, ns: string, key: string)
    requires InFile(disk, k) && k != key
    ensures Lookup(disk - {Live(DispatchPath(k).value)}, ns, key, codec) == Lookup(disk, ns, key, codec)
  {
    hide IsSafeSegment, DispatchPath;
    DispatchedOnly(k);
    if DispatchPath(key) == DispatchPath(k) {
      DispatchIsInjective(key, k);
    }
  }

  lemma RemoveEntryFrame(disk: Disk, n: string, k: string, codec: JsonCodec, ns: string, key: string)
    requires AllLive(disk) && Inverse(codec) && !(n == ns && k == key)
    requires PlanOf(disk, TRemoveEntry(n, k), codec).Write?
    ensures var t := TRemoveEntry(n, k);
            Lookup(Commit(disk, PathOf(t), PlanOf(disk, t, codec)), ns, key, codec) == Lookup(disk, ns, key, codec)
  {
    hide IsSafeSegment, DispatchPath, ReadLegacy, LegacyEntry;
    DeleteEntryIsRemoval(disk, n, k, codec, ns, key);
    var t := TRemoveEntry(n, k);
    assert Commit(disk, PathOf(t), PlanOf(disk, t, codec)) == DeleteEntryOutcome(disk, n, k, Works, codec).disk;
  }

  lemma {:induction false} SeqRunIsLive(start: Disk, txns: seq<Txn>, codec: JsonCodec)
    requires AllLive(start)
    ensures AllLive(SeqRun(start, txns, codec))
  {
    hide PathOf, PlanOf;
    if txns != [] {
      SeqRunIsLive(start, txns[..|txns| - 1], codec);
    }
  }

  /** Sibling keys survive: a key no transaction touches reads as it did. */
  lemma {:induction false} SiblingsSurvive(start: Disk, txns: seq<Txn>, codec: JsonCodec, ns: string, key: string)
    requires AllLive(start) && Inverse(codec)
    requires forall i | 0 <= i < |txns| :: IsTxn(txns[i]) && !Touches(txns[i], ns, key)
    ensures Lookup(SeqRun(start, txns, codec), ns, key, codec) == Lookup(start, ns, key, codec)
  {
    hide PathOf, PlanOf, Commit, Lookup, Touches, IsTxn;
    if txns != [] {
      var front, n := txns[..|txns| - 1], |txns| - 1;
      assert forall i | 0 <= i < n :: front[i] == txns[i];
      SiblingsSurvive(start, front, codec, ns, key);
      SeqRunIsLive(start, front, codec);
      TxnFrame(SeqRun(start, front, codec), txns[n], codec, ns, key);
    }
  }

  /** The deltas of a counter's increments, added up in order. */
  function DeltaSum(txns: seq<Txn>, ns: string, key: string): real {
    if txns == [] then 0.0
    else
      var t := txns[|txns| - 1];
      DeltaSum(txns[..|txns| - 1], ns, key) + if Touches(t, ns, key) && t.TIncr? then t.delta else 0.0
  }

  /** Reads as this number, or as nothing yet. */
  ghost predicate CountsFrom(disk: Disk, ns: string, key: string, base: real, codec: JsonCodec) {
    var cur := Lookup(disk, ns, key, codec);
    cur.Ok? && (cur.value.Some? ==> IsNumber(cur.value.value) && AsF64(cur.value.value) == base)
  }

  /** Only increments of this key touch it. */
  predicate OnlyIncrements(txns: seq<Txn>, ns: string, key: string) {
    forall i | 0 <= i < |txns| :: IsTxn(txns[i]) && CounterTxn(txns[i], ns, key)
  }

  predicate CounterTxn(t: Txn, ns: string, key: string) {
    Touches(t, ns, key) ==> t.TIncr? && t.ns == ns && t.key == key
  }

  predicate First(txns: seq<Txn>, i: nat, ns: string, key: string) {
    i < |txns| && Touches(txns[i], ns, key) && forall j | 0 <= j < i :: !Touches(txns[j], ns, key)
  }

  /** Where a counter starts: at the number already there, in whichever layer, or else
      at the default of its first increment. All other defaults are free. */
  ghost predicate StartsAt(start: Disk, txns: seq<Txn>, ns: string, key: string, base: real, codec: JsonCodec) {
    && CountsFrom(start, ns, key, base, codec)
    && (Lookup(start, ns, key, codec) == Ok(None) ==>
          forall i: nat | First(txns, i, ns, key) :: txns[i].TIncr? ==> txns[i].default == base)
  }

  lemma IncrStep(disk: Disk, ns: string, key: string, delta: F64, default: F64, codec: JsonCodec, cur: real)
    requires AllLive(disk) && Inverse(codec) && CountsFrom(disk, ns, key, cur, codec)
    requires Lookup(disk, ns, key, codec) == Ok(None) ==> cur == default
    ensures var t := TIncr(ns, key, delta, default);
            && PlanOf(disk, t, codec).Write? && PlanOf(disk, t, codec).ret.RNum?
            && PlanOf(disk, t, codec).ret.x == cur + delta
            && Lookup(Commit(disk, PathOf(t), PlanOf(disk, t, codec)), ns, key, codec)
               == Ok(Some(Float(PlanOf(disk, t, codec).ret.x)))
  {
    hide IsSafeSegment, DispatchPath, ReadLegacy, PutText, Put, CanPut;
    ReadMeansCanPut(disk, ns, key, codec);
    hide Lookup;
    var t := TIncr(ns, key, delta, default);
    var x := PlanOf(disk, t, codec).ret.x;
    WriteIsPut(disk, ns, key, Float(x), codec, PathOf(t), RNum(x));
    PutIsUpdate(disk, ns, key, Float(x), codec, ns, key);
  }

  /** Increments return the partial sums in order and leave the whole sum, whichever
      layer the start value was in. */
  lemma {:induction false} IncrementsAddUp(start: Disk, txns: seq<Txn>, codec: JsonCodec, ns: string, key: string,
      base: real)
    requires AllLive(start) && Inverse(codec) && OnlyIncrements(txns, ns, key)
    requires StartsAt(start, txns, ns, key, base, codec)
    ensures CountsFrom(SeqRun(start, txns, codec), ns, key, base + DeltaSum(txns, ns, key), codec)
    ensures Lookup(SeqRun(start, txns, codec), ns, key, codec) == Ok(None) ==>
              && Lookup(start, ns, key, codec) == Ok(None) && DeltaSum(txns, ns, key) == 0.0
              && forall i | 0 <= i < |txns| :: !Touches(txns[i], ns, key)
    ensures txns != [] && Touches(txns[|txns| - 1], ns, key) ==>
              var ret := PlanOf(SeqRun(start, txns[..|txns| - 1], codec), txns[|txns| - 1], codec).ret;
              ret.RNum? && ret.x == base + DeltaSum(txns, ns, key)
  {
    hide PathOf, PlanOf, Commit, Lookup, Touches, IsTxn;
    if txns != [] {
      var n := |txns| - 1;
      var front, t := txns[..n], txns[n];
      CounterPrefix(start, txns, n, ns, key, base, codec);
      IncrementsAddUp(start, front, codec, ns, key, base);
      SeqRunIsLive(start, front, codec);
      var before := SeqRun(start, front, codec);
      assert CounterTxn(t, ns, key) && IsTxn(t);
      if Touches(t, ns, key) {
        if Lookup(before, ns, key, codec) == Ok(None) {
          assert forall j | 0 <= j < n :: txns[j] == front[j];
          assert First(txns, n, ns, key);
        }
        IncrStep(before, ns, key, t.delta, t.default, codec, base + DeltaSum(front, ns, key));
      } else {
        TxnFrame(before, t, codec, ns, key);
        assert Lookup(SeqRun(start, txns, codec), ns, key, codec) == Lookup(before, ns, key, codec);
        assert forall j | 0 <= j < n :: txns[j] == front[j];
      }
    }
  }

  lemma CounterPrefix(start: Disk, txns: seq<Txn>, n: nat, ns: string, key: string, base: real, codec: JsonCodec)
    requires n <= |txns| && OnlyIncrements(txns, ns, key) && StartsAt(start, txns, ns, key, base, codec)
    ensures OnlyIncrements(txns[..n], ns, key) && StartsAt(start, txns[..n], ns, key, base, codec)
  {
    hide CounterTxn, IsTxn, Touches, Lookup;
    forall i | 0 <= i < n
      ensures IsTxn(txns[..n][i]) && CounterTxn(txns[..n][i], ns, key)
    {
      assert IsTxn(txns[i]) && CounterTxn(txns[i], ns, key);
    }
    forall i: nat | First(txns[..n], i, ns, key)
      ensures First(txns, i, ns, key)
    {
      assert forall j | 0 <= j <= i :: txns[..n][j] == txns[j];
    }
  }

  // ----- every key on its own -----

  /** The same file and the same namespace entries for one key. */
  ghost predicate SameKey(a: Disk, b: Disk, key: string, codec: JsonCodec) {
    && (DispatchPath(key).Some? ==> SameFile(a, b, DispatchPath(key).value))
    && forall ns :: LegacyEntry(a, ns, key, codec) == LegacyEntry(b, ns, key, codec)
  }

  lemma SameKeyReads(a: Disk, b: Disk, key: string, codec: JsonCodec, ns: string)
    requires SameKey(a, b, key, codec)
    ensures InFile(a, key) == InFile(b, key)
    ensures Lookup(a, ns, key, codec) == Lookup(b, ns, key, codec)
    ensures HasKey(a, ns, key, codec) == HasKey(b, ns, key, codec)
    ensures CanPut(a, ns, key, codec) == CanPut(b, ns, key, codec)
  {
    hide IsSafeSegment, DispatchPath, ReadLegacy;
    assert LegacyEntry(a, ns, key, codec) == LegacyEntry(b, ns, key, codec);
  }

  /** A transaction on another key leaves this one alone, whatever stale read it acts on. */
  lemma KeyFrame(disk: Disk, t: Txn, plan: Plan, codec: JsonCodec, key: string)
    requires Inverse(codec) && IsTxn(t) && t.key != key
    requires !NeedsFallback(t) ==> plan == PlanOf(disk, t, codec)
    ensures SameKey(disk, Commit(disk, PathOf(t), plan), key, codec)
  {
    hide IsSafeSegment, DispatchPath;
    DispatchedOnly(t.key);
    DispatchedOnly(key);
    if DispatchPath(key).Some? && DispatchPath(t.key) == DispatchPath(key) {
      DispatchIsInjective(t.key, key);
    }
    var after := Commit(disk, PathOf(t), plan);
    forall ns
      ensures LegacyEntry(disk, ns, key, codec) == LegacyEntry(after, ns, key, codec)
    {
      EntryFrame(disk, t, plan, codec, ns, key);
    }
  }

  lemma EntryFrame(disk: Disk, t: Txn, plan: Plan, codec: JsonCodec, ns: string, key: string)
    requires Inverse(codec) && IsTxn(t) && t.key != key
    requires !NeedsFallback(t) ==> plan == PlanOf(disk, t, codec)
    ensures LegacyEntry(disk, ns, key, codec) == LegacyEntry(Commit(disk, PathOf(t), plan), ns, key, codec)
  {
    hide IsSafeSegment, DispatchPath;
    DispatchedOnly(t.key);
    var after := Commit(disk, PathOf(t), plan);
    if PathOf(t) == Legacy(ns) && plan.Write? {
      assert !NeedsFallback(t);
      LegacyText(disk, t, codec, key);
    } else if PathOf(t) != Legacy(ns) {
      assert ReadLegacy(after, ns, codec) == ReadLegacy(disk, ns, codec);
    }
  }

  /** The write of one value for a key, as this key sees it. */
  lemma PutEffect(disk: Disk, ns: string, key: string, v: Json, codec: JsonCodec, path: Path, ret: Ret)
    requires Inverse(codec) && CanPut(disk, ns, key, codec)
    requires path == if DispatchPath(key).Some? then DispatchPath(key).value else Legacy(ns)
    ensures var after := Commit(disk, path, Write(PutText(disk, ns, key, v, codec), ret));
            && (DispatchPath(key).Some? ==> Live(path) in after && after[Live(path)] == codec.render(v))
            && forall ns' :: LegacyEntry(after, ns', key, codec)
                 == if DispatchPath(key).None? && ns' == ns then Ok(Some(v)) else LegacyEntry(disk, ns', key, codec)
  {
    hide IsSafeSegment, DispatchPath;
    DispatchedOnly(key);
    var after := Commit(disk, path, Write(PutText(disk, ns, key, v, codec), ret));
    if DispatchPath(key).None? {
      var m := ReadLegacy(disk, ns, codec).value[key := v];
      assert codec.parse(codec.render(Obj(m))) == Some(Obj(m));
      ReadLegacyIsValid(disk, ns, codec);
    } else {
      forall ns'
        ensures ReadLegacy(after, ns', codec) == ReadLegacy(disk, ns', codec)
      {
      }
    }
  }

  lemma PutSameKey(a: Disk, b: Disk, ns: string, key: string, v: Json, codec: JsonCodec, path: Path, ret: Ret)
    requires Inverse(codec) && CanPut(a, ns, key, codec) && CanPut(b, ns, key, codec) && SameKey(a, b, key, codec)
    requires path == if DispatchPath(key).Some? then DispatchPath(key).value else Legacy(ns)
    ensures SameKey(Commit(a, path, Write(PutText(a, ns, key, v, codec), ret)),
              Commit(b, path, Write(PutText(b, ns, key, v, codec), ret)), key, codec)
  {
    hide DispatchPath, LegacyEntry, PutText, CanPut, Commit;
    PutEffect(a, ns, key, v, codec, path, ret);
    PutEffect(b, ns, key, v, codec, path, ret);
  }

  lemma RemoveEntryEffect(disk: Disk, ns: string, key: string, codec: JsonCodec)
    requires Inverse(codec)
    ensures var t := TRemoveEntry(ns, key);
            var plan := PlanOf(disk, t, codec);
            var e, after := LegacyEntry(disk, ns, key, codec), Commit(disk, PathOf(t), plan);
            && plan.ret == (if e.Err? then RErr else RBool(e.value.Some?))
            && (forall ns' :: LegacyEntry(after, ns', key, codec)
                  == if e.Ok? && ns' == ns then Ok(None) else LegacyEntry(disk, ns', key, codec))
            && (DispatchPath(key).Some? ==> SameFile(disk, after, DispatchPath(key).value))
  {
    hide IsSafeSegment, DispatchPath;
    DispatchedOnly(key);
    var m := ReadLegacy(disk, ns, codec);
    if m.Ok? && key in m.value {
      assert codec.parse(codec.render(Obj(m.value - {key}))) == Some(Obj(m.value - {key}));
      ReadLegacyIsValid(disk, ns, codec);
    }
  }

  /** On disks that agree on its key a transaction returns the same and leaves them
      agreeing. */
  lemma KeyMove(a: Disk, b: Disk, t: Txn, codec: JsonCodec)
    requires Inverse(codec) && IsTxn(t) && SameKey(a, b, t.key, codec)
    ensures PlanOf(a, t, codec).ret == PlanOf(b, t, codec).ret
    ensures SameKey(Commit(a, PathOf(t), PlanOf(a, t, codec)), Commit(b, PathOf(t), PlanOf(b, t, codec)), t.key, codec)
  {
    hide IsSafeSegment, DispatchPath, Lookup, HasKey, CanPut, ReadLegacy, PutText, LegacyEntry, SameKey;
    var pa, pb := PlanOf(a, t, codec), PlanOf(b, t, codec);
    match t {
      case TSet(ns, key, v) =>
        SameKeyReads(a, b, key, codec, ns);
        if CanPut(a, ns, key, codec) {
          PutSameKey(a, b, ns, key, v, codec, PathOf(t), RUnit);
        }
      case TSetNx(ns, key, v) =>
        SameKeyReads(a, b, key, codec, ns);
        if HasKey(a, ns, key, codec) == Ok(false) {
          HasMeansCanPut(a, ns, key, codec);
          PutSameKey(a, b, ns, key, v, codec, PathOf(t), RBool(true));
        }
      case TIncr(ns, key, _, _) =>
        SameKeyReads(a, b, key, codec, ns);
        if pa.Write? {
          ReadMeansCanPut(a, ns, key, codec);
          PutSameKey(a, b, ns, key, Float(pa.ret.x), codec, PathOf(t), pa.ret);
        }
      case TRemoveFile(key) =>
        SameKeyReads(a, b, key, codec, "");
        if InFile(a, key) {
          RemoveSameKey(a, b, key, codec, pa, pb);
        }
      case TRemoveEntry(ns, key) =>
        RemoveEntrySameKey(a, b, ns, key, codec);
    }
  }

  lemma RemoveSameKey(a: Disk, b: Disk, key: string, codec: JsonCodec, pa: Plan, pb: Plan)
    requires SameKey(a, b, key, codec) && DispatchPath(key).Some? && pa.Remove? && pb.Remove?
    ensures SameKey(Commit(a, DispatchPath(key).value, pa), Commit(b, DispatchPath(key).value, pb), key, codec)
  {
    hide IsSafeSegment, DispatchPath;
    DispatchedOnly(key);
    var a', b' := Commit(a, DispatchPath(key).value, pa), Commit(b, DispatchPath(key).value, pb);
    forall ns
      ensures LegacyEntry(a', ns, key, codec) == LegacyEntry(b', ns, key, codec)
    {
      assert ReadLegacy(a', ns, codec) == ReadLegacy(a, ns, codec);
      assert ReadLegacy(b', ns, codec) == ReadLegacy(b, ns, codec);
      assert LegacyEntry(a, ns, key, codec) == LegacyEntry(b, ns, key, codec);
    }
  }

  lemma RemoveEntrySameKey(a: Disk, b: Disk, ns: string, key: string, codec: JsonCodec)
    requires Inverse(codec) && SameKey(a, b, key, codec)
    ensures var t := TRemoveEntry(ns, key);
            && PlanOf(a, t, codec).ret == PlanOf(b, t, codec).ret
            && SameKey(Commit(a, PathOf(t), PlanOf(a, t, codec)), Commit(b, PathOf(t), PlanOf(b, t, codec)), key, codec)
  {
    hide IsSafeSegment, DispatchPath, LegacyEntry, PlanOf, Commit, PathOf;
    RemoveEntryEffect(a, ns, key, codec);
    RemoveEntryEffect(b, ns, key, codec);
    assert LegacyEntry(a, ns, key, codec) == LegacyEntry(b, ns, key, codec);
  }

  lemma SameKeyChain(a: Disk, a': Disk, b: Disk, b': Disk, key: string, codec: JsonCodec)
    requires SameKey(a, b, key, codec) && SameKey(a, a', key, codec) && SameKey(b, b', key, codec)
    ensures SameKey(a', b', key, codec)
  {
    hide DispatchPath, LegacyEntry;
    forall ns
      ensures LegacyEntry(a', ns, key, codec) == LegacyEntry(b', ns, key, codec)
    {
      assert LegacyEntry(a, ns, key, codec) == LegacyEntry(a', ns, key, codec);
      assert LegacyEntry(b, ns, key, codec) == LegacyEntry(b', ns, key, codec);
      assert LegacyEntry(a, ns, key, codec) == LegacyEntry(b, ns, key, codec);
    }
  }

  lemma SameKeyReflexive(a: Disk, key: string, codec: JsonCodec)
    ensures SameKey(a, a, key, codec)
  {
  }

  /** The transactions on this key do not race. */
  ghost predicate KeyRacesNot(log: seq<Entry>, key: string) {
    forall i | 0 <= i < |log| && log[i].txn.key == key :: NoRace(log, i)
  }

  lemma SeqRunStep(start: Disk, txns: seq<Txn>, n: nat, codec: JsonCodec)
    requires n < |txns|
    ensures var before := SeqRun(start, txns[..n], codec);
            SeqRun(start, txns[..n + 1], codec) == Commit(before, PathOf(txns[n]), PlanOf(before, txns[n], codec))
  {
    hide Commit, PathOf, PlanOf;
    assert txns[..n + 1][..n] == txns[..n];
  }

  lemma {:induction false} KeyUpTo(s: Sys, key: string, n: nat)
    requires Inv(s) && Inverse(s.codec) && KeyRacesNot(s.log, key) && n <= |s.log|
    ensures SameKey(Replay(s.start, s.log[..n]), SeqRun(s.start, TxnsOf(s.log)[..n], s.codec), key, s.codec)
  {
    hide Inv, PathOf, PlanOf, Commit, NoRace, SameKey, Replay, SeqRun, NeedsFallback;
    if n == 0 {
      EmptyLogs(s);
      SameKeyReflexive(s.start, key, s.codec);
    } else {
      var i := n - 1;
      KeyUpTo(s, key, i);
      ReplayStep(s, i);
      SeqRunStep(s.start, TxnsOf(s.log), i, s.codec);
      EntryPlan(s, i);
      PlanIsTxn(s, i);
      KeyBothStep(s, i, Replay(s.start, s.log[..i]), SeqRun(s.start, TxnsOf(s.log)[..i], s.codec), key);
    }
  }

  lemma EmptyLogs(s: Sys)
    ensures Replay(s.start, s.log[..0]) == s.start == SeqRun(s.start, TxnsOf(s.log)[..0], s.codec)
  {
  }

  lemma PlanIsTxn(s: Sys, i: nat)
    requires Inv(s) && i < |s.log|
    ensures IsTxn(s.log[i].txn)
  {
    EntryPlan(s, i);
  }

  lemma KeyBothStep(s: Sys, i: nat, a: Disk, b: Disk, key: string)
    requires Inv(s) && Inverse(s.codec) && KeyRacesNot(s.log, key) && i < |s.log|
    requires a == Replay(s.start, s.log[..i]) && SameKey(a, b, key, s.codec)
    ensures var e := s.log[i];
            && SameKey(Commit(a, PathOf(e.txn), e.plan), Commit(b, PathOf(e.txn), PlanOf(b, e.txn, s.codec)),
                 key, s.codec)
            && (e.txn.key == key ==> e.plan == PlanOf(a, e.txn, s.codec)
                                     && e.plan.ret == PlanOf(b, e.txn, s.codec).ret)
  {
    hide Inv, PathOf, PlanOf, Commit, NoRace, SameKey, Replay, NeedsFallback;
    var e := s.log[i];
    PlanIsTxn(s, i);
    if e.txn.key == key {
      EntryIsSequential(s, i);
      KeyMove(a, b, e.txn, s.codec);
    } else {
      if !NeedsFallback(e.txn) {
        LockedEntry(s, i);
      }
      KeyFrame(a, e.txn, e.plan, s.codec, key);
      KeyFrame(b, e.txn, PlanOf(b, e.txn, s.codec), s.codec, key);
      SameKeyChain(a, Commit(a, PathOf(e.txn), e.plan), b, Commit(b, PathOf(e.txn), PlanOf(b, e.txn, s.codec)),
        key, s.codec);
    }
  }

  /** No update of a key is lost: whatever races on other keys, a key whose own
      transactions do not race ends as, and each of them returned what, the committed
      transactions give one after the other in commit order. */
  lemma KeyIsSequential(s: Sys, key: string)
    requires Inv(s) && Inverse(s.codec) && KeyRacesNot(s.log, key)
    ensures SameKey(LiveOnly(s.disk), SeqRun(s.start, TxnsOf(s.log), s.codec), key, s.codec)
    ensures forall i | 0 <= i < |s.log| && s.log[i].txn.key == key ::
              s.log[i].plan.ret == PlanOf(SeqRun(s.start, TxnsOf(s.log)[..i], s.codec), s.log[i].txn, s.codec).ret
  {
    hide Inv, PathOf, PlanOf, NoRace, SeqRun, LiveOnly, SameKey, Commit, Replay, KeyRacesNot;
    InvIsReplay(s);
    KeyUpTo(s, key, |s.log|);
    assert s.log[..|s.log|] == s.log && TxnsOf(s.log)[..|s.log|] == TxnsOf(s.log);
    forall i | 0 <= i < |s.log| && s.log[i].txn.key == key
      ensures s.log[i].plan.ret == PlanOf(SeqRun(s.start, TxnsOf(s.log)[..i], s.codec), s.log[i].txn, s.codec).ret
    {
      KeyUpTo(s, key, i);
      KeyBothStep(s, i, Replay(s.start, s.log[..i]), SeqRun(s.start, TxnsOf(s.log)[..i], s.codec), key);
    }
  }

  lemma FallbackTouches(t: Txn, ns: string)
    requires NeedsFallback(t)
    ensures Touches(t, ns, t.key)
  {
  }

  /** Sibling keys survive every interleaving: a key no committed transaction touches
      reads as it did at the start, whatever races on other keys. */
  lemma UntouchedKeySurvives(s: Sys, ns: string, key: string)
    requires Inv(s) && Inverse(s.codec) && AllLive(s.start)
    requires forall i | 0 <= i < |s.log| :: !Touches(s.log[i].txn, ns, key)
    ensures Lookup(LiveOnly(s.disk), ns, key, s.codec) == Lookup(s.start, ns, key, s.codec)
  {
    hide Inv, Lookup, Touches, SeqRun, LiveOnly, IsTxn, NeedsFallback, SameKey;
    forall i | 0 <= i < |s.log| && s.log[i].txn.key == key
      ensures NoRace(s.log, i)
    {
      if NeedsFallback(s.log[i].txn) {
        FallbackTouches(s.log[i].txn, ns);
      }
    }
    KeyIsSequential(s, key);
    SameKeyReads(LiveOnly(s.disk), SeqRun(s.start, TxnsOf(s.log), s.codec), key, s.codec, ns);
    forall i | 0 <= i < |s.log|
      ensures IsTxn(s.log[i].txn)
    {
      PlanIsTxn(s, i);
    }
    SiblingsSurvive(s.start, TxnsOf(s.log), s.codec, ns, key);
  }

  lemma RemovalTouches(ns: string, key: string)
    ensures Touches(TRemoveEntry(ns, key), ns, key)
  {
  }

  lemma CountersDoNotRace(s: Sys, ns: string, key: string)
    requires Inv(s) && OnlyIncrements(TxnsOf(s.log), ns, key)
    ensures KeyRacesNot(s.log, key)
  {
    hide Inv, Touches, IsTxn, NeedsFallback;
    forall i | 0 <= i < |s.log| && s.log[i].txn.key == key
      ensures NoRace(s.log, i)
    {
      var t := s.log[i].txn;
      if NeedsFallback(t) {
        EntryPlan(s, i);
        FallbackTouches(t, ns);
        assert CounterTxn(TxnsOf(s.log)[i], ns, key);
        forall j | s.log[i].at <= j < i
          ensures !Removes(s.log[j], ns, key)
        {
          RemovalTouches(ns, key);
          assert CounterTxn(TxnsOf(s.log)[j], ns, key);
        }
      }
    }
  }

  /** Concurrent increments add up: over every interleaving, races on other keys
      included, each returns its partial sum in commit order and the live store reads
      start plus the whole sum, the first call that promotes a namespace value too. The
      start is the number found, or the default of the first to commit if none was. */
  lemma ConcurrentIncrementsAddUp(s: Sys, ns: string, key: string, base: real)
    requires Inv(s) && Inverse(s.codec) && AllLive(s.start) && OnlyIncrements(TxnsOf(s.log), ns, key)
    requires StartsAt(s.start, TxnsOf(s.log), ns, key, base, s.codec)
    ensures CountsFrom(LiveOnly(s.disk), ns, key, base + DeltaSum(TxnsOf(s.log), ns, key), s.codec)
    ensures forall i | 0 <= i < |s.log| && Touches(s.log[i].txn, ns, key) ::
              && s.log[i].plan.ret.RNum?
              && s.log[i].plan.ret.x == base + DeltaSum(TxnsOf(s.log)[..i + 1], ns, key)
  {
    hide Inv, Lookup, Touches, SeqRun, LiveOnly, IsTxn, SameKey, DeltaSum, PlanOf, KeyRacesNot;
    var ts := TxnsOf(s.log);
    CountersDoNotRace(s, ns, key);
    KeyIsSequential(s, key);
    SameKeyReads(LiveOnly(s.disk), SeqRun(s.start, ts, s.codec), key, s.codec, ns);
    IncrementsAddUp(s.start, ts, s.codec, ns, key, base);
    forall i | 0 <= i < |s.log| && Touches(s.log[i].txn, ns, key)
      ensures s.log[i].plan.ret.RNum?
      ensures s.log[i].plan.ret.x == base + DeltaSum(ts[..i + 1], ns, key)
    {
      assert CounterTxn(ts[i], ns, key);
      CounterPrefix(s.start, ts, i + 1, ns, key, base, s.codec);
      assert ts[..i + 1][..i] == ts[..i] && ts[..i + 1][i] == ts[i];
      IncrementsAddUp(s.start, ts[..i + 1], s.codec, ns, key, base);
    }
  }

  lemma LiveOnlyIsLive(disk: Disk)
    ensures AllLive(LiveOnly(disk))
  {
  }

  /** The two, over runs from a boot: every step of every interleaving with crashes
      and failed writes. */
  lemma EveryRunKeepsKeys(ss: seq<Sys>, ms: seq<Move>, n: nat, codec: JsonCodec, disk: Disk, ns: string, key: string,
      base: real)
    requires IsRun(ss, ms) && ss[0] == Boot(codec, disk) && n < |ss| && Inverse(codec)
    ensures (forall i | 0 <= i < |ss[n].log| :: !Touches(ss[n].log[i].txn, ns, key)) ==>
              Lookup(LiveOnly(ss[n].disk), ns, key, codec) == Lookup(LiveOnly(disk), ns, key, codec)
    ensures var s := ss[n];
            (OnlyIncrements(TxnsOf(s.log), ns, key)
              && StartsAt(LiveOnly(disk), TxnsOf(s.log), ns, key, base, codec)) ==>
              && CountsFrom(LiveOnly(s.disk), ns, key, base + DeltaSum(TxnsOf(s.log), ns, key), codec)
              && forall i | 0 <= i < |s.log| && Touches(s.log[i].txn, ns, key) ::
                   && s.log[i].plan.ret.RNum?
                   && s.log[i].plan.ret.x == base + DeltaSum(TxnsOf(s.log)[..i + 1], ns, key)
  {
    hide *;
    LiveFilesAreWhole(ss, ms, n, codec, disk);
    LiveOnlyIsLive(disk);
    if forall i | 0 <= i < |ss[n].log| :: !Touches(ss[n].log[i].txn, ns, key) {
      UntouchedKeySurvives(ss[n], ns, key);
    }
    if OnlyIncrements(TxnsOf(ss[n].log), ns, key)
      && StartsAt(LiveOnly(disk), TxnsOf(ss[n].log), ns, key, base, codec) {
      ConcurrentIncrementsAddUp(ss[n], ns, key, base);
    }
  }

  // ----- the race, reached -----

  /** The start of a racing run: a delete has found no file of the key's own, a second
      task has planned, and the delete has removed the namespace entry. */
  lemma RacePrefix(codec: JsonCodec, disk: Disk, t: Txn, ns: string) returns (ss: seq<Sys>, ms: seq<Move>)
    requires AllLive(disk) && NeedsFallback(t) && t.ns == ns && !InFile(disk, t.key)
    requires PlanOf(disk, TRemoveEntry(ns, t.key), codec).Write?
    ensures IsRun(ss, ms) && ss[0] == Boot(codec, disk) && |ms| == 11
    ensures var s, removal := ss[11], TRemoveEntry(ns, t.key);
            && s.log == [NoFile(t.key), Entry(removal, PlanOf(disk, removal, codec), 1)]
            && s.tasks.Keys == {0, 1} && s.tasks[0] == Planned(t, PlanOf(disk, t, codec), 1) && s.codec == codec
            && s.start == disk && LiveOnly(s.disk) == Commit(disk, Legacy(ns), PlanOf(disk, removal, codec))
  {
    hide *;
    var removal := TRemoveEntry(ns, t.key);
    RacePaths(t, ns);
    LiveIsItself(disk);
    RenamedLive(disk, Legacy(ns), PlanOf(disk, removal, codec));
    var ss', ms' := FirstPhase(codec, disk, t);
    var s1, s2 := BothPlan(codec, disk, t, removal);
    var s3, s4, s5 := RemovalCommits(codec, disk, t, removal);
    ss := [SearchedFile(codec, disk, t.key), s1.0, s1.1, s2.0, s2.1, s3, s4, s5];
    ms := [Acquire(0, t), Load(0), Acquire(1, removal), Load(1), Stage(1, ""), Fill(1), Rename(1)];
    SevenSteps(ss, ms);
    RunJoin(ss', ms', ss, ms);
    ss, ms := ss' + ss[1..], ms' + ms;
  }

  /** What the first phase of a delete logs when the key has no file. */
  function NoFile(key: string): Entry {
    Entry(TRemoveFile(key), Answer(RBool(false)), 0)
  }

  function SearchedFile(codec: JsonCodec, disk: Disk, key: string): Sys {
    Sys(codec, disk, disk, {}, map[], [NoFile(key)])
  }

  /** The delete locks the key's own file, finds none, answers and unlocks. */
  lemma FirstPhase(codec: JsonCodec, disk: Disk, t: Txn) returns (ss: seq<Sys>, ms: seq<Move>)
    requires AllLive(disk) && NeedsFallback(t) && !InFile(disk, t.key)
    ensures IsRun(ss, ms) && |ms| == 4 && ss[0] == Boot(codec, disk)
    ensures ss[4] == SearchedFile(codec, disk, t.key)
  {
    hide IsSafeSegment, DispatchPath, LiveOnly, InFile;
    var look := TRemoveFile(t.key);
    LiveIsItself(disk);
    var s0 := Sys(codec, disk, disk, {}, map[], []);
    var held := s0.(locks := {PathOf(look)}, tasks := map[1 := Locked(look)]);
    var planned := held.(tasks := map[1 := Planned(look, Answer(RBool(false)), 0)]);
    var answered := held.(tasks := map[1 := Committed(look, RBool(false))], log := [NoFile(t.key)]);
    ss := [s0, held, planned, answered, SearchedFile(codec, disk, t.key)];
    ms := [Acquire(1, look), Load(1), Settle(1), Release(1)];
    hide PathOf;
    assert StepAt(s0, ms[0], held) && StepAt(held, ms[1], planned);
    assert StepAt(planned, ms[2], answered) && StepAt(answered, ms[3], ss[4]);
  }

  lemma RunJoin(ss: seq<Sys>, ms: seq<Move>, ss': seq<Sys>, ms': seq<Move>)
    requires IsRun(ss, ms) && IsRun(ss', ms') && ss[|ms|] == ss'[0]
    ensures IsRun(ss + ss'[1..], ms + ms')
    ensures var all, n := ss + ss'[1..], |ms + ms'|;
            |all| == n + 1 && n == |ms| + |ms'| && all[0] == ss[0] && all[n] == ss'[|ms'|]
  {
    hide StepAt;
    var all, moves := ss + ss'[1..], ms + ms';
    forall n | 0 <= n < |moves|
      ensures StepAt(all[n], moves[n], all[n + 1])
    {
      if n < |ms| {
        assert StepAt(ss[n], ms[n], ss[n + 1]);
      } else {
        var k := n - |ms|;
        assert all[n] == ss'[k] && all[n + 1] == ss'[k + 1];
        assert StepAt(ss'[k], ms'[k], ss'[k + 1]);
      }
    }
  }

  lemma RacePaths(t: Txn, ns: string)
    requires NeedsFallback(t)
    ensures var removal := TRemoveEntry(ns, t.key);
            PathOf(t) != PathOf(removal) && PathOf(removal) == Legacy(ns) && IsTxn(t) && IsTxn(removal)
  {
    hide IsSafeSegment, DispatchPath;
    DispatchedOnly(t.key);
  }

  /** The state in which both tasks have planned. */
  function BothPlanned(codec: JsonCodec, disk: Disk, t: Txn, removal: Txn): Sys {
    Sys(codec, disk, disk, {PathOf(t), PathOf(removal)},
      map[0 := Planned(t, PlanOf(disk, t, codec), 1), 1 := Planned(removal, PlanOf(disk, removal, codec), 1)],
      [NoFile(t.key)])
  }

  lemma BothPlan(codec: JsonCodec, disk: Disk, t: Txn, removal: Txn) returns (a: (Sys, Sys), b: (Sys, Sys))
    requires IsTxn(t) && IsTxn(removal) && PathOf(t) != PathOf(removal)
    ensures StepAt(SearchedFile(codec, disk, t.key), Acquire(0, t), a.0)
    ensures StepAt(a.0, Load(0), a.1)
    ensures StepAt(a.1, Acquire(1, removal), b.0) && StepAt(b.0, Load(1), b.1)
    ensures b.1 == BothPlanned(codec, disk, t, removal)
  {
    hide PlanOf, PathOf, IsTxn;
    var p0, p1 := PlanOf(disk, t, codec), PlanOf(disk, removal, codec);
    var s0 := SearchedFile(codec, disk, t.key);
    a := (s0.(locks := {PathOf(t)}, tasks := map[0 := Locked(t)]),
      s0.(locks := {PathOf(t)}, tasks := map[0 := Planned(t, p0, 1)]));
    b := (s0.(locks := {PathOf(t), PathOf(removal)}, tasks := map[0 := Planned(t, p0, 1), 1 := Locked(removal)]),
      BothPlanned(codec, disk, t, removal));
  }

  lemma RemovalCommits(codec: JsonCodec, disk: Disk, t: Txn, removal: Txn) returns (a: Sys, b: Sys, c: Sys)
    requires PlanOf(disk, removal, codec).Write?
    ensures StepAt(BothPlanned(codec, disk, t, removal), Stage(1, ""), a)
    ensures StepAt(a, Fill(1), b) && StepAt(b, Rename(1), c)
    ensures var plan, path := PlanOf(disk, removal, codec), PathOf(removal);
            var staged := disk[Tmp(path) := ""][Tmp(path) := plan.text];
            && c.log == [NoFile(t.key), Entry(removal, plan, 1)] && c.tasks.Keys == {0, 1}
            && c.codec == codec && c.start == disk
            && c.tasks[0] == Planned(t, PlanOf(disk, t, codec), 1)
            && c.disk == staged[Live(path) := staged[Tmp(path)]] - {Tmp(path)}
  {
    hide PlanOf, PathOf;
    var s := BothPlanned(codec, disk, t, removal);
    a := Next(s, Stage(1, ""));
    b := Next(a, Fill(1));
    c := Next(b, Rename(1));
  }

  lemma LiveIsItself(disk: Disk)
    requires AllLive(disk)
    ensures LiveOnly(disk) == disk
  {
  }

  lemma RenamedLive(disk: Disk, path: Path, plan: Plan)
    requires AllLive(disk) && plan.Write?
    ensures var staged := disk[Tmp(path) := ""][Tmp(path) := plan.text];
            LiveOnly(staged[Live(path) := staged[Tmp(path)]] - {Tmp(path)}) == Commit(disk, path, plan)
  {
  }

  lemma SevenSteps(ss: seq<Sys>, ms: seq<Move>)
    requires |ss| == 8 && |ms| == 7
    requires StepAt(ss[0], ms[0], ss[1]) && StepAt(ss[1], ms[1], ss[2]) && StepAt(ss[2], ms[2], ss[3])
    requires StepAt(ss[3], ms[3], ss[4]) && StepAt(ss[4], ms[4], ss[5]) && StepAt(ss[5], ms[5], ss[6])
    requires StepAt(ss[6], ms[6], ss[7])
    ensures IsRun(ss, ms)
  {
    hide Next, Enabled;
  }

  lemma RunSnoc(ss: seq<Sys>, ms: seq<Move>, m: Move)
    requires IsRun(ss, ms) && Enabled(ss[|ms|], m)
    ensures IsRun(ss + [Next(ss[|ms|], m)], ms + [m])
  {
    hide Next, Enabled;
    var ss', ms' := ss + [Next(ss[|ms|], m)], ms + [m];
    forall n | 0 <= n < |ms'|
      ensures StepAt(ss'[n], ms'[n], ss'[n + 1])
    {
      assert n < |ms| ==> StepAt(ss[n], ms[n], ss[n + 1]);
    }
  }

  /** The race is real. From any store where a dispatch-shaped key has only a numeric
      namespace entry x, a run under the locks lets an increment commit x plus its
      delta after a delete of the key has removed that entry; alone it would have given
      default plus delta. */
  lemma RaceChangesResult(codec: JsonCodec, disk: Disk, ns: string, key: string, delta: F64, default: F64)
      returns (ss: seq<Sys>, ms: seq<Move>)
    requires AllLive(disk) && Inverse(codec) && DispatchPath(key).Some? && !InFile(disk, key)
    requires LegacyEntry(disk, ns, key, codec).Ok? && LegacyEntry(disk, ns, key, codec).value.Some?
    requires IsNumber(LegacyEntry(disk, ns, key, codec).value.value)
    ensures IsRun(ss, ms) && ss[0] == Boot(codec, disk) && |ss[|ms|].log| == 3
    ensures var s, x := ss[|ms|], AsF64(LegacyEntry(disk, ns, key, codec).value.value);
            var incr := TIncr(ns, key, delta, default);
            && s.log[0] == NoFile(key)
            && s.log[1].txn == TRemoveEntry(ns, key) && s.log[1].plan.ret == RBool(true)
            && s.log[2].txn == incr && s.log[2].plan.ret.RNum? && s.log[2].plan.ret.x == x + delta
            && var alone := PlanOf(Replay(s.start, s.log[..2]), incr, codec).ret;
               alone.RNum? && alone.x == default + delta
  {
    var incr, removal := TIncr(ns, key, delta, default), TRemoveEntry(ns, key);
    PlansOfRace(disk, incr, codec);
    ss, ms := RacePrefix(codec, disk, incr, ns);
    hide PlanOf, DispatchPath, LiveOnly, PathOf, LegacyEntry, InFile, Replay, Commit;
    RunSnoc(ss, ms, Stage(0, ""));
    ss, ms := ss + [Next(ss[11], Stage(0, ""))], ms + [Stage(0, "")];
    RunSnoc(ss, ms, Fill(0));
    ss, ms := ss + [Next(ss[12], Fill(0))], ms + [Fill(0)];
    RunSnoc(ss, ms, Rename(0));
    ss, ms := ss + [Next(ss[13], Rename(0))], ms + [Rename(0)];
    AfterRemoval(disk, removal, codec, ss[14]);
  }

  lemma AfterRemoval(disk: Disk, removal: Txn, codec: JsonCodec, s: Sys)
    requires removal.TRemoveEntry? && s.start == disk && |s.log| > 1 && s.log[0] == NoFile(removal.key)
    requires s.log[1].txn == removal && s.log[1].plan == PlanOf(disk, removal, codec)
    ensures Replay(s.start, s.log[..2]) == Commit(disk, PathOf(removal), PlanOf(disk, removal, codec))
  {
    hide PlanOf, PathOf;
    assert s.log[..2][..1] == [s.log[0]] && [s.log[0]][..0] == [];
    assert Replay(disk, [s.log[0]]) == disk;
  }

  /** The plans of a removal and of a transaction that falls back to the same entry,
      before and after the removal. */
  lemma PlansOfRace(disk: Disk, t: Txn, codec: JsonCodec)
    requires AllLive(disk) && Inverse(codec) && (t.TSetNx? || t.TIncr?) && DispatchPath(t.key).Some?
    requires !InFile(disk, t.key)
    requires LegacyEntry(disk, t.ns, t.key, codec).Ok? && LegacyEntry(disk, t.ns, t.key, codec).value.Some?
    ensures var removal, v := TRemoveEntry(t.ns, t.key), LegacyEntry(disk, t.ns, t.key, codec).value.value;
            var before, after := PlanOf(disk, t, codec),
                  PlanOf(Commit(disk, PathOf(removal), PlanOf(disk, removal, codec)), t, codec);
            && PlanOf(disk, removal, codec).Write? && PlanOf(disk, removal, codec).ret == RBool(true)
            && (t.TSetNx? ==> before == Answer(RBool(false)) && after.Write? && after.ret == RBool(true))
            && (t.TIncr? && IsNumber(v) ==>
                  && before.Write? && before.ret.RNum? && before.ret.x == AsF64(v) + t.delta
                  && after.Write? && after.ret.RNum? && after.ret.x == t.default + t.delta)
  {
    hide IsSafeSegment, DispatchPath, PutText;
    RemoveEntryEffect(disk, t.ns, t.key, codec);
    var removal := TRemoveEntry(t.ns, t.key);
    var after := Commit(disk, PathOf(removal), PlanOf(disk, removal, codec));
    assert LegacyEntry(after, t.ns, t.key, codec) == Ok(None);
    assert !InFile(after, t.key);
  }

  /** And `set_nx` can answer "present" for an entry that is already gone. */
  lemma SetNxSeesTheDeleted(codec: JsonCodec, disk: Disk, ns: string, key: string, v: Json)
      returns (ss: seq<Sys>, ms: seq<Move>)
    requires AllLive(disk) && Inverse(codec) && DispatchPath(key).Some? && !InFile(disk, key)
    requires LegacyEntry(disk, ns, key, codec).Ok? && LegacyEntry(disk, ns, key, codec).value.Some?
    ensures IsRun(ss, ms) && ss[0] == Boot(codec, disk) && |ss[|ms|].log| == 3
    ensures var s, t := ss[|ms|], TSetNx(ns, key, v);
            && s.log[0] == NoFile(key)
            && s.log[1].txn == TRemoveEntry(ns, key) && s.log[1].plan.ret == RBool(true)
            && s.log[2].txn == t && s.log[2].plan.ret == RBool(false)
            && PlanOf(Replay(s.start, s.log[..2]), t, codec).ret == RBool(true)
  {
    var t, removal := TSetNx(ns, key, v), TRemoveEntry(ns, key);
    PlansOfRace(disk, t, codec);
    ss, ms := RacePrefix(codec, disk, t, ns);
    hide PlanOf, DispatchPath, LiveOnly, PathOf, LegacyEntry, InFile, Replay, Commit;
    RunSnoc(ss, ms, Settle(0));
    ss, ms := ss + [Next(ss[11], Settle(0))], ms + [Settle(0)];
    AfterRemoval(disk, removal, codec, ss[12]);
  }
}
