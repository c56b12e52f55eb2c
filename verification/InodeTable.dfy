/**
 The inode table of kernel/fs.c as a state machine of concurrent threads: iget(),
 idup(), ilock(), iupdate(), iunlock(), iput() and ialloc(), with the file table
 of kernel/file.c, whose entries keep references that several processes share. A
 step is one section under itable.lock or ftable.lock, one operation of the holder
 of an inode's sleep lock, or one read or write of an inode on disk.
 */
module InodeTable {
  import opened ProcTypes

  /** Device and inode number. */
  datatype Key = Key(dev: nat, inum: nat)

  /** What an inode holds on disk; content stands for its size and block addresses, 0 for none. */
  datatype Dinode = Dinode(kind: nat, nlink: nat, content: nat)

  /** dirty: changed by the holder of the lock and not yet written with iupdate(). */
  datatype Inode = Inode(key: Key, ref: nat, valid: bool, lock: Option<nat>, d: Dinode, dirty: bool)

  /** Where a thread is. */
  datatype Pc =
    | Idle
    | Allocated(key: Key)          // ialloc(): marked on disk, iget() not yet called
    | Freeing(e: nat, stage: nat)  // iput(), freeing the inode; see the stages below
  // 1 locked; 2 truncated; 3 type cleared in memory; 4 and on disk; 5 not valid any more; 6 unlocked

  /** A thread, the references it holds itself, and the open files its process has. */
  datatype Thread = Thread(pc: Pc, refs: multiset<nat>, fds: multiset<nat>)

  /** A struct file: its references, and the inode it keeps one reference to. */
  datatype File = File(ref: nat, ip: Option<nat>)

  datatype State = State(inodes: seq<Inode>, disk: map<Key, Dinode>, threads: seq<Thread>, files: seq<File>) {
    predicate IsFile(f: int) {
      0 <= f < |files|
    }

    predicate IsInode(e: int) {
      0 <= e < |inodes|
    }

    predicate IsThread(t: int) {
      0 <= t < |threads|
    }

    function With(e: nat, x: Inode): State
      requires IsInode(e)
    {
      this.(inodes := inodes[e := x])
    }

    function At(t: nat, pc: Pc): State
      requires IsThread(t)
    {
      this.(threads := threads[t := threads[t].(pc := pc)])
    }

    /** t gets one more reference to e, or gives one up. */
    function Gain(t: nat, e: nat): State
      requires IsThread(t)
    {
      this.(threads := threads[t := threads[t].(refs := threads[t].refs[e := threads[t].refs[e] + 1])])
    }

    function Lose(t: nat, e: nat): State
      requires IsThread(t) && threads[t].refs[e] > 0
    {
      this.(threads := threads[t := threads[t].(refs := threads[t].refs[e := threads[t].refs[e] - 1])])
    }

    function WithFile(f: nat, x: File): State
      requires IsFile(f)
    {
      this.(files := files[f := x])
    }

    /** t gets one more reference to open file f, or gives one up. */
    function Open(t: nat, f: nat): State
      requires IsThread(t)
    {
      this.(threads := threads[t := threads[t].(fds := threads[t].fds[f := threads[t].fds[f] + 1])])
    }

    function Close(t: nat, f: nat): State
      requires IsThread(t) && threads[t].fds[f] > 0
    {
      this.(threads := threads[t := threads[t].(fds := threads[t].fds[f := threads[t].fds[f] - 1])])
    }
  }

  /** t has an open file on e. */
  ghost predicate HasFile(s: State, t: nat, e: nat)
    requires s.IsThread(t)
  {
    exists f: nat :: s.IsFile(f) && s.threads[t].fds[f] > 0 && s.files[f].ip == Some(e)
  }

  /** t may use e: it has a reference, or a file on it. */
  ghost predicate Has(s: State, t: nat, e: nat)
    requires s.IsThread(t)
  {
    s.threads[t].refs[e] > 0 || HasFile(s, t, e)
  }

  datatype Label =
    | Find(t: nat, key: Key, e: nat)    // iget(): the inode is in the table
    | Recycle(t: nat, key: Key, e: nat) // iget(): it is not; e is the first free entry
    | Dup(t: nat, e: nat)               // idup()
    | Drop(t: nat, e: nat)              // iput() without freeing the inode
    | FreeBegin(t: nat, e: nat)         // iput(): last reference, no links
    | Lock(t: nat, e: nat)              // acquiresleep() in ilock()
    | Fill(t: nat, e: nat)              // ilock(): read the inode from disk
    | Modify(t: nat, e: nat, d: Dinode) // the holder changes the inode
    | Update(t: nat, e: nat)            // iupdate()
    | Unlock(t: nat, e: nat)            // iunlock()
    | FreeNext(t: nat)                  // iput(): the next of its stages
    | Alloc(t: nat, key: Key, kind: nat) // ialloc(): a free inode on disk is marked
    | OpenFile(t: nat, e: nat, f: nat)  // filealloc() and f->ip = ip: the reference moves to the file
    | DupFile(t: nat, u: nat, f: nat)   // filedup(), for t itself or in fork() for the child u
    | DupFor(t: nat, u: nat, e: nat)    // idup() in fork(), for the child u
    | CloseFile(t: nat, f: nat)         // fileclose() of a file that others have open
    | LastClose(t: nat, f: nat)         // fileclose() of the last one: the reference moves to t, for iput()

  predicate IsRef(a: Label) {
    a.Find? || a.Recycle? || a.Dup? || a.Drop? || a.FreeBegin?
  }

  predicate IsHold(a: Label) {
    a.Lock? || a.Fill? || a.Modify? || a.Update? || a.Unlock?
  }

  predicate IsFiles(a: Label) {
    a.OpenFile? || a.DupFile? || a.DupFor? || a.CloseFile? || a.LastClose?
  }

  predicate IsRest(a: Label) {
    a.Alloc? || a.FreeNext?
  }

  // ----- Steps -----

  /** The test of iput(), under itable.lock. */
  predicate LastUse(x: Inode) {
    x.ref == 1 && x.valid && x.d.nlink == 0
  }

  /** A thread may put a reference that its own lock does not rest on. */
  ghost predicate MayPut(s: State, t: nat, e: nat)
    requires s.IsThread(t) && s.IsInode(e)
  {
    s.threads[t].refs[e] > 0 && (s.inodes[e].lock == Some(t) ==> s.threads[t].refs[e] > 1 || HasFile(s, t, e))
  }

  ghost predicate RefEnabled(s: State, a: Label)
    requires IsRef(a)
  {
    && s.IsThread(a.t) && s.IsInode(a.e)
    && var pc, x := s.threads[a.t].pc, s.inodes[a.e];
    match a
    case Find(_, key, e) => (pc.Idle? || pc == Allocated(key)) && key in s.disk && x.ref > 0 && x.key == key
    case Recycle(_, key, e) =>
      && (pc.Idle? || pc == Allocated(key)) && key in s.disk && x.ref == 0
      && (forall f :: 0 <= f < e ==> s.inodes[f].ref > 0)
      && (forall f :: 0 <= f < |s.inodes| && s.inodes[f].ref > 0 ==> s.inodes[f].key != key)
    case Dup(_, e) => pc.Idle? && s.threads[a.t].refs[e] > 0
    case Drop(_, e) => pc.Idle? && MayPut(s, a.t, e) && x.ref > 0 && !LastUse(x)
    case FreeBegin(_, e) => pc.Idle? && MayPut(s, a.t, e) && LastUse(x) && x.lock.None?
  }

  ghost function RefNext(s: State, a: Label): (r: State)
    requires IsRef(a) && RefEnabled(s, a)
  {
    var t, e, x := a.t, a.e, s.inodes[a.e];
    match a
    case Find(_, _, _) => s.With(e, x.(ref := x.ref + 1)).Gain(t, e).At(t, Idle)
    case Recycle(_, key, _) => s.With(e, x.(key := key, ref := 1, valid := false)).Gain(t, e).At(t, Idle)
    case Dup(_, _) => s.With(e, x.(ref := x.ref + 1)).Gain(t, e)
    case Drop(_, _) => s.With(e, x.(ref := x.ref - 1)).Lose(t, e)
    case FreeBegin(_, _) => s.With(e, x.(lock := Some(t))).At(t, Freeing(e, 1))
  }

  ghost predicate HoldEnabled(s: State, a: Label)
    requires IsHold(a)
  {
    && s.IsThread(a.t) && s.IsInode(a.e) && s.threads[a.t].pc.Idle?
    && var x := s.inodes[a.e];
    match a
    case Lock(t, e) => Has(s, t, e) && x.lock.None?
    // a type of 0 on disk is a panic
    case Fill(t, e) => x.lock == Some(t) && !x.valid && x.key in s.disk && s.disk[x.key].kind != 0
    case Modify(t, e, d) => x.lock == Some(t) && x.valid && d.kind != 0
    case Update(t, e) => x.lock == Some(t) && x.valid
    case Unlock(t, e) => x.lock == Some(t) && x.valid && !x.dirty
  }

  ghost function HoldNext(s: State, a: Label): (r: State)
    requires IsHold(a) && HoldEnabled(s, a)
  {
    var t, e, x := a.t, a.e, s.inodes[a.e];
    match a
    case Lock(_, _) => s.With(e, x.(lock := Some(t)))
    case Fill(_, _) => s.With(e, x.(d := s.disk[x.key], valid := true))
    case Modify(_, _, d) => s.With(e, x.(d := d, dirty := true))
    case Update(_, _) => s.With(e, x.(dirty := false)).(disk := s.disk[x.key := x.d])
    case Unlock(_, _) => s.With(e, x.(lock := None))
  }

  /** A process opens and closes files while it has no inode locked that this would take from it. */
  ghost predicate FilesEnabled(s: State, a: Label)
    requires IsFiles(a)
  {
    && s.IsThread(a.t) && s.threads[a.t].pc.Idle?
    && match a
       case OpenFile(t, e, f) => s.IsInode(e) && s.threads[t].refs[e] > 0 && s.IsFile(f) && s.files[f].ref == 0
       case DupFile(t, u, f) => s.IsThread(u) && s.IsFile(f) && s.threads[t].fds[f] > 0
       case DupFor(t, u, e) => s.IsThread(u) && s.IsInode(e) && s.threads[t].refs[e] > 0
       case CloseFile(t, f) => MayClose(s, t, f) && s.files[f].ref > 1
       case LastClose(t, f) => MayClose(s, t, f) && s.files[f].ref == 1 && s.files[f].ip.Some?
  }

  predicate MayClose(s: State, t: nat, f: nat)
    requires s.IsThread(t)
  {
    && s.IsFile(f) && s.threads[t].fds[f] > 0
    && (s.files[f].ip.Some? && s.IsInode(s.files[f].ip.value) ==> s.inodes[s.files[f].ip.value].lock != Some(t))
  }

  ghost function FilesNext(s: State, a: Label): (r: State)
    requires IsFiles(a) && FilesEnabled(s, a)
  {
    match a
    case OpenFile(t, e, f) => s.WithFile(f, File(1, Some(e))).Lose(t, e).Open(t, f)
    case DupFile(t, u, f) => s.WithFile(f, s.files[f].(ref := s.files[f].ref + 1)).Open(u, f)
    case DupFor(t, u, e) => s.With(e, s.inodes[e].(ref := s.inodes[e].ref + 1)).Gain(u, e)
    case CloseFile(t, f) => s.WithFile(f, s.files[f].(ref := s.files[f].ref - 1)).Close(t, f)
    case LastClose(t, f) => s.WithFile(f, File(0, None)).Close(t, f).Gain(t, s.files[f].ip.value)
  }

  predicate RestEnabled(s: State, a: Label)
    requires IsRest(a)
  {
    && s.IsThread(a.t)
    && var pc := s.threads[a.t].pc;
    match a
    case Alloc(t, key, kind) => pc.Idle? && key in s.disk && s.disk[key].kind == 0 && kind != 0
    case FreeNext(t) =>
      && pc.Freeing? && s.IsInode(pc.e)
      && (pc.stage == 6 ==> s.threads[t].refs[pc.e] > 0 && s.inodes[pc.e].ref > 0)
  }

  function RestNext(s: State, a: Label): (r: State)
    requires IsRest(a) && RestEnabled(s, a)
  {
    match a
    case Alloc(t, key, kind) => s.(disk := s.disk[key := Dinode(kind, 0, 0)]).At(t, Allocated(key))
    case FreeNext(t) =>
      var e, k := s.threads[t].pc.e, s.threads[t].pc.stage;
      var x := s.inodes[e];
      if k == 1 then
        // itrunc(), which ends with an iupdate()
        var d := x.d.(content := 0);
        s.With(e, x.(d := d)).(disk := s.disk[x.key := d]).At(t, Freeing(e, 2))
      else if k == 2 then s.With(e, x.(d := x.d.(kind := 0))).At(t, Freeing(e, 3))
      else if k == 3 then s.(disk := s.disk[x.key := x.d]).At(t, Freeing(e, 4))
      else if k == 4 then s.With(e, x.(valid := false)).At(t, Freeing(e, 5))
      else if k == 5 then s.With(e, x.(lock := None)).At(t, Freeing(e, 6))
      else if k == 6 then s.With(e, x.(ref := x.ref - 1)).Lose(t, e).At(t, Idle)
      else s
  }

  ghost predicate Enabled(s: State, a: Label) {
    if IsRef(a) then RefEnabled(s, a)
    else if IsHold(a) then HoldEnabled(s, a)
    else if IsFiles(a) then FilesEnabled(s, a)
    else RestEnabled(s, a)
  }

  ghost function Next(s: State, a: Label): (r: State)
    requires Enabled(s, a)
  {
    if IsRef(a) then RefNext(s, a)
    else if IsHold(a) then HoldNext(s, a)
    else if IsFiles(a) then FilesNext(s, a)
    else RestNext(s, a)
  }

  predicate Init(s: State) {
    && (forall e :: 0 <= e < |s.inodes| ==> s.inodes[e].ref == 0 && s.inodes[e].lock.None? && !s.inodes[e].dirty)
    && (forall t :: 0 <= t < |s.threads| ==> s.threads[t] == Thread(Idle, multiset{}, multiset{}))
    && (forall f :: 0 <= f < |s.files| ==> s.files[f] == File(0, None))
  }

  ghost predicate IsStep(s: State, a: Label, t: State) {
    Enabled(s, a) && t == Next(s, a)
  }

  ghost predicate IsRun(ss: seq<State>, labels: seq<Label>) {
    && |ss| == |labels| + 1 && Init(ss[0])
    && forall k :: 0 <= k < |labels| ==> IsStep(ss[k], labels[k], ss[k + 1])
  }

  // ----- iget()'s scan -----

  /** The loop of iget(): the referenced entry for key, or else the first free one, or |inodes| if there is none. */
  method Scan(inodes: seq<Inode>, key: Key) returns (found: bool, e: nat)
    ensures found ==> e < |inodes| && inodes[e].ref > 0 && inodes[e].key == key
    ensures !found ==> forall f :: 0 <= f < |inodes| && inodes[f].ref > 0 ==> inodes[f].key != key
    ensures !found ==> e <= |inodes| && (e < |inodes| ==> inodes[e].ref == 0)
    ensures !found ==> forall f :: 0 <= f < e ==> inodes[f].ref > 0
  {
    var empty, i := |inodes|, 0;
    while i < |inodes|
      invariant 0 <= i <= |inodes| && 0 <= empty <= |inodes|
      invariant forall f :: 0 <= f < i && inodes[f].ref > 0 ==> inodes[f].key != key
      invariant empty < |inodes| ==> empty < i && inodes[empty].ref == 0
      invariant forall f :: 0 <= f < i && f < empty ==> inodes[f].ref > 0
    {
      if inodes[i].ref > 0 && inodes[i].key == key {
        return true, i;
      }
      if empty == |inodes| && inodes[i].ref == 0 {
        empty := i;
      }
      i := i + 1;
    }
    return false, empty;
  }
}
