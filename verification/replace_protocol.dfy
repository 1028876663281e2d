/**
 Any number of processes replacing files by AtomicWriteFile at the same time,
 as a transition system over a directory and its inodes. Every state is a
 possible crash; what had not been synced is lost with the power.
 */
module ReplaceProtocol {
  import opened Wrappers
  import opened AtomicFile

  type Id = nat
  type Inode = nat

  /** `maker` is the writer that created the file, None for those already there. */
  datatype File = File(content: Bytes, synced: bool, maker: Option<Id>)

  /** Where a writer is. `Cleanup` is the deferred removal on every way out. */
  datatype Pc =
    | Begin
    | Writing(tmp: Path, inode: Inode, written: nat)
    | Synced(tmp: Path, inode: Inode)
    | Closed(tmp: Path, inode: Inode)
    | Cleanup(tmp: Path, ok: bool)
    | Done(ok: bool)

  datatype Writer = Writer(target: Path, data: Bytes, pc: Pc)

  datatype State = State(
    names: map<Path, Inode>,
    inodes: map<Inode, File>,
    unused: Inode,           // inodes from here on were never allocated
    writers: map<Id, Writer>)

  datatype Action =
    | Start(id: Id, target: Path, data: Bytes)
    | CreateTemp(id: Id, tmp: Path)
    | CreateFails(id: Id)
    | WriteSome(id: Id, upto: nat)
    | Sync(id: Id)
    | Close(id: Id)
    | Rename(id: Id)
    | Fail(id: Id)           // chmod, write, sync, close or rename fails
    | Remove(id: Id)

  predicate Writes(s: State, id: Id) { id in s.writers }

  function PcOf(s: State, id: Id): Pc
    requires id in s.writers
  {
    s.writers[id].pc
  }

  /** What can happen: os.CreateTemp gives any temporary name not in use. */
  predicate Enabled(s: State, a: Action) {
    match a
    case Start(id, target, _) => !Writes(s, id) && !IsTemp(target)
    case CreateTemp(id, tmp) => Writes(s, id) && PcOf(s, id).Begin? && IsTemp(tmp) && tmp !in s.names
    case CreateFails(id) => Writes(s, id) && PcOf(s, id).Begin?
    case WriteSome(id, upto) =>
      Writes(s, id) && PcOf(s, id).Writing? && PcOf(s, id).written < upto <= |s.writers[id].data|
      && PcOf(s, id).inode in s.inodes
    case Sync(id) =>
      Writes(s, id) && PcOf(s, id).Writing? && PcOf(s, id).written == |s.writers[id].data|
      && PcOf(s, id).inode in s.inodes
    case Close(id) => Writes(s, id) && PcOf(s, id).Synced?
    case Rename(id) => Writes(s, id) && PcOf(s, id).Closed? && PcOf(s, id).tmp in s.names
    case Fail(id) => Writes(s, id) && (PcOf(s, id).Writing? || PcOf(s, id).Synced? || PcOf(s, id).Closed?)
    case Remove(id) => Writes(s, id) && PcOf(s, id).Cleanup?
  }

  /** Some writer has yet to run its deferred removal of this name. */
  predicate Pending(s: State, tmp: Path) {
    exists id :: id in s.writers && s.writers[id].pc.Cleanup? && s.writers[id].pc.tmp == tmp
  }

  /** The step does not hand out a name whose removal is still pending. */
  predicate Guarded(s: State, a: Action) { Enabled(s, a) && (a.CreateTemp? ==> !Pending(s, a.tmp)) }

  function Goto(s: State, id: Id, pc: Pc): State
    requires id in s.writers
  {
    s.(writers := s.writers[id := s.writers[id].(pc := pc)])
  }

  function Step(s: State, a: Action): State
    requires Enabled(s, a)
  {
    match a
    case Start(id, target, data) => s.(writers := s.writers[id := Writer(target, data, Begin)])
    case CreateTemp(id, tmp) =>
      var made := s.(names := s.names[tmp := s.unused], inodes := s.inodes[s.unused := File([], false, Some(id))],
                     unused := s.unused + 1);
      Goto(made, id, Writing(tmp, s.unused, 0))
    case CreateFails(id) => Goto(s, id, Done(false))
    case WriteSome(id, upto) =>
      var pc := PcOf(s, id);
      var file := File(s.writers[id].data[..upto], false, s.inodes[pc.inode].maker);
      Goto(s.(inodes := s.inodes[pc.inode := file]), id, pc.(written := upto))
    case Sync(id) =>
      var pc := PcOf(s, id);
      var file := s.inodes[pc.inode].(synced := true);
      Goto(s.(inodes := s.inodes[pc.inode := file]), id, Synced(pc.tmp, pc.inode))
    case Close(id) => Goto(s, id, Closed(PcOf(s, id).tmp, PcOf(s, id).inode))
    case Rename(id) =>
      var tmp := PcOf(s, id).tmp;
      Goto(s.(names := (s.names - {tmp})[s.writers[id].target := s.names[tmp]]), id, Cleanup(tmp, true))
    case Fail(id) => Goto(s, id, Cleanup(PcOf(s, id).tmp, false))
    case Remove(id) =>
      var pc := PcOf(s, id);
      Goto(s.(names := s.names - {pc.tmp}), id, Done(pc.ok))
  }

  /** Executions of guarded steps, from any state. */
  datatype Run = From(start: State) | After(run: Run, action: Action)

  predicate Steps(r: Run)
    decreases r, 0
  {
    r.From? || (Steps(r.run) && Guarded(Last(r.run), r.action))
  }

  function Last(r: Run): State
    requires Steps(r)
    decreases r, 1
  {
    match r
    case From(s) => s
    case After(r1, a) => Step(Last(r1), a)
  }

  function Origin(r: Run): State { match r case From(s) => s case After(r1, _) => Origin(r1) }

  /** A directory of complete, synced files and nobody writing yet. */
  predicate Initial(s: State) {
    && s.writers == map[]
    && (forall p | p in s.names :: s.names[p] in s.inodes && s.names[p] < s.unused
          && s.inodes[s.names[p]].synced && s.inodes[s.names[p]].maker.None?)
    && (forall i | i in s.inodes :: i < s.unused)
  }

  predicate Legal(r: Run) { Steps(r) && Initial(Origin(r)) }

  // ----- Invariant

  predicate Owns(pc: Pc) { pc.Writing? || pc.Synced? || pc.Closed? }

  predicate Live(pc: Pc) { Owns(pc) || pc.Cleanup? }

  predicate HasRenamed(pc: Pc) { (pc.Cleanup? || pc.Done?) && pc.ok }

  /** A writer's temporary file is its own, and holds what it has written. */
  predicate WriterOK(s: State, id: Id)
    requires id in s.writers
  {
    var w := s.writers[id];
    && !IsTemp(w.target)
    && (Live(w.pc) ==> IsTemp(w.pc.tmp))
    && (Owns(w.pc) ==>
          && w.pc.tmp in s.names && s.names[w.pc.tmp] == w.pc.inode
          && w.pc.inode in s.inodes && w.pc.inode < s.unused && s.inodes[w.pc.inode].maker == Some(id)
          && (w.pc.Writing? ==> w.pc.written <= |w.data| && s.inodes[w.pc.inode].content == w.data[..w.pc.written])
          && (!w.pc.Writing? ==> s.inodes[w.pc.inode] == File(w.data, true, Some(id))))
  }

  /** Under a proper name lies a complete, synced file: the one from before, or
      all the data of a writer that renamed it there. Under a temporary name lies
      a file from before, or that of the writer using the name. */
  predicate NameOK(s: State, origin: State, p: Path)
    requires p in s.names
  {
    s.names[p] in s.inodes && s.names[p] < s.unused &&
    var f := s.inodes[s.names[p]];
    if IsTemp(p) then
      f.maker.Some? ==> var id := f.maker.value; id in s.writers && Uses(s.writers[id].pc, p)
    else
      f.synced &&
      match f.maker
      case None => p in origin.names && origin.names[p] in origin.inodes && f == origin.inodes[origin.names[p]]
      case Some(id) =>
        id in s.writers && HasRenamed(s.writers[id].pc) && s.writers[id].target == p && f.content == s.writers[id].data
  }

  /** The writer's file lies under this name, or the name's removal is pending. */
  predicate Uses(pc: Pc, tmp: Path) { Live(pc) && pc.tmp == tmp && !HasRenamed(pc) }

  /** No two writers hold the same temporary name. */
  predicate Distinct(s: State) {
    forall i, j | i in s.writers && j in s.writers && i != j && Live(s.writers[i].pc) && Live(s.writers[j].pc) ::
      s.writers[i].pc.tmp != s.writers[j].pc.tmp
  }

  predicate Inv(s: State, origin: State) {
    && (forall id | id in s.writers :: WriterOK(s, id))
    && (forall p | p in s.names :: NameOK(s, origin, p))
    && (forall i | i in s.inodes :: i < s.unused)
    && Distinct(s)
  }

  lemma StepKeepsActor(s: State, a: Action, origin: State)
    requires Inv(s, origin) && Guarded(s, a)
    ensures WriterOK(Step(s, a), a.id)
  {
    if a.id in s.writers {
      assert WriterOK(s, a.id);
    }
  }

  lemma StepKeepsOthers(s: State, a: Action, origin: State, id: Id)
    requires Inv(s, origin) && Guarded(s, a) && id in s.writers && id != a.id
    ensures WriterOK(Step(s, a), id)
  {
    assert WriterOK(s, id);
    if a.id in s.writers {
      assert WriterOK(s, a.id);
    }
  }

  lemma StepKeepsNames(s: State, a: Action, origin: State, p: Path)
    requires Inv(s, origin) && Guarded(s, a) && p in Step(s, a).names
    ensures NameOK(Step(s, a), origin, p)
  {
    if p in s.names {
      assert NameOK(s, origin, p);
    }
    if a.id in s.writers {
      assert WriterOK(s, a.id);
    }
  }

  /** A writer's temporary name is fixed when its file is created. */
  lemma TmpStays(s: State, a: Action, id: Id)
    requires Enabled(s, a) && id in Step(s, a).writers && Live(Step(s, a).writers[id].pc)
    ensures id in s.writers
    ensures if a.CreateTemp? && a.id == id then Step(s, a).writers[id].pc.tmp == a.tmp
            else Live(s.writers[id].pc) && Step(s, a).writers[id].pc.tmp == s.writers[id].pc.tmp
  {
  }

  lemma StepKeepsDistinct(s: State, a: Action, origin: State)
    requires Inv(s, origin) && Guarded(s, a)
    ensures Distinct(Step(s, a))
  {
    var w := Step(s, a).writers;
    forall i, j | i in w && j in w && i != j && Live(w[i].pc) && Live(w[j].pc) ensures w[i].pc.tmp != w[j].pc.tmp {
      TmpStays(s, a, i);
      TmpStays(s, a, j);
      assert WriterOK(s, i) && WriterOK(s, j);
    }
  }

  lemma StepKeepsInv(s: State, a: Action, origin: State)
    requires Inv(s, origin) && Guarded(s, a)
    ensures Inv(Step(s, a), origin)
  {
    var s' := Step(s, a);
    forall id | id in s'.writers ensures WriterOK(s', id) {
      if id == a.id { StepKeepsActor(s, a, origin); } else { StepKeepsOthers(s, a, origin, id); }
    }
    forall p | p in s'.names ensures NameOK(s', origin, p) { StepKeepsNames(s, a, origin, p); }
    StepKeepsDistinct(s, a, origin);
  }

  lemma {:induction false} RunsKeepInv(r: Run, origin: State)
    requires Steps(r) && Inv(Origin(r), origin)
    ensures Inv(Last(r), origin)
  {
    if r.After? {
      RunsKeepInv(r.run, origin);
      StepKeepsInv(Last(r.run), r.action, origin);
    }
  }

  // ----- What readers and callers may rely on

  /** What a reader finds under a name. */
  function Content(s: State, p: Path): Option<Bytes> {
    if p in s.names && s.names[p] in s.inodes then Some(s.inodes[s.names[p]].content) else None
  }

  /** `content` is what was there before, or all the data of one writer of `p`. */
  predicate Complete(s: State, origin: State, p: Path, content: Option<Bytes>) {
    || content == Content(origin, p)
    || exists id :: id in s.writers && s.writers[id].target == p && content == Some(s.writers[id].data)
  }

  /** Every proper file is complete. */
  predicate AllComplete(s: State, origin: State) {
    forall p | p in s.names && !IsTemp(p) :: Complete(s, origin, p, Content(s, p))
  }

  lemma InvMeansComplete(s: State, origin: State)
    requires Inv(s, origin)
    ensures AllComplete(s, origin)
  {
    forall p | p in s.names && !IsTemp(p) ensures Complete(s, origin, p, Content(s, p)) {
      assert NameOK(s, origin, p);
    }
  }

  /** In every reachable state, so at every possible crash, each proper file is
      complete: as before, or all of some writer's data. It is synced too, so
      losing the power does not change it. */
  lemma TargetsAreComplete(r: Run, p: Path)
    requires Legal(r) && !IsTemp(p) && p in Last(r).names
    ensures var s := Last(r);
            && Complete(s, Origin(r), p, Content(s, p))
            && s.names[p] in s.inodes && s.inodes[s.names[p]].synced
  {
    RunsKeepInv(r, Origin(r));
    assert NameOK(Last(r), Origin(r), p);
  }

  lemma RenameInstalls(s: State, origin: State, id: Id, p: Path)
    requires Inv(s, origin) && Guarded(s, Rename(id)) && !IsTemp(p)
    ensures Content(Step(s, Rename(id)), p) ==
            if s.writers[id].target == p then Some(s.writers[id].data) else Content(s, p)
  {
    assert WriterOK(s, id);
    if p in s.names { assert NameOK(s, origin, p); }
  }

  lemma OtherStepsShowNothing(s: State, origin: State, a: Action, p: Path)
    requires Inv(s, origin) && Guarded(s, a) && !a.Rename? && !IsTemp(p)
    ensures Content(Step(s, a), p) == Content(s, p)
  {
    if a.id in s.writers { assert WriterOK(s, a.id); }
    if p in s.names { assert NameOK(s, origin, p); }
  }

  /** A proper file changes in one step only: its own rename, which installs all
      of the renaming writer's data. It never disappears. */
  lemma TargetsChangeAtOnce(r: Run, a: Action, p: Path)
    requires Legal(After(r, a)) && !IsTemp(p)
    ensures var s, s' := Last(r), Last(After(r, a));
            if a.Rename? && s.writers[a.id].target == p then Content(s', p) == Some(s.writers[a.id].data)
            else Content(s', p) == Content(s, p)
  {
    RunsKeepInv(r, Origin(r));
    if a.Rename? {
      RenameInstalls(Last(r), Origin(r), a.id, p);
    } else {
      OtherStepsShowNothing(Last(r), Origin(r), a, p);
    }
  }

  /** A rename due is never refused for a missing temporary file, and once a
      writer has returned, whatever the outcome, its own file lies under no
      temporary name. */
  lemma NoTempIsLostOrLeft(r: Run, id: Id)
    requires Legal(r) && id in Last(r).writers
    ensures var s := Last(r);
            && (PcOf(s, id).Closed? ==> Guarded(s, Rename(id)))
            && (PcOf(s, id).Done? ==>
                  forall p | p in s.names && IsTemp(p) ::
                    s.names[p] in s.inodes && s.inodes[s.names[p]].maker != Some(id))
  {
    RunsKeepInv(r, Origin(r));
    var s := Last(r);
    assert WriterOK(s, id);
    forall p | p in s.names && IsTemp(p) && PcOf(s, id).Done?
      ensures s.names[p] in s.inodes && s.inodes[s.names[p]].maker != Some(id)
    {
      assert NameOK(s, Origin(r), p);
    }
  }

  predicate Renamed(r: Run, id: Id) {
    r.After? && (r.action == Rename(id) || Renamed(r.run, id))
  }

  /** A writer returns success if and only if it renamed its file. */
  lemma {:induction false} ReturnsAreHonest(r: Run, id: Id)
    requires Legal(r)
    ensures Renamed(r, id) <==> id in Last(r).writers && HasRenamed(PcOf(Last(r), id))
  {
    if r.After? {
      ReturnsAreHonest(r.run, id);
    }
  }

  // ----- Handing out a pending name is exactly what goes wrong

  /** Every writer of `p` has less than `n` bytes. */
  predicate Short(s: State, p: Path, n: nat) {
    forall id | id in s.writers && s.writers[id].target == p :: |s.writers[id].data| < n
  }

  /** Writer `id` owns the name that `q`, and nobody else, has yet to remove. */
  predicate Shared(s: State, id: Id, q: Id, tmp: Path) {
    && id in s.writers && q in s.writers && q != id
    && Owns(s.writers[id].pc) && s.writers[id].pc.tmp == tmp && s.writers[id].pc.inode in s.inodes
    && s.writers[q].pc.Cleanup? && s.writers[q].pc.tmp == tmp
    && (forall w | w in s.writers && w != q && s.writers[w].pc.Cleanup? :: s.writers[w].pc.tmp != tmp)
    && IsTemp(tmp) && !IsTemp(s.writers[id].target)
  }

  /** Writer `id` is about to rename a name that holds nothing of its own. */
  predicate Robbed(s: State, id: Id, tmp: Path) {
    && id in s.writers && s.writers[id].pc.Closed? && s.writers[id].pc.tmp == tmp
    && !Pending(s, tmp) && IsTemp(tmp) && !IsTemp(s.writers[id].target)
  }

  /** `a` leaves `id` its job and adds no writer of its target. */
  predicate Quiet(s: State, a: Action, p: Path) { Enabled(s, a) && (a.Start? ==> a.target != p) }

  lemma JobsStay(s: State, a: Action, id: Id)
    requires Enabled(s, a) && id in s.writers
    ensures var w := Step(s, a).writers;
            id in w && w[id].target == s.writers[id].target && w[id].data == s.writers[id].data
  {
  }

  lemma ShortStays(s: State, a: Action, p: Path, n: nat)
    requires Quiet(s, a, p) && Short(s, p, n)
    ensures Short(Step(s, a), p, n)
  {
    forall id | id in Step(s, a).writers && Step(s, a).writers[id].target == p
      ensures |Step(s, a).writers[id].data| < n
    {
      if id in s.writers { JobsStay(s, a, id); }
    }
  }

  lemma HandOutShares(s: State, origin: State, id: Id, q: Id, tmp: Path)
    requires Inv(s, origin) && Enabled(s, CreateTemp(id, tmp))
    requires q in s.writers && s.writers[q].pc.Cleanup? && s.writers[q].pc.tmp == tmp
    ensures var s' := Step(s, CreateTemp(id, tmp)); Shared(s', id, q, tmp) && s'.writers[id].pc.Writing?
    ensures Step(s, CreateTemp(id, tmp)).writers[id].pc.written == 0
  {
    assert WriterOK(s, id);
  }

  lemma OwnStepShares(s: State, a: Action, id: Id, q: Id, tmp: Path)
    requires Shared(s, id, q, tmp) && Enabled(s, a) && a.id == id && (a.WriteSome? || a.Sync? || a.Close?)
    ensures Shared(Step(s, a), id, q, tmp)
  {
  }

  /** The owner goes on to write, sync and close its file. */
  lemma CloseShared(r: Run, id: Id, q: Id, tmp: Path, n: nat) returns (r': Run)
    requires Steps(r) && Shared(Last(r), id, q, tmp) && Short(Last(r), Last(r).writers[id].target, n)
    requires Last(r).writers[id].pc.Writing? && Last(r).writers[id].pc.written == 0
    ensures Steps(r') && Origin(r') == Origin(r) && Shared(Last(r'), id, q, tmp) && Last(r').writers[id].pc.Closed?
    ensures Last(r').writers[id].target == Last(r).writers[id].target
    ensures Short(Last(r'), Last(r).writers[id].target, n)
  {
    var size := |Last(r).writers[id].data|;
    r' := r;
    if size > 0 { r' := Advance(r, WriteSome(id, size), id, q, tmp, n); }
    r' := Advance(r', Sync(id), id, q, tmp, n);
    r' := Advance(r', Close(id), id, q, tmp, n);
  }

  lemma Advance(r: Run, a: Action, id: Id, q: Id, tmp: Path, n: nat) returns (r': Run)
    requires Steps(r) && Shared(Last(r), id, q, tmp) && Short(Last(r), Last(r).writers[id].target, n)
    requires Enabled(Last(r), a) && a.id == id && (a.WriteSome? || a.Sync? || a.Close?)
    ensures r' == After(r, a) && Steps(r') && Origin(r') == Origin(r) && Shared(Last(r'), id, q, tmp)
    ensures Last(r').writers[id].target == Last(r).writers[id].target
    ensures Short(Last(r'), Last(r).writers[id].target, n)
  {
    r' := After(r, a);
    OwnStepShares(Last(r), a, id, q, tmp);
    ShortStays(Last(r), a, Last(r).writers[id].target, n);
  }

  /** The pending removal takes the owner's file away. */
  lemma RemovalRobs(s: State, id: Id, q: Id, tmp: Path)
    requires Shared(s, id, q, tmp) && s.writers[id].pc.Closed?
    ensures Guarded(s, Remove(q))
    ensures Robbed(Step(s, Remove(q)), id, tmp) && tmp !in Step(s, Remove(q)).names
  {
  }

  lemma StartKeepsRobbed(s: State, id: Id, tmp: Path, x: Id, p: Path, data: Bytes)
    requires Robbed(s, id, tmp) && tmp !in s.names && x !in s.writers && !IsTemp(p)
    ensures Guarded(s, Start(x, p, data))
    ensures var s' := Step(s, Start(x, p, data));
            Robbed(s', id, tmp) && tmp !in s'.names && s'.writers[x] == Writer(p, data, Begin)
  {
  }

  /** Writer `x` has put `data`, all it will ever write, under the name. */
  predicate Planted(s: State, id: Id, tmp: Path, data: Bytes) {
    Robbed(s, id, tmp) && tmp in s.names && s.names[tmp] in s.inodes && s.inodes[s.names[tmp]].content == data
  }

  lemma CreateKeepsRobbed(s: State, id: Id, tmp: Path, x: Id)
    requires Robbed(s, id, tmp) && tmp !in s.names && x in s.writers && s.writers[x].pc.Begin?
    ensures Guarded(s, CreateTemp(x, tmp))
    ensures var s' := Step(s, CreateTemp(x, tmp));
            Robbed(s', id, tmp) && s'.writers[x] == s.writers[x].(pc := Writing(tmp, s.unused, 0))
            && tmp in s'.names && s'.names[tmp] == s.unused && s.unused in s'.inodes
  {
  }

  lemma WritePlants(s: State, id: Id, tmp: Path, x: Id)
    requires Robbed(s, id, tmp) && x in s.writers && tmp in s.names && s.names[tmp] in s.inodes
    requires s.writers[x].pc == Writing(tmp, s.names[tmp], 0) && s.writers[x].data != []
    ensures Guarded(s, WriteSome(x, |s.writers[x].data|))
    ensures Planted(Step(s, WriteSome(x, |s.writers[x].data|)), id, tmp, s.writers[x].data)
  {
    assert s.writers[x].data[..|s.writers[x].data|] == s.writers[x].data;
  }

  /** A robbed writer's rename can install another writer's file. */
  lemma PlantData(r: Run, id: Id, tmp: Path, x: Id, p: Path, data: Bytes, n: nat) returns (r': Run)
    requires Steps(r) && Robbed(Last(r), id, tmp) && tmp !in Last(r).names
    requires Short(Last(r), Last(r).writers[id].target, n)
    requires x !in Last(r).writers && !IsTemp(p) && p != Last(r).writers[id].target && data != []
    ensures Steps(r') && Origin(r') == Origin(r) && Planted(Last(r'), id, tmp, data)
    ensures Last(r').writers[id].target == Last(r).writers[id].target
    ensures Short(Last(r'), Last(r).writers[id].target, n)
  {
    var s, target := Last(r), Last(r).writers[id].target;
    StartKeepsRobbed(s, id, tmp, x, p, data);
    ShortStays(s, Start(x, p, data), target, n);
    var s1 := Step(s, Start(x, p, data));
    CreateKeepsRobbed(s1, id, tmp, x);
    ShortStays(s1, CreateTemp(x, tmp), target, n);
    var s2 := Step(s1, CreateTemp(x, tmp));
    WritePlants(s2, id, tmp, x);
    ShortStays(s2, WriteSome(x, |data|), target, n);
    var started := After(r, Start(x, p, data));
    var created := After(started, CreateTemp(x, tmp));
    r' := After(created, WriteSome(x, |data|));
    assert Origin(r') == Origin(created) == Origin(started) == Origin(r);
  }

  lemma RenameCorrupts(s: State, origin: State, id: Id, tmp: Path, data: Bytes)
    requires Planted(s, id, tmp, data) && Short(s, s.writers[id].target, |data|)
    requires Content(origin, s.writers[id].target) != Some(data)
    ensures Guarded(s, Rename(id)) && !AllComplete(Step(s, Rename(id)), origin)
  {
    var s', target := Step(s, Rename(id)), s.writers[id].target;
    ShortStays(s, Rename(id), target, |data|);
    assert Content(s', target) == Some(data);
    assert !Complete(s', origin, target, Content(s', target));
  }

  lemma {:induction false} Above(numbers: set<nat>) returns (n: nat)
    ensures forall k | k in numbers :: k < n
  {
    n := 0;
    if numbers != {} {
      var k :| k in numbers;
      var m := Above(numbers - {k});
      n := if k < m then m else k + 1;
      assert forall j | j in numbers :: j == k || j in numbers - {k};
    }
  }

  /** Data longer than everything a target could properly hold. */
  lemma LongerData(s: State, content: Option<Bytes>) returns (data: Bytes)
    ensures data != [] && content != Some(data)
    ensures forall id | id in s.writers :: |s.writers[id].data| < |data|
  {
    var sizes := set id | id in s.writers :: |s.writers[id].data|;
    var n := Above(sizes + if content.Some? then {|content.value|} else {});
    data := seq(n + 1, i => 0);
    forall id | id in s.writers ensures |s.writers[id].data| < n { assert |s.writers[id].data| in sizes; }
  }

  lemma OtherPath(p: Path) returns (other: Path)
    ensures other != p && !IsTemp(other)
  {
    other := p + "x";
    if |other| >= 8 { assert other[|other| - 4..][3] == 'x'; }
  }

  /** A pending name handed out can ruin the file its new holder replaces: the
      pending removal takes the holder's file away, a third writer gets the name,
      by then free, and the holder's rename installs the third writer's data. */
  lemma PendingNameCorrupts(s: State, origin: State, id: Id, tmp: Path) returns (r: Run)
    requires Inv(s, origin) && Enabled(s, CreateTemp(id, tmp)) && Pending(s, tmp)
    ensures Steps(r) && Origin(r) == Step(s, CreateTemp(id, tmp)) && !AllComplete(Last(r), origin)
  {
    var q :| q in s.writers && s.writers[q].pc.Cleanup? && s.writers[q].pc.tmp == tmp;
    var s1, target := Step(s, CreateTemp(id, tmp)), s.writers[id].target;
    HandOutShares(s, origin, id, q, tmp);
    var data := LongerData(s1, Content(origin, target));
    var closed := CloseShared(From(s1), id, q, tmp, |data|);
    RemovalRobs(Last(closed), id, q, tmp);
    ShortStays(Last(closed), Remove(q), target, |data|);
    var robbed := After(closed, Remove(q));
    var x := Above(Last(robbed).writers.Keys);
    var other := OtherPath(target);
    var planted := PlantData(robbed, id, tmp, x, other, data, |data|);
    RenameCorrupts(Last(planted), origin, id, tmp, data);
    r := After(planted, Rename(id));
  }

  /** The exact condition on temporary names. In any reachable state, handing a
      free name out keeps every file complete, whatever guarded steps follow, if
      and only if no writer's deferred removal of that name is pending. */
  lemma HandingOutIsSafeExactly(r: Run, id: Id, tmp: Path)
    requires Legal(r) && Enabled(Last(r), CreateTemp(id, tmp))
    ensures !Pending(Last(r), tmp) <==>
            forall later | Steps(later) && Origin(later) == Step(Last(r), CreateTemp(id, tmp)) ::
              AllComplete(Last(later), Origin(r))
  {
    RunsKeepInv(r, Origin(r));
    var s := Last(r);
    if Pending(s, tmp) {
      var later := PendingNameCorrupts(s, Origin(r), id, tmp);
    } else {
      StepKeepsInv(s, CreateTemp(id, tmp), Origin(r));
      forall later | Steps(later) && Origin(later) == Step(s, CreateTemp(id, tmp))
        ensures AllComplete(Last(later), Origin(r))
      {
        RunsKeepInv(later, Origin(r));
        InvMeansComplete(Last(later), Origin(r));
      }
    }
  }

  // ----- Such names do come up

  const TMP: Path := "/.zr-1.tmp"
  const TARGET: Path := "/tokens.yml"
  const EMPTY: State := State(map[], map[], 0, map[])

  lemma NamesAreWhatTheySeem()
    ensures IsTemp(TMP) && !IsTemp(TARGET) && TMP != TARGET
  {
    assert TMP[1..5] == ".zr-" && '/' !in TMP[1..] && TMP[0] == '/';
    assert TMP[6..] == ".tmp";
    assert TARGET[7..] == ".yml";
  }

  lemma Extend(r: Run, a: Action) returns (r': Run)
    requires Legal(r) && Guarded(Last(r), a)
    ensures Legal(r') && Last(r') == Step(Last(r), a)
  {
    r' := After(r, a);
  }

  /** A single writer, of TARGET, with nothing to write. */
  function Alone(names: map<Path, Inode>, synced: bool, pc: Pc): State {
    State(names, map[0 := File([], synced, Some(0))], 1, map[0 := Writer(TARGET, [], pc)])
  }

  const STARTED: State := State(map[], map[], 0, map[0 := Writer(TARGET, [], Begin)])

  lemma StartAlone()
    requires !IsTemp(TARGET)
    ensures Guarded(EMPTY, Start(0, TARGET, [])) && Step(EMPTY, Start(0, TARGET, [])) == STARTED
  {
  }

  lemma OpenAlone()
    requires IsTemp(TMP)
    ensures Guarded(STARTED, CreateTemp(0, TMP))
    ensures Step(STARTED, CreateTemp(0, TMP)) == Alone(map[TMP := 0], false, Writing(TMP, 0, 0))
  {
    var s := Step(STARTED, CreateTemp(0, TMP));
    assert s.writers == map[0 := Writer(TARGET, [], Writing(TMP, 0, 0))];
  }

  lemma CreateAlone() returns (r: Run)
    requires IsTemp(TMP) && !IsTemp(TARGET)
    ensures Legal(r) && Last(r) == Alone(map[TMP := 0], false, Writing(TMP, 0, 0))
  {
    StartAlone();
    OpenAlone();
    r := Extend(From(EMPTY), Start(0, TARGET, []));
    r := Extend(r, CreateTemp(0, TMP));
  }

  lemma CloseAlone()
    ensures var s := Alone(map[TMP := 0], false, Writing(TMP, 0, 0));
            Guarded(s, Sync(0)) && Step(s, Sync(0)) == Alone(map[TMP := 0], true, Synced(TMP, 0))
    ensures var s := Alone(map[TMP := 0], true, Synced(TMP, 0));
            Guarded(s, Close(0)) && Step(s, Close(0)) == Alone(map[TMP := 0], true, Closed(TMP, 0))
  {
  }

  lemma RenameAlone()
    ensures var s := Alone(map[TMP := 0], true, Closed(TMP, 0));
            Guarded(s, Rename(0)) && Step(s, Rename(0)) == Alone(map[TARGET := 0], true, Cleanup(TMP, true))
  {
    assert (map[TMP := 0] - {TMP})[TARGET := 0] == map[TARGET := 0];
  }

  lemma RenamedAlone() returns (r: Run)
    requires IsTemp(TMP) && !IsTemp(TARGET)
    ensures Legal(r) && Last(r) == Alone(map[TARGET := 0], true, Cleanup(TMP, true))
  {
    r := CreateAlone();
    CloseAlone();
    RenameAlone();
    r := Extend(r, Sync(0));
    r := Extend(r, Close(0));
    r := Extend(r, Rename(0));
  }

  /** Writer 0 has renamed its file and not yet run its removal, and writer 1 is
      about to create one. */
  lemma RenameLeavesPending() returns (r: Run)
    requires IsTemp(TMP) && !IsTemp(TARGET) && TMP != TARGET
    ensures Legal(r) && Pending(Last(r), TMP) && Enabled(Last(r), CreateTemp(1, TMP))
  {
    r := RenamedAlone();
    r := Extend(r, Start(1, TARGET, []));
    assert Last(r).writers[0].pc == Cleanup(TMP, true);
  }

  /** Without the guard replacement is not safe: from an empty directory, one
      pending name handed out leads to a file that holds nobody's data. */
  lemma ReusedNamesCorrupt() returns (r: Run, later: Run)
    ensures Legal(r) && Enabled(Last(r), CreateTemp(1, TMP))
    ensures Steps(later) && Origin(later) == Step(Last(r), CreateTemp(1, TMP)) && !AllComplete(Last(later), Origin(r))
  {
    NamesAreWhatTheySeem();
    r := RenameLeavesPending();
    RunsKeepInv(r, Origin(r));
    later := PendingNameCorrupts(Last(r), Origin(r), 1, TMP);
  }
}
