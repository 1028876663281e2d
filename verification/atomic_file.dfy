/** Replacing a file by writing a temporary one and renaming it, and saving the
    three configuration files that way, as one process runs it. */
module AtomicFile {
  import opened Wrappers

  type Path = string
  type Bytes = seq<bv8>
  type Files = map<Path, Bytes>

  /** Names os.CreateTemp makes from the pattern ".zr-*.tmp". */
  predicate IsTemp(p: Path) {
    |p| >= 8 && p[|p| - 4..] == ".tmp" &&
    exists i | 0 <= i <= |p| - 8 :: p[i..i + 4] == ".zr-" && '/' !in p[i..] && (i == 0 || p[i - 1] == '/')
  }

  /** What a reader of the directory finds, temporary files aside. */
  function View(files: Files): Files { map p | p in files && !IsTemp(p) :: files[p] }

  /** What is known of one file besides its content: whether that is on disk, the
      permissions are set, and a handle is open. */
  datatype Status = Status(synced: bool, chmodded: bool, open: bool)

  /** The file system. Every operation may fail, and `failures` counts those that
      did; `seen` records the view after each of them, so that a crash at any
      point is a member of it. */
  class FileSystem {
    var files: Files
    var status: map<Path, Status>
    var hasDir: bool
    ghost var seen: seq<Files>
    ghost var failures: nat

    function Of(p: Path): Status
      reads this
    {
      if p in status then status[p] else Status(false, false, false)
    }

    /** One operation was carried out, and of all files only `p` has changed status. */
    twostate predicate Happened(ok: bool, p: Path)
      reads this
    {
      && seen == old(seen) + [View(files)] && failures == old(failures) + (if ok then 0 else 1)
      && hasDir == old(hasDir) && forall q | q != p :: Of(q) == old(Of(q))
    }

    ghost method Record(ok: bool)
      modifies this`seen, this`failures
      ensures seen == old(seen) + [View(files)] && failures == old(failures) + if ok then 0 else 1
    {
      seen := seen + [View(files)];
      failures := failures + if ok then 0 else 1;
    }

    method MkdirAll() returns (ok: bool)
      modifies this
      ensures files == old(files) && status == old(status) && (ok ==> hasDir)
      ensures seen == old(seen) + [View(files)] && failures == old(failures) + if ok then 0 else 1
    {
      ok := *;
      hasDir := hasDir || ok;
      Record(ok);
    }

    method CreateTemp() returns (name: Option<Path>)
      modifies this
      ensures match name
        case None => files == old(files) && status == old(status) && Happened(false, "")
        case Some(n) =>
          && IsTemp(n) && n !in old(files) && files == old(files)[n := []]
          && Happened(true, n) && Of(n) == Status(false, false, true)
    {
      name := None;
      var works: bool := *;
      var n: Path := *;
      if works && IsTemp(n) && n !in files {
        files, status := files[n := []], status[n := Status(false, false, true)];
        name := Some(n);
      }
      Record(name.Some?);
    }

    method Chmod(name: Path) returns (ok: bool)
      modifies this
      ensures files == old(files) && Happened(ok, name)
      ensures Of(name) == if ok then old(Of(name)).(chmodded := true) else old(Of(name))
    {
      ok := *;
      if ok { status := status[name := Of(name).(chmodded := true)]; }
      Record(ok);
    }

    method Sync(name: Path) returns (ok: bool)
      modifies this
      ensures files == old(files) && Happened(ok, name)
      ensures Of(name) == if ok then old(Of(name)).(synced := true) else old(Of(name))
    {
      ok := *;
      if ok { status := status[name := Of(name).(synced := true)]; }
      Record(ok);
    }

    /** The handle is gone even when Close reports an error. */
    method Close(name: Path) returns (ok: bool)
      modifies this
      ensures files == old(files) && Happened(ok, name) && Of(name) == old(Of(name)).(open := false)
    {
      ok := *;
      status := status[name := Of(name).(open := false)];
      Record(ok);
    }

    /** Writes all of `data`, or on failure some part of it. */
    method Write(name: Path, data: Bytes) returns (ok: bool, part: Bytes)
      requires name in files
      modifies this
      ensures part <= data && (ok ==> part == data) && files == old(files)[name := part]
      ensures Happened(ok, name) && Of(name) == old(Of(name)).(synced := false)
    {
      var n: int := *;
      part := if 0 <= n <= |data| then data[..n] else data;
      ok := part == data;
      files, status := files[name := part], status[name := Of(name).(synced := false)];
      Record(ok);
    }

    method Rename(from: Path, to: Path) returns (ok: bool)
      requires from in files && from != to
      modifies this
      ensures files == if ok then (old(files) - {from})[to := old(files)[from]] else old(files)
      ensures ok ==> Of(to) == old(Of(from))
      ensures !ok ==> status == old(status)
      ensures Happened(ok, to)
    {
      ok := *;
      if ok {
        files, status := (files - {from})[to := files[from]], status[to := Of(from)];
      }
      Record(ok);
    }

    method Remove(name: Path)
      modifies this
      ensures files == old(files) - {name} && status == old(status) && Happened(true, name)
    {
      files := files - {name};
      Record(true);
    }
  }

  /** Chmod, Write, Sync and Close, up to the first failure; the file is closed
      either way. */
  method WriteOut(fs: FileSystem, name: Path, data: Bytes, ghost base: Files) returns (ok: bool, part: Bytes)
    requires IsTemp(name) && name !in base && fs.files == base[name := []] && fs.Of(name) == Status(false, false, true)
    modifies fs
    ensures fs.files == base[name := part] && (ok ==> part == data)
    ensures !fs.Of(name).open && (ok ==> fs.Of(name) == Status(true, true, false))
    ensures fs.hasDir == old(fs.hasDir) && forall q | q != name :: fs.Of(q) == old(fs.Of(q))
    ensures ok <==> fs.failures == old(fs.failures)
    ensures fs.failures >= old(fs.failures)
    ensures SwitchesAt(old(fs.seen), fs.seen, |fs.seen|, View(base), View(base))
  {
    TempsAreInvisible(base, name, []);
    part := [];
    ok := fs.Chmod(name);
    if ok {
      ok, part := fs.Write(name, data);
      TempsAreInvisible(base, name, part);
      assert base[name := []][name := part] == base[name := part];
    }
    if ok {
      ok := fs.Sync(name);
    }
    var closed := fs.Close(name);
    ok := ok && closed;
  }

  lemma TempsAreInvisible(files: Files, name: Path, content: Bytes)
    requires IsTemp(name)
    ensures View(files[name := content]) == View(files)
    ensures View(files - {name}) == View(files)
  {
  }

  lemma RenameShows(files: Files, name: Path, path: Path)
    requires IsTemp(name) && !IsTemp(path) && name in files
    ensures View((files - {name})[path := files[name]]) == View(files)[path := files[name]]
  {
  }

  /** `seen` grew by views equal to `before` up to `m` and to `after` from there. */
  predicate SwitchesAt(was: seq<Files>, seen: seq<Files>, m: int, before: Files, after: Files) {
    && |was| <= m <= |seen| && was <= seen
    && (forall i | |was| <= i < m :: seen[i] == before)
    && (forall i | m <= i < |seen| :: seen[i] == after)
  }

  /** AtomicWriteFile. On success the file is replaced; on failure nothing
      changed, and either way no temporary file is left. At every moment in
      between a reader finds the old complete file, and from the switch on the
      new one. It fails only if some operation does; what it leaves under the name
      is on disk with its permissions, and no file stays open. */
  method AtomicWriteFile(fs: FileSystem, path: Path, data: Bytes) returns (ok: bool, ghost switch: int)
    requires !IsTemp(path)
    modifies fs
    ensures ok ==> fs.files == old(fs.files)[path := data]
    ensures !ok ==> fs.files == old(fs.files)
    ensures SwitchesAt(old(fs.seen), fs.seen, switch, View(old(fs.files)), View(fs.files))
    ensures View(fs.files) == if ok then View(old(fs.files))[path := data] else View(old(fs.files))
    ensures ok <==> fs.failures == old(fs.failures)
    ensures fs.failures >= old(fs.failures) && fs.hasDir == old(fs.hasDir)
    ensures ok ==> fs.Of(path) == Status(true, true, false)
    ensures forall q | q != path && fs.Of(q) != old(fs.Of(q)) :: IsTemp(q) && !fs.Of(q).open
  {
    ghost var was, files := fs.seen, fs.files;
    var tmp := fs.CreateTemp();
    switch := |fs.seen|;
    if tmp.None? {
      return false, switch;
    }
    var name := tmp.value;
    TempsAreInvisible(files, name, []);
    var part;
    ok, part := WriteOut(fs, name, data, files);
    assert SwitchesAt(was, fs.seen, |fs.seen|, View(files), View(files));
    ok, switch := Finish(fs, ok, name, path, part, files);
  }

  /** The rename, if everything was written, and the deferred removal. */
  method Finish(fs: FileSystem, written: bool, name: Path, path: Path, part: Bytes, ghost base: Files)
    returns (ok: bool, ghost switch: int)
    requires IsTemp(name) && !IsTemp(path) && name !in base && fs.files == base[name := part]
    modifies fs
    ensures fs.files == if ok then base[path := part] else base
    ensures View(fs.files) == if ok then View(base)[path := part] else View(base)
    ensures SwitchesAt(old(fs.seen), fs.seen, switch, View(base), View(fs.files))
    ensures ok <==> written && fs.failures == old(fs.failures)
    ensures fs.failures >= old(fs.failures) && fs.hasDir == old(fs.hasDir)
    ensures (ok ==> fs.Of(path) == old(fs.Of(name))) && forall q | q != path :: fs.Of(q) == old(fs.Of(q))
  {
    TempsAreInvisible(base, name, part);
    ok := written;
    switch := |fs.seen|;
    if written {
      ok := fs.Rename(name, path);
      RenameShows(base[name := part], name, path);
      if !ok { switch := |fs.seen|; }
    }
    ghost var end := fs.files;
    fs.Remove(name);
    TempsAreInvisible(end, name, []);
    if !ok { switch := |fs.seen|; }
  }

  // ----- Save

  datatype SaveResult = Saved | NoDirectory | NotWritten(file: nat)

  /** `before` with the first `n` of the three files replaced. */
  function Replaced(before: Files, paths: seq<Path>, data: seq<Bytes>, n: nat): Files
    requires n <= |paths| && n <= |data|
  {
    if n == 0 then before else Replaced(before, paths, data, n - 1)[paths[n - 1] := data[n - 1]]
  }

  /** Each of the first `n` files has its own data, for different names; the rest of
      the directory is as before. */
  lemma {:induction false} ReplacedExactly(before: Files, paths: seq<Path>, data: seq<Bytes>, n: nat, p: Path)
    requires n <= |paths| && n <= |data| && forall i, j | 0 <= i < j < |paths| :: paths[i] != paths[j]
    ensures forall i | 0 <= i < n && paths[i] == p ::
              p in Replaced(before, paths, data, n) && Replaced(before, paths, data, n)[p] == data[i]
    ensures (forall i | 0 <= i < n :: paths[i] != p) ==>
              (p in Replaced(before, paths, data, n) <==> p in before)
              && (p in before ==> Replaced(before, paths, data, n)[p] == before[p])
  {
    if n > 0 {
      ReplacedExactly(before, paths, data, n - 1, p);
    }
  }

  lemma {:induction false} ReplacedView(before: Files, paths: seq<Path>, data: seq<Bytes>, n: nat)
    requires n <= |paths| && n <= |data|
    requires forall i | 0 <= i < |paths| :: !IsTemp(paths[i])
    ensures View(Replaced(before, paths, data, n)) == Replaced(View(before), paths, data, n)
  {
    if n > 0 {
      ReplacedView(before, paths, data, n - 1);
      var b := Replaced(before, paths, data, n - 1);
      assert View(b[paths[n - 1] := data[n - 1]]) == View(b)[paths[n - 1] := data[n - 1]];
    }
  }

  /** Every view seen since `was` shows some number of the files replaced, in
      order, and that number never falls. */
  ghost predicate GrowsByStages(was: seq<Files>, seen: seq<Files>, before: Files, paths: seq<Path>, data: seq<Bytes>,
                                stages: seq<nat>)
    requires |paths| == |data|
  {
    && was <= seen && |stages| == |seen| - |was|
    && (forall i | 0 <= i < |stages| ::
          stages[i] <= |paths| && seen[|was| + i] == Replaced(before, paths, data, stages[i]))
    && (forall i, j | 0 <= i < j < |stages| :: stages[i] <= stages[j])
  }

  /** Save: config.yml, environments.yml and tokens.yml in that order, each by an
      atomic replacement; `marshals` says which of them encode. After a failure
      the files before it are new and the rest old, and a crash at any moment
      leaves a state of the same form. */
  method Save(fs: FileSystem, paths: seq<Path>, data: seq<Bytes>, marshals: seq<bool>)
    returns (r: SaveResult, ghost stages: seq<nat>)
    requires |paths| == |data| == |marshals| == 3
    requires forall i | 0 <= i < |paths| :: !IsTemp(paths[i])
    modifies fs
    ensures r.Saved? ==> fs.files == Replaced(old(fs.files), paths, data, 3)
    ensures r.NoDirectory? ==> fs.files == old(fs.files)
    ensures r.NotWritten? ==> r.file < 3 && fs.files == Replaced(old(fs.files), paths, data, r.file)
    ensures r.Saved? <==> fs.failures == old(fs.failures) && forall i | 0 <= i < 3 :: marshals[i]
    ensures r.NotWritten? ==>
              (forall i | 0 <= i < r.file :: marshals[i]) && (marshals[r.file] ==> fs.failures > old(fs.failures))
    ensures r.NoDirectory? ==> fs.failures > old(fs.failures)
    ensures !r.NoDirectory? ==> fs.hasDir
    ensures GrowsByStages(old(fs.seen), fs.seen, View(old(fs.files)), paths, data, stages)
  {
    ghost var was, files := fs.seen, fs.files;
    var ok := fs.MkdirAll();
    stages := [0];
    if !ok {
      return NoDirectory, stages;
    }
    var n := 0;
    while n < 3
      invariant 0 <= n <= 3
      invariant fs.files == Replaced(files, paths, data, n)
      invariant GrowsByStages(was, fs.seen, View(files), paths, data, stages)
      invariant forall i | 0 <= i < |stages| :: stages[i] <= n
      invariant fs.hasDir && fs.failures == old(fs.failures) && forall i | 0 <= i < n :: marshals[i]
    {
      if !marshals[n] {
        return NotWritten(n), stages;
      }
      ghost var sofar := fs.seen;
      ghost var switch;
      ok, switch := AtomicWriteFile(fs, paths[n], data[n]);
      ReplacedView(files, paths, data, n);
      ReplacedView(files, paths, data, n + 1);
      stages := ExtendStages(was, sofar, fs.seen, View(files), paths, data, stages, n, switch, ok);
      if !ok {
        return NotWritten(n), stages;
      }
      n := n + 1;
    }
    r := Saved;
  }

  lemma ExtendStages(was: seq<Files>, sofar: seq<Files>, seen: seq<Files>, before: Files, paths: seq<Path>,
                     data: seq<Bytes>, stages: seq<nat>, n: nat, switch: int, ok: bool)
    returns (more: seq<nat>)
    requires |paths| == |data| && n < |paths|
    requires GrowsByStages(was, sofar, before, paths, data, stages) && forall i | 0 <= i < |stages| :: stages[i] <= n
    requires SwitchesAt(sofar, seen, switch, Replaced(before, paths, data, n),
                        Replaced(before, paths, data, if ok then n + 1 else n))
    ensures GrowsByStages(was, seen, before, paths, data, more)
    ensures forall i | 0 <= i < |more| :: more[i] <= if ok then n + 1 else n
  {
    var last := if ok then n + 1 else n;
    more := stages + seq(|seen| - |sofar|, k requires 0 <= k => if |sofar| + k < switch then n else last);
  }
}
