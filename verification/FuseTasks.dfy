/** The handlers of vm-agent/src/fuse/filesystem.rs as the tasks they are spawned as. A task
    finds its path when it begins, looks into the cache, waits for the host, and then changes
    the inode map, the handle table and the cache, one lock at a time, so other tasks come in
    between. */
module FuseTasks {
  import opened Bytes
  import opened Runs
  import opened FuseFilesystem

  /** What a task does under one lock. `Peek` and `PeekDir` end the task, or have it serve the
      cached listing, when the cache has a good entry. `PutFound` caches an attribute under the inode that the
      task's last `Find` gave it; `ReadPath` and `InvalidateRead` are the two halves of what a
      write does after the host has answered. */
  datatype Action =
    | Find(path: string) | Forget(path: string) | Move(path: string, to: string)
    | PutAttr(path: string, ino: nat, meta: seq<int>) | PutFound(path: string, meta: seq<int>)
    | PutDir(path: string, listing: seq<string>)
    | Invalidate(path: string) | InvalidateBoth(path: string, to: string) | InvalidateParent(path: string)
    | Peek(path: string, expired: bool) | PeekDir(path: string, expired: bool, offset: nat, shown: nat)
    | ReadPath(ino: nat) | InvalidateRead
    | Allocate(fd: nat) | Release(fh: nat) | Clear

  datatype Task = Task(todo: seq<Action>, found: nat, read: Option<string>)

  function Finds(parent: string, names: seq<string>): seq<Action> {
    if names == [] then [] else Finds(parent, names[..|names| - 1]) + [Find(BuildPath(parent, names[|names| - 1]))]
  }

  /** The actions of a handler call begun in `fs`, with the host's answers given. */
  function Plan(fs: Fs, c: Call): seq<Action> {
    match c
    case Lookup(parent, name, expired, stat) =>
      if parent !in fs.inodes.inoToPath then []
      else
        var path := BuildPath(fs.inodes.inoToPath[parent], name);
        [Peek(path, expired)] + if stat.None? then [] else [Find(path), PutFound(path, stat.value)]
    case Getattr(ino, expired, stat) =>
      if ino !in fs.inodes.inoToPath then []
      else
        var path := fs.inodes.inoToPath[ino];
        [Peek(path, expired)] + if stat.None? then [] else [PutAttr(path, ino, stat.value)]
    case Setattr(ino, truncated, stat) =>
      if ino !in fs.inodes.inoToPath || truncated == Some(false) then []
      else
        var path := fs.inodes.inoToPath[ino];
        (if truncated.Some? then [Invalidate(path)] else []) + if stat.None? then [] else [PutAttr(path, ino, stat.value)]
    case OpenFile(ino, fd) => if ino !in fs.inodes.inoToPath || fd.None? then [] else [Allocate(fd.value)]
    case ReleaseFile(fh) => [Release(fh)]
    case WriteFile(ino, fh, ok) => if fh !in fs.handles.remote || !ok then [] else [ReadPath(ino), InvalidateRead]
    case ReadDir(ino, fh, offset, expired, listing, shown) =>
      if ino !in fs.inodes.inoToPath || fh !in fs.handles.remote then []
      else
        var path := fs.inodes.inoToPath[ino];
        [PeekDir(path, expired, offset, shown)]
        + if listing.None? then [] else [PutDir(path, listing.value)] + Finds(path, Tried(listing.value, offset, shown))
    case MakeDir(parent, name, ok, stat) =>
      if parent !in fs.inodes.inoToPath || !ok then []
      else
        var path := BuildPath(fs.inodes.inoToPath[parent], name);
        [InvalidateParent(path)] + if stat.None? then [] else [Find(path)]
    case CreateFile(parent, name, fd) =>
      if parent !in fs.inodes.inoToPath || fd.None? then []
      else
        var path := BuildPath(fs.inodes.inoToPath[parent], name);
        [Find(path), InvalidateParent(path), Allocate(fd.value)]
    case RemoveEntry(parent, name, ok) =>
      if parent !in fs.inodes.inoToPath || !ok then []
      else
        var path := BuildPath(fs.inodes.inoToPath[parent], name);
        [InvalidateParent(path), Forget(path)]
    case RenameEntry(parent, name, newParent, newName, ok) =>
      if parent !in fs.inodes.inoToPath || newParent !in fs.inodes.inoToPath || !ok then []
      else
        var path := BuildPath(fs.inodes.inoToPath[parent], name);
        var to := BuildPath(fs.inodes.inoToPath[newParent], newName);
        [InvalidateBoth(path, to), Move(path, to)]
    case ClearCache => [Clear]
  }

  /** One action: the shared state after it, and what the task has learnt. */
  function Act(fs: Fs, t: Task): (Fs, Task)
    requires t.todo != []
  {
    var rest := t.(todo := t.todo[1..]);
    match t.todo[0]
    case Find(path) => (fs.(inodes := Found(fs.inodes, path)), rest.(found := InodeOf(Found(fs.inodes, path), path)))
    case Forget(path) => (fs.(inodes := Forgotten(fs.inodes, path)), rest)
    case Move(path, to) => (fs.(inodes := Moved(fs.inodes, path, to)), rest)
    case PutAttr(path, ino, meta) => (fs.(cache := fs.cache.(attr := fs.cache.attr[path := Attr(ino, meta)])), rest)
    case PutFound(path, meta) => (fs.(cache := fs.cache.(attr := fs.cache.attr[path := Attr(t.found, meta)])), rest)
    case PutDir(path, listing) => (fs.(cache := fs.cache.(dir := fs.cache.dir[path := listing])), rest)
    case Invalidate(path) => (fs.(cache := Invalidated(fs.cache, path)), rest)
    case InvalidateParent(path) => (fs.(cache := InvalidatedWithParent(fs.cache, path)), rest)
    case InvalidateBoth(path, to) =>
      (fs.(cache := InvalidatedWithParent(InvalidatedWithParent(fs.cache, path), to)), rest)
    case Peek(path, expired) => (fs, if path in fs.cache.attr && !expired then rest.(todo := []) else rest)
    case PeekDir(path, expired, offset, shown) =>
      (fs, if path in fs.cache.dir && !expired then rest.(todo := Finds(path, Tried(fs.cache.dir[path], offset, shown)))
           else rest)
    case ReadPath(ino) =>
      (fs, rest.(read := if ino in fs.inodes.inoToPath then Some(fs.inodes.inoToPath[ino]) else None))
    case InvalidateRead =>
      (if t.read.Some? then fs.(cache := Invalidated(fs.cache, t.read.value)) else fs, rest)
    case Allocate(fd) => (fs.(handles := Allocated(fs.handles, fd)), rest)
    case Release(fh) => (fs.(handles := Released(fs.handles, fh)), rest)
    case Clear => (fs.(cache := Cache(map[], map[])), rest)
  }

  function Fresh(fs: Fs, c: Call): Task { Task(Plan(fs, c), 0, None) }

  // ----- a task that runs alone -----

  /** A `PeekDir` may put more to do in its place, but no other `PeekDir`. */
  function Left(todo: seq<Action>): nat {
    if todo != [] && todo[0].PeekDir? then 1 else 0
  }

  predicate PeeksFirst(todo: seq<Action>) { forall i :: 0 < i < |todo| ==> !todo[i].PeekDir? }

  lemma {:induction false} FindsOnly(parent: string, names: seq<string>)
    ensures forall i :: 0 <= i < |Finds(parent, names)| ==> Finds(parent, names)[i].Find?
  {
    if names == [] {
    } else {
      FindsOnly(parent, names[..|names| - 1]);
    }
  }

  lemma ActPeeksFirst(fs: Fs, t: Task)
    requires t.todo != [] && PeeksFirst(t.todo)
    ensures var rest := Act(fs, t).1; PeeksFirst(rest.todo) && Left(rest.todo) == 0
    ensures !t.todo[0].PeekDir? ==> |Act(fs, t).1.todo| < |t.todo|
  {
    var a := t.todo[0];
    if a.PeekDir? && a.path in fs.cache.dir {
      FindsOnly(a.path, Tried(fs.cache.dir[a.path], a.offset, a.shown));
    }
  }

  /** The task run to its end with nothing in between. */
  function Finish(fs: Fs, t: Task): Fs
    requires PeeksFirst(t.todo)
    decreases Left(t.todo), |t.todo|
  {
    if t.todo == [] then fs
    else
      ActPeeksFirst(fs, t);
      var (after, rest) := Act(fs, t);
      Finish(after, rest)
  }

  lemma {:induction false} FindsFinish(fs: Fs, t: Task, parent: string, names: seq<string>)
    requires t.todo == Finds(parent, names)
    ensures PeeksFirst(t.todo) && Finish(fs, t) == fs.(inodes := FoundAll(fs.inodes, parent, names))
    decreases |names|
  {
    FindsOnly(parent, names);
    if names == [] {
    } else {
      var front, last := names[..|names| - 1], BuildPath(parent, names[|names| - 1]);
      FindsFinish(fs, t.(todo := Finds(parent, front)), parent, front);
      FinishSnoc(fs, t, Finds(parent, front), Find(last));
    }
  }

  lemma {:induction false} FinishSnoc(fs: Fs, t: Task, front: seq<Action>, a: Action)
    requires t.todo == front + [a] && a.Find? && forall i :: 0 <= i < |t.todo| ==> t.todo[i].Find?
    ensures PeeksFirst(t.todo) && PeeksFirst(front)
    ensures var mid := Finish(fs, t.(todo := front));
      Finish(fs, t) == mid.(inodes := Found(mid.inodes, a.path))
    decreases |front|
  {
    assert forall i :: 0 <= i < |front| ==> front[i] == t.todo[i];
    if front == [] {
      assert t.todo == [a];
      OneAction(fs, t);
    } else {
      var (after, rest) := Act(fs, t);
      var (after', rest') := Act(fs, t.(todo := front));
      assert rest.todo == front[1..] + [a] && t.todo[0] == front[0];
      assert after' == after && rest' == rest.(todo := front[1..]);
      FinishSnoc(after, rest, front[1..], a);
    }
  }

  lemma OneAction(fs: Fs, t: Task)
    requires |t.todo| == 1 && !t.todo[0].PeekDir?
    ensures Finish(fs, t) == Act(fs, t).0
  {
    var (after, rest) := Act(fs, t);
    assert rest.todo == [];
  }

  lemma TwoActions(fs: Fs, t: Task)
    requires |t.todo| == 2 && forall i :: 0 <= i < 2 ==> !t.todo[i].PeekDir? && !t.todo[i].Peek?
    ensures var (mid, rest) := Act(fs, t); rest.todo != [] && Finish(fs, t) == Act(mid, rest).0
  {
    var (mid, rest) := Act(fs, t);
    assert rest.todo == [t.todo[1]];
    OneAction(mid, rest);
  }

  lemma ThreeActions(fs: Fs, t: Task)
    requires |t.todo| == 3 && forall i :: 0 <= i < 3 ==> !t.todo[i].PeekDir? && !t.todo[i].Peek?
    ensures var (mid, rest) := Act(fs, t);
      |rest.todo| == 2 && PeeksFirst(rest.todo) && Finish(fs, t) == Finish(mid, rest)
  {
    var (mid, rest) := Act(fs, t);
    assert rest.todo == [t.todo[1], t.todo[2]];
  }

  lemma PeekFinish(fs: Fs, t: Task)
    requires t.todo != [] && t.todo[0].Peek? && PeeksFirst(t.todo)
    ensures PeeksFirst(t.todo[1..])
    ensures Finish(fs, t) == if t.todo[0].path in fs.cache.attr && !t.todo[0].expired then fs
                             else Finish(fs, t.(todo := t.todo[1..]))
  {
    var (after, rest) := Act(fs, t);
    assert after == fs;
    if t.todo[0].path in fs.cache.attr && !t.todo[0].expired {
      assert rest.todo == [];
    } else {
      assert rest == t.(todo := t.todo[1..]);
    }
  }

  /** A task with nothing in between does exactly what the serial handler does. */
  lemma AloneIsSerial(fs: Fs, c: Call)
    ensures PeeksFirst(Plan(fs, c)) && Finish(fs, Fresh(fs, c)) == Handle(fs, c)
  {
    match c
    case ReadDir(_, _, _, _, _, _) => ReadDirAlone(fs, c);
    case Lookup(_, _, _, _) => LookupAlone(fs, c);
    case Getattr(_, _, _) => GetattrAlone(fs, c);
    case CreateFile(_, _, _) => CreateAlone(fs, c);
    case Setattr(_, _, _) => SetattrAlone(fs, c);
    case MakeDir(_, _, _, _) => MakeDirAlone(fs, c);
    case RemoveEntry(_, _, _) => RemovalAlone(fs, c);
    case RenameEntry(_, _, _, _, _) => RemovalAlone(fs, c);
    case WriteFile(_, _, _) => WriteAlone(fs, c);
    case _ => OthersAlone(fs, c);
  }

  lemma OthersAlone(fs: Fs, c: Call)
    requires c.OpenFile? || c.ReleaseFile? || c.ClearCache?
    ensures PeeksFirst(Plan(fs, c)) && Finish(fs, Fresh(fs, c)) == Handle(fs, c)
  {
    if Plan(fs, c) == [] {
    } else {
      OneAction(fs, Fresh(fs, c));
    }
  }

  lemma SetattrAlone(fs: Fs, c: Call)
    requires c.Setattr?
    ensures PeeksFirst(Plan(fs, c)) && Finish(fs, Fresh(fs, c)) == Handle(fs, c)
  {
    var t := Fresh(fs, c);
    if |t.todo| == 1 {
      OneAction(fs, t);
    } else if |t.todo| == 2 {
      TwoActions(fs, t);
    }
  }

  lemma MakeDirAlone(fs: Fs, c: Call)
    requires c.MakeDir?
    ensures PeeksFirst(Plan(fs, c)) && Finish(fs, Fresh(fs, c)) == Handle(fs, c)
  {
    var t := Fresh(fs, c);
    if |t.todo| == 1 {
      OneAction(fs, t);
    } else if |t.todo| == 2 {
      TwoActions(fs, t);
    }
  }

  lemma RemovalAlone(fs: Fs, c: Call)
    requires c.RemoveEntry? || c.RenameEntry?
    ensures PeeksFirst(Plan(fs, c)) && Finish(fs, Fresh(fs, c)) == Handle(fs, c)
  {
    var t := Fresh(fs, c);
    if |t.todo| == 1 {
      OneAction(fs, t);
    } else if |t.todo| == 2 {
      TwoActions(fs, t);
    }
  }

  lemma WriteAlone(fs: Fs, c: Call)
    requires c.WriteFile?
    ensures PeeksFirst(Plan(fs, c)) && Finish(fs, Fresh(fs, c)) == Handle(fs, c)
  {
    var t := Fresh(fs, c);
    if |t.todo| == 1 {
      OneAction(fs, t);
    } else if |t.todo| == 2 {
      TwoActions(fs, t);
    }
  }

  lemma LookupAlone(fs: Fs, c: Call)
    requires c.Lookup?
    ensures PeeksFirst(Plan(fs, c)) && Finish(fs, Fresh(fs, c)) == Handle(fs, c)
  {
    var t := Fresh(fs, c);
    if c.parent in fs.inodes.inoToPath {
      PeekFinish(fs, t);
      if c.stat.Some? {
        var path := BuildPath(fs.inodes.inoToPath[c.parent], c.name);
        var u := t.(todo := t.todo[1..]);
        assert u.todo == [Find(path), PutFound(path, c.stat.value)];
        TwoActions(fs, u);
      }
    }
  }

  lemma GetattrAlone(fs: Fs, c: Call)
    requires c.Getattr?
    ensures PeeksFirst(Plan(fs, c)) && Finish(fs, Fresh(fs, c)) == Handle(fs, c)
  {
    var t := Fresh(fs, c);
    if c.ino in fs.inodes.inoToPath {
      PeekFinish(fs, t);
      if c.stat.Some? {
        var u := t.(todo := t.todo[1..]);
        assert u.todo == [PutAttr(fs.inodes.inoToPath[c.ino], c.ino, c.stat.value)];
        OneAction(fs, u);
      }
    }
  }

  lemma CreateAlone(fs: Fs, c: Call)
    requires c.CreateFile?
    ensures PeeksFirst(Plan(fs, c)) && Finish(fs, Fresh(fs, c)) == Handle(fs, c)
  {
    var t := Fresh(fs, c);
    if t.todo != [] {
      ThreeActions(fs, t);
      var (mid, rest) := Act(fs, t);
      assert rest.todo == [t.todo[1], t.todo[2]];
      TwoActions(mid, rest);
    }
  }

  lemma ReadDirPeeksFirst(fs: Fs, c: Call)
    requires c.ReadDir?
    ensures PeeksFirst(Plan(fs, c))
  {
    if c.ino in fs.inodes.inoToPath && c.listing.Some? {
      FindsOnly(fs.inodes.inoToPath[c.ino], Tried(c.listing.value, c.offset, c.shown));
    }
  }

  lemma ReadDirAlone(fs: Fs, c: Call)
    requires c.ReadDir?
    ensures PeeksFirst(Plan(fs, c)) && Finish(fs, Fresh(fs, c)) == Handle(fs, c)
  {
    ReadDirPeeksFirst(fs, c);
    if c.ino in fs.inodes.inoToPath && c.fh in fs.handles.remote {
      var t, path := Fresh(fs, c), fs.inodes.inoToPath[c.ino];
      var rest := Act(fs, t).1;
      ActPeeksFirst(fs, t);
      assert Finish(fs, t) == Finish(fs, rest);
      if path in fs.cache.dir && !c.expired {
        FindsFinish(fs, rest, path, Tried(fs.cache.dir[path], c.offset, c.shown));
      } else if c.listing.Some? {
        ListingFinish(fs, rest, path, c.listing.value, Tried(c.listing.value, c.offset, c.shown));
      } else {
        assert rest.todo == [];
      }
    }
  }

  lemma ListingFinish(fs: Fs, t: Task, path: string, listing: seq<string>, names: seq<string>)
    requires t.todo == [PutDir(path, listing)] + Finds(path, names)
    ensures PeeksFirst(t.todo)
    ensures Finish(fs, t) == fs.(cache := fs.cache.(dir := fs.cache.dir[path := listing]), inodes := FoundAll(fs.inodes, path, names))
  {
    FindsOnly(path, names);
    var (mid, last) := Act(fs, t);
    assert last.todo == Finds(path, names);
    FindsFinish(mid, last, path, names);
  }

  // ----- tasks that interleave -----

  datatype World = World(fs: Fs, tasks: map<nat, Task>)

  datatype Step = Begin(k: nat, c: Call) | Go(task: nat)

  const QUIET_START := World(START, map[])

  predicate Enabled(w: World, step: Step) {
    match step
    case Begin(k, c) => Proper(c) && k !in w.tasks
    case Go(k) => k in w.tasks && w.tasks[k].todo != []
  }

  function Apply(w: World, step: Step): World
    requires Enabled(w, step)
  {
    match step
    case Begin(k, c) => w.(tasks := w.tasks[k := Fresh(w.fs, c)])
    case Go(k) => var (fs, t) := Act(w.fs, w.tasks[k]); World(fs, w.tasks[k := t])
  }

  ghost predicate Interleaved(w: World, v: World) { exists step :: Enabled(w, step) && v == Apply(w, step) }

  predicate Quiet(w: World) { forall k :: k in w.tasks ==> w.tasks[k].todo == [] }

  /** What all interleavings keep: the two inode maps are inverse to each other, inode 1 is
      "/", live numbers lie below their counters, and so does every inode number that is
      cached or about to be. */
  ghost predicate Sound(fs: Fs) {
    && Bijective(fs.inodes) && Rooted(fs.inodes)
    && (forall p :: p in fs.inodes.pathToIno ==> p != [])
    && (forall h :: h in fs.handles.remote ==> h < fs.handles.next)
    && (forall p :: p in fs.cache.attr ==> fs.cache.attr[p].ino < fs.inodes.next)
  }

  predicate ActionOk(fs: Fs, a: Action) {
    && (a.Find? || a.Forget? || a.Move? ==> a.path != [])
    && (a.Forget? || a.Move? ==> a.path != "/")
    && (a.Move? ==> a.to != [] && a.to != "/")
    && (a.PutAttr? ==> a.ino < fs.inodes.next)
  }

  ghost predicate TaskOk(fs: Fs, t: Task) {
    t.found < fs.inodes.next && forall i :: 0 <= i < |t.todo| ==> ActionOk(fs, t.todo[i])
  }

  ghost predicate AllSound(w: World) { Sound(w.fs) && forall k :: k in w.tasks ==> TaskOk(w.fs, w.tasks[k]) }

  lemma ActKeepsSound(fs: Fs, t: Task)
    requires Sound(fs) && TaskOk(fs, t) && t.todo != []
    ensures var (after, rest) := Act(fs, t);
      Sound(after) && TaskOk(after, rest) && NoRevival(fs, after)
  {
    var a := t.todo[0];
    assert ActionOk(fs, a);
    if a.Find? || a.Forget? || a.Move? {
      InodesStaySound(fs, t);
    } else {
      OthersStaySound(fs, t);
    }
    RestIsOk(fs, t);
  }

  lemma InodesStaySound(fs: Fs, t: Task)
    requires Sound(fs) && t.todo != [] && ActionOk(fs, t.todo[0]) && (t.todo[0].Find? || t.todo[0].Forget? || t.todo[0].Move?)
    ensures Sound(Act(fs, t).0) && NoRevival(fs, Act(fs, t).0) && Act(fs, t).1.todo == t.todo[1..]
    ensures t.found < fs.inodes.next ==> Act(fs, t).1.found < Act(fs, t).0.inodes.next
  {
    match t.todo[0]
    case Find(path) => FoundKeeps(fs.inodes, path);
    case Forget(path) => ForgottenKeeps(fs.inodes, path);
    case Move(path, to) => MovedKeeps(fs.inodes, path, to);
  }

  lemma OthersStaySound(fs: Fs, t: Task)
    requires Sound(fs) && t.todo != [] && ActionOk(fs, t.todo[0]) && t.found < fs.inodes.next
    requires !t.todo[0].Find? && !t.todo[0].Forget? && !t.todo[0].Move?
    ensures Sound(Act(fs, t).0) && NoRevival(fs, Act(fs, t).0) && Act(fs, t).0.inodes == fs.inodes
    ensures Act(fs, t).1.found == t.found
  {
  }

  lemma RestIsOk(fs: Fs, t: Task)
    requires TaskOk(fs, t) && t.todo != [] && fs.inodes.next <= Act(fs, t).0.inodes.next
    requires Act(fs, t).1.found < Act(fs, t).0.inodes.next
    ensures TaskOk(Act(fs, t).0, Act(fs, t).1)
  {
    var (after, rest) := Act(fs, t);
    ActMovesOn(fs, t);
    var a := t.todo[0];
    if a.PeekDir? && a.path in fs.cache.dir {
      FindsAreOk(after, a.path, Tried(fs.cache.dir[a.path], a.offset, a.shown));
    }
    assert forall i :: 0 <= i < |t.todo| ==> ActionOk(fs, t.todo[i]);
  }

  lemma PlanIsOk(fs: Fs, c: Call)
    requires Sound(fs) && Proper(c)
    ensures TaskOk(fs, Fresh(fs, c))
  {
    if c.ReadDir? {
      ListingIsOk(fs, c);
    } else if c.RemoveEntry? || c.RenameEntry? {
      DroppingIsOk(fs, c);
    } else {
      OtherPlansAreOk(fs, c);
    }
  }

  lemma DroppingIsOk(fs: Fs, c: Call)
    requires Proper(c) && (c.RemoveEntry? || c.RenameEntry?) && Sound(fs)
    ensures TaskOk(fs, Fresh(fs, c))
  {
    if c.parent in fs.inodes.inoToPath {
      ParentInvertsBuild(fs.inodes.inoToPath[c.parent], c.name);
    }
    if c.RenameEntry? && c.newParent in fs.inodes.inoToPath {
      ParentInvertsBuild(fs.inodes.inoToPath[c.newParent], c.newName);
    }
  }

  lemma OtherPlansAreOk(fs: Fs, c: Call)
    requires Sound(fs) && !c.ReadDir? && !c.RemoveEntry? && !c.RenameEntry?
    ensures TaskOk(fs, Fresh(fs, c))
  {
  }

  lemma ListingIsOk(fs: Fs, c: Call)
    requires Sound(fs) && c.ReadDir?
    ensures TaskOk(fs, Fresh(fs, c))
  {
    if c.ino in fs.inodes.inoToPath {
      var path := fs.inodes.inoToPath[c.ino];
      if c.listing.Some? {
        FindsAreOk(fs, path, Tried(c.listing.value, c.offset, c.shown));
      }
    }
  }

  lemma {:induction false} FindsAreOk(fs: Fs, parent: string, names: seq<string>)
    ensures forall i :: 0 <= i < |Finds(parent, names)| ==> ActionOk(fs, Finds(parent, names)[i])
  {
    if names == [] {
    } else {
      FindsAreOk(fs, parent, names[..|names| - 1]);
    }
  }

  lemma StepKeepsSound(w: World, step: Step)
    requires AllSound(w) && Enabled(w, step)
    ensures AllSound(Apply(w, step)) && NoRevival(w.fs, Apply(w, step).fs)
  {
    match step
    case Begin(k, c) => PlanIsOk(w.fs, c);
    case Go(k) =>
      ActKeepsSound(w.fs, w.tasks[k]);
      var v := Apply(w, step);
      forall j | j in v.tasks ensures TaskOk(v.fs, v.tasks[j]) {
        if j != k {
          TaskStaysOk(w.fs, v.fs, w.tasks[j]);
        }
      }
  }

  lemma TaskStaysOk(fs: Fs, after: Fs, t: Task)
    requires TaskOk(fs, t) && fs.inodes.next <= after.inodes.next
    ensures TaskOk(after, t)
  {
    assert forall i :: 0 <= i < |t.todo| ==> ActionOk(fs, t.todo[i]);
  }

  lemma SoundIsKept()
    ensures AllSound(QUIET_START) && Preserved(Interleaved, AllSound)
  {
    forall w, v | AllSound(w) && Interleaved(w, v) ensures AllSound(v) {
      var step :| Enabled(w, step) && v == Apply(w, step);
      StepKeepsSound(w, step);
    }
  }

  /** In every interleaving of the handlers the inode maps are inverse to each other, inode 1
      is "/", and no number that is live or cached is still to be issued. */
  lemma InterleavingsAreSound(w: World)
    requires Reachable(QUIET_START, Interleaved, w)
    ensures Sound(w.fs)
  {
    SoundIsKept();
    ReachableKeeps(QUIET_START, Interleaved, AllSound, w);
  }

  ghost predicate NeverReused(w: World, v: World) { NoRevival(w.fs, v.fs) }

  /** In every interleaving a dropped inode number or a released file handle is never issued
      again. */
  lemma NumbersAreNotReused(states: seq<World>, i: nat, j: nat)
    requires Run(QUIET_START, Interleaved, states) && i <= j < |states|
    ensures NoRevival(states[i].fs, states[j].fs)
  {
    SoundIsKept();
    forall w, v, u | NeverReused(w, v) && AllSound(v) && Interleaved(v, u) ensures NeverReused(w, u) {
      var step :| Enabled(v, step) && u == Apply(v, step);
      StepKeepsSound(v, step);
    }
    RelationHolds(QUIET_START, Interleaved, AllSound, NeverReused, states, i, j);
  }

  // ----- what a write leaves -----

  /** A successful write takes two actions, whatever other tasks do before, between and after
      them: it reads the path its inode has by then, and when the second action has run,
      nothing is cached for that path. Other paths stay as they were. */
  lemma WriteUncaches(begun: Fs, c: Call, reading: Fs, ending: Fs) returns (t: Task, u: Task, after: Fs)
    requires c.WriteFile? && c.ok && c.fh in begun.handles.remote && c.ino in reading.inodes.inoToPath
    ensures t == Fresh(begun, c) && |t.todo| == 2
    ensures Act(reading, t) == (reading, u) && |u.todo| == 1
    ensures Act(ending, u).0 == after && Act(ending, u).1.todo == []
    ensures after.inodes == ending.inodes && after.handles == ending.handles
    ensures var path := reading.inodes.inoToPath[c.ino];
      path !in after.cache.attr && path !in after.cache.dir && OthersKept(ending, after, {path})
  {
    t := Fresh(begun, c);
    assert t.todo == [ReadPath(c.ino), InvalidateRead];
    assert t.todo[1..] == [InvalidateRead];
    u := Act(reading, t).1;
    after := Act(ending, u).0;
  }

  // ----- when the cache agrees with the inode map -----

  /** Exactly when an action keeps every cached attribute in agreement with the inode map: a
      stored inode must still be its path's, and a path that is dropped or moved must not be
      cached. */
  lemma AgreementKeptIff(fs: Fs, t: Task)
    requires Sound(fs) && CacheAgrees(fs) && t.todo != []
    ensures CacheAgrees(Act(fs, t).0) <==>
      match t.todo[0]
      case PutAttr(path, ino, _) => HasInode(fs, path, ino)
      case PutFound(path, _) => HasInode(fs, path, t.found)
      case Forget(path) => path !in fs.cache.attr
      case Move(path, to) => path !in fs.cache.attr && to !in fs.cache.attr
      case _ => true
  {
    var (after, rest) := Act(fs, t);
    match t.todo[0]
    case PutAttr(path, _, _) => assert path in after.cache.attr;
    case PutFound(path, _) => assert path in after.cache.attr;
    case Forget(path) => ForgottenKeeps(fs.inodes, path);
    case Move(path, to) => MovedKeeps(fs.inodes, path, to);
    case _ =>
  }

  predicate HasInode(fs: Fs, path: string, ino: nat) { path in fs.inodes.pathToIno && fs.inodes.pathToIno[path] == ino }

  /** The action stores an attribute under `p`. */
  predicate Stores(a: Action, p: string) { (a.PutAttr? || a.PutFound?) && a.path == p }

  /** The action takes the inode of `p` away. */
  predicate Drops(a: Action, p: string) { ((a.Forget? || a.Move?) && a.path == p) || (a.Move? && a.to == p) }

  ghost predicate WillStore(t: Task, p: string) { exists i :: 0 <= i < |t.todo| && Stores(t.todo[i], p) }

  ghost predicate WillDrop(t: Task, p: string) { exists i :: 0 <= i < |t.todo| && Drops(t.todo[i], p) }

  /** No path that `t` is still to store is one that `u` is still to drop. */
  ghost predicate Apart(t: Task, u: Task) { forall p :: WillStore(t, p) ==> !WillDrop(u, p) }

  /** What a task needs of the shared state, and how its actions follow one another. */
  ghost predicate Ready(fs: Fs, t: Task) {
    && (forall i :: 0 <= i < |t.todo| ==> Placed(fs, t, i))
    && (t.todo != [] && t.todo[0].PutFound? ==> HasInode(fs, t.todo[0].path, t.found))
    && (t.todo != [] ==> forall p :: Drops(t.todo[0], p) ==> p !in fs.cache.attr)
  }

  predicate Placed(fs: Fs, t: Task, i: nat)
    requires i < |t.todo|
  {
    match t.todo[i]
    case PutAttr(path, ino, _) => HasInode(fs, path, ino)
    case PutFound(path, _) => i > 0 ==> t.todo[i - 1] == Find(path)
    case Forget(path) => i > 0 ==> t.todo[i - 1] == InvalidateParent(path)
    case Move(path, to) => i > 0 ==> t.todo[i - 1] == InvalidateBoth(path, to)
    case _ => true
  }

  /** The state after an action of `t`, seen by the cache: what is stored and dropped. */
  lemma ActReadies(fs: Fs, t: Task)
    requires Sound(fs) && CacheAgrees(fs) && Ready(fs, t) && t.todo != []
    ensures CacheAgrees(Act(fs, t).0)
  {
    assert Placed(fs, t, 0);
    AgreementKeptIff(fs, t);
    if t.todo[0].Forget? || t.todo[0].Move? {
      assert Drops(t.todo[0], t.todo[0].path);
      assert t.todo[0].Move? ==> Drops(t.todo[0], t.todo[0].to);
    }
  }

  /** An action keeps the inode of a path it does not drop, and stores nothing under others. */
  lemma ActTouches(fs: Fs, t: Task, p: string)
    requires Sound(fs) && t.todo != []
    ensures var after := Act(fs, t).0;
      && (!Drops(t.todo[0], p) ==> forall ino :: HasInode(fs, p, ino) ==> HasInode(after, p, ino))
      && (!Stores(t.todo[0], p) && p !in fs.cache.attr ==> p !in after.cache.attr)
  {
  }

  lemma ActMovesOn(fs: Fs, t: Task)
    requires t.todo != []
    ensures var rest := Act(fs, t).1;
      && (rest.todo == t.todo[1..] || forall i :: 0 <= i < |rest.todo| ==> rest.todo[i].Find?)
      && (!t.todo[0].Find? ==> rest.found == t.found)
  {
    var a := t.todo[0];
    if a.PeekDir? && a.path in fs.cache.dir {
      FindsOnly(a.path, Tried(fs.cache.dir[a.path], a.offset, a.shown));
    }
  }

  /** What is still to be stored or dropped only shrinks. */
  lemma ActKeepsApart(fs: Fs, t: Task, p: string)
    requires t.todo != []
    ensures WillStore(Act(fs, t).1, p) ==> WillStore(t, p)
    ensures WillDrop(Act(fs, t).1, p) ==> WillDrop(t, p)
  {
    ActMovesOn(fs, t);
    var rest := Act(fs, t).1;
    if rest.todo == t.todo[1..] {
      assert forall i :: 0 <= i < |rest.todo| ==> rest.todo[i] == t.todo[i + 1];
    }
  }

  /** The task itself is ready to go on. */
  lemma SelfStaysReady(fs: Fs, t: Task)
    requires Sound(fs) && Ready(fs, t) && t.todo != [] && Apart(t, t)
    ensures Ready(Act(fs, t).0, Act(fs, t).1)
  {
    var (after, rest) := Act(fs, t);
    ActMovesOn(fs, t);
    if rest.todo == t.todo[1..] {
      forall i | 0 <= i < |rest.todo| ensures Placed(after, rest, i) {
        assert rest.todo[i] == t.todo[i + 1];
        assert Placed(fs, t, i + 1);
        if rest.todo[i].PutAttr? {
          var p := rest.todo[i].path;
          assert Stores(t.todo[i + 1], p) && WillStore(t, p);
          ActTouches(fs, t, p);
          assert !Drops(t.todo[0], p);
        }
      }
      if rest.todo != [] {
        assert Placed(fs, t, 1) && rest.todo[0] == t.todo[1];
        NextIsReady(fs, t);
      }
    }
  }

  /** The action after a `Find` or an invalidation finds what it needs. */
  lemma NextIsReady(fs: Fs, t: Task)
    requires Sound(fs) && |t.todo| > 1 && Placed(fs, t, 1)
    ensures var (after, rest) := Act(fs, t);
      && (t.todo[1].PutFound? ==> HasInode(after, t.todo[1].path, rest.found))
      && (forall p :: Drops(t.todo[1], p) ==> p !in after.cache.attr)
  {
    if t.todo[1].PutFound? {
      FoundKeeps(fs.inodes, t.todo[1].path);
    }
  }

  /** Another task stays ready when it is apart. */
  lemma OtherStaysReady(fs: Fs, t: Task, u: Task)
    requires Sound(fs) && Ready(fs, u) && t.todo != [] && Apart(t, u) && Apart(u, t)
    ensures Ready(Act(fs, t).0, u)
  {
    var after := Act(fs, t).0;
    forall i | 0 <= i < |u.todo| ensures Placed(after, u, i) {
      assert Placed(fs, u, i);
      if u.todo[i].PutAttr? {
        StoredIsKept(fs, t, u, i);
      }
    }
    if u.todo != [] {
      if u.todo[0].PutFound? {
        StoredIsKept(fs, t, u, 0);
      }
      forall p | Drops(u.todo[0], p) ensures p !in after.cache.attr {
        assert WillDrop(u, p);
        assert Stores(t.todo[0], p) ==> WillStore(t, p);
        ActTouches(fs, t, p);
      }
    }
  }

  lemma StoredIsKept(fs: Fs, t: Task, u: Task, i: nat)
    requires Sound(fs) && t.todo != [] && Apart(u, t) && i < |u.todo| && (u.todo[i].PutAttr? || u.todo[i].PutFound?)
    ensures forall ino :: HasInode(fs, u.todo[i].path, ino) ==> HasInode(Act(fs, t).0, u.todo[i].path, ino)
  {
    var p := u.todo[i].path;
    assert Stores(u.todo[i], p) && WillStore(u, p);
    assert Drops(t.todo[0], p) ==> WillDrop(t, p);
    ActTouches(fs, t, p);
  }

  // ----- runs in which conflicting calls do not overlap -----

  /** The new task neither stores a path that an unfinished one is to drop, nor drops one that
      an unfinished one is to store. */
  ghost predicate NoConflict(w: World, t: Task) {
    forall k :: k in w.tasks ==> Apart(w.tasks[k], t) && Apart(t, w.tasks[k])
  }

  ghost predicate CarefulNext(w: World, v: World) {
    exists step :: Enabled(w, step) && (step.Begin? ==> NoConflict(w, Fresh(w.fs, step.c))) && v == Apply(w, step)
  }

  ghost predicate Careful(w: World) {
    && AllSound(w) && CacheAgrees(w.fs)
    && (forall k :: k in w.tasks ==> Ready(w.fs, w.tasks[k]))
    && (forall k, j :: k in w.tasks && j in w.tasks ==> Apart(w.tasks[k], w.tasks[j]))
  }

  /** The action neither stores nor drops. */
  predicate Harmless(a: Action) { !a.PutAttr? && !a.PutFound? && !a.Forget? && !a.Move? }

  lemma HarmlessIsReady(fs: Fs, t: Task)
    requires forall i :: 0 <= i < |t.todo| ==> Harmless(t.todo[i])
    ensures Ready(fs, t) && Apart(t, t)
  {
  }

  lemma PlanIsReady(fs: Fs, c: Call)
    requires Sound(fs)
    ensures Ready(fs, Fresh(fs, c)) && Apart(Fresh(fs, c), Fresh(fs, c))
  {
    if c.Lookup? || c.Getattr? || c.Setattr? {
      StoringIsReady(fs, c);
    } else if c.RemoveEntry? || c.RenameEntry? {
      DroppingIsReady(fs, c);
    } else {
      if c.ReadDir? && c.ino in fs.inodes.inoToPath && c.listing.Some? {
        FindsOnly(fs.inodes.inoToPath[c.ino], Tried(c.listing.value, c.offset, c.shown));
      }
      HarmlessIsReady(fs, Fresh(fs, c));
    }
  }

  lemma StoringIsReady(fs: Fs, c: Call)
    requires Sound(fs) && (c.Lookup? || c.Getattr? || c.Setattr?)
    ensures Ready(fs, Fresh(fs, c)) && Apart(Fresh(fs, c), Fresh(fs, c))
  {
  }

  lemma DroppingIsReady(fs: Fs, c: Call)
    requires c.RemoveEntry? || c.RenameEntry?
    ensures Ready(fs, Fresh(fs, c)) && Apart(Fresh(fs, c), Fresh(fs, c))
  {
  }

  lemma BeginKeepsCareful(w: World, k: nat, c: Call)
    requires Careful(w) && Enabled(w, Begin(k, c)) && NoConflict(w, Fresh(w.fs, c))
    ensures Careful(Apply(w, Begin(k, c)))
  {
    PlanIsOk(w.fs, c);
    PlanIsReady(w.fs, c);
  }

  lemma GoKeepsCareful(w: World, k: nat)
    requires Careful(w) && Enabled(w, Go(k))
    ensures Careful(Apply(w, Go(k)))
  {
    var v, t := Apply(w, Go(k)), w.tasks[k];
    StepKeepsSound(w, Go(k));
    ActReadies(w.fs, t);
    SelfStaysReady(w.fs, t);
    forall j | j in v.tasks ensures Ready(v.fs, v.tasks[j]) {
      if j != k {
        OtherStaysReady(w.fs, t, w.tasks[j]);
      }
    }
    forall j, i | j in v.tasks && i in v.tasks ensures Apart(v.tasks[j], v.tasks[i]) {
      assert Apart(w.tasks[j], w.tasks[i]);
      forall p | WillStore(v.tasks[j], p) ensures !WillDrop(v.tasks[i], p) {
        ActKeepsApart(w.fs, t, p);
      }
    }
  }

  /** If no call begins that would store an attribute of a path an unfinished call is to drop
      or move, or the other way round, then in every interleaving every cached attribute
      carries the inode its path has now. */
  lemma CarefulRunsAgree(w: World)
    requires Reachable(QUIET_START, CarefulNext, w)
    ensures CacheAgrees(w.fs)
  {
    forall a, b | Careful(a) && CarefulNext(a, b) ensures Careful(b) {
      var step :| Enabled(a, step) && (step.Begin? ==> NoConflict(a, Fresh(a.fs, step.c))) && b == Apply(a, step);
      match step
      case Begin(k, c) => BeginKeepsCareful(a, k, c);
      case Go(k) => GoKeepsCareful(a, k);
    }
    ReachableKeeps(QUIET_START, CarefulNext, Careful, w);
  }

  // ----- and when it does not -----

  lemma Take(w: World, step: Step) returns (v: World)
    requires Reachable(QUIET_START, Interleaved, w) && Enabled(w, step)
    ensures v == Apply(w, step) && Reachable(QUIET_START, Interleaved, v)
  {
    v := Apply(w, step);
    assert Interleaved(w, v);
    StepIsReachable(QUIET_START, Interleaved, w, v);
  }

  /** A task that is to store an attribute of `p`: it looks into the cache or invalidates, finds
      the inode unless it has it, and stores. */
  ghost predicate StoringTask(fs: Fs, t: Task, p: string) {
    || (|t.todo| == 3 && Begins(t.todo[0], p) && t.todo[1] == Find(p) && t.todo[2].PutFound? && t.todo[2].path == p)
    || (|t.todo| == 2 && Begins(t.todo[0], p) && PutsInode(fs, t.todo[1], p))
    || (|t.todo| == 1 && PutsInode(fs, t.todo[0], p))
  }

  predicate Begins(a: Action, p: string) { (a.Peek? || a.Invalidate?) && a.path == p }

  predicate PutsInode(fs: Fs, a: Action, p: string) { a.PutAttr? && a.path == p && HasInode(fs, p, a.ino) }

  /** A task that is to drop `p`: it takes the path out of the cache just before. */
  ghost predicate DroppingTask(t: Task, p: string) {
    |t.todo| == 2 && Drops(t.todo[1], p) && ((t.todo[0].InvalidateParent? && t.todo[0].path == p)
      || (t.todo[0].InvalidateBoth? && (t.todo[0].path == p || t.todo[0].to == p)))
  }

  lemma WhoStores(fs: Fs, c: Call, p: string)
    requires Sound(fs) && WillStore(Fresh(fs, c), p)
    ensures StoringTask(fs, Fresh(fs, c), p)
  {
    if c.ReadDir? && c.ino in fs.inodes.inoToPath && c.listing.Some? {
      FindsOnly(fs.inodes.inoToPath[c.ino], Tried(c.listing.value, c.offset, c.shown));
    }
  }

  lemma WhoDrops(fs: Fs, c: Call, p: string)
    requires WillDrop(Fresh(fs, c), p)
    ensures DroppingTask(Fresh(fs, c), p)
  {
    if c.ReadDir? && c.ino in fs.inodes.inoToPath && c.listing.Some? {
      FindsOnly(fs.inodes.inoToPath[c.ino], Tried(c.listing.value, c.offset, c.shown));
    }
  }

  /** Only the store is left, and it would store the inode that the path has. */
  ghost predicate AboutToStore(fs: Fs, t: Task, p: string) {
    |t.todo| == 1 && Stores(t.todo[0], p) && HasInode(fs, p, if t.todo[0].PutAttr? then t.todo[0].ino else t.found)
  }

  lemma RunUpToStore(w: World, a: nat, p: string) returns (v: World)
    requires Reachable(QUIET_START, Interleaved, w) && Sound(w.fs) && p !in w.fs.cache.attr
    requires a in w.tasks && StoringTask(w.fs, w.tasks[a], p)
    ensures Reachable(QUIET_START, Interleaved, v) && a in v.tasks && v.tasks == w.tasks[a := v.tasks[a]]
    ensures AboutToStore(v.fs, v.tasks[a], p)
  {
    if |w.tasks[a].todo| == 3 {
      v := FirstGoes(w, a, p);
      assert v.tasks[a].todo == [Find(p), PutFound(p, w.tasks[a].todo[2].meta)];
      v := FindThenStore(v, a, p, w.tasks[a].todo[2].meta);
    } else if |w.tasks[a].todo| == 2 {
      v := FirstGoes(w, a, p);
    } else {
      v := w;
    }
  }

  /** A look into the cache that finds nothing, or an invalidation. */
  lemma FirstGoes(w: World, a: nat, p: string) returns (v: World)
    requires Reachable(QUIET_START, Interleaved, w) && Sound(w.fs) && p !in w.fs.cache.attr && a in w.tasks
    requires w.tasks[a].todo != [] && Begins(w.tasks[a].todo[0], p)
    ensures Reachable(QUIET_START, Interleaved, v) && Sound(v.fs) && v.fs.inodes == w.fs.inodes
    ensures a in v.tasks && v.tasks == w.tasks[a := v.tasks[a]] && v.tasks[a].todo == w.tasks[a].todo[1..]
  {
    v := Take(w, Go(a));
    InterleavingsAreSound(v);
  }

  lemma FindThenStore(w: World, a: nat, p: string, meta: seq<int>) returns (v: World)
    requires Reachable(QUIET_START, Interleaved, w) && Sound(w.fs)
    requires a in w.tasks && w.tasks[a].todo == [Find(p), PutFound(p, meta)]
    ensures Reachable(QUIET_START, Interleaved, v) && a in v.tasks && v.tasks == w.tasks[a := v.tasks[a]]
    ensures AboutToStore(v.fs, v.tasks[a], p)
  {
    v := Take(w, Go(a));
    FoundKeeps(w.fs.inodes, p);
  }

  /** The inode a path had is not the one it has after it was dropped. */
  lemma DroppedIsGone(fs: Fs, t: Task, p: string, ino: nat)
    requires Sound(fs) && t.todo != [] && Drops(t.todo[0], p) && HasInode(fs, p, ino)
    ensures !HasInode(Act(fs, t).0, p, ino) && Act(fs, t).1.todo == t.todo[1..]
  {
  }

  lemma StoreAfterDrop(w: World, a: nat, b: nat, p: string) returns (v: World)
    requires Reachable(QUIET_START, Interleaved, w) && Sound(w.fs) && a in w.tasks && b in w.tasks && a != b
    requires AboutToStore(w.fs, w.tasks[a], p) && |w.tasks[b].todo| == 1 && Drops(w.tasks[b].todo[0], p)
    requires forall k :: k in w.tasks && k != a && k != b ==> w.tasks[k].todo == []
    ensures Reachable(QUIET_START, Interleaved, v) && Quiet(v) && !CacheAgrees(v.fs)
  {
    var t := w.tasks[a];
    var ino := if t.todo[0].PutAttr? then t.todo[0].ino else t.found;
    DroppedIsGone(w.fs, w.tasks[b], p, ino);
    var u := Take(w, Go(b));
    v := Take(u, Go(a));
    assert p in v.fs.cache.attr && v.fs.cache.attr[p].ino == ino && v.fs.inodes == u.fs.inodes;
  }

  /** The condition is needed: from every quiet state, any two calls of which one stores an
      attribute of a path that the other drops or moves have an interleaving that ends, with
      no task left, in a cached inode that is not its path's. */
  lemma ConflictBreaksAgreement(w: World, c: Call, d: Call, p: string, a: nat, b: nat) returns (v: World)
    requires Reachable(QUIET_START, Interleaved, w) && Quiet(w) && Proper(c) && Proper(d)
    requires a !in w.tasks && b !in w.tasks && a != b
    requires WillStore(Fresh(w.fs, c), p) && WillDrop(Fresh(w.fs, d), p)
    ensures Reachable(QUIET_START, Interleaved, v) && Quiet(v) && !CacheAgrees(v.fs)
  {
    v := BothBegin(w, c, d, p, a, b);
    v := DropIsNext(v, b, p);
    v := RunUpToStore(v, a, p);
    InterleavingsAreSound(v);
    v := StoreAfterDrop(v, a, b, p);
  }

  lemma BothBegin(w: World, c: Call, d: Call, p: string, a: nat, b: nat) returns (v: World)
    requires Reachable(QUIET_START, Interleaved, w) && Quiet(w) && Proper(c) && Proper(d)
    requires a !in w.tasks && b !in w.tasks && a != b
    requires WillStore(Fresh(w.fs, c), p) && WillDrop(Fresh(w.fs, d), p)
    ensures Reachable(QUIET_START, Interleaved, v) && v.fs == w.fs && a in v.tasks && b in v.tasks
    ensures StoringTask(v.fs, v.tasks[a], p) && DroppingTask(v.tasks[b], p)
    ensures forall k :: k in v.tasks && k != a && k != b ==> v.tasks[k].todo == []
  {
    InterleavingsAreSound(w);
    WhoStores(w.fs, c, p);
    WhoDrops(w.fs, d, p);
    v := Take(w, Begin(a, c));
    v := Take(v, Begin(b, d));
  }

  lemma DropIsNext(w: World, b: nat, p: string) returns (v: World)
    requires Reachable(QUIET_START, Interleaved, w) && b in w.tasks && DroppingTask(w.tasks[b], p)
    ensures Reachable(QUIET_START, Interleaved, v) && Sound(v.fs) && p !in v.fs.cache.attr && v.fs.inodes == w.fs.inodes
    ensures b in v.tasks && v.tasks == w.tasks[b := v.tasks[b]]
    ensures |v.tasks[b].todo| == 1 && Drops(v.tasks[b].todo[0], p)
  {
    v := Take(w, Go(b));
    InterleavingsAreSound(v);
  }

  /** From every quiet state and for every file that has an inode: a getattr that overlaps an
      unlink can leave the dead number cached, with no task left that would remove it. */
  lemma GetattrCanOutliveUnlink(w: World, ino: nat, parent: nat, name: string, expired: bool, meta: seq<int>, a: nat, b: nat)
      returns (v: World)
    requires Reachable(QUIET_START, Interleaved, w) && Quiet(w) && a !in w.tasks && b !in w.tasks && a != b
    requires NameOk(name) && parent in w.fs.inodes.inoToPath && ino in w.fs.inodes.inoToPath
    requires w.fs.inodes.inoToPath[ino] == BuildPath(w.fs.inodes.inoToPath[parent], name)
    ensures Reachable(QUIET_START, Interleaved, v) && Quiet(v) && !CacheAgrees(v.fs)
  {
    var path, c, d := w.fs.inodes.inoToPath[ino], Getattr(ino, expired, Some(meta)), RemoveEntry(parent, name, true);
    assert Stores(Plan(w.fs, c)[1], path) && Drops(Plan(w.fs, d)[1], path);
    v := ConflictBreaksAgreement(w, c, d, path, a, b);
  }

  /** Such states exist. */
  lemma StaleAttributeIsReachable(meta: seq<int>) returns (v: World)
    ensures Reachable(QUIET_START, Interleaved, v) && Quiet(v) && !CacheAgrees(v.fs)
  {
    var w := FileIsCreated("a");
    v := GetattrCanOutliveUnlink(w, 2, ROOT_INO, "a", true, meta, 1, 2);
  }

  lemma FileIsCreated(name: string) returns (w: World)
    requires NameOk(name)
    ensures Reachable(QUIET_START, Interleaved, w) && Quiet(w) && w.tasks.Keys == {0}
    ensures w.fs.inodes.inoToPath == map[ROOT_INO := "/", 2 := BuildPath("/", name)]
  {
    var path := BuildPath("/", name);
    StartIsReachable(QUIET_START, Interleaved);
    ParentInvertsBuild("/", name);
    w := Take(QUIET_START, Begin(0, CreateFile(ROOT_INO, name, Some(7))));
    assert w.tasks[0].todo == [Find(path), InvalidateParent(path), Allocate(7)];
    w := Take(w, Go(0));
    assert w.fs.inodes.inoToPath == map[ROOT_INO := "/", 2 := path];
    w := CreationFinishes(w, path);
  }

  lemma CreationFinishes(w: World, path: string) returns (v: World)
    requires Reachable(QUIET_START, Interleaved, w) && w.tasks.Keys == {0}
    requires w.tasks[0].todo == [InvalidateParent(path), Allocate(7)]
    ensures Reachable(QUIET_START, Interleaved, v) && Quiet(v) && v.tasks.Keys == {0} && v.fs.inodes == w.fs.inodes
  {
    v := Take(w, Go(0));
    assert v.tasks[0].todo == [Allocate(7)];
    v := Take(v, Go(0));
  }
}
