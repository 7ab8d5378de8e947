/** Inode numbers, file handles and the metadata cache of the guest filesystem:
    vm-agent/src/fuse/filesystem.rs and vm-agent/src/fuse/cache.rs. */
module FuseFilesystem {
  import opened Bytes
  import opened Runs

  const ROOT_INO := 1

  // ----- paths -----

  function BuildPath(parent: string, name: string): string {
    if parent == "/" then "/" + name else parent + "/" + name
  }

  function TrimSlashes(s: string): string {
    if s != [] && s[|s| - 1] == '/' then TrimSlashes(s[..|s| - 1]) else s
  }

  /** The position of the last slash, or -1. */
  function LastSlash(s: string): int {
    if s == [] then -1 else if s[|s| - 1] == '/' then |s| - 1 else LastSlash(s[..|s| - 1])
  }

  function ParentPath(path: string): Option<string> {
    if path == "/" || path == [] then None
    else
      var t := TrimSlashes(path);
      LastSlashInRange(t);
      var pos := LastSlash(t);
      if pos < 0 then None else if pos == 0 then Some("/") else Some(t[..pos])
  }

  lemma {:induction false} LastSlashInRange(s: string)
    ensures -1 <= LastSlash(s) < |s|
  {
    if s == [] || s[|s| - 1] == '/' {
    } else {
      LastSlashInRange(s[..|s| - 1]);
    }
  }

  /** What the kernel passes as a name. */
  predicate NameOk(name: string) { name != [] && '/' !in name }

  lemma {:induction false} LastSlashBefore(prefix: string, name: string)
    requires '/' !in name
    ensures LastSlash(prefix + "/" + name) == |prefix|
  {
    var s := prefix + "/" + name;
    if name == [] {
    } else {
      var front := name[..|name| - 1];
      assert s[..|s| - 1] == prefix + "/" + front;
      assert s[|s| - 1] == name[|name| - 1] && name[|name| - 1] in name;
      LastSlashBefore(prefix, front);
    }
  }

  /** For any kernel name, taking the parent undoes building the path exactly when the
      parent path is not empty. */
  lemma ParentInvertsBuild(parent: string, name: string)
    requires NameOk(name)
    ensures BuildPath(parent, name) != "/"
    ensures ParentPath(BuildPath(parent, name)) == Some(parent) <==> parent != []
  {
    var path := BuildPath(parent, name);
    assert path[|path| - 1] == name[|name| - 1] && name[|name| - 1] in name;
    assert TrimSlashes(path) == path;
    if parent == "/" {
      assert path == "" + "/" + name;
      LastSlashBefore("", name);
    } else {
      LastSlashBefore(parent, name);
      assert path[..|parent|] == parent;
    }
  }

  // ----- inode numbers -----

  datatype Inodes = Inodes(inoToPath: map<nat, string>, pathToIno: map<string, nat>, next: nat)

  const FIRST_INODES := Inodes(map[ROOT_INO := "/"], map["/" := ROOT_INO], 2)

  /** The two maps are inverse to each other and every live number was issued. */
  ghost predicate Bijective(m: Inodes) {
    && 1 <= m.next
    && (forall i :: i in m.inoToPath ==> m.inoToPath[i] in m.pathToIno && m.pathToIno[m.inoToPath[i]] == i)
    && (forall p :: p in m.pathToIno ==> m.pathToIno[p] in m.inoToPath && m.inoToPath[m.pathToIno[p]] == p)
    && (forall i :: i in m.inoToPath ==> 1 <= i < m.next)
  }

  ghost predicate Rooted(m: Inodes) {
    ROOT_INO in m.inoToPath && m.inoToPath[ROOT_INO] == "/" && "/" in m.pathToIno && m.pathToIno["/"] == ROOT_INO
  }

  function InodeOf(m: Inodes, path: string): nat { if path in m.pathToIno then m.pathToIno[path] else 0 }

  function Found(m: Inodes, path: string): Inodes {
    if path in m.pathToIno then m
    else Inodes(m.inoToPath[m.next := path], m.pathToIno[path := m.next], m.next + 1)
  }

  function Forgotten(m: Inodes, path: string): Inodes {
    if path !in m.pathToIno then m
    else m.(inoToPath := m.inoToPath - {m.pathToIno[path]}, pathToIno := m.pathToIno - {path})
  }

  function Moved(m: Inodes, from: string, to: string): Inodes {
    var n := Forgotten(m, to);
    if from !in n.pathToIno then n
    else
      var ino := n.pathToIno[from];
      n.(inoToPath := n.inoToPath[ino := to], pathToIno := (n.pathToIno - {from})[to := ino])
  }

  class InodeMap {
    var inoToPath: map<nat, string>
    var pathToIno: map<string, nat>
    var nextIno: nat

    ghost function View(): Inodes
      reads this
    {
      Inodes(inoToPath, pathToIno, nextIno)
    }

    constructor ()
      ensures View() == FIRST_INODES && Bijective(View()) && Rooted(View())
    {
      inoToPath := map[ROOT_INO := "/"];
      pathToIno := map["/" := ROOT_INO];
      nextIno := 2;
    }

    method GetOrCreate(path: string) returns (ino: nat)
      requires Bijective(View())
      modifies this
      ensures View() == Found(old(View()), path) && Bijective(View())
      ensures path in pathToIno && pathToIno[path] == ino
      ensures path !in old(pathToIno) ==> ino == old(nextIno) && ino !in old(inoToPath)
      ensures old(Rooted(View())) ==> Rooted(View())
    {
      if path in pathToIno {
        return pathToIno[path];
      }
      ino := nextIno;
      nextIno := nextIno + 1;
      inoToPath := inoToPath[ino := path];
      pathToIno := pathToIno[path := ino];
    }

    method Remove(path: string)
      requires Bijective(View())
      modifies this
      ensures View() == Forgotten(old(View()), path) && Bijective(View())
      ensures old(Rooted(View())) ==> (Rooted(View()) <==> path != "/")
    {
      if path in pathToIno {
        var ino := pathToIno[path];
        pathToIno := pathToIno - {path};
        inoToPath := inoToPath - {ino};
      }
    }

    /** The inode that held the destination is dropped; a path renamed to itself loses its
        inode too. */
    method Rename(from: string, to: string)
      requires Bijective(View())
      modifies this
      ensures View() == Moved(old(View()), from, to) && Bijective(View())
      ensures old(Rooted(View())) ==> (Rooted(View()) <==> from != "/" && to != "/")
      ensures from != to && from in old(pathToIno) ==> to in pathToIno && pathToIno[to] == old(pathToIno[from])
      ensures from !in pathToIno
    {
      if to in pathToIno {
        var destIno := pathToIno[to];
        pathToIno := pathToIno - {to};
        inoToPath := inoToPath - {destIno};
      }
      if from in pathToIno {
        var ino := pathToIno[from];
        pathToIno := pathToIno - {from};
        inoToPath := inoToPath[ino := to];
        pathToIno := pathToIno[to := ino];
      }
    }
  }

  lemma FoundKeeps(m: Inodes, path: string)
    requires Bijective(m)
    ensures Bijective(Found(m, path)) && (Rooted(m) ==> Rooted(Found(m, path)))
    ensures path in Found(m, path).pathToIno
  {
  }

  lemma ForgottenKeeps(m: Inodes, path: string)
    requires Bijective(m)
    ensures Bijective(Forgotten(m, path)) && (Rooted(m) && path != "/" ==> Rooted(Forgotten(m, path)))
  {
  }

  lemma MovedKeeps(m: Inodes, from: string, to: string)
    requires Bijective(m)
    ensures Bijective(Moved(m, from, to)) && (Rooted(m) && from != "/" && to != "/" ==> Rooted(Moved(m, from, to)))
  {
    ForgottenKeeps(m, to);
  }

  // ----- file handles -----

  datatype Handles = Handles(remote: map<nat, nat>, next: nat)

  class HandleManager {
    var remote: map<nat, nat>
    var nextFh: nat

    ghost function View(): Handles
      reads this
    {
      Handles(remote, nextFh)
    }

    constructor ()
      ensures View() == Handles(map[], 1)
    {
      remote, nextFh := map[], 1;
    }

    method Allocate(fd: nat) returns (fh: nat)
      modifies this
      ensures fh == old(nextFh) && View() == Allocated(old(View()), fd)
    {
      fh := nextFh;
      nextFh := nextFh + 1;
      remote := remote[fh := fd];
    }

    method Release(fh: nat) returns (fd: Option<nat>)
      modifies this
      ensures View() == Released(old(View()), fh)
      ensures fd == if fh in old(remote) then Some(old(remote)[fh]) else None
    {
      fd := if fh in remote then Some(remote[fh]) else None;
      remote := remote - {fh};
    }
  }

  function Allocated(h: Handles, fd: nat): Handles { Handles(h.remote[h.next := fd], h.next + 1) }

  function Released(h: Handles, fh: nat): Handles { h.(remote := h.remote - {fh}) }

  // ----- the cache -----

  /** A cached attribute: its inode number and everything else about the file. */
  datatype Attr = Attr(ino: nat, meta: seq<int>)

  datatype Cache = Cache(attr: map<string, Attr>, dir: map<string, seq<string>>)

  function Invalidated(c: Cache, path: string): Cache { Cache(c.attr - {path}, c.dir - {path}) }

  function InvalidatedWithParent(c: Cache, path: string): Cache {
    var d := Invalidated(c, path);
    match ParentPath(path)
    case None => d
    case Some(parent) => d.(dir := d.dir - {parent})
  }

  class CacheManager {
    var attrCache: map<string, Attr>
    var dirCache: map<string, seq<string>>

    ghost function View(): Cache
      reads this
    {
      Cache(attrCache, dirCache)
    }

    constructor ()
      ensures View() == Cache(map[], map[])
    {
      attrCache, dirCache := map[], map[];
    }

    /** An entry whose time has passed is as good as absent. */
    function GetAttr(path: string, expired: bool): Option<Attr>
      reads this
    {
      if path in attrCache && !expired then Some(attrCache[path]) else None
    }

    method PutAttr(path: string, a: Attr)
      modifies this
      ensures View() == old(View()).(attr := old(attrCache)[path := a])
    {
      attrCache := attrCache[path := a];
    }

    method PutDir(path: string, entries: seq<string>)
      modifies this
      ensures View() == old(View()).(dir := old(dirCache)[path := entries])
    {
      dirCache := dirCache[path := entries];
    }

    method Invalidate(path: string)
      modifies this
      ensures View() == Invalidated(old(View()), path)
    {
      attrCache := attrCache - {path};
      dirCache := dirCache - {path};
    }

    method InvalidateWithParent(path: string)
      modifies this
      ensures View() == InvalidatedWithParent(old(View()), path)
    {
      Invalidate(path);
      var parent := ParentPath(path);
      if parent.Some? {
        dirCache := dirCache - {parent.value};
      }
    }

    method Clear()
      modifies this
      ensures View() == Cache(map[], map[])
    {
      attrCache, dirCache := map[], map[];
    }
  }

  // ----- the handlers -----

  datatype Fs = Fs(inodes: Inodes, handles: Handles, cache: Cache)

  const START := Fs(FIRST_INODES, Handles(map[], 1), Cache(map[], map[]))

  /** A handler call with what the host answered: `stat` the attributes or an error, `ok`
      and `fd` the result of the operation itself, `expired` whether a cached entry had
      outlived its time. */
  datatype Call =
    | Lookup(parent: nat, name: string, expired: bool, stat: Option<seq<int>>)
    | Getattr(ino: nat, expired: bool, stat: Option<seq<int>>)
    | Setattr(ino: nat, truncated: Option<bool>, stat: Option<seq<int>>)
    | OpenFile(ino: nat, fd: Option<nat>)
    | ReleaseFile(fh: nat)
    | WriteFile(ino: nat, fh: nat, ok: bool)
    | ReadDir(ino: nat, fh: nat, offset: nat, expired: bool, listing: Option<seq<string>>, shown: nat)
    | MakeDir(parent: nat, name: string, ok: bool, stat: Option<seq<int>>)
    | CreateFile(parent: nat, name: string, fd: Option<nat>)
    | RemoveEntry(parent: nat, name: string, ok: bool)     // unlink and rmdir
    | RenameEntry(parent: nat, name: string, newParent: nat, newName: string, ok: bool)
    | ClearCache                                           // PathChanged and InvalidateCache

  /** The kernel passes proper names. */
  predicate Proper(c: Call) {
    match c
    case Lookup(_, name, _, _) => NameOk(name)
    case MakeDir(_, name, _, _) => NameOk(name)
    case CreateFile(_, name, _) => NameOk(name)
    case RemoveEntry(_, name, _) => NameOk(name)
    case RenameEntry(_, name, _, newName, _) => NameOk(name) && NameOk(newName)
    case _ => true
  }

  function StoreAttr(fs: Fs, path: string, meta: seq<int>): Fs
    requires path in fs.inodes.pathToIno
  {
    fs.(cache := fs.cache.(attr := fs.cache.attr[path := Attr(fs.inodes.pathToIno[path], meta)]))
  }

  function FoundAll(m: Inodes, parent: string, names: seq<string>): Inodes {
    if names == [] then m
    else Found(FoundAll(m, parent, names[..|names| - 1]), BuildPath(parent, names[|names| - 1]))
  }

  function Skip(names: seq<string>, n: nat): seq<string> { if n >= |names| then [] else names[n..] }

  function AtMost(names: seq<string>, n: nat): seq<string> { if |names| <= n then names else names[..n] }

  /** The entries from `offset` on that a reply with room for `shown` takes. */
  function Shown(names: seq<string>, offset: nat, shown: nat): seq<string> { AtMost(Skip(names, offset), shown) }

  /** The entries that are given an inode: those of the reply, and the one that is then found
      not to fit. */
  function Tried(names: seq<string>, offset: nat, shown: nat): seq<string> { AtMost(Skip(names, offset), shown + 1) }

  /** The names a readdir replies with: those from `offset` on, of the cached listing if it is
      still good, else of the listing the host sends. */
  function Served(fs: Fs, ino: nat, fh: nat, offset: nat, expired: bool, listing: Option<seq<string>>, shown: nat)
    : seq<string>
  {
    if ino !in fs.inodes.inoToPath || fh !in fs.handles.remote then []
    else
      var path := fs.inodes.inoToPath[ino];
      if path in fs.cache.dir && !expired then Shown(fs.cache.dir[path], offset, shown)
      else if listing.None? then [] else Shown(listing.value, offset, shown)
  }

  const MAX_ENTRIES := 100

  /** What the host sends for a directory: its first entries, whatever offset it is asked for. */
  function HostListing(all: seq<string>): seq<string> { if |all| <= MAX_ENTRIES then all else all[..MAX_ENTRIES] }

  function Handle(fs: Fs, c: Call): Fs {
    match c
    case Lookup(parent, name, expired, stat) =>
      if parent !in fs.inodes.inoToPath then fs
      else
        var path := BuildPath(fs.inodes.inoToPath[parent], name);
        if path in fs.cache.attr && !expired then fs
        else if stat.None? then fs
        else StoreAttr(fs.(inodes := Found(fs.inodes, path)), path, stat.value)
    case Getattr(ino, expired, stat) =>
      if ino !in fs.inodes.inoToPath then fs
      else
        var path := fs.inodes.inoToPath[ino];
        if path in fs.cache.attr && !expired then fs
        else if stat.None? then fs
        else fs.(cache := fs.cache.(attr := fs.cache.attr[path := Attr(ino, stat.value)]))
    case Setattr(ino, truncated, stat) =>
      if ino !in fs.inodes.inoToPath || truncated == Some(false) then fs
      else
        var path := fs.inodes.inoToPath[ino];
        var t := if truncated.Some? then fs.(cache := Invalidated(fs.cache, path)) else fs;
        if stat.None? then t
        else t.(cache := t.cache.(attr := t.cache.attr[path := Attr(ino, stat.value)]))
    case OpenFile(ino, fd) =>
      if ino !in fs.inodes.inoToPath || fd.None? then fs else fs.(handles := Allocated(fs.handles, fd.value))
    case ReleaseFile(fh) => fs.(handles := Released(fs.handles, fh))
    case WriteFile(ino, fh, ok) =>
      if fh !in fs.handles.remote || !ok || ino !in fs.inodes.inoToPath then fs
      else fs.(cache := Invalidated(fs.cache, fs.inodes.inoToPath[ino]))
    case ReadDir(ino, fh, offset, expired, listing, shown) =>
      if ino !in fs.inodes.inoToPath || fh !in fs.handles.remote then fs
      else
        var path := fs.inodes.inoToPath[ino];
        if path in fs.cache.dir && !expired then
          fs.(inodes := FoundAll(fs.inodes, path, Tried(fs.cache.dir[path], offset, shown)))
        else if listing.None? then fs
        else
          fs.(cache := fs.cache.(dir := fs.cache.dir[path := listing.value]),
              inodes := FoundAll(fs.inodes, path, Tried(listing.value, offset, shown)))
    case MakeDir(parent, name, ok, stat) =>
      if parent !in fs.inodes.inoToPath || !ok then fs
      else
        var path := BuildPath(fs.inodes.inoToPath[parent], name);
        var t := fs.(cache := InvalidatedWithParent(fs.cache, path));
        if stat.None? then t else t.(inodes := Found(t.inodes, path))
    case CreateFile(parent, name, fd) =>
      if parent !in fs.inodes.inoToPath || fd.None? then fs
      else
        var path := BuildPath(fs.inodes.inoToPath[parent], name);
        Fs(Found(fs.inodes, path), Allocated(fs.handles, fd.value), InvalidatedWithParent(fs.cache, path))
    case RemoveEntry(parent, name, ok) =>
      if parent !in fs.inodes.inoToPath || !ok then fs
      else
        var path := BuildPath(fs.inodes.inoToPath[parent], name);
        fs.(cache := InvalidatedWithParent(fs.cache, path), inodes := Forgotten(fs.inodes, path))
    case RenameEntry(parent, name, newParent, newName, ok) =>
      if parent !in fs.inodes.inoToPath || newParent !in fs.inodes.inoToPath || !ok then fs
      else
        var from := BuildPath(fs.inodes.inoToPath[parent], name);
        var to := BuildPath(fs.inodes.inoToPath[newParent], newName);
        fs.(cache := InvalidatedWithParent(InvalidatedWithParent(fs.cache, from), to), inodes := Moved(fs.inodes, from, to))
    case ClearCache => fs.(cache := Cache(map[], map[]))
  }

  // ----- serial runs -----

  /** Each cached attribute carries the inode number its path has now. */
  ghost predicate CacheAgrees(fs: Fs) {
    forall p :: p in fs.cache.attr ==> p in fs.inodes.pathToIno && fs.cache.attr[p].ino == fs.inodes.pathToIno[p]
  }

  ghost predicate Safe(fs: Fs) {
    && Bijective(fs.inodes) && Rooted(fs.inodes) && CacheAgrees(fs)
    && (forall p :: p in fs.inodes.pathToIno ==> p != [])
    && (forall h :: h in fs.handles.remote ==> h < fs.handles.next)
  }

  lemma {:induction false} FoundAllKeeps(m: Inodes, parent: string, names: seq<string>)
    requires Bijective(m) && Rooted(m) && (forall p :: p in m.pathToIno ==> p != [])
    ensures var n := FoundAll(m, parent, names);
      && Bijective(n) && Rooted(n) && (forall p :: p in n.pathToIno ==> p != [])
      && (forall p :: p in m.pathToIno ==> p in n.pathToIno && n.pathToIno[p] == m.pathToIno[p])
      && m.next <= n.next && (forall i :: i in n.inoToPath && i < m.next ==> i in m.inoToPath)
  {
    if names == [] {
    } else {
      var front := names[..|names| - 1];
      FoundAllKeeps(m, parent, front);
      FoundKeeps(FoundAll(m, parent, front), BuildPath(parent, names[|names| - 1]));
    }
  }

  lemma FoundAllSnoc(m: Inodes, parent: string, names: seq<string>, k: nat)
    requires k < |names|
    ensures FoundAll(m, parent, names[..k + 1]) == Found(FoundAll(m, parent, names[..k]), BuildPath(parent, names[k]))
  {
    assert names[..k + 1][..k] == names[..k];
  }

  lemma FrontIsAtMost(entries: seq<string>, k: nat)
    requires k < |entries|
    ensures entries[..k + 1] == AtMost(entries, k + 1) && |AtMost(entries, k)| == k
  {
  }

  /** The reply lists a front of the entries, each with the inode that names it. */
  ghost predicate AllNamed(m: Inodes, path: string, entries: seq<string>, reply: seq<(nat, string)>) {
    |reply| <= |entries| && forall i :: 0 <= i < |reply| ==>
      reply[i].1 == entries[i] && reply[i].0 in m.inoToPath && m.inoToPath[reply[i].0] == BuildPath(path, entries[i])
  }

  lemma NamedSnoc(m: Inodes, path: string, entries: seq<string>, reply: seq<(nat, string)>, ino: nat)
    requires Bijective(m) && AllNamed(m, path, entries, reply) && |reply| < |entries|
    requires BuildPath(path, entries[|reply|]) in m.pathToIno && m.pathToIno[BuildPath(path, entries[|reply|])] == ino
    ensures AllNamed(m, path, entries, reply + [(ino, entries[|reply|])])
  {
  }

  lemma FoundKeepsNamed(m: Inodes, path: string, entries: seq<string>, reply: seq<(nat, string)>, more: string)
    requires Bijective(m) && AllNamed(m, path, entries, reply)
    ensures AllNamed(Found(m, more), path, entries, reply)
  {
  }

  /** No number that is dead and was issued before comes back in `t`. */
  ghost predicate NoRevival(s: Fs, t: Fs) {
    && s.inodes.next <= t.inodes.next && (forall i :: i in t.inodes.inoToPath && i < s.inodes.next ==> i in s.inodes.inoToPath)
    && s.handles.next <= t.handles.next && (forall h :: h in t.handles.remote && h < s.handles.next ==> h in s.handles.remote)
  }

  lemma HandleKeepsSafe(fs: Fs, c: Call)
    requires Safe(fs) && Proper(c)
    ensures Safe(Handle(fs, c)) && NoRevival(fs, Handle(fs, c))
  {
    match c
    case Lookup(_, _, _, _) => LookupKeepsSafe(fs, c);
    case MakeDir(_, _, _, _) => MakeDirKeepsSafe(fs, c);
    case CreateFile(_, _, _) => CreateKeepsSafe(fs, c);
    case RemoveEntry(_, _, _) => RemovalKeepsSafe(fs, c);
    case RenameEntry(_, _, _, _, _) => RemovalKeepsSafe(fs, c);
    case ReadDir(_, _, _, _, _, _) => ListingKeepsSafe(fs, c);
    case _ => OthersKeepSafe(fs, c);
  }

  lemma LookupKeepsSafe(fs: Fs, c: Call)
    requires Safe(fs) && c.Lookup?
    ensures Safe(Handle(fs, c)) && NoRevival(fs, Handle(fs, c))
  {
    if c.parent in fs.inodes.inoToPath {
      FoundKeeps(fs.inodes, BuildPath(fs.inodes.inoToPath[c.parent], c.name));
    }
  }

  lemma MakeDirKeepsSafe(fs: Fs, c: Call)
    requires Safe(fs) && c.MakeDir?
    ensures Safe(Handle(fs, c)) && NoRevival(fs, Handle(fs, c))
  {
    if c.parent in fs.inodes.inoToPath {
      FoundKeeps(fs.inodes, BuildPath(fs.inodes.inoToPath[c.parent], c.name));
    }
  }

  lemma CreateKeepsSafe(fs: Fs, c: Call)
    requires Safe(fs) && c.CreateFile?
    ensures Safe(Handle(fs, c)) && NoRevival(fs, Handle(fs, c))
  {
    if c.parent in fs.inodes.inoToPath {
      FoundKeeps(fs.inodes, BuildPath(fs.inodes.inoToPath[c.parent], c.name));
    }
  }

  lemma RemovalKeepsSafe(fs: Fs, c: Call)
    requires Safe(fs) && Proper(c) && (c.RemoveEntry? || c.RenameEntry?)
    ensures Safe(Handle(fs, c)) && NoRevival(fs, Handle(fs, c))
  {
    if c.parent in fs.inodes.inoToPath {
      var from := BuildPath(fs.inodes.inoToPath[c.parent], c.name);
      ParentInvertsBuild(fs.inodes.inoToPath[c.parent], c.name);
      if c.RemoveEntry? {
        ForgottenKeeps(fs.inodes, from);
      } else if c.newParent in fs.inodes.inoToPath {
        ParentInvertsBuild(fs.inodes.inoToPath[c.newParent], c.newName);
        MovedKeeps(fs.inodes, from, BuildPath(fs.inodes.inoToPath[c.newParent], c.newName));
      }
    }
  }

  lemma ListingKeepsSafe(fs: Fs, c: Call)
    requires Safe(fs) && c.ReadDir?
    ensures Safe(Handle(fs, c)) && NoRevival(fs, Handle(fs, c))
  {
    if c.ino in fs.inodes.inoToPath {
      var path := fs.inodes.inoToPath[c.ino];
      if path in fs.cache.dir {
        FoundAllKeeps(fs.inodes, path, Tried(fs.cache.dir[path], c.offset, c.shown));
      }
      if c.listing.Some? {
        FoundAllKeeps(fs.inodes, path, Tried(c.listing.value, c.offset, c.shown));
      }
    }
  }

  lemma OthersKeepSafe(fs: Fs, c: Call)
    requires Safe(fs)
    requires c.Getattr? || c.Setattr? || c.OpenFile? || c.ReleaseFile? || c.WriteFile? || c.ClearCache?
    ensures Safe(Handle(fs, c)) && NoRevival(fs, Handle(fs, c))
  {
  }

  ghost predicate Next(fs: Fs, after: Fs) { exists c :: Proper(c) && after == Handle(fs, c) }

  lemma SafeIsKept()
    ensures Safe(START) && Preserved(Next, Safe)
  {
    forall fs, after | Safe(fs) && Next(fs, after) ensures Safe(after) {
      var c :| Proper(c) && after == Handle(fs, c);
      HandleKeepsSafe(fs, c);
    }
  }

  /** In every serial run the inode maps are inverse to each other, inode 1 is "/", and
      every cached attribute carries the inode its path has now. */
  lemma ReachableIsSafe(fs: Fs)
    requires Reachable(START, Next, fs)
    ensures Safe(fs)
  {
    SafeIsKept();
    ReachableKeeps(START, Next, Safe, fs);
  }

  // ----- paging through a directory -----

  /** What the kernel sees of directory `ino`, holding `all` on the host, when it reads on from
      where the last reply ended; each read says whether the cached listing has expired and
      how many entries the reply has room for. */
  function Session(fs: Fs, ino: nat, fh: nat, all: seq<string>, offset: nat, asks: seq<(bool, nat)>): seq<string>
    decreases |asks|
  {
    if asks == [] then []
    else
      var listing, page := Some(HostListing(all)), PageOf(fs, ino, fh, all, offset, asks[0]);
      var after := Handle(fs, ReadDir(ino, fh, offset, asks[0].0, listing, asks[0].1));
      page + Session(after, ino, fh, all, offset + |page|, asks[1..])
  }

  function PageOf(fs: Fs, ino: nat, fh: nat, all: seq<string>, offset: nat, read: (bool, nat)): seq<string> {
    Served(fs, ino, fh, offset, read.0, Some(HostListing(all)), read.1)
  }

  /** The directory is open, and what is cached of it is what the host would send. */
  ghost predicate OpenDir(fs: Fs, ino: nat, fh: nat, all: seq<string>) {
    && Safe(fs) && ino in fs.inodes.inoToPath && fh in fs.handles.remote
    && (fs.inodes.inoToPath[ino] in fs.cache.dir ==> fs.cache.dir[fs.inodes.inoToPath[ino]] == HostListing(all))
  }

  lemma ReadKeepsOpenDir(fs: Fs, ino: nat, fh: nat, all: seq<string>, offset: nat, expired: bool, room: nat)
    requires OpenDir(fs, ino, fh, all)
    ensures OpenDir(Handle(fs, ReadDir(ino, fh, offset, expired, Some(HostListing(all)), room)), ino, fh, all)
    ensures Served(fs, ino, fh, offset, expired, Some(HostListing(all)), room) == Shown(HostListing(all), offset, room)
  {
    var c, path := ReadDir(ino, fh, offset, expired, Some(HostListing(all)), room), fs.inodes.inoToPath[ino];
    HandleKeepsSafe(fs, c);
    FoundAllKeeps(fs.inodes, path, Tried(HostListing(all), offset, room));
  }

  /** The same pages cut from what is left of one listing. */
  function Pages(left: seq<string>, asks: seq<(bool, nat)>): seq<string>
    decreases |asks|
  {
    if asks == [] then []
    else
      var page := AtMost(left, asks[0].1);
      page + Pages(left[|page|..], asks[1..])
  }

  lemma {:induction false} SessionIsPages(fs: Fs, ino: nat, fh: nat, all: seq<string>, offset: nat, asks: seq<(bool, nat)>)
    requires OpenDir(fs, ino, fh, all)
    ensures Session(fs, ino, fh, all, offset, asks) == Pages(Skip(HostListing(all), offset), asks)
    decreases |asks|
  {
    if asks == [] {
    } else {
      var page, after, next := ReadOnce(fs, ino, fh, all, offset, asks);
      SessionIsPages(after, ino, fh, all, next, asks[1..]);
    }
  }

  /** One read: what it shows, the state after it, and where the next one begins. */
  lemma ReadOnce(fs: Fs, ino: nat, fh: nat, all: seq<string>, offset: nat, asks: seq<(bool, nat)>)
      returns (page: seq<string>, after: Fs, next: nat)
    requires OpenDir(fs, ino, fh, all) && asks != []
    ensures OpenDir(after, ino, fh, all)
    ensures Session(fs, ino, fh, all, offset, asks) == page + Session(after, ino, fh, all, next, asks[1..])
    ensures var left := Skip(HostListing(all), offset);
      page == AtMost(left, asks[0].1) && |page| <= |left| && Skip(HostListing(all), next) == left[|page|..]
  {
    ReadKeepsOpenDir(fs, ino, fh, all, offset, asks[0].0, asks[0].1);
    SkipSkip(HostListing(all), offset, asks[0].1);
    page, after, next := SessionUnfolds(fs, ino, fh, all, offset, asks);
  }

  lemma SessionUnfolds(fs: Fs, ino: nat, fh: nat, all: seq<string>, offset: nat, asks: seq<(bool, nat)>)
      returns (page: seq<string>, after: Fs, next: nat)
    requires asks != []
    ensures page == Served(fs, ino, fh, offset, asks[0].0, Some(HostListing(all)), asks[0].1)
    ensures after == Handle(fs, ReadDir(ino, fh, offset, asks[0].0, Some(HostListing(all)), asks[0].1))
    ensures next == offset + |page|
    ensures Session(fs, ino, fh, all, offset, asks) == page + Session(after, ino, fh, all, next, asks[1..])
  {
    page := PageOf(fs, ino, fh, all, offset, asks[0]);
    after := Handle(fs, ReadDir(ino, fh, offset, asks[0].0, Some(HostListing(all)), asks[0].1));
    next := offset + |page|;
  }

  lemma SkipSkip(listing: seq<string>, offset: nat, room: nat)
    ensures var page := Shown(listing, offset, room);
      |page| <= |Skip(listing, offset)| && Skip(listing, offset + |page|) == Skip(listing, offset)[|page|..]
  {
  }

  lemma {:induction false} PagesShow(left: seq<string>, asks: seq<(bool, nat)>)
    requires forall i :: 0 <= i < |asks| ==> asks[i].1 > 0
    ensures |asks| >= |left| ==> Pages(left, asks) == left
    decreases |asks|
  {
    if asks == [] {
    } else {
      var page := AtMost(left, asks[0].1);
      PagesShow(left[|page|..], asks[1..]);
      assert left == page + left[|page|..];
    }
  }

  /** A directory that does not change is shown completely, whatever part of it comes from the
      cache or is fetched anew and however much fits each reply, if and only if it has at most
      100 entries. */
  lemma DirectoryIsShownIffSmall(fs: Fs, ino: nat, fh: nat, all: seq<string>, asks: seq<(bool, nat)>)
    requires OpenDir(fs, ino, fh, all) && |asks| >= MAX_ENTRIES && forall i :: 0 <= i < |asks| ==> asks[i].1 > 0
    ensures Session(fs, ino, fh, all, 0, asks) == all <==> |all| <= MAX_ENTRIES
  {
    SessionIsPages(fs, ino, fh, all, 0, asks);
    PagesShow(HostListing(all), asks);
    assert Skip(HostListing(all), 0) == HostListing(all);
  }

  ghost predicate Uncached(fs: Fs, path: string, parent: string) {
    path !in fs.cache.attr && path !in fs.cache.dir && parent !in fs.cache.dir
  }

  /** After a successful mkdir, create, unlink, rmdir or rename nothing is cached for the
      paths it changed, nor a listing of the directories they are in. After a successful write
      nothing is cached for the file, and after a truncation nothing but the attributes the
      host has sent since. */
  lemma ChangesLeaveNothingStale(fs: Fs, c: Call)
    requires Safe(fs) && Proper(c)
    ensures var t := Handle(fs, c);
      && ((c.MakeDir? || c.RemoveEntry?) && c.ok && c.parent in fs.inodes.inoToPath ==>
            Uncached(t, BuildPath(fs.inodes.inoToPath[c.parent], c.name), fs.inodes.inoToPath[c.parent]))
      && (c.CreateFile? && c.fd.Some? && c.parent in fs.inodes.inoToPath ==>
            Uncached(t, BuildPath(fs.inodes.inoToPath[c.parent], c.name), fs.inodes.inoToPath[c.parent]))
      && (c.RenameEntry? && c.ok && c.parent in fs.inodes.inoToPath && c.newParent in fs.inodes.inoToPath ==>
            && Uncached(t, BuildPath(fs.inodes.inoToPath[c.parent], c.name), fs.inodes.inoToPath[c.parent])
            && Uncached(t, BuildPath(fs.inodes.inoToPath[c.newParent], c.newName), fs.inodes.inoToPath[c.newParent]))
      && (c.WriteFile? && c.ok && c.fh in fs.handles.remote && c.ino in fs.inodes.inoToPath ==>
            fs.inodes.inoToPath[c.ino] !in t.cache.attr && fs.inodes.inoToPath[c.ino] !in t.cache.dir)
      && (c.Setattr? && c.truncated == Some(true) && c.ino in fs.inodes.inoToPath ==>
            && fs.inodes.inoToPath[c.ino] !in t.cache.dir
            && CachedFor(t, fs.inodes.inoToPath[c.ino]) == Wrapped(c.ino, c.stat))
      && (c.ClearCache? ==> forall p :: p !in t.cache.attr && p !in t.cache.dir)
  {
    if (c.MakeDir? || c.CreateFile? || c.RemoveEntry? || c.RenameEntry?) && c.parent in fs.inodes.inoToPath {
      ParentInvertsBuild(fs.inodes.inoToPath[c.parent], c.name);
    }
    if c.RenameEntry? && c.newParent in fs.inodes.inoToPath {
      ParentInvertsBuild(fs.inodes.inoToPath[c.newParent], c.newName);
    }
  }

  function CachedFor(fs: Fs, path: string): Option<Attr> {
    if path in fs.cache.attr then Some(fs.cache.attr[path]) else None
  }

  function Wrapped(ino: nat, stat: Option<seq<int>>): Option<Attr> {
    if stat.Some? then Some(Attr(ino, stat.value)) else None
  }

  function InoFor(fs: Fs, path: string): Option<nat> {
    if path in fs.inodes.pathToIno then Some(fs.inodes.pathToIno[path]) else None
  }

  /** What a lookup or getattr of `path` replies: the cached attribute while it is good, else
      what the host sends, under inode `ino`. */
  function Answer(fs: Fs, path: string, ino: nat, expired: bool, stat: Option<seq<int>>): Option<Attr> {
    if path in fs.cache.attr && !expired then Some(fs.cache.attr[path]) else Wrapped(ino, stat)
  }

  /** Other paths keep their inodes, and what is cached for them. */
  ghost predicate OthersKept(s: Fs, t: Fs, paths: set<string>) {
    forall p :: p !in paths ==> InoFor(t, p) == InoFor(s, p) && CachedFor(t, p) == CachedFor(s, p)
  }

  /** A lookup that the cache does not answer gives the path an inode, a new one exactly when
      it had none, and caches what the host sends; one it answers changes nothing. */
  lemma LookupNamesPath(fs: Fs, c: Call)
    requires Safe(fs) && c.Lookup? && c.parent in fs.inodes.inoToPath
    ensures var t, path := Handle(fs, c), BuildPath(fs.inodes.inoToPath[c.parent], c.name);
      if (path in fs.cache.attr && !c.expired) || c.stat.None? then t == fs
      else
        && InoFor(t, path).Some? && (InoFor(fs, path).Some? ==> InoFor(t, path) == InoFor(fs, path))
        && (InoFor(fs, path).None? ==> InoFor(t, path).value !in fs.inodes.inoToPath)
        && CachedFor(t, path) == Some(Attr(InoFor(t, path).value, c.stat.value))
        && OthersKept(fs, t, {path})
  {
  }

  /** A getattr the cache does not answer, and a setattr, cache what the host sends. */
  lemma AttributesAreCached(fs: Fs, c: Call)
    requires Safe(fs) && (c.Getattr? || c.Setattr?) && c.ino in fs.inodes.inoToPath
    ensures var t, path := Handle(fs, c), fs.inodes.inoToPath[c.ino];
      && t.inodes == fs.inodes && OthersKept(fs, t, {path})
      && (c.Getattr? && c.stat.Some? && !(path in fs.cache.attr && !c.expired) ==>
            CachedFor(t, path) == Some(Attr(c.ino, c.stat.value)))
      && (c.Getattr? && (c.stat.None? || (path in fs.cache.attr && !c.expired)) ==> t == fs)
      && (c.Setattr? && c.truncated != Some(false) && c.stat.Some? ==> CachedFor(t, path) == Some(Attr(c.ino, c.stat.value)))
  {
  }

  /** mkdir and create give the path an inode, unlink and rmdir take it, and rename hands it
      on; a path renamed to itself, or from one that has none, is left without. */
  lemma ChangesMoveInodes(fs: Fs, c: Call)
    requires Safe(fs) && (c.MakeDir? || c.CreateFile? || c.RemoveEntry? || c.RenameEntry?) && c.parent in fs.inodes.inoToPath
    ensures var t, path := Handle(fs, c), BuildPath(fs.inodes.inoToPath[c.parent], c.name);
      && ((c.MakeDir? && c.ok && c.stat.Some?) || (c.CreateFile? && c.fd.Some?) ==>
            && InoFor(t, path).Some? && (InoFor(fs, path).Some? ==> InoFor(t, path) == InoFor(fs, path))
            && (InoFor(fs, path).None? ==> InoFor(t, path).value !in fs.inodes.inoToPath)
            && OthersKept(fs, t, {path}))
      && (c.RemoveEntry? && c.ok ==> InoFor(t, path) == None && OthersKept(fs, t, {path}))
      && (c.RenameEntry? && c.ok && c.newParent in fs.inodes.inoToPath ==>
            var to := BuildPath(fs.inodes.inoToPath[c.newParent], c.newName);
            && InoFor(t, path) == None && OthersKept(fs, t, {path, to})
            && InoFor(t, to) == if path == to then None else InoFor(fs, path))
  {
  }

  // ----- the handlers as they run -----

  /** Each handler works on the three shared objects; what the host answers is given. The
      state it leaves is the one `Handle` says, and the inode number in its reply names the
      path it was asked about. */
  class HostFilesystem {
    const inodes: InodeMap
    const handles: HandleManager
    const cache: CacheManager

    ghost function View(): Fs
      reads inodes, handles, cache
    {
      Fs(inodes.View(), handles.View(), cache.View())
    }

    /** `ino` now names `name` in what was directory `parent` in `m`. */
    ghost predicate Names(ino: nat, m: Inodes, parent: nat, name: string)
      reads inodes
    {
      parent in m.inoToPath && ino in inodes.inoToPath && inodes.inoToPath[ino] == BuildPath(m.inoToPath[parent], name)
    }

    constructor ()
      ensures View() == START && Safe(View())
      ensures fresh(inodes) && fresh(handles) && fresh(cache)
    {
      inodes := new InodeMap();
      handles := new HandleManager();
      cache := new CacheManager();
    }

    method Lookup(parent: nat, name: string, expired: bool, stat: Option<seq<int>>) returns (reply: Option<Attr>)
      requires Safe(View()) && NameOk(name)
      modifies inodes, cache
      ensures View() == Handle(old(View()), Call.Lookup(parent, name, expired, stat)) && Safe(View())
      ensures reply.Some? ==> Names(reply.value.ino, old(inodes.View()), parent, name)
      ensures parent !in old(inodes.inoToPath) ==> reply == None
      ensures parent in old(inodes.inoToPath) ==>
        var path := BuildPath(old(inodes.inoToPath)[parent], name);
        reply == Answer(old(View()), path, InodeOf(inodes.View(), path), expired, stat)
    {
      HandleKeepsSafe(View(), Call.Lookup(parent, name, expired, stat));
      if parent !in inodes.inoToPath {
        return None;
      }
      var path := BuildPath(inodes.inoToPath[parent], name);
      reply := cache.GetAttr(path, expired);
      if reply.None? && stat.Some? {
        var ino := inodes.GetOrCreate(path);
        cache.PutAttr(path, Attr(ino, stat.value));
        reply := Some(Attr(ino, stat.value));
      }
    }

    method Getattr(ino: nat, expired: bool, stat: Option<seq<int>>) returns (reply: Option<Attr>)
      requires Safe(View())
      modifies cache
      ensures View() == Handle(old(View()), Call.Getattr(ino, expired, stat)) && Safe(View())
      ensures reply.Some? ==> reply.value.ino == ino
      ensures reply == if ino !in inodes.inoToPath then None else Answer(old(View()), inodes.inoToPath[ino], ino, expired, stat)
    {
      if ino !in inodes.inoToPath {
        return None;
      }
      var path := inodes.inoToPath[ino];
      reply := cache.GetAttr(path, expired);
      if reply.None? && stat.Some? {
        cache.PutAttr(path, Attr(ino, stat.value));
        reply := Some(Attr(ino, stat.value));
      }
    }

    method Setattr(ino: nat, truncated: Option<bool>, stat: Option<seq<int>>) returns (reply: Option<Attr>)
      requires Safe(View())
      modifies cache
      ensures View() == Handle(old(View()), Call.Setattr(ino, truncated, stat)) && Safe(View())
      ensures reply == if ino !in inodes.inoToPath || truncated == Some(false) then None else Wrapped(ino, stat)
    {
      if ino !in inodes.inoToPath {
        return None;
      }
      var path := inodes.inoToPath[ino];
      if truncated.Some? {
        if !truncated.value {
          return None;
        }
        cache.Invalidate(path);
      }
      if stat.None? {
        return None;
      }
      cache.PutAttr(path, Attr(ino, stat.value));
      reply := Some(Attr(ino, stat.value));
    }

    /** open and opendir */
    method Open(ino: nat, fd: Option<nat>) returns (reply: Option<nat>)
      requires Safe(View())
      modifies handles
      ensures View() == Handle(old(View()), OpenFile(ino, fd)) && Safe(View())
      ensures reply.Some? <==> ino in inodes.inoToPath && fd.Some?
      ensures reply.Some? ==> reply.value !in old(handles.remote) && reply.value in handles.remote
                              && fd == Some(handles.remote[reply.value])
    {
      if ino !in inodes.inoToPath || fd.None? {
        return None;
      }
      var fh := handles.Allocate(fd.value);
      reply := Some(fh);
    }

    /** release and releasedir: the host's descriptor to close, if the handle is known */
    method Release(fh: nat) returns (fd: Option<nat>)
      requires Safe(View())
      modifies handles
      ensures View() == Handle(old(View()), ReleaseFile(fh)) && Safe(View())
      ensures fd == if fh in old(handles.remote) then Some(old(handles.remote)[fh]) else None
      ensures fh !in handles.remote
    {
      fd := handles.Release(fh);
    }

    method Write(ino: nat, fh: nat, ok: bool)
      requires Safe(View())
      modifies cache
      ensures View() == Handle(old(View()), WriteFile(ino, fh, ok)) && Safe(View())
      ensures ok && fh in handles.remote && ino in inodes.inoToPath ==>
        inodes.inoToPath[ino] !in cache.attrCache && inodes.inoToPath[ino] !in cache.dirCache
    {
      if fh in handles.remote && ok && ino in inodes.inoToPath {
        cache.Invalidate(inodes.inoToPath[ino]);
      }
    }

    /** The reply has room for `shown` entries. */
    method Readdir(ino: nat, fh: nat, offset: nat, expired: bool, listing: Option<seq<string>>, shown: nat)
        returns (reply: seq<(nat, string)>)
      requires Safe(View())
      modifies inodes, cache
      ensures View() == Handle(old(View()), ReadDir(ino, fh, offset, expired, listing, shown)) && Safe(View())
      ensures |reply| == |Served(old(View()), ino, fh, offset, expired, listing, shown)|
      ensures forall i :: 0 <= i < |reply| ==>
        && reply[i].1 == Served(old(View()), ino, fh, offset, expired, listing, shown)[i]
        && Names(reply[i].0, old(inodes.View()), ino, reply[i].1)
    {
      HandleKeepsSafe(View(), ReadDir(ino, fh, offset, expired, listing, shown));
      reply := [];
      if ino in inodes.inoToPath && fh in handles.remote {
        var path := inodes.inoToPath[ino];
        if path in cache.dirCache && !expired {
          reply := AddEntries(path, Skip(cache.dirCache[path], offset), shown);
        } else if listing.Some? {
          cache.PutDir(path, listing.value);
          reply := AddEntries(path, Skip(listing.value, offset), shown);
        }
      }
    }

    /** Gives inodes to the entries until one does not fit the reply. */
    method AddEntries(path: string, entries: seq<string>, room: nat) returns (reply: seq<(nat, string)>)
      requires Bijective(inodes.View())
      modifies inodes
      ensures inodes.View() == FoundAll(old(inodes.View()), path, AtMost(entries, room + 1))
      ensures |reply| == |AtMost(entries, room)| && AllNamed(inodes.View(), path, entries, reply)
    {
      reply := [];
      for k := 0 to |entries|
        invariant |reply| == k <= room && Bijective(inodes.View())
        invariant inodes.View() == FoundAll(old(inodes.View()), path, entries[..k])
        invariant AllNamed(inodes.View(), path, entries, reply)
      {
        FoundAllSnoc(old(inodes.View()), path, entries, k);
        ghost var before := inodes.View();
        FoundKeepsNamed(before, path, entries, reply, BuildPath(path, entries[k]));
        var ino := inodes.GetOrCreate(BuildPath(path, entries[k]));
        if k == room {
          FrontIsAtMost(entries, k);
          return;
        }
        NamedSnoc(inodes.View(), path, entries, reply, ino);
        reply := reply + [(ino, entries[k])];
      }
      assert entries[..|entries|] == entries;
    }

    method Mkdir(parent: nat, name: string, ok: bool, stat: Option<seq<int>>) returns (reply: Option<Attr>)
      requires Safe(View()) && NameOk(name)
      modifies inodes, cache
      ensures View() == Handle(old(View()), MakeDir(parent, name, ok, stat)) && Safe(View())
      ensures reply.Some? <==> ok && stat.Some? && parent in old(inodes.inoToPath)
      ensures reply.Some? ==> Names(reply.value.ino, old(inodes.View()), parent, name) && reply.value.meta == stat.value
    {
      HandleKeepsSafe(View(), MakeDir(parent, name, ok, stat));
      reply := None;
      if parent in inodes.inoToPath && ok {
        var path := BuildPath(inodes.inoToPath[parent], name);
        cache.InvalidateWithParent(path);
        if stat.Some? {
          var ino := inodes.GetOrCreate(path);
          reply := Some(Attr(ino, stat.value));
        }
      }
    }

    /** The reply is the inode and the file handle. */
    method Create(parent: nat, name: string, fd: Option<nat>) returns (reply: Option<(nat, nat)>)
      requires Safe(View()) && NameOk(name)
      modifies inodes, handles, cache
      ensures View() == Handle(old(View()), CreateFile(parent, name, fd)) && Safe(View())
      ensures reply.Some? <==> fd.Some? && parent in old(inodes.inoToPath)
      ensures reply.Some? ==> Names(reply.value.0, old(inodes.View()), parent, name)
      ensures reply.Some? ==> reply.value.1 !in old(handles.remote) && reply.value.1 in handles.remote
                              && fd == Some(handles.remote[reply.value.1])
    {
      HandleKeepsSafe(View(), CreateFile(parent, name, fd));
      if parent !in inodes.inoToPath || fd.None? {
        return None;
      }
      var path := BuildPath(inodes.inoToPath[parent], name);
      var ino := inodes.GetOrCreate(path);
      cache.InvalidateWithParent(path);
      var fh := handles.Allocate(fd.value);
      reply := Some((ino, fh));
    }

    /** unlink and rmdir */
    method Remove(parent: nat, name: string, ok: bool)
      requires Safe(View()) && NameOk(name)
      modifies inodes, cache
      ensures View() == Handle(old(View()), RemoveEntry(parent, name, ok)) && Safe(View())
    {
      HandleKeepsSafe(View(), RemoveEntry(parent, name, ok));
      if parent in inodes.inoToPath && ok {
        var path := BuildPath(inodes.inoToPath[parent], name);
        cache.InvalidateWithParent(path);
        inodes.Remove(path);
      }
    }

    method Rename(parent: nat, name: string, newParent: nat, newName: string, ok: bool)
      requires Safe(View()) && NameOk(name) && NameOk(newName)
      modifies inodes, cache
      ensures View() == Handle(old(View()), RenameEntry(parent, name, newParent, newName, ok)) && Safe(View())
    {
      HandleKeepsSafe(View(), RenameEntry(parent, name, newParent, newName, ok));
      if parent in inodes.inoToPath && newParent in inodes.inoToPath && ok {
        var from := BuildPath(inodes.inoToPath[parent], name);
        var to := BuildPath(inodes.inoToPath[newParent], newName);
        cache.InvalidateWithParent(from);
        cache.InvalidateWithParent(to);
        inodes.Rename(from, to);
      }
    }
  }
}
