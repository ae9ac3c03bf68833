/**
Copying a new release over the running system, with a backup per file
(pkg/upgrade/upgrade.go:452-556).

Where the copying fails is part of the environment of each single copy, on top
of the calls that the file system itself refuses.
*/
module UpgradeCopy {
  import opened Options
  import opened FileSystem

  /** What the walk finds in the new release. */
  datatype Tree =
    | Regular(content: string)
    | Symlink(target: Path)
    | Special
    | Dir(children: seq<Entry>)

  datatype Entry = Entry(name: string, tree: Tree)

  datatype Action =
    | MakeDir(path: Path)
    | WriteFile(path: Path, content: string)
    | MakeLink(path: Path, target: Path)

  datatype Download = Complete | Partial(content: string)

  /** The outcome of each command of one copy. */
  datatype Io = Io(
    backup: bool,         // the old file can be renamed
    creates: bool,        // the new file or directory can be created
    download: Download,
    restore: bool,        // the backup can be renamed back
    cleanup: bool,        // the backup can be removed
    unlink: bool,
    link: bool)

  const WORKING := Io(true, true, Complete, true, true, true, true)

  function Backup(p: Path): Path
    requires p != []
  {
    Parent(p) + [Name(p) + ".old"]
  }

  // ---------------------------------------------------------------- one copy

  function Received(content: string, io: Io): string {
    match io.download
    case Complete => content
    case Partial(part) => part
  }

  /** Opening the destination and downloading into it. */
  function Downloaded(disk: Disk, dst: Path, content: string, io: Io): (Disk, bool) {
    var made := Write(disk, dst, Received(content, io));
    if !io.creates || made.None? then (disk, false) else (made.value, io.download.Complete?)
  }

  function Cleaned(disk: Disk, dst: Path, io: Io): Disk
    requires dst != []
  {
    var d := Remove(disk, Backup(dst));
    if io.cleanup && d.Some? then d.value else disk
  }

  function Restored(disk: Disk, dst: Path, io: Io): Disk
    requires dst != []
  {
    var d := Rename(disk, Backup(dst), dst);
    if io.restore && d.Some? then d.value else disk
  }

  /** What is there is moved aside, and the backup dropped or restored at the end. */
  function Replaced(disk: Disk, dst: Path, content: string, io: Io): (Disk, bool)
    requires dst != []
  {
    var aside := Rename(disk, dst, Backup(dst));
    if !io.backup || aside.None? then (disk, false)
    else
      var (written, ok) := Downloaded(aside.value, dst, content, io);
      (if ok then Cleaned(written, dst, io) else Restored(written, dst, io), ok)
  }

  function FileCopied(disk: Disk, dst: Path, content: string, io: Io): (Disk, bool)
    requires dst != []
  {
    if Missing(disk, dst) then Downloaded(disk, dst, content, io) else Replaced(disk, dst, content, io)
  }

  /** What is there is removed, and there is no backup. */
  function LinkCopied(disk: Disk, dst: Path, target: Path, io: Io): (Disk, bool)
    requires dst != []
  {
    var place := Place(disk, dst);
    if place.None? then (disk, false)
    else
      var cleared :=
        if place.value !in disk then Some(disk) else if io.unlink then Remove(disk, dst) else None;
      if cleared.None? then (disk, false)
      else
        var made := FileSystem.Symlink(cleared.value, target, dst);
        if !io.link || made.None? then (cleared.value, false) else (made.value, true)
  }

  function DirMade(disk: Disk, path: Path, io: Io): (Disk, bool) {
    var made := MakeDirs(disk, path);
    if !io.creates || made.None? then (disk, false) else (made.value, true)
  }

  /** A file or link has a name; only a directory can be the root. */
  predicate Placed(a: Action) {
    a.MakeDir? || a.path != []
  }

  function Perform(disk: Disk, a: Action, io: Io): (Disk, bool)
    requires Placed(a)
  {
    match a
    case MakeDir(path) => DirMade(disk, path, io)
    case WriteFile(path, content) => FileCopied(disk, path, content, io)
    case MakeLink(path, target) => LinkCopied(disk, path, target, io)
  }

  /** The copies in the order of the walk, up to the first that fails. */
  function PerformAll(disk: Disk, actions: seq<Action>, ios: seq<Io>): (Disk, bool)
    requires |actions| == |ios| && forall i :: 0 <= i < |actions| ==> Placed(actions[i])
    decreases |actions|
  {
    if actions == [] then (disk, true)
    else
      var (after, ok) := Perform(disk, actions[0], ios[0]);
      if ok then PerformAll(after, actions[1..], ios[1..]) else (after, false)
  }

  // ---------------------------------------------------------------- the walk

  /** The copies of a walk from `base`; a skipped path is skipped with everything below it. */
  function Walk(t: Tree, base: Path, skip: set<Path>): seq<Action>
    decreases t, 1
  {
    if base in skip then []
    else
      match t
      case Regular(content) => [WriteFile(base, content)]
      case Symlink(target) => [MakeLink(base, target)]
      case Special => []
      case Dir(children) => [MakeDir(base)] + WalkAll(children, base, skip)
  }

  function WalkAll(children: seq<Entry>, base: Path, skip: set<Path>): seq<Action>
    decreases children, 0
  {
    if children == [] then []
    else Walk(children[0].tree, base + [children[0].name], skip) + WalkAll(children[1..], base, skip)
  }

  /** The release has that file, link or directory at `p`, at or below `base`, and no path on the way to it is skipped. */
  ghost predicate HasNode(t: Tree, base: Path, skip: set<Path>, p: Path, node: Node)
    decreases t
  {
    base !in skip &&
    match t
    case Regular(content) => p == base && node == File(content)
    case Symlink(target) => p == base && node == Link(target)
    case Special => false
    case Dir(children) =>
      || (p == base && node == Directory)
      || (exists i :: 0 <= i < |children| && HasNode(children[i].tree, base + [children[i].name], skip, p, node))
  }

  /** The copy that makes it. */
  function CopyOf(p: Path, node: Node): Action {
    match node
    case Directory => MakeDir(p)
    case File(content) => WriteFile(p, content)
    case Link(target) => MakeLink(p, target)
  }

  /** The walk makes exactly the files, links and directories of the release that are not skipped. */
  lemma {:induction false} WalkIsExact(t: Tree, base: Path, skip: set<Path>, p: Path, node: Node)
    ensures CopyOf(p, node) in Walk(t, base, skip) <==> HasNode(t, base, skip, p, node)
    decreases t, 1
  {
    if t.Dir? && base !in skip {
      WalkAllIsExact(t.children, base, skip, p, node);
    }
  }

  lemma {:induction false} WalkAllIsExact(children: seq<Entry>, base: Path, skip: set<Path>, p: Path, node: Node)
    ensures CopyOf(p, node) in WalkAll(children, base, skip) <==>
            exists i :: 0 <= i < |children| && HasNode(children[i].tree, base + [children[i].name], skip, p, node)
    decreases children, 0
  {
    if children != [] {
      WalkIsExact(children[0].tree, base + [children[0].name], skip, p, node);
      WalkAllIsExact(children[1..], base, skip, p, node);
      if i :| 0 <= i < |children| && HasNode(children[i].tree, base + [children[i].name], skip, p, node) {
        if i != 0 {
          assert children[1..][i - 1] == children[i];
        }
      }
    }
  }

  // ---------------------------------------------------------------- the upgrader

  lemma {:induction false} WalkBelow(t: Tree, base: Path, skip: set<Path>)
    ensures forall a :: a in Walk(t, base, skip) ==> base <= a.path
    decreases t, 1
  {
    if t.Dir? {
      WalkAllBelow(t.children, base, skip);
    }
  }

  /** The path goes through one of the children of the directory at `base`. */
  ghost predicate Through(base: Path, children: seq<Entry>, p: Path) {
    |base| < |p| && base == p[..|base|] && exists i :: 0 <= i < |children| && children[i].name == p[|base|]
  }

  lemma {:induction false} WalkAllBelow(children: seq<Entry>, base: Path, skip: set<Path>)
    ensures forall a :: a in WalkAll(children, base, skip) ==> Through(base, children, a.path)
    decreases children, 0
  {
    if children != [] {
      var inner := base + [children[0].name];
      WalkBelow(children[0].tree, inner, skip);
      WalkAllBelow(children[1..], base, skip);
      forall a | a in WalkAll(children, base, skip) ensures Through(base, children, a.path) {
        if a in Walk(children[0].tree, inner, skip) {
          assert a.path[..|base|] == inner[..|base|] == base;
          assert children[0].name == inner[|base|] == a.path[|base|];
        } else {
          var i :| 0 <= i < |children[1..]| && children[1..][i].name == a.path[|base|];
          assert children[i + 1].name == a.path[|base|];
        }
      }
    }
  }

  lemma {:induction false} PerformJoin(disk: Disk, a: seq<Action>, b: seq<Action>, x: seq<Io>, y: seq<Io>)
    requires |a| == |x| && |b| == |y|
    requires (forall i :: 0 <= i < |a| ==> Placed(a[i])) && (forall i :: 0 <= i < |b| ==> Placed(b[i]))
    ensures
      var (mid, ok) := PerformAll(disk, a, x);
      PerformAll(disk, a + b, x + y) == if ok then PerformAll(mid, b, y) else (mid, false)
    decreases |a|
  {
    if a == [] {
      assert a + b == b && x + y == y;
    } else {
      assert (a + b)[1..] == a[1..] + b && (x + y)[1..] == x[1..] + y;
      PerformJoin(Perform(disk, a[0], x[0]).0, a[1..], b, x[1..], y);
    }
  }

  lemma WalkPlaced(t: Tree, base: Path, skip: set<Path>)
    requires base != [] || t.Dir?
    ensures forall a :: a in Walk(t, base, skip) ==> Placed(a)
  {
    WalkBelow(t, base, skip);
    if t.Dir? {
      WalkAllBelow(t.children, base, skip);
    }
  }

  class Upgrader {
    var disk: Disk

    constructor (d: Disk)
      ensures disk == d
    {
      disk := d;
    }

    /** Both outcomes of the deferred clean-up, after the new content was tried. */
    method CopyFile(dst: Path, content: string, io: Io) returns (ok: bool)
      requires dst != []
      modifies this
      ensures (disk, ok) == FileCopied(old(disk), dst, content, io)
    {
      var isNew := Missing(disk, dst);
      if !isNew {
        var aside := Rename(disk, dst, Backup(dst));
        if !io.backup || aside.None? {
          return false;
        }
        disk := aside.value;
      }
      ok := false;
      var made := Write(disk, dst, Received(content, io));
      if io.creates && made.Some? {
        disk := made.value;
        ok := io.download.Complete?;
      }
      if !isNew {
        if ok {
          var removed := Remove(disk, Backup(dst));
          if io.cleanup && removed.Some? {
            disk := removed.value;
          }
        } else {
          var back := Rename(disk, Backup(dst), dst);
          if io.restore && back.Some? {
            disk := back.value;
          }
        }
      }
    }

    method CopyLink(dst: Path, target: Path, io: Io) returns (ok: bool)
      requires dst != []
      modifies this
      ensures (disk, ok) == LinkCopied(old(disk), dst, target, io)
    {
      var place := Place(disk, dst);
      if place.None? {
        return false;
      }
      if place.value in disk {
        var removed := Remove(disk, dst);
        if !io.unlink || removed.None? {
          return false;
        }
        disk := removed.value;
      }
      var made := FileSystem.Symlink(disk, target, dst);
      if !io.link || made.None? {
        return false;
      }
      disk := made.value;
      return true;
    }

    /** The walk of a release, copying as it goes. */
    method CopyRecursive(t: Tree, base: Path, skip: set<Path>, ios: seq<Io>) returns (ok: bool)
      requires (base != [] || t.Dir?) && |ios| == |Walk(t, base, skip)|
      modifies this
      ensures forall a :: a in Walk(t, base, skip) ==> Placed(a)
      ensures (disk, ok) == PerformAll(old(disk), Walk(t, base, skip), ios)
      decreases t, 1
    {
      WalkPlaced(t, base, skip);
      if base in skip {
        return true;
      }
      match t
      case Regular(content) =>
        ok := CopyFile(base, content, ios[0]);
      case Symlink(target) =>
        ok := CopyLink(base, target, ios[0]);
      case Special =>
        ok := true;
      case Dir(children) =>
        var made := MakeDirs(disk, base);
        if !ios[0].creates || made.None? {
          return false;
        }
        disk := made.value;
        ok := CopyChildren(children, base, skip, ios[1..]);
        assert Walk(t, base, skip)[1..] == WalkAll(children, base, skip);
    }

    method CopyChildren(children: seq<Entry>, base: Path, skip: set<Path>, ios: seq<Io>) returns (ok: bool)
      requires |ios| == |WalkAll(children, base, skip)|
      modifies this
      ensures forall a :: a in WalkAll(children, base, skip) ==> Placed(a)
      ensures (disk, ok) == PerformAll(old(disk), WalkAll(children, base, skip), ios)
      decreases children, 0
    {
      WalkAllBelow(children, base, skip);
      if children == [] {
        return true;
      }
      var (inner, tail) := (base + [children[0].name], children[1..]);
      var n := |Walk(children[0].tree, inner, skip)|;
      ok := CopyRecursive(children[0].tree, inner, skip, ios[..n]);
      WalkAllBelow(tail, base, skip);
      PerformJoin(old(disk), Walk(children[0].tree, inner, skip), WalkAll(tail, base, skip), ios[..n], ios[n..]);
      assert ios == ios[..n] + ios[n..];
      if ok {
        ok := CopyChildren(tail, base, skip, ios[n..]);
      }
    }
  }
}
