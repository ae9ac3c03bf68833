/**
One copy, whatever is at its destination: what is moved aside, written, cleaned
up and moved back, and that a copy with only directories above its destination
changes the entries of the destination and of its backup and nothing else.
*/
module UpgradeSteps {
  import opened Options
  import opened FileSystem
  import opened UpgradeCopy

  lemma BackupIsOther(p: Path)
    requires p != []
    ensures Backup(p) != p && Parent(Backup(p)) == Parent(p) && |Backup(p)| == |p|
  {
    assert |Backup(p)[|p| - 1]| == |p[|p| - 1]| + 4;
  }

  lemma BackupSolid(disk: Disk, p: Path)
    requires p != [] && Solid(disk, p)
    ensures Solid(disk, Backup(p))
  {
    forall k | 0 < k < |p| && Backup(p)[..k] in disk ensures disk[Backup(p)[..k]].Directory? {
      assert Backup(p)[..k] == p[..k];
    }
  }

  // ---------------------------------------------------------------- moving aside

  /** There is something at `t`, and the name of its backup is free. */
  ghost predicate Shelvable(disk: Disk, t: Path) {
    WellFormed(disk) && t != [] && t in disk && Backup(t) !in disk
  }

  /** The disk with the entry, and all that is below it, under the name of its backup. */
  function Aside(disk: Disk, t: Path): Disk
    requires t != []
  {
    Moved(disk, t, Backup(t))
  }

  lemma BackupIsFree(disk: Disk, t: Path)
    requires Shelvable(disk, t)
    ensures Movable(disk, t, Backup(t))
  {
    BackupIsOther(t);
    AbsentHoldsNothing(disk, Backup(t));
  }

  /** Everything outside the entry stays, and nothing of it is left. */
  ghost predicate SetAside(disk: Disk, t: Path, aside: Disk)
    requires t != [] && t in disk
  {
    && SameOutside(disk, aside, t, Backup(t))
    && NothingAt(aside, t)
    && Backup(t) in aside && aside[Backup(t)] == disk[t]
  }

  lemma IsSetAside(disk: Disk, t: Path)
    requires Shelvable(disk, t)
    ensures SetAside(disk, t, Aside(disk, t))
  {
    BackupIsFree(disk, t);
    MovedOutside(disk, t, Backup(t));
  }

  lemma AsideIsGone(disk: Disk, t: Path, aside: Disk, node: Node)
    requires t != [] && t in disk && SetAside(disk, t, aside)
    ensures t !in aside && aside[t := node] - {t} == aside && aside - {t} == aside
  {
    assert t <= t;
  }

  lemma MovedHome(disk: Disk, t: Path)
    requires Shelvable(disk, t)
    ensures Moved(Aside(disk, t), Backup(t), t) == disk
  {
    BackupIsFree(disk, t);
    MovedBack(disk, t, Backup(t));
  }

  /** The disks are the same but for what is at `t`. */
  ghost predicate SameBut(aside: Disk, after: Disk, t: Path) {
    forall q :: q != t ==> (q in after <==> q in aside) && (q in aside ==> after[q] == aside[q])
  }

  /** With or without a file at the destination, the paths of both are still plain. */
  lemma AsideSolid(disk: Disk, t: Path, aside: Disk, after: Disk)
    requires Shelvable(disk, t) && SetAside(disk, t, aside) && SameBut(aside, after, t)
    ensures Solid(after, t) && Solid(after, Backup(t)) && IsDir(after, Parent(t))
  {
    BackupIsOther(t);
    ThereIsSolid(disk, t);
    forall k | 0 < k < |t| && t[..k] in after ensures after[t[..k]].Directory? {
      Shorter(disk, t, aside, after, t[..k]);
    }
    BackupSolid(after, t);
    Shorter(disk, t, aside, after, Parent(t));
  }

  lemma Shorter(disk: Disk, t: Path, aside: Disk, after: Disk, q: Path)
    requires t != [] && t in disk && SetAside(disk, t, aside) && SameBut(aside, after, t) && |q| < |t|
    ensures (q in after <==> q in disk) && (q in disk ==> after[q] == disk[q])
  {
    BackupIsOther(t);
  }

  lemma RenamedAside(disk: Disk, t: Path)
    requires Shelvable(disk, t)
    ensures Rename(disk, t, Backup(t)) == Some(Aside(disk, t))
  {
    BackupIsOther(t);
    ThereIsSolid(disk, t);
    BackupSolid(disk, t);
    RenameSolid(disk, t, Backup(t));
    assert disk - {Backup(t)} == disk;
  }

  // ---------------------------------------------------------------- writing

  lemma WriteFree(disk: Disk, dst: Path, content: string)
    requires dst != [] && Solid(disk, dst) && dst !in disk
    ensures Write(disk, dst, content) == if IsDir(disk, Parent(dst)) then Some(disk[dst := File(content)]) else None
  {
    FollowPlain(disk, dst);
  }

  lemma DownloadFree(disk: Disk, dst: Path, content: string, io: Io)
    requires dst != [] && Solid(disk, dst) && dst !in disk && IsDir(disk, Parent(dst))
    ensures Downloaded(disk, dst, content, io) ==
      if io.creates then (disk[dst := File(Received(content, io))], io.download.Complete?) else (disk, false)
  {
    WriteFree(disk, dst, Received(content, io));
  }

  // ---------------------------------------------------------------- moving back

  /** Without a begun file in the way, what was moved aside comes back. */
  lemma RestoredBare(disk: Disk, t: Path, aside: Disk, io: Io)
    requires Shelvable(disk, t) && SetAside(disk, t, aside) && Moved(aside, Backup(t), t) == disk
    ensures Restored(aside, t, io) == if io.restore then disk else aside
  {
    BackupIsOther(t);
    AsideSolid(disk, t, aside, aside);
    AsideIsGone(disk, t, aside, Directory);
    RenameSolid(aside, Backup(t), t);
  }

  /** Over a begun file everything but a directory comes back. */
  lemma RestoredOverFile(disk: Disk, t: Path, aside: Disk, part: string, io: Io)
    requires Shelvable(disk, t) && SetAside(disk, t, aside) && Moved(aside, Backup(t), t) == disk
    ensures
      var written := aside[t := File(part)];
      Restored(written, t, io) == if io.restore && !disk[t].Directory? then disk else written
  {
    BackupIsOther(t);
    AsideIsGone(disk, t, aside, File(part));
    AsideSolid(disk, t, aside, aside[t := File(part)]);
    RestoredOver(aside[t := File(part)], t, disk, io);
  }

  lemma RestoredOver(written: Disk, t: Path, home: Disk, io: Io)
    requires t != [] && Solid(written, t) && Solid(written, Backup(t)) && IsDir(written, Parent(t))
    requires t in written && written[t].File? && Backup(t) in written && Moved(written - {t}, Backup(t), t) == home
    ensures Restored(written, t, io) == if io.restore && !written[Backup(t)].Directory? then home else written
  {
    BackupIsOther(t);
    RenameSolid(written, Backup(t), t);
  }

  // ---------------------------------------------------------------- the whole copy

  /** The copy over what is at `t`, case by case. */
  function Outcome(disk: Disk, t: Path, content: string, io: Io): (Disk, bool)
    requires t != [] && t in disk
  {
    var aside := Aside(disk, t);
    var written := aside[t := File(Received(content, io))];
    if !io.backup then (disk, false)
    else if io.creates && io.download.Complete? then (Cleaned(written, t, io), true)
    else if io.restore && !(io.creates && disk[t].Directory?) then (disk, false)
    else (if io.creates then written else aside, false)
  }

  lemma ReplacedOutcome(disk: Disk, t: Path, content: string, io: Io)
    requires Shelvable(disk, t)
    ensures Replaced(disk, t, content, io) == Outcome(disk, t, content, io)
  {
    var aside := Aside(disk, t);
    RenamedAside(disk, t);
    IsSetAside(disk, t);
    MovedHome(disk, t);
    AsideSolid(disk, t, aside, aside);
    AsideIsGone(disk, t, aside, Directory);
    DownloadFree(aside, t, content, io);
    if io.creates {
      RestoredOverFile(disk, t, aside, Received(content, io), io);
    } else {
      RestoredBare(disk, t, aside, io);
    }
  }

  /** Cleaning up removes the backup or does nothing. */
  lemma CleanedOrNot(disk: Disk, t: Path, io: Io)
    requires t != [] && Solid(disk, Backup(t))
    ensures Cleaned(disk, t, io) == disk || Cleaned(disk, t, io) == disk - {Backup(t)}
  {
    PlaceSolid(disk, Backup(t));
  }

  lemma CleanedLeaf(disk: Disk, t: Path, io: Io)
    requires t != [] && Solid(disk, Backup(t)) && IsDir(disk, Parent(t))
    requires Backup(t) in disk && !disk[Backup(t)].Directory?
    ensures Cleaned(disk, t, io) == if io.cleanup then disk - {Backup(t)} else disk
  {
    BackupIsOther(t);
    PlaceSolid(disk, Backup(t));
  }

  // ---------------------------------------------------------------- copies with nothing in the way

  /** Only directories are above the destination, and it is none itself. */
  ghost predicate Ready(disk: Disk, dst: Path) {
    && dst != [] && WellFormed(disk) && Solid(disk, dst) && Backup(dst) !in disk
    && (dst in disk ==> !disk[dst].Directory?)
  }

  /** A link at the destination does not lead to where nothing is. */
  ghost predicate Anchored(disk: Disk, dst: Path) {
    dst in disk ==> !Missing(disk, dst)
  }

  /** The disk with the entry alone moved aside. */
  function EntryAside(disk: Disk, dst: Path): Disk
    requires dst != [] && dst in disk
  {
    (disk - {dst})[Backup(dst) := disk[dst]]
  }

  /** The same copy when only the entries of the destination and of its backup take part. */
  function FlatFile(disk: Disk, dst: Path, content: string, io: Io): (Disk, bool)
    requires dst != []
  {
    if dst in disk then FlatOver(disk, dst, content, io) else FlatNew(disk, dst, content, io)
  }

  function FlatNew(disk: Disk, dst: Path, content: string, io: Io): (Disk, bool)
    requires dst != []
  {
    if !io.creates || !IsDir(disk, Parent(dst)) then (disk, false)
    else (disk[dst := File(Received(content, io))], io.download.Complete?)
  }

  function FlatOver(disk: Disk, dst: Path, content: string, io: Io): (Disk, bool)
    requires dst != [] && dst in disk
  {
    var written := File(Received(content, io));
    if !io.backup then (disk, false)
    else if io.creates && io.download.Complete? then
      (if io.cleanup then disk[dst := written] else EntryAside(disk, dst)[dst := written], true)
    else if io.restore then (disk, false)
    else (if io.creates then EntryAside(disk, dst)[dst := written] else EntryAside(disk, dst), false)
  }

  function FlatLink(disk: Disk, dst: Path, target: Path, io: Io): (Disk, bool)
    requires dst != []
  {
    if !IsDir(disk, Parent(dst)) || (dst in disk && !io.unlink) then (disk, false)
    else if !io.link then (disk - {dst}, false)
    else (disk[dst := Link(target)], true)
  }

  lemma LeafAside(disk: Disk, dst: Path)
    requires Ready(disk, dst) && dst in disk
    ensures Aside(disk, dst) == EntryAside(disk, dst)
  {
    BackupIsOther(dst);
    LeafIsEmpty(disk, dst);
    LeafIsEmpty(disk, Backup(dst));
    MovedLeaf(disk, dst, Backup(dst));
  }

  lemma NewFileIsFlat(disk: Disk, dst: Path, content: string, io: Io)
    requires Ready(disk, dst) && dst !in disk
    ensures FileCopied(disk, dst, content, io) == FlatNew(disk, dst, content, io)
  {
    FollowPlain(disk, dst);
    WriteFree(disk, dst, Received(content, io));
  }

  lemma CleanedFlat(disk: Disk, dst: Path, node: Node, io: Io)
    requires Ready(disk, dst) && dst in disk
    ensures Cleaned(EntryAside(disk, dst)[dst := node], dst, io) ==
      if io.cleanup then disk[dst := node] else EntryAside(disk, dst)[dst := node]
  {
    LeafAside(disk, dst);
    IsSetAside(disk, dst);
    AsideSolid(disk, dst, EntryAside(disk, dst), EntryAside(disk, dst)[dst := node]);
    BackupIsOther(dst);
    CleanedLeaf(EntryAside(disk, dst)[dst := node], dst, io);
    BackupTaken(disk, dst, node);
  }

  lemma BackupTaken(disk: Disk, dst: Path, node: Node)
    requires dst != [] && dst in disk && Backup(dst) !in disk
    ensures EntryAside(disk, dst)[dst := node] - {Backup(dst)} == disk[dst := node]
  {
    BackupIsOther(dst);
  }

  lemma OldFileIsFlat(disk: Disk, dst: Path, content: string, io: Io)
    requires Ready(disk, dst) && dst in disk && !Missing(disk, dst)
    ensures FileCopied(disk, dst, content, io) == FlatOver(disk, dst, content, io)
  {
    ReplacedOutcome(disk, dst, content, io);
    LeafAside(disk, dst);
    CleanedFlat(disk, dst, File(Received(content, io)), io);
  }

  lemma FileIsFlat(disk: Disk, dst: Path, content: string, io: Io)
    requires Ready(disk, dst) && Anchored(disk, dst)
    ensures FileCopied(disk, dst, content, io) == FlatFile(disk, dst, content, io)
  {
    if dst in disk {
      OldFileIsFlat(disk, dst, content, io);
    } else {
      NewFileIsFlat(disk, dst, content, io);
    }
  }

  // ---------------------------------------------------------------- links

  /** A link made where nothing is. */
  lemma LinkMade(disk: Disk, dst: Path, target: Path)
    requires dst != [] && Solid(disk, dst) && dst !in disk && IsDir(disk, Parent(dst))
    ensures FileSystem.Symlink(disk, target, dst) == Some(disk[dst := Link(target)])
  {
    PlaceSolid(disk, dst);
  }

  lemma WithoutIsSolid(disk: Disk, dst: Path)
    requires dst != [] && Solid(disk, dst)
    ensures Solid(disk - {dst}, dst) && (IsDir(disk, Parent(dst)) ==> IsDir(disk - {dst}, Parent(dst)))
  {
    assert |Parent(dst)| < |dst|;
    forall k | 0 < k < |dst| && dst[..k] in disk - {dst} ensures (disk - {dst})[dst[..k]].Directory? {
    }
  }

  lemma NewLinkIsFlat(disk: Disk, dst: Path, target: Path, io: Io)
    requires dst != [] && Solid(disk, dst) && dst !in disk
    ensures LinkCopied(disk, dst, target, io) == FlatLink(disk, dst, target, io)
  {
    PlaceSolid(disk, dst);
    if IsDir(disk, Parent(dst)) {
      LinkMade(disk, dst, target);
      assert disk - {dst} == disk;
    }
  }

  /** What a link replaces is removed first, unless it is a directory that holds something. */
  lemma OldLinkIsFlat(disk: Disk, dst: Path, target: Path, io: Io)
    requires dst != [] && WellFormed(disk) && dst in disk
    ensures LinkCopied(disk, dst, target, io) ==
      if disk[dst].Directory? && !Empty(disk, dst) then (disk, false) else FlatLink(disk, dst, target, io)
  {
    ThereIsSolid(disk, dst);
    PlaceSolid(disk, dst);
    if io.unlink && !(disk[dst].Directory? && !Empty(disk, dst)) {
      assert Remove(disk, dst) == Some(disk - {dst});
      WithoutIsSolid(disk, dst);
      LinkMade(disk - {dst}, dst, target);
      assert (disk - {dst})[dst := Link(target)] == disk[dst := Link(target)];
    }
  }

  lemma LinkIsFlat(disk: Disk, dst: Path, target: Path, io: Io)
    requires Ready(disk, dst)
    ensures LinkCopied(disk, dst, target, io) == FlatLink(disk, dst, target, io)
  {
    if dst in disk {
      OldLinkIsFlat(disk, dst, target, io);
    } else {
      NewLinkIsFlat(disk, dst, target, io);
    }
  }
}
