/**
When one copy leaves everything old or new, exactly: for every destination,
also one that is reached through links, and for every failure.
*/
module UpgradeExact {
  import opened Options
  import opened FileSystem
  import opened UpgradeCopy
  import opened UpgradeSteps

  /** Everything that was there is what it was, and the destination that or `node`. */
  ghost predicate OldOrNew(disk: Disk, after: Disk, dst: Path, node: Node) {
    forall p :: p in disk ==> p in after && (after[p] == disk[p] || (p == dst && after[p] == node))
  }

  // ---------------------------------------------------------------- through links

  /** The path leads to the directory `d`. */
  ghost predicate LeadsTo(disk: Disk, up: Path, d: Path) {
    Follow(disk, up) == Some(d) && IsDir(disk, d)
  }

  lemma PlaceThrough(disk: Disk, up: Path, d: Path, x: string)
    requires LeadsTo(disk, up, d)
    ensures Place(disk, up + [x]) == Some(d + [x])
  {
    assert Parent(up + [x]) == up && Name(up + [x]) == x;
  }

  lemma BackupBelow(d: Path, x: string)
    ensures Backup(d + [x]) == d + [x + ".old"]
  {
    assert Parent(d + [x]) == d && Name(d + [x]) == x;
  }

  /** The calls on a name and on its backup depend only on where their directory is. */
  lemma SameCalls(disk: Disk, up: Path, d: Path, x: string)
    requires LeadsTo(disk, up, d) && LeadsTo(disk, d, d)
    ensures Rename(disk, up + [x], Backup(up + [x])) == Rename(disk, d + [x], Backup(d + [x]))
    ensures Rename(disk, Backup(up + [x]), up + [x]) == Rename(disk, Backup(d + [x]), d + [x])
    ensures Remove(disk, Backup(up + [x])) == Remove(disk, Backup(d + [x]))
  {
    BackupBelow(up, x);
    BackupBelow(d, x);
    PlaceThrough(disk, up, d, x);
    PlaceThrough(disk, d, d, x);
    PlaceThrough(disk, up, d, x + ".old");
    PlaceThrough(disk, d, d, x + ".old");
  }

  lemma SameWrite(disk: Disk, up: Path, d: Path, x: string, content: string)
    requires LeadsTo(disk, up, d) && LeadsTo(disk, d, d) && d + [x] !in disk
    ensures Write(disk, up + [x], content) == Write(disk, d + [x], content)
  {
    ResolveThen(disk, [], up, MAX_LINKS, d, x);
    ResolveThen(disk, [], d, MAX_LINKS, d, x);
  }

  lemma DirLeadsToItself(disk: Disk, d: Path)
    requires IsDir(disk, d) && Solid(disk, d)
    ensures LeadsTo(disk, d, d)
  {
    FollowPlain(disk, d);
  }

  /** While the entry is aside, with or without a file in its place, its directory is where it was. */
  lemma StillLeads(disk: Disk, up: Path, d: Path, t: Path, aside: Disk, after: Disk)
    requires Shelvable(disk, t) && SetAside(disk, t, aside) && SameBut(aside, after, t)
    requires LeadsTo(disk, up, d) && Parent(t) == d && !Crosses(disk, [], up, MAX_LINKS, t)
    ensures LeadsTo(after, up, d) && LeadsTo(after, d, d)
  {
    AsideSolid(disk, t, aside, after);
    SolidParent(after, t);
    DirLeadsToItself(after, d);
    StillOutside(disk, t, aside, after);
    ResolveKeeps(disk, after, [], up, MAX_LINKS, t, Backup(t));
  }

  lemma StillOutside(disk: Disk, t: Path, aside: Disk, after: Disk)
    requires t != [] && t in disk && SetAside(disk, t, aside) && SameBut(aside, after, t)
    ensures SameOutside(disk, after, t, Backup(t))
  {
    assert t <= t;
  }

  lemma SameDownload(disk: Disk, up: Path, d: Path, x: string, content: string, io: Io)
    requires LeadsTo(disk, up, d) && LeadsTo(disk, d, d) && d + [x] !in disk
    ensures Downloaded(disk, up + [x], content, io) == Downloaded(disk, d + [x], content, io)
  {
    SameWrite(disk, up, d, x, Received(content, io));
  }

  lemma SameEnding(disk: Disk, up: Path, d: Path, x: string, io: Io)
    requires LeadsTo(disk, up, d) && LeadsTo(disk, d, d)
    ensures Cleaned(disk, up + [x], io) == Cleaned(disk, d + [x], io)
    ensures Restored(disk, up + [x], io) == Restored(disk, d + [x], io)
  {
    SameCalls(disk, up, d, x);
    EndsAlike(disk, up + [x], d + [x], io);
  }

  lemma EndsAlike(disk: Disk, p: Path, t: Path, io: Io)
    requires p != [] && t != [] && Rename(disk, Backup(p), p) == Rename(disk, Backup(t), t)
    requires Remove(disk, Backup(p)) == Remove(disk, Backup(t))
    ensures Cleaned(disk, p, io) == Cleaned(disk, t, io) && Restored(disk, p, io) == Restored(disk, t, io)
  {
  }

  /** The disk after the download, when the destination is free and its directory there. */
  lemma DownloadedIsSameBut(disk: Disk, t: Path, content: string, io: Io)
    requires t != [] && Solid(disk, t) && t !in disk && IsDir(disk, Parent(t))
    ensures SameBut(disk, Downloaded(disk, t, content, io).0, t)
  {
    DownloadFree(disk, t, content, io);
  }

  /** A copy to a path that leads elsewhere is a copy there, when the way does not lead over the destination. */
  lemma ReplacedThrough(disk: Disk, up: Path, d: Path, x: string, content: string, io: Io)
    requires Shelvable(disk, d + [x]) && LeadsTo(disk, up, d) && !Crosses(disk, [], up, MAX_LINKS, d + [x])
    ensures Replaced(disk, up + [x], content, io) == Replaced(disk, d + [x], content, io)
  {
    var t := d + [x];
    assert Parent(t) == d;
    var aside := Aside(disk, t);
    ThereIsSolid(disk, d);
    DirLeadsToItself(disk, d);
    SameCalls(disk, up, d, x);
    RenamedAside(disk, t);
    IsSetAside(disk, t);
    AsideIsGone(disk, t, aside, Directory);
    StillLeads(disk, up, d, t, aside, aside);
    SameDownload(aside, up, d, x, content, io);
    AsideSolid(disk, t, aside, aside);
    DownloadedIsSameBut(aside, t, content, io);
    var written := Downloaded(aside, t, content, io).0;
    StillLeads(disk, up, d, t, aside, written);
    SameEnding(written, up, d, x, io);
  }

  /** When the way leads over what is moved aside, nothing is written and nothing comes back. */
  lemma ReplacedCrossed(disk: Disk, up: Path, d: Path, x: string, content: string, io: Io)
    requires Shelvable(disk, d + [x]) && LeadsTo(disk, up, d) && Crosses(disk, [], up, MAX_LINKS, d + [x])
    ensures Replaced(disk, up + [x], content, io) == (if io.backup then Aside(disk, d + [x]) else disk, false)
  {
    var t := d + [x];
    assert Parent(t) == d;
    var aside := Aside(disk, t);
    ThereIsSolid(disk, d);
    DirLeadsToItself(disk, d);
    SameCalls(disk, up, d, x);
    RenamedAside(disk, t);
    IsSetAside(disk, t);
    ResolveLost(disk, aside, [], up, MAX_LINKS, t, Backup(t));
    LostAside(aside, up, x, Follow(aside, up).value, content, io);
  }

  lemma LostAside(disk: Disk, up: Path, x: string, r: Path, content: string, io: Io)
    requires Follow(disk, up) == Some(r) && r != [] && NothingAt(disk, r)
    ensures Downloaded(disk, up + [x], content, io) == (disk, false) && Restored(disk, up + [x], io) == disk
  {
    assert r <= r && r <= r + [x];
    ResolveThen(disk, [], up, MAX_LINKS, r, x);
    assert Parent(r + [x]) == r;
    BackupBelow(up, x);
    assert Parent(up + [x + ".old"]) == up;
  }

  // ---------------------------------------------------------------- files

  /** A file that holds `part` may replace what is at `t`: that is the same, or an entry of its own that is to go. */
  predicate Harmless(disk: Disk, dst: Path, t: Path, content: string, part: string)
    requires t in disk
  {
    disk[t] == File(part) || (t == dst && part == content && Empty(disk, t))
  }

  /**
   * The condition, before the copy to what is at `t`: nothing is moved; or what is received is harmless there; or
   * the copy does not go through and what was moved can be moved back, which a directory cannot over a begun file.
   */
  predicate KeptAt(disk: Disk, dst: Path, t: Path, content: string, io: Io)
    requires t in disk
  {
    || !io.backup
    || (io.creates && Harmless(disk, dst, t, content, Received(content, io)))
    || (!(io.creates && io.download.Complete?) && io.restore && !(io.creates && disk[t].Directory?))
  }

  /** What is in an entry, or below it, after the copy over it has gone through. */
  lemma GoneThrough(disk: Disk, t: Path, content: string, after: Disk)
    requires Shelvable(disk, t)
    requires
      var written := Aside(disk, t)[t := File(content)];
      after == written || after == written - {Backup(t)}
    ensures t in after && after[t] == File(content)
    ensures forall q :: q in disk && !(t <= q) ==> q in after && after[q] == disk[q]
    ensures forall q :: q in disk && t < q ==> q !in after
  {
    BackupIsOther(t);
    IsSetAside(disk, t);
    AbsentHoldsNothing(disk, Backup(t));
    forall q | q in disk && t < q ensures q !in after {
      assert t <= q && q != t;
    }
  }

  lemma CleanedAside(disk: Disk, t: Path, content: string, io: Io)
    requires Shelvable(disk, t)
    ensures
      var written := Aside(disk, t)[t := File(content)];
      Cleaned(written, t, io) == written || Cleaned(written, t, io) == written - {Backup(t)}
  {
    IsSetAside(disk, t);
    AsideSolid(disk, t, Aside(disk, t), Aside(disk, t)[t := File(content)]);
    CleanedOrNot(Aside(disk, t)[t := File(content)], t, io);
  }

  lemma WrittenKeptIff(disk: Disk, dst: Path, t: Path, content: string, part: string, after: Disk)
    requires Shelvable(disk, t) && (dst in disk ==> dst == t)
    requires
      var written := Aside(disk, t)[t := File(part)];
      after == written || after == written - {Backup(t)}
    ensures OldOrNew(disk, after, dst, File(content)) <==> Harmless(disk, dst, t, content, part)
  {
    GoneThrough(disk, t, part, after);
    if q :| q in disk && t < q {
      assert q !in after;
      AboveAreDirs(disk, q, |t|);
      assert q[..|t|] == t;
    } else {
      forall q | q in disk ensures q == t || !(t <= q) {
        assert t <= q && q != t ==> t < q;
      }
    }
  }

  lemma OutcomeKeptIff(disk: Disk, dst: Path, t: Path, content: string, io: Io)
    requires Shelvable(disk, t) && (dst in disk ==> dst == t)
    ensures OldOrNew(disk, Outcome(disk, t, content, io).0, dst, File(content)) <==> KeptAt(disk, dst, t, content, io)
  {
    if io.backup {
      if io.creates && io.download.Complete? {
        CleanedAside(disk, t, content, io);
        WrittenKeptIff(disk, dst, t, content, content, Outcome(disk, t, content, io).0);
      } else if !(io.restore && !(io.creates && disk[t].Directory?)) {
        LeftKeptIff(disk, dst, t, content, io);
      }
    }
  }

  /** A failed copy that is not undone: the part that was received stays, or nothing does. */
  lemma LeftKeptIff(disk: Disk, dst: Path, t: Path, content: string, io: Io)
    requires Shelvable(disk, t) && (dst in disk ==> dst == t)
    ensures
      var part := Received(content, io);
      var left := if io.creates then Aside(disk, t)[t := File(part)] else Aside(disk, t);
      OldOrNew(disk, left, dst, File(content)) <==> io.creates && Harmless(disk, dst, t, content, part)
  {
    var part := Received(content, io);
    if io.creates {
      WrittenKeptIff(disk, dst, t, content, part, Aside(disk, t)[t := File(part)]);
    } else {
      AsideIsLost(disk, dst, t, content);
    }
  }

  /** Where the entry of the destination is, when something is there. */
  predicate Occupied(disk: Disk, dst: Path)
    requires dst != []
  {
    Place(disk, dst).Some? && Place(disk, dst).value in disk
  }

  /** The exact condition of a copy: nothing is there to be moved, or what is there is kept. */
  predicate CopyKeeps(disk: Disk, dst: Path, content: string, io: Io)
    requires dst != []
  {
    || Missing(disk, dst)
    || !Occupied(disk, dst)
    || !io.backup
    || (var t := Place(disk, dst).value;
        !Crosses(disk, [], Parent(dst), MAX_LINKS, t) && KeptAt(disk, dst, t, content, io))
  }

  /** The name of the backup is free. */
  predicate BackupFree(disk: Disk, dst: Path)
    requires dst != []
  {
    Occupied(disk, dst) ==> Backup(Place(disk, dst).value) !in disk
  }

  lemma MissingIsKept(disk: Disk, dst: Path, content: string, io: Io)
    requires dst != [] && Missing(disk, dst)
    ensures OldOrNew(disk, FileCopied(disk, dst, content, io).0, dst, File(content))
  {
  }

  lemma NothingIsMoved(disk: Disk, dst: Path, content: string, io: Io)
    requires dst != [] && !Missing(disk, dst) && (!Occupied(disk, dst) || !io.backup)
    ensures FileCopied(disk, dst, content, io) == (disk, false)
  {
  }

  lemma OnDiskIsItsPlace(disk: Disk, dst: Path)
    requires WellFormed(disk) && dst in disk
    ensures Place(disk, dst) == Some(dst)
  {
    ThereIsSolid(disk, dst);
    PlaceSolid(disk, dst);
  }

  lemma AsideIsLost(disk: Disk, dst: Path, t: Path, content: string)
    requires Shelvable(disk, t) && (dst in disk ==> dst == t)
    ensures !OldOrNew(disk, Aside(disk, t), dst, File(content))
  {
    IsSetAside(disk, t);
    AsideIsGone(disk, t, Aside(disk, t), Directory);
  }

  /**
   * Old or new, exactly: for every destination and every failure, everything that was on the disk is afterwards
   * what it was or what the release makes of it, if and only if that condition holds before the copy.
   */
  lemma FileIsOldOrNewIff(disk: Disk, dst: Path, content: string, io: Io)
    requires WellFormed(disk) && dst != [] && BackupFree(disk, dst)
    ensures OldOrNew(disk, FileCopied(disk, dst, content, io).0, dst, File(content)) <==> CopyKeeps(disk, dst, content, io)
  {
    if Missing(disk, dst) {
      MissingIsKept(disk, dst, content, io);
    } else if !Occupied(disk, dst) || !io.backup {
      NothingIsMoved(disk, dst, content, io);
    } else {
      OccupiedIff(disk, dst, content, io);
    }
  }

  lemma OccupiedIff(disk: Disk, dst: Path, content: string, io: Io)
    requires WellFormed(disk) && dst != [] && BackupFree(disk, dst)
    requires !Missing(disk, dst) && Occupied(disk, dst) && io.backup
    ensures
      var t := Place(disk, dst).value;
      OldOrNew(disk, FileCopied(disk, dst, content, io).0, dst, File(content)) <==>
      !Crosses(disk, [], Parent(dst), MAX_LINKS, t) && KeptAt(disk, dst, t, content, io)
  {
    var (up, x, t) := (Parent(dst), Name(dst), Place(disk, dst).value);
    var d := Follow(disk, up).value;
    assert dst == up + [x] && t == d + [x];
    if dst in disk {
      OnDiskIsItsPlace(disk, dst);
    }
    if Crosses(disk, [], up, MAX_LINKS, t) {
      ReplacedCrossed(disk, up, d, x, content, io);
      AsideIsLost(disk, dst, t, content);
    } else {
      ReplacedThrough(disk, up, d, x, content, io);
      ReplacedOutcome(disk, t, content, io);
      OutcomeKeptIff(disk, dst, t, content, io);
    }
  }

  /** A file in a directory that links lead to: a copy through them is the copy into that directory. */
  lemma CopyGoesThroughLinks(disk: Disk, up: Path, d: Path, x: string, content: string, io: Io)
    requires Shelvable(disk, d + [x]) && disk[d + [x]].File? && LeadsTo(disk, up, d)
    ensures FileCopied(disk, up + [x], content, io) == FileCopied(disk, d + [x], content, io)
  {
    var t := d + [x];
    assert Parent(t) == d;
    ThereIsSolid(disk, t);
    FollowPlain(disk, t);
    ResolveThen(disk, [], up, MAX_LINKS, d, x);
    FileNotCrossed(disk, [], up, MAX_LINKS, t);
    ReplacedThrough(disk, up, d, x, content, io);
  }

  /**
   * A release that has a directory where the disk has links to one: the file that is there already is changed,
   * although it is no destination, exactly when the copy goes through or cannot be undone and other content
   * than the old is received.
   */
  lemma FileBehindLinksKeptIff(disk: Disk, up: Path, d: Path, x: string, content: string, io: Io)
    requires WellFormed(disk) && LeadsTo(disk, up, d) && up != d
    requires d + [x] in disk && disk[d + [x]].File? && disk[d + [x]] != File(content)
    requires Backup(d + [x]) !in disk
    ensures OldOrNew(disk, FileCopied(disk, up + [x], content, io).0, up + [x], File(content)) <==>
            || !io.backup
            || (!(io.creates && io.download.Complete?) && io.restore)
            || (io.creates && disk[d + [x]] == File(Received(content, io)))
  {
    var (dst, t) := (up + [x], d + [x]);
    PlaceThrough(disk, up, d, x);
    assert Name(dst) == x && Parent(dst) == up && Parent(t) == d && dst != t;
    ResolveThen(disk, [], up, MAX_LINKS, d, x);
    FileNotCrossed(disk, [], up, MAX_LINKS, t);
    FileIsOldOrNewIff(disk, dst, content, io);
  }

  // ---------------------------------------------------------------- links

  /** The exact condition of a link: nothing is removed, or the link can be made in its place. */
  predicate LinkKeeps(disk: Disk, dst: Path, target: Path, io: Io)
    requires dst != []
  {
    || !Occupied(disk, dst)
    || !io.unlink
    || (var t := Place(disk, dst).value;
        || (disk[t].Directory? && !Empty(disk, t))
        || (io.link && !Crosses(disk, [], Parent(dst), MAX_LINKS, t) && (t == dst || disk[t] == Link(target))))
  }

  lemma RemovedOutside(disk: Disk, t: Path)
    requires t != [] && t in disk && Empty(disk, t)
    ensures SameOutside(disk, disk - {t}, t, t) && NothingAt(disk - {t}, t)
  {
    forall p | p in disk - {t} ensures !(t <= p) {
      assert t <= p && p != t ==> t < p;
    }
  }

  /** Making the link where the old entry was, or failing because the way led over it. */
  lemma LinkedThrough(disk: Disk, up: Path, d: Path, x: string, target: Path)
    requires WellFormed(disk) && LeadsTo(disk, up, d) && d + [x] in disk && Empty(disk, d + [x])
    ensures FileSystem.Symlink(disk - {d + [x]}, target, up + [x]) ==
      if Crosses(disk, [], up, MAX_LINKS, d + [x]) then None else Some(disk[d + [x] := Link(target)])
  {
    var t := d + [x];
    var cleared := disk - {t};
    RemovedOutside(disk, t);
    assert Parent(up + [x]) == up && Name(up + [x]) == x;
    if Crosses(disk, [], up, MAX_LINKS, t) {
      ResolveLost(disk, cleared, [], up, MAX_LINKS, t, t);
      var r := Follow(cleared, up).value;
      assert r <= r && r !in cleared;
    } else {
      ResolveKeeps(disk, cleared, [], up, MAX_LINKS, t, t);
      assert cleared[t := Link(target)] == disk[t := Link(target)];
    }
  }

  lemma LinkOutcome(disk: Disk, up: Path, d: Path, x: string, target: Path, io: Io)
    requires WellFormed(disk) && LeadsTo(disk, up, d) && d + [x] in disk
    ensures
      var t := d + [x];
      LinkCopied(disk, up + [x], target, io).0 ==
      if !io.unlink || (disk[t].Directory? && !Empty(disk, t)) then disk
      else if io.link && !Crosses(disk, [], up, MAX_LINKS, t) then disk[t := Link(target)]
      else disk - {t}
  {
    var t := d + [x];
    PlaceThrough(disk, up, d, x);
    if io.unlink && !(disk[t].Directory? && !Empty(disk, t)) {
      if !disk[t].Directory? {
        LeafIsEmpty(disk, t);
      }
      LinkedThrough(disk, up, d, x, target);
    }
  }

  /** A link is not backed up: what it replaces is lost exactly when it is removed and cannot be replaced. */
  lemma LinkIsOldOrNewIff(disk: Disk, dst: Path, target: Path, io: Io)
    requires WellFormed(disk) && dst != []
    ensures OldOrNew(disk, LinkCopied(disk, dst, target, io).0, dst, Link(target)) <==> LinkKeeps(disk, dst, target, io)
  {
    if Occupied(disk, dst) {
      var (up, x, t) := (Parent(dst), Name(dst), Place(disk, dst).value);
      var d := Follow(disk, up).value;
      assert dst == up + [x] && t == d + [x];
      if dst in disk {
        OnDiskIsItsPlace(disk, dst);
      }
      LinkOutcome(disk, up, d, x, target, io);
      LinkKeptIff(disk, dst, t, target, LinkCopied(disk, dst, target, io).0);
    }
  }

  lemma LinkKeptIff(disk: Disk, dst: Path, t: Path, target: Path, after: Disk)
    requires t in disk && (dst in disk ==> dst == t)
    ensures after == disk - {t} ==> !OldOrNew(disk, after, dst, Link(target))
    ensures after == disk[t := Link(target)] ==>
              (OldOrNew(disk, after, dst, Link(target)) <==> t == dst || disk[t] == Link(target))
  {
  }
}
