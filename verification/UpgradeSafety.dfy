/** Whole upgrades: from the tree of a release to what is on the disk afterwards. */
module UpgradeSafety {
  import opened FileSystem
  import opened UpgradeCopy
  import opened UpgradeSteps

  // ---------------------------------------------------------------- what a copy needs and does

  ghost predicate DirFits(disk: Disk, p: Path) {
    forall k :: 0 < k <= |p| && p[..k] in disk ==> disk[p[..k]].Directory?
  }

  /**
   * A copy fits onto a disk: what is on the way to its destination is a directory, and the destination is
   * a directory exactly when the copy makes one.
   */
  ghost predicate Fits(disk: Disk, a: Action) {
    match a
    case MakeDir(p) => DirFits(disk, p)
    case WriteFile(p, _) => Ready(disk, p) && Anchored(disk, p)
    case MakeLink(p, _) => Ready(disk, p)
  }

  /** The links that a file is copied over lead along a path at which the release puts a link of its own. */
  ghost predicate Undermines(disk: Disk, a: Action, b: Action) {
    a.MakeLink? && b.WriteFile? && b.path in disk && Crosses(disk, [], b.path, MAX_LINKS, a.path)
  }

  ghost predicate Suits(disk: Disk, actions: seq<Action>) {
    && WellFormed(disk)
    && (forall i :: 0 <= i < |actions| ==> Fits(disk, actions[i]))
    && (forall i, j :: 0 <= i < |actions| && 0 <= j < |actions| ==> !Undermines(disk, actions[i], actions[j]))
  }

  /** No copy is at, above, or at the backup of the destination of another, unless it makes a directory. */
  ghost predicate Apart(a: Action, b: Action) {
    && Placed(a) && Placed(b) && a.path != b.path
    && (!a.MakeDir? ==> !(a.path <= b.path) && !(Backup(a.path) <= b.path))
    && (!b.MakeDir? ==> !(b.path <= a.path) && !(Backup(b.path) <= a.path))
  }

  ghost predicate AllApart(actions: seq<Action>) {
    && (forall i :: 0 <= i < |actions| ==> Placed(actions[i]))
    && (forall i, j :: 0 <= i < j < |actions| ==> Apart(actions[i], actions[j]))
  }

  ghost predicate NoCollisions(disk: Disk, actions: seq<Action>) {
    AllApart(actions) && Suits(disk, actions)
  }

  /** The disk has gained directories at or above `p`, and nothing else. */
  ghost predicate Grown(disk: Disk, after: Disk, p: Path) {
    && WellFormed(after)
    && (forall q :: q in disk ==> q in after && after[q] == disk[q])
    && (forall q :: q in after && q !in disk ==> q <= p && after[q].Directory?)
  }

  lemma {:induction false} DirsMade(disk: Disk, p: Path)
    requires WellFormed(disk) && DirFits(disk, p)
    ensures MakeDirs(disk, p).Some? && Grown(disk, MakeDirs(disk, p).value, p) && IsDir(MakeDirs(disk, p).value, p)
    decreases |p|
  {
    if p != [] {
      assert p[..|p|] == p;
      FollowPlain(disk, p);
      if p !in disk {
        var up := Parent(p);
        forall k | 0 < k <= |up| && up[..k] in disk ensures disk[up[..k]].Directory? {
          assert up[..k] == p[..k];
        }
        DirsMade(disk, up);
        var made := MakeDirs(disk, up).value;
        DirSolid(disk, made, p);
        PlaceSolid(made, p);
        assert p !in made;
        AddedDir(disk, made, p);
      }
    }
  }

  lemma DirSolid(disk: Disk, made: Disk, p: Path)
    requires p != [] && DirFits(disk, p) && Grown(disk, made, Parent(p))
    ensures Solid(made, p)
  {
    forall k | 0 < k < |p| && p[..k] in made ensures made[p[..k]].Directory? {
      assert p[..k] in disk ==> disk[p[..k]].Directory?;
    }
  }

  lemma AddedDir(disk: Disk, made: Disk, p: Path)
    requires p != [] && Grown(disk, made, Parent(p)) && IsDir(made, Parent(p)) && p !in made
    ensures Grown(disk, made[p := Directory], p)
  {
    var after := made[p := Directory];
    forall q | q in after ensures q != [] && IsDir(after, Parent(q)) {
    }
    forall q | q in after && q !in disk ensures q <= p && after[q].Directory? {
      if q != p {
        assert q <= Parent(p);
      }
    }
  }

  /** Only the destination and its backup are touched by the copy of a file or link. */
  ghost predicate Touches(disk: Disk, after: Disk, dst: Path)
    requires dst != []
  {
    forall q :: q != dst && q != Backup(dst) ==> (q in after <==> q in disk) && (q in disk ==> after[q] == disk[q])
  }

  lemma FlatTouches(disk: Disk, a: Action, io: Io)
    requires !a.MakeDir? && Placed(a) && Fits(disk, a)
    ensures Touches(disk, Perform(disk, a, io).0, a.path)
  {
    PerformsFlat(disk, a, io);
    if a.WriteFile? {
      FileTouches(disk, a.path, a.content, io);
    } else {
      LinkTouches(disk, a.path, a.target, io);
    }
  }

  lemma LinkTouches(disk: Disk, dst: Path, target: Path, io: Io)
    requires dst != []
    ensures Touches(disk, FlatLink(disk, dst, target, io).0, dst)
  {
  }

  lemma FileTouches(disk: Disk, dst: Path, content: string, io: Io)
    requires dst != []
    ensures Touches(disk, FlatFile(disk, dst, content, io).0, dst)
  {
    if dst in disk {
      OverTouches(disk, dst, content, io);
    }
  }

  lemma OverTouches(disk: Disk, dst: Path, content: string, io: Io)
    requires dst != [] && dst in disk
    ensures Touches(disk, FlatOver(disk, dst, content, io).0, dst)
  {
    TouchesAside(disk, dst);
    TouchesAt(disk, dst, File(Received(content, io)));
    TouchesAt(EntryAside(disk, dst), dst, File(Received(content, io)));
  }

  lemma TouchesAside(disk: Disk, dst: Path)
    requires dst != [] && dst in disk
    ensures Touches(disk, EntryAside(disk, dst), dst)
  {
  }

  lemma PerformsFlat(disk: Disk, a: Action, io: Io)
    requires !a.MakeDir? && Placed(a) && Fits(disk, a)
    ensures Perform(disk, a, io) ==
      if a.WriteFile? then FlatFile(disk, a.path, a.content, io) else FlatLink(disk, a.path, a.target, io)
  {
    if a.WriteFile? {
      FileIsFlat(disk, a.path, a.content, io);
    } else {
      LinkIsFlat(disk, a.path, a.target, io);
    }
  }

  lemma PerformsDir(disk: Disk, a: Action, io: Io)
    requires a.MakeDir? && WellFormed(disk) && Fits(disk, a)
    ensures Grown(disk, Perform(disk, a, io).0, a.path)
  {
    DirsMade(disk, a.path);
  }

  /** Everything that was there, the destination aside, is there afterwards. */
  lemma PerformFrame(disk: Disk, a: Action, io: Io, p: Path)
    requires Placed(a) && WellFormed(disk) && Fits(disk, a) && p in disk && (a.MakeDir? || p != a.path)
    ensures p in Perform(disk, a, io).0 && Perform(disk, a, io).0[p] == disk[p]
  {
    if a.MakeDir? {
      PerformsDir(disk, a, io);
    } else {
      FlatTouches(disk, a, io);
    }
  }

  // ---------------------------------------------------------------- after a copy the rest still fits

  function Result(a: Action): Node {
    match a
    case MakeDir(_) => Directory
    case WriteFile(_, content) => File(content)
    case MakeLink(_, target) => Link(target)
  }

  /** What a successful copy of a file or link leaves behind. */
  ghost predicate Installed(disk: Disk, after: Disk, a: Action)
    requires Placed(a) && !a.MakeDir?
  {
    && Touches(disk, after, a.path)
    && a.path in after && after[a.path] == Result(a) && IsDir(disk, Parent(a.path))
    && (Backup(a.path) in after ==> !after[Backup(a.path)].Directory?)
  }

  lemma Installs(disk: Disk, a: Action, io: Io)
    requires !a.MakeDir? && Placed(a) && Fits(disk, a) && Perform(disk, a, io).1
    ensures Installed(disk, Perform(disk, a, io).0, a)
    ensures io.cleanup ==> Backup(a.path) !in Perform(disk, a, io).0
  {
    PerformsFlat(disk, a, io);
    if a.WriteFile? {
      InstallsFile(disk, a, io);
    } else {
      InstallsLink(disk, a, io);
    }
  }

  lemma InstallsFile(disk: Disk, a: Action, io: Io)
    requires a.WriteFile? && Ready(disk, a.path) && FlatFile(disk, a.path, a.content, io).1
    ensures
      var after := FlatFile(disk, a.path, a.content, io).0;
      Installed(disk, after, a) && (io.cleanup ==> Backup(a.path) !in after)
  {
    BackupIsOther(a.path);
    FileTouches(disk, a.path, a.content, io);
    if a.path in disk {
      InstallsOver(disk, a, io);
    }
  }

  lemma InstallsOver(disk: Disk, a: Action, io: Io)
    requires a.WriteFile? && Ready(disk, a.path) && a.path in disk && FlatOver(disk, a.path, a.content, io).1
    ensures
      var after := FlatOver(disk, a.path, a.content, io).0;
      && a.path in after && after[a.path] == Result(a)
      && (Backup(a.path) in after ==> !io.cleanup && after[Backup(a.path)] == disk[a.path])
  {
    BackupIsOther(a.path);
  }

  lemma InstallsLink(disk: Disk, a: Action, io: Io)
    requires a.MakeLink? && Ready(disk, a.path) && FlatLink(disk, a.path, a.target, io).1
    ensures
      var after := FlatLink(disk, a.path, a.target, io).0;
      Installed(disk, after, a) && Backup(a.path) !in after
  {
    BackupIsOther(a.path);
    TouchesAt(disk, a.path, Link(a.target));
  }

  lemma TouchesAt(disk: Disk, dst: Path, node: Node)
    requires dst != []
    ensures Touches(disk, disk[dst := node], dst)
  {
  }

  lemma InstalledWellFormed(disk: Disk, after: Disk, a: Action)
    requires Placed(a) && !a.MakeDir? && Ready(disk, a.path) && Installed(disk, after, a)
    ensures WellFormed(after)
  {
    BackupIsOther(a.path);
    DirsStay(disk, after, a.path, Parent(a.path));
    forall q | q in after ensures q != [] && IsDir(after, Parent(q)) {
      if q != a.path && q != Backup(a.path) {
        assert q in disk;
        DirsStay(disk, after, a.path, Parent(q));
      }
    }
  }

  lemma DirsStay(disk: Disk, after: Disk, dst: Path, d: Path)
    requires dst != [] && (dst in disk ==> !disk[dst].Directory?) && Backup(dst) !in disk
    requires Touches(disk, after, dst) && IsDir(disk, d)
    ensures IsDir(after, d)
  {
  }

  lemma BackupInjective(p: Path, q: Path)
    requires p != [] && q != [] && Backup(p) == Backup(q)
    ensures p == q
  {
    var (a, b) := (Name(p), Name(q));
    BackupIsOther(p);
    BackupIsOther(q);
    assert a + ".old" == Name(Backup(p)) == b + ".old";
    assert a == (a + ".old")[..|a + ".old"| - 4] && b == (b + ".old")[..|b + ".old"| - 4];
    assert p == Parent(p) + [a] && q == Parent(q) + [b];
  }

  lemma StillReady(disk: Disk, after: Disk, a: Action, p: Path)
    requires Placed(a) && !a.MakeDir? && Fits(disk, a) && Installed(disk, after, a) && Ready(disk, p)
    requires p != a.path && !(a.path <= p) && !(Backup(a.path) <= p) && !(p <= a.path) && !(Backup(p) <= a.path)
    ensures Ready(after, p)
  {
    InstalledWellFormed(disk, after, a);
    forall k | 0 < k < |p| && p[..k] in after ensures after[p[..k]].Directory? {
      assert p[..k] <= p;
      assert p[..k] != a.path && p[..k] != Backup(a.path);
    }
    if Backup(p) == Backup(a.path) {
      BackupInjective(p, a.path);
    }
    assert p != Backup(a.path);
  }

  lemma StillReadyDir(disk: Disk, after: Disk, d: Path, p: Path)
    requires Grown(disk, after, d) && Ready(disk, p) && !(p <= d) && !(Backup(p) <= d)
    ensures Ready(after, p)
  {
    forall k | 0 < k < |p| && p[..k] in after ensures after[p[..k]].Directory? {
      assert p[..k] in disk ==> disk[p[..k]].Directory?;
    }
  }

  lemma StillFits(disk: Disk, a: Action, b: Action, io: Io)
    requires WellFormed(disk) && Fits(disk, a) && Fits(disk, b) && Apart(a, b) && !Undermines(disk, a, b)
    requires Perform(disk, a, io).1
    ensures Fits(Perform(disk, a, io).0, b)
  {
    if a.MakeDir? {
      PerformsDir(disk, a, io);
      FitsGrown(disk, Perform(disk, a, io).0, a, b);
    } else {
      Installs(disk, a, io);
      FitsInstalled(disk, Perform(disk, a, io).0, a, b);
    }
  }

  lemma FitsGrown(disk: Disk, after: Disk, a: Action, b: Action)
    requires a.MakeDir? && Fits(disk, b) && Apart(a, b) && Grown(disk, after, a.path)
    ensures Fits(after, b)
  {
    if b.MakeDir? {
      DirFitsGrown(disk, after, a.path, b.path);
    } else {
      StillReadyDir(disk, after, a.path, b.path);
      if b.WriteFile? && b.path in disk {
        RootNotCrossed(disk, [], b.path, MAX_LINKS);
        StillFound(disk, after, [], [], b.path, MAX_LINKS, []);
      }
    }
  }

  lemma FitsInstalled(disk: Disk, after: Disk, a: Action, b: Action)
    requires !a.MakeDir? && Fits(disk, a) && Fits(disk, b) && Apart(a, b) && !Undermines(disk, a, b)
    requires Installed(disk, after, a)
    ensures Fits(after, b)
  {
    if b.MakeDir? {
      DirFitsInstalled(disk, after, a, b.path);
    } else {
      StillReady(disk, after, a, b.path);
      if b.WriteFile? {
        StillAnchored(disk, after, a, b.path);
      }
    }
  }

  lemma StillAnchored(disk: Disk, after: Disk, a: Action, p: Path)
    requires Placed(a) && !a.MakeDir? && Ready(disk, a.path) && Installed(disk, after, a) && Anchored(disk, p)
    requires p != a.path && p != Backup(a.path)
    requires a.MakeLink? && p in disk ==> !Crosses(disk, [], p, MAX_LINKS, a.path)
    ensures Anchored(after, p)
  {
    if p in disk {
      InstalledKeeps(disk, after, a);
      StillFound(disk, after, a.path, [], p, MAX_LINKS, []);
    }
  }

  lemma InstalledKeeps(disk: Disk, after: Disk, a: Action)
    requires Placed(a) && !a.MakeDir? && Ready(disk, a.path) && Installed(disk, after, a)
    ensures forall q :: q in disk ==> q in after && (q != a.path ==> after[q] == disk[q])
  {
  }

  lemma DirFitsGrown(disk: Disk, after: Disk, d: Path, p: Path)
    requires Grown(disk, after, d) && DirFits(disk, p)
    ensures DirFits(after, p)
  {
    forall k | 0 < k <= |p| && p[..k] in after ensures after[p[..k]].Directory? {
      assert p[..k] in disk ==> disk[p[..k]].Directory?;
    }
  }

  lemma DirFitsInstalled(disk: Disk, after: Disk, a: Action, p: Path)
    requires Placed(a) && !a.MakeDir? && Touches(disk, after, a.path) && DirFits(disk, p)
    requires !(a.path <= p) && !(Backup(a.path) <= p)
    ensures DirFits(after, p)
  {
    forall k | 0 < k <= |p| && p[..k] in after ensures after[p[..k]].Directory? {
      assert p[..k] <= p;
      assert p[..k] != a.path && p[..k] != Backup(a.path);
    }
  }

  lemma StillSafe(disk: Disk, a: Action, b: Action, c: Action, io: Io)
    requires Placed(a) && WellFormed(disk) && Fits(disk, a) && c.WriteFile? && Fits(disk, c) && Apart(a, c)
    requires !Undermines(disk, b, c) && !Undermines(disk, a, c) && Perform(disk, a, io).1
    ensures !Undermines(Perform(disk, a, io).0, b, c)
  {
    var after := Perform(disk, a, io).0;
    if a.MakeDir? {
      PerformsDir(disk, a, io);
      if c.path in disk {
        RootNotCrossed(disk, [], c.path, MAX_LINKS);
        StillFound(disk, after, [], [], c.path, MAX_LINKS, b.path);
      }
    } else {
      Installs(disk, a, io);
      if c.path in disk {
        InstalledKeeps(disk, after, a);
        StillFound(disk, after, a.path, [], c.path, MAX_LINKS, b.path);
      }
    }
  }

  lemma NoCollisionsRest(disk: Disk, actions: seq<Action>, io: Io)
    requires actions != [] && NoCollisions(disk, actions) && Perform(disk, actions[0], io).1
    ensures NoCollisions(Perform(disk, actions[0], io).0, actions[1..])
  {
    var (a, rest, after) := (actions[0], actions[1..], Perform(disk, actions[0], io).0);
    if a.MakeDir? {
      PerformsDir(disk, a, io);
    } else {
      Installs(disk, a, io);
      InstalledWellFormed(disk, after, a);
    }
    forall i | 0 <= i < |rest| ensures Fits(after, rest[i]) {
      assert rest[i] == actions[i + 1] && Apart(a, actions[i + 1]);
      assert !Undermines(disk, actions[0], actions[i + 1]);
      StillFits(disk, a, rest[i], io);
    }
    forall i, j | 0 <= i < |rest| && 0 <= j < |rest| ensures !Undermines(after, rest[i], rest[j]) {
      assert rest[i] == actions[i + 1] && rest[j] == actions[j + 1] && Apart(a, actions[j + 1]);
      assert !Undermines(disk, actions[i + 1], actions[j + 1]);
      assert !Undermines(disk, actions[0], actions[j + 1]);
      if rest[j].WriteFile? {
        StillSafe(disk, a, rest[i], rest[j], io);
      }
    }
    ApartRest(actions);
  }

  lemma ApartRest(actions: seq<Action>)
    requires actions != [] && AllApart(actions)
    ensures AllApart(actions[1..])
  {
    forall i, j | 0 <= i < j < |actions[1..]| ensures Apart(actions[1..][i], actions[1..][j]) {
      assert Apart(actions[i + 1], actions[j + 1]);
    }
  }

  // ---------------------------------------------------------------- every failure point

  /** Some copy of the release writes `node` to `p`. */
  ghost predicate Written(actions: seq<Action>, p: Path, node: Node) {
    exists i :: 0 <= i < |actions| && actions[i].path == p && node == Result(actions[i])
  }

  /** In the copies to `p`, the backup can be moved back, and a link that was removed can be made. */
  ghost predicate Recoverable(actions: seq<Action>, ios: seq<Io>, p: Path)
    requires |actions| == |ios|
  {
    forall i :: 0 <= i < |ios| && actions[i].path == p ==> ios[i].restore && (ios[i].unlink ==> ios[i].link)
  }

  lemma PerformOldOrNew(disk: Disk, a: Action, io: Io)
    requires !a.MakeDir? && Placed(a) && WellFormed(disk) && Fits(disk, a) && a.path in disk
    requires io.restore && (io.unlink ==> io.link)
    ensures
      var after := Perform(disk, a, io).0;
      a.path in after && (after[a.path] == disk[a.path] || after[a.path] == Result(a))
  {
    BackupIsOther(a.path);
    PerformsFlat(disk, a, io);
  }

  /**
   * The upgrade is old-or-new: for every release that fits and wherever the copying fails, everything that
   * existed before is what it was or what the release makes of it when the copying returns; only its own
   * copy has to be recoverable.
   */
  lemma {:induction false} UpgradeIsOldOrNew(disk: Disk, actions: seq<Action>, ios: seq<Io>, p: Path)
    requires |actions| == |ios| && NoCollisions(disk, actions) && Recoverable(actions, ios, p) && p in disk
    ensures
      var after := PerformAll(disk, actions, ios).0;
      p in after && (after[p] == disk[p] || Written(actions, p, after[p]))
    decreases |actions|
  {
    if actions != [] {
      var (a, io) := (actions[0], ios[0]);
      var (after, ok) := Perform(disk, a, io);
      if !a.MakeDir? && p == a.path {
        PerformOldOrNew(disk, a, io);
        assert after[p] == disk[p] || Written(actions, p, after[p]);
      } else {
        PerformFrame(disk, a, io, p);
      }
      if ok {
        NoCollisionsRest(disk, actions, io);
        UpgradeIsOldOrNew(after, actions[1..], ios[1..], p);
        WrittenLater(actions, p, PerformAll(after, actions[1..], ios[1..]).0);
      }
    }
  }

  lemma WrittenLater(actions: seq<Action>, p: Path, final: Disk)
    requires actions != [] && p in final
    ensures Written(actions[1..], p, final[p]) ==> Written(actions, p, final[p])
  {
    if Written(actions[1..], p, final[p]) {
      var i :| 0 <= i < |actions[1..]| && actions[1..][i].path == p && final[p] == Result(actions[1..][i]);
      assert actions[i + 1] == actions[1..][i];
    }
  }

  // ---------------------------------------------------------------- success

  /** No copy has the path as its destination, above it, or as a backup that stays. */
  ghost predicate Bypassed(a: Action, io: Io, p: Path)
    requires Placed(a)
  {
    if a.MakeDir? then !(p <= a.path) else p != a.path && (p != Backup(a.path) || io.cleanup)
  }

  lemma BypassedStays(disk: Disk, a: Action, io: Io, p: Path)
    requires Placed(a) && WellFormed(disk) && Fits(disk, a) && Perform(disk, a, io).1 && Bypassed(a, io, p)
    ensures
      var after := Perform(disk, a, io).0;
      (p in after <==> p in disk) && (p in disk ==> after[p] == disk[p])
  {
    if a.MakeDir? {
      PerformsDir(disk, a, io);
    } else {
      Installs(disk, a, io);
    }
  }

  /** After a success everything else is as before, except new directories and backups that could not be removed. */
  lemma {:induction false} OthersUnchanged(disk: Disk, actions: seq<Action>, ios: seq<Io>, p: Path)
    requires |actions| == |ios| && NoCollisions(disk, actions) && PerformAll(disk, actions, ios).1
    requires forall i :: 0 <= i < |actions| ==> Bypassed(actions[i], ios[i], p)
    ensures
      var after := PerformAll(disk, actions, ios).0;
      (p in after <==> p in disk) && (p in disk ==> after[p] == disk[p])
    decreases |actions|
  {
    if actions != [] {
      BypassedStays(disk, actions[0], ios[0], p);
      NoCollisionsRest(disk, actions, ios[0]);
      OthersUnchanged(Perform(disk, actions[0], ios[0]).0, actions[1..], ios[1..], p);
    }
  }

  /** What is there stays as it is through copies to other places, as far as they come. */
  lemma {:induction false} PresentStays(disk: Disk, actions: seq<Action>, ios: seq<Io>, p: Path)
    requires |actions| == |ios| && NoCollisions(disk, actions) && p in disk
    requires forall k :: 0 <= k < |actions| ==> actions[k].MakeDir? || actions[k].path != p
    ensures
      var after := PerformAll(disk, actions, ios).0;
      p in after && after[p] == disk[p]
    decreases |actions|
  {
    if actions != [] {
      PerformFrame(disk, actions[0], ios[0], p);
      if Perform(disk, actions[0], ios[0]).1 {
        NoCollisionsRest(disk, actions, ios[0]);
        PresentStays(Perform(disk, actions[0], ios[0]).0, actions[1..], ios[1..], p);
      }
    }
  }

  lemma MadeIsThere(disk: Disk, a: Action, io: Io)
    requires WellFormed(disk) && Fits(disk, a) && a.path != [] && Perform(disk, a, io).1
    ensures a.path in Perform(disk, a, io).0 && Perform(disk, a, io).0[a.path] == Result(a)
  {
    if a.MakeDir? {
      DirsMade(disk, a.path);
    } else {
      Installs(disk, a, io);
    }
  }

  /** On success everything of the release is in its place. */
  lemma {:induction false} SuccessInstallsAll(disk: Disk, actions: seq<Action>, ios: seq<Io>, i: nat)
    requires |actions| == |ios| && NoCollisions(disk, actions) && i < |actions| && actions[i].path != []
    requires PerformAll(disk, actions, ios).1
    ensures
      var after := PerformAll(disk, actions, ios).0;
      actions[i].path in after && after[actions[i].path] == Result(actions[i])
    decreases |actions|
  {
    var (a, io) := (actions[0], ios[0]);
    NoCollisionsRest(disk, actions, io);
    if i == 0 {
      MadeIsThere(disk, a, io);
      forall k | 0 <= k < |actions[1..]| ensures actions[1..][k].path != a.path {
        assert Apart(a, actions[k + 1]);
      }
      PresentStays(Perform(disk, a, io).0, actions[1..], ios[1..], a.path);
    } else {
      assert actions[i] == actions[1..][i - 1];
      SuccessInstallsAll(Perform(disk, a, io).0, actions[1..], ios[1..], i - 1);
    }
  }

  // ---------------------------------------------------------------- the copies of a release

  /** Names are unique in a directory, and none is the backup name of another. */
  ghost predicate WellNamed(t: Tree)
    decreases t
  {
    t.Dir? ==>
      && NamesApart(t.children)
      && (forall i :: 0 <= i < |t.children| ==> WellNamed(t.children[i].tree))
  }

  ghost predicate NamesApart(children: seq<Entry>) {
    forall i, j :: 0 <= i < |children| && 0 <= j < |children| && i != j ==>
      children[i].name != children[j].name && children[i].name + ".old" != children[j].name
  }

  lemma BranchesApart(a: Action, b: Action, base: Path)
    requires |base| < |a.path| && |base| < |b.path|
    requires a.path[|base|] != b.path[|base|]
    requires a.path[|base|] + ".old" != b.path[|base|] && b.path[|base|] + ".old" != a.path[|base|]
    ensures Apart(a, b)
  {
    BackupIsOther(a.path);
    BackupIsOther(b.path);
    assert Backup(a.path)[|base|] == a.path[|base|] || Backup(a.path)[|base|] == a.path[|base|] + ".old";
    assert Backup(b.path)[|base|] == b.path[|base|] || Backup(b.path)[|base|] == b.path[|base|] + ".old";
  }

  lemma {:induction false} WalkApart(t: Tree, base: Path, skip: set<Path>)
    requires WellNamed(t) && (base != [] || t.Dir?)
    ensures AllApart(Walk(t, base, skip))
    decreases t, 1
  {
    if t.Dir? && base !in skip {
      var rest := WalkAll(t.children, base, skip);
      WalkAllApart(t.children, base, skip);
      WalkAllBelow(t.children, base, skip);
      forall j | 0 < j < |[MakeDir(base)] + rest| ensures Apart(MakeDir(base), ([MakeDir(base)] + rest)[j]) {
        var b := rest[j - 1];
        assert b in rest;
        BackupIsOther(b.path);
      }
    }
  }

  lemma {:induction false} WalkAllApart(children: seq<Entry>, base: Path, skip: set<Path>)
    requires NamesApart(children) && forall i :: 0 <= i < |children| ==> WellNamed(children[i].tree)
    ensures AllApart(WalkAll(children, base, skip))
    decreases children, 0
  {
    if children != [] {
      var (inner, tail) := (base + [children[0].name], children[1..]);
      var (first, rest) := (Walk(children[0].tree, inner, skip), WalkAll(tail, base, skip));
      WalkApart(children[0].tree, inner, skip);
      WalkBelow(children[0].tree, inner, skip);
      WalkAllApart(tail, base, skip);
      WalkAllBelow(tail, base, skip);
      forall i, j | 0 <= i < |first| && 0 <= j < |rest| ensures Apart(first[i], rest[j]) {
        assert first[i] in first && rest[j] in rest;
        assert first[i].path[..|base|] == inner[..|base|] == base;
        assert first[i].path[|base|] == inner[|base|] == children[0].name;
        var c :| 0 <= c < |tail| && tail[c].name == rest[j].path[|base|];
        assert tail[c] == children[c + 1];
        BranchesApart(first[i], rest[j], base);
      }
      ApartJoin(first, rest);
    }
  }

  lemma ApartJoin(first: seq<Action>, rest: seq<Action>)
    requires AllApart(first) && AllApart(rest)
    requires forall i, j :: 0 <= i < |first| && 0 <= j < |rest| ==> Apart(first[i], rest[j])
    ensures AllApart(first + rest)
  {
  }

  // ---------------------------------------------------------------- whole upgrades

  /** The release fits onto the disk. */
  ghost predicate Compatible(disk: Disk, t: Tree, skip: set<Path>) {
    t.Dir? && WellNamed(t) && Suits(disk, Walk(t, [], skip))
  }

  /** Wherever an upgrade fails, everything that existed is old or new. */
  lemma UpgradeIsSafe(disk: Disk, t: Tree, skip: set<Path>, ios: seq<Io>)
    requires Compatible(disk, t, skip) && |ios| == |Walk(t, [], skip)|
    ensures AllApart(Walk(t, [], skip))
    ensures
      var (actions, after) := (Walk(t, [], skip), PerformAll(disk, Walk(t, [], skip), ios).0);
      forall p :: p in disk && Recoverable(actions, ios, p) ==> p in after && (after[p] == disk[p] || Written(actions, p, after[p]))
  {
    WalkApart(t, [], skip);
    forall p | p in disk && Recoverable(Walk(t, [], skip), ios, p)
      ensures
        var (actions, after) := (Walk(t, [], skip), PerformAll(disk, Walk(t, [], skip), ios).0);
        p in after && (after[p] == disk[p] || Written(actions, p, after[p]))
    {
      UpgradeIsOldOrNew(disk, Walk(t, [], skip), ios, p);
    }
  }

  /** On success every file, link and directory of the release that is not skipped is in its place, in full. */
  lemma UpgradeInstalls(disk: Disk, t: Tree, skip: set<Path>, ios: seq<Io>, p: Path, node: Node)
    requires Compatible(disk, t, skip) && |ios| == |Walk(t, [], skip)| && p != []
    ensures AllApart(Walk(t, [], skip))
    ensures
      var (after, ok) := PerformAll(disk, Walk(t, [], skip), ios);
      ok && HasNode(t, [], skip, p, node) ==> p in after && after[p] == node
  {
    WalkApart(t, [], skip);
    WalkIsExact(t, [], skip, p, node);
    var actions := Walk(t, [], skip);
    if HasNode(t, [], skip, p, node) && PerformAll(disk, actions, ios).1 {
      var i :| 0 <= i < |actions| && actions[i] == CopyOf(p, node);
      SuccessInstallsAll(disk, actions, ios, i);
    }
  }
}
