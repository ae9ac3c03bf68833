/**
Copies that are not old-or-new, and releases that do not fit onto the disk: the
inputs at which the exact conditions fail.
*/
module UpgradeGaps {
  import opened Options
  import opened FileSystem
  import opened UpgradeCopy
  import opened UpgradeSteps
  import opened UpgradeExact

  /** A file is removed, the link that replaces it cannot be made, and nothing is left. */
  lemma LinkLosesFile()
    ensures
      var disk: Disk := map[["a"] := File("old")];
      LinkCopied(disk, ["a"], ["b"], WORKING.(link := false)) == (map[], false)
  {
    var disk: Disk := map[["a"] := File("old")];
    assert Parent(["a"]) == [] && WellFormed(disk);
    OldLinkIsFlat(disk, ["a"], ["b"], WORKING.(link := false));
    assert disk - {["a"]} == map[];
  }

  // ---------------------------------------------------------------- a file for a directory

  /** Where the disk has a directory that holds something, a file of the release takes its place and it is gone. */
  lemma FileForDirectoryLosesContent(disk: Disk, dst: Path, content: string, q: Path)
    requires Shelvable(disk, dst) && disk[dst].Directory? && q in disk && dst < q
    ensures
      var (after, ok) := FileCopied(disk, dst, content, WORKING);
      ok && dst in after && after[dst] == File(content) && q !in after
  {
    ThereIsSolid(disk, dst);
    FollowPlain(disk, dst);
    ReplacedOutcome(disk, dst, content, WORKING);
    CleanedAside(disk, dst, content, WORKING);
    GoneThrough(disk, dst, content, FileCopied(disk, dst, content, WORKING).0);
  }

  // ---------------------------------------------------------------- a directory that is a link

  /** The disk has a link where the release has a directory: a file that is no destination is overwritten. */
  lemma DirectoryForLinkOverwritesElsewhere(disk: Disk, l: Path, d: Path, x: string, content: string)
    requires WellFormed(disk) && l != [] && l in disk && disk[l] == Link(d) && d in disk && disk[d].Directory?
    requires d + [x] in disk && disk[d + [x]].File? && Backup(d + [x]) !in disk
    ensures MakeDirs(disk, l) == Some(disk)
    ensures FileCopied(disk, l + [x], content, WORKING) == (disk[d + [x] := File(content)], true)
  {
    var t := d + [x];
    ThereIsSolid(disk, l);
    ThereIsSolid(disk, d);
    FollowLink(disk, l);
    CopyGoesThroughLinks(disk, l, d, x, content, WORKING);
    ThereIsSolid(disk, t);
    FollowPlain(disk, t);
    OldFileIsFlat(disk, t, content, WORKING);
  }

  /** The disk has a link that leads nowhere where the release has a file: the file is made at its end. */
  lemma FileForDanglingLinkIsMadeElsewhere(disk: Disk, dst: Path, t: Path, content: string)
    requires dst != [] && dst in disk && disk[dst] == Link(t) && Solid(disk, dst)
    requires t != [] && t !in disk && Solid(disk, t) && IsDir(disk, Parent(t))
    ensures FileCopied(disk, dst, content, WORKING) == (disk[t := File(content)], true)
    ensures disk[t := File(content)][dst] == Link(t)
  {
    FollowLink(disk, dst);
  }

  /** A link to its own directory, under its own name below it: it is moved aside and cannot be moved back. */
  lemma LinkOnItsOwnWayIsLost()
    ensures
      var disk: Disk := map[["a"] := Directory][["a", "l"] := Link(["a"])];
      var (after, ok) := FileCopied(disk, ["a", "l"] + ["l"], "new", WORKING);
      WellFormed(disk) && !ok && ["a", "l"] !in after
  {
    var disk: Disk := map[["a"] := Directory][["a", "l"] := Link(["a"])];
    var l: Path, d: Path := ["a", "l"], ["a"];
    assert Parent(l) == d && Parent(d) == [] && d + ["l"] == l;
    assert WellFormed(disk);
    ThereIsSolid(disk, l);
    ThereIsSolid(disk, d);
    FollowLink(disk, l);
    LoopIsFound(disk, l, d);
    BackupIsOther(l);
    assert Backup(l) !in disk by { BackupBelow(d, "l"); }
    assert l[1..] == ["l"] && l[0] == "a";
    assert Crosses(disk, [], l, MAX_LINKS, l) by {
      DirectoryLeads(disk, [], l, MAX_LINKS, l);
    }
    ReplacedCrossed(disk, l, d, "l", "new", WORKING);
    IsSetAside(disk, l);
    AsideIsGone(disk, l, Aside(disk, l), Directory);
  }

  /** Below such a link its own name leads to the directory again. */
  lemma LoopIsFound(disk: Disk, l: Path, d: Path)
    requires disk == map[["a"] := Directory][["a", "l"] := Link(["a"])] && l == ["a", "l"] && d == ["a"]
    ensures !Missing(disk, l + ["l"])
  {
    var p := l + ["l"];
    var none: Path := [];
    assert none + ["a"] == d && d + ["l"] == l;
    assert p[0] == "a" && p[1..] == ["l", "l"] && ["l", "l"][1..] == ["l"];
    DirectoryLeads(disk, [], p, MAX_LINKS, d);
    LinkLeads(disk, d, ["l", "l"], MAX_LINKS, d);
    assert l[1..] == ["l"] && ["l"][1..] == [];
    DirectoryLeads(disk, [], l, MAX_LINKS - 1, d);
    LinkLeads(disk, d, ["l"], MAX_LINKS - 1, d);
    assert d + [] == d && d[1..] == [];
    DirectoryLeads(disk, [], d, MAX_LINKS - 2, d);
  }

  // ---------------------------------------------------------------- the same as whole releases

  lemma PerformThen(disk: Disk, a: Action, rest: seq<Action>, ios: seq<Io>)
    requires Placed(a) && (forall b :: b in rest ==> Placed(b)) && |ios| == |rest| && Perform(disk, a, WORKING).1
    ensures PerformAll(disk, [a] + rest, [WORKING] + ios) == PerformAll(Perform(disk, a, WORKING).0, rest, ios)
  {
    assert ([a] + rest)[1..] == rest && ([WORKING] + ios)[1..] == ios;
  }

  lemma PerformOne(disk: Disk, a: Action)
    requires Placed(a)
    ensures PerformAll(disk, [a], [WORKING]) == Perform(disk, a, WORKING)
  {
    assert [a][1..] == [] && [WORKING][1..] == [];
  }

  function OneFile(): Tree {
    Dir([Entry("a", Regular("new"))])
  }

  lemma OneFileWalk()
    ensures Walk(OneFile(), [], {}) == [MakeDir([])] + [WriteFile(["a"], "new")]
  {
    var children := [Entry("a", Regular("new"))];
    var none: Path := [];
    assert children[1..] == [] && none + ["a"] == ["a"];
    assert WalkAll(children, [], {}) == Walk(Regular("new"), ["a"], {}) + WalkAll([], [], {});
  }

  /** A release with a file /a succeeds on a disk with /a/b, and /a/b is gone. */
  lemma ReleaseLosesContent()
    ensures
      var disk: Disk := map[["a"] := Directory][["a", "b"] := File("old")];
      var actions := [MakeDir([])] + [WriteFile(["a"], "new")];
      var (after, ok) := PerformAll(disk, actions, [WORKING] + [WORKING]);
      && Walk(OneFile(), [], {}) == actions && WellFormed(disk)
      && ok && ["a"] in after && after[["a"]] == File("new") && ["a", "b"] !in after
  {
    var disk: Disk := map[["a"] := Directory][["a", "b"] := File("old")];
    var dst: Path := ["a"];
    OneFileWalk();
    assert Parent(["a", "b"]) == dst && Parent(dst) == [];
    BackupIsOther(dst);
    assert Shelvable(disk, dst) && dst < ["a", "b"];
    FileForDirectoryLosesContent(disk, dst, "new", ["a", "b"]);
    PerformThen(disk, MakeDir([]), [WriteFile(["a"], "new")], [WORKING]);
    PerformOne(disk, WriteFile(["a"], "new"));
  }

  function OneFileBelow(): Tree {
    Dir([Entry("bin", Dir([Entry("x", Regular("new"))]))])
  }

  function BelowActions(): seq<Action> {
    [MakeDir([])] + ([MakeDir(["bin"])] + [WriteFile(["bin", "x"], "new")])
  }

  lemma OneFileBelowWalk()
    ensures Walk(OneFileBelow(), [], {}) == BelowActions()
  {
    var inner := [Entry("x", Regular("new"))];
    var outer := [Entry("bin", Dir(inner))];
    var none: Path := [];
    assert inner[1..] == [] && outer[1..] == [] && none + ["bin"] == ["bin"] && ["bin"] + ["x"] == ["bin", "x"];
    assert WalkAll(inner, ["bin"], {}) == Walk(Regular("new"), ["bin", "x"], {}) + WalkAll([], ["bin"], {});
    assert WalkAll(outer, [], {}) == Walk(Dir(inner), ["bin"], {}) + WalkAll([], [], {});
  }

  lemma OverwritesElsewhere(disk: Disk)
    requires disk == map[["bin"] := Link(["usr"])][["usr"] := Directory][["usr", "x"] := File("old")]
    ensures WellFormed(disk) && MakeDirs(disk, ["bin"]) == Some(disk)
    ensures FileCopied(disk, ["bin", "x"], "new", WORKING) == (disk[["usr", "x"] := File("new")], true)
  {
    var l: Path, d: Path := ["bin"], ["usr"];
    assert Parent(["usr", "x"]) == d && Parent(l) == [] && Parent(d) == [];
    assert d + ["x"] == ["usr", "x"] && l + ["x"] == ["bin", "x"];
    BackupBelow(d, "x");
    assert Backup(d + ["x"]) !in disk by { BackupIsOther(d + ["x"]); }
    DirectoryForLinkOverwritesElsewhere(disk, l, d, "x", "new");
  }

  /** A release with /bin/x succeeds on a disk where /bin is a link to /usr, and overwrites /usr/x. */
  lemma ReleaseOverwritesElsewhere()
    ensures
      var disk: Disk := map[["bin"] := Link(["usr"])][["usr"] := Directory][["usr", "x"] := File("old")];
      && Walk(OneFileBelow(), [], {}) == BelowActions() && WellFormed(disk)
      && PerformAll(disk, BelowActions(), [WORKING] + ([WORKING] + [WORKING])) == (disk[["usr", "x"] := File("new")], true)
  {
    var disk: Disk := map[["bin"] := Link(["usr"])][["usr"] := Directory][["usr", "x"] := File("old")];
    OneFileBelowWalk();
    OverwritesElsewhere(disk);
    var last := [WriteFile(["bin", "x"], "new")];
    PerformThen(disk, MakeDir([]), [MakeDir(["bin"])] + last, [WORKING] + [WORKING]);
    PerformThen(disk, MakeDir(["bin"]), last, [WORKING]);
    PerformOne(disk, WriteFile(["bin", "x"], "new"));
  }
}
