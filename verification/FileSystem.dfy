/**
A file system with directories and symbolic links, as far as the copying of an
upgrade uses it.  A path is the sequence of its components, the empty path the
root; the target of a link is a path from the root.
*/
module FileSystem {
  import opened Options

  type Path = seq<string>

  datatype Node = File(content: string) | Link(target: Path) | Directory

  /** What is on the disk below the root. */
  type Disk = map<Path, Node>

  /** How many links are followed on the way to a file. */
  const MAX_LINKS: nat := 40

  function Parent(p: Path): Path
    requires p != []
  {
    p[..|p| - 1]
  }

  function Name(p: Path): string
    requires p != []
  {
    p[|p| - 1]
  }

  predicate There(disk: Disk, p: Path) {
    p == [] || p in disk
  }

  predicate IsDir(disk: Disk, p: Path) {
    p == [] || (p in disk && disk[p].Directory?)
  }

  predicate Empty(disk: Disk, p: Path) {
    forall q :: q in disk ==> !(p < q)
  }

  /** Everything lies in a directory. */
  ghost predicate WellFormed(disk: Disk) {
    forall p :: p in disk ==> p != [] && IsDir(disk, Parent(p))
  }

  // ---------------------------------------------------------------- resolving paths

  /**
   * The path without links from `done` on along `rest`, whether anything is there or not.  There is none when
   * a file is in the way or too many links are.
   */
  function Resolve(disk: Disk, done: Path, rest: Path, links: nat): Option<Path>
    decreases links, |rest|
  {
    if rest == [] then Some(done)
    else
      var q := done + [rest[0]];
      if q in disk && disk[q].Link? then
        if links == 0 then None else Resolve(disk, [], disk[q].target + rest[1..], links - 1)
      else if q in disk && disk[q].File? && |rest| > 1 then None
      else Resolve(disk, q, rest[1..], links)
  }

  function Follow(disk: Disk, p: Path): Option<Path> {
    Resolve(disk, [], p, MAX_LINKS)
  }

  /** Where the entry of that name is or would be: the last component is not followed. */
  function Place(disk: Disk, p: Path): Option<Path>
    requires p != []
  {
    var d := Follow(disk, Parent(p));
    if d.Some? && IsDir(disk, d.value) then Some(d.value + [Name(p)]) else None
  }

  /** Examining the path reports that nothing is there. */
  predicate Missing(disk: Disk, p: Path) {
    var t := Follow(disk, p);
    t.Some? && !There(disk, t.value)
  }

  /** On the way along `rest` the resolving comes to the entry `t`. */
  predicate Crosses(disk: Disk, done: Path, rest: Path, links: nat, t: Path)
    decreases links, |rest|
  {
    rest != [] &&
    var q := done + [rest[0]];
    || q == t
    || (if q in disk && disk[q].Link? then
          links > 0 && Crosses(disk, [], disk[q].target + rest[1..], links - 1, t)
        else if q in disk && disk[q].File? && |rest| > 1 then false
        else Crosses(disk, q, rest[1..], links, t))
  }

  /** Resolving ends at something, or nowhere. */
  predicate Found(disk: Disk, done: Path, rest: Path, links: nat) {
    var t := Resolve(disk, done, rest, links);
    t.Some? ==> There(disk, t.value)
  }

  // ---------------------------------------------------------------- the calls, `None` when they fail

  /** A directory is never replaced, and replaces nothing. */
  predicate Replaceable(disk: Disk, f: Path, t: Path)
    requires f in disk && t in disk
  {
    !disk[f].Directory? && !disk[t].Directory?
  }

  /** The entry at `f`, with all that is below it, comes to be at `t`. */
  function Moved(disk: Disk, f: Path, t: Path): Disk {
    var here := set p | p in disk && !(f <= p);
    var there := set p | p in disk && f <= p :: t + p[|f|..];
    map q | q in here + there ::
      if t <= q && f + q[|t|..] in disk then disk[f + q[|t|..]] else if q in disk then disk[q] else Directory
  }

  function Rename(disk: Disk, from: Path, to: Path): Option<Disk>
    requires from != [] && to != []
  {
    var (f, t) := (Place(disk, from), Place(disk, to));
    if f.None? || t.None? || f.value !in disk || f.value < t.value then None
    else if t.value in disk && !Replaceable(disk, f.value, t.value) then None
    else if f.value == t.value then Some(disk)
    else Some(Moved(disk - {t.value}, f.value, t.value))
  }

  /** Opens for writing, creating the file if need be, and writes the content; links are followed. */
  function Write(disk: Disk, p: Path, content: string): Option<Disk> {
    var t := Follow(disk, p);
    if t.None? || t.value == [] || !IsDir(disk, Parent(t.value)) || IsDir(disk, t.value) then None
    else Some(disk[t.value := File(content)])
  }

  function Remove(disk: Disk, p: Path): Option<Disk>
    requires p != []
  {
    var t := Place(disk, p);
    if t.None? || t.value !in disk || (disk[t.value].Directory? && !Empty(disk, t.value)) then None
    else Some(disk - {t.value})
  }

  function Symlink(disk: Disk, target: Path, p: Path): Option<Disk>
    requires p != []
  {
    var t := Place(disk, p);
    if t.None? || t.value in disk then None else Some(disk[t.value := Link(target)])
  }

  /** The directory and all those above it. */
  function MakeDirs(disk: Disk, p: Path): Option<Disk>
    decreases |p|
  {
    var t := Follow(disk, p);
    if p == [] then Some(disk)
    else if t.Some? && There(disk, t.value) then (if IsDir(disk, t.value) then Some(disk) else None)
    else
      var up := MakeDirs(disk, Parent(p));
      if up.None? then None
      else
        var place := Place(up.value, p);
        if place.None? || place.value in up.value then None else Some(up.value[place.value := Directory])
  }

  // ---------------------------------------------------------------- paths with nothing in the way

  /** Nothing above `p` but directories, as far as anything is there. */
  ghost predicate Solid(disk: Disk, p: Path) {
    forall k :: 0 < k < |p| && p[..k] in disk ==> disk[p[..k]].Directory?
  }

  ghost predicate Plain(disk: Disk, p: Path) {
    Solid(disk, p) && (p != [] && p in disk ==> !disk[p].Link?)
  }

  lemma {:induction false} ResolvePlain(disk: Disk, p: Path, k: nat, links: nat)
    requires Plain(disk, p) && k <= |p|
    ensures Resolve(disk, p[..k], p[k..], links) == Some(p)
    decreases |p| - k
  {
    if k == |p| {
      assert p[..k] == p;
    } else {
      assert p[..k] + [p[k..][0]] == p[..k + 1] && p[k..][1..] == p[k + 1..];
      if k + 1 == |p| {
        assert p[..k + 1] == p;
      }
      ResolvePlain(disk, p, k + 1, links);
    }
  }

  lemma FollowPlain(disk: Disk, p: Path)
    requires Plain(disk, p)
    ensures Follow(disk, p) == Some(p)
  {
    assert p[..0] == [] && p[0..] == p;
    ResolvePlain(disk, p, 0, MAX_LINKS);
  }

  /** A link with only directories above it is followed to its target. */
  lemma {:induction false} ResolveToLink(disk: Disk, p: Path, k: nat)
    requires Solid(disk, p) && p in disk && disk[p].Link? && k < |p|
    ensures Resolve(disk, p[..k], p[k..], MAX_LINKS) == Resolve(disk, [], disk[p].target, MAX_LINKS - 1)
    decreases |p| - k
  {
    assert p[..k] + [p[k..][0]] == p[..k + 1] && p[k..][1..] == p[k + 1..];
    if k + 1 == |p| {
      assert p[..k + 1] == p && disk[p].target + p[k + 1..] == disk[p].target;
    } else {
      ResolveToLink(disk, p, k + 1);
    }
  }

  lemma FollowLink(disk: Disk, p: Path)
    requires p != [] && Solid(disk, p) && p in disk && disk[p].Link? && Plain(disk, disk[p].target)
    ensures Follow(disk, p) == Some(disk[p].target)
  {
    var t := disk[p].target;
    assert p[..0] == [] && p[0..] == p && t[..0] == [] && t[0..] == t;
    ResolveToLink(disk, p, 0);
    ResolvePlain(disk, t, 0, MAX_LINKS - 1);
  }

  lemma SolidParent(disk: Disk, p: Path)
    requires Solid(disk, p) && p != []
    ensures Plain(disk, Parent(p))
  {
    var up := Parent(p);
    forall k | 0 < k <= |up| && up[..k] in disk ensures disk[up[..k]].Directory? {
      assert up[..k] == p[..k];
    }
    assert up[..|up|] == up;
  }

  lemma PlaceSolid(disk: Disk, p: Path)
    requires Solid(disk, p) && p != []
    ensures Place(disk, p) == if IsDir(disk, Parent(p)) then Some(p) else None
  {
    SolidParent(disk, p);
    FollowPlain(disk, Parent(p));
    assert p == Parent(p) + [Name(p)];
  }

  lemma {:induction false} AboveAreDirs(disk: Disk, p: Path, k: nat)
    requires WellFormed(disk) && There(disk, p) && k < |p|
    ensures IsDir(disk, p[..k])
    decreases |p|
  {
    if k < |p| - 1 {
      AboveAreDirs(disk, Parent(p), k);
      assert Parent(p)[..k] == p[..k];
    }
  }

  lemma ThereIsSolid(disk: Disk, p: Path)
    requires WellFormed(disk) && There(disk, p)
    ensures Solid(disk, p)
  {
    forall k | 0 < k < |p| && p[..k] in disk ensures disk[p[..k]].Directory? {
      AboveAreDirs(disk, p, k);
    }
  }

  lemma RenameSolid(disk: Disk, f: Path, t: Path)
    requires f != [] && t != [] && f != t && |f| == |t| && Solid(disk, f) && Solid(disk, t)
    requires f in disk && IsDir(disk, Parent(f)) && IsDir(disk, Parent(t))
    ensures Rename(disk, f, t) ==
      if t in disk && !Replaceable(disk, f, t) then None else Some(Moved(disk - {t}, f, t))
  {
    PlaceSolid(disk, f);
    PlaceSolid(disk, t);
    RenameAt(disk, f, t);
  }

  lemma RenameAt(disk: Disk, f: Path, t: Path)
    requires f != [] && t != [] && f != t && |f| == |t| && f in disk
    requires Place(disk, f) == Some(f) && Place(disk, t) == Some(t)
    ensures Rename(disk, f, t) ==
      if t in disk && !Replaceable(disk, f, t) then None else Some(Moved(disk - {t}, f, t))
  {
  }

  /** Nothing is below what is not a directory. */
  lemma LeafIsEmpty(disk: Disk, p: Path)
    requires WellFormed(disk) && p != [] && (p in disk ==> !disk[p].Directory?)
    ensures Empty(disk, p)
  {
    forall q | q in disk ensures !(p < q) {
      if p < q {
        assert q[..|p|] == p;
        AboveAreDirs(disk, q, |p|);
      }
    }
  }

  /** The entry at `f` can be moved to the free name `t` beside it or elsewhere at the same depth. */
  ghost predicate Movable(disk: Disk, f: Path, t: Path) {
    f in disk && |f| == |t| && f != t && forall p :: p in disk ==> !(t <= p)
  }

  /** What is at `q` after a move. */
  lemma MovedAt(disk: Disk, f: Path, t: Path, q: Path)
    requires Movable(disk, f, t)
    ensures q in Moved(disk, f, t) <==> (q in disk && !(f <= q)) || (t <= q && f + q[|t|..] in disk)
    ensures q in disk && !(f <= q) ==> Moved(disk, f, t)[q] == disk[q]
    ensures t <= q && f + q[|t|..] in disk ==> Moved(disk, f, t)[q] == disk[f + q[|t|..]]
  {
    if t <= q && f + q[|t|..] in disk {
      var p := f + q[|t|..];
      assert f <= p && p[|f|..] == q[|t|..] && t + p[|f|..] == q;
    }
    if q in Moved(disk, f, t) && (q !in disk || f <= q) {
      var p :| p in disk && f <= p && t + p[|f|..] == q;
      assert q[|t|..] == p[|f|..] && f + p[|f|..] == p;
    }
  }

  lemma MovedFrees(disk: Disk, f: Path, t: Path)
    requires Movable(disk, f, t)
    ensures Movable(Moved(disk, f, t), t, f)
  {
    MovedAt(disk, f, t, t);
    assert t[|t|..] == [] && f + [] == f && t <= t;
    forall p | p in Moved(disk, f, t) ensures !(f <= p) {
      MovedAt(disk, f, t, p);
      if t <= p {
        assert p[..|t|] == t;
      }
    }
  }

  lemma MovedBackAt(disk: Disk, f: Path, t: Path, q: Path)
    requires Movable(disk, f, t)
    ensures
      var back := Moved(Moved(disk, f, t), t, f);
      (q in back <==> q in disk) && (q in disk ==> back[q] == disk[q])
  {
    MovedFrees(disk, f, t);
    MovedAt(Moved(disk, f, t), t, f, q);
    if f <= q {
      var p := t + q[|f|..];
      assert p[|t|..] == q[|f|..] && f + q[|f|..] == q;
      MovedAt(disk, f, t, p);
    } else {
      MovedAt(disk, f, t, q);
    }
  }

  /** Moving back undoes it. */
  lemma MovedBack(disk: Disk, f: Path, t: Path)
    requires Movable(disk, f, t)
    ensures Moved(Moved(disk, f, t), t, f) == disk
  {
    var back := Moved(Moved(disk, f, t), t, f);
    forall q ensures (q in back <==> q in disk) && (q in disk ==> back[q] == disk[q]) {
      MovedBackAt(disk, f, t, q);
    }
  }

  /** Moving a leaf to a free name moves that entry alone. */
  lemma MovedLeaf(disk: Disk, f: Path, t: Path)
    requires f in disk && Empty(disk, f) && t !in disk && Empty(disk, t) && f != t
    ensures Moved(disk, f, t) == (disk - {f})[t := disk[f]]
  {
    var m := Moved(disk, f, t);
    assert f[|f|..] == [] && t + [] == t && f + [] == f;
    forall p | p in disk && f <= p ensures p == f {
      assert !(f < p);
    }
    forall q | q in m ensures q in (disk - {f})[t := disk[f]] && m[q] == (disk - {f})[t := disk[f]][q] {
      if q == t {
        assert f + q[|t|..] == f;
      } else {
        assert q in disk && q != f;
        assert !(t < q);
      }
    }
    forall q | q in (disk - {f})[t := disk[f]] ensures q in m {
      if q == t {
        assert t + f[|f|..] == t;
      } else {
        assert !(f <= q);
      }
    }
  }

  // ---------------------------------------------------------------- resolving on a changed disk

  ghost predicate NothingAt(disk: Disk, q: Path) {
    forall p :: p in disk ==> !(q <= p)
  }

  lemma AbsentHoldsNothing(disk: Disk, q: Path)
    requires WellFormed(disk) && q != [] && q !in disk
    ensures NothingAt(disk, q)
  {
    LeafIsEmpty(disk, q);
    forall p | p in disk ensures !(q <= p) {
      assert q <= p && q != p ==> q < p;
    }
  }

  /** From where nothing is, the rest of the path is taken as it stands. */
  lemma {:induction false} ResolveNowhere(disk: Disk, q: Path, rest: Path, links: nat)
    requires NothingAt(disk, q)
    ensures Resolve(disk, q, rest, links) == Some(q + rest)
    decreases |rest|
  {
    if rest == [] {
      assert q + rest == q;
    } else {
      var next := q + [rest[0]];
      assert q <= next;
      forall p | p in disk ensures !(next <= p) {
        assert next <= p ==> q <= p;
      }
      ResolveNowhere(disk, next, rest[1..], links);
      assert next + rest[1..] == q + rest;
    }
  }

  lemma {:induction false} CrossesNothing(disk: Disk, q: Path, rest: Path, links: nat, t: Path)
    requires NothingAt(disk, q) && t in disk
    ensures !Crosses(disk, q, rest, links, t)
    decreases |rest|
  {
    if rest != [] {
      var next := q + [rest[0]];
      assert q <= next;
      forall p | p in disk ensures !(next <= p) {
        assert next <= p ==> q <= p;
      }
      CrossesNothing(disk, next, rest[1..], links, t);
    }
  }

  /** A resolving that finds something meets nothing but what is on the disk. */
  lemma FoundMeets(disk: Disk, done: Path, rest: Path, links: nat)
    requires WellFormed(disk) && rest != [] && Found(disk, done, rest, links)
    ensures done + [rest[0]] in disk
  {
    var q := done + [rest[0]];
    if q !in disk {
      assert q <= q + rest[1..];
      AbsentHoldsNothing(disk, q);
      ResolveNowhere(disk, q, rest[1..], links);
    }
  }

  lemma CrossesMeets(disk: Disk, done: Path, rest: Path, links: nat, t: Path)
    requires WellFormed(disk) && t in disk && Crosses(disk, done, rest, links, t) && done + [rest[0]] != t
    ensures done + [rest[0]] in disk && !disk[done + [rest[0]]].File?
  {
    var q := done + [rest[0]];
    if q !in disk {
      AbsentHoldsNothing(disk, q);
      CrossesNothing(disk, q, rest[1..], links, t);
    } else if disk[q].File? {
      FileEnds(disk, done, rest, links, t);
    }
  }

  /** The disks differ at most at and below the entries `t` and `b`, of which `b` is new. */
  ghost predicate SameOutside(disk: Disk, after: Disk, t: Path, b: Path) {
    && |t| == |b| && t != [] && (b == t || b !in disk)
    && (forall q :: !(t <= q) && !(b <= q) ==> (q in after <==> q in disk) && (q in disk ==> after[q] == disk[q]))
  }

  lemma NotBelow(t: Path, done: Path, x: string)
    requires !(t <= done)
    ensures t <= done + [x] <==> t == done + [x]
  {
    if |t| <= |done| {
      assert done[..|t|] == (done + [x])[..|t|];
    }
  }

  /** A move changes nothing outside the two names, and leaves nothing under the old one. */
  lemma MovedOutside(disk: Disk, t: Path, b: Path)
    requires Movable(disk, t, b) && t != []
    ensures SameOutside(disk, Moved(disk, t, b), t, b) && NothingAt(Moved(disk, t, b), t)
    ensures b in Moved(disk, t, b) && Moved(disk, t, b)[b] == disk[t]
  {
    var m := Moved(disk, t, b);
    MovedFrees(disk, t, b);
    MovedAt(disk, t, b, b);
    assert b[|b|..] == [] && t + [] == t && b <= b;
    forall q | !(t <= q) && !(b <= q) ensures (q in m <==> q in disk) && (q in disk ==> m[q] == disk[q]) {
      MovedAt(disk, t, b, q);
    }
  }

  /** What is resolved without coming to a changed entry is resolved as before. */
  lemma {:induction false} ResolveKeeps(disk: Disk, after: Disk, done: Path, rest: Path, links: nat, t: Path, b: Path)
    requires WellFormed(disk) && SameOutside(disk, after, t, b) && !(t <= done) && !(b <= done)
    requires !Crosses(disk, done, rest, links, t)
    requires Resolve(disk, done, rest, links).Some? && Found(disk, done, rest, links)
    ensures Resolve(after, done, rest, links) == Resolve(disk, done, rest, links)
    decreases links, |rest|
  {
    if rest != [] {
      var q := done + [rest[0]];
      FoundMeets(disk, done, rest, links);
      NotBelow(t, done, rest[0]);
      NotBelow(b, done, rest[0]);
      assert after[q] == disk[q];
      if disk[q].Link? {
        ResolveKeeps(disk, after, [], disk[q].target + rest[1..], links - 1, t, b);
      } else {
        ResolveKeeps(disk, after, q, rest[1..], links, t, b);
      }
    }
  }

  lemma MetUnchanged(disk: Disk, after: Disk, done: Path, rest: Path, links: nat, t: Path, b: Path)
    requires WellFormed(disk) && SameOutside(disk, after, t, b) && !(t <= done) && !(b <= done)
    requires t in disk && Crosses(disk, done, rest, links, t) && done + [rest[0]] != t
    ensures
      var q := done + [rest[0]];
      && q in disk && q in after && after[q] == disk[q] && !disk[q].File?
      && !(t <= q) && !(b <= q)
  {
    CrossesMeets(disk, done, rest, links, t);
    NotBelow(t, done, rest[0]);
    NotBelow(b, done, rest[0]);
  }

  /** When an entry on the way is gone, resolving ends where it was or below, at nothing. */
  lemma {:induction false} ResolveLost(disk: Disk, after: Disk, done: Path, rest: Path, links: nat, t: Path, b: Path)
    requires WellFormed(disk) && SameOutside(disk, after, t, b) && !(t <= done) && !(b <= done)
    requires Crosses(disk, done, rest, links, t) && t in disk && NothingAt(after, t)
    ensures Resolve(after, done, rest, links).Some? && t <= Resolve(after, done, rest, links).value
    decreases links, |rest|
  {
    var q := done + [rest[0]];
    if q == t {
      ResolveNowhere(after, q, rest[1..], links);
    } else {
      MetUnchanged(disk, after, done, rest, links, t, b);
      if disk[q].Link? {
        LinkLeads(disk, done, rest, links, t);
        ResolveLost(disk, after, [], disk[q].target + rest[1..], links - 1, t, b);
        LinkLeads(after, done, rest, links, t);
      } else {
        DirectoryLeads(disk, done, rest, links, t);
        ResolveLost(disk, after, q, rest[1..], links, t, b);
        DirectoryLeads(after, done, rest, links, t);
      }
    }
  }

  /** Resolving goes on to an entry below, when that is not a link. */
  lemma {:induction false} ResolveThen(disk: Disk, done: Path, rest: Path, links: nat, d: Path, x: string)
    requires Resolve(disk, done, rest, links) == Some(d)
    requires (d != [] && d in disk ==> disk[d].Directory?) && (d + [x] in disk ==> !disk[d + [x]].Link?)
    ensures Resolve(disk, done, rest + [x], links) == Some(d + [x])
    decreases links, |rest|
  {
    var more := rest + [x];
    if rest == [] {
      assert more[1..] == [];
    } else {
      var q := done + [rest[0]];
      assert more[0] == rest[0] && more[1..] == rest[1..] + [x];
      if q in disk && disk[q].Link? {
        assert disk[q].target + more[1..] == disk[q].target + rest[1..] + [x];
        ResolveThen(disk, [], disk[q].target + rest[1..], links - 1, d, x);
      } else {
        if |rest| == 1 {
          assert rest[1..] == [];
        }
        ResolveThen(disk, q, rest[1..], links, d, x);
      }
    }
  }

  /** On a path without links nothing longer than the path is met. */
  lemma {:induction false} PlainNotCrossed(disk: Disk, p: Path, k: nat, links: nat, t: Path)
    requires Plain(disk, p) && k <= |p| < |t|
    ensures !Crosses(disk, p[..k], p[k..], links, t)
    decreases |p| - k
  {
    if k < |p| {
      assert p[..k] + [p[k..][0]] == p[..k + 1] && p[k..][1..] == p[k + 1..];
      if k + 1 == |p| {
        assert p[..k + 1] == p;
      }
      PlainNotCrossed(disk, p, k + 1, links, t);
    }
  }

  lemma FileEnds(disk: Disk, done: Path, rest: Path, links: nat, t: Path)
    requires rest != [] && done + [rest[0]] in disk && disk[done + [rest[0]]].File?
    ensures Resolve(disk, done, rest, links) == if |rest| > 1 then None else Some(done + [rest[0]])
    ensures Crosses(disk, done, rest, links, t) <==> done + [rest[0]] == t
  {
    if |rest| == 1 {
      assert rest[1..] == [];
    }
  }

  lemma LinkLeads(disk: Disk, done: Path, rest: Path, links: nat, t: Path)
    requires rest != [] && links > 0 && done + [rest[0]] in disk && disk[done + [rest[0]]].Link?
    ensures
      var (q, todo) := (done + [rest[0]], disk[done + [rest[0]]].target + rest[1..]);
      && Resolve(disk, done, rest, links) == Resolve(disk, [], todo, links - 1)
      && (Crosses(disk, done, rest, links, t) <==> q == t || Crosses(disk, [], todo, links - 1, t))
  {
  }

  lemma DirectoryLeads(disk: Disk, done: Path, rest: Path, links: nat, t: Path)
    requires rest != [] && done + [rest[0]] in disk && disk[done + [rest[0]]].Directory?
    ensures
      var q := done + [rest[0]];
      && Resolve(disk, done, rest, links) == Resolve(disk, q, rest[1..], links)
      && (Crosses(disk, done, rest, links, t) <==> q == t || Crosses(disk, q, rest[1..], links, t))
  {
  }

  /** The way to a directory does not lead over a file. */
  lemma {:induction false} FileNotCrossed(disk: Disk, done: Path, rest: Path, links: nat, t: Path)
    requires t in disk && disk[t].File? && Resolve(disk, done, rest, links).Some?
    requires IsDir(disk, Resolve(disk, done, rest, links).value)
    ensures !Crosses(disk, done, rest, links, t)
    decreases links, |rest|
  {
    if rest != [] {
      var q := done + [rest[0]];
      if q == t {
        FileEnds(disk, done, rest, links, t);
      } else if q in disk && disk[q].Link? {
        FileNotCrossed(disk, [], disk[q].target + rest[1..], links - 1, t);
      } else {
        FileNotCrossed(disk, q, rest[1..], links, t);
      }
    }
  }

  lemma {:induction false} RootNotCrossed(disk: Disk, done: Path, rest: Path, links: nat)
    ensures !Crosses(disk, done, rest, links, [])
    decreases links, |rest|
  {
    if rest != [] {
      var q := done + [rest[0]];
      if q in disk && disk[q].Link? {
        if links > 0 {
          RootNotCrossed(disk, [], disk[q].target + rest[1..], links - 1);
        }
      } else {
        RootNotCrossed(disk, q, rest[1..], links);
      }
    }
  }

  /**
   * What is found is still found when entries are added, and when one entry `w` changes that is not on the way
   * or has become a file; and the way meets nothing that it did not meet before.
   */
  lemma {:induction false} StillFound(disk: Disk, after: Disk, w: Path, done: Path, rest: Path, links: nat, t: Path)
    requires WellFormed(disk) && Found(disk, done, rest, links)
    requires forall q :: q in disk ==> q in after && (q != w ==> after[q] == disk[q])
    requires !Crosses(disk, done, rest, links, w) || (w in after && after[w].File?)
    ensures Found(after, done, rest, links)
    ensures Crosses(after, done, rest, links, t) ==> Crosses(disk, done, rest, links, t)
    decreases links, |rest|
  {
    if rest != [] {
      var q := done + [rest[0]];
      FoundMeets(disk, done, rest, links);
      if q == w || disk[q].File? {
        FileEnds(after, done, rest, links, t);
      } else if disk[q].Directory? {
        DirectoryLeads(disk, done, rest, links, w);
        DirectoryLeads(disk, done, rest, links, t);
        DirectoryLeads(after, done, rest, links, t);
        StillFound(disk, after, w, q, rest[1..], links, t);
      } else if links > 0 {
        LinkLeads(disk, done, rest, links, w);
        LinkLeads(disk, done, rest, links, t);
        LinkLeads(after, done, rest, links, t);
        StillFound(disk, after, w, [], disk[q].target + rest[1..], links - 1, t);
      }
    }
  }
}
