/**
Storage pools and their subvolumes (pkg/storage/storage.go,
pkg/storage/filesystem/btrfs.go, pkg/storage/zdbpool/pool.go).

The state is what is on the disks and which pools are mounted.  Every command
the module runs can fail; which ones do is part of `Io`.
*/
module Storage {
  import opened U64
  import opened MapSums
  import opened Primitives
  import opened Sorting

  datatype Mode = KeyValue | Sequential

  datatype Index = NoIndex | Index(mode: Mode)

  /**
   * A subvolume.  `quota` is the limit of its quota group, zero for none; `files` is the size of its
   * files; `namespaces` are the 0-db namespaces reserved on it, with their headers; `headless` are
   * namespaces whose header was not written to its end; `index` is the index file of the default
   * namespace.
   */
  datatype Subvolume = Subvolume(
    name: string, qgroup: bool, quota: u64, files: u64, namespaces: map<string, u64>, index: Index,
    headless: set<string>)
  {
    predicate IsZdb() {
      "zdb" <= name
    }
  }

  datatype Pool = Pool(name: string, kind: DiskType, size: u64, mounted: bool, volumes: seq<Subvolume>)

  /**
   * The pools, by position, on which a command fails.  `enable` is the last part of mounting, which fails
   * with the pool mounted; a probe fails in particular on a pool with a headless namespace.
   */
  datatype Io = Io(
    mount: set<nat>, enable: set<nat>, probe: set<nat>, unmount: set<nat>, shutdown: set<nat>,
    add: set<nat>, info: set<nat>, remove: set<nat>, destroy: set<nat>, list: set<nat>, limit: bool,
    usage: bool)

  const NO_FAILURE := Io({}, {}, {}, {}, {}, {}, {}, {}, {}, {}, false, false)

  // ---------------------------------------------------------------- sizes

  function Identity(): u64 -> nat {
    n => n
  }

  /** The default namespace is not part of the reservation. */
  function Accounted(ns: map<string, u64>): map<string, u64> {
    ns - {"default"}
  }

  ghost function NamespacesSize(ns: map<string, u64>): nat {
    Sum(Accounted(ns), Identity())
  }

  /** What a volume takes from its pool: its namespaces, or its quota, or its files. */
  ghost function VolumeSize(v: Subvolume): nat {
    if !v.qgroup then 0
    else if v.IsZdb() then NamespacesSize(v.namespaces)
    else if v.quota != 0 then v.quota
    else v.files
  }

  ghost function VolumesSize(vs: seq<Subvolume>): nat {
    if vs == [] then 0 else VolumesSize(vs[..|vs| - 1]) + VolumeSize(vs[|vs| - 1])
  }

  ghost function Reserved(p: Pool): u64 {
    Wrap(VolumesSize(p.volumes))
  }

  function QuotaSum(vs: seq<Subvolume>): nat {
    if vs == [] then 0 else QuotaSum(vs[..|vs| - 1]) + vs[|vs| - 1].quota
  }

  /** The check of the candidate search, in unsigned arithmetic. */
  ghost predicate Fits(p: Pool, size: u64) {
    Add(Reserved(p), size) <= p.size
  }

  // ---------------------------------------------------------------- candidate search

  datatype Search = Candidates(list: seq<nat>) | NotEnough | Broken

  /** Mounted pools of the kind that answer the probes and have room. */
  ghost function MountedFits(pools: seq<Pool>, size: u64, kind: DiskType, io: Io, n: nat): seq<nat>
    requires n <= |pools|
  {
    if n == 0 then []
    else
      var rest := MountedFits(pools, size, kind, io, n - 1);
      var p := pools[n - 1];
      if p.mounted && p.kind == kind && n - 1 !in io.probe && Fits(p, size) then rest + [n - 1] else rest
  }

  function LargestFirst(pools: seq<Pool>): nat -> int {
    (i: nat) => if i < |pools| then -(pools[i].size as int) else 0
  }

  /**
   * The search among unmounted pools from position `i`: mount, probe, and unmount again when there
   * is no room.  A pool whose probe fails stays mounted.
   */
  ghost function Scan(pools: seq<Pool>, i: nat, size: u64, kind: DiskType, io: Io): (seq<Pool>, Search)
    requires i <= |pools|
    decreases |pools| - i
  {
    if i == |pools| then (pools, NotEnough)
    else if pools[i].mounted || pools[i].kind != kind then Scan(pools, i + 1, size, kind, io)
    else if i in io.mount then (pools, Broken)
    else
      var up := pools[i := pools[i].(mounted := true)];
      if i in io.enable then (up, Broken)
      else if i in io.probe then Scan(up, i + 1, size, kind, io)
      else if Fits(pools[i], size) then (up, Candidates([i]))
      else if i in io.unmount then (up, Broken)
      else if i in io.shutdown then (pools, Broken)
      else Scan(pools, i + 1, size, kind, io)
  }

  ghost function FindCandidates(pools: seq<Pool>, size: u64, kind: DiskType, io: Io): (seq<Pool>, Search) {
    var list := MountedFits(pools, size, kind, io, |pools|);
    if list != [] then (pools, Candidates(Sort(list, LargestFirst(pools))))
    else Scan(pools, 0, size, kind, io)
  }

  // ---------------------------------------------------------------- creating

  predicate HasVolume(p: Pool, name: string) {
    exists j :: 0 <= j < |p.volumes| && p.volumes[j].name == name
  }

  function FreshVolume(name: string): Subvolume {
    Subvolume(name, true, 0, 0, map[], NoIndex, {})
  }

  function WithVolume(pools: seq<Pool>, i: nat, v: Subvolume): seq<Pool>
    requires i < |pools|
  {
    pools[i := pools[i].(volumes := pools[i].volumes + [v])]
  }

  datatype Placed = Placed(pool: nat) | NotPlaced

  /**
   * Tries the candidates in turn.  Creating a subvolume fails when the name is taken; reading it
   * back can fail too, and then the subvolume stays behind.
   */
  function TryAdd(pools: seq<Pool>, list: seq<nat>, name: string, io: Io): (seq<Pool>, Placed)
    decreases |list|
  {
    if list == [] then (pools, NotPlaced)
    else
      var i := list[0];
      if i >= |pools| || !pools[i].mounted || HasVolume(pools[i], name) || i in io.add
      then TryAdd(pools, list[1..], name, io)
      else
        var more := WithVolume(pools, i, FreshVolume(name));
        if i in io.info then TryAdd(more, list[1..], name, io) else (more, Placed(i))
  }

  ghost function CreateSubvol(pools: seq<Pool>, size: u64, name: string, kind: DiskType, io: Io): (seq<Pool>, Placed) {
    if kind == OtherDisk then (pools, NotPlaced)
    else
      var (found, s) := FindCandidates(pools, size, kind, io);
      if s.Candidates? then TryAdd(found, s.list, name, io) else (found, NotPlaced)
  }

  /** Sets the quota of the volume added last to pool `i`. */
  function Limit(pools: seq<Pool>, i: nat, size: u64): seq<Pool>
    requires i < |pools| && pools[i].volumes != []
  {
    var vs := pools[i].volumes;
    pools[i := pools[i].(volumes := vs[|vs| - 1 := vs[|vs| - 1].(quota := size)])]
  }

  ghost function CreateFilesystem(pools: seq<Pool>, name: string, size: u64, kind: DiskType, io: Io): (seq<Pool>, Placed) {
    if "zdb" <= name then (pools, NotPlaced)
    else
      var (made, p) := CreateSubvol(pools, size, name, kind, io);
      Limited(made, p, size, io.limit)
  }

  function Limited(made: seq<Pool>, p: Placed, size: u64, fails: bool): (seq<Pool>, Placed) {
    if p.NotPlaced? then (made, NotPlaced)
    else if fails || p.pool >= |made| || made[p.pool].volumes == [] then (made, NotPlaced)
    else (Limit(made, p.pool, size), p)
  }

  // ---------------------------------------------------------------- releasing

  function Without(vs: seq<Subvolume>, name: string): seq<Subvolume> {
    if vs == [] then []
    else
      var rest := Without(vs[..|vs| - 1], name);
      if vs[|vs| - 1].name == name then rest else rest + [vs[|vs| - 1]]
  }

  /** Releasing on one pool: remove the volume, and power the pool down if it was the only one. */
  function ReleaseAt(p: Pool, i: nat, name: string, io: Io): (Pool, bool) {
    if !p.mounted then (p, true)
    else if i in io.list then (p, false)
    else if !HasVolume(p, name) then (p, true)
    else if i in io.remove then (p, false)
    else
      var left := p.(volumes := Without(p.volumes, name));
      if i in io.destroy then (left, false)
      else if |p.volumes| != 1 then (left, true)
      else if i in io.unmount then (left, false)
      else (left.(mounted := false), i !in io.shutdown)
  }

  /** Every pool in turn, up to the first failure. */
  function ReleaseFrom(pools: seq<Pool>, i: nat, name: string, io: Io): (seq<Pool>, bool)
    requires i <= |pools|
    decreases |pools| - i
  {
    if i == |pools| then (pools, true)
    else
      var (p, ok) := ReleaseAt(pools[i], i, name, io);
      if ok then ReleaseFrom(pools[i := p], i + 1, name, io) else (pools[i := p], false)
  }

  function ReleaseFilesystem(pools: seq<Pool>, name: string, io: Io): (seq<Pool>, bool) {
    ReleaseFrom(pools, 0, name, io)
  }

  /** Unmounts the pools that hold nothing, up to the first failure. */
  function ShutdownFrom(pools: seq<Pool>, i: nat, io: Io): seq<Pool>
    requires i <= |pools|
    decreases |pools| - i
  {
    if i == |pools| then pools
    else if !pools[i].mounted then ShutdownFrom(pools, i + 1, io)
    else if i in io.list then pools
    else if pools[i].volumes != [] then ShutdownFrom(pools, i + 1, io)
    else if i in io.unmount then pools
    else ShutdownFrom(pools[i := pools[i].(mounted := false)], i + 1, io)
  }
}
