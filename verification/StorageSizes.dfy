/**
What counts against a pool, in plain numbers (pkg/storage/zdbpool/pool.go:33-121,
pkg/storage/filesystem/btrfs.go:449-466, 560-633).
*/
module StorageSizes {
  import opened U64
  import opened MapSums
  import opened Primitives
  import opened Storage
  import opened Zdb

  /** Each namespace counts with its size. */
  lemma NamespaceCounts(ns: map<string, u64>, k: string, size: u64)
    requires k !in ns && k != "default"
    ensures NamespacesSize(ns[k := size]) == NamespacesSize(ns) + size
  {
    assert Accounted(ns[k := size]) == Accounted(ns)[k := size];
    SumStore(Accounted(ns), Identity(), k, size);
  }

  /** The default one does not count, and without any there is nothing reserved. */
  lemma DefaultDoesNotCount(ns: map<string, u64>, size: u64)
    ensures NamespacesSize(ns["default" := size]) == NamespacesSize(ns) && NamespacesSize(map[]) == 0
  {
    assert Accounted(ns["default" := size]) == Accounted(ns);
    assert Accounted(map[]) == map[];
  }

  /**
   * A volume without a quota group takes nothing; a 0-db volume what its namespaces reserve, whatever its quota and
   * files; any other its quota, or its files when it has none.
   */
  lemma VolumeTakes(v: Subvolume)
    ensures !v.qgroup ==> VolumeSize(v) == 0
    ensures v.qgroup && "zdb" <= v.name ==> VolumeSize(v) == NamespacesSize(v.namespaces)
    ensures v.qgroup && !("zdb" <= v.name) && v.quota > 0 ==> VolumeSize(v) == v.quota
    ensures v.qgroup && !("zdb" <= v.name) && v.quota == 0 ==> VolumeSize(v) == v.files
  {
  }

  /** What a pool has reserved is the sum over its volumes, modulo 2^64, and it fits when that and the size do. */
  lemma PoolReserves(p: Pool, vs: seq<Subvolume>, v: Subvolume, size: u64)
    requires p.volumes == vs + [v]
    ensures VolumesSize([]) == 0 && VolumesSize(p.volumes) == VolumesSize(vs) + VolumeSize(v)
    ensures Reserved(p) == VolumesSize(p.volumes) % 18446744073709551616
    ensures Fits(p, size) <==> (VolumesSize(p.volumes) + size) % 18446744073709551616 <= p.size
  {
    assert p.volumes[..|vs|] == vs;
    AddWrap(VolumesSize(p.volumes), size);
  }

  /** Other types of disk than SSD and HDD are refused, with nothing changed. */
  lemma OtherDisksAreRefused(pools: seq<Pool>, q: Request, name: string, size: u64, io: Io)
    ensures CreateSubvol(pools, size, name, OtherDisk, io) == (pools, NotPlaced)
    ensures CreateFilesystem(pools, name, size, OtherDisk, io) == (pools, NotPlaced)
    ensures q.kind == OtherDisk ==> Allocate(pools, q, io) == (pools, Missing)
  {
  }

  /** An ordinary volume cannot take a name of the 0-db. */
  lemma ZdbNamesAreRefused(pools: seq<Pool>, name: string, size: u64, kind: DiskType, io: Io)
    requires "zdb" <= name
    ensures CreateFilesystem(pools, name, size, kind, io) == (pools, NotPlaced)
  {
  }
}
