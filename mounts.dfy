/**
 * Composition of the runtime spec's mount list: buildah's replace-by-
 * destination helper, the special filesystem mounts that depend on the
 * namespace topology, and the bind mounts of generated files.
 */
module Mounts {
  import opened Wrappers
  import opened Oci
  import Keyed
  import Text

  /** The first mount at destination `d`, the one the runtime sees. */
  function MountAt(mounts: seq<Mount>, d: string): Option<Mount> {
    Keyed.Lookup(mounts, Destination, d)
  }

  /** The set of destinations a mount list covers. */
  function Destinations(mounts: seq<Mount>): set<string> {
    Keyed.Keys(mounts, Destination)
  }

  ghost predicate UniqueDestinations(mounts: seq<Mount>) {
    Keyed.UniqueKeys(mounts, Destination)
  }

  /**
   * addOrReplaceMount: the first entry with the new mount's destination is
   * overwritten in place; with no such entry the mount is appended.
   */
  method AddOrReplaceMount(mounts: seq<Mount>, m: Mount) returns (r: seq<Mount>)
    ensures r == Keyed.Upsert(mounts, Destination, m)
  {
    var i := 0;
    r := mounts + [m];
    while i < |mounts|
      invariant 0 <= i <= |mounts|
      invariant forall j :: 0 <= j < i ==> mounts[j].destination != m.destination
    {
      if mounts[i].destination == m.destination {
        r := mounts[i := m];
        break;
      }
      i := i + 1;
    }
    Keyed.FirstIndexIs(mounts, Destination, m.destination, i);
  }

  /**
   * What add-or-replace does to a mount list: the new mount is the one seen
   * at its destination, entries elsewhere stay where they were, and no
   * destination is lost or repeated.
   */
  lemma AddOrReplaceEffect(mounts: seq<Mount>, m: Mount)
    ensures var r := Keyed.Upsert(mounts, Destination, m);
      && (forall j :: 0 <= j < |mounts| && mounts[j].destination != m.destination ==> r[j] == mounts[j])
      && (forall d :: MountAt(r, d) == if d == m.destination then Some(m) else MountAt(mounts, d))
      && Destinations(r) == Destinations(mounts) + {m.destination}
      && (UniqueDestinations(mounts) ==> UniqueDestinations(r))
  {
    var r := Keyed.Upsert(mounts, Destination, m);
    forall d ensures MountAt(r, d) == if d == m.destination then Some(m) else MountAt(mounts, d) {
      Keyed.UpsertLookup(mounts, Destination, m, d);
    }
    Keyed.UpsertKeys(mounts, Destination, m);
    if UniqueDestinations(mounts) {
      Keyed.UpsertUnique(mounts, Destination, m);
    }
  }

  /** Go's uint32 addition, which wraps around. */
  function AddU32(a: u32, b: u32): u32 {
    (a + b) % 0x1_0000_0000
  }

  /**
   * checkIdsGreaterThan5: some range's container ids cover 5, the test
   * being computed in uint32 as in the source.
   */
  function CheckIdsGreaterThan5(ids: seq<IDMapping>): (found: bool)
    ensures found <==> exists i :: 0 <= i < |ids| && ids[i].containerID <= 5 < AddU32(ids[i].containerID, ids[i].size)
  {
    if ids == [] then false
    else (ids[0].containerID <= 5 < AddU32(ids[0].containerID, ids[0].size)) || CheckIdsGreaterThan5(ids[1..])
  }

  /** A range whose end does not pass 2^32, as the kernel demands of an id map. */
  predicate NoWrap(m: IDMapping) {
    m.containerID + m.size < 0x1_0000_0000
  }

  /** For ranges that do not wrap, the check says exactly that container id 5 is mapped. */
  lemma CheckIdsCoversFive(ids: seq<IDMapping>)
    requires forall i :: 0 <= i < |ids| ==> NoWrap(ids[i])
    ensures CheckIdsGreaterThan5(ids) <==> exists i :: 0 <= i < |ids| && ids[i].containerID <= 5 < ids[i].containerID + ids[i].size
  {
    assert forall i :: 0 <= i < |ids| ==> AddU32(ids[i].containerID, ids[i].size) == ids[i].containerID + ids[i].size;
  }

  /** The namespace facts the special-mount decisions depend on. */
  datatype Topology = Topology(isRootless: bool, isNewUserns: bool, isNetns: bool, isPidns: bool, isIpcns: bool)

  function TopologyOf(namespaces: seq<LinuxNamespace>, isRootless: bool): Topology {
    var kinds := Keyed.Keys(namespaces, KindOf);
    Topology(isRootless, UserNs in kinds, NetworkNs in kinds, PidNs in kinds, IpcNs in kinds)
  }

  /** sysfs can be mounted fresh when privileged without a user namespace, or with a network namespace. */
  predicate CanMountSys(t: Topology) {
    (!t.isRootless && !t.isNewUserns) || t.isNetns
  }

  predicate IsUserns(t: Topology) {
    t.isNewUserns || t.isRootless
  }

  /** Whether the devpts default option gid=5 can be kept: every consulted id map covers gid 5. */
  predicate Gid5Available(isRootless: bool, hostGids: seq<IDMapping>, specGids: seq<IDMapping>) {
    (!isRootless || CheckIdsGreaterThan5(hostGids)) && (|specGids| == 0 || CheckIdsGreaterThan5(specGids))
  }

  const SysBindMount := Mount("/sys", "bind", "/sys", [NoBindOption, "rprivate", "nosuid", "noexec", "nodev", "ro", "rbind"])
  const DevPtsMount := Mount("/dev/pts", "devpts", "devpts", ["rprivate", "nosuid", "noexec", "newinstance", "ptmxmode=0666", "mode=0620"])
  const MqueueMount := Mount("/dev/mqueue", "bind", "/dev/mqueue", [NoBindOption, "bind", "nosuid", "noexec", "nodev"])
  const ProcMount := Mount("/proc", "bind", "/proc", [NoBindOption, "rbind", "nosuid", "noexec", "nodev"])
  const CgroupMount := Mount("/sys/fs/cgroup", "cgroup", "cgroup", ["rprivate", "nosuid", "noexec", "nodev", "relatime", "rw"])
  const ShmBindMount := Mount("/dev/shm", "bind", "/dev/shm", [NoBindOption, "rbind", "nosuid", "noexec", "nodev"])

  function ShmTmpfsMount(shmSize: string): Mount {
    Mount("/dev/shm", "tmpfs", "shm", ["private", "nodev", "noexec", "nosuid", "mode=1777", "size=" + shmSize])
  }

  const SpecialDestinationNames: set<string> := {"/sys", "/dev/pts", "/dev/mqueue", "/proc", "/sys/fs/cgroup", "/dev/shm"}

  /**
   * Destination by destination, the special mount the topology calls for,
   * or None where the existing entry (if any) is left as it is.
   */
  function SpecialMountAt(t: Topology, gid5: bool, shmSize: string, shmExists: bool, d: string): Option<Mount> {
    if d == "/sys" then (if !CanMountSys(t) then Some(SysBindMount) else None)
    else if d == "/dev/pts" then (if !gid5 then Some(DevPtsMount) else None)
    else if d == "/dev/mqueue" then (if IsUserns(t) && !t.isIpcns then Some(MqueueMount) else None)
    else if d == "/proc" then (if IsUserns(t) && !t.isPidns then Some(ProcMount) else None)
    else if d == "/sys/fs/cgroup" then (if CanMountSys(t) then Some(CgroupMount) else None)
    else if d == "/dev/shm" then
      (if IsUserns(t) && !t.isIpcns then (if shmExists then Some(ShmBindMount) else None)
       else if shmSize != "" then Some(ShmTmpfsMount(shmSize)) else None)
    else None
  }

  /** The destination a conditional write adds. */
  function StepDestination(c: bool, m: Mount): set<string> {
    if c then {m.destination} else {}
  }

  /** The destinations the special mounts write. */
  function SpecialDestinations(t: Topology, gid5: bool, shmSize: string, shmExists: bool): set<string> {
    StepDestination(!CanMountSys(t), SysBindMount) + StepDestination(!gid5, DevPtsMount)
    + StepDestination(IsUserns(t) && !t.isIpcns, MqueueMount) + StepDestination(IsUserns(t) && !t.isPidns, ProcMount)
    + StepDestination(CanMountSys(t), CgroupMount)
    + (if IsUserns(t) && !t.isIpcns then StepDestination(shmExists, ShmBindMount) else StepDestination(shmSize != "", ShmTmpfsMount(shmSize)))
  }

  /** The six special destinations are pairwise different. */
  lemma SpecialNamesDistinct()
    ensures "/sys" != "/dev/pts" && "/sys" != "/dev/mqueue" && "/sys" != "/proc" && "/sys" != "/sys/fs/cgroup" && "/sys" != "/dev/shm"
    ensures "/dev/pts" != "/dev/mqueue" && "/dev/pts" != "/proc" && "/dev/pts" != "/sys/fs/cgroup" && "/dev/pts" != "/dev/shm"
    ensures "/dev/mqueue" != "/proc" && "/dev/mqueue" != "/sys/fs/cgroup" && "/dev/mqueue" != "/dev/shm"
    ensures "/proc" != "/sys/fs/cgroup" && "/proc" != "/dev/shm"
    ensures "/sys/fs/cgroup" != "/dev/shm"
  {
    assert "/sys"[1] == 's' && "/sys/fs/cgroup"[1] == 's' && "/proc"[1] == 'p';
    assert "/dev/pts"[1] == 'd' && "/dev/mqueue"[1] == 'd' && "/dev/shm"[1] == 'd';
    assert |"/sys"| != |"/sys/fs/cgroup"|;
    assert "/dev/pts"[5] == 'p' && "/dev/mqueue"[5] == 'm' && "/dev/shm"[5] == 's';
  }

  /** The first of two lookups that finds something. */
  function OrElse(a: Option<Mount>, b: Option<Mount>): Option<Mount> {
    if a.Some? then a else b
  }

  /** One conditional add-or-replace. */
  function Step(ms: seq<Mount>, c: bool, m: Mount): seq<Mount> {
    if c then Keyed.Upsert(ms, Destination, m) else ms
  }

  /** After a step, m is the mount at its destination when c holds; every other destination is unchanged. */
  lemma StepAt(ms: seq<Mount>, c: bool, m: Mount, d: string)
    ensures MountAt(Step(ms, c, m), d) == if c && d == m.destination then Some(m) else MountAt(ms, d)
  {
    if c {
      Keyed.UpsertLookup(ms, Destination, m, d);
    }
  }

  lemma StepEffect(ms: seq<Mount>, c: bool, m: Mount)
    ensures Destinations(Step(ms, c, m)) == Destinations(ms) + StepDestination(c, m)
    ensures UniqueDestinations(ms) ==> UniqueDestinations(Step(ms, c, m))
  {
    if c {
      Keyed.UpsertKeys(ms, Destination, m);
      if UniqueDestinations(ms) {
        Keyed.UpsertUnique(ms, Destination, m);
      }
    }
  }

  function ShmStep(ms: seq<Mount>, t: Topology, shmSize: string, shmExists: bool): seq<Mount> {
    if IsUserns(t) && !t.isIpcns then Step(ms, shmExists, ShmBindMount) else Step(ms, shmSize != "", ShmTmpfsMount(shmSize))
  }

  /** The special mounts written one after another, in the source's order. */
  function SpecialApply(mounts: seq<Mount>, t: Topology, gid5: bool, shmSize: string, shmExists: bool): seq<Mount> {
    var m1 := Step(mounts, !CanMountSys(t), SysBindMount);
    var m2 := Step(m1, !gid5, DevPtsMount);
    var m3 := Step(m2, IsUserns(t) && !t.isIpcns, MqueueMount);
    var m4 := Step(m3, IsUserns(t) && !t.isPidns, ProcMount);
    var m5 := Step(m4, CanMountSys(t), CgroupMount);
    ShmStep(m5, t, shmSize, shmExists)
  }

  /**
   * What the special mounts do to a mount list: each special destination
   * holds what the topology calls for (the table SpecialMountAt) and every
   * other destination keeps its entry.
   */
  lemma SpecialApplyAt(mounts: seq<Mount>, t: Topology, gid5: bool, shmSize: string, shmExists: bool)
    ensures forall d ::
      MountAt(SpecialApply(mounts, t, gid5, shmSize, shmExists), d) == OrElse(SpecialMountAt(t, gid5, shmSize, shmExists, d), MountAt(mounts, d))
  {
    forall d ensures MountAt(SpecialApply(mounts, t, gid5, shmSize, shmExists), d) ==
      OrElse(SpecialMountAt(t, gid5, shmSize, shmExists, d), MountAt(mounts, d))
    {
      SpecialAt(mounts, t, gid5, shmSize, shmExists, d);
    }
  }

  /** Two conditional writes add the destinations of both. */
  lemma TwoStepsDestinations(ms: seq<Mount>, c1: bool, m1: Mount, c2: bool, m2: Mount)
    ensures Destinations(Step(Step(ms, c1, m1), c2, m2)) == Destinations(ms) + StepDestination(c1, m1) + StepDestination(c2, m2)
  {
    StepEffect(ms, c1, m1);
    StepEffect(Step(ms, c1, m1), c2, m2);
  }

  /** The special mounts add exactly the destinations SpecialDestinations names. */
  lemma SpecialApplyDestinations(mounts: seq<Mount>, t: Topology, gid5: bool, shmSize: string, shmExists: bool)
    ensures Destinations(SpecialApply(mounts, t, gid5, shmSize, shmExists)) == Destinations(mounts) + SpecialDestinations(t, gid5, shmSize, shmExists)
  {
    var m2 := Step(Step(mounts, !CanMountSys(t), SysBindMount), !gid5, DevPtsMount);
    var m4 := Step(Step(m2, IsUserns(t) && !t.isIpcns, MqueueMount), IsUserns(t) && !t.isPidns, ProcMount);
    var m5 := Step(m4, CanMountSys(t), CgroupMount);
    TwoStepsDestinations(mounts, !CanMountSys(t), SysBindMount, !gid5, DevPtsMount);
    TwoStepsDestinations(m2, IsUserns(t) && !t.isIpcns, MqueueMount, IsUserns(t) && !t.isPidns, ProcMount);
    if IsUserns(t) && !t.isIpcns {
      TwoStepsDestinations(m4, CanMountSys(t), CgroupMount, shmExists, ShmBindMount);
    } else {
      TwoStepsDestinations(m4, CanMountSys(t), CgroupMount, shmSize != "", ShmTmpfsMount(shmSize));
    }
  }

  /** The special mounts never repeat a destination. */
  lemma SpecialApplyUnique(mounts: seq<Mount>, t: Topology, gid5: bool, shmSize: string, shmExists: bool)
    requires UniqueDestinations(mounts)
    ensures UniqueDestinations(SpecialApply(mounts, t, gid5, shmSize, shmExists))
  {
    var m1 := Step(mounts, !CanMountSys(t), SysBindMount);
    var m2 := Step(m1, !gid5, DevPtsMount);
    var m3 := Step(m2, IsUserns(t) && !t.isIpcns, MqueueMount);
    var m4 := Step(m3, IsUserns(t) && !t.isPidns, ProcMount);
    var m5 := Step(m4, CanMountSys(t), CgroupMount);
    StepEffect(mounts, !CanMountSys(t), SysBindMount);
    StepEffect(m1, !gid5, DevPtsMount);
    StepEffect(m2, IsUserns(t) && !t.isIpcns, MqueueMount);
    StepEffect(m3, IsUserns(t) && !t.isPidns, ProcMount);
    StepEffect(m4, CanMountSys(t), CgroupMount);
    StepEffect(m5, shmExists, ShmBindMount);
    StepEffect(m5, shmSize != "", ShmTmpfsMount(shmSize));
  }

  /** The six steps, destination by destination. */
  lemma SpecialAt(mounts: seq<Mount>, t: Topology, gid5: bool, shmSize: string, shmExists: bool, d: string)
    ensures MountAt(SpecialApply(mounts, t, gid5, shmSize, shmExists), d) ==
      OrElse(SpecialMountAt(t, gid5, shmSize, shmExists, d), MountAt(mounts, d))
  {
    var m1 := Step(mounts, !CanMountSys(t), SysBindMount);
    var m2 := Step(m1, !gid5, DevPtsMount);
    var m3 := Step(m2, IsUserns(t) && !t.isIpcns, MqueueMount);
    var m4 := Step(m3, IsUserns(t) && !t.isPidns, ProcMount);
    var m5 := Step(m4, CanMountSys(t), CgroupMount);
    StepAt(mounts, !CanMountSys(t), SysBindMount, d);
    StepAt(m1, !gid5, DevPtsMount, d);
    StepAt(m2, IsUserns(t) && !t.isIpcns, MqueueMount, d);
    StepAt(m3, IsUserns(t) && !t.isPidns, ProcMount, d);
    StepAt(m4, CanMountSys(t), CgroupMount, d);
    StepAt(m5, shmExists, ShmBindMount, d);
    StepAt(m5, shmSize != "", ShmTmpfsMount(shmSize), d);
    SpecialNamesDistinct();
  }

  /** The destinations written are exactly those the table has an entry for. */
  lemma SpecialDestinationsTable(t: Topology, gid5: bool, shmSize: string, shmExists: bool, d: string)
    ensures d in SpecialDestinations(t, gid5, shmSize, shmExists) <==> SpecialMountAt(t, gid5, shmSize, shmExists, d).Some?
  {
    SpecialNamesDistinct();
  }

  /** Scans the namespace list for the kinds the special mounts depend on. */
  method ScanTopology(namespaces: seq<LinuxNamespace>, isRootless: bool) returns (t: Topology)
    ensures t == TopologyOf(namespaces, isRootless)
  {
    var isNewUserns, isNetns, isPidns, isIpcns := false, false, false, false;
    var i := 0;
    while i < |namespaces|
      invariant 0 <= i <= |namespaces|
      invariant isNetns <==> NetworkNs in Keyed.Keys(namespaces[..i], KindOf)
      invariant isNewUserns <==> UserNs in Keyed.Keys(namespaces[..i], KindOf)
      invariant isPidns <==> PidNs in Keyed.Keys(namespaces[..i], KindOf)
      invariant isIpcns <==> IpcNs in Keyed.Keys(namespaces[..i], KindOf)
    {
      assert Keyed.Keys(namespaces[..i + 1], KindOf) == Keyed.Keys(namespaces[..i], KindOf) + {namespaces[i].kind} by {
        assert forall j :: 0 <= j < i ==> namespaces[..i + 1][j] == namespaces[..i][j];
      }
      match namespaces[i].kind {
        case NetworkNs => isNetns := true;
        case UserNs => isNewUserns := true;
        case PidNs => isPidns := true;
        case IpcNs => isIpcns := true;
        case _ =>
      }
      i := i + 1;
    }
    assert namespaces[..i] == namespaces;
    t := Topology(isRootless, isNewUserns, isNetns, isPidns, isIpcns);
  }

  /** /sys is bound from the host exactly when sysfs cannot be mounted, and cgroupfs is mounted otherwise. */
  lemma SysOrCgroup(mounts: seq<Mount>, t: Topology, gid5: bool, shmSize: string, shmExists: bool)
    ensures var ms := SpecialApply(mounts, t, gid5, shmSize, shmExists);
      && (!CanMountSys(t) ==> MountAt(ms, "/sys") == Some(SysBindMount) && MountAt(ms, "/sys/fs/cgroup") == MountAt(mounts, "/sys/fs/cgroup"))
      && (CanMountSys(t) ==> MountAt(ms, "/sys") == MountAt(mounts, "/sys") && MountAt(ms, "/sys/fs/cgroup") == Some(CgroupMount))
      && MountAt(ms, "/dev/pts") == if gid5 then MountAt(mounts, "/dev/pts") else Some(DevPtsMount)
  {
    SpecialNamesDistinct();
    SpecialApplyAt(mounts, t, gid5, shmSize, shmExists);
    var ms := SpecialApply(mounts, t, gid5, shmSize, shmExists);
    assert MountAt(ms, "/sys") == OrElse(SpecialMountAt(t, gid5, shmSize, shmExists, "/sys"), MountAt(mounts, "/sys"));
    assert MountAt(ms, "/sys/fs/cgroup") == OrElse(SpecialMountAt(t, gid5, shmSize, shmExists, "/sys/fs/cgroup"), MountAt(mounts, "/sys/fs/cgroup"));
    assert MountAt(ms, "/dev/pts") == OrElse(SpecialMountAt(t, gid5, shmSize, shmExists, "/dev/pts"), MountAt(mounts, "/dev/pts"));
  }

  /**
   * The gid-5 check of setupSpecialMountSpecChanges: when rootless the
   * host's gid map is read first (its error is returned) and must cover
   * gid 5; a non-empty gid map in the spec must cover it too.
   */
  method CheckGid5(isRootless: bool, hostGids: Result<seq<IDMapping>, string>, specGids: seq<IDMapping>)
    returns (r: Result<bool, string>)
    ensures r.Err? <==> isRootless && hostGids.Err?
    ensures r.Err? ==> r.error == hostGids.error
    ensures r.Ok? ==> r.value == Gid5Available(isRootless, if hostGids.Ok? then hostGids.value else [], specGids)
  {
    var gid5Available := true;
    if isRootless {
      if hostGids.Err? {
        return Err(hostGids.error);
      }
      gid5Available := CheckIdsGreaterThan5(hostGids.value);
    }
    if gid5Available && |specGids| > 0 {
      gid5Available := CheckIdsGreaterThan5(specGids);
    }
    r := Ok(gid5Available);
  }

  /**
   * setupSpecialMountSpecChanges. The host gid map is consulted only when
   * rootless (an error there is returned); `shmExists` says whether the
   * host's /dev/shm exists. On success the result is SpecialApply of the
   * spec's mounts, whose effect SpecialApplyAt, SpecialApplyDestinations,
   * SpecialApplyUnique and SysOrCgroup state. The source writes /sys
   * before it reads the host gid map, and its list shares the spec's
   * backing array, so a replaced /sys entry is already in the spec when
   * that read fails; the run then stops with the error, so the gid check
   * is made first here and the spec's list is not modelled as shared.
   */
  method SetupSpecialMountSpecChanges(
    mounts: seq<Mount>, namespaces: seq<LinuxNamespace>, specGids: seq<IDMapping>, shmSize: string,
    isRootless: bool, hostGids: Result<seq<IDMapping>, string>, shmExists: bool)
    returns (r: Result<seq<Mount>, string>)
    ensures r.Err? <==> isRootless && hostGids.Err?
    ensures r.Err? ==> r.error == hostGids.error
    ensures r.Ok? ==>
      r.value == SpecialApply(mounts, TopologyOf(namespaces, isRootless),
        Gid5Available(isRootless, if hostGids.Ok? then hostGids.value else [], specGids), shmSize, shmExists)
  {
    var t := ScanTopology(namespaces, isRootless);
    var gid5 := CheckGid5(isRootless, hostGids, specGids);
    if gid5.Err? {
      return Err(gid5.error);
    }
    var ms := ApplySpecialMounts(mounts, t, gid5.value, shmSize, shmExists);
    r := Ok(ms);
  }

  /** One guarded addOrReplaceMount. */
  method AddMountIf(mounts: seq<Mount>, c: bool, m: Mount) returns (ms: seq<Mount>)
    ensures ms == Step(mounts, c, m)
  {
    ms := mounts;
    if c {
      ms := AddOrReplaceMount(ms, m);
    }
  }

  /** The mount writes of setupSpecialMountSpecChanges, in its order, once the topology and the gid-5 check are known. */
  method ApplySpecialMounts(mounts: seq<Mount>, t: Topology, gid5Available: bool, shmSize: string, shmExists: bool)
    returns (ms: seq<Mount>)
    ensures ms == SpecialApply(mounts, t, gid5Available, shmSize, shmExists)
  {
    var addCgroup := CanMountSys(t);
    ms := AddMountIf(mounts, !CanMountSys(t), SysBindMount);
    ms := AddMountIf(ms, !gid5Available, DevPtsMount);
    var isUserns := t.isNewUserns || t.isRootless;
    ms := AddMountIf(ms, isUserns && !t.isIpcns, MqueueMount);
    ms := AddMountIf(ms, isUserns && !t.isPidns, ProcMount);
    ms := AddMountIf(ms, addCgroup, CgroupMount);
    if isUserns && !t.isIpcns {
      ms := AddMountIf(ms, shmExists, ShmBindMount);
    } else {
      ms := AddMountIf(ms, shmSize != "", ShmTmpfsMount(shmSize));
    }
  }

  /** Appending a mount at a new destination adds that destination and keeps destinations unique. */
  lemma AppendMount(mounts: seq<Mount>, m: Mount)
    ensures Destinations(mounts + [m]) == Destinations(mounts) + {m.destination}
    ensures UniqueDestinations(mounts) && m.destination !in Destinations(mounts) ==> UniqueDestinations(mounts + [m])
  {
    assert forall j :: 0 <= j < |mounts| ==> (mounts + [m])[j] == mounts[j];
    assert (mounts + [m])[|mounts|] == m;
  }

  /** The bind mount of one generated file: rbind, plus NoBindOption for a file inside the bundle directory. */
  function BoundFileMount(bundlePath: string, dest: string, src: string): Mount {
    Mount(dest, "bind", src, ["rbind"] + (if Text.HasPrefix(src, bundlePath) then [NoBindOption] else []))
  }

  /** Every mount of the list is the bound-file mount of its own destination's entry. */
  predicate BoundFileMounts(mounts: seq<Mount>, bundlePath: string, bindFiles: map<string, string>) {
    forall i :: 0 <= i < |mounts| ==>
      mounts[i].destination in bindFiles &&
      mounts[i] == BoundFileMount(bundlePath, mounts[i].destination, bindFiles[mounts[i].destination])
  }

  /** Appending the mount of another entry keeps every mount the one of its entry. */
  lemma BoundFileMountsSnoc(mounts: seq<Mount>, bundlePath: string, bindFiles: map<string, string>, dest: string)
    requires BoundFileMounts(mounts, bundlePath, bindFiles) && dest in bindFiles
    ensures BoundFileMounts(mounts + [BoundFileMount(bundlePath, dest, bindFiles[dest])], bundlePath, bindFiles)
  {
    var r := mounts + [BoundFileMount(bundlePath, dest, bindFiles[dest])];
    assert forall i :: 0 <= i < |mounts| ==> r[i] == mounts[i];
  }

  /**
   * runSetupBoundFiles: one bind mount per entry of the destination-to-source
   * map; the order is Go's map iteration order, here an arbitrary choice.
   */
  method RunSetupBoundFiles(bundlePath: string, bindFiles: map<string, string>) returns (mounts: seq<Mount>)
    ensures |mounts| == |bindFiles|
    ensures Destinations(mounts) == bindFiles.Keys
    ensures UniqueDestinations(mounts)
    ensures forall i :: 0 <= i < |mounts| ==>
      mounts[i].destination in bindFiles &&
      mounts[i] == BoundFileMount(bundlePath, mounts[i].destination, bindFiles[mounts[i].destination])
  {
    mounts := [];
    var remaining := bindFiles.Keys;
    while remaining != {}
      invariant remaining <= bindFiles.Keys
      invariant Destinations(mounts) == bindFiles.Keys - remaining
      invariant |mounts| + |remaining| == |bindFiles.Keys|
      invariant UniqueDestinations(mounts)
      invariant BoundFileMounts(mounts, bundlePath, bindFiles)
      decreases |remaining|
    {
      var dest :| dest in remaining;
      var m := BoundFileMount(bundlePath, dest, bindFiles[dest]);
      AppendMount(mounts, m);
      BoundFileMountsSnoc(mounts, bundlePath, bindFiles, dest);
      mounts := mounts + [m];
      remaining := remaining - {dest};
    }
    assert BoundFileMounts(mounts, bundlePath, bindFiles);
  }
}
