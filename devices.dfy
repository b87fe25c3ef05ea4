/**
 * The devices of a run. Device specs naming CDI devices are resolved by the
 * CDI registry (cdiSetupDevicesInSpec); devices already in the runtime spec
 * are taken out of it as buildah devices (separateDevicesFromRuntimeSpec);
 * and the collected devices are then either bind-mounted from the host
 * (rootless, where device nodes cannot be created) or added back to the
 * spec's device list together with a cgroup rule allowing them.
 */
module Devices {
  import opened Wrappers
  import opened Oci
  import opened Define
  import Keyed
  import Text
  import Mounts

  /** The entries of `xs` satisfying `p`, in order. */
  function Filter(xs: seq<string>, p: string -> bool): (r: seq<string>)
    ensures forall k :: 0 <= k < |r| ==> p(r[k]) && r[k] in xs
    ensures forall s :: s in xs && p(s) ==> s in r
    decreases |xs|
  {
    if xs == [] then []
    else
      var init := Filter(xs[..|xs| - 1], p);
      assert forall s :: s in xs[..|xs| - 1] ==> s in xs;
      assert forall s :: s in xs ==> s in xs[..|xs| - 1] || s == xs[|xs| - 1] by {
        assert xs == xs[..|xs| - 1] + [xs[|xs| - 1]];
      }
      if p(xs[|xs| - 1]) then init + [xs[|xs| - 1]] else init
  }

  function Not(p: string -> bool): string -> bool {
    s => !p(s)
  }

  /** The split into qualified and unqualified specs loses and adds nothing. */
  lemma {:induction false} PartitionPermutes(specs: seq<string>, isQualified: string -> bool)
    ensures multiset(Filter(specs, isQualified)) + multiset(Filter(specs, Not(isQualified))) == multiset(specs)
    decreases |specs|
  {
    if specs != [] {
      var init := specs[..|specs| - 1];
      PartitionPermutes(init, isQualified);
      assert specs == init + [specs[|specs| - 1]];
    }
  }

  /** CDI configuration directories: the configured ones, then the builder's, then the run's. */
  function ConfigDirs(defaultDirs: seq<string>, builderDir: string, configDir: string): seq<string> {
    defaultDirs + (if builderDir != "" then [builderDir] else []) + (if configDir != "" then [configDir] else [])
  }

  /**
   * The shape of cdiSetupDevicesInSpec, with the configuration, the registry's
   * configure and refresh outcomes and its injection (which returns the
   * qualified specs it could not resolve) as parameters; `onRefreshFailure`
   * is the leftover list used when the registry cannot be refreshed.
   */
  function CdiOutcome(deviceSpecs: seq<string>, defaultDirs: Result<seq<string>, string>, builderDir: string, configDir: string,
                      isQualified: string -> bool, configureErr: Option<string>, refreshErr: Option<string>,
                      inject: seq<string> -> Result<seq<string>, string>, onRefreshFailure: seq<string>): Result<seq<string>, string>
  {
    if defaultDirs.Err? then Err("failed to get container config")
    else if ConfigDirs(defaultDirs.value, builderDir, configDir) == [] then Ok(deviceSpecs)
    else
      var qualified := Filter(deviceSpecs, isQualified);
      var unqualified := Filter(deviceSpecs, Not(isQualified));
      if qualified == [] then Ok(deviceSpecs)
      else if configureErr.Some? then Err("CDI default registry ignored configured directories")
      else if refreshErr.Some? then Ok(onRefreshFailure + unqualified)
      else
        var leftover := inject(qualified);
        if leftover.Err? then Err("CDI device injection") else Ok(leftover.value + unqualified)
  }

  /** cdiSetupDevicesInSpec as written: a failed refresh keeps every spec as leftover, then adds the unqualified ones again. */
  function CdiSetupDevicesInSpecAsWritten(deviceSpecs: seq<string>, defaultDirs: Result<seq<string>, string>, builderDir: string, configDir: string,
                                          isQualified: string -> bool, configureErr: Option<string>, refreshErr: Option<string>,
                                          inject: seq<string> -> Result<seq<string>, string>): Result<seq<string>, string>
  {
    CdiOutcome(deviceSpecs, defaultDirs, builderDir, configDir, isQualified, configureErr, refreshErr, inject, deviceSpecs)
  }

  /** cdiSetupDevicesInSpec with a failed refresh leaving the qualified specs (all unresolved) as leftover. */
  function CdiSetupDevicesInSpec(deviceSpecs: seq<string>, defaultDirs: Result<seq<string>, string>, builderDir: string, configDir: string,
                                 isQualified: string -> bool, configureErr: Option<string>, refreshErr: Option<string>,
                                 inject: seq<string> -> Result<seq<string>, string>): Result<seq<string>, string>
  {
    CdiOutcome(deviceSpecs, defaultDirs, builderDir, configDir, isQualified, configureErr, refreshErr, inject,
               Filter(deviceSpecs, isQualified))
  }

  /** Without configuration directories, or without a qualified spec, the specs pass through unchanged. */
  lemma CdiPassThrough(deviceSpecs: seq<string>, dirs: seq<string>, builderDir: string, configDir: string,
                       isQualified: string -> bool, configureErr: Option<string>, refreshErr: Option<string>,
                       inject: seq<string> -> Result<seq<string>, string>)
    requires ConfigDirs(dirs, builderDir, configDir) == [] || forall s :: s in deviceSpecs ==> !isQualified(s)
    ensures CdiSetupDevicesInSpec(deviceSpecs, Ok(dirs), builderDir, configDir, isQualified, configureErr, refreshErr, inject) == Ok(deviceSpecs)
  {
    var q := Filter(deviceSpecs, isQualified);
    assert |q| == 0 || (q[0] in deviceSpecs && isQualified(q[0]));
  }

  /**
   * As written, when the registry cannot be refreshed every unqualified spec
   * appears twice as often in the result as in the input.
   */
  lemma CdiAsWrittenDuplicates(deviceSpecs: seq<string>, dirs: seq<string>, builderDir: string, configDir: string,
                               isQualified: string -> bool, refreshErr: string,
                               inject: seq<string> -> Result<seq<string>, string>, u: string)
    requires ConfigDirs(dirs, builderDir, configDir) != []
    requires exists s :: s in deviceSpecs && isQualified(s)
    requires u in deviceSpecs && !isQualified(u)
    ensures var r := CdiSetupDevicesInSpecAsWritten(deviceSpecs, Ok(dirs), builderDir, configDir, isQualified, None, Some(refreshErr), inject);
      r.Ok? && multiset(r.value)[u] == 2 * multiset(deviceSpecs)[u] && multiset(r.value)[u] >= 2
  {
    var q := Filter(deviceSpecs, isQualified);
    var un := Filter(deviceSpecs, Not(isQualified));
    var s :| s in deviceSpecs && isQualified(s);
    assert s in q;
    PartitionPermutes(deviceSpecs, isQualified);
    assert multiset(q)[u] == 0;
    assert multiset(un)[u] == multiset(deviceSpecs)[u];
  }

  /** A concrete instance: a GPU by CDI name and a plain device node, with the refresh failing. */
  lemma CdiAsWrittenExample(isQualified: string -> bool, inject: seq<string> -> Result<seq<string>, string>)
    requires isQualified("vendor.com/gpu=0") && !isQualified("/dev/fuse")
    ensures CdiSetupDevicesInSpecAsWritten(["vendor.com/gpu=0", "/dev/fuse"], Ok(["/etc/cdi"]), "", "", isQualified, None, Some("refresh"), inject)
      == Ok(["vendor.com/gpu=0", "/dev/fuse", "/dev/fuse"])
  {
    var specs := ["vendor.com/gpu=0", "/dev/fuse"];
    var first := specs[..1];
    assert first == ["vendor.com/gpu=0"];
    assert first[..0] == [];
    assert Not(isQualified)("/dev/fuse") && !Not(isQualified)("vendor.com/gpu=0");
    assert Filter(first, isQualified) == ["vendor.com/gpu=0"];
    assert Filter(first, Not(isQualified)) == [];
    assert Filter(specs, Not(isQualified)) == ["/dev/fuse"];
    assert Filter(specs, isQualified) == ["vendor.com/gpu=0"];
    assert specs + ["/dev/fuse"] == ["vendor.com/gpu=0", "/dev/fuse", "/dev/fuse"];
  }

  /**
   * Corrected: when the registry only ever reports back some of the specs it
   * was given, no spec is duplicated, every unqualified spec is kept, and a
   * failed refresh keeps exactly the input specs.
   */
  lemma CdiKeepsSpecsOnce(deviceSpecs: seq<string>, dirs: seq<string>, builderDir: string, configDir: string,
                          isQualified: string -> bool, configureErr: Option<string>, refreshErr: Option<string>,
                          inject: seq<string> -> Result<seq<string>, string>)
    requires forall q :: inject(q).Ok? ==> multiset(inject(q).value) <= multiset(q)
    ensures var r := CdiSetupDevicesInSpec(deviceSpecs, Ok(dirs), builderDir, configDir, isQualified, configureErr, refreshErr, inject);
      r.Ok? ==> multiset(r.value) <= multiset(deviceSpecs) && multiset(Filter(deviceSpecs, Not(isQualified))) <= multiset(r.value)
    ensures var r := CdiSetupDevicesInSpec(deviceSpecs, Ok(dirs), builderDir, configDir, isQualified, configureErr, refreshErr, inject);
      refreshErr.Some? && configureErr.None? ==> r.Ok? && multiset(r.value) == multiset(deviceSpecs)
  {
    var q := Filter(deviceSpecs, isQualified);
    var un := Filter(deviceSpecs, Not(isQualified));
    PartitionPermutes(deviceSpecs, isQualified);
    var r := CdiSetupDevicesInSpec(deviceSpecs, Ok(dirs), builderDir, configDir, isQualified, configureErr, refreshErr, inject);
    if ConfigDirs(dirs, builderDir, configDir) == [] || q == [] {
      assert r == Ok(deviceSpecs);
    } else if configureErr.Some? {
      assert r.Err?;
    } else if refreshErr.Some? {
      assert r == Ok(q + un);
    } else if r.Ok? {
      assert r.value == inject(q).value + un;
    }
  }

  /** The buildah device for a runtime-spec device: unknown types become the zero rune, missing attributes zero. */
  function ToBuildahDevice(d: LinuxDevice): BuildahDevice {
    var t := match d.typ
      case "b" => 'b'
      case "c" => 'c'
      case "u" => 'u'
      case "p" => 'p'
      case _ => NoDeviceType;
    BuildahDevice(d.path, t, d.major, d.minor,
      if d.fileMode.Some? then d.fileMode.value else 0,
      if d.uid.Some? then d.uid.value else 0,
      if d.gid.Some? then d.gid.value else 0,
      "", d.path, d.path)
  }

  /** The runtime-spec device Run adds for a buildah device when not rootless. */
  function ToLinuxDevice(d: BuildahDevice): LinuxDevice {
    LinuxDevice(d.path, [d.typ], d.major, d.minor, Some(d.fileMode), Some(d.uid), Some(d.gid))
  }

  /** The cgroup rule allowing the device. */
  function DeviceRule(d: BuildahDevice): DeviceCgroupRule {
    DeviceCgroupRule(true, [d.typ], d.major, d.minor, d.permissions)
  }

  function ToBuildahDevices(ds: seq<LinuxDevice>): (r: seq<BuildahDevice>)
    ensures |r| == |ds|
    ensures forall k :: 0 <= k < |ds| ==> r[k] == ToBuildahDevice(ds[k])
  {
    seq(|ds|, k requires 0 <= k < |ds| => ToBuildahDevice(ds[k]))
  }

  /** A device of a known type with all attributes set survives the trip to a buildah device and back. */
  lemma DeviceRoundTrip(d: LinuxDevice)
    requires d.typ in ["b", "c", "u", "p"]
    requires d.fileMode.Some? && d.uid.Some? && d.gid.Some?
    ensures ToLinuxDevice(ToBuildahDevice(d)) == d
  {
  }

  /** A buildah device of a known type comes back from the spec with its path as bind source and destination and no permissions. */
  lemma BuildahDeviceRoundTrip(d: BuildahDevice)
    requires d.typ in "bcup"
    ensures ToBuildahDevice(ToLinuxDevice(d)) == d.(permissions := "", source := d.path, destination := d.path)
  {
  }

  /** A type the runtime spec does not name becomes the zero rune, so it is not b, c, u or p. */
  lemma UnknownDeviceType(d: LinuxDevice)
    requires d.typ !in ["b", "c", "u", "p"]
    ensures ToBuildahDevice(d).typ == NoDeviceType && ToBuildahDevice(d).typ !in "bcup"
  {
  }

  /** separateDevicesFromRuntimeSpec: the spec's devices, converted in order; the spec's list is cleared. */
  method SeparateDevicesFromRuntimeSpec(g: Generator) returns (result: seq<BuildahDevice>)
    modifies g`devices
    ensures result == ToBuildahDevices(old(g.devices))
    ensures g.devices == []
  {
    result := [];
    for i := 0 to |g.devices|
      invariant result == ToBuildahDevices(g.devices[..i])
    {
      result := result + [ToBuildahDevice(g.devices[i])];
    }
    assert g.devices[..|g.devices|] == g.devices;
    g.devices := [];
  }

  /** The permission of a device's bind mount: writable exactly when its permissions include write. */
  function Perm(d: BuildahDevice): string {
    if 'w' in d.permissions then "rw" else "ro"
  }

  function DeviceMount(d: BuildahDevice): Mount {
    Mount(d.destination, TypeBind, d.source, ["slave", "nosuid", "noexec", Perm(d), "rbind"])
  }

  /** Devices with no bind mount: the pty multiplexer, terminals, and paths already mounted (by destination). */
  predicate Skipped(d: BuildahDevice, mounted: set<string>) {
    d.path == "/dev/ptmx" || Text.HasPrefix(d.path, "/dev/tty") || d.path in mounted
  }

  /** The bind mounts for the given devices, in device order. */
  function DeviceMounts(devices: seq<BuildahDevice>, mounted: set<string>): seq<Mount>
    decreases |devices|
  {
    if devices == [] then []
    else
      var d := devices[|devices| - 1];
      DeviceMounts(devices[..|devices| - 1], mounted) + (if Skipped(d, mounted) then [] else [DeviceMount(d)])
  }

  /** A mount comes from a device exactly when that device is not skipped. */
  lemma {:induction false} DeviceMountsMembers(devices: seq<BuildahDevice>, mounted: set<string>, m: Mount)
    ensures m in DeviceMounts(devices, mounted) <==> exists d :: d in devices && !Skipped(d, mounted) && m == DeviceMount(d)
    decreases |devices|
  {
    if devices != [] {
      var init := devices[..|devices| - 1];
      DeviceMountsMembers(init, mounted, m);
      assert devices == init + [devices[|devices| - 1]];
    }
  }

  /** There is at most one bind mount per device, and none when every device is skipped. */
  lemma {:induction false} DeviceMountsAtMost(devices: seq<BuildahDevice>, mounted: set<string>)
    ensures |DeviceMounts(devices, mounted)| <= |devices|
    ensures (forall k :: 0 <= k < |devices| ==> Skipped(devices[k], mounted)) ==> DeviceMounts(devices, mounted) == []
    decreases |devices|
  {
    if devices != [] {
      var init := devices[..|devices| - 1];
      DeviceMountsAtMost(init, mounted);
      assert forall k :: 0 <= k < |init| ==> init[k] == devices[k];
    }
  }

  /** The rootless device loop: bind mounts for the devices, placed before every existing mount. */
  method MountDevicesRootless(g: Generator, devices: seq<BuildahDevice>)
    modifies g`mounts
    ensures g.mounts == DeviceMounts(devices, Mounts.Destinations(old(g.mounts))) + old(g.mounts)
  {
    var mounted := set k | 0 <= k < |g.mounts| :: g.mounts[k].destination;
    assert mounted == Mounts.Destinations(g.mounts);
    var newMounts := [];
    for i := 0 to |devices|
      invariant newMounts == DeviceMounts(devices[..i], mounted)
    {
      var d := devices[i];
      var perm := "ro";
      if 'w' in d.permissions {
        perm := "rw";
      }
      var devMnt := Mount(d.destination, TypeBind, d.source, ["slave", "nosuid", "noexec", perm, "rbind"]);
      assert devices[..i + 1][..i] == devices[..i];
      if d.path == "/dev/ptmx" || Text.HasPrefix(d.path, "/dev/tty") {
        continue;
      }
      if d.path in mounted {
        continue;
      }
      newMounts := newMounts + [devMnt];
    }
    assert devices[..|devices|] == devices;
    g.mounts := newMounts + g.mounts;
  }

  function LinuxDevices(devices: seq<BuildahDevice>): (r: seq<LinuxDevice>)
    ensures |r| == |devices|
    ensures forall k :: 0 <= k < |devices| ==> r[k] == ToLinuxDevice(devices[k])
    decreases |devices|
  {
    if devices == [] then [] else LinuxDevices(devices[..|devices| - 1]) + [ToLinuxDevice(devices[|devices| - 1])]
  }

  function DeviceRules(devices: seq<BuildahDevice>): (r: seq<DeviceCgroupRule>)
    ensures |r| == |devices|
    ensures forall k :: 0 <= k < |devices| ==> r[k] == DeviceRule(devices[k])
    decreases |devices|
  {
    if devices == [] then [] else DeviceRules(devices[..|devices| - 1]) + [DeviceRule(devices[|devices| - 1])]
  }

  /** The rootful device loop: each device is added or replaced by path, and a rule allowing it is appended. */
  method AddDevices(g: Generator, devices: seq<BuildahDevice>)
    modifies g`devices, g`deviceRules
    ensures g.devices == Keyed.UpsertAll(old(g.devices), DevicePath, LinuxDevices(devices))
    ensures g.deviceRules == old(g.deviceRules) + DeviceRules(devices)
  {
    var specDevices, rules := AddDeviceList(g.devices, g.deviceRules, devices);
    g.devices := specDevices;
    g.deviceRules := rules;
  }

  /** The loop of AddDevices over the spec's device list and rule list. */
  method AddDeviceList(existing: seq<LinuxDevice>, existingRules: seq<DeviceCgroupRule>, devices: seq<BuildahDevice>)
    returns (specDevices: seq<LinuxDevice>, rules: seq<DeviceCgroupRule>)
    ensures specDevices == Keyed.UpsertAll(existing, DevicePath, LinuxDevices(devices))
    ensures rules == existingRules + DeviceRules(devices)
  {
    specDevices, rules := existing, existingRules;
    for i := 0 to |devices|
      invariant specDevices == Keyed.UpsertAll(existing, DevicePath, LinuxDevices(devices[..i]))
      invariant rules == existingRules + DeviceRules(devices[..i])
    {
      var d := devices[i];
      AddDeviceStep(existing, devices, i);
      specDevices := Keyed.Upsert(specDevices, DevicePath, ToLinuxDevice(d));
      rules := rules + [DeviceRule(d)];
    }
    assert devices[..|devices|] == devices;
  }

  /** One more device: its spec device is added or replaced after the others, its rule appended after theirs. */
  lemma AddDeviceStep(existing: seq<LinuxDevice>, devices: seq<BuildahDevice>, i: nat)
    requires i < |devices|
    ensures Keyed.UpsertAll(existing, DevicePath, LinuxDevices(devices[..i + 1])) ==
      Keyed.Upsert(Keyed.UpsertAll(existing, DevicePath, LinuxDevices(devices[..i])), DevicePath, ToLinuxDevice(devices[i]))
    ensures DeviceRules(devices[..i + 1]) == DeviceRules(devices[..i]) + [DeviceRule(devices[i])]
  {
    assert devices[..i + 1][..i] == devices[..i];
    Keyed.UpsertAllSnoc(existing, DevicePath, LinuxDevices(devices[..i]), ToLinuxDevice(devices[i]));
  }

  /** After the rootful loop, each device path holds the last device added with that path; other paths are as before. */
  lemma AddedDeviceLookup(existing: seq<LinuxDevice>, devices: seq<BuildahDevice>, path: string)
    ensures var ld := LinuxDevices(devices);
      Keyed.Lookup(Keyed.UpsertAll(existing, DevicePath, ld), DevicePath, path) ==
        if Keyed.LastWith(ld, DevicePath, path).Some? then Keyed.LastWith(ld, DevicePath, path)
        else Keyed.Lookup(existing, DevicePath, path)
    ensures var ld := LinuxDevices(devices);
      Keyed.Keys(Keyed.UpsertAll(existing, DevicePath, ld), DevicePath) ==
        Keyed.Keys(existing, DevicePath) + (set k | 0 <= k < |devices| :: devices[k].path)
  {
    var ld := LinuxDevices(devices);
    Keyed.UpsertAllLookup(existing, DevicePath, ld, path);
    Keyed.UpsertAllKeys(existing, DevicePath, ld);
    assert Keyed.Keys(ld, DevicePath) == (set k | 0 <= k < |devices| :: devices[k].path);
  }

  /** Run's device step: bind mounts when rootless, spec devices and rules otherwise. */
  method ApplyDevices(g: Generator, devices: seq<BuildahDevice>, isRootless: bool)
    modifies g`mounts, g`devices, g`deviceRules
    ensures isRootless ==> g.mounts == DeviceMounts(devices, Mounts.Destinations(old(g.mounts))) + old(g.mounts) &&
                           g.devices == old(g.devices) && g.deviceRules == old(g.deviceRules)
    ensures !isRootless ==> g.mounts == old(g.mounts) &&
                            g.devices == Keyed.UpsertAll(old(g.devices), DevicePath, LinuxDevices(devices)) &&
                            g.deviceRules == old(g.deviceRules) + DeviceRules(devices)
  {
    if isRootless {
      MountDevicesRootless(g, devices);
    } else {
      AddDevices(g, devices);
    }
  }

  /** The devices named by specs, in order, via the device parser; the first spec that fails stops the run. */
  function ParsedDevices(specs: seq<string>, fromPath: string -> Result<seq<BuildahDevice>, string>): Result<seq<BuildahDevice>, string>
    decreases |specs|
  {
    if specs == [] then Ok([])
    else
      var init := ParsedDevices(specs[..|specs| - 1], fromPath);
      if init.Err? then init
      else
        var last := fromPath(specs[|specs| - 1]);
        if last.Err? then Err("setting up device \"" + specs[|specs| - 1] + "\"") else Ok(init.value + last.value)
  }

  /**
   * Run's device collection: the spec's own devices, then those parsed from
   * the (CDI-filtered) device specs, then the run's and the builder's
   * devices. The spec's device list is emptied on the way.
   */
  method CollectDevices(g: Generator, deviceSpecs: seq<string>, fromPath: string -> Result<seq<BuildahDevice>, string>,
                        optionDevices: seq<BuildahDevice>, builderDevices: seq<BuildahDevice>)
    returns (r: Result<seq<BuildahDevice>, string>)
    modifies g`devices
    ensures g.devices == []
    ensures var parsed := ParsedDevices(deviceSpecs, fromPath);
      if parsed.Err? then r == Err(parsed.error)
      else r == Ok(ToBuildahDevices(old(g.devices)) + parsed.value + optionDevices + builderDevices)
  {
    var devices := SeparateDevicesFromRuntimeSpec(g);
    ghost var separated := devices;
    for i := 0 to |deviceSpecs|
      invariant ParsedDevices(deviceSpecs[..i], fromPath).Ok?
      invariant devices == separated + ParsedDevices(deviceSpecs[..i], fromPath).value
    {
      assert deviceSpecs[..i + 1][..i] == deviceSpecs[..i];
      var device := fromPath(deviceSpecs[i]);
      if device.Err? {
        assert ParsedDevices(deviceSpecs[..i + 1], fromPath).Err?;
        ParsedStaysFailed(deviceSpecs, fromPath, i + 1);
        return Err("setting up device \"" + deviceSpecs[i] + "\"");
      }
      devices := devices + device.value;
    }
    assert deviceSpecs[..|deviceSpecs|] == deviceSpecs;
    r := Ok(devices + optionDevices + builderDevices);
  }

  /** Once a prefix of the specs fails to parse, every longer prefix fails with the same error. */
  lemma {:induction false} ParsedStaysFailed(specs: seq<string>, fromPath: string -> Result<seq<BuildahDevice>, string>, k: nat)
    requires k <= |specs|
    requires ParsedDevices(specs[..k], fromPath).Err?
    ensures ParsedDevices(specs, fromPath) == ParsedDevices(specs[..k], fromPath)
    decreases |specs| - k
  {
    if k < |specs| {
      assert specs[..k + 1][..k] == specs[..k];
      ParsedStaysFailed(specs, fromPath, k + 1);
    } else {
      assert specs[..k] == specs;
    }
  }
}
