/**
 * The parts of an OCI runtime spec that buildah's Run assembles, and the
 * runtime-tools generator object that holds the spec while it is built.
 * The generator's own operations are modelled as they behave: namespace
 * operations map a namespace name to its kind (an unknown name is an error)
 * and then add-or-replace or remove the entry of that kind.
 */
module Oci {
  import opened Wrappers
  import Keyed

  /** Go's uint32 and uint64. */
  type u32 = x: int | 0 <= x < 0x1_0000_0000
  type u64 = x: int | 0 <= x < 0x1_0000_0000_0000_0000

  /** The mount type buildah's parse package calls TypeBind. */
  const TypeBind := "bind"
  /** The option of buildah's bind package that keeps a mount out of its intermediate bind-mount namespace. */
  const NoBindOption := "nobuildahbind"

  datatype Mount = Mount(destination: string, typ: string, source: string, options: seq<string>)

  /** The key that makes a mount list a map from destinations to mounts. */
  function Destination(m: Mount): string { m.destination }

  datatype NamespaceKind = PidNs | NetworkNs | MountNs | IpcNs | UtsNs | UserNs | CgroupNs | TimeNs

  /** The namespace type names of the OCI runtime spec. */
  function KindName(k: NamespaceKind): string {
    match k
    case PidNs => "pid"
    case NetworkNs => "network"
    case MountNs => "mount"
    case IpcNs => "ipc"
    case UtsNs => "uts"
    case UserNs => "user"
    case CgroupNs => "cgroup"
    case TimeNs => "time"
  }

  /** The generator's name-to-kind mapping: exactly the spec's type names are recognised. */
  function KindFromName(name: string): (r: Option<NamespaceKind>)
    ensures r.Some? ==> KindName(r.value) == name
    ensures forall k :: KindName(k) == name ==> r == Some(k)
  {
    match name
    case "pid" => Some(PidNs)
    case "network" => Some(NetworkNs)
    case "mount" => Some(MountNs)
    case "ipc" => Some(IpcNs)
    case "uts" => Some(UtsNs)
    case "user" => Some(UserNs)
    case "cgroup" => Some(CgroupNs)
    case "time" => Some(TimeNs)
    case _ => None
  }

  /** The names setupNamespaces passes as constants are recognised as their kinds. */
  lemma UserAndNetworkNames()
    ensures KindFromName("user") == Some(UserNs)
    ensures KindFromName("network") == Some(NetworkNs)
  {
    assert KindName(UserNs) == "user";
    assert KindName(NetworkNs) == "network";
  }

  datatype LinuxNamespace = LinuxNamespace(kind: NamespaceKind, path: string)

  function KindOf(ns: LinuxNamespace): NamespaceKind { ns.kind }

  /** A contiguous range of ids: container ids [containerID, containerID+size) map to host ids from hostID. */
  datatype IDMapping = IDMapping(containerID: u32, hostID: u32, size: u32)

  datatype LinuxDevice = LinuxDevice(
    path: string, typ: string, major: int, minor: int,
    fileMode: Option<u32>, uid: Option<u32>, gid: Option<u32>)

  function DevicePath(d: LinuxDevice): string { d.path }

  /** A cgroup device-access rule of the spec's resources section. */
  datatype DeviceCgroupRule = DeviceCgroupRule(allow: bool, typ: string, major: int, minor: int, access: string)

  datatype Rlimit = Rlimit(typ: string, hard: u64, soft: u64)

  function RlimitType(r: Rlimit): string { r.typ }

  /** The runtime-tools generator: the spec under construction. */
  class Generator {
    var mounts: seq<Mount>
    var namespaces: seq<LinuxNamespace>
    var uidMappings: seq<IDMapping>
    var gidMappings: seq<IDMapping>
    var sysctl: map<string, string>
    var bounding: set<string>
    var effective: set<string>
    var permitted: set<string>
    var ambient: set<string>
    var rlimits: seq<Rlimit>
    var env: seq<string>
    var hostname: string
    var devices: seq<LinuxDevice>
    var deviceRules: seq<DeviceCgroupRule>

    /** AddOrReplaceLinuxNamespace: fails only on a name that is not a namespace type. */
    method AddOrReplaceLinuxNamespace(name: string, path: string) returns (ok: bool)
      modifies this`namespaces
      ensures ok <==> KindFromName(name).Some?
      ensures ok ==> namespaces == Keyed.Upsert(old(namespaces), KindOf, LinuxNamespace(KindFromName(name).value, path))
      ensures !ok ==> namespaces == old(namespaces)
    {
      var kind := KindFromName(name);
      ok := kind.Some?;
      if ok {
        namespaces := Keyed.Upsert(namespaces, KindOf, LinuxNamespace(kind.value, path));
      }
    }

    /** RemoveLinuxNamespace: fails only on a name that is not a namespace type. */
    method RemoveLinuxNamespace(name: string) returns (ok: bool)
      modifies this`namespaces
      ensures ok <==> KindFromName(name).Some?
      ensures ok ==> namespaces == Keyed.RemoveFirst(old(namespaces), KindOf, KindFromName(name).value)
      ensures !ok ==> namespaces == old(namespaces)
    {
      var kind := KindFromName(name);
      ok := kind.Some?;
      if ok {
        namespaces := Keyed.RemoveFirst(namespaces, KindOf, kind.value);
      }
    }
  }
}
