/**
 * The buildah option types that Run's spec assembly reads: the network
 * policy, the isolation kind, the per-namespace options, the id-mapping
 * options of a run, and buildah's device description (an OCI device plus
 * the host path it is bound from and the path it appears at).
 */
module Define {
  import opened Wrappers
  import opened Oci
  import Keyed

  /** How a run's network is configured; the default defers to the builder's setting. */
  datatype NetworkPolicy = NetworkDefault | NetworkDisabled | NetworkEnabled

  /** The isolation kinds; `IsolationOther` is any other value of the underlying integer. */
  datatype Isolation = IsolationDefault | IsolationOCI | IsolationChroot | IsolationOCIRootless | IsolationOther(code: int)

  /** One namespace request: share the host's (`host`), join the one at `path`, or create one (`path == ""`). */
  datatype NamespaceOption = NamespaceOption(name: string, host: bool, path: string)

  function OptionName(o: NamespaceOption): string { o.name }

  /** NamespaceOptions.AddOrReplace: each option replaces the first one of the same name, else is appended. */
  function AddOrReplaceOptions(opts: seq<NamespaceOption>, more: seq<NamespaceOption>): seq<NamespaceOption> {
    Keyed.UpsertAll(opts, OptionName, more)
  }

  /** The explicit uid and gid maps of a run. */
  datatype IDMappingOptions = IDMappingOptions(uidMap: seq<IDMapping>, gidMap: seq<IDMapping>)

  /** A device as buildah carries it: its cgroup rule fields, node attributes, and bind source and destination. */
  datatype BuildahDevice = BuildahDevice(
    path: string, typ: char, major: int, minor: int,
    fileMode: u32, uid: u32, gid: u32,
    permissions: string, source: string, destination: string)

  /** The zero value of a Go rune: a device type the runtime spec did not name. */
  const NoDeviceType := 0 as char
}
