# buildah `Run`: assembling the runtime spec

This project models the part of buildah's `Builder.Run` that assembles the
OCI runtime spec for a `RUN` step on Linux
(`vendor/github.com/containers/buildah/run_linux.go`), and proves properties
of that model in Dafny. The model covers:

- how the isolation is chosen, and how the finished spec is dispatched to the
  OCI runtime or the chroot runner;
- the devices: CDI separation of qualified device names, lifting the spec's
  devices into buildah's own device records, and the two ways devices reach
  the spec. Rootless runs get read-only or read-write bind mounts, skipping
  `/dev/ptmx`, `/dev/tty*` and destinations already mounted. Rootful runs get
  device entries plus cgroup allow rules;
- the namespace set-up (`setupNamespaces`, `configureNamespaces`): merging the
  installation's, the builder's and the run's namespace options, walking the
  options, coupling a user namespace with mappings and a network namespace,
  copying selected sysctls from `containers.conf`, choosing the hostname and
  adding a `HOSTNAME=` environment entry;
- the choice of network backend (slirp4netns, pasta or named networks) and
  the interface names `eth0`, `eth1`, … given to the networks;
- capabilities (defaults, adds, drops, and `all` in either list);
- resource limits (user and default ulimits, then default `RLIMIT_NOFILE` and
  `RLIMIT_NPROC` values taken from the host);
- mounts:
  - `addOrReplaceMount`;
  - the special mounts (`/sys`, `/dev/pts`, `/dev/mqueue`, `/proc`,
    `/sys/fs/cgroup`, `/dev/shm`) that depend on the namespace topology and
    on whether gid 5 is mapped;
  - bound files;
  - the run's volume mounts: option scanning, relabel, ownership, overlay
    mounts and their temporary directories, and bind defaults.

The runtime-tools generator is a class (`Oci.Generator`). Its fields are the
spec parts Run changes, and its methods update those fields in place. The
operations that change the generator or the builder's temporary-volume map
are methods. Each method is proved against a specification function of the
old state, and the properties are lemmas about those functions. File-system
actions of the volume code (cleanup, relabel, chown, temp dir, overlay mount)
are appended to an effect log. Whether each action succeeds is a function of
the log, supplied by the caller (`Volumes.Host`).

Modules: `Wrappers`, `Text` (prefixes, `Cut`, `Split`/`Join`, ASCII case,
decimal digits), `Keyed` (add-or-replace, remove and lookup on lists keyed by
a field), `Oci`, `Define`, `Mounts`, `Capabilities`, `Rlimits`, `Network`,
`Devices`, `Sysctls`, `Namespaces`, `Configure`, `Volumes`, `Run`.

## Model

All sources are in `vendor/github.com/containers/buildah/run_linux.go`; the
paths below name it in full.

| member | source | states |
|---|---|---|
| Run.ResolveIsolation | vendor/github.com/containers/buildah/run_linux.go:188-200 | the isolation is never the default: the run's if set, else the builder's, else the environment's, and OCI when the environment fails or gives the default |
| Run.DefaultsRunOci | vendor/github.com/containers/buildah/run_linux.go:188-200 | with nothing set and nothing usable from the environment, the run goes to the OCI runtime |
| Run.DispatchKinds | vendor/github.com/containers/buildah/run_linux.go:503-523 | only OCI, chroot and rootless OCI run, and nothing else does; chroot goes to the chroot runner; the runtime gets the isolation it was chosen for |
| Run.CreateArgs | vendor/github.com/containers/buildah/run_linux.go:503-523 | the runtime gets `--no-pivot` exactly when asked, `--no-new-keyring` exactly for rootless runs, and no other argument |
| Run.Dispatcher | vendor/github.com/containers/buildah/run_linux.go:503-523 | the final switch: OCI and rootless OCI go to the runtime with their create arguments, chroot to the chroot runner, anything else is an error; its properties are DispatchKinds and CreateArgs |
| Devices.Filter | vendor/github.com/containers/buildah/run_linux.go:95-102 | the kept specs satisfy the predicate and come from the input, and every input spec that satisfies it is kept |
| Devices.PartitionPermutes | vendor/github.com/containers/buildah/run_linux.go:95-102 | the qualified and unqualified lists together are a permutation of the device specs |
| Devices.CdiPassThrough | vendor/github.com/containers/buildah/run_linux.go:89-107 | with no CDI configuration directory, or no qualified name, the device specs come back unchanged |
| Devices.CdiKeepsSpecsOnce | vendor/github.com/containers/buildah/run_linux.go:108-122 | when injection returns a subset of its input, the result holds no spec more often than the input does and keeps every unqualified spec; after a failed refresh it is a permutation of the input |
| Devices.CdiAsWrittenDuplicates | vendor/github.com/containers/buildah/run_linux.go:111-122 | as written, a failed registry refresh makes every unqualified spec appear twice as often as in the input |
| Devices.CdiAsWrittenExample | vendor/github.com/containers/buildah/run_linux.go:111-122 | as written, `["vendor.com/gpu=0", "/dev/fuse"]` with a failed refresh gives `/dev/fuse` twice |
| Devices.CdiOutcome | vendor/github.com/containers/buildah/run_linux.go:73-123 | the shape of cdiSetupDevicesInSpec: the config error, the pass-through without directories or qualified specs, the configure and injection errors, and leftover-plus-unqualified on success; the leftover after a failed refresh is its last argument |
| Devices.CdiSetupDevicesInSpecAsWritten | vendor/github.com/containers/buildah/run_linux.go:73-123 | cdiSetupDevicesInSpec as written, keeping every spec as leftover when the refresh fails; CdiAsWrittenDuplicates and CdiAsWrittenExample show the duplication |
| Devices.CdiSetupDevicesInSpec | vendor/github.com/containers/buildah/run_linux.go:73-123 | cdiSetupDevicesInSpec as intended, keeping only the qualified specs as leftover when the refresh fails; CdiPassThrough and CdiKeepsSpecsOnce state its behaviour |
| Devices.ToBuildahDevices | vendor/github.com/containers/buildah/run_linux.go:130-157 | one buildah device per spec device, in order |
| Devices.DeviceRoundTrip | vendor/github.com/containers/buildah/run_linux.go:130-157 | a spec device of a known type with mode, uid and gid set converts to a buildah device and back to itself |
| Devices.BuildahDeviceRoundTrip | vendor/github.com/containers/buildah/run_linux.go:294-304 | a buildah device of a known type converts to a spec device and back, losing only its permissions and its separate source and destination |
| Devices.UnknownDeviceType | vendor/github.com/containers/buildah/run_linux.go:133-142 | a spec device of another type gets no type letter |
| Devices.SeparateDevicesFromRuntimeSpec | vendor/github.com/containers/buildah/run_linux.go:127-161 | returns the spec's devices as buildah devices and empties the spec's device list |
| Devices.CollectDevices | vendor/github.com/containers/buildah/run_linux.go:247-255 | the spec's devices, then those parsed from each device spec, then the run's, then the builder's; the first spec that fails to parse is the error |
| Devices.ParsedStaysFailed | vendor/github.com/containers/buildah/run_linux.go:248-254 | once a device spec fails to parse, the later specs change nothing |
| Devices.DeviceMountsMembers | vendor/github.com/containers/buildah/run_linux.go:268-291 | a mount is made exactly for the devices that are not `/dev/ptmx`, not under `/dev/tty` and not already a mount destination, with `rw` exactly when the permissions allow writes |
| Devices.DeviceMountsAtMost | vendor/github.com/containers/buildah/run_linux.go:268-291 | at most one mount per device, and none when every device is skipped |
| Devices.DeviceMounts | vendor/github.com/containers/buildah/run_linux.go:259-292 | the rootless bind mounts in device order: one per device that is not `/dev/ptmx`, not a `/dev/tty` device and not already mounted at its path, read-write exactly when the permissions contain `w`; DeviceMountsMembers and DeviceMountsAtMost state this |
| Devices.MountDevicesRootless | vendor/github.com/containers/buildah/run_linux.go:259-292 | the new device mounts go in front of the existing mounts, which stay unchanged |
| Devices.LinuxDevices | vendor/github.com/containers/buildah/run_linux.go:294-304 | one spec device per buildah device, in order |
| Devices.DeviceRules | vendor/github.com/containers/buildah/run_linux.go:305 | one allow rule per device, with its type, numbers and permissions |
| Devices.AddDevices | vendor/github.com/containers/buildah/run_linux.go:293-306 | devices are added or replaced by path in order; the rules are appended |
| Devices.AddDeviceList | vendor/github.com/containers/buildah/run_linux.go:293-306 | the loop over the device list and the rule list: add-or-replace of each converted device in order, one allow rule per device appended |
| Devices.AddDeviceStep | vendor/github.com/containers/buildah/run_linux.go:293-306 | one more device puts its spec device after the ones before it and its rule after theirs |
| Devices.AddedDeviceLookup | vendor/github.com/containers/buildah/run_linux.go:294-304 | after adding, a path names the last added device with that path, or the old device when none was added |
| Devices.ApplyDevices | vendor/github.com/containers/buildah/run_linux.go:257-307 | rootless runs change only the mounts, rootful runs only the devices and the rules |
| Network.ParseNetwork | vendor/github.com/containers/buildah/run_linux.go:692-696 | the name has no colon; name, colon and the comma-joined options rebuild the network string; without a colon there are no options |
| Network.RootlessUsesUserModeTool | vendor/github.com/containers/buildah/run_linux.go:697-725 | a rootless run never attaches named networks |
| Network.RootlessDefaultTool | vendor/github.com/containers/buildah/run_linux.go:697-713 | without a name, a rootless run uses the configured tool, slirp4netns when none is configured, and any other tool is an error |
| Network.SelectBackend | vendor/github.com/containers/buildah/run_linux.go:687-729 | the backend a run uses: the configuration error first; a rootless run without a name uses the configured default command (slirp4netns when unset, pasta, or an error for any other); slirp4netns and pasta get the options after `:`; any other name is an error when rootless, and a rootful run gets the comma-separated networks or the default network; ConfigErrorFails, RootlessDefaultTool, NamedToolUsed, RootlessOtherNameFails and RootfulNetworks state each branch |
| Network.ConfigErrorFails | vendor/github.com/containers/buildah/run_linux.go:687-690 | without the installation's configuration the selection fails with "failed to get container config" |
| Network.NamedToolUsed | vendor/github.com/containers/buildah/run_linux.go:692-713 | a network named slirp4netns or pasta selects that tool with the options after the `:`, rootless or not |
| Network.RootlessOtherNameFails | vendor/github.com/containers/buildah/run_linux.go:697-725 | a rootless run naming anything but slirp4netns or pasta fails with "cannot use networks as rootless" |
| Network.RootfulNetworks | vendor/github.com/containers/buildah/run_linux.go:714-729 | a rootful run naming no user-mode tool attaches the whole network string split at `,`, or the default network when the string is empty |
| Network.NetworksNonEmpty | vendor/github.com/containers/buildah/run_linux.go:709-729 | a rootful run attaching networks attaches at least one, the default network when none is named |
| Network.InterfaceNames | vendor/github.com/containers/buildah/run_linux.go:742-747 | every listed network gets an interface, named after the last position it appears at |
| Network.InterfacesDistinct | vendor/github.com/containers/buildah/run_linux.go:742-747 | different networks get different interface names |
| Network.EthNameInjective | vendor/github.com/containers/buildah/run_linux.go:745 | different positions give different `eth` names |
| Sysctls.SplitN2 | vendor/github.com/containers/buildah/run_linux.go:798 | splitting at the first `=` gives two parts exactly when there is an `=`, the first part has none, and the parts rebuild the entry |
| Sysctls.AddSysctlAsWritten | vendor/github.com/containers/buildah/run_linux.go:796-809 | the addSysctl closure as written: the dead format check, the panic on a matching entry without `=`, and prefix filtering otherwise; AsWrittenNeverRejects, AsWrittenPanics and AsWrittenAgrees state its behaviour |
| Sysctls.ApplySysctls | vendor/github.com/containers/buildah/run_linux.go:796-809 | the closure with the intended format check, which rejects an entry without `=` before the prefixes are tried; the other model functions use this one, and its properties are ApplySysctlsFails, ApplySysctlsSucceeds and ApplySysctlsStaysFailed |
| Sysctls.ApplySysctlsAppend | vendor/github.com/containers/buildah/run_linux.go:796-809 | running the intended closure over two lists is running it over the second from the map the first leaves, unless the first fails |
| Sysctls.AsWrittenStep | vendor/github.com/containers/buildah/run_linux.go:796-809 | one well-formed entry takes the closure as written to the same map as the intended closure |
| Sysctls.AsWrittenAgrees | vendor/github.com/containers/buildah/run_linux.go:796-809 | when every entry has a `=`, the closure as written and the intended one set the same map and neither fails, so they differ only on entries without `=` |
| Sysctls.AsWrittenNeverRejects | vendor/github.com/containers/buildah/run_linux.go:798-801 | as written, the format check never rejects an entry |
| Sysctls.AsWrittenPanics | vendor/github.com/containers/buildah/run_linux.go:798-805 | as written, an entry with no `=` whose name matches a prefix indexes past the split, where the corrected closure reports the format error |
| Sysctls.ApplySysctlsFails | vendor/github.com/containers/buildah/run_linux.go:796-809 | an entry with no `=` makes the corrected closure fail, with the first such entry's format error |
| Sysctls.MalformedEntryRejected | vendor/github.com/containers/buildah/run_linux.go:796-809 | in the corrected closure an entry without `=` fails with its own format error and sets nothing |
| Sysctls.FirstMalformedFails | vendor/github.com/containers/buildah/run_linux.go:796-809 | when every earlier entry is well formed, the first entry without `=` decides the error of the whole run |
| Sysctls.SingleEntry | vendor/github.com/containers/buildah/run_linux.go:796-809 | a single well-formed entry sets its name to its value exactly when the name starts with one of the prefixes |
| Sysctls.ApplySysctlsSucceeds | vendor/github.com/containers/buildah/run_linux.go:796-809 | with well-formed entries, the sysctls afterwards are the old ones plus exactly the matching names, and the others keep their values |
| Sysctls.ApplySysctlsStaysFailed | vendor/github.com/containers/buildah/run_linux.go:796-809 | the first error stops the closure |
| Sysctls.SplitAtFirst | vendor/github.com/containers/buildah/run_linux.go:798 | `name=value` with no `=` in the name splits into the name and the value |
| Sysctls.DomainnamePrefixTypo | vendor/github.com/containers/buildah/run_linux.go:843 | as written, the misspelt prefix never copies `kernel.domainname` |
| Sysctls.DomainnameCopied | vendor/github.com/containers/buildah/run_linux.go:843 | with the intended prefixes, `kernel.domainname` is copied with its value |
| Sysctls.UtsPrefixesAgree | vendor/github.com/containers/buildah/run_linux.go:843 | the prefix lists as written and as intended match the same names, except for names that start with one of the two domain-name spellings |
| Sysctls.MisspeltNameCopiedAsWritten | vendor/github.com/containers/buildah/run_linux.go:843 | an entry with the misspelt name `kernel.domainame` is copied by the prefixes as written and not by the intended ones |
| Namespaces.SetIfMatches | vendor/github.com/containers/buildah/run_linux.go:802-806 | a sysctl is set exactly when its name has one of the prefixes |
| Namespaces.AddSysctl | vendor/github.com/containers/buildah/run_linux.go:796-809 | the generator's sysctls and the error are those of the corrected closure |
| Namespaces.OptionSwitch | vendor/github.com/containers/buildah/run_linux.go:815-847 | the flags and sysctls after one option's switch are those of the specification step |
| Namespaces.DisposeOption | vendor/github.com/containers/buildah/run_linux.go:848-857 | a host option removes its namespace and any other option adds or replaces it; an unknown name is an error |
| Namespaces.ApplyNamespaceOption | vendor/github.com/containers/buildah/run_linux.go:814-857 | one pass of the option loop matches the specification step |
| Namespaces.ApplyOptionsStaysFailed | vendor/github.com/containers/buildah/run_linux.go:814-858 | the first failing option stops the loop |
| Namespaces.OptionFlagsKeepsNamespaces | vendor/github.com/containers/buildah/run_linux.go:815-847 | the switch changes flags and sysctls but no namespace |
| Namespaces.UnknownNameFails | vendor/github.com/containers/buildah/run_linux.go:848-857 | an option whose name is not a namespace type fails |
| Namespaces.HostRemovesKind | vendor/github.com/containers/buildah/run_linux.go:848-851 | after a host option its namespace is absent, and every other namespace is unchanged |
| Namespaces.NonHostSetsPath | vendor/github.com/containers/buildah/run_linux.go:827-857 | after a non-host option its namespace is present with the option's path, emptied for a relative network path, and every other namespace is unchanged |
| Namespaces.NetworkSelector | vendor/github.com/containers/buildah/run_linux.go:827-836 | a non-host network option with a relative path selects networks by that string, asks for a new network namespace, and configures the network unless it is disabled |
| Namespaces.OptionStepUnique | vendor/github.com/containers/buildah/run_linux.go:848-857 | one option keeps namespace kinds unique |
| Namespaces.ApplyOptionsUnique | vendor/github.com/containers/buildah/run_linux.go:814-858 | the whole loop keeps namespace kinds unique |
| Namespaces.OptionStep | vendor/github.com/containers/buildah/run_linux.go:814-858 | one pass of the option loop: the flag and sysctl part for the kind, then the removal or the add-or-replace of the namespace; OptionStepUnique and the lemmas about the two parts state its behaviour |
| Namespaces.ApplyOptions | vendor/github.com/containers/buildah/run_linux.go:814-858 | the option loop over the options in order, stopping at the first error; ApplyOptionsStaysFailed and ApplyOptionsUnique state its behaviour |
| Namespaces.Identity | vendor/github.com/containers/buildah/run_linux.go:872-876 | each host range becomes an identity range of the same size |
| Namespaces.AddLinuxUIDMapping | vendor/github.com/containers/buildah/run_linux.go:870 | appends one uid mapping |
| Namespaces.AddLinuxGIDMapping | vendor/github.com/containers/buildah/run_linux.go:878 | appends one gid mapping |
| Namespaces.AddUIDMappings | vendor/github.com/containers/buildah/run_linux.go:869-876 | appends the run's uid mappings, or the identity of the host's when there are none |
| Namespaces.AddGIDMappings | vendor/github.com/containers/buildah/run_linux.go:877-884 | appends the run's gid mappings, or the identity of the host's when there are none |
| Namespaces.UsernsForced | vendor/github.com/containers/buildah/run_linux.go:861-890 | with mappings or a requested user namespace: a new user namespace and the mappings are added, and so is a new network namespace unless one was specified |
| Namespaces.UsernsDropped | vendor/github.com/containers/buildah/run_linux.go:891-900 | otherwise the user namespace is removed, the network namespace too unless one was specified, and the mappings are unchanged |
| Namespaces.CoupleNamespaces | vendor/github.com/containers/buildah/run_linux.go:860-900 | the namespaces and mappings after the coupling are those of the specification |
| Namespaces.Couple | vendor/github.com/containers/buildah/run_linux.go:860-900 | the code after the loop: with ID mappings or a new user namespace, a user namespace, the mappings and a network namespace unless one was specified; otherwise both are removed; UsernsForced and UsernsDropped state this |
| Namespaces.FinishNamespaces | vendor/github.com/containers/buildah/run_linux.go:860-906 | coupling and then the network sysctls match the specification |
| Namespaces.SetupNamespaces | vendor/github.com/containers/buildah/run_linux.go:790-907 | namespaces, sysctls, mappings and the returned flags are those of the specification; an error is exactly the specification's error |
| Namespaces.Finish | vendor/github.com/containers/buildah/run_linux.go:860-907 | the code after the option loop: the user and network coupling, then the network sysctls when the network is configured, the first error stopping it |
| Namespaces.SetupNamespacesSpec | vendor/github.com/containers/buildah/run_linux.go:790-907 | setupNamespaces as a function of the spec parts, options and host facts: the option loop, the coupling, then the network sysctls; SetupNamespaces is proved equal to it |
| Configure.MergedOptionsLookup | vendor/github.com/containers/buildah/run_linux.go:915-934 | for each namespace: a disabled network forces a new network namespace, otherwise the run's last option wins over the builder's, and the builder's over the default |
| Configure.MergedOptionsUnique | vendor/github.com/containers/buildah/run_linux.go:915-934 | merging keeps option names unique |
| Configure.MergedOptions | vendor/github.com/containers/buildah/run_linux.go:915-934 | the options given to setupNamespaces: defaults overridden by the builder's, then the run's, then a new network namespace when the network is disabled; MergedOptionsLookup and MergedOptionsUnique state this |
| Configure.PolicyAfterDisabled | vendor/github.com/containers/buildah/run_linux.go:919-931 | the policy written back is disabled exactly when the policy in force is |
| Configure.HostnameChoice | vendor/github.com/containers/buildah/run_linux.go:940-950 | no hostname without a UTS namespace of its own; otherwise the run's, the builder's or the truncated id, in that order |
| Configure.ChooseHostname | vendor/github.com/containers/buildah/run_linux.go:940-950 | the run's hostname, else the builder's, else the truncated container id, and none without a UTS namespace of the run's own; HostnameChoice states this |
| Configure.SetHostname | vendor/github.com/containers/buildah/run_linux.go:940-950 | sets the chosen hostname |
| Configure.HostnameEnvSet | vendor/github.com/containers/buildah/run_linux.go:952-962 | the environment keeps its entries, gains at most one, and afterwards sets HOSTNAME; the new entry carries the hostname |
| Configure.HostnameEnvIdempotent | vendor/github.com/containers/buildah/run_linux.go:952-962 | a second pass changes nothing |
| Configure.WithHostnameEnv | vendor/github.com/containers/buildah/run_linux.go:952-962 | the environment with `HOSTNAME=` and the hostname appended unless an entry already sets it; HostnameEnvSet and HostnameEnvIdempotent state this |
| Configure.AddHostnameEnv | vendor/github.com/containers/buildah/run_linux.go:952-962 | the search loop and append match the specification |
| Configure.ConfigureNamespaces | vendor/github.com/containers/buildah/run_linux.go:909-965 | policy resolution, merged options, namespace set-up, hostname and environment match their specifications; errors pass through |
| Oci.KindFromName | vendor/github.com/containers/buildah/run_linux.go:848-857 | exactly the namespace type names are recognised |
| Oci.Generator.AddOrReplaceLinuxNamespace | vendor/github.com/containers/buildah/run_linux.go:852-857 | an unknown name fails and changes nothing; otherwise the namespace of that kind is added or replaced |
| Oci.Generator.RemoveLinuxNamespace | vendor/github.com/containers/buildah/run_linux.go:848-851 | an unknown name fails and changes nothing; otherwise the namespace of that kind is removed |
| Mounts.RunSetupBoundFiles | vendor/github.com/containers/buildah/run_linux.go:967-981 | one recursive bind mount per bound file, at exactly the bound destinations, each once, with `nobuildahbind` exactly for sources inside the bundle |
| Mounts.BoundFileMount | vendor/github.com/containers/buildah/run_linux.go:967-981 | the mount of one generated file: a recursive bind, with `nobuildahbind` when the source lies inside the bundle directory; RunSetupBoundFiles is stated in terms of it |
| Rlimits.ToU64 | vendor/github.com/containers/buildah/run_linux.go:1004 | the conversion to uint64 keeps non-negative values and wraps negative ones |
| Rlimits.TypeForInjective | vendor/github.com/containers/buildah/run_linux.go:1004 | different upper-cased names give different rlimit types |
| Rlimits.NofileIsNotNproc | vendor/github.com/containers/buildah/run_linux.go:998-1003 | the two default limits have different types |
| Rlimits.Requested | vendor/github.com/containers/buildah/run_linux.go:1004 | one rlimit per parsed ulimit, in order |
| Rlimits.FirstUnparsed | vendor/github.com/containers/buildah/run_linux.go:993-996 | the position of the first entry that does not parse, or the length when all parse |
| Rlimits.AddProcessRlimits | vendor/github.com/containers/buildah/run_linux.go:1004 | a limit is added or replaced by type |
| Rlimits.ApplyUlimits | vendor/github.com/containers/buildah/run_linux.go:992-1005 | the entries before the first one that fails to parse are applied in order; the error names that entry; the two set flags say whether NOFILE and NPROC were named |
| Rlimits.AddDefaultRlimits | vendor/github.com/containers/buildah/run_linux.go:1006-1029 | the unnamed ones of NOFILE and NPROC get their defaults |
| Rlimits.AddRlimits | vendor/github.com/containers/buildah/run_linux.go:983-1032 | defaults first, then the run's ulimits; a parse error stops after the entries before it; otherwise the defaults for NOFILE and NPROC follow |
| Rlimits.RlimitsAfter | vendor/github.com/containers/buildah/run_linux.go:983-1032 | the process rlimits after every ulimit parsed: the ulimits by add-or-replace in order, then NOFILE and NPROC defaults (the larger host maximum, or 1048576) for the types no ulimit names; AddRlimits states that the list equals it on success, and the Default* lemmas and RequestedWins state its content |
| Rlimits.DefaultMaxIs | vendor/github.com/containers/buildah/run_linux.go:1007-1015 | the default is 1048576, or the host's maximum when it is higher or the run is rootless |
| Rlimits.TypeIsName | vendor/github.com/containers/buildah/run_linux.go:998-1004 | a ulimit sets a limit type exactly when its name, upper-cased, names it |
| Rlimits.DefaultsTypes | vendor/github.com/containers/buildah/run_linux.go:1006-1029 | a default is added for NOFILE and for NPROC exactly when no ulimit names them |
| Rlimits.NofileAndNprocSet | vendor/github.com/containers/buildah/run_linux.go:983-1032 | afterwards both NOFILE and NPROC are set |
| Rlimits.DefaultNofile | vendor/github.com/containers/buildah/run_linux.go:1006-1017 | an unnamed NOFILE gets soft and hard limits equal to the default maximum |
| Rlimits.DefaultNproc | vendor/github.com/containers/buildah/run_linux.go:1018-1029 | an unnamed NPROC gets soft and hard limits equal to the default maximum |
| Rlimits.RequestedWins | vendor/github.com/containers/buildah/run_linux.go:993-1029 | a limit named by a ulimit holds the value of the last ulimit naming it |
| Volumes.FlagWordsDistinct | vendor/github.com/containers/buildah/run_linux.go:1048-1062 | the switch's words are distinct and none is a propagation mode |
| Volumes.ScanSnoc | vendor/github.com/containers/buildah/run_linux.go:1047-1077 | the scan processes options one at a time, in order |
| Volumes.ScanFlags | vendor/github.com/containers/buildah/run_linux.go:1047-1063 | each of `rw`, `ro`, `z`, `Z`, `O`, `U` is found exactly when it is among the options |
| Volumes.ScanLast | vendor/github.com/containers/buildah/run_linux.go:1061-1076 | the propagation, upperdir and workdir are those of the last option that sets them |
| Volumes.Scan | vendor/github.com/containers/buildah/run_linux.go:1047-1077 | the option scan of parseMount: the flag words and the last propagation, upperdir and workdir settings; ScanFlags, ScanLast and RootPropFrom state this |
| Volumes.RootPropFrom | vendor/github.com/containers/buildah/run_linux.go:1061-1062 | no propagation is found exactly when no option is one; a found one is among the options |
| Volumes.DefaultedOptionsShape | vendor/github.com/containers/buildah/run_linux.go:1078-1080 | the requested options come first, at most two are added, and the result names an access mode and a propagation mode |
| Volumes.DefaultedOptionsExact | vendor/github.com/containers/buildah/run_linux.go:1078-1080 | exactly `rw` is appended when neither `rw` nor `ro` is requested, then exactly `private` when no option is a propagation mode, and nothing else |
| Volumes.DefaultsFill | vendor/github.com/containers/buildah/run_linux.go:1078-1080 | for any flags consistent with the options: the requested options stay in front, at most two are added, and the result names an access mode and a propagation mode |
| Volumes.BindMountShape | vendor/github.com/containers/buildah/run_linux.go:1133-1145 | a mount without `O` keeps destination, source and requested options, and is a recursive bind unless it is tmpfs |
| Volumes.PrepareEffects | vendor/github.com/containers/buildah/run_linux.go:1081-1095 | the preparation only relabels and changes ownership, at most three actions |
| Volumes.OverlayPairingChecked | vendor/github.com/containers/buildah/run_linux.go:1096-1099 | `O` with only one of upperdir and workdir fails before any overlay directory is made or mounted |
| Volumes.NonOverlayParse | vendor/github.com/containers/buildah/run_linux.go:1133-1145 | without `O`, a parse that gets past the preparation yields the bind mount and touches no temporary volume |
| Volumes.OverlayEffects | vendor/github.com/containers/buildah/run_linux.go:1100-1131 | a successful overlay makes a temporary directory under the container directory, mounts it, and registers exactly that directory as a temporary volume |
| Volumes.ParseGrows | vendor/github.com/containers/buildah/run_linux.go:1044-1146 | one parse only appends actions and only adds temporary volumes |
| Volumes.ParseMountSpec | vendor/github.com/containers/buildah/run_linux.go:1044-1146 | the parseMount closure as a function of the host and the effects so far; NonOverlayParse, OverlayPairingChecked, OverlayEffects and ParseGrows state its behaviour |
| Volumes.ParseStepMount | vendor/github.com/containers/buildah/run_linux.go:1149-1156 | a successful step appends exactly the parsed mount |
| Volumes.ParseAllSnoc | vendor/github.com/containers/buildah/run_linux.go:1149-1170 | the loops process requests one at a time, in order |
| Volumes.ParseAllStaysFailed | vendor/github.com/containers/buildah/run_linux.go:1149-1170 | the first failing request stops the loops |
| Volumes.ParseAllMounts | vendor/github.com/containers/buildah/run_linux.go:1149-1170 | success gives one mount per request, in order, each request without `O` as its bind mount |
| Volumes.ParseAllAppend | vendor/github.com/containers/buildah/run_linux.go:1149-1170 | parsing the run's mounts and then the volumes is parsing the two lists one after the other, from the state the first leaves |
| Volumes.ParseAllMountsFor | vendor/github.com/containers/buildah/run_linux.go:1149-1170 | every successful parse keeps the mounts already made in front and adds the bind mount of each later request without `O` |
| Volumes.VolumeRequestsPrefix | vendor/github.com/containers/buildah/run_linux.go:1158-1164 | the requests of the first volumes are the first requests of all volumes |
| Volumes.ParseAllGrows | vendor/github.com/containers/buildah/run_linux.go:1149-1170 | the loops only append actions and only add temporary volumes |
| Volumes.SetupVolumesSpec | vendor/github.com/containers/buildah/run_linux.go:1034-1172 | runSetupVolumeMounts as a function: the two start-up errors, then the run's mounts and the container's volumes parsed in order; RunSetupVolumeMounts is proved equal to it and ParseAllMounts states its mounts |
| Volumes.VolumeRequestShape | vendor/github.com/containers/buildah/run_linux.go:1158-1165 | a container volume binds its first part at its second, with its comma-separated options (they rebuild the third part) and a trailing `rbind` |
| Volumes.Builder.ScanOptions | vendor/github.com/containers/buildah/run_linux.go:1045-1077 | the loop computes the scan |
| Volumes.Builder.PrepareSource | vendor/github.com/containers/buildah/run_linux.go:1081-1095 | relabel and ownership actions and their errors match the specification |
| Volumes.Builder.MountOverlay | vendor/github.com/containers/buildah/run_linux.go:1096-1131 | the overlay branch matches the specification |
| Volumes.Builder.ParseMount | vendor/github.com/containers/buildah/run_linux.go:1044-1146 | the mount, the action log and the temporary volumes are those of the specification |
| Volumes.Builder.RunSetupVolumeMounts | vendor/github.com/containers/buildah/run_linux.go:1034-1172 | both errors at the start, then the run's own mounts, then the container's volumes, match the specification |
| Volumes.Builder.ParseOptionMounts | vendor/github.com/containers/buildah/run_linux.go:1149-1156 | the loop over the run's own mounts matches the specification, stopping at the first error |
| Volumes.Builder.ParseVolumeMounts | vendor/github.com/containers/buildah/run_linux.go:1158-1170 | the loop over the container's volumes, continuing from the mounts made so far, matches the specification, stopping at the first error |
| Volumes.Builder.ParseVolume | vendor/github.com/containers/buildah/run_linux.go:1158-1170 | one volume request parsed after the ones before it, as the specification says |
| Volumes.Builder.VolumeRequestOf | vendor/github.com/containers/buildah/run_linux.go:1160-1164 | the request of a split volume: its options, or none, followed by `rbind`, as a bind mount |
| Capabilities.ClearProcessCapabilities | vendor/github.com/containers/buildah/run_linux.go:1223 | all four capability sets are empty |
| Capabilities.SetupCapAdd | vendor/github.com/containers/buildah/run_linux.go:1186-1202 | the capabilities join the bounding, effective, permitted and ambient sets |
| Capabilities.SetupCapDrop | vendor/github.com/containers/buildah/run_linux.go:1204-1220 | the capabilities leave all four sets |
| Capabilities.SetupCapabilities | vendor/github.com/containers/buildah/run_linux.go:1222-1243 | all four sets hold exactly the specified capability set |
| Capabilities.DropAllClears | vendor/github.com/containers/buildah/run_linux.go:1233-1238 | dropping `all`, in any case, leaves no capability |
| Capabilities.DropWins | vendor/github.com/containers/buildah/run_linux.go:1239-1242 | a dropped capability is never granted |
| Capabilities.Granted | vendor/github.com/containers/buildah/run_linux.go:1222-1243 | without `all` among the drops, a capability is granted exactly when it is a default or an effective add and is not dropped |
| Capabilities.CapabilitySet | vendor/github.com/containers/buildah/run_linux.go:1222-1243 | the capabilities granted: the defaults with the adds (or every known capability for `all`), minus the drops, or none when `all` is dropped; Granted, DropWins and DropAllClears state this |
| Capabilities.AddAllGrantsKnown | vendor/github.com/containers/buildah/run_linux.go:1227-1232 | adding `all` grants every known capability that is not dropped |
| Mounts.AddOrReplaceMount | vendor/github.com/containers/buildah/run_linux.go:1245-1253 | replaces the first mount at the same destination, or appends |
| Mounts.AddOrReplaceEffect | vendor/github.com/containers/buildah/run_linux.go:1245-1253 | other mounts are kept; the destination now holds the new mount; the destinations gain it; unique destinations stay unique |
| Mounts.ScanTopology | vendor/github.com/containers/buildah/run_linux.go:1266-1277 | the loop finds which of the network, user, pid and ipc namespaces are present |
| Mounts.CheckGid5 | vendor/github.com/containers/buildah/run_linux.go:1294-1304 | fails exactly for a rootless run whose host mappings cannot be read; otherwise says whether gid 5 is mapped by the host (rootless) and by the spec's mappings |
| Mounts.ApplySpecialMounts | vendor/github.com/containers/buildah/run_linux.go:1279-1369 | the add-or-replace sequence matches the specification |
| Mounts.SpecialApply | vendor/github.com/containers/buildah/run_linux.go:1279-1369 | the six guarded add-or-replace writes /sys, /dev/pts, /dev/mqueue, /proc, /sys/fs/cgroup and /dev/shm, in the source's order; its effect is stated by SpecialApplyAt, SpecialAt, SpecialApplyDestinations, SpecialApplyUnique and SysOrCgroup |
| Mounts.SpecialApplyAt | vendor/github.com/containers/buildah/run_linux.go:1279-1369 | after the special mounts every destination holds the special mount the topology calls for, or else its old mount |
| Mounts.SpecialAt | vendor/github.com/containers/buildah/run_linux.go:1279-1369 | each destination holds the special mount the topology calls for, or else its old mount |
| Mounts.SpecialApplyDestinations | vendor/github.com/containers/buildah/run_linux.go:1279-1369 | the destinations are the old ones plus exactly those the topology calls for |
| Mounts.SpecialApplyUnique | vendor/github.com/containers/buildah/run_linux.go:1279-1369 | unique destinations stay unique |
| Mounts.SpecialDestinationsTable | vendor/github.com/containers/buildah/run_linux.go:1279-1369 | a destination is added exactly when the topology calls for a mount there |
| Mounts.SysOrCgroup | vendor/github.com/containers/buildah/run_linux.go:1279-1314 | `/sys` is bind-mounted read-only exactly when sysfs cannot be mounted, otherwise the cgroup mount is added; `/dev/pts` is replaced exactly when gid 5 is unavailable |
| Mounts.SetupSpecialMountSpecChanges | vendor/github.com/containers/buildah/run_linux.go:1258-1372 | fails exactly for a rootless run whose host mappings cannot be read; otherwise the special mounts for the spec's namespaces and gid availability |
| Mounts.CheckIdsGreaterThan5 | vendor/github.com/containers/buildah/run_linux.go:1374-1381 | true exactly when some range starts at or below 5 and ends above it, with the end computed in uint32 |
| Mounts.CheckIdsCoversFive | vendor/github.com/containers/buildah/run_linux.go:1374-1381 | for ranges that do not wrap around, exactly when some range covers id 5 |

## Left out

- Creating, evaluating and removing the bundle directory, stdio, environment
  defaults, process arguments, masked and read-only paths, seccomp, AppArmor,
  SELinux labels, hooks, ownership of bind files, hosts and resolv.conf
  files, and the execution backends (`runUsingRuntimeSubproc`,
  `RunUsingChroot`). These surround the spec assembly, and most are I/O.
- `checkAndOverrideIsolationOptions` and `addCommonOptsToSpec` are not part
  of this model. Their helpers live in other files.
- Network set-up and teardown (`setupSlirp4netnsNetwork`, `setupPasta`,
  opening the network namespace, `NetworkInterface.Setup`). These are I/O
  and foreign calls. Only the choice of backend and the interface names are
  modelled.
- `getCacheMount` and the stdio pipe helpers are not part of this model.
- Values from the host, the configuration and other libraries are
  parameters:
  - `config.Default()` (the sysctls, the default rootless network command,
    the CDI spec directories);
  - `DefaultNamespaceOptions`;
  - `unshare.IsRootless` and `unshare.GetHostIDMappings`;
  - `unix.Getrlimit`;
  - `butil.ParseUlimit`;
  - `parse.DeviceFromPath`;
  - `parse.IsolationOption`;
  - `parser.IsQualifiedName` and the CDI registry's configure, refresh and
    injection;
  - `stringid.TruncateID`;
  - `b.Hostname()`;
  - whether `/dev/shm` exists;
  - the default network's name.
- `Volumes.Builder.RunSetupVolumeMounts`: takes the volumes already split at
  unescaped colons, because `parse.SplitStringWithColonEscape` is another
  library. It requires at least two parts per volume, because the code
  indexes the first two parts unconditionally.
- Volume file-system actions (overlay cleanup, relabel, chown, overlay temp
  dir, overlay mount) are recorded as effects. Their outcome and the mount
  they produce come from the `Host` functions. The uid and gid passed to
  chown and overlay, and the graph options, are not recorded.
- Outside module `Volumes`, error messages of wrapped errors keep only their
  fixed prefix and the wrapped cause is not modelled. In `Volumes`, the
  container-directory, overlay-cleanup and temporary-directory errors end in
  `": "` and the cause the `Host` gives, as `%w` prints it.
- `Namespaces.SetupNamespaces`: when it fails, only the error is specified,
  not what the generator holds at that point.
- The generator's capability operations are set insertion and removal. The
  generator's own validation and upper-casing of capability names are not
  modelled. Its check of mapping counts and its other spec sections are not
  modelled either.
- `Mounts.RunSetupBoundFiles`: the order of a Go map iteration is
  unspecified, so the order of the mounts is left open.
- Logging (debug, warnings) is not modelled.
- `Devices.AddDevices`: the source stores pointers to the loop variable's mode, uid, gid, major and minor
  numbers. The model gives each device and rule its own values, which holds with per-iteration loop
  variables (Go 1.22 and later). Under an older language version every added device and rule would
  point at the last device's values; the module's Go version is not part of this model.
- `Namespaces.OptionFlags`, `Namespaces.SysctlStep`, `Namespaces.NetSysctls` and `Namespaces.AddSysctl` use the
  intended sysctl closure (`Sysctls.ApplySysctls`) and the intended UTS prefixes (`Sysctls.UtsPrefixes`), not
  the code as written. They differ from the source on four kinds of input:
  - An entry without `=` that matches no prefix is skipped by the source but rejected here with the format
    error.
  - An entry without `=` that matches a prefix makes the source panic but is rejected here with the format
    error.
  - An entry named `kernel.domainname…` under a new UTS namespace is not copied by the source but is copied
    here (`Sysctls.DomainnamePrefixTypo`, `Sysctls.DomainnameCopied`).
  - An entry named `kernel.domainame…` (the source's misspelt prefix) under a new UTS namespace is copied by
    the source but not copied here (`Sysctls.MisspeltNameCopiedAsWritten`).
  `Sysctls.AsWrittenAgrees` shows that the two closures agree on entries that all contain `=`.
  `Sysctls.UtsPrefixesAgree` shows that the two prefix lists match the same names, excluding names that
  start with either domain-name spelling. Together these cover every other input. The findings below
  record the first and third kinds.
- `Namespaces.OptionSwitch`, `Namespaces.ApplyNamespaceOption`, `Namespaces.OptionStep` and
  `Namespaces.ApplyOptions`: the same four differences, through the sysctl steps of the IPC and UTS options.
- `Namespaces.Finish`: the same differences for the network sysctls, through `Namespaces.NetSysctls`.
- `Namespaces.SetupNamespacesSpec`, `Namespaces.FinishNamespaces` and `Namespaces.SetupNamespaces`: the same
  four differences, through the IPC and UTS options and the network sysctls.
- `Configure.ConfigureNamespaces`: the same four differences, through `Namespaces.SetupNamespaces`.
- `Mounts.SetupSpecialMountSpecChanges`: the source's mount list shares the spec's backing array, so a
  replaced `/sys` entry is written into the spec before the host gid map is read. The model makes the gid
  check first and returns a new list, so it does not capture that sharing. A failed read stops the run, so
  the spec it leaves behind is never used.
- `Text.ToUpper` and `Text.ToLower` map ASCII letters only, while Go's `strings.ToUpper` and
  `strings.ToLower` map all of Unicode. They agree on `all` and on the ulimit names `ParseUlimit` accepts.
  The ulimit parser is a parameter, so a name outside ASCII can reach `Rlimits.ToRlimit` and
  `Rlimits.Names`, which then upper-case it differently from Go.

## Findings

| source | as written | input that shows it | evidently intended | confidence | as-written member | corrected member |
|---|---|---|---|---|---|---|
| vendor/github.com/containers/buildah/run_linux.go:798-805 | the format check tests for more than two parts, which a split limited to two never returns; the value is then indexed unconditionally | a containers.conf sysctl `net.ipv4.ping_group_range` (no `=`) on a run with network configured: the name matches `net`, so indexing the missing value panics | reject an entry without `=` with the format error | not executed; high | Sysctls.AsWrittenPanics | Sysctls.ApplySysctlsFails |
| vendor/github.com/containers/buildah/run_linux.go:843 | the UTS prefixes are `kernel.hostname` and `kernel.domainame` | a containers.conf sysctl `kernel.domainname=example.com` on a run with a private UTS namespace is not copied | copy `kernel.domainname` too | not executed; high | Sysctls.DomainnamePrefixTypo | Sysctls.DomainnameCopied |
| vendor/github.com/containers/buildah/run_linux.go:111-122 | when the CDI registry cannot be refreshed, every device spec is kept as leftover, and the unqualified specs are then appended again | device specs `vendor.com/gpu=0` and `/dev/fuse` with a failing refresh give `/dev/fuse` twice | leftover is the qualified specs, so each spec appears once | not executed; medium | Devices.CdiAsWrittenDuplicates | Devices.CdiKeepsSpecsOnce |
