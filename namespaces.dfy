/**
 * The namespace part of a run's runtime spec (setupNamespaces and
 * configureNamespaces). Each namespace option either shares the host's
 * namespace (the kind is removed from the spec) or asks for a new or an
 * existing one (the kind is added or replaced with the option's path).
 * A relative network path names a network backend rather than a namespace
 * file. ID mappings force a user namespace, which in turn brings a network
 * namespace unless one was specified. Sysctls from the configuration are
 * applied for the IPC, UTS and network namespaces by prefix.
 */
module Namespaces {
  import opened Wrappers
  import opened Oci
  import opened Define
  import Keyed
  import Text
  import Sysctls

  const MqueuePrefixes: seq<string> := ["fs.mqueue"]
  const NetPrefixes: seq<string> := ["net"]

  /** The loop flags of setupNamespaces. */
  datatype NsFlags = NsFlags(configureUserns: bool, specifiedNetwork: bool, configureNetwork: bool,
                             networkString: string, configureUTS: bool)

  const NoFlags := NsFlags(false, false, false, "", false)

  /** The parts of the spec that setupNamespaces changes, with its loop flags. */
  datatype NsState = NsState(namespaces: seq<LinuxNamespace>, sysctl: map<string, string>, flags: NsFlags)

  function RemoveError(name: string): string {
    "removing \"" + name + "\" namespace for run"
  }

  function AddError(name: string, path: string): string {
    if path == "" then "adding new \"" + name + "\" namespace for run"
    else "adding \"" + name + "\" namespace \"" + path + "\" for run"
  }

  /** A relative (non-empty, non-absolute) network path: it selects a network backend. */
  predicate IsNetworkSelector(o: NamespaceOption) {
    o.name == "network" && !o.host && o.path != "" && !Text.IsAbs(o.path)
  }

  /** The path the spec gets for a non-host option: a network selector becomes a new namespace. */
  function EffectivePath(o: NamespaceOption): string {
    if IsNetworkSelector(o) then "" else o.path
  }

  /**
   * Applies configured sysctls with the given prefixes to the state, by the
   * intended closure of module Sysctls (an entry without '=' is a format
   * error); the closure as written is Sysctls.AddSysctlAsWritten.
   */
  function SysctlStep(st: NsState, sysctls: seq<string>, prefixes: seq<string>): Result<NsState, string> {
    var r := Sysctls.ApplySysctls(st.sysctl, sysctls, prefixes);
    if r.err.Some? then Err(r.err.value) else Ok(st.(sysctl := r.sysctl))
  }

  /** The per-kind part of the loop body: flags and sysctls, before the namespace list is touched. */
  function OptionFlags(st: NsState, o: NamespaceOption, policy: NetworkPolicy, sysctls: seq<string>): Result<NsState, string> {
    var f := st.flags;
    if o.name == "ipc" then
      if !o.host then SysctlStep(st, sysctls, MqueuePrefixes) else Ok(st)
    else if o.name == "user" then
      Ok(st.(flags := f.(configureUserns := !o.host && o.path == "")))
    else if o.name == "network" then
      if !o.host && (o.path == "" || !Text.IsAbs(o.path)) then
        Ok(st.(flags := f.(specifiedNetwork := true, configureNetwork := policy != NetworkDisabled,
                           networkString := if IsNetworkSelector(o) then o.path else f.networkString)))
      else Ok(st.(flags := f.(specifiedNetwork := true, configureNetwork := false)))
    else if o.name == "uts" then
      if !o.host then SysctlStep(st.(flags := f.(configureUTS := o.path == "")), sysctls, Sysctls.UtsPrefixes)
      else Ok(st.(flags := f.(configureUTS := false)))
    else Ok(st)
  }

  /** The disposition: share the host's namespace (remove the kind) or add or replace it with the effective path. */
  function Dispose(st: NsState, o: NamespaceOption): Result<NsState, string> {
    var kind := KindFromName(o.name);
    if kind.None? then Err(if o.host then RemoveError(o.name) else AddError(o.name, EffectivePath(o)))
    else if o.host then Ok(st.(namespaces := Keyed.RemoveFirst(st.namespaces, KindOf, kind.value)))
    else Ok(st.(namespaces := Keyed.Upsert(st.namespaces, KindOf, LinuxNamespace(kind.value, EffectivePath(o)))))
  }

  /** One iteration of the option loop. */
  function OptionStep(st: NsState, o: NamespaceOption, policy: NetworkPolicy, sysctls: seq<string>): Result<NsState, string> {
    var pre := OptionFlags(st, o, policy, sysctls);
    if pre.Err? then pre else Dispose(pre.value, o)
  }

  /** The option loop; the first error stops it. */
  function ApplyOptions(st: NsState, opts: seq<NamespaceOption>, policy: NetworkPolicy, sysctls: seq<string>): Result<NsState, string>
    decreases |opts|
  {
    if opts == [] then Ok(st)
    else
      var init := ApplyOptions(st, opts[..|opts| - 1], policy, sysctls);
      if init.Err? then init else OptionStep(init.value, opts[|opts| - 1], policy, sysctls)
  }

  /** Identity entries copied from the host's map: each container id maps to itself. */
  function Identity(host: seq<IDMapping>): (r: seq<IDMapping>)
    ensures |r| == |host|
    ensures forall k :: 0 <= k < |host| ==>
      r[k].containerID == host[k].containerID && r[k].hostID == host[k].containerID && r[k].size == host[k].size
  {
    seq(|host|, k requires 0 <= k < |host| => IDMapping(host[k].containerID, host[k].containerID, host[k].size))
  }

  /** The mappings a run adds: its own map, or the identity over the host's map when it has none. */
  function AddedMappings(own: seq<IDMapping>, host: seq<IDMapping>): seq<IDMapping> {
    if |own| > 0 then own else Identity(host)
  }

  /** Whether the run needs a user namespace of its own. */
  predicate NeedsUserns(idmap: IDMappingOptions, f: NsFlags) {
    |idmap.uidMap| > 0 || |idmap.gidMap| > 0 || f.configureUserns
  }

  /** The result of a successful setupNamespaces: the changed spec parts and the flags it returns. */
  datatype NsSetup = NsSetup(namespaces: seq<LinuxNamespace>, sysctl: map<string, string>,
                             uidMappings: seq<IDMapping>, gidMappings: seq<IDMapping>, flags: NsFlags)

  /** The coupling after the loop: a user namespace (with ID mappings) brings a new network namespace unless one was specified. */
  function Couple(st: NsState, uids: seq<IDMapping>, gids: seq<IDMapping>, idmap: IDMappingOptions,
                  hostIds: Result<(seq<IDMapping>, seq<IDMapping>), string>, policy: NetworkPolicy): Result<NsSetup, string>
  {
    var f := st.flags;
    if NeedsUserns(idmap, f) then
      var ns1 := Keyed.Upsert(st.namespaces, KindOf, LinuxNamespace(UserNs, ""));
      if hostIds.Err? then Err(hostIds.error)
      else
        var uids' := uids + AddedMappings(idmap.uidMap, hostIds.value.0);
        var gids' := gids + AddedMappings(idmap.gidMap, hostIds.value.1);
        if !f.specifiedNetwork then
          Ok(NsSetup(Keyed.Upsert(ns1, KindOf, LinuxNamespace(NetworkNs, "")), st.sysctl, uids', gids',
                     f.(configureNetwork := policy != NetworkDisabled)))
        else Ok(NsSetup(ns1, st.sysctl, uids', gids', f))
    else
      var ns1 := Keyed.RemoveFirst(st.namespaces, KindOf, UserNs);
      var ns2 := if !f.specifiedNetwork then Keyed.RemoveFirst(ns1, KindOf, NetworkNs) else ns1;
      Ok(NsSetup(ns2, st.sysctl, uids, gids, f))
  }

  /** The network sysctls, applied when the network is to be configured. */
  function NetSysctls(setup: NsSetup, sysctls: seq<string>): Result<NsSetup, string> {
    if setup.flags.configureNetwork then
      var r := Sysctls.ApplySysctls(setup.sysctl, sysctls, NetPrefixes);
      if r.err.Some? then Err(r.err.value) else Ok(setup.(sysctl := r.sysctl))
    else Ok(setup)
  }

  /** The part after the loop. */
  function Finish(st: NsState, uids: seq<IDMapping>, gids: seq<IDMapping>, idmap: IDMappingOptions,
                  hostIds: Result<(seq<IDMapping>, seq<IDMapping>), string>, policy: NetworkPolicy, sysctls: seq<string>): Result<NsSetup, string>
  {
    var coupled := Couple(st, uids, gids, idmap, hostIds, policy);
    if coupled.Err? then coupled else NetSysctls(coupled.value, sysctls)
  }

  /** setupNamespaces as a function of the spec's parts before it, the options and the host's facts. */
  function SetupNamespacesSpec(namespaces: seq<LinuxNamespace>, sysctl: map<string, string>, uids: seq<IDMapping>, gids: seq<IDMapping>,
                               opts: seq<NamespaceOption>, idmap: IDMappingOptions, policy: NetworkPolicy,
                               sysctls: Result<seq<string>, string>,
                               hostIds: Result<(seq<IDMapping>, seq<IDMapping>), string>): Result<NsSetup, string>
  {
    if sysctls.Err? then Err("failed to get container config")
    else
      var st := ApplyOptions(NsState(namespaces, sysctl, NoFlags), opts, policy, sysctls.value);
      if st.Err? then Err(st.error) else Finish(st.value, uids, gids, idmap, hostIds, policy, sysctls.value)
  }

  /** Once a prefix of the options fails, the whole loop fails the same way. */
  lemma {:induction false} ApplyOptionsStaysFailed(st: NsState, opts: seq<NamespaceOption>, policy: NetworkPolicy, sysctls: seq<string>, k: nat)
    requires k <= |opts|
    requires ApplyOptions(st, opts[..k], policy, sysctls).Err?
    ensures ApplyOptions(st, opts, policy, sysctls) == ApplyOptions(st, opts[..k], policy, sysctls)
    decreases |opts| - k
  {
    if k < |opts| {
      assert opts[..k + 1][..k] == opts[..k];
      ApplyOptionsStaysFailed(st, opts, policy, sysctls, k + 1);
    } else {
      assert opts[..k] == opts;
    }
  }

  /** The prefix loop for one well-formed entry. */
  method SetIfMatches(g: Generator, name: string, value: string, prefixes: seq<string>)
    modifies g`sysctl
    ensures g.sysctl == if Sysctls.MatchesAny(name, prefixes) then old(g.sysctl)[name := value] else old(g.sysctl)
  {
    for j := 0 to |prefixes|
      invariant g.sysctl == if Sysctls.MatchesAny(name, prefixes[..j]) then old(g.sysctl)[name := value] else old(g.sysctl)
    {
      MatchesAnySnoc(name, prefixes, j);
      if Text.HasPrefix(name, prefixes[j]) {
        g.sysctl := g.sysctl[name := value];
      }
    }
    assert prefixes[..|prefixes|] == prefixes;
  }

  lemma MatchesAnySnoc(name: string, prefixes: seq<string>, j: nat)
    requires j < |prefixes|
    ensures Sysctls.MatchesAny(name, prefixes[..j + 1]) <==> Sysctls.MatchesAny(name, prefixes[..j]) || Text.HasPrefix(name, prefixes[j])
  {
    assert prefixes[..j + 1] == prefixes[..j] + [prefixes[j]];
    if Sysctls.MatchesAny(name, prefixes[..j + 1]) {
      var k :| 0 <= k < j + 1 && Text.HasPrefix(name, prefixes[..j + 1][k]);
      if k < j { assert prefixes[..j][k] == prefixes[..j + 1][k]; }
    }
    if Sysctls.MatchesAny(name, prefixes[..j]) {
      var k :| 0 <= k < j && Text.HasPrefix(name, prefixes[..j][k]);
      assert prefixes[..j + 1][k] == prefixes[..j][k];
    }
    if Text.HasPrefix(name, prefixes[j]) {
      assert prefixes[..j + 1][j] == prefixes[j];
    }
  }

  /** The addSysctl closure: sets each configured sysctl whose name has one of the prefixes. */
  method AddSysctl(g: Generator, sysctls: seq<string>, prefixes: seq<string>) returns (err: Option<string>)
    modifies g`sysctl
    ensures Sysctls.SysctlResult(g.sysctl, err) == Sysctls.ApplySysctls(old(g.sysctl), sysctls, prefixes)
  {
    for i := 0 to |sysctls|
      invariant Sysctls.ApplySysctls(old(g.sysctl), sysctls[..i], prefixes) == Sysctls.SysctlResult(g.sysctl, None)
    {
      assert sysctls[..i + 1][..i] == sysctls[..i];
      var parts := Sysctls.SplitN2(sysctls[i]);
      if |parts| != 2 {
        Sysctls.ApplySysctlsStaysFailed(old(g.sysctl), sysctls, prefixes, i + 1);
        return Some(Sysctls.FormatError(sysctls[i]));
      }
      SetIfMatches(g, parts[0], parts[1], prefixes);
    }
    assert sysctls[..|sysctls|] == sysctls;
    err := None;
  }

  /** The switch on the namespace name in setupNamespaces' option loop. */
  method OptionSwitch(g: Generator, flags: NsFlags, o: NamespaceOption, policy: NetworkPolicy, sysctls: seq<string>)
    returns (r: Result<NsFlags, string>)
    modifies g`sysctl
    ensures var spec := OptionFlags(NsState(g.namespaces, old(g.sysctl), flags), o, policy, sysctls);
      (r.Err? <==> spec.Err?) && (r.Err? ==> r.error == spec.error) &&
      (r.Ok? ==> spec.value == NsState(g.namespaces, g.sysctl, r.value))
  {
    var f := flags;
    if o.name == "ipc" {
      if !o.host {
        var e := AddSysctl(g, sysctls, MqueuePrefixes);
        if e.Some? {
          return Err(e.value);
        }
      }
    } else if o.name == "user" {
      f := f.(configureUserns := false);
      if !o.host && o.path == "" {
        f := f.(configureUserns := true);
      }
    } else if o.name == "network" {
      f := f.(specifiedNetwork := true, configureNetwork := false);
      if !o.host && (o.path == "" || !Text.IsAbs(o.path)) {
        if o.path != "" && !Text.IsAbs(o.path) {
          f := f.(networkString := o.path);
        }
        f := f.(configureNetwork := policy != NetworkDisabled);
      }
    } else if o.name == "uts" {
      f := f.(configureUTS := false);
      if !o.host {
        if o.path == "" {
          f := f.(configureUTS := true);
        }
        var e := AddSysctl(g, sysctls, Sysctls.UtsPrefixes);
        if e.Some? {
          return Err(e.value);
        }
      }
    }
    return Ok(f);
  }

  /** The disposition in setupNamespaces' option loop: remove a host namespace, else add or replace it. */
  method DisposeOption(g: Generator, o: NamespaceOption) returns (ok: Option<string>)
    modifies g`namespaces
    ensures var spec := Dispose(NsState(old(g.namespaces), g.sysctl, NoFlags), o);
      (ok.Some? <==> spec.Err?) && (ok.Some? ==> ok.value == spec.error) &&
      (ok.None? ==> spec.value.namespaces == g.namespaces)
  {
    var path := o.path;
    if o.name == "network" && !o.host && (o.path == "" || !Text.IsAbs(o.path)) {
      if o.path != "" && !Text.IsAbs(o.path) {
        path := "";
      }
    }
    assert path == EffectivePath(o);
    if o.host {
      var done := g.RemoveLinuxNamespace(o.name);
      if !done {
        return Some(RemoveError(o.name));
      }
    } else {
      var done := g.AddOrReplaceLinuxNamespace(o.name, path);
      if !done {
        return Some(AddError(o.name, path));
      }
    }
    return None;
  }

  /** One iteration of setupNamespaces' option loop. */
  method ApplyNamespaceOption(g: Generator, flags: NsFlags, o: NamespaceOption, policy: NetworkPolicy, sysctls: seq<string>)
    returns (r: Result<NsFlags, string>)
    modifies g`namespaces, g`sysctl
    ensures var spec := OptionStep(NsState(old(g.namespaces), old(g.sysctl), flags), o, policy, sysctls);
      (r.Err? <==> spec.Err?) && (r.Err? ==> r.error == spec.error) &&
      (r.Ok? ==> spec.value == NsState(g.namespaces, g.sysctl, r.value))
  {
    r := OptionSwitch(g, flags, o, policy, sysctls);
    if r.Err? {
      return;
    }
    var e := DisposeOption(g, o);
    if e.Some? {
      return Err(e.value);
    }
  }

  /** The generator's AddLinuxUIDMapping: appends a mapping. */
  method AddLinuxUIDMapping(g: Generator, hostID: u32, containerID: u32, size: u32)
    modifies g`uidMappings
    ensures g.uidMappings == old(g.uidMappings) + [IDMapping(containerID, hostID, size)]
  {
    g.uidMappings := g.uidMappings + [IDMapping(containerID, hostID, size)];
  }

  /** The generator's AddLinuxGIDMapping: appends a mapping. */
  method AddLinuxGIDMapping(g: Generator, hostID: u32, containerID: u32, size: u32)
    modifies g`gidMappings
    ensures g.gidMappings == old(g.gidMappings) + [IDMapping(containerID, hostID, size)]
  {
    g.gidMappings := g.gidMappings + [IDMapping(containerID, hostID, size)];
  }

  /** Adds the run's uid map, or the identity over the host's uid map when the run has none. */
  method AddUIDMappings(g: Generator, own: seq<IDMapping>, host: seq<IDMapping>)
    modifies g`uidMappings
    ensures g.uidMappings == old(g.uidMappings) + AddedMappings(own, host)
  {
    for i := 0 to |own|
      invariant g.uidMappings == old(g.uidMappings) + own[..i]
    {
      AddLinuxUIDMapping(g, own[i].hostID, own[i].containerID, own[i].size);
      assert own[..i + 1] == own[..i] + [own[i]];
    }
    assert own[..|own|] == own;
    if |own| == 0 {
      for i := 0 to |host|
        invariant g.uidMappings == old(g.uidMappings) + Identity(host[..i])
      {
        AddLinuxUIDMapping(g, host[i].containerID, host[i].containerID, host[i].size);
        assert Identity(host[..i + 1]) == Identity(host[..i]) + [IDMapping(host[i].containerID, host[i].containerID, host[i].size)];
      }
      assert host[..|host|] == host;
    }
  }

  /** Adds the run's gid map, or the identity over the host's gid map when the run has none. */
  method AddGIDMappings(g: Generator, own: seq<IDMapping>, host: seq<IDMapping>)
    modifies g`gidMappings
    ensures g.gidMappings == old(g.gidMappings) + AddedMappings(own, host)
  {
    for i := 0 to |own|
      invariant g.gidMappings == old(g.gidMappings) + own[..i]
    {
      AddLinuxGIDMapping(g, own[i].hostID, own[i].containerID, own[i].size);
      assert own[..i + 1] == own[..i] + [own[i]];
    }
    assert own[..|own|] == own;
    if |own| == 0 {
      for i := 0 to |host|
        invariant g.gidMappings == old(g.gidMappings) + Identity(host[..i])
      {
        AddLinuxGIDMapping(g, host[i].containerID, host[i].containerID, host[i].size);
        assert Identity(host[..i + 1]) == Identity(host[..i]) + [IDMapping(host[i].containerID, host[i].containerID, host[i].size)];
      }
      assert host[..|host|] == host;
    }
  }

  /** The user and network namespace coupling of setupNamespaces. */
  method CoupleNamespaces(g: Generator, f: NsFlags, idmap: IDMappingOptions,
                          hostIds: Result<(seq<IDMapping>, seq<IDMapping>), string>, policy: NetworkPolicy)
    returns (r: Result<NsFlags, string>)
    modifies g`namespaces, g`uidMappings, g`gidMappings
    ensures var spec := Couple(NsState(old(g.namespaces), g.sysctl, f), old(g.uidMappings), old(g.gidMappings), idmap, hostIds, policy);
      (r.Err? <==> spec.Err?) && (r.Err? ==> r.error == spec.error) &&
      (r.Ok? ==> spec.value == NsSetup(g.namespaces, g.sysctl, g.uidMappings, g.gidMappings, r.value))
  {
    var flags := f;
    UserAndNetworkNames();
    if |idmap.uidMap| > 0 || |idmap.gidMap| > 0 || f.configureUserns {
      var ok := g.AddOrReplaceLinuxNamespace("user", "");
      assert ok;
      if hostIds.Err? {
        return Err(hostIds.error);
      }
      AddUIDMappings(g, idmap.uidMap, hostIds.value.0);
      AddGIDMappings(g, idmap.gidMap, hostIds.value.1);
      if !f.specifiedNetwork {
        ok := g.AddOrReplaceLinuxNamespace("network", "");
        assert ok;
        flags := flags.(configureNetwork := policy != NetworkDisabled);
      }
    } else {
      var ok := g.RemoveLinuxNamespace("user");
      assert ok;
      if !f.specifiedNetwork {
        ok := g.RemoveLinuxNamespace("network");
        assert ok;
      }
    }
    return Ok(flags);
  }

  /** The part of setupNamespaces after the option loop. */
  method FinishNamespaces(g: Generator, f: NsFlags, idmap: IDMappingOptions,
                          hostIds: Result<(seq<IDMapping>, seq<IDMapping>), string>, policy: NetworkPolicy, sysctls: seq<string>)
    returns (r: Result<NsFlags, string>)
    modifies g`namespaces, g`sysctl, g`uidMappings, g`gidMappings
    ensures var spec := Finish(NsState(old(g.namespaces), old(g.sysctl), f), old(g.uidMappings), old(g.gidMappings), idmap, hostIds, policy, sysctls);
      (r.Err? <==> spec.Err?) && (r.Err? ==> r.error == spec.error) &&
      (r.Ok? ==> spec.value == NsSetup(g.namespaces, g.sysctl, g.uidMappings, g.gidMappings, r.value))
  {
    r := CoupleNamespaces(g, f, idmap, hostIds, policy);
    if r.Err? {
      return;
    }
    var flags := r.value;
    if flags.configureNetwork {
      var e := AddSysctl(g, sysctls, NetPrefixes);
      if e.Some? {
        return Err(e.value);
      }
    }
  }

  /**
   * setupNamespaces, with the configured sysctls (or the error reading the
   * configuration) and the host's id maps (or the error reading them) as
   * parameters. It returns whether to configure the network, the network
   * string a relative path selected, and whether to set the hostname.
   */
  method SetupNamespaces(g: Generator, opts: seq<NamespaceOption>, idmap: IDMappingOptions, policy: NetworkPolicy,
                         sysctls: Result<seq<string>, string>, hostIds: Result<(seq<IDMapping>, seq<IDMapping>), string>)
    returns (r: Result<NsFlags, string>)
    modifies g`namespaces, g`sysctl, g`uidMappings, g`gidMappings
    ensures var spec := SetupNamespacesSpec(old(g.namespaces), old(g.sysctl), old(g.uidMappings), old(g.gidMappings),
                                            opts, idmap, policy, sysctls, hostIds);
      (r.Err? <==> spec.Err?) && (r.Err? ==> r.error == spec.error) &&
      (r.Ok? ==> spec.value == NsSetup(g.namespaces, g.sysctl, g.uidMappings, g.gidMappings, r.value))
  {
    if sysctls.Err? {
      return Err("failed to get container config");
    }
    ghost var init := NsState(g.namespaces, g.sysctl, NoFlags);
    var flags := NoFlags;
    for i := 0 to |opts|
      invariant ApplyOptions(init, opts[..i], policy, sysctls.value) == Ok(NsState(g.namespaces, g.sysctl, flags))
      invariant g.uidMappings == old(g.uidMappings) && g.gidMappings == old(g.gidMappings)
    {
      assert opts[..i + 1][..i] == opts[..i];
      var step := ApplyNamespaceOption(g, flags, opts[i], policy, sysctls.value);
      if step.Err? {
        ApplyOptionsStaysFailed(init, opts, policy, sysctls.value, i + 1);
        return Err(step.error);
      }
      flags := step.value;
    }
    assert opts[..|opts|] == opts;
    r := FinishNamespaces(g, flags, idmap, hostIds, policy, sysctls.value);
  }

  /** The name switch changes flags and sysctls only. */
  lemma OptionFlagsKeepsNamespaces(st: NsState, o: NamespaceOption, policy: NetworkPolicy, sysctls: seq<string>)
    ensures OptionFlags(st, o, policy, sysctls).Ok? ==> OptionFlags(st, o, policy, sysctls).value.namespaces == st.namespaces
  {
  }

  /** An option naming no namespace kind is an error. */
  lemma UnknownNameFails(st: NsState, o: NamespaceOption, policy: NetworkPolicy, sysctls: seq<string>)
    requires KindFromName(o.name).None?
    ensures OptionStep(st, o, policy, sysctls).Err?
  {
  }

  /** A host option removes its kind from the namespace list; every other kind is looked up as before. */
  lemma HostRemovesKind(st: NsState, o: NamespaceOption, policy: NetworkPolicy, sysctls: seq<string>, k: NamespaceKind)
    requires o.host && Keyed.UniqueKeys(st.namespaces, KindOf)
    requires OptionStep(st, o, policy, sysctls).Ok?
    ensures KindFromName(o.name).Some?
    ensures var ns := OptionStep(st, o, policy, sysctls).value.namespaces;
      Keyed.Lookup(ns, KindOf, k) == if Some(k) == KindFromName(o.name) then None else Keyed.Lookup(st.namespaces, KindOf, k)
  {
    OptionFlagsKeepsNamespaces(st, o, policy, sysctls);
    Keyed.RemoveLookup(st.namespaces, KindOf, KindFromName(o.name).value, k);
  }

  /** A non-host option adds or replaces its kind with its effective path; every other kind is looked up as before. */
  lemma NonHostSetsPath(st: NsState, o: NamespaceOption, policy: NetworkPolicy, sysctls: seq<string>, k: NamespaceKind)
    requires !o.host
    requires OptionStep(st, o, policy, sysctls).Ok?
    ensures KindFromName(o.name).Some?
    ensures var ns := OptionStep(st, o, policy, sysctls).value.namespaces;
      Keyed.Lookup(ns, KindOf, k) ==
        if Some(k) == KindFromName(o.name) then Some(LinuxNamespace(k, EffectivePath(o))) else Keyed.Lookup(st.namespaces, KindOf, k)
  {
    OptionFlagsKeepsNamespaces(st, o, policy, sysctls);
    Keyed.UpsertLookup(st.namespaces, KindOf, LinuxNamespace(KindFromName(o.name).value, EffectivePath(o)), k);
  }

  /** A relative network path becomes the network string and a new network namespace, configured unless networking is disabled. */
  lemma NetworkSelector(st: NsState, o: NamespaceOption, policy: NetworkPolicy, sysctls: seq<string>)
    requires IsNetworkSelector(o)
    ensures OptionStep(st, o, policy, sysctls).Ok?
    ensures var r := OptionStep(st, o, policy, sysctls).value;
      r.flags.networkString == o.path && r.flags.specifiedNetwork && r.flags.configureNetwork == (policy != NetworkDisabled) &&
      Keyed.Lookup(r.namespaces, KindOf, NetworkNs) == Some(LinuxNamespace(NetworkNs, ""))
  {
    UserAndNetworkNames();
    var pre := OptionFlags(st, o, policy, sysctls);
    assert pre.Ok?;
    Keyed.UpsertLookup(pre.value.namespaces, KindOf, LinuxNamespace(NetworkNs, ""), NetworkNs);
  }

  /** An iteration keeps the namespace list free of two entries of one kind. */
  lemma OptionStepUnique(st: NsState, o: NamespaceOption, policy: NetworkPolicy, sysctls: seq<string>)
    requires Keyed.UniqueKeys(st.namespaces, KindOf)
    ensures OptionStep(st, o, policy, sysctls).Ok? ==> Keyed.UniqueKeys(OptionStep(st, o, policy, sysctls).value.namespaces, KindOf)
  {
    OptionFlagsKeepsNamespaces(st, o, policy, sysctls);
    var kind := KindFromName(o.name);
    if kind.Some? {
      if o.host {
        Keyed.RemoveUnique(st.namespaces, KindOf, kind.value);
      } else {
        Keyed.UpsertUnique(st.namespaces, KindOf, LinuxNamespace(kind.value, EffectivePath(o)));
      }
    }
  }

  /** The whole option loop keeps the namespace list free of two entries of one kind. */
  lemma {:induction false} ApplyOptionsUnique(st: NsState, opts: seq<NamespaceOption>, policy: NetworkPolicy, sysctls: seq<string>)
    requires Keyed.UniqueKeys(st.namespaces, KindOf)
    ensures ApplyOptions(st, opts, policy, sysctls).Ok? ==> Keyed.UniqueKeys(ApplyOptions(st, opts, policy, sysctls).value.namespaces, KindOf)
    decreases |opts|
  {
    if opts != [] {
      var init := ApplyOptions(st, opts[..|opts| - 1], policy, sysctls);
      ApplyOptionsUnique(st, opts[..|opts| - 1], policy, sysctls);
      if init.Ok? {
        OptionStepUnique(init.value, opts[|opts| - 1], policy, sysctls);
      }
    }
  }

  /** Mappings or a path-less user option force a new user namespace with the run's maps, or identity maps copied from the host; an unspecified network comes along. */
  lemma UsernsForced(st: NsState, uids: seq<IDMapping>, gids: seq<IDMapping>, idmap: IDMappingOptions,
                     hostUids: seq<IDMapping>, hostGids: seq<IDMapping>, policy: NetworkPolicy)
    requires NeedsUserns(idmap, st.flags)
    ensures var r := Couple(st, uids, gids, idmap, Ok((hostUids, hostGids)), policy);
      r.Ok? &&
      Keyed.Lookup(r.value.namespaces, KindOf, UserNs) == Some(LinuxNamespace(UserNs, "")) &&
      r.value.uidMappings == uids + (if |idmap.uidMap| > 0 then idmap.uidMap else Identity(hostUids)) &&
      r.value.gidMappings == gids + (if |idmap.gidMap| > 0 then idmap.gidMap else Identity(hostGids)) &&
      (!st.flags.specifiedNetwork ==>
        Keyed.Lookup(r.value.namespaces, KindOf, NetworkNs) == Some(LinuxNamespace(NetworkNs, "")) &&
        r.value.flags.configureNetwork == (policy != NetworkDisabled)) &&
      (st.flags.specifiedNetwork ==>
        Keyed.Lookup(r.value.namespaces, KindOf, NetworkNs) == Keyed.Lookup(st.namespaces, KindOf, NetworkNs) &&
        r.value.flags == st.flags)
  {
    var ns1 := Keyed.Upsert(st.namespaces, KindOf, LinuxNamespace(UserNs, ""));
    Keyed.UpsertLookup(st.namespaces, KindOf, LinuxNamespace(UserNs, ""), UserNs);
    Keyed.UpsertLookup(st.namespaces, KindOf, LinuxNamespace(UserNs, ""), NetworkNs);
    Keyed.UpsertLookup(ns1, KindOf, LinuxNamespace(NetworkNs, ""), UserNs);
    Keyed.UpsertLookup(ns1, KindOf, LinuxNamespace(NetworkNs, ""), NetworkNs);
  }

  /** Without mappings or a user option, the user namespace is dropped, and so is a network namespace nobody specified. */
  lemma UsernsDropped(st: NsState, uids: seq<IDMapping>, gids: seq<IDMapping>, idmap: IDMappingOptions,
                      hostIds: Result<(seq<IDMapping>, seq<IDMapping>), string>, policy: NetworkPolicy)
    requires !NeedsUserns(idmap, st.flags) && Keyed.UniqueKeys(st.namespaces, KindOf)
    ensures var r := Couple(st, uids, gids, idmap, hostIds, policy);
      r.Ok? && r.value.uidMappings == uids && r.value.gidMappings == gids && r.value.flags == st.flags &&
      Keyed.Lookup(r.value.namespaces, KindOf, UserNs) == None &&
      Keyed.Lookup(r.value.namespaces, KindOf, NetworkNs) ==
        if st.flags.specifiedNetwork then Keyed.Lookup(st.namespaces, KindOf, NetworkNs) else None
  {
    var ns1 := Keyed.RemoveFirst(st.namespaces, KindOf, UserNs);
    Keyed.RemoveLookup(st.namespaces, KindOf, UserNs, UserNs);
    Keyed.RemoveLookup(st.namespaces, KindOf, UserNs, NetworkNs);
    Keyed.RemoveUnique(st.namespaces, KindOf, UserNs);
    Keyed.RemoveLookup(ns1, KindOf, NetworkNs, UserNs);
    Keyed.RemoveLookup(ns1, KindOf, NetworkNs, NetworkNs);
  }
}
