/**
 * configureNamespaces: the namespace options of the installation
 * defaults, the builder and the run are merged in that order of
 * precedence, the run's network policy is resolved against the builder's,
 * a disabled network forces a new (unconfigured) network namespace, the
 * namespaces are set up, the hostname is chosen and the environment gets
 * a HOSTNAME entry unless it has one.
 */
module Configure {
  import opened Wrappers
  import opened Oci
  import opened Define
  import Keyed
  import Text
  import Namespaces

  /** A run's policy, where the default defers to the builder's. */
  function ResolvePolicy(runPolicy: NetworkPolicy, builderPolicy: NetworkPolicy): NetworkPolicy {
    if runPolicy == NetworkDefault then builderPolicy else runPolicy
  }

  /** The run's policy as configureNamespaces leaves it: an inherited disabled policy is written back. */
  function PolicyAfter(runPolicy: NetworkPolicy, builderPolicy: NetworkPolicy): NetworkPolicy {
    if runPolicy == NetworkDefault && builderPolicy == NetworkDisabled then NetworkDisabled else runPolicy
  }

  /** The option that asks for a new network namespace. */
  function PrivateNetwork(): NamespaceOption { NamespaceOption("network", false, "") }

  /** The options handed to setupNamespaces. */
  function MergedOptions(defaults: seq<NamespaceOption>, builderOpts: seq<NamespaceOption>, runOpts: seq<NamespaceOption>,
                         policy: NetworkPolicy): seq<NamespaceOption>
  {
    var merged := AddOrReplaceOptions(AddOrReplaceOptions(defaults, builderOpts), runOpts);
    if policy == NetworkDisabled then AddOrReplaceOptions(merged, [PrivateNetwork()]) else merged
  }

  /** The hostname: the run's, else the builder's, else the truncated container id; none without a UTS namespace of its own. */
  function ChooseHostname(configureUTS: bool, runHostname: string, builderHostname: string, truncatedID: string): string {
    if !configureUTS then ""
    else if runHostname != "" then runHostname
    else if builderHostname != "" then builderHostname
    else truncatedID
  }

  const HostnameKey := "HOSTNAME="

  predicate IsHostnameEntry(entry: string) { Text.HasPrefix(entry, HostnameKey) }

  /** Whether an entry of the first `n` of `env` sets HOSTNAME. */
  predicate HasHostnameEntry(env: seq<string>, n: nat)
    requires n <= |env|
  {
    exists i :: 0 <= i < n && IsHostnameEntry(env[i])
  }

  /** The environment with a HOSTNAME entry for `hostname` appended unless one is there. */
  function WithHostnameEnv(env: seq<string>, hostname: string): seq<string> {
    if HasHostnameEntry(env, |env|) then env else env + [HostnameKey + hostname]
  }

  /** The run's options take precedence over the builder's, the builder's over the defaults'; a disabled network overrides them all. */
  lemma MergedOptionsLookup(defaults: seq<NamespaceOption>, builderOpts: seq<NamespaceOption>, runOpts: seq<NamespaceOption>,
                            policy: NetworkPolicy, name: string)
    ensures var r := Keyed.Lookup(MergedOptions(defaults, builderOpts, runOpts, policy), OptionName, name);
      r == if policy == NetworkDisabled && name == "network" then Some(PrivateNetwork())
           else if Keyed.LastWith(runOpts, OptionName, name).Some? then Keyed.LastWith(runOpts, OptionName, name)
           else if Keyed.LastWith(builderOpts, OptionName, name).Some? then Keyed.LastWith(builderOpts, OptionName, name)
           else Keyed.Lookup(defaults, OptionName, name)
  {
    var first := AddOrReplaceOptions(defaults, builderOpts);
    var merged := AddOrReplaceOptions(first, runOpts);
    Keyed.UpsertAllLookup(defaults, OptionName, builderOpts, name);
    Keyed.UpsertAllLookup(first, OptionName, runOpts, name);
    Keyed.UpsertAllSnoc(merged, OptionName, [], PrivateNetwork());
    Keyed.UpsertLookup(merged, OptionName, PrivateNetwork(), name);
  }

  /** Merging keeps the option names unique when the defaults' were. */
  lemma MergedOptionsUnique(defaults: seq<NamespaceOption>, builderOpts: seq<NamespaceOption>, runOpts: seq<NamespaceOption>,
                            policy: NetworkPolicy)
    requires Keyed.UniqueKeys(defaults, OptionName)
    ensures Keyed.UniqueKeys(MergedOptions(defaults, builderOpts, runOpts, policy), OptionName)
  {
    var first := AddOrReplaceOptions(defaults, builderOpts);
    var merged := AddOrReplaceOptions(first, runOpts);
    Keyed.UpsertAllUnique(defaults, OptionName, builderOpts);
    Keyed.UpsertAllUnique(first, OptionName, runOpts);
    Keyed.UpsertAllUnique(merged, OptionName, [PrivateNetwork()]);
  }

  /** The policy written back is disabled exactly when the policy in effect is. */
  lemma PolicyAfterDisabled(runPolicy: NetworkPolicy, builderPolicy: NetworkPolicy)
    ensures PolicyAfter(runPolicy, builderPolicy) == NetworkDisabled <==> ResolvePolicy(runPolicy, builderPolicy) == NetworkDisabled
    ensures PolicyAfter(runPolicy, builderPolicy) != NetworkDefault ==> PolicyAfter(runPolicy, builderPolicy) == ResolvePolicy(runPolicy, builderPolicy)
  {
  }

  /** The hostname is empty exactly without a UTS namespace of its own, and is otherwise the first non-empty candidate. */
  lemma HostnameChoice(configureUTS: bool, runHostname: string, builderHostname: string, truncatedID: string)
    ensures var h := ChooseHostname(configureUTS, runHostname, builderHostname, truncatedID);
      (!configureUTS ==> h == "") &&
      (configureUTS ==> h in [runHostname, builderHostname, truncatedID]) &&
      (configureUTS && h == "" ==> runHostname == "" && builderHostname == "" && truncatedID == "")
  {
  }

  /** Afterwards the environment starts with the old one and sets HOSTNAME, to the hostname whenever it did not before. */
  lemma HostnameEnvSet(env: seq<string>, hostname: string)
    ensures var r := WithHostnameEnv(env, hostname);
      |r| <= |env| + 1 && r[..|env|] == env && HasHostnameEntry(r, |r|) &&
      (!HasHostnameEntry(env, |env|) ==> r[|env|] == HostnameKey + hostname)
  {
    var r := WithHostnameEnv(env, hostname);
    if !HasHostnameEntry(env, |env|) {
      assert (HostnameKey + hostname)[..|HostnameKey|] == HostnameKey;
      assert IsHostnameEntry(r[|env|]);
    }
  }

  /** An environment that sets HOSTNAME is left alone. */
  lemma HostnameEnvIdempotent(env: seq<string>, hostname: string, other: string)
    ensures WithHostnameEnv(WithHostnameEnv(env, hostname), other) == WithHostnameEnv(env, hostname)
  {
    HostnameEnvSet(env, hostname);
  }

  /** The search for a HOSTNAME entry, then the append. */
  method AddHostnameEnv(g: Generator)
    modifies g`env
    ensures g.env == WithHostnameEnv(old(g.env), g.hostname)
  {
    var found := false;
    var i := 0;
    while i < |g.env|
      invariant 0 <= i <= |g.env|
      invariant !found && !HasHostnameEntry(g.env, i)
    {
      if Text.HasPrefix(g.env[i], HostnameKey) {
        found := true;
        assert IsHostnameEntry(g.env[i]);
        break;
      }
      i := i + 1;
    }
    if !found {
      g.env := g.env + [HostnameKey + g.hostname];
    }
  }

  /**
   * configureNamespaces, with the installation's default namespace options
   * (or the error reading them), the builder's options, policy and
   * hostname, the truncated container id, and setupNamespaces' inputs from
   * the host as parameters. It returns whether to configure the network
   * and the network string, and the run's policy as it is left.
   */
  method ConfigureNamespaces(g: Generator, defaults: Result<seq<NamespaceOption>, string>,
                             builderOpts: seq<NamespaceOption>, runOpts: seq<NamespaceOption>,
                             runPolicy: NetworkPolicy, builderPolicy: NetworkPolicy, idmap: IDMappingOptions,
                             sysctls: Result<seq<string>, string>, hostIds: Result<(seq<IDMapping>, seq<IDMapping>), string>,
                             runHostname: string, builderHostname: string, truncatedID: string)
    returns (r: Result<(bool, string), string>, policyOut: NetworkPolicy)
    modifies g`namespaces, g`sysctl, g`uidMappings, g`gidMappings, g`hostname, g`env
    ensures defaults.Err? ==>
      r == Err(defaults.error) && policyOut == runPolicy &&
      g.namespaces == old(g.namespaces) && g.sysctl == old(g.sysctl) && g.uidMappings == old(g.uidMappings) &&
      g.gidMappings == old(g.gidMappings) && g.hostname == old(g.hostname) && g.env == old(g.env)
    ensures defaults.Ok? ==> policyOut == PolicyAfter(runPolicy, builderPolicy)
    ensures defaults.Ok? ==>
      var spec := Namespaces.SetupNamespacesSpec(old(g.namespaces), old(g.sysctl), old(g.uidMappings), old(g.gidMappings),
                    MergedOptions(defaults.value, builderOpts, runOpts, ResolvePolicy(runPolicy, builderPolicy)),
                    idmap, ResolvePolicy(runPolicy, builderPolicy), sysctls, hostIds);
      (r.Err? <==> spec.Err?) && (r.Err? ==> r.error == spec.error) &&
      (r.Ok? ==>
        g.namespaces == spec.value.namespaces && g.sysctl == spec.value.sysctl &&
        g.uidMappings == spec.value.uidMappings && g.gidMappings == spec.value.gidMappings &&
        r.value == (spec.value.flags.configureNetwork, spec.value.flags.networkString) &&
        g.hostname == ChooseHostname(spec.value.flags.configureUTS, runHostname, builderHostname, truncatedID) &&
        g.env == WithHostnameEnv(old(g.env), g.hostname))
  {
    policyOut := runPolicy;
    if defaults.Err? {
      return Err(defaults.error), policyOut;
    }
    var opts := AddOrReplaceOptions(AddOrReplaceOptions(defaults.value, builderOpts), runOpts);
    var policy := runPolicy;
    if policy == NetworkDefault {
      policy := builderPolicy;
      if policy == NetworkDisabled {
        policyOut := policy;
      }
    }
    if policy == NetworkDisabled {
      opts := AddOrReplaceOptions(opts, [PrivateNetwork()]);
    }
    assert opts == MergedOptions(defaults.value, builderOpts, runOpts, ResolvePolicy(runPolicy, builderPolicy));
    var flags := Namespaces.SetupNamespaces(g, opts, idmap, policy, sysctls, hostIds);
    if flags.Err? {
      return Err(flags.error), policyOut;
    }
    SetHostname(g, flags.value.configureUTS, runHostname, builderHostname, truncatedID);
    AddHostnameEnv(g);
    r := Ok((flags.value.configureNetwork, flags.value.networkString));
  }

  /** The hostname choice of configureNamespaces. */
  method SetHostname(g: Generator, configureUTS: bool, runHostname: string, builderHostname: string, truncatedID: string)
    modifies g`hostname
    ensures g.hostname == ChooseHostname(configureUTS, runHostname, builderHostname, truncatedID)
  {
    if configureUTS {
      if runHostname != "" {
        g.hostname := runHostname;
      } else if builderHostname != "" {
        g.hostname := builderHostname;
      } else {
        g.hostname := truncatedID;
      }
    } else {
      g.hostname := "";
    }
  }
}
