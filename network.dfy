/**
 * Network selection for a run that gets its own network namespace
 * (runConfigureNetwork). The network string is "name[:opt,opt...]";
 * rootless runs without a name use the configured default rootless tool;
 * "slirp4netns" and "pasta" name user-mode tools, and anything else is a
 * comma-separated list of named networks, each attached under the
 * interface name "eth<i>".
 */
module Network {
  import opened Wrappers
  import opened Define
  import Text

  const Slirp4netnsBinary := "slirp4netns"
  const PastaBinary := "pasta"

  /** How the run's network is set up. */
  datatype Backend = Slirp4netns(opts: seq<string>) | Pasta(opts: seq<string>) | Networks(names: seq<string>)

  /** The name before the first ':' and the comma-separated options after it (none without a ':'). */
  function ParseNetwork(network: string): (r: (string, seq<string>))
    ensures ':' !in r.0
    ensures ':' in network ==> network == r.0 + ":" + Text.Join(r.1, ',')
    ensures ':' !in network ==> r.0 == network && r.1 == []
  {
    var (name, opts, hasOpts) := Text.Cut(network, ':');
    if hasOpts then
      Text.JoinSplit(opts, ',');
      (name, Text.Split(opts, ','))
    else (name, [])
  }

  /**
   * The backend choice, with the configuration's default rootless network
   * command (or the error reading the configuration) and the default
   * network's name as parameters.
   */
  function SelectBackend(isolation: Isolation, network: string, defaultRootlessCmd: Result<string, string>,
                         defaultNetworkName: string): Result<Backend, string>
  {
    if defaultRootlessCmd.Err? then Err("failed to get container config")
    else
      var (name0, netOpts) := ParseNetwork(network);
      var cmd := defaultRootlessCmd.value;
      var name: Result<string, string> :=
        if isolation == IsolationOCIRootless && name0 == "" then
          if cmd == Slirp4netnsBinary || cmd == "" then Ok(Slirp4netnsBinary)
          else if cmd == PastaBinary then Ok(PastaBinary)
          else Err("invalid default_rootless_network_cmd option \"" + cmd + "\"")
        else Ok(name0);
      if name.Err? then Err(name.error)
      else if name.value == Slirp4netnsBinary then Ok(Slirp4netns(netOpts))
      else if name.value == PastaBinary then Ok(Pasta(netOpts))
      else if isolation == IsolationOCIRootless then Err("cannot use networks as rootless")
      else if |network| > 0 then Ok(Networks(Text.Split(network, ',')))
      else Ok(Networks([defaultNetworkName]))
  }

  /** The interface name of the i-th network. */
  function EthName(i: nat): string {
    "eth" + Text.NatToString(i)
  }

  lemma EthNameInjective(i: nat, j: nat)
    requires EthName(i) == EthName(j)
    ensures i == j
  {
    assert EthName(i)[3..] == Text.NatToString(i);
    assert EthName(j)[3..] == Text.NatToString(j);
    Text.NatToStringInjective(i, j);
  }

  /** The last position of `n` in `xs`. */
  function LastIndex(xs: seq<string>, n: string): (j: nat)
    requires n in xs
    ensures j < |xs| && xs[j] == n
    ensures forall l :: j < l < |xs| ==> xs[l] != n
  {
    if xs[|xs| - 1] == n then |xs| - 1
    else
      assert n in xs[..|xs| - 1] by {
        var k :| 0 <= k < |xs| && xs[k] == n;
        assert xs[..|xs| - 1][k] == n;
      }
      LastIndex(xs[..|xs| - 1], n)
  }

  /** The per-network options map: each network, under the interface name of its last position in the list. */
  method InterfaceNames(nets: seq<string>) returns (m: map<string, string>)
    ensures m.Keys == set n | n in nets
    ensures forall n :: n in m ==> m[n] == EthName(LastIndex(nets, n))
  {
    m := map[];
    for i := 0 to |nets|
      invariant m.Keys == set n | n in nets[..i]
      invariant forall n :: n in m ==> m[n] == EthName(LastIndex(nets[..i], n))
    {
      assert nets[..i + 1][..i] == nets[..i];
      m := m[nets[i] := EthName(i)];
    }
    assert nets[..|nets|] == nets;
  }

  /** Distinct networks get distinct interfaces. */
  lemma InterfacesDistinct(nets: seq<string>, a: string, b: string)
    requires a in nets && b in nets && a != b
    ensures EthName(LastIndex(nets, a)) != EthName(LastIndex(nets, b))
  {
    if EthName(LastIndex(nets, a)) == EthName(LastIndex(nets, b)) {
      EthNameInjective(LastIndex(nets, a), LastIndex(nets, b));
    }
  }

  /** A rootless run never attaches named networks: it gets one of the user-mode tools or an error. */
  lemma RootlessUsesUserModeTool(network: string, defaultRootlessCmd: Result<string, string>, defaultNetworkName: string)
    ensures SelectBackend(IsolationOCIRootless, network, defaultRootlessCmd, defaultNetworkName).Ok? ==>
      !SelectBackend(IsolationOCIRootless, network, defaultRootlessCmd, defaultNetworkName).value.Networks?
  {
  }

  /** A rootless run without a named network uses the configured tool, slirp4netns when none is configured. */
  lemma RootlessDefaultTool(network: string, cmd: string, defaultNetworkName: string)
    requires ParseNetwork(network).0 == ""
    ensures var r := SelectBackend(IsolationOCIRootless, network, Ok(cmd), defaultNetworkName);
      (cmd == "" || cmd == Slirp4netnsBinary ==> r == Ok(Slirp4netns(ParseNetwork(network).1))) &&
      (cmd == PastaBinary ==> r == Ok(Pasta(ParseNetwork(network).1))) &&
      (cmd != "" && cmd != Slirp4netnsBinary && cmd != PastaBinary ==> r.Err?)
  {
  }

  /** Without the installation's configuration nothing is selected. */
  lemma ConfigErrorFails(isolation: Isolation, network: string, e: string, defaultNetworkName: string)
    ensures SelectBackend(isolation, network, Err(e), defaultNetworkName) == Err("failed to get container config")
  {
  }

  /** An explicitly named user-mode tool is used, rootless or not, with the options after the ':'. */
  lemma NamedToolUsed(isolation: Isolation, network: string, cmd: string, defaultNetworkName: string)
    ensures ParseNetwork(network).0 == Slirp4netnsBinary ==>
      SelectBackend(isolation, network, Ok(cmd), defaultNetworkName) == Ok(Slirp4netns(ParseNetwork(network).1))
    ensures ParseNetwork(network).0 == PastaBinary ==>
      SelectBackend(isolation, network, Ok(cmd), defaultNetworkName) == Ok(Pasta(ParseNetwork(network).1))
  {
  }

  /** A rootless run naming anything but a user-mode tool is refused. */
  lemma RootlessOtherNameFails(network: string, cmd: string, defaultNetworkName: string)
    requires ParseNetwork(network).0 != "" && ParseNetwork(network).0 != Slirp4netnsBinary
    requires ParseNetwork(network).0 != PastaBinary
    ensures SelectBackend(IsolationOCIRootless, network, Ok(cmd), defaultNetworkName) == Err("cannot use networks as rootless")
  {
  }

  /**
   * A rootful run naming no user-mode tool attaches the whole network
   * string split at ',' (options included), or the default network when
   * the string is empty.
   */
  lemma RootfulNetworks(isolation: Isolation, network: string, cmd: string, defaultNetworkName: string)
    requires isolation != IsolationOCIRootless
    requires ParseNetwork(network).0 != Slirp4netnsBinary && ParseNetwork(network).0 != PastaBinary
    ensures SelectBackend(isolation, network, Ok(cmd), defaultNetworkName) ==
      if network != "" then Ok(Networks(Text.Split(network, ','))) else Ok(Networks([defaultNetworkName]))
  {
  }

  /** A rootful run always attaches at least one network, the default one when none is named. */
  lemma NetworksNonEmpty(isolation: Isolation, network: string, cmd: Result<string, string>, defaultNetworkName: string)
    requires isolation != IsolationOCIRootless
    ensures var r := SelectBackend(isolation, network, cmd, defaultNetworkName);
      r.Ok? && r.value.Networks? ==> |r.value.names| >= 1 && (network == "" ==> r.value.names == [defaultNetworkName])
  {
  }
}
