/**
 * The two selection rules of Run outside the spec proper: which isolation
 * a run uses when it names none, and how the run is handed to an
 * execution backend once the spec is assembled.
 */
module Run {
  import opened Wrappers
  import opened Define

  /**
   * The isolation of a run: its own, else the builder's, else the one the
   * environment names (`fromEnvironment`, which can fail); a failure or a
   * default there falls back to OCI.
   */
  function ResolveIsolation(runIsolation: Isolation, builderIsolation: Isolation,
                            fromEnvironment: Result<Isolation, string>): (r: Isolation)
    ensures r != IsolationDefault
    ensures runIsolation != IsolationDefault ==> r == runIsolation
    ensures runIsolation == IsolationDefault && builderIsolation != IsolationDefault ==> r == builderIsolation
    ensures runIsolation == IsolationDefault && builderIsolation == IsolationDefault ==>
      r == if fromEnvironment.Ok? && fromEnvironment.value != IsolationDefault then fromEnvironment.value else IsolationOCI
  {
    if runIsolation != IsolationDefault then runIsolation
    else if builderIsolation != IsolationDefault then builderIsolation
    else if fromEnvironment.Err? then IsolationOCI
    else if fromEnvironment.value == IsolationDefault then IsolationOCI
    else fromEnvironment.value
  }

  /** Where a run goes: the OCI runtime with extra create arguments, the chroot runner, or nowhere. */
  datatype Dispatch = RuntimeSubproc(isolation: Isolation, createArgs: seq<string>) | Chroot | Unrunnable(msg: string)

  const NoPivotArg := "--no-pivot"
  const NoNewKeyringArg := "--no-new-keyring"

  /** The switch at the end of Run. */
  function Dispatcher(isolation: Isolation, noPivot: bool): Dispatch {
    match isolation
    case IsolationOCI => RuntimeSubproc(isolation, if noPivot then [NoPivotArg] else [])
    case IsolationChroot => Chroot
    case IsolationOCIRootless => RuntimeSubproc(isolation, [NoNewKeyringArg] + (if noPivot then [NoPivotArg] else []))
    case _ => Unrunnable("don't know how to run this command")
  }

  /** Only the three runnable isolations run; the runtime gets the isolation it was chosen for. */
  lemma DispatchKinds(isolation: Isolation, noPivot: bool)
    ensures Dispatcher(isolation, noPivot).Unrunnable? <==>
      isolation !in {IsolationOCI, IsolationChroot, IsolationOCIRootless}
    ensures Dispatcher(isolation, noPivot).Chroot? <==> isolation == IsolationChroot
    ensures Dispatcher(isolation, noPivot).RuntimeSubproc? ==> Dispatcher(isolation, noPivot).isolation == isolation
  {
  }

  /** The runtime is asked not to pivot exactly when the run says so; rootless runs never get a new session keyring, OCI runs always may. */
  lemma CreateArgs(isolation: Isolation, noPivot: bool)
    requires Dispatcher(isolation, noPivot).RuntimeSubproc?
    ensures var args := Dispatcher(isolation, noPivot).createArgs;
      (NoPivotArg in args <==> noPivot) &&
      (NoNewKeyringArg in args <==> isolation == IsolationOCIRootless) &&
      |args| <= 2
  {
    var args := Dispatcher(isolation, noPivot).createArgs;
    assert NoPivotArg != NoNewKeyringArg by { assert NoPivotArg[5] != NoNewKeyringArg[5]; }
  }

  /** A run that resolves its isolation from nothing at all runs under OCI. */
  lemma DefaultsRunOci(fromEnvironment: Result<Isolation, string>, noPivot: bool)
    requires fromEnvironment.Err? || fromEnvironment.value == IsolationDefault
    ensures Dispatcher(ResolveIsolation(IsolationDefault, IsolationDefault, fromEnvironment), noPivot) ==
      RuntimeSubproc(IsolationOCI, if noPivot then [NoPivotArg] else [])
  {
  }
}
