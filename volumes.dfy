/**
 * runSetupVolumeMounts and its parseMount closure: each requested volume's
 * options are scanned for flags, a read-write default and a private
 * propagation default are appended, and any type but tmpfs becomes a
 * recursive bind mount. The relabelling, ownership changes and overlay
 * mounts the flags ask for are recorded as effects in the builder's log;
 * whether each one fails, the temporary directory it creates and the
 * overlay mount it yields are given by a `Host`, as functions of the log
 * up to and including that effect.
 */
module Volumes {
  import opened Wrappers
  import opened Oci
  import Keyed
  import Text

  /** The operating-system effects parseMount and runSetupVolumeMounts cause. */
  datatype Effect =
    | CleanupContent(containerDir: string)
    | Relabel(path: string, mountLabel: string, shared: bool)
    | Chown(path: string)
    | MakeTempDir(containerDir: string)
    | OverlayMount(contentDir: string, source: string, destination: string, upperDir: string, workDir: string)

  /** What the host answers: the error of the last effect of a log (if any), the container directory, the temporary directory and overlay mount a log's last effect made. */
  datatype Host = Host(
    fails: seq<Effect> -> Option<string>,
    containerDir: Result<string, string>,
    tempDirName: seq<Effect> -> string,
    overlayMount: seq<Effect> -> Mount)

  /** The flags parseMount scans for. */
  datatype MountFlags = MountFlags(
    rw: bool, ro: bool, relabelShared: bool, relabelPrivate: bool, overlay: bool, chown: bool,
    rootProp: string, upperDir: string, workDir: string)

  const NoMountFlags := MountFlags(false, false, false, false, false, false, "", "", "")

  const PropagationOptions: seq<string> := ["private", "rprivate", "slave", "rslave", "shared", "rshared"]

  const OverlayPairError := "if specifying upperdir then workdir must be specified or vice versa"

  predicate IsPropagation(opt: string) { opt in PropagationOptions }

  /** An option that sets the overlay upper directory: "upperdir…" with an '='. */
  predicate SetsUpperDir(opt: string) { Text.HasPrefix(opt, "upperdir") && '=' in opt }

  predicate SetsWorkDir(opt: string) { Text.HasPrefix(opt, "workdir") && '=' in opt }

  /** The text after the first '='. */
  function SettingValue(opt: string): string { Text.Cut(opt, '=').1 }

  /** The switch of one scan iteration: a flag option sets its flag, a propagation option becomes the propagation. */
  function SwitchOne(f: MountFlags, opt: string): MountFlags {
    MountFlags(f.rw || opt == "rw", f.ro || opt == "ro", f.relabelShared || opt == "z", f.relabelPrivate || opt == "Z",
               f.overlay || opt == "O", f.chown || opt == "U",
               if IsPropagation(opt) then opt else f.rootProp, f.upperDir, f.workDir)
  }

  /** The rest of one scan iteration: an option setting an overlay directory replaces it. */
  function DirsOne(f: MountFlags, opt: string): MountFlags {
    MountFlags(f.rw, f.ro, f.relabelShared, f.relabelPrivate, f.overlay, f.chown, f.rootProp,
               if SetsUpperDir(opt) then SettingValue(opt) else f.upperDir,
               if SetsWorkDir(opt) then SettingValue(opt) else f.workDir)
  }

  /** One iteration of the scan. */
  function ScanOne(f: MountFlags, opt: string): MountFlags {
    DirsOne(SwitchOne(f, opt), opt)
  }

  /** The flag words are distinct and none of them is a propagation. */
  lemma FlagWordsDistinct()
    ensures "rw" != "ro" && "rw" != "z" && "rw" != "Z" && "rw" != "O" && "rw" != "U"
    ensures "ro" != "z" && "ro" != "Z" && "ro" != "O" && "ro" != "U"
    ensures "z" != "Z" && "z" != "O" && "z" != "U" && "Z" != "O" && "Z" != "U" && "O" != "U"
    ensures !IsPropagation("rw") && !IsPropagation("ro") && !IsPropagation("z") && !IsPropagation("Z")
    ensures !IsPropagation("O") && !IsPropagation("U")
  {
    assert "rw"[1] != "ro"[1];
  }

  /** The flags of a whole option list. */
  function Scan(opts: seq<string>): MountFlags
    decreases |opts|
  {
    if opts == [] then NoMountFlags else ScanOne(Scan(opts[..|opts| - 1]), opts[|opts| - 1])
  }

  lemma ScanSnoc(opts: seq<string>, opt: string)
    ensures Scan(opts + [opt]) == ScanOne(Scan(opts), opt)
  {
    assert (opts + [opt])[..|opts|] == opts;
  }

  /** Each flag is set exactly when its option occurs. */
  lemma {:induction false} ScanFlags(opts: seq<string>)
    ensures Scan(opts).rw <==> "rw" in opts
    ensures Scan(opts).ro <==> "ro" in opts
    ensures Scan(opts).relabelShared <==> "z" in opts
    ensures Scan(opts).relabelPrivate <==> "Z" in opts
    ensures Scan(opts).overlay <==> "O" in opts
    ensures Scan(opts).chown <==> "U" in opts
    decreases |opts|
  {
    if opts != [] {
      var init := opts[..|opts| - 1];
      ScanFlags(init);
      assert opts == init + [opts[|opts| - 1]];
    }
  }

  /** The value an option list gives through the last option with the property, or "" with none. */
  function LastValue(opts: seq<string>, p: string -> bool, value: string -> string): string {
    var last := Keyed.LastWith(opts, p, true);
    if last.Some? then value(last.value) else ""
  }

  function Id(s: string): string { s }

  /** The propagation is the last propagation option; the overlay directories come from the last option setting each. */
  lemma {:induction false} ScanLast(opts: seq<string>)
    ensures Scan(opts).rootProp == LastValue(opts, IsPropagation, Id)
    ensures Scan(opts).upperDir == LastValue(opts, SetsUpperDir, SettingValue)
    ensures Scan(opts).workDir == LastValue(opts, SetsWorkDir, SettingValue)
    decreases |opts|
  {
    if opts != [] {
      ScanLast(opts[..|opts| - 1]);
    }
  }

  /** Without a propagation option the propagation stays unset, and a set one is a propagation option of the list. */
  lemma RootPropFrom(opts: seq<string>)
    ensures Scan(opts).rootProp == "" <==> forall k :: 0 <= k < |opts| ==> !IsPropagation(opts[k])
    ensures Scan(opts).rootProp != "" ==> Scan(opts).rootProp in opts && IsPropagation(Scan(opts).rootProp)
  {
    ScanLast(opts);
    var last := Keyed.LastWith(opts, IsPropagation, true);
    if last.Some? {
      assert last.value != "" by { assert last.value in PropagationOptions; }
    }
  }

  /** A request's options with the read-write and private-propagation defaults appended where none is given. */
  function DefaultedOptions(options: seq<string>, f: MountFlags): seq<string> {
    var o1 := if !f.rw && !f.ro then options + ["rw"] else options;
    if f.rootProp == "" then o1 + ["private"] else o1
  }

  /** The defaults keep the options in front, and set access and propagation where the flags say they are missing. */
  lemma DefaultsFill(options: seq<string>, f: MountFlags)
    requires f.rw || f.ro ==> "rw" in options || "ro" in options
    requires f.rootProp != "" ==> exists k :: 0 <= k < |options| && IsPropagation(options[k])
    ensures var o := DefaultedOptions(options, f);
      |options| <= |o| <= |options| + 2 && o[..|options|] == options &&
      ("rw" in o || "ro" in o) && (exists k :: 0 <= k < |o| && IsPropagation(o[k]))
  {
    var o1 := if !f.rw && !f.ro then options + ["rw"] else options;
    var o2 := DefaultedOptions(options, f);
    assert o1[..|options|] == options;
    assert o2[..|o1|] == o1;
    assert "rw" in o1 || "ro" in o1;
    if f.rootProp == "" {
      assert IsPropagation(o2[|o1|]);
    } else {
      var k :| 0 <= k < |options| && IsPropagation(options[k]);
      assert o2[k] == options[k];
    }
  }

  /** The requested options come first, and the result sets the access and the propagation. */
  lemma DefaultedOptionsShape(options: seq<string>)
    ensures var o := DefaultedOptions(options, Scan(options));
      |options| <= |o| <= |options| + 2 && o[..|options|] == options &&
      ("rw" in o || "ro" in o) && (exists k :: 0 <= k < |o| && IsPropagation(o[k]))
  {
    ScanFlags(options);
    RootPropFrom(options);
    if Scan(options).rootProp != "" {
      var k :| 0 <= k < |options| && options[k] == Scan(options).rootProp;
      assert IsPropagation(options[k]);
    }
    DefaultsFill(options, Scan(options));
  }

  /** No option of the list is a propagation mode. */
  predicate NoPropagation(opts: seq<string>) {
    forall k :: 0 <= k < |opts| ==> !IsPropagation(opts[k])
  }

  /** Exactly "rw" is appended when neither "rw" nor "ro" is requested, then exactly "private" when no propagation is. */
  lemma DefaultedOptionsExact(options: seq<string>)
    ensures DefaultedOptions(options, Scan(options)) ==
      options + (if "rw" !in options && "ro" !in options then ["rw"] else []) +
      (if NoPropagation(options) then ["private"] else [])
  {
    var f := Scan(options);
    assert (f.rw <==> "rw" in options) && (f.ro <==> "ro" in options) by { ScanFlags(options); }
    assert f.rootProp == "" <==> NoPropagation(options) by { RootPropFrom(options); }
    var access: seq<string> := if "rw" !in options && "ro" !in options then ["rw"] else [];
    var o1 := if !f.rw && !f.ro then options + ["rw"] else options;
    assert o1 == options + access;
    if f.rootProp == "" {
      assert DefaultedOptions(options, f) == o1 + ["private"];
    } else {
      assert DefaultedOptions(options, f) == o1 + [];
    }
  }

  /** The mount of a request without "O": its defaulted options, and a recursive bind unless it is tmpfs. */
  function BindMount(req: Mount, f: MountFlags): Mount {
    var o := DefaultedOptions(req.options, f);
    if req.typ != "tmpfs" then Mount(req.destination, TypeBind, req.source, o + ["rbind"])
    else Mount(req.destination, req.typ, req.source, o)
  }

  /** The requested options come first, then the access and propagation defaults, then "rbind" for every type but tmpfs. */
  lemma BindMountShape(req: Mount)
    ensures var m := BindMount(req, Scan(req.options));
      m.destination == req.destination && m.source == req.source &&
      m.options[..|req.options|] == req.options &&
      ("rw" in m.options || "ro" in m.options) &&
      (exists k :: 0 <= k < |m.options| && IsPropagation(m.options[k])) &&
      (req.typ != "tmpfs" ==> m.typ == TypeBind && m.options[|m.options| - 1] == "rbind") &&
      (req.typ == "tmpfs" ==> m.typ == "tmpfs")
  {
    var o := DefaultedOptions(req.options, Scan(req.options));
    DefaultedOptionsShape(req.options);
    var m := BindMount(req, Scan(req.options));
    assert m.options[..|o|] == o;
    var k :| 0 <= k < |o| && IsPropagation(o[k]);
    assert m.options[k] == o[k];
  }

  /** The log after attempting one effect, and the effect's error. */
  function Attempt(h: Host, log: seq<Effect>, e: Effect): (seq<Effect>, Option<string>) {
    (log + [e], h.fails(log + [e]))
  }

  /** The relabelling ("z", then "Z") and ownership change ("U") of the host path, up to the first failure. */
  function Prepare(h: Host, log: seq<Effect>, f: MountFlags, source: string, mountLabel: string): (seq<Effect>, Option<string>) {
    var (l1, e1) := if f.relabelShared then Attempt(h, log, Relabel(source, mountLabel, true)) else (log, None);
    if e1.Some? then (l1, e1)
    else
      var (l2, e2) := if f.relabelPrivate then Attempt(h, l1, Relabel(source, mountLabel, false)) else (l1, None);
      if e2.Some? then (l2, e2)
      else if f.chown then Attempt(h, l2, Chown(source))
      else (l2, None)
  }

  function TempDirError(dir: string, cause: string): string {
    "failed to create TempDir in the " + dir + " directory: " + cause
  }

  /** What a parse leaves: the mount or the error, the effect log and the builder's temporary volumes. */
  datatype Parsed = Parsed(result: Result<Mount, string>, log: seq<Effect>, tempVolumes: map<string, bool>)

  /** The overlay branch: pairing check, temporary directory, overlay mount, then its ownership. */
  function Overlay(h: Host, log: seq<Effect>, temp: map<string, bool>, f: MountFlags, req: Mount): Parsed {
    if (f.upperDir != "" && f.workDir == "") || (f.workDir != "" && f.upperDir == "") then Parsed(Err(OverlayPairError), log, temp)
    else if h.containerDir.Err? then Parsed(Err(h.containerDir.error), log, temp)
    else
      var dir := h.containerDir.value;
      var (l1, e1) := Attempt(h, log, MakeTempDir(dir));
      if e1.Some? then Parsed(Err(TempDirError(dir, e1.value)), l1, temp)
      else
        var contentDir := h.tempDirName(l1);
        var (l2, e2) := Attempt(h, l1, OverlayMount(contentDir, req.source, req.destination, f.upperDir, f.workDir));
        if e2.Some? then Parsed(Err(e2.value), l2, temp)
        else
          var temp2 := temp[contentDir := true];
          var (l3, e3) := if f.chown then Attempt(h, l2, Chown(contentDir)) else (l2, None);
          if e3.Some? then Parsed(Err(e3.value), l3, temp2)
          else Parsed(Ok(h.overlayMount(l2)), l3, temp2)
  }

  /** parseMount, on a request given as a mount (type, host path, container path, options). */
  function ParseMountSpec(h: Host, log: seq<Effect>, temp: map<string, bool>, mountLabel: string, req: Mount): Parsed {
    var f := Scan(req.options);
    var (l1, e1) := Prepare(h, log, f, req.source, mountLabel);
    if e1.Some? then Parsed(Err(e1.value), l1, temp)
    else if f.overlay then Overlay(h, l1, temp, f, req)
    else Parsed(Ok(BindMount(req, f)), l1, temp)
  }

  predicate IsOverlayEffect(e: Effect) { e.MakeTempDir? || e.OverlayMount? }

  /** "O" with only one of upperdir and workdir fails before any overlay directory is made or mounted. */
  lemma OverlayPairingChecked(h: Host, log: seq<Effect>, temp: map<string, bool>, mountLabel: string, req: Mount)
    requires Scan(req.options).overlay
    requires (Scan(req.options).upperDir == "") != (Scan(req.options).workDir == "")
    requires Prepare(h, log, Scan(req.options), req.source, mountLabel).1.None?
    ensures var p := ParseMountSpec(h, log, temp, mountLabel, req);
      p.result == Err(OverlayPairError) && p.tempVolumes == temp && |log| <= |p.log| && p.log[..|log|] == log &&
      forall k :: |log| <= k < |p.log| ==> !IsOverlayEffect(p.log[k])
  {
    PrepareEffects(h, log, Scan(req.options), req.source, mountLabel);
  }

  /** The preparation appends only relabel and ownership effects to the log. */
  lemma PrepareEffects(h: Host, log: seq<Effect>, f: MountFlags, source: string, mountLabel: string)
    ensures var (l, _) := Prepare(h, log, f, source, mountLabel);
      |log| <= |l| <= |log| + 3 && l[..|log|] == log &&
      forall k :: |log| <= k < |l| ==> l[k].Relabel? || l[k].Chown?
  {
  }

  /** Without "O", a parse that gets past the preparation yields the bind mount and changes nothing else. */
  lemma NonOverlayParse(h: Host, log: seq<Effect>, temp: map<string, bool>, mountLabel: string, req: Mount)
    requires !Scan(req.options).overlay
    ensures var p := ParseMountSpec(h, log, temp, mountLabel, req);
      var (l, e) := Prepare(h, log, Scan(req.options), req.source, mountLabel);
      p.log == l && p.tempVolumes == temp &&
      (p.result.Ok? <==> e.None?) &&
      (p.result.Ok? ==> p.result.value == BindMount(req, Scan(req.options)))
  {
  }

  /** The overlay branch only appends to the log, and a successful one registers exactly the directory it overlay-mounted as a temporary volume. */
  lemma OverlayEffects(h: Host, log: seq<Effect>, temp: map<string, bool>, f: MountFlags, req: Mount)
    ensures var p := Overlay(h, log, temp, f, req);
      |log| <= |p.log| && p.log[..|log|] == log && temp.Keys <= p.tempVolumes.Keys &&
      (p.result.Ok? ==>
        h.containerDir.Ok? && |p.log| >= |log| + 2 && p.log[|log|] == MakeTempDir(h.containerDir.value) &&
        p.log[|log| + 1].OverlayMount? && p.tempVolumes == temp[p.log[|log| + 1].contentDir := true])
  {
    var p := Overlay(h, log, temp, f, req);
    if p.result.Ok? {
      var l1 := log + [MakeTempDir(h.containerDir.value)];
      var l2 := l1 + [OverlayMount(h.tempDirName(l1), req.source, req.destination, f.upperDir, f.workDir)];
      assert p.log[..|l2|] == l2;
      assert p.log[|log|] == l2[|log|];
      assert p.log[|log| + 1] == l2[|log| + 1];
    }
  }

  /** A volume given when the container was created, split at unescaped colons: host path, container path and optional options. */
  function VolumeRequest(parts: seq<string>): (r: Mount)
    requires |parts| >= 2
  {
    var options := if |parts| > 2 then Text.Split(parts[2], ',') else [];
    Mount(parts[1], TypeBind, parts[0], options + ["rbind"])
  }

  lemma VolumeRequestShape(parts: seq<string>)
    requires |parts| >= 2
    ensures var r := VolumeRequest(parts);
      r.typ == TypeBind && r.source == parts[0] && r.destination == parts[1] &&
      r.options[|r.options| - 1] == "rbind" &&
      (|parts| > 2 ==> Text.Join(r.options[..|r.options| - 1], ',') == parts[2]) &&
      (|parts| == 2 ==> r.options == ["rbind"])
  {
    if |parts| > 2 {
      var r := VolumeRequest(parts);
      assert r.options[..|r.options| - 1] == Text.Split(parts[2], ',');
      Text.JoinSplit(parts[2], ',');
    }
  }

  /** The mounts made so far (or the error that stopped them), the effect log and the temporary volumes. */
  datatype Volumes = Volumes(mounts: Result<seq<Mount>, string>, log: seq<Effect>, tempVolumes: map<string, bool>)

  /** The parse loop over a list of requests, stopping at the first error. */
  function ParseAll(h: Host, st: Volumes, mountLabel: string, reqs: seq<Mount>): Volumes
    decreases |reqs|
  {
    if reqs == [] then st
    else
      var prev := ParseAll(h, st, mountLabel, reqs[..|reqs| - 1]);
      if prev.mounts.Err? then prev else ParseStep(h, prev, mountLabel, reqs[|reqs| - 1])
  }

  /** One iteration of the loop, after the mounts so far. */
  function ParseStep(h: Host, prev: Volumes, mountLabel: string, req: Mount): Volumes
    requires prev.mounts.Ok?
  {
    var p := ParseMountSpec(h, prev.log, prev.tempVolumes, mountLabel, req);
    if p.result.Err? then Volumes(Err(p.result.error), p.log, p.tempVolumes)
    else Volumes(Ok(prev.mounts.value + [p.result.value]), p.log, p.tempVolumes)
  }

  /** A successful iteration appends one mount, the bind mount of a request without "O". */
  lemma ParseStepMount(h: Host, prev: Volumes, mountLabel: string, req: Mount)
    requires prev.mounts.Ok?
    ensures var r := ParseStep(h, prev, mountLabel, req);
      r.mounts.Ok? ==>
        |r.mounts.value| == |prev.mounts.value| + 1 && r.mounts.value[..|prev.mounts.value|] == prev.mounts.value &&
        (!Scan(req.options).overlay ==> r.mounts.value[|prev.mounts.value|] == BindMount(req, Scan(req.options)))
  {
    if !Scan(req.options).overlay {
      NonOverlayParse(h, prev.log, prev.tempVolumes, mountLabel, req);
    }
  }

  lemma ParseAllSnoc(h: Host, st: Volumes, mountLabel: string, reqs: seq<Mount>, req: Mount)
    ensures ParseAll(h, st, mountLabel, reqs + [req]) ==
      var prev := ParseAll(h, st, mountLabel, reqs);
      if prev.mounts.Err? then prev else ParseStep(h, prev, mountLabel, req)
  {
    assert (reqs + [req])[..|reqs|] == reqs;
  }

  /** Running the loop over two lists of requests is running it over the first, then from there over the second. */
  lemma {:induction false} ParseAllAppend(h: Host, st: Volumes, mountLabel: string, first: seq<Mount>, second: seq<Mount>)
    ensures ParseAll(h, st, mountLabel, first + second) == ParseAll(h, ParseAll(h, st, mountLabel, first), mountLabel, second)
    decreases |second|
  {
    if second == [] {
      assert first + second == first;
    } else {
      var init := second[..|second| - 1];
      var last := second[|second| - 1];
      assert second == init + [last];
      assert first + second == (first + init) + [last];
      ParseAllAppend(h, st, mountLabel, first, init);
      ParseAllSnoc(h, st, mountLabel, first + init, last);
      ParseAllSnoc(h, ParseAll(h, st, mountLabel, first), mountLabel, init, last);
    }
  }

  /** Once a prefix of the requests fails, the whole loop fails the same way. */
  lemma {:induction false} ParseAllStaysFailed(h: Host, st: Volumes, mountLabel: string, reqs: seq<Mount>, k: nat)
    requires k <= |reqs|
    requires ParseAll(h, st, mountLabel, reqs[..k]).mounts.Err?
    ensures ParseAll(h, st, mountLabel, reqs) == ParseAll(h, st, mountLabel, reqs[..k])
    decreases |reqs| - k
  {
    if k < |reqs| {
      ParseAllSnoc(h, st, mountLabel, reqs[..k], reqs[k]);
      assert reqs[..k + 1] == reqs[..k] + [reqs[k]];
      ParseAllStaysFailed(h, st, mountLabel, reqs, k + 1);
    } else {
      assert reqs[..k] == reqs;
    }
  }

  /** `ms` is `base` followed by one mount per request, each request without "O" as its bind mount. */
  predicate MountsFor(ms: seq<Mount>, base: seq<Mount>, reqs: seq<Mount>) {
    |ms| == |base| + |reqs| && ms[..|base|] == base &&
    forall k :: 0 <= k < |reqs| && !Scan(reqs[k].options).overlay ==> ms[|base| + k] == BindMount(reqs[k], Scan(reqs[k].options))
  }

  lemma MountsForSnoc(ms: seq<Mount>, base: seq<Mount>, reqs: seq<Mount>, m: Mount, req: Mount)
    requires MountsFor(ms, base, reqs)
    requires !Scan(req.options).overlay ==> m == BindMount(req, Scan(req.options))
    ensures MountsFor(ms + [m], base, reqs + [req])
  {
    var ms' := ms + [m];
    var reqs' := reqs + [req];
    assert ms'[..|base|] == ms[..|base|];
    forall k | 0 <= k < |reqs'| && !Scan(reqs'[k].options).overlay
      ensures ms'[|base| + k] == BindMount(reqs'[k], Scan(reqs'[k].options))
    {
      if k < |reqs| {
        assert reqs'[k] == reqs[k];
      }
    }
  }

  /** A successful loop yields one mount per request, in request order, each request without "O" as its bind mount. */
  lemma {:induction false} ParseAllMounts(h: Host, st: Volumes, mountLabel: string, reqs: seq<Mount>)
    requires st.mounts.Ok?
    ensures var r := ParseAll(h, st, mountLabel, reqs);
      r.mounts.Ok? ==>
        |r.mounts.value| == |st.mounts.value| + |reqs| && r.mounts.value[..|st.mounts.value|] == st.mounts.value &&
        forall k :: 0 <= k < |reqs| && !Scan(reqs[k].options).overlay ==>
          r.mounts.value[|st.mounts.value| + k] == BindMount(reqs[k], Scan(reqs[k].options))
    decreases |reqs|
  {
    ParseAllMountsFor(h, st, mountLabel, reqs);
  }

  lemma {:induction false} ParseAllMountsFor(h: Host, st: Volumes, mountLabel: string, reqs: seq<Mount>)
    requires st.mounts.Ok?
    ensures var r := ParseAll(h, st, mountLabel, reqs);
      r.mounts.Ok? ==> MountsFor(r.mounts.value, st.mounts.value, reqs)
    decreases |reqs|
  {
    if reqs == [] {
      assert st.mounts.value[..|st.mounts.value|] == st.mounts.value;
    } else {
      var init := reqs[..|reqs| - 1];
      var last := reqs[|reqs| - 1];
      assert reqs == init + [last];
      ParseAllMountsFor(h, st, mountLabel, init);
      var prev := ParseAll(h, st, mountLabel, init);
      var r := ParseAll(h, st, mountLabel, reqs);
      if prev.mounts.Ok? && r.mounts.Ok? {
        ParseStepMount(h, prev, mountLabel, last);
        var pm := prev.mounts.value;
        var m := r.mounts.value[|pm|];
        assert r.mounts.value == pm + [m];
        MountsForSnoc(pm, st.mounts.value, init, m, last);
      }
    }
  }

  /** The loop only ever adds temporary volumes and only ever appends to the log. */
  lemma {:induction false} ParseAllGrows(h: Host, st: Volumes, mountLabel: string, reqs: seq<Mount>)
    ensures var r := ParseAll(h, st, mountLabel, reqs);
      st.tempVolumes.Keys <= r.tempVolumes.Keys && |st.log| <= |r.log| && r.log[..|st.log|] == st.log
    decreases |reqs|
  {
    if reqs != [] {
      var init := reqs[..|reqs| - 1];
      ParseAllGrows(h, st, mountLabel, init);
      var prev := ParseAll(h, st, mountLabel, init);
      if prev.mounts.Ok? {
        ParseGrows(h, prev.log, prev.tempVolumes, mountLabel, reqs[|reqs| - 1]);
        var r := ParseAll(h, st, mountLabel, reqs);
        assert r.log[..|prev.log|] == prev.log;
        assert r.log[..|st.log|] == prev.log[..|st.log|];
      }
    }
  }

  /** One parse only adds temporary volumes and only appends to the log. */
  lemma ParseGrows(h: Host, log: seq<Effect>, temp: map<string, bool>, mountLabel: string, req: Mount)
    ensures var p := ParseMountSpec(h, log, temp, mountLabel, req);
      temp.Keys <= p.tempVolumes.Keys && |log| <= |p.log| && p.log[..|log|] == log
  {
    var f := Scan(req.options);
    PrepareEffects(h, log, f, req.source, mountLabel);
    var (l1, e1) := Prepare(h, log, f, req.source, mountLabel);
    OverlayEffects(h, l1, temp, f, req);
    var p := ParseMountSpec(h, log, temp, mountLabel, req);
    assert p.log[..|l1|] == l1;
  }

  /** runSetupVolumeMounts: the run's own mounts first, then the container's volumes. */
  function SetupVolumesSpec(h: Host, log: seq<Effect>, temp: map<string, bool>, mountLabel: string, containerID: string,
                            volumeMounts: seq<seq<string>>, optionMounts: seq<Mount>): Volumes
    requires forall k :: 0 <= k < |volumeMounts| ==> |volumeMounts[k]| >= 2
  {
    if h.containerDir.Err? then
      Volumes(Err("looking up container directory for " + containerID + ": " + h.containerDir.error), log, temp)
    else
      var (l1, e1) := Attempt(h, log, CleanupContent(h.containerDir.value));
      if e1.Some? then Volumes(Err("cleaning up overlay content for " + containerID + ": " + e1.value), l1, temp)
      else ParseAll(h, Volumes(Ok([]), l1, temp), mountLabel, optionMounts + VolumeRequests(volumeMounts))
  }

  function VolumeRequests(volumeMounts: seq<seq<string>>): (r: seq<Mount>)
    requires forall k :: 0 <= k < |volumeMounts| ==> |volumeMounts[k]| >= 2
    ensures |r| == |volumeMounts|
    ensures forall k :: 0 <= k < |r| ==> r[k] == VolumeRequest(volumeMounts[k])
    decreases |volumeMounts|
  {
    if volumeMounts == [] then []
    else VolumeRequests(volumeMounts[..|volumeMounts| - 1]) + [VolumeRequest(volumeMounts[|volumeMounts| - 1])]
  }

  /** The requests of a prefix of the volumes are the prefix of the requests. */
  lemma VolumeRequestsPrefix(volumeMounts: seq<seq<string>>, j: nat)
    requires forall k :: 0 <= k < |volumeMounts| ==> |volumeMounts[k]| >= 2
    requires j <= |volumeMounts|
    ensures VolumeRequests(volumeMounts)[..j] == VolumeRequests(volumeMounts[..j])
  {
    var r := VolumeRequests(volumeMounts);
    var p := VolumeRequests(volumeMounts[..j]);
    assert forall k :: 0 <= k < j ==> r[k] == p[k];
  }

  /** The builder's state that parseMount changes. */
  class Builder {
    var tempVolumes: map<string, bool>
    var effects: seq<Effect>

    constructor ()
      ensures tempVolumes == map[] && effects == []
    {
      tempVolumes := map[];
      effects := [];
    }

    /** Records one effect and returns its error. */
    method Perform(h: Host, e: Effect) returns (err: Option<string>)
      modifies this`effects
      ensures (effects, err) == Attempt(h, old(effects), e)
    {
      effects := effects + [e];
      err := h.fails(effects);
    }

    /** The flag scan of parseMount. */
    method ScanOptions(options: seq<string>) returns (f: MountFlags)
      ensures f == Scan(options)
    {
      f := NoMountFlags;
      for i := 0 to |options|
        invariant f == Scan(options[..i])
      {
        assert options[..i + 1] == options[..i] + [options[i]];
        ScanSnoc(options[..i], options[i]);
        f := ScanSwitch(f, options[i]);
        f := ScanDirs(f, options[i]);
      }
      assert options[..|options|] == options;
    }

    /** The switch over one option. */
    method ScanSwitch(f: MountFlags, opt: string) returns (g: MountFlags)
      ensures g == SwitchOne(f, opt)
    {
      FlagWordsDistinct();
      var foundrw, foundro, foundz, foundZ, foundO, foundU := f.rw, f.ro, f.relabelShared, f.relabelPrivate, f.overlay, f.chown;
      var rootProp := f.rootProp;
      if opt == "rw" {
        foundrw := true;
      } else if opt == "ro" {
        foundro := true;
      } else if opt == "z" {
        foundz := true;
      } else if opt == "Z" {
        foundZ := true;
      } else if opt == "O" {
        foundO := true;
      } else if opt == "U" {
        foundU := true;
      } else if opt in PropagationOptions {
        rootProp := opt;
      }
      g := MountFlags(foundrw, foundro, foundz, foundZ, foundO, foundU, rootProp, f.upperDir, f.workDir);
    }

    /** The upperdir and workdir settings of one option. */
    method ScanDirs(f: MountFlags, opt: string) returns (g: MountFlags)
      ensures g == DirsOne(f, opt)
    {
      var upperDir, workDir := f.upperDir, f.workDir;
      if Text.HasPrefix(opt, "upperdir") {
        var (_, value, found) := Text.Cut(opt, '=');
        if found {
          upperDir := value;
        }
      }
      if Text.HasPrefix(opt, "workdir") {
        var (_, value, found) := Text.Cut(opt, '=');
        if found {
          workDir := value;
        }
      }
      g := MountFlags(f.rw, f.ro, f.relabelShared, f.relabelPrivate, f.overlay, f.chown, f.rootProp, upperDir, workDir);
    }

    /** The relabelling and ownership steps of parseMount. */
    method PrepareSource(h: Host, f: MountFlags, source: string, mountLabel: string) returns (err: Option<string>)
      modifies this`effects
      ensures (effects, err) == Prepare(h, old(effects), f, source, mountLabel)
    {
      err := None;
      if f.relabelShared {
        err := Perform(h, Relabel(source, mountLabel, true));
        if err.Some? {
          return;
        }
      }
      if f.relabelPrivate {
        err := Perform(h, Relabel(source, mountLabel, false));
        if err.Some? {
          return;
        }
      }
      if f.chown {
        err := Perform(h, Chown(source));
      }
    }

    /** The overlay branch of parseMount. */
    method MountOverlay(h: Host, f: MountFlags, req: Mount) returns (r: Result<Mount, string>)
      modifies this
      ensures Parsed(r, effects, tempVolumes) == Overlay(h, old(effects), old(tempVolumes), f, req)
    {
      if (f.upperDir != "" && f.workDir == "") || (f.workDir != "" && f.upperDir == "") {
        return Err(OverlayPairError);
      }
      if h.containerDir.Err? {
        return Err(h.containerDir.error);
      }
      var dir := h.containerDir.value;
      var err := Perform(h, MakeTempDir(dir));
      if err.Some? {
        return Err(TempDirError(dir, err.value));
      }
      var contentDir := h.tempDirName(effects);
      err := Perform(h, OverlayMount(contentDir, req.source, req.destination, f.upperDir, f.workDir));
      if err.Some? {
        return Err(err.value);
      }
      var mounted := h.overlayMount(effects);
      tempVolumes := tempVolumes[contentDir := true];
      if f.chown {
        err := Perform(h, Chown(contentDir));
        if err.Some? {
          return Err(err.value);
        }
      }
      r := Ok(mounted);
    }

    /** parseMount. */
    method ParseMount(h: Host, mountLabel: string, req: Mount) returns (r: Result<Mount, string>)
      modifies this
      ensures Parsed(r, effects, tempVolumes) == ParseMountSpec(h, old(effects), old(tempVolumes), mountLabel, req)
    {
      var f := ScanOptions(req.options);
      var err := PrepareSource(h, f, req.source, mountLabel);
      if err.Some? {
        return Err(err.value);
      }
      if f.overlay {
        r := MountOverlay(h, f, req);
        return;
      }
      var options := req.options;
      if !f.rw && !f.ro {
        options := options + ["rw"];
      }
      if f.rootProp == "" {
        options := options + ["private"];
      }
      var mountType := req.typ;
      if mountType != "tmpfs" {
        mountType := TypeBind;
        options := options + ["rbind"];
      }
      r := Ok(Mount(req.destination, mountType, req.source, options));
    }

    /** One iteration of either loop of runSetupVolumeMounts: parse one request and append its mount. */
    method ParseNext(h: Host, mountLabel: string, ghost start: Volumes, ghost done: seq<Mount>, mounts: seq<Mount>, req: Mount)
      returns (r: Result<seq<Mount>, string>)
      requires ParseAll(h, start, mountLabel, done) == Volumes(Ok(mounts), effects, tempVolumes)
      modifies this
      ensures Volumes(r, effects, tempVolumes) == ParseAll(h, start, mountLabel, done + [req])
    {
      ParseAllSnoc(h, start, mountLabel, done, req);
      var m := ParseMount(h, mountLabel, req);
      if m.Err? {
        return Err(m.error);
      }
      r := Ok(mounts + [m.value]);
    }

    /** runSetupVolumeMounts, with the volumes already split at unescaped colons. */
    method RunSetupVolumeMounts(h: Host, mountLabel: string, containerID: string, volumeMounts: seq<seq<string>>, optionMounts: seq<Mount>)
      returns (r: Result<seq<Mount>, string>)
      requires forall k :: 0 <= k < |volumeMounts| ==> |volumeMounts[k]| >= 2
      modifies this
      ensures Volumes(r, effects, tempVolumes) ==
        SetupVolumesSpec(h, old(effects), old(tempVolumes), mountLabel, containerID, volumeMounts, optionMounts)
    {
      if h.containerDir.Err? {
        return Err("looking up container directory for " + containerID + ": " + h.containerDir.error);
      }
      var err := Perform(h, CleanupContent(h.containerDir.value));
      if err.Some? {
        return Err("cleaning up overlay content for " + containerID + ": " + err.value);
      }
      ghost var start := Volumes(Ok([]), effects, tempVolumes);
      var mounts := ParseOptionMounts(h, mountLabel, start, optionMounts);
      ParseAllAppend(h, start, mountLabel, optionMounts, VolumeRequests(volumeMounts));
      if mounts.Err? {
        ParseAllStaysFailed(h, ParseAll(h, start, mountLabel, optionMounts), mountLabel, VolumeRequests(volumeMounts), 0);
        return mounts;
      }
      r := ParseVolumeMounts(h, mountLabel, mounts.value, volumeMounts);
    }

    /** The request for one container volume: split options, then "rbind". */
    static method VolumeRequestOf(spliti: seq<string>) returns (req: Mount)
      requires |spliti| >= 2
      ensures req == VolumeRequest(spliti)
    {
      var options: seq<string> := [];
      if |spliti| > 2 {
        options := Text.Split(spliti[2], ',');
      }
      options := options + ["rbind"];
      req := Mount(spliti[1], TypeBind, spliti[0], options);
    }

    /** One iteration of the second loop: build the request for a container volume, parse it and append its mount. */
    method ParseVolume(h: Host, mountLabel: string, ghost start: Volumes, ghost done: seq<Mount>, mounts: seq<Mount>, spliti: seq<string>)
      returns (r: Result<seq<Mount>, string>)
      requires |spliti| >= 2
      requires ParseAll(h, start, mountLabel, done) == Volumes(Ok(mounts), effects, tempVolumes)
      modifies this
      ensures Volumes(r, effects, tempVolumes) == ParseAll(h, start, mountLabel, done + [VolumeRequest(spliti)])
    {
      var req := VolumeRequestOf(spliti);
      r := ParseNext(h, mountLabel, start, done, mounts, req);
    }

    /** The first loop of runSetupVolumeMounts: the run's own mounts. */
    method ParseOptionMounts(h: Host, mountLabel: string, ghost start: Volumes, optionMounts: seq<Mount>)
      returns (r: Result<seq<Mount>, string>)
      requires start == Volumes(Ok([]), effects, tempVolumes)
      modifies this
      ensures Volumes(r, effects, tempVolumes) == ParseAll(h, start, mountLabel, optionMounts)
    {
      var mounts: seq<Mount> := [];
      for i := 0 to |optionMounts|
        invariant ParseAll(h, start, mountLabel, optionMounts[..i]) == Volumes(Ok(mounts), effects, tempVolumes)
      {
        assert optionMounts[..i + 1] == optionMounts[..i] + [optionMounts[i]];
        var next := ParseNext(h, mountLabel, start, optionMounts[..i], mounts, optionMounts[i]);
        if next.Err? {
          ParseAllStaysFailed(h, start, mountLabel, optionMounts, i + 1);
          return next;
        }
        mounts := next.value;
      }
      assert optionMounts[..|optionMounts|] == optionMounts;
      r := Ok(mounts);
    }

    /** The second loop of runSetupVolumeMounts: the container's volumes, after the mounts made so far. */
    method ParseVolumeMounts(h: Host, mountLabel: string, mounts0: seq<Mount>, volumeMounts: seq<seq<string>>)
      returns (r: Result<seq<Mount>, string>)
      requires forall k :: 0 <= k < |volumeMounts| ==> |volumeMounts[k]| >= 2
      modifies this
      ensures Volumes(r, effects, tempVolumes) ==
        ParseAll(h, Volumes(Ok(mounts0), old(effects), old(tempVolumes)), mountLabel, VolumeRequests(volumeMounts))
    {
      ghost var start := Volumes(Ok(mounts0), effects, tempVolumes);
      var mounts := mounts0;
      for j := 0 to |volumeMounts|
        invariant ParseAll(h, start, mountLabel, VolumeRequests(volumeMounts[..j])) == Volumes(Ok(mounts), effects, tempVolumes)
      {
        assert volumeMounts[..j + 1][..j] == volumeMounts[..j];
        var next := ParseVolume(h, mountLabel, start, VolumeRequests(volumeMounts[..j]), mounts, volumeMounts[j]);
        if next.Err? {
          VolumeRequestsPrefix(volumeMounts, j + 1);
          ParseAllStaysFailed(h, start, mountLabel, VolumeRequests(volumeMounts), j + 1);
          return next;
        }
        mounts := next.value;
      }
      assert volumeMounts[..|volumeMounts|] == volumeMounts;
      r := Ok(mounts);
    }
  }
}
