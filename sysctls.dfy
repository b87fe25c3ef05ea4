/**
 * The sysctl filter of setupNamespaces (its addSysctl closure). Each
 * configured "name=value" sysctl whose name starts with one of the given
 * prefixes is set in the runtime spec. Two versions are modelled: the code
 * as written, whose malformed-entry guard can never fire and which indexes
 * past the end of a split without '=', and the intended one, which rejects
 * an entry without '='.
 */
module Sysctls {
  import opened Wrappers
  import Text

  /** strings.SplitN(s, "=", 2). */
  function SplitN2(s: string): (parts: seq<string>)
    ensures 1 <= |parts| <= 2
    ensures |parts| == 2 <==> '=' in s
    ensures '=' !in parts[0]
    ensures |parts| == 2 ==> s == parts[0] + "=" + parts[1]
    ensures |parts| == 1 ==> parts[0] == s
  {
    var (name, value, found) := Text.Cut(s, '=');
    if found then [name, value] else [name]
  }

  /** Some prefix matches the name. */
  predicate MatchesAny(name: string, prefixes: seq<string>) {
    exists k :: 0 <= k < |prefixes| && Text.HasPrefix(name, prefixes[k])
  }

  function FormatError(sysctl: string): string {
    "sysctl \"" + sysctl + "\" defined in containers.conf must be formatted name=value"
  }

  /** The outcome of the closure as written: a map, the (unreachable) format error, or an index-out-of-range panic. */
  datatype SysctlRun = Applied(sysctl: map<string, string>) | Rejected(msg: string) | IndexPanic(entry: string)

  /** addSysctl as written: the guard tests for more than two parts, which SplitN with limit 2 never returns. */
  function AddSysctlAsWritten(m: map<string, string>, sysctls: seq<string>, prefixes: seq<string>): SysctlRun
    decreases |sysctls|
  {
    if sysctls == [] then Applied(m)
    else
      var parts := SplitN2(sysctls[0]);
      if |parts| > 2 then Rejected(FormatError(sysctls[0]))
      else if MatchesAny(parts[0], prefixes) then
        if |parts| < 2 then IndexPanic(sysctls[0])
        else AddSysctlAsWritten(m[parts[0] := parts[1]], sysctls[1..], prefixes)
      else AddSysctlAsWritten(m, sysctls[1..], prefixes)
  }

  /** As written, the format error is never reported. */
  lemma {:induction false} AsWrittenNeverRejects(m: map<string, string>, sysctls: seq<string>, prefixes: seq<string>)
    ensures !AddSysctlAsWritten(m, sysctls, prefixes).Rejected?
    decreases |sysctls|
  {
    if sysctls != [] {
      var parts := SplitN2(sysctls[0]);
      if MatchesAny(parts[0], prefixes) && |parts| == 2 {
        AsWrittenNeverRejects(m[parts[0] := parts[1]], sysctls[1..], prefixes);
      } else if !MatchesAny(parts[0], prefixes) {
        AsWrittenNeverRejects(m, sysctls[1..], prefixes);
      }
    }
  }

  /** As written, the first entry without '=' whose name matches a prefix panics (the intended filter reports it instead). */
  lemma AsWrittenPanics(m: map<string, string>, entry: string, rest: seq<string>, prefixes: seq<string>)
    requires '=' !in entry && MatchesAny(entry, prefixes)
    ensures AddSysctlAsWritten(m, [entry] + rest, prefixes) == IndexPanic(entry)
    ensures ApplySysctls(m, [entry] + rest, prefixes).err == Some(FormatError(entry))
  {
    assert ([entry] + rest)[1..] == rest;
    ApplySysctlsFails(m, [entry] + rest, prefixes, 0);
  }

  /** The map and the error after applying sysctls until the first malformed one. */
  datatype SysctlResult = SysctlResult(sysctl: map<string, string>, err: Option<string>)

  /** One sysctl, with the intended guard: an entry without '=' is rejected before the prefixes are tried. */
  function ApplyOne(m: map<string, string>, sysctl: string, prefixes: seq<string>): SysctlResult {
    var parts := SplitN2(sysctl);
    if |parts| != 2 then SysctlResult(m, Some(FormatError(sysctl)))
    else if MatchesAny(parts[0], prefixes) then SysctlResult(m[parts[0] := parts[1]], None)
    else SysctlResult(m, None)
  }

  /** addSysctl as intended, over the configured sysctls in order. */
  function ApplySysctls(m: map<string, string>, sysctls: seq<string>, prefixes: seq<string>): SysctlResult
    decreases |sysctls|
  {
    if sysctls == [] then SysctlResult(m, None)
    else
      var init := ApplySysctls(m, sysctls[..|sysctls| - 1], prefixes);
      if init.err.Some? then init else ApplyOne(init.sysctl, sysctls[|sysctls| - 1], prefixes)
  }

  /** The name of a well-formed entry. */
  function NameOf(sysctl: string): string {
    SplitN2(sysctl)[0]
  }

  /** The names the intended filter sets: those of well-formed entries matching some prefix. */
  function Added(sysctls: seq<string>, prefixes: seq<string>): set<string>
    decreases |sysctls|
  {
    if sysctls == [] then {}
    else
      var last := sysctls[|sysctls| - 1];
      Added(sysctls[..|sysctls| - 1], prefixes) + (if MatchesAny(NameOf(last), prefixes) then {NameOf(last)} else {})
  }

  /** An entry without '=' is rejected with its own error and leaves the map alone. */
  lemma MalformedEntryRejected(m: map<string, string>, sysctl: string, prefixes: seq<string>)
    requires '=' !in sysctl
    ensures ApplyOne(m, sysctl, prefixes) == SysctlResult(m, Some(FormatError(sysctl)))
  {
  }

  /** The first entry without '=' decides the intended filter's error. */
  lemma {:induction false} FirstMalformedFails(m: map<string, string>, sysctls: seq<string>, prefixes: seq<string>, k: nat)
    requires k < |sysctls| && '=' !in sysctls[k]
    requires forall j :: 0 <= j < k ==> '=' in sysctls[j]
    ensures ApplySysctls(m, sysctls, prefixes).err == Some(FormatError(sysctls[k]))
  {
    var pre := sysctls[..k];
    assert forall j :: 0 <= j < |pre| ==> pre[j] == sysctls[j];
    ApplySysctlsSucceeds(m, pre, prefixes);
    var upto := sysctls[..k + 1];
    assert upto[..|upto| - 1] == pre && upto[|upto| - 1] == sysctls[k];
    MalformedEntryRejected(ApplySysctls(m, pre, prefixes).sysctl, sysctls[k], prefixes);
    ApplySysctlsStaysFailed(m, sysctls, prefixes, k + 1);
  }

  /** An entry without '=' makes the intended filter fail, with that entry's error if it is the first such. */
  lemma {:induction false} ApplySysctlsFails(m: map<string, string>, sysctls: seq<string>, prefixes: seq<string>, k: nat)
    requires k < |sysctls| && '=' !in sysctls[k]
    ensures ApplySysctls(m, sysctls, prefixes).err.Some?
    ensures (forall j :: 0 <= j < k ==> '=' in sysctls[j]) ==> ApplySysctls(m, sysctls, prefixes).err == Some(FormatError(sysctls[k]))
    decreases k
  {
    if forall j :: 0 <= j < k ==> '=' in sysctls[j] {
      FirstMalformedFails(m, sysctls, prefixes, k);
    } else {
      var j :| 0 <= j < k && '=' !in sysctls[j];
      ApplySysctlsFails(m, sysctls, prefixes, j);
    }
  }

  /** With every entry well formed, the intended filter succeeds, adds exactly the matching names and keeps every other entry. */
  lemma {:induction false} ApplySysctlsSucceeds(m: map<string, string>, sysctls: seq<string>, prefixes: seq<string>)
    requires forall k :: 0 <= k < |sysctls| ==> '=' in sysctls[k]
    ensures var r := ApplySysctls(m, sysctls, prefixes);
      r.err.None? && r.sysctl.Keys == m.Keys + Added(sysctls, prefixes)
    ensures var r := ApplySysctls(m, sysctls, prefixes);
      forall name :: name in m && name !in Added(sysctls, prefixes) ==> r.sysctl[name] == m[name]
    decreases |sysctls|
  {
    if sysctls != [] {
      var init := sysctls[..|sysctls| - 1];
      assert forall k :: 0 <= k < |init| ==> init[k] == sysctls[k];
      ApplySysctlsSucceeds(m, init, prefixes);
    }
  }

  /** Running the intended filter over two lists is running it over the second from where the first left off, unless the first failed. */
  lemma {:induction false} ApplySysctlsAppend(m: map<string, string>, xs: seq<string>, ys: seq<string>, prefixes: seq<string>)
    requires ApplySysctls(m, xs, prefixes).err.None?
    ensures ApplySysctls(m, xs + ys, prefixes) == ApplySysctls(ApplySysctls(m, xs, prefixes).sysctl, ys, prefixes)
    decreases |ys|
  {
    if ys == [] {
      assert xs + ys == xs;
    } else {
      var init := ys[..|ys| - 1];
      ApplySysctlsAppend(m, xs, init, prefixes);
      assert (xs + ys)[..|xs + ys| - 1] == xs + init;
      assert (xs + ys)[|xs + ys| - 1] == ys[|ys| - 1];
    }
  }

  /** One well-formed entry: the closure as written goes on from the map the intended filter makes of it. */
  lemma AsWrittenStep(m: map<string, string>, x: string, rest: seq<string>, prefixes: seq<string>)
    requires '=' in x
    ensures ApplySysctls(m, [x], prefixes) == SysctlResult(ApplyOne(m, x, prefixes).sysctl, None)
    ensures AddSysctlAsWritten(m, [x] + rest, prefixes) == AddSysctlAsWritten(ApplyOne(m, x, prefixes).sysctl, rest, prefixes)
  {
    assert [x][..0] == [];
    assert ([x] + rest)[0] == x && ([x] + rest)[1..] == rest;
  }

  /** On well-formed entries the closure as written and the intended filter set the same map, and neither fails. */
  lemma {:induction false} AsWrittenAgrees(m: map<string, string>, sysctls: seq<string>, prefixes: seq<string>)
    requires forall k :: 0 <= k < |sysctls| ==> '=' in sysctls[k]
    ensures ApplySysctls(m, sysctls, prefixes).err.None?
    ensures AddSysctlAsWritten(m, sysctls, prefixes) == Applied(ApplySysctls(m, sysctls, prefixes).sysctl)
    decreases |sysctls|
  {
    if sysctls != [] {
      var x, rest := sysctls[0], sysctls[1..];
      assert sysctls == [x] + rest;
      assert forall k :: 0 <= k < |rest| ==> rest[k] == sysctls[k + 1];
      var m1 := ApplyOne(m, x, prefixes).sysctl;
      AsWrittenAgrees(m1, rest, prefixes);
      AsWrittenStep(m, x, rest, prefixes);
      ApplySysctlsAppend(m, [x], rest, prefixes);
    }
  }

  /** The UTS prefixes as written: the domain-name prefix is misspelt. */
  const UtsPrefixesAsWritten: seq<string> := ["kernel.hostname", "kernel.domainame"]
  /** The UTS prefixes as intended. */
  const UtsPrefixes: seq<string> := ["kernel.hostname", "kernel.domainname"]

  /**
   * The two UTS prefix lists match the same names, except possibly names that
   * start with one of the two domain-name spellings (which this lemma excludes).
   */
  lemma UtsPrefixesAgree(name: string)
    requires !Text.HasPrefix(name, "kernel.domainname") && !Text.HasPrefix(name, "kernel.domainame")
    ensures MatchesAny(name, UtsPrefixes) <==> MatchesAny(name, UtsPrefixesAsWritten)
  {
    assert UtsPrefixes[0] == UtsPrefixesAsWritten[0];
    assert !Text.HasPrefix(name, UtsPrefixes[1]) && !Text.HasPrefix(name, UtsPrefixesAsWritten[1]);
  }

  /** Splitting "name=value" when the name has no '='. */
  lemma SplitAtFirst(name: string, value: string)
    requires '=' !in name
    ensures SplitN2(name + "=" + value) == [name, value]
  {
    assert name + "=" + value == name + ("=" + value);
    Text.IndexPastPrefix(name, '=', "=" + value);
  }

  /** A name differs from a prefix at some position, so does not start with it. */
  lemma NotPrefixAt(s: string, p: string, i: nat)
    requires i < |s| && i < |p| && s[i] != p[i]
    ensures !Text.HasPrefix(s, p)
  {
    if |p| <= |s| {
      assert s[..|p|][i] == s[i];
    }
  }

  /** A single well-formed entry sets its name exactly when the name matches a prefix. */
  lemma SingleEntry(m: map<string, string>, name: string, value: string, prefixes: seq<string>)
    requires '=' !in name
    ensures ApplySysctls(m, [name + "=" + value], prefixes) ==
      if MatchesAny(name, prefixes) then SysctlResult(m[name := value], None) else SysctlResult(m, None)
  {
    SplitAtFirst(name, value);
    assert [name + "=" + value][..0] == [];
  }

  /** As written, the misspelt prefix does not match the real domain-name sysctl, so it is never copied. */
  lemma DomainnamePrefixTypo(m: map<string, string>, value: string)
    ensures ApplySysctls(m, ["kernel.domainname=" + value], UtsPrefixesAsWritten) == SysctlResult(m, None)
  {
    var name := "kernel.domainname";
    assert "kernel.domainname=" + value == name + "=" + value;
    NotPrefixAt(name, UtsPrefixesAsWritten[0], 7);
    NotPrefixAt(name, UtsPrefixesAsWritten[1], 13);
    assert !MatchesAny(name, UtsPrefixesAsWritten);
    SingleEntry(m, name, value, UtsPrefixesAsWritten);
  }

  /** With the intended prefixes, the domain-name sysctl is copied with its value. */
  lemma DomainnameCopied(m: map<string, string>, value: string)
    ensures ApplySysctls(m, ["kernel.domainname=" + value], UtsPrefixes) == SysctlResult(m["kernel.domainname" := value], None)
  {
    var name := "kernel.domainname";
    assert "kernel.domainname=" + value == name + "=" + value;
    assert Text.HasPrefix(name, UtsPrefixes[1]);
    SingleEntry(m, name, value, UtsPrefixes);
  }

  /**
   * The converse of the typo: an entry named with the misspelt prefix is
   * copied by the list as written and not by the intended one.
   */
  lemma MisspeltNameCopiedAsWritten(m: map<string, string>, value: string)
    ensures ApplySysctls(m, ["kernel.domainame=" + value], UtsPrefixesAsWritten) == SysctlResult(m["kernel.domainame" := value], None)
    ensures ApplySysctls(m, ["kernel.domainame=" + value], UtsPrefixes) == SysctlResult(m, None)
  {
    var name := "kernel.domainame";
    assert "kernel.domainame=" + value == name + "=" + value;
    assert Text.HasPrefix(name, UtsPrefixesAsWritten[1]);
    SingleEntry(m, name, value, UtsPrefixesAsWritten);
    NotPrefixAt(name, UtsPrefixes[0], 7);
    assert !Text.HasPrefix(name, UtsPrefixes[1]);
    assert !MatchesAny(name, UtsPrefixes);
    SingleEntry(m, name, value, UtsPrefixes);
  }

  /** Once a prefix of the entries fails, the whole run fails the same way. */
  lemma {:induction false} ApplySysctlsStaysFailed(m: map<string, string>, sysctls: seq<string>, prefixes: seq<string>, k: nat)
    requires k <= |sysctls|
    requires ApplySysctls(m, sysctls[..k], prefixes).err.Some?
    ensures ApplySysctls(m, sysctls, prefixes) == ApplySysctls(m, sysctls[..k], prefixes)
    decreases |sysctls| - k
  {
    if k < |sysctls| {
      assert sysctls[..k + 1][..k] == sysctls[..k];
      ApplySysctlsStaysFailed(m, sysctls, prefixes, k + 1);
    } else {
      assert sysctls[..k] == sysctls;
    }
  }
}
