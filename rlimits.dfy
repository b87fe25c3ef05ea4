/**
 * The process resource limits of a run (addRlimits). The configured default
 * ulimits come first, then the run's own; each "name=soft:hard" entry is
 * parsed and becomes the rlimit "RLIMIT_" + upper-cased name, added or
 * replaced by type. When no entry names NOFILE (or NPROC), a default limit
 * is added: 1048576, raised to the host's hard limit when that is larger,
 * and taken from the host outright when running rootless.
 */
module Rlimits {
  import opened Wrappers
  import opened Oci
  import Keyed
  import Text

  /** A parsed ulimit; the limits are Go int64 values. */
  datatype Ulimit = Ulimit(name: string, hard: int, soft: int)

  /** The default limit for open files and processes, 1048576. */
  const RLimitDefaultValue: u64 := 1048576

  /** Go's uint64(x) for an int64 x: two's-complement wrap-around. */
  function ToU64(x: int): (r: u64)
    ensures 0 <= x < 0x1_0000_0000_0000_0000 ==> r == x
    ensures -0x1_0000_0000_0000_0000 <= x < 0 ==> r == x + 0x1_0000_0000_0000_0000
  {
    x % 0x1_0000_0000_0000_0000
  }

  /** The rlimit type for a resource name in upper case. */
  function TypeFor(upper: string): string {
    "RLIMIT_" + upper
  }

  /** Distinct resource names give distinct rlimit types. */
  lemma TypeForInjective(a: string, b: string)
    requires TypeFor(a) == TypeFor(b)
    ensures a == b
  {
    assert TypeFor(a)[7..] == a;
    assert TypeFor(b)[7..] == b;
  }

  lemma NofileIsNotNproc()
    ensures TypeFor("NOFILE") != TypeFor("NPROC")
  {
    assert TypeFor("NOFILE")[8] == 'O';
    assert TypeFor("NPROC")[8] == 'P';
  }

  /** The rlimit an entry becomes. */
  function ToRlimit(u: Ulimit): Rlimit {
    Rlimit(TypeFor(Text.ToUpper(u.name)), ToU64(u.hard), ToU64(u.soft))
  }

  function Requested(uls: seq<Ulimit>): (r: seq<Rlimit>)
    ensures |r| == |uls|
    ensures forall j :: 0 <= j < |uls| ==> r[j] == ToRlimit(uls[j])
  {
    seq(|uls|, j requires 0 <= j < |uls| => ToRlimit(uls[j]))
  }

  /** Some entry is named `upper` in any letter case. */
  predicate Names(uls: seq<Ulimit>, upper: string) {
    exists j :: 0 <= j < |uls| && Text.ToUpper(uls[j].name) == upper
  }

  /** The default maximum: the host's hard limit if it could be read and is larger (or rootless), else 1048576. */
  function DefaultMax(hostMax: Option<u64>, isRootless: bool): u64 {
    match hostMax
    case None => RLimitDefaultValue
    case Some(m) => if RLimitDefaultValue < m || isRootless then m else RLimitDefaultValue
  }

  /** The default entries added for NOFILE and NPROC when no entry names them. */
  function Defaults(uls: seq<Ulimit>, hostNofile: Option<u64>, hostNproc: Option<u64>, isRootless: bool): seq<Rlimit> {
    var nofile := DefaultMax(hostNofile, isRootless);
    var nproc := DefaultMax(hostNproc, isRootless);
    (if !Names(uls, "NOFILE") then [Rlimit(TypeFor("NOFILE"), nofile, nofile)] else []) +
    (if !Names(uls, "NPROC") then [Rlimit(TypeFor("NPROC"), nproc, nproc)] else [])
  }

  /** The rlimit list after all entries parsed. */
  function RlimitsAfter(rlimits: seq<Rlimit>, uls: seq<Ulimit>, hostNofile: Option<u64>, hostNproc: Option<u64>, isRootless: bool): seq<Rlimit> {
    Keyed.UpsertAll(Keyed.UpsertAll(rlimits, RlimitType, Requested(uls)), RlimitType, Defaults(uls, hostNofile, hostNproc, isRootless))
  }

  /** Index of the first entry that does not parse, or |us|. */
  function FirstUnparsed(us: seq<string>, parse: string -> Option<Ulimit>): (k: nat)
    ensures k <= |us|
    ensures forall j :: 0 <= j < k ==> parse(us[j]).Some?
    ensures k < |us| ==> parse(us[k]).None?
  {
    if us == [] then 0 else if parse(us[0]).None? then 0 else 1 + FirstUnparsed(us[1..], parse)
  }

  function ParsedPrefix(us: seq<string>, parse: string -> Option<Ulimit>, k: nat): (r: seq<Ulimit>)
    requires k <= |us|
    requires forall j :: 0 <= j < k ==> parse(us[j]).Some?
    ensures |r| == k
    ensures forall j :: 0 <= j < k ==> Some(r[j]) == parse(us[j])
  {
    seq(k, j requires 0 <= j < k => parse(us[j]).value)
  }

  function ParseError(u: string): string {
    "ulimit option \"" + u + "\" requires name=SOFT:HARD, failed to be parsed"
  }

  /** The generator's AddProcessRlimits: add or replace the limit of type `typ`. */
  method AddProcessRlimits(g: Generator, typ: string, hard: u64, soft: u64)
    modifies g`rlimits
    ensures g.rlimits == Keyed.Upsert(old(g.rlimits), RlimitType, Rlimit(typ, hard, soft))
  {
    g.rlimits := Keyed.Upsert(g.rlimits, RlimitType, Rlimit(typ, hard, soft));
  }

  /** Names over a list with one more entry. */
  lemma NamesSnoc(uls: seq<Ulimit>, u: Ulimit, upper: string)
    ensures Names(uls + [u], upper) <==> Names(uls, upper) || Text.ToUpper(u.name) == upper
  {
    var z := uls + [u];
    if Names(uls, upper) {
      var j :| 0 <= j < |uls| && Text.ToUpper(uls[j].name) == upper;
      assert z[j] == uls[j];
    }
    assert z[|uls|] == u;
  }

  lemma RequestedSnoc(uls: seq<Ulimit>, u: Ulimit)
    ensures Requested(uls + [u]) == Requested(uls) + [ToRlimit(u)]
  {
  }

  lemma ParsedPrefixSnoc(us: seq<string>, parse: string -> Option<Ulimit>, k: nat)
    requires k < |us|
    requires forall j :: 0 <= j <= k ==> parse(us[j]).Some?
    ensures ParsedPrefix(us, parse, k + 1) == ParsedPrefix(us, parse, k) + [parse(us[k]).value]
  {
  }

  /** The parse-and-apply loop: entries are applied until the first that does not parse. */
  method ApplyUlimits(g: Generator, all: seq<string>, parse: string -> Option<Ulimit>)
    returns (err: Option<string>, nofileSet: bool, nprocSet: bool)
    modifies g`rlimits
    ensures var k := FirstUnparsed(all, parse);
            var applied := ParsedPrefix(all, parse, k);
            g.rlimits == Keyed.UpsertAll(old(g.rlimits), RlimitType, Requested(applied)) &&
            (err.Some? <==> k < |all|) &&
            (k < |all| ==> err == Some(ParseError(all[k]))) &&
            nofileSet == Names(applied, "NOFILE") && nprocSet == Names(applied, "NPROC")
  {
    ghost var k := FirstUnparsed(all, parse);
    nofileSet := false;
    nprocSet := false;
    ghost var applied: seq<Ulimit> := [];
    var i := 0;
    while i < |all|
      invariant i <= k
      invariant applied == ParsedPrefix(all, parse, i)
      invariant g.rlimits == Keyed.UpsertAll(old(g.rlimits), RlimitType, Requested(applied))
      invariant nofileSet == Names(applied, "NOFILE")
      invariant nprocSet == Names(applied, "NPROC")
    {
      var ul := parse(all[i]);
      if ul.None? {
        assert i == k;
        return Some(ParseError(all[i])), nofileSet, nprocSet;
      }
      var u := ul.value;
      var upper := Text.ToUpper(u.name);
      if upper == "NOFILE" { nofileSet := true; }
      if upper == "NPROC" { nprocSet := true; }
      AddProcessRlimits(g, TypeFor(upper), ToU64(u.hard), ToU64(u.soft));
      NamesSnoc(applied, u, "NOFILE");
      NamesSnoc(applied, u, "NPROC");
      RequestedSnoc(applied, u);
      Keyed.UpsertAllSnoc(old(g.rlimits), RlimitType, Requested(applied), ToRlimit(u));
      ParsedPrefixSnoc(all, parse, i);
      applied := applied + [u];
      i := i + 1;
    }
    assert i == k;
    err := None;
  }

  /** The NOFILE and NPROC defaults, each added only when no entry set it. */
  method AddDefaultRlimits(g: Generator, nofileSet: bool, nprocSet: bool,
                           hostNofile: Option<u64>, hostNproc: Option<u64>, isRootless: bool)
    modifies g`rlimits
    ensures var nofile := DefaultMax(hostNofile, isRootless);
            var nproc := DefaultMax(hostNproc, isRootless);
            g.rlimits == Keyed.UpsertAll(old(g.rlimits), RlimitType,
              (if !nofileSet then [Rlimit(TypeFor("NOFILE"), nofile, nofile)] else []) +
              (if !nprocSet then [Rlimit(TypeFor("NPROC"), nproc, nproc)] else []))
  {
    var nofile := DefaultMax(hostNofile, isRootless);
    var nproc := DefaultMax(hostNproc, isRootless);
    ghost var ds := (if !nofileSet then [Rlimit(TypeFor("NOFILE"), nofile, nofile)] else []) +
                    (if !nprocSet then [Rlimit(TypeFor("NPROC"), nproc, nproc)] else []);
    if !nofileSet {
      AddProcessRlimits(g, TypeFor("NOFILE"), nofile, nofile);
    }
    if !nprocSet {
      AddProcessRlimits(g, TypeFor("NPROC"), nproc, nproc);
    }
    if !nofileSet && !nprocSet {
      Keyed.UpsertAllSnoc(old(g.rlimits), RlimitType, [], ds[0]);
      Keyed.UpsertAllSnoc(old(g.rlimits), RlimitType, [ds[0]], ds[1]);
    } else if !nofileSet || !nprocSet {
      Keyed.UpsertAllSnoc(old(g.rlimits), RlimitType, [], ds[0]);
    }
  }

  /**
   * addRlimits with the ulimit parser and the host's limits as parameters.
   * A failing entry stops the run with an error after the entries before it
   * were applied.
   */
  method AddRlimits(g: Generator, ulimit: seq<string>, defaultUlimits: seq<string>, parse: string -> Option<Ulimit>,
                    hostNofile: Option<u64>, hostNproc: Option<u64>, isRootless: bool) returns (err: Option<string>)
    modifies g`rlimits
    ensures var all := defaultUlimits + ulimit;
            var k := FirstUnparsed(all, parse);
            if k < |all| then
              err == Some(ParseError(all[k])) &&
              g.rlimits == Keyed.UpsertAll(old(g.rlimits), RlimitType, Requested(ParsedPrefix(all, parse, k)))
            else
              err.None? &&
              g.rlimits == RlimitsAfter(old(g.rlimits), ParsedPrefix(all, parse, k), hostNofile, hostNproc, isRootless)
  {
    var all := defaultUlimits + ulimit;
    var nofileSet, nprocSet;
    err, nofileSet, nprocSet := ApplyUlimits(g, all, parse);
    if err.Some? {
      return;
    }
    AddDefaultRlimits(g, nofileSet, nprocSet, hostNofile, hostNproc, isRootless);
  }

  /** The default maximum is 1048576 without a host limit, the host limit when rootless, and the larger of the two otherwise. */
  lemma DefaultMaxIs(hostMax: Option<u64>, isRootless: bool)
    ensures hostMax.None? ==> DefaultMax(hostMax, isRootless) == 1048576
    ensures hostMax.Some? && isRootless ==> DefaultMax(hostMax, isRootless) == hostMax.value
    ensures hostMax.Some? && !isRootless ==>
      DefaultMax(hostMax, isRootless) >= 1048576 && DefaultMax(hostMax, isRootless) >= hostMax.value &&
      (DefaultMax(hostMax, isRootless) == 1048576 || DefaultMax(hostMax, isRootless) == hostMax.value)
  {
  }

  /** An entry's rlimit type is "RLIMIT_" + `upper` exactly when its name is `upper` in some letter case. */
  lemma TypeIsName(uls: seq<Ulimit>, upper: string)
    ensures Keyed.LastWith(Requested(uls), RlimitType, TypeFor(upper)).Some? <==> Names(uls, upper)
  {
    var req := Requested(uls);
    if Keyed.LastWith(req, RlimitType, TypeFor(upper)).Some? {
      var j :| 0 <= j < |req| && RlimitType(req[j]) == TypeFor(upper);
      TypeForInjective(Text.ToUpper(uls[j].name), upper);
    }
    if Names(uls, upper) {
      var j :| 0 <= j < |uls| && Text.ToUpper(uls[j].name) == upper;
      assert RlimitType(req[j]) == TypeFor(upper);
    }
  }

  /** The default entries are for NOFILE and NPROC only, each present exactly when no entry names it. */
  lemma DefaultsTypes(uls: seq<Ulimit>, hostNofile: Option<u64>, hostNproc: Option<u64>, isRootless: bool)
    ensures var ds := Defaults(uls, hostNofile, hostNproc, isRootless);
      forall j :: 0 <= j < |ds| ==>
        (ds[j].typ == TypeFor("NOFILE") && !Names(uls, "NOFILE")) || (ds[j].typ == TypeFor("NPROC") && !Names(uls, "NPROC"))
    ensures TypeFor("NOFILE") in Keyed.Keys(Defaults(uls, hostNofile, hostNproc, isRootless), RlimitType) <==> !Names(uls, "NOFILE")
    ensures TypeFor("NPROC") in Keyed.Keys(Defaults(uls, hostNofile, hostNproc, isRootless), RlimitType) <==> !Names(uls, "NPROC")
  {
    var ds := Defaults(uls, hostNofile, hostNproc, isRootless);
    NofileIsNotNproc();
    if !Names(uls, "NOFILE") {
      assert RlimitType(ds[0]) == TypeFor("NOFILE");
    }
    if !Names(uls, "NPROC") {
      assert RlimitType(ds[|ds| - 1]) == TypeFor("NPROC");
    }
  }

  /** Open files and processes are always limited after a successful addRlimits. */
  lemma {:induction false} NofileAndNprocSet(rlimits: seq<Rlimit>, uls: seq<Ulimit>, hostNofile: Option<u64>, hostNproc: Option<u64>, isRootless: bool)
    ensures var r := RlimitsAfter(rlimits, uls, hostNofile, hostNproc, isRootless);
      TypeFor("NOFILE") in Keyed.Keys(r, RlimitType) && TypeFor("NPROC") in Keyed.Keys(r, RlimitType)
  {
    var req := Requested(uls);
    var ds := Defaults(uls, hostNofile, hostNproc, isRootless);
    Keyed.UpsertAllKeys(rlimits, RlimitType, req);
    Keyed.UpsertAllKeys(Keyed.UpsertAll(rlimits, RlimitType, req), RlimitType, ds);
    DefaultsTypes(uls, hostNofile, hostNproc, isRootless);
    TypeIsName(uls, "NOFILE");
    TypeIsName(uls, "NPROC");
    if Names(uls, "NOFILE") {
      var w := Keyed.LastWith(req, RlimitType, TypeFor("NOFILE")).value;
      assert w in req;
    }
    if Names(uls, "NPROC") {
      var w := Keyed.LastWith(req, RlimitType, TypeFor("NPROC")).value;
      assert w in req;
    }
  }

  /** When no entry names NOFILE, the open-files limit is the default maximum for both soft and hard. */
  lemma {:induction false} DefaultNofile(rlimits: seq<Rlimit>, uls: seq<Ulimit>, hostNofile: Option<u64>, hostNproc: Option<u64>, isRootless: bool)
    requires !Names(uls, "NOFILE")
    ensures var m := DefaultMax(hostNofile, isRootless);
      Keyed.Lookup(RlimitsAfter(rlimits, uls, hostNofile, hostNproc, isRootless), RlimitType, TypeFor("NOFILE")) ==
      Some(Rlimit(TypeFor("NOFILE"), m, m))
  {
    var req := Requested(uls);
    var ds := Defaults(uls, hostNofile, hostNproc, isRootless);
    Keyed.UpsertAllLookup(Keyed.UpsertAll(rlimits, RlimitType, req), RlimitType, ds, TypeFor("NOFILE"));
    assert ds[0].typ == TypeFor("NOFILE");
    assert (|ds| == 2 && ds[1].typ == TypeFor("NPROC")) || |ds| == 1;
  }

  /** When no entry names NPROC, the process limit is the default maximum for both soft and hard. */
  lemma {:induction false} DefaultNproc(rlimits: seq<Rlimit>, uls: seq<Ulimit>, hostNofile: Option<u64>, hostNproc: Option<u64>, isRootless: bool)
    requires !Names(uls, "NPROC")
    ensures var m := DefaultMax(hostNproc, isRootless);
      Keyed.Lookup(RlimitsAfter(rlimits, uls, hostNofile, hostNproc, isRootless), RlimitType, TypeFor("NPROC")) ==
      Some(Rlimit(TypeFor("NPROC"), m, m))
  {
    var req := Requested(uls);
    var ds := Defaults(uls, hostNofile, hostNproc, isRootless);
    Keyed.UpsertAllLookup(Keyed.UpsertAll(rlimits, RlimitType, req), RlimitType, ds, TypeFor("NPROC"));
    assert ds[|ds| - 1].typ == TypeFor("NPROC");
  }

  /** A limit that some entry sets is the one set by the last such entry; defaults never override it. */
  lemma {:induction false} RequestedWins(rlimits: seq<Rlimit>, uls: seq<Ulimit>, hostNofile: Option<u64>, hostNproc: Option<u64>, isRootless: bool, typ: string)
    requires Keyed.LastWith(Requested(uls), RlimitType, typ).Some?
    ensures Keyed.Lookup(RlimitsAfter(rlimits, uls, hostNofile, hostNproc, isRootless), RlimitType, typ) ==
      Keyed.LastWith(Requested(uls), RlimitType, typ)
  {
    var req := Requested(uls);
    var ds := Defaults(uls, hostNofile, hostNproc, isRootless);
    Keyed.UpsertAllLookup(rlimits, RlimitType, req, typ);
    Keyed.UpsertAllLookup(Keyed.UpsertAll(rlimits, RlimitType, req), RlimitType, ds, typ);
    TypeIsName(uls, "NOFILE");
    TypeIsName(uls, "NPROC");
    DefaultsTypes(uls, hostNofile, hostNproc, isRootless);
    forall j | 0 <= j < |ds| ensures RlimitType(ds[j]) != typ {
    }
  }
}
