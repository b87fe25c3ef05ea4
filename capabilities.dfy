/**
 * The process capability sets of a run (setupCapAdd, setupCapDrop and
 * setupCapabilities). The generator's bounding, effective, permitted and
 * ambient sets are built together: cleared, filled with the defaults, then
 * the requested additions (where any spelling of "all" means every known
 * capability), then the requested drops; a drop of "all" leaves all four
 * sets empty.
 */
module Capabilities {
  import opened Oci
  import Text

  function SetOf(caps: seq<string>): set<string> {
    set c | c in caps
  }

  /** Some entry is "all" in any ASCII letter case. */
  predicate AnyIsAll(caps: seq<string>) {
    exists i :: 0 <= i < |caps| && Text.ToLower(caps[i]) == "all"
  }

  /** The additions that apply: every known capability when "all" is requested. */
  function EffectiveAdds(adds: seq<string>, allCaps: seq<string>): seq<string> {
    if AnyIsAll(adds) then allCaps else adds
  }

  /** The value each of the four capability sets ends with. */
  function CapabilitySet(defaults: seq<string>, adds: seq<string>, drops: seq<string>, allCaps: seq<string>): set<string> {
    if AnyIsAll(drops) then {}
    else (SetOf(defaults) + SetOf(EffectiveAdds(adds, allCaps))) - SetOf(drops)
  }

  /** The four sets all hold `caps`. */
  ghost predicate SetsAre(g: Generator, caps: set<string>)
    reads g
  {
    g.bounding == caps && g.effective == caps && g.permitted == caps && g.ambient == caps
  }

  method ClearProcessCapabilities(g: Generator)
    modifies g`bounding, g`effective, g`permitted, g`ambient
    ensures SetsAre(g, {})
  {
    g.bounding := {};
    g.effective := {};
    g.permitted := {};
    g.ambient := {};
  }

  /** Adds each capability to all four sets. */
  method SetupCapAdd(g: Generator, caps: seq<string>)
    modifies g`bounding, g`effective, g`permitted, g`ambient
    ensures g.bounding == old(g.bounding) + SetOf(caps)
    ensures g.effective == old(g.effective) + SetOf(caps)
    ensures g.permitted == old(g.permitted) + SetOf(caps)
    ensures g.ambient == old(g.ambient) + SetOf(caps)
  {
    for i := 0 to |caps|
      invariant g.bounding == old(g.bounding) + SetOf(caps[..i])
      invariant g.effective == old(g.effective) + SetOf(caps[..i])
      invariant g.permitted == old(g.permitted) + SetOf(caps[..i])
      invariant g.ambient == old(g.ambient) + SetOf(caps[..i])
    {
      assert SetOf(caps[..i + 1]) == SetOf(caps[..i]) + {caps[i]} by {
        assert caps[..i + 1] == caps[..i] + [caps[i]];
      }
      g.bounding := g.bounding + {caps[i]};
      g.effective := g.effective + {caps[i]};
      g.permitted := g.permitted + {caps[i]};
      g.ambient := g.ambient + {caps[i]};
    }
    assert caps[..|caps|] == caps;
  }

  /** Removes each capability from all four sets. */
  method SetupCapDrop(g: Generator, caps: seq<string>)
    modifies g`bounding, g`effective, g`permitted, g`ambient
    ensures g.bounding == old(g.bounding) - SetOf(caps)
    ensures g.effective == old(g.effective) - SetOf(caps)
    ensures g.permitted == old(g.permitted) - SetOf(caps)
    ensures g.ambient == old(g.ambient) - SetOf(caps)
  {
    for i := 0 to |caps|
      invariant g.bounding == old(g.bounding) - SetOf(caps[..i])
      invariant g.effective == old(g.effective) - SetOf(caps[..i])
      invariant g.permitted == old(g.permitted) - SetOf(caps[..i])
      invariant g.ambient == old(g.ambient) - SetOf(caps[..i])
    {
      assert SetOf(caps[..i + 1]) == SetOf(caps[..i]) + {caps[i]} by {
        assert caps[..i + 1] == caps[..i] + [caps[i]];
      }
      g.bounding := g.bounding - {caps[i]};
      g.effective := g.effective - {caps[i]};
      g.permitted := g.permitted - {caps[i]};
      g.ambient := g.ambient - {caps[i]};
    }
    assert caps[..|caps|] == caps;
  }

  /** setupCapabilities: all four sets end as CapabilitySet of the arguments. */
  method SetupCapabilities(g: Generator, defaults: seq<string>, adds: seq<string>, drops: seq<string>, allCaps: seq<string>)
    modifies g`bounding, g`effective, g`permitted, g`ambient
    ensures SetsAre(g, CapabilitySet(defaults, adds, drops, allCaps))
  {
    ClearProcessCapabilities(g);
    SetupCapAdd(g, defaults);
    var toAdd := adds;
    for i := 0 to |adds|
      invariant forall j :: 0 <= j < i ==> Text.ToLower(adds[j]) != "all"
    {
      if Text.ToLower(adds[i]) == "all" {
        toAdd := allCaps;
        break;
      }
    }
    assert toAdd == EffectiveAdds(adds, allCaps);
    for i := 0 to |drops|
      invariant forall j :: 0 <= j < i ==> Text.ToLower(drops[j]) != "all"
    {
      if Text.ToLower(drops[i]) == "all" {
        ClearProcessCapabilities(g);
        return;
      }
    }
    SetupCapAdd(g, toAdd);
    SetupCapDrop(g, drops);
  }

  /** A drop of "all", in any letter case, empties the sets whatever else was asked for. */
  lemma DropAllClears(defaults: seq<string>, adds: seq<string>, drops: seq<string>, allCaps: seq<string>, i: nat)
    requires i < |drops| && |drops[i]| == 3
    requires drops[i][0] in "aA" && drops[i][1] in "lL" && drops[i][2] in "lL"
    ensures CapabilitySet(defaults, adds, drops, allCaps) == {}
  {
    Text.LowerIsAll(drops[i]);
  }

  /** A dropped capability is never granted, even when it is a default or an addition. */
  lemma DropWins(defaults: seq<string>, adds: seq<string>, drops: seq<string>, allCaps: seq<string>, c: string)
    requires c in drops
    ensures c !in CapabilitySet(defaults, adds, drops, allCaps)
  {
  }

  /** Without an "all" drop, a capability is granted exactly when it is a default or an applicable addition and not dropped. */
  lemma Granted(defaults: seq<string>, adds: seq<string>, drops: seq<string>, allCaps: seq<string>, c: string)
    requires !AnyIsAll(drops)
    ensures c in CapabilitySet(defaults, adds, drops, allCaps) <==>
      c !in drops && (c in defaults || c in EffectiveAdds(adds, allCaps))
  {
  }

  /** An "all" addition grants every known capability that is not dropped, and the word "all" itself is not granted as a capability. */
  lemma AddAllGrantsKnown(defaults: seq<string>, adds: seq<string>, drops: seq<string>, allCaps: seq<string>, i: nat)
    requires i < |adds| && |adds[i]| == 3
    requires adds[i][0] in "aA" && adds[i][1] in "lL" && adds[i][2] in "lL"
    requires !AnyIsAll(drops)
    ensures forall c :: c in allCaps && c !in drops ==> c in CapabilitySet(defaults, adds, drops, allCaps)
    ensures adds[i] in CapabilitySet(defaults, adds, drops, allCaps) ==> adds[i] in defaults || adds[i] in allCaps
  {
    Text.LowerIsAll(adds[i]);
  }
}
