/**
 * What the admin panel does to its working state before a save: trim each channel's config
 * to the keys its type requires, and deselect defaults that are gone or disabled.
 */
module Panel {
  import opened ConfigTypes
  import opened Validation

  // ------------------------------------------------- assembling a payload

  /** Only the required keys, a missing one as the empty string. */
  function PickRequired(config: map<string, string>, keys: seq<string>): map<string, string> {
    map key | key in keys :: if key in config then config[key] else ""
  }

  method PickRequiredConfig(config: map<string, string>, keys: seq<string>) returns (picked: map<string, string>)
    ensures picked == PickRequired(config, keys)
    ensures forall key :: key in picked <==> key in keys
    ensures forall key :: key in keys ==> picked[key] == if key in config then config[key] else ""
  {
    picked := map[];
    for i := 0 to |keys|
      invariant picked == PickRequired(config, keys[..i])
    {
      assert keys[..i + 1] == keys[..i] + [keys[i]];
      picked := picked[keys[i] := if keys[i] in config then config[keys[i]] else ""];
    }
    assert keys[..|keys|] == keys;
  }

  /** A channel of unknown type keeps its config as it is. */
  function AssembleChannel(c: Channel, required: Registry): Channel {
    if c.kind in required then c.(config := PickRequired(c.config, required[c.kind])) else c
  }

  function AssembleChannels(cs: seq<Channel>, required: Registry): seq<Channel> {
    seq(|cs|, i requires 0 <= i < |cs| => AssembleChannel(cs[i], required))
  }

  function Assemble(state: Payload, required: Registry): Payload {
    Payload(AssembleChannels(state.channels, required), state.profiles)
  }

  lemma {:induction false} SameBlanks(config: map<string, string>, keys: seq<string>, all: seq<string>)
    requires forall k :: k in keys ==> k in all
    ensures FirstBlank(PickRequired(config, all), keys) == FirstBlank(config, keys)
    decreases |keys|
  {
    if keys != [] {
      assert keys[0] in keys;
      SameBlanks(config, keys[1..], all);
    }
  }

  lemma SameChannelFault(cs: seq<Channel>, i: nat, required: Registry)
    requires i < |cs|
    ensures ChannelFault(AssembleChannels(cs, required), i, required) == ChannelFault(cs, i, required)
  {
    var c, d := cs[i], AssembleChannels(cs, required)[i];
    assert d.id == c.id && d.kind == c.kind && d.enabled == c.enabled;
    assert forall j :: 0 <= j < i ==> AssembleChannels(cs, required)[j].id == cs[j].id;
    if c.kind in required {
      SameBlanks(c.config, required[c.kind], required[c.kind]);
    }
  }

  lemma {:induction false} SameChannelsVerdict(cs: seq<Channel>, n: nat, required: Registry)
    requires n <= |cs|
    ensures ChannelsVerdict(AssembleChannels(cs, required), n, required) == ChannelsVerdict(cs, n, required)
    decreases n
  {
    if n > 0 {
      SameChannelsVerdict(cs, n - 1, required);
      SameChannelFault(cs, n - 1, required);
    }
  }

  /** The two tables know the same ids and the same of them enabled. */
  ghost predicate AgreeOnRefs(a: map<string, Channel>, b: map<string, Channel>) {
    a.Keys == b.Keys && forall id :: id in a ==> a[id].enabled == b[id].enabled
  }

  lemma {:induction false} AssembledByIdAgrees(cs: seq<Channel>, required: Registry)
    ensures AgreeOnRefs(ById(AssembleChannels(cs, required)), ById(cs))
    decreases |cs|
  {
    if cs != [] {
      var n := |cs| - 1;
      AssembledByIdAgrees(cs[..n], required);
      assert AssembleChannels(cs, required)[..n] == AssembleChannels(cs[..n], required);
    }
  }

  lemma {:induction false} SameRefFault(name: string, refs: seq<string>, a: map<string, Channel>, b: map<string, Channel>)
    requires AgreeOnRefs(a, b)
    ensures RefFault(name, refs, a) == RefFault(name, refs, b)
    decreases |refs|
  {
    if refs != [] {
      SameRefFault(name, refs[1..], a, b);
    }
  }

  lemma {:induction false} SameProfilesVerdict(ps: seq<Profile>, n: nat, a: map<string, Channel>, b: map<string, Channel>)
    requires n <= |ps| && AgreeOnRefs(a, b)
    ensures ProfilesVerdict(ps, n, a) == ProfilesVerdict(ps, n, b)
    decreases n
  {
    if n > 0 {
      SameProfilesVerdict(ps, n - 1, a, b);
      SameRefFault(ps[n - 1].name, ps[n - 1].defaults, a, b);
    }
  }

  /** Assembling touches nothing but configs, and there drops only keys that are not required. */
  lemma AssembledIs(state: Payload, required: Registry)
    ensures var a := Assemble(state, required);
      && a.profiles == state.profiles && |a.channels| == |state.channels|
      && forall i :: 0 <= i < |state.channels| ==>
           var c, d := state.channels[i], a.channels[i];
           && d.id == c.id && d.caption == c.caption && d.kind == c.kind && d.enabled == c.enabled
           && (c.kind !in required ==> d.config == c.config)
           && (c.kind in required ==> forall key ::
                && (key in d.config <==> key in required[c.kind])
                && (key in d.config ==> d.config[key] == if key in c.config then c.config[key] else ""))
  {
    forall i | 0 <= i < |state.channels| ensures Assemble(state, required).channels[i] == AssembleChannel(state.channels[i], required) {}
  }

  /** Assembling never changes the server's verdict, not even which fault it reports. */
  lemma AssembleKeepsVerdict(state: Payload, required: Registry)
    ensures VerdictOf(Assemble(state, required), required) == VerdictOf(state, required)
  {
    SameChannelsVerdict(state.channels, |state.channels|, required);
    AssembledByIdAgrees(state.channels, required);
    SameProfilesVerdict(state.profiles, |state.profiles|, ById(AssembleChannels(state.channels, required)), ById(state.channels));
  }

  lemma AssembleIsIdempotent(state: Payload, required: Registry)
    ensures Assemble(Assemble(state, required), required) == Assemble(state, required)
  {
    var once, twice := AssembleChannels(state.channels, required), AssembleChannels(AssembleChannels(state.channels, required), required);
    forall i | 0 <= i < |once| ensures twice[i] == once[i] {
      var c := state.channels[i];
      if c.kind in required {
        assert PickRequired(PickRequired(c.config, required[c.kind]), required[c.kind]) == PickRequired(c.config, required[c.kind]);
      }
    }
  }

  // ----------------------------------------------------- pruning defaults

  function EnabledIds(cs: seq<Channel>): set<string> {
    set c | c in cs && c.enabled :: c.id
  }

  function Pruned(p: Profile, ids: set<string>): Profile {
    p.(defaults := Within(p.defaults, ids))
  }

  /**
   * Each profile is changed in place to keep exactly its enabled defaults, in order, and
   * nothing else of it changes; the answer says whether any profile had one to lose.
   */
  method PruneDefaultChannelsToEnabled(channels: seq<Channel>, profiles: array<Profile>) returns (changed: bool)
    modifies profiles
    ensures forall id :: id in EnabledIds(channels) <==> EnabledIn(channels, id)
    ensures forall i :: 0 <= i < profiles.Length ==> profiles[i] == Pruned(old(profiles[i]), EnabledIds(channels))
    ensures forall i :: 0 <= i < profiles.Length ==>
      var p, q := old(profiles[i]), profiles[i];
      q.id == p.id && q.name == p.name && q.token == p.token && q.defaults == Within(p.defaults, EnabledIds(channels))
    ensures changed <==> exists i :: 0 <= i < profiles.Length && exists r :: r in old(profiles[i]).defaults && r !in EnabledIds(channels)
  {
    var enabledIds := EnabledIds(channels);
    changed := false;
    for i := 0 to profiles.Length
      invariant forall j :: 0 <= j < i ==> profiles[j] == Pruned(old(profiles[j]), enabledIds)
      invariant forall j :: i <= j < profiles.Length ==> profiles[j] == old(profiles[j])
      invariant changed <==> exists j :: 0 <= j < i && exists r :: r in old(profiles[j]).defaults && r !in enabledIds
    {
      var kept := Within(profiles[i].defaults, enabledIds);
      WithinIs(profiles[i].defaults, enabledIds);
      if |kept| != |profiles[i].defaults| {
        profiles[i] := profiles[i].(defaults := kept);
        changed := true;
      }
    }
  }

  function PruneAll(state: Payload): Payload {
    state.(profiles := seq(|state.profiles|, i requires 0 <= i < |state.profiles| => Pruned(state.profiles[i], EnabledIds(state.channels))))
  }

  lemma EnabledRefIsFound(cs: seq<Channel>, required: Registry, ref: string)
    requires ChannelsVerdict(cs, |cs|, required) == Ok && ref in EnabledIds(cs)
    ensures ref in ById(cs) && ById(cs)[ref].enabled
  {
    assert cs[..|cs|] == cs;
    ChannelsOkIff(cs, |cs|, required);
    ByIdWithUniqueIds(cs, ref);
  }

  /** After pruning, the assembled payload never fails a default-channel check. */
  lemma PrunedDefaultsAlwaysPass(state: Payload, required: Registry)
    ensures var v := VerdictOf(Assemble(PruneAll(state), required), required);
      v.Rejected? ==> !v.fault.NoSuchDefault? && !v.fault.DisabledDefault?
  {
    var p := PruneAll(state);
    AssembleKeepsVerdict(p, required);
    var v := VerdictOf(p, required);
    if v.Rejected? {
      if ChannelsVerdict(p.channels, |p.channels|, required).Rejected? {
        var i := FirstBadChannel(p.channels, |p.channels|, required);
      } else {
        var byId := ById(p.channels);
        var i := FirstBadProfile(p.profiles, |p.profiles|, byId);
        WithinIs(state.profiles[i].defaults, EnabledIds(state.channels));
        forall ref | ref in p.profiles[i].defaults ensures ref in byId && byId[ref].enabled {
          EnabledRefIsFound(p.channels, required, ref);
        }
        RefFaultFindsOne(p.profiles[i].name, p.profiles[i].defaults, byId);
      }
    }
  }
}
