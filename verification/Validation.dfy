/**
 * Write-time validation of a complete configuration: the early-returning loops, the
 * declarative rule they decide, and the order in which they report.
 */
module Validation {
  import opened Options
  import opened Text
  import opened ConfigTypes

  datatype Fault =
    | BadSlug(channel: string)
    | DuplicateId(channel: string)
    | UnknownKind(channel: string, kind: string)
    | MissingKey(channel: string, key: string)
    | DuplicateToken(profile: string)
    | NoSuchDefault(profile: string, ref: string)
    | DisabledDefault(profile: string, ref: string)

  datatype Verdict = Ok | Rejected(fault: Fault)

  predicate IsLowerAlnum(c: char) {
    'a' <= c <= 'z' || '0' <= c <= '9'
  }

  /** `^[a-z0-9][a-z0-9-]*$` */
  predicate IsSlug(s: string) {
    s != [] && IsLowerAlnum(s[0]) && forall i :: 0 <= i < |s| ==> IsLowerAlnum(s[i]) || s[i] == '-'
  }

  /** Missing, empty and whitespace-only values all count as blank. */
  predicate IsBlank(config: map<string, string>, key: string) {
    key !in config || Trim(config[key]) == []
  }

  // ------------------------------------------------------ the rule itself

  /** Lower-case letters, digits and hyphens, at least one character and no hyphen first. */
  ghost predicate SlugShaped(s: string) {
    && |s| >= 1 && s[0] != '-'
    && forall i :: 0 <= i < |s| ==> 'a' <= s[i] <= 'z' || '0' <= s[i] <= '9' || s[i] == '-'
  }

  /** A value is there and some character of it is not space. */
  ghost predicate Filled(config: map<string, string>, key: string) {
    key in config && exists i :: 0 <= i < |config[key]| && !IsSpace(config[key][i])
  }

  ghost predicate ChannelRule(c: Channel, required: Registry) {
    && SlugShaped(c.id)
    && c.kind in required
    && (c.enabled ==> forall key :: key in required[c.kind] ==> Filled(c.config, key))
  }

  ghost predicate ChannelsRule(cs: seq<Channel>, required: Registry) {
    && (forall c :: c in cs ==> ChannelRule(c, required))
    && (forall i, j :: 0 <= i < j < |cs| ==> cs[i].id != cs[j].id)
  }

  ghost predicate EnabledIn(cs: seq<Channel>, id: string) {
    exists c :: c in cs && c.id == id && c.enabled
  }

  ghost predicate ProfilesRule(ps: seq<Profile>, cs: seq<Channel>) {
    && (forall p, ref :: p in ps && ref in p.defaults ==> EnabledIn(cs, ref))
    && (forall i, j :: 0 <= i < j < |ps| ==> ps[i].token != ps[j].token)
  }

  ghost predicate Rule(payload: Payload, required: Registry) {
    ChannelsRule(payload.channels, required) && ProfilesRule(payload.profiles, payload.channels)
  }

  // -------------------------------------------- what each entry reports

  function FirstBlank(config: map<string, string>, keys: seq<string>): Option<string> {
    if keys == [] then None
    else if IsBlank(config, keys[0]) then Some(keys[0])
    else FirstBlank(config, keys[1..])
  }

  /** The first check that channel i fails, if any, given the channels before it. */
  ghost function ChannelFault(cs: seq<Channel>, i: nat, required: Registry): Option<Fault>
    requires i < |cs|
  {
    var c := cs[i];
    if !IsSlug(c.id) then Some(BadSlug(c.id))
    else if exists j :: 0 <= j < i && cs[j].id == c.id then Some(DuplicateId(c.id))
    else if c.kind !in required then Some(UnknownKind(c.id, c.kind))
    else if c.enabled && FirstBlank(c.config, required[c.kind]).Some? then
      Some(MissingKey(c.id, FirstBlank(c.config, required[c.kind]).value))
    else None
  }

  function RefFault(name: string, refs: seq<string>, byId: map<string, Channel>): Option<Fault> {
    if refs == [] then None
    else if refs[0] !in byId then Some(NoSuchDefault(name, refs[0]))
    else if !byId[refs[0]].enabled then Some(DisabledDefault(name, refs[0]))
    else RefFault(name, refs[1..], byId)
  }

  ghost function ProfileFault(ps: seq<Profile>, i: nat, byId: map<string, Channel>): Option<Fault>
    requires i < |ps|
  {
    if exists j :: 0 <= j < i && ps[j].token == ps[i].token then Some(DuplicateToken(ps[i].name))
    else RefFault(ps[i].name, ps[i].defaults, byId)
  }

  /** Verdict on the first n channels: the first fault met in array order. */
  ghost function ChannelsVerdict(cs: seq<Channel>, n: nat, required: Registry): Verdict
    requires n <= |cs|
  {
    if n == 0 then Ok
    else if ChannelsVerdict(cs, n - 1, required).Rejected? then ChannelsVerdict(cs, n - 1, required)
    else if ChannelFault(cs, n - 1, required).Some? then Rejected(ChannelFault(cs, n - 1, required).value)
    else Ok
  }

  ghost function ProfilesVerdict(ps: seq<Profile>, n: nat, byId: map<string, Channel>): Verdict
    requires n <= |ps|
  {
    if n == 0 then Ok
    else if ProfilesVerdict(ps, n - 1, byId).Rejected? then ProfilesVerdict(ps, n - 1, byId)
    else if ProfileFault(ps, n - 1, byId).Some? then Rejected(ProfileFault(ps, n - 1, byId).value)
    else Ok
  }

  /** Later entries win, as in a map built from a list of pairs. */
  function ById(cs: seq<Channel>): map<string, Channel> {
    if cs == [] then map[]
    else ById(cs[..|cs| - 1])[cs[|cs| - 1].id := cs[|cs| - 1]]
  }

  /** The verdict on a whole payload: channels before profiles. */
  ghost function VerdictOf(payload: Payload, required: Registry): Verdict {
    var v := ChannelsVerdict(payload.channels, |payload.channels|, required);
    if v.Rejected? then v
    else ProfilesVerdict(payload.profiles, |payload.profiles|, ById(payload.channels))
  }

  // ------------------------------------------------------------ the loops

  method ValidateChannels(cs: seq<Channel>, required: Registry) returns (v: Verdict)
    ensures v == ChannelsVerdict(cs, |cs|, required)
  {
    var seenIds: set<string> := {};
    var i := 0;
    while i < |cs|
      invariant 0 <= i <= |cs|
      invariant seenIds == set j | 0 <= j < i :: cs[j].id
      invariant ChannelsVerdict(cs, i, required) == Ok
    {
      var c := cs[i];
      RejectionStays(cs, i + 1, |cs|, required);
      if !IsSlug(c.id) {
        return Rejected(BadSlug(c.id));
      }
      if c.id in seenIds {
        return Rejected(DuplicateId(c.id));
      }
      seenIds := seenIds + {c.id};
      if c.kind !in required {
        return Rejected(UnknownKind(c.id, c.kind));
      }
      if c.enabled {
        var keys := required[c.kind];
        var k := 0;
        while k < |keys|
          invariant 0 <= k <= |keys|
          invariant FirstBlank(c.config, keys) == FirstBlank(c.config, keys[k..])
        {
          if IsBlank(c.config, keys[k]) {
            return Rejected(MissingKey(c.id, keys[k]));
          }
          k := k + 1;
        }
      }
      i := i + 1;
    }
    return Ok;
  }

  method ValidateProfiles(ps: seq<Profile>, byId: map<string, Channel>) returns (v: Verdict)
    ensures v == ProfilesVerdict(ps, |ps|, byId)
  {
    var seenTokens: set<string> := {};
    var i := 0;
    while i < |ps|
      invariant 0 <= i <= |ps|
      invariant seenTokens == set j | 0 <= j < i :: ps[j].token
      invariant ProfilesVerdict(ps, i, byId) == Ok
    {
      var p := ps[i];
      ProfileRejectionStays(ps, i + 1, |ps|, byId);
      if p.token in seenTokens {
        return Rejected(DuplicateToken(p.name));
      }
      seenTokens := seenTokens + {p.token};
      var k := 0;
      while k < |p.defaults|
        invariant 0 <= k <= |p.defaults|
        invariant RefFault(p.name, p.defaults, byId) == RefFault(p.name, p.defaults[k..], byId)
      {
        if p.defaults[k] !in byId {
          return Rejected(NoSuchDefault(p.name, p.defaults[k]));
        }
        if !byId[p.defaults[k]].enabled {
          return Rejected(DisabledDefault(p.name, p.defaults[k]));
        }
        k := k + 1;
      }
      i := i + 1;
    }
    return Ok;
  }

  method ValidateConfigPayload(payload: Payload, required: Registry) returns (v: Verdict)
    ensures v == VerdictOf(payload, required)
    ensures v == Ok <==> Rule(payload, required)
    ensures v.Rejected? ==> SaysFirstFailure(payload, required, v.fault)
  {
    VerdictIffRule(payload, required);
    if VerdictOf(payload, required).Rejected? {
      RejectionNamesFirstFailure(payload, required);
    }
    v := ValidateChannels(payload.channels, required);
    if v.Rejected? {
      return;
    }
    v := ValidateProfiles(payload.profiles, ById(payload.channels));
  }

  lemma {:induction false} RejectionStays(cs: seq<Channel>, m: nat, n: nat, required: Registry)
    requires m <= n <= |cs|
    ensures ChannelsVerdict(cs, m, required).Rejected? ==> ChannelsVerdict(cs, n, required) == ChannelsVerdict(cs, m, required)
    decreases n
  {
    if m < n {
      RejectionStays(cs, m, n - 1, required);
    }
  }

  lemma {:induction false} ProfileRejectionStays(ps: seq<Profile>, m: nat, n: nat, byId: map<string, Channel>)
    requires m <= n <= |ps|
    ensures ProfilesVerdict(ps, m, byId).Rejected? ==> ProfilesVerdict(ps, n, byId) == ProfilesVerdict(ps, m, byId)
    decreases n
  {
    if m < n {
      ProfileRejectionStays(ps, m, n - 1, byId);
    }
  }

  // ---------------------------------------- loops decide exactly the rule

  lemma SlugIsSlugShaped(s: string)
    ensures IsSlug(s) <==> SlugShaped(s)
  {
  }

  lemma BlankIffNotFilled(config: map<string, string>, key: string)
    ensures IsBlank(config, key) <==> !Filled(config, key)
  {
    if key in config {
      var s := config[key];
      var front, back := TrimSplits(s);
      if Trim(s) == [] {
        forall i | 0 <= i < |s| ensures IsSpace(s[i]) {
          assert s[i] == (front + back)[i];
        }
      } else {
        assert s[|front|] == Trim(s)[0];
      }
    }
  }

  /** The key reported as blank is the first one, in the order the type lists them. */
  ghost predicate IsFirstUnfilled(config: map<string, string>, keys: seq<string>, n: nat, key: string) {
    n < |keys| && keys[n] == key && !Filled(config, key) && forall m :: 0 <= m < n ==> Filled(config, keys[m])
  }

  lemma {:induction false} FirstBlankFindsOne(config: map<string, string>, keys: seq<string>)
    ensures FirstBlank(config, keys).None? <==> forall key :: key in keys ==> Filled(config, key)
    ensures FirstBlank(config, keys).Some? ==> exists n :: IsFirstUnfilled(config, keys, n, FirstBlank(config, keys).value)
    decreases |keys|
  {
    if keys != [] {
      var rest := keys[1..];
      FirstBlankFindsOne(config, rest);
      BlankIffNotFilled(config, keys[0]);
      assert keys == [keys[0]] + rest;
      if IsBlank(config, keys[0]) {
        assert IsFirstUnfilled(config, keys, 0, keys[0]);
      } else if FirstBlank(config, rest).Some? {
        var n: nat :| IsFirstUnfilled(config, rest, n, FirstBlank(config, rest).value);
        forall m | 0 <= m < n + 1 ensures Filled(config, keys[m]) {
          if m > 0 { assert keys[m] == rest[m - 1]; }
        }
        assert IsFirstUnfilled(config, keys, n + 1, FirstBlank(config, keys).value);
      }
    }
  }

  lemma {:induction false} RefFaultFindsOne(name: string, refs: seq<string>, byId: map<string, Channel>)
    ensures RefFault(name, refs, byId).None? <==> forall r :: r in refs ==> r in byId && byId[r].enabled
    decreases |refs|
  {
    if refs != [] {
      RefFaultFindsOne(name, refs[1..], byId);
    }
  }

  lemma {:induction false} ByIdLooksUp(cs: seq<Channel>)
    ensures forall id :: id in ById(cs) <==> exists c :: c in cs && c.id == id
    ensures forall id :: id in ById(cs) ==> ById(cs)[id] in cs && ById(cs)[id].id == id
    decreases |cs|
  {
    if cs != [] {
      var n := |cs| - 1;
      ByIdLooksUp(cs[..n]);
      assert cs == cs[..n] + [cs[n]];
      assert forall c :: c in cs <==> c in cs[..n] || c == cs[n];
    }
  }

  lemma ByIdWithUniqueIds(cs: seq<Channel>, id: string)
    requires forall i, j :: 0 <= i < j < |cs| ==> cs[i].id != cs[j].id
    ensures id in ById(cs) && ById(cs)[id].enabled <==> EnabledIn(cs, id)
  {
    ByIdLooksUp(cs);
    if c :| c in cs && c.id == id && c.enabled {
      var i :| 0 <= i < |cs| && cs[i] == c;
      var j :| 0 <= j < |cs| && cs[j] == ById(cs)[id];
      assert i == j;
    }
  }

  /** Channel i keeps the rule and repeats no id before it. */
  ghost predicate ChannelFits(cs: seq<Channel>, i: nat, required: Registry)
    requires i < |cs|
  {
    ChannelRule(cs[i], required) && forall j :: 0 <= j < i ==> cs[j].id != cs[i].id
  }

  lemma NoFaultMeansFits(cs: seq<Channel>, i: nat, required: Registry)
    requires i < |cs|
    ensures ChannelFault(cs, i, required).None? <==> ChannelFits(cs, i, required)
  {
    var c := cs[i];
    SlugIsSlugShaped(c.id);
    if c.kind in required {
      FirstBlankFindsOne(c.config, required[c.kind]);
    }
  }

  lemma OneMoreChannel(cs: seq<Channel>, n: nat, required: Registry)
    requires n < |cs|
    ensures ChannelsRule(cs[..n + 1], required) <==> ChannelsRule(cs[..n], required) && ChannelFits(cs, n, required)
  {
    assert cs[..n + 1] == cs[..n] + [cs[n]];
  }

  lemma {:induction false} ChannelsOkIff(cs: seq<Channel>, n: nat, required: Registry)
    requires n <= |cs|
    ensures ChannelsVerdict(cs, n, required) == Ok <==> ChannelsRule(cs[..n], required)
    decreases n
  {
    if n > 0 {
      ChannelsOkIff(cs, n - 1, required);
      NoFaultMeansFits(cs, n - 1, required);
      OneMoreChannel(cs, n - 1, required);
    }
  }

  /** Profile i refers to enabled channels only and repeats no token before it. */
  ghost predicate ProfileFits(ps: seq<Profile>, i: nat, cs: seq<Channel>)
    requires i < |ps|
  {
    && (forall ref :: ref in ps[i].defaults ==> EnabledIn(cs, ref))
    && (forall j :: 0 <= j < i ==> ps[j].token != ps[i].token)
  }

  lemma NoFaultMeansProfileFits(ps: seq<Profile>, i: nat, cs: seq<Channel>)
    requires i < |ps|
    requires forall i, j :: 0 <= i < j < |cs| ==> cs[i].id != cs[j].id
    ensures ProfileFault(ps, i, ById(cs)).None? <==> ProfileFits(ps, i, cs)
  {
    RefFaultFindsOne(ps[i].name, ps[i].defaults, ById(cs));
    forall ref { ByIdWithUniqueIds(cs, ref); }
  }

  lemma OneMoreProfile(ps: seq<Profile>, n: nat, cs: seq<Channel>)
    requires n < |ps|
    ensures ProfilesRule(ps[..n + 1], cs) <==> ProfilesRule(ps[..n], cs) && ProfileFits(ps, n, cs)
  {
    assert ps[..n + 1] == ps[..n] + [ps[n]];
  }

  lemma {:induction false} ProfilesOkIff(ps: seq<Profile>, n: nat, cs: seq<Channel>)
    requires n <= |ps|
    requires forall i, j :: 0 <= i < j < |cs| ==> cs[i].id != cs[j].id
    ensures ProfilesVerdict(ps, n, ById(cs)) == Ok <==> ProfilesRule(ps[..n], cs)
    decreases n
  {
    if n > 0 {
      ProfilesOkIff(ps, n - 1, cs);
      NoFaultMeansProfileFits(ps, n - 1, cs);
      OneMoreProfile(ps, n - 1, cs);
    }
  }

  /** The seen-set loops accept exactly the payloads the declarative rule allows. */
  lemma VerdictIffRule(payload: Payload, required: Registry)
    ensures VerdictOf(payload, required) == Ok <==> Rule(payload, required)
  {
    var cs, ps := payload.channels, payload.profiles;
    assert cs[..|cs|] == cs && ps[..|ps|] == ps;
    ChannelsOkIff(cs, |cs|, required);
    if ChannelsRule(cs, required) {
      ProfilesOkIff(ps, |ps|, cs);
    }
  }

  // ------------------------------------------------------- first failure

  lemma {:induction false} FirstBadChannel(cs: seq<Channel>, n: nat, required: Registry) returns (i: nat)
    requires n <= |cs| && ChannelsVerdict(cs, n, required).Rejected?
    ensures i < n && ChannelFault(cs, i, required) == Some(ChannelsVerdict(cs, n, required).fault)
    ensures forall j :: 0 <= j < i ==> ChannelFault(cs, j, required) == None
    decreases n
  {
    if ChannelsVerdict(cs, n - 1, required).Rejected? {
      i := FirstBadChannel(cs, n - 1, required);
    } else {
      i := n - 1;
      NoBadChannel(cs, n - 1, required);
    }
  }

  lemma {:induction false} NoBadChannel(cs: seq<Channel>, n: nat, required: Registry)
    requires n <= |cs| && ChannelsVerdict(cs, n, required) == Ok
    ensures forall j :: 0 <= j < n ==> ChannelFault(cs, j, required) == None
    decreases n
  {
    if n > 0 {
      NoBadChannel(cs, n - 1, required);
    }
  }

  lemma {:induction false} FirstBadProfile(ps: seq<Profile>, n: nat, byId: map<string, Channel>) returns (i: nat)
    requires n <= |ps| && ProfilesVerdict(ps, n, byId).Rejected?
    ensures i < n && ProfileFault(ps, i, byId) == Some(ProfilesVerdict(ps, n, byId).fault)
    ensures forall j :: 0 <= j < i ==> ProfileFault(ps, j, byId) == None
    decreases n
  {
    if ProfilesVerdict(ps, n - 1, byId).Rejected? {
      i := FirstBadProfile(ps, n - 1, byId);
    } else {
      i := n - 1;
      NoBadProfile(ps, n - 1, byId);
    }
  }

  lemma {:induction false} NoBadProfile(ps: seq<Profile>, n: nat, byId: map<string, Channel>)
    requires n <= |ps| && ProfilesVerdict(ps, n, byId) == Ok
    ensures forall j :: 0 <= j < n ==> ProfileFault(ps, j, byId) == None
    decreases n
  {
    if n > 0 {
      NoBadProfile(ps, n - 1, byId);
    }
  }

  /** What a fault says of channel i, in the order of the checks. */
  ghost predicate ChannelSays(cs: seq<Channel>, i: nat, fault: Fault, required: Registry)
    requires i < |cs|
  {
    var c := cs[i];
    var repeated := exists j :: 0 <= j < i && cs[j].id == c.id;
    match fault
    case BadSlug(id) => id == c.id && !SlugShaped(id)
    case DuplicateId(id) => id == c.id && SlugShaped(id) && repeated
    case UnknownKind(id, kind) => id == c.id && SlugShaped(id) && !repeated && kind == c.kind && kind !in required
    case MissingKey(id, key) =>
      && id == c.id && SlugShaped(id) && !repeated && c.kind in required && c.enabled
      && exists n :: IsFirstUnfilled(c.config, required[c.kind], n, key)
    case _ => false
  }

  lemma ChannelFaultSays(cs: seq<Channel>, i: nat, required: Registry)
    requires i < |cs| && ChannelFault(cs, i, required).Some?
    ensures ChannelSays(cs, i, ChannelFault(cs, i, required).value, required)
  {
    SlugIsSlugShaped(cs[i].id);
    if cs[i].kind in required {
      FirstBlankFindsOne(cs[i].config, required[cs[i].kind]);
    }
  }

  /** Default n is the first one that is not an enabled channel. */
  ghost predicate IsFirstBadRef(cs: seq<Channel>, refs: seq<string>, n: nat, ref: string) {
    n < |refs| && refs[n] == ref && !EnabledIn(cs, ref) && forall m :: 0 <= m < n ==> EnabledIn(cs, refs[m])
  }

  /** What a fault says of profile i: its token first, then its defaults in order. */
  ghost predicate ProfileSays(ps: seq<Profile>, i: nat, fault: Fault, cs: seq<Channel>)
    requires i < |ps|
  {
    var p := ps[i];
    var repeated := exists j :: 0 <= j < i && ps[j].token == p.token;
    match fault
    case DuplicateToken(name) => name == p.name && repeated
    case NoSuchDefault(name, ref) =>
      && name == p.name && !repeated && (forall c :: c in cs ==> c.id != ref)
      && exists n :: IsFirstBadRef(cs, p.defaults, n, ref)
    case DisabledDefault(name, ref) =>
      && name == p.name && !repeated && (exists c :: c in cs && c.id == ref && !c.enabled)
      && exists n :: IsFirstBadRef(cs, p.defaults, n, ref)
    case _ => false
  }

  lemma {:induction false} RefFaultSays(name: string, refs: seq<string>, cs: seq<Channel>) returns (n: nat)
    requires forall i, j :: 0 <= i < j < |cs| ==> cs[i].id != cs[j].id
    requires RefFault(name, refs, ById(cs)).Some?
    ensures n < |refs| && IsFirstBadRef(cs, refs, n, refs[n])
    ensures RefFault(name, refs, ById(cs)).value
         == if refs[n] !in ById(cs) then NoSuchDefault(name, refs[n]) else DisabledDefault(name, refs[n])
    decreases |refs|
  {
    var rest := refs[1..];
    ByIdWithUniqueIds(cs, refs[0]);
    if refs[0] !in ById(cs) || !ById(cs)[refs[0]].enabled {
      n := 0;
    } else {
      var k := RefFaultSays(name, rest, cs);
      n := k + 1;
      forall m | 0 <= m < n ensures EnabledIn(cs, refs[m]) {
        if m > 0 { assert refs[m] == rest[m - 1]; }
      }
    }
  }

  lemma ProfileFaultSays(ps: seq<Profile>, i: nat, cs: seq<Channel>)
    requires i < |ps| && ProfileFault(ps, i, ById(cs)).Some?
    requires forall i, j :: 0 <= i < j < |cs| ==> cs[i].id != cs[j].id
    ensures ProfileSays(ps, i, ProfileFault(ps, i, ById(cs)).value, cs)
  {
    if !exists j :: 0 <= j < i && ps[j].token == ps[i].token {
      ByIdLooksUp(cs);
      var n := RefFaultSays(ps[i].name, ps[i].defaults, cs);
      var ref := ps[i].defaults[n];
      ByIdWithUniqueIds(cs, ref);
    }
  }

  /**
   * The fault is that of the first failing entry, and says what is wrong with it: some channel
   * with every channel before it in order, or, when all channels are, some profile with every
   * profile before it in order.
   */
  ghost predicate SaysFirstFailure(payload: Payload, required: Registry, fault: Fault) {
    var cs, ps := payload.channels, payload.profiles;
    || (exists i :: 0 <= i < |cs| && ChannelSays(cs, i, fault, required) && forall j :: 0 <= j < i ==> ChannelFits(cs, j, required))
    || ((forall j :: 0 <= j < |cs| ==> ChannelFits(cs, j, required))
        && exists i :: 0 <= i < |ps| && ProfileSays(ps, i, fault, cs) && forall j :: 0 <= j < i ==> ProfileFits(ps, j, cs))
  }

  lemma RejectionNamesFirstFailure(payload: Payload, required: Registry)
    requires VerdictOf(payload, required).Rejected?
    ensures SaysFirstFailure(payload, required, VerdictOf(payload, required).fault)
  {
    var cs, ps := payload.channels, payload.profiles;
    forall j | 0 <= j < |cs| ensures ChannelFault(cs, j, required).None? <==> ChannelFits(cs, j, required) {
      NoFaultMeansFits(cs, j, required);
    }
    if ChannelsVerdict(cs, |cs|, required).Rejected? {
      var i := FirstBadChannel(cs, |cs|, required);
      ChannelFaultSays(cs, i, required);
    } else {
      NoBadChannel(cs, |cs|, required);
      assert cs[..|cs|] == cs;
      ChannelsOkIff(cs, |cs|, required);
      var i := FirstBadProfile(ps, |ps|, ById(cs));
      ProfileFaultSays(ps, i, cs);
      forall j | 0 <= j < i ensures ProfileFits(ps, j, cs) {
        NoFaultMeansProfileFits(ps, j, cs);
      }
    }
  }

  // --------------------------------------------------------- permutation

  /** What the rule sees of a profile: its token and the set of its defaults. */
  ghost function Summary(p: Profile): (string, set<string>) {
    (p.token, set ref | ref in p.defaults)
  }

  ghost function Summaries(ps: seq<Profile>): seq<(string, set<string>)> {
    seq(|ps|, i requires 0 <= i < |ps| => Summary(ps[i]))
  }

  /** The same configuration with channels, profiles and each profile's defaults reordered. */
  ghost predicate Permuted(a: Payload, b: Payload) {
    && multiset(a.channels) == multiset(b.channels)
    && multiset(Summaries(a.profiles)) == multiset(Summaries(b.profiles))
  }

  /** Two positions holding the same value make its multiplicity at least two. */
  lemma TwiceInMultiset<T>(s: seq<T>, i: nat, j: nat)
    requires i < j < |s| && s[i] == s[j]
    ensures multiset(s)[s[i]] >= 2
  {
    assert s == s[..j] + [s[j]] + s[j + 1..];
    assert s[i] in multiset(s[..j]);
  }

  lemma {:induction false} TwiceInSeq<T>(s: seq<T>, x: T) returns (i: nat, j: nat)
    requires multiset(s)[x] >= 2
    ensures i < j < |s| && s[i] == s[j] == x
    decreases |s|
  {
    var n := |s| - 1;
    assert s == s[..n] + [s[n]];
    if s[n] == x {
      j := n;
      assert x in multiset(s[..n]);
      i :| 0 <= i < n && s[i] == x;
    } else {
      i, j := TwiceInSeq(s[..n], x);
    }
  }

  /** A key that is pairwise distinct along one order is so along every order. */
  lemma DistinctKeysPermute<T, K>(s: seq<T>, t: seq<T>, key: T -> K)
    requires multiset(s) == multiset(t)
    requires forall i, j :: 0 <= i < j < |s| ==> key(s[i]) != key(s[j])
    ensures forall i, j :: 0 <= i < j < |t| ==> key(t[i]) != key(t[j])
  {
    forall i, j | 0 <= i < j < |t| ensures key(t[i]) != key(t[j]) {
      assert t[i] in multiset(t) && t[j] in multiset(t);
      if t[i] == t[j] {
        TwiceInMultiset(t, i, j);
        var i', j' := TwiceInSeq(s, t[i]);
      } else {
        assert t[i] in s && t[j] in s;
        var i' :| 0 <= i' < |s| && s[i'] == t[i];
        var j' :| 0 <= j' < |s| && s[j'] == t[j];
      }
    }
  }

  lemma RulePermutes(a: Payload, b: Payload, required: Registry)
    requires Permuted(a, b) && Rule(a, required)
    ensures Rule(b, required)
  {
    forall c ensures c in a.channels <==> c in b.channels {
      assert c in multiset(a.channels) <==> c in multiset(b.channels);
    }
    DistinctKeysPermute(a.channels, b.channels, (c: Channel) => c.id);
    var sa, sb := Summaries(a.profiles), Summaries(b.profiles);
    DistinctKeysPermute(sa, sb, (x: (string, set<string>)) => x.0);
    forall i, j | 0 <= i < j < |b.profiles| ensures b.profiles[i].token != b.profiles[j].token {
      assert sb[i].0 != sb[j].0;
    }
    forall p, ref | p in b.profiles && ref in p.defaults ensures EnabledIn(b.channels, ref) {
      var i :| 0 <= i < |b.profiles| && b.profiles[i] == p;
      assert sb[i] in multiset(sb);
      assert sb[i] in sa;
      var k :| 0 <= k < |sa| && sa[k] == sb[i];
      assert ref in sa[k].1;
      assert ref in a.profiles[k].defaults;
      assert EnabledIn(a.channels, ref);
    }
  }

  /** Reordering channels, profiles or defaults never changes whether a payload is accepted. */
  lemma VerdictPermutes(a: Payload, b: Payload, required: Registry)
    requires Permuted(a, b)
    ensures VerdictOf(a, required) == Ok <==> VerdictOf(b, required) == Ok
  {
    VerdictIffRule(a, required);
    VerdictIffRule(b, required);
    if Rule(a, required) { RulePermutes(a, b, required); }
    if Rule(b, required) { RulePermutes(b, a, required); }
  }
}
