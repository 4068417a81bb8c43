/**
 * First boot: the store is filled from the legacy environment configuration, once, by
 * separate repository calls.
 */
module Seeding {
  import opened ConfigTypes
  import opened Validation
  import opened Store
  import opened Repositories
  import opened PutConfig
  import opened ConfigService
  import opened ConfigHandlers
  import opened Slug
  import opened Tokens

  /** What the environment gives: the enabled types, their captured settings, and TOKENS. */
  datatype Legacy = Legacy(
    enabled: seq<string>, settings: map<string, map<string, string>>, profiles: seq<TokenProfile>)

  /** Case mappings of the host, and the registry. */
  datatype Host = Host(lower: string -> string, upper: string -> string, required: Registry)

  function TitleCase(kind: string, h: Host): string {
    if kind == "" then "" else h.upper(kind[..1]) + kind[1..]
  }

  function SettingsOf(kind: string, legacy: Legacy): map<string, string> {
    if kind in legacy.settings then legacy.settings[kind] else map[]
  }

  function RequiredOf(kind: string, h: Host): seq<string> {
    if kind in h.required then h.required[kind] else []
  }

  predicate HasAllRequired(config: map<string, string>, keys: seq<string>) {
    forall key :: key in keys ==> !IsBlank(config, key)
  }

  /** One instance a type, named by it; disabled rather than refused when a setting is missing. */
  function SeedChannel(kind: string, legacy: Legacy, h: Host): Channel {
    var config := SettingsOf(kind, legacy);
    Channel(kind, TitleCase(kind, h), kind, HasAllRequired(config, RequiredOf(kind, h)), config)
  }

  /** The id is a slug of the name; only channels just created stay among the defaults. */
  function SeedProfile(p: TokenProfile, created: set<string>, h: Host): Profile {
    Profile(SlugifyName(p.name, h.lower), p.name, p.token, Within(p.defaults, created))
  }

  function Created(legacy: Legacy): set<string> {
    set kind | kind in legacy.enabled
  }

  function SeedChannels(legacy: Legacy, h: Host): seq<Channel> {
    seq(|legacy.enabled|, i requires 0 <= i < |legacy.enabled| => SeedChannel(legacy.enabled[i], legacy, h))
  }

  function SeedProfiles(legacy: Legacy, h: Host): seq<Profile> {
    seq(|legacy.profiles|, i requires 0 <= i < |legacy.profiles| => SeedProfile(legacy.profiles[i], Created(legacy), h))
  }

  /** Nothing at all once any channel exists. */
  ghost function Seed(t: Tables, legacy: Legacy, h: Host, clock: nat -> nat): Result {
    if t.channels.Keys != {} then Result(t, false)
    else Play(t, ChannelCalls(SeedChannels(legacy, h), clock) + ProfileCalls(SeedProfiles(legacy, h), clock, |legacy.enabled|))
  }

  method SeedChannelRows(repo: ChannelRepository, legacy: Legacy, h: Host, clock: nat -> nat) returns (created: set<string>)
    modifies repo.db
    ensures created == Created(legacy)
    ensures Play(old(repo.db.View()), ChannelCalls(SeedChannels(legacy, h), clock)) == Result(repo.db.View(), false)
  {
    ghost var t, calls := repo.db.View(), ChannelCalls(SeedChannels(legacy, h), clock);
    created := {};
    for i := 0 to |legacy.enabled|
      invariant created == set kind | kind in legacy.enabled[..i]
      invariant Play(t, calls[..i]) == Result(repo.db.View(), false)
    {
      PlayNext(t, calls, i);
      repo.Upsert(SeedChannel(legacy.enabled[i], legacy, h), clock(i));
      created := created + {legacy.enabled[i]};
      assert legacy.enabled[..i + 1] == legacy.enabled[..i] + [legacy.enabled[i]];
    }
    assert calls[..|legacy.enabled|] == calls && legacy.enabled[..|legacy.enabled|] == legacy.enabled;
  }

  /** `seeded` is false when the store already held a channel; `threw` escapes to the boot. */
  method SeedFromEnvIfEmpty(channelRepo: ChannelRepository, profileRepo: ProfileRepository, legacy: Legacy, h: Host, clock: nat -> nat)
    returns (seeded: bool, threw: bool)
    requires channelRepo.db == profileRepo.db
    modifies channelRepo.db
    ensures Result(channelRepo.db.View(), threw) == Seed(old(channelRepo.db.View()), legacy, h, clock)
    ensures !seeded && !threw <==> old(channelRepo.db.channels.Keys) != {}
  {
    var existing := channelRepo.List();
    ListedWhenAny(channelRepo.db.View());
    if |existing| > 0 {
      return false, false;
    }
    ghost var t := channelRepo.db.View();
    PlayConcat(t, ChannelCalls(SeedChannels(legacy, h), clock), ProfileCalls(SeedProfiles(legacy, h), clock, |legacy.enabled|));
    var created := SeedChannelRows(channelRepo, legacy, h, clock);
    var ps := seq(|legacy.profiles|, i requires 0 <= i < |legacy.profiles| => SeedProfile(legacy.profiles[i], created, h));
    assert ps == SeedProfiles(legacy, h);
    threw := UpsertProfiles(profileRepo, ps, clock, |legacy.enabled|);
    seeded := !threw;
  }

  lemma ListedWhenAny(t: Tables)
    ensures |ListChannels(t)| > 0 <==> t.channels.Keys != {}
  {
    ListChannelsIsTable(t);
    if id :| id in t.channels {
      assert ChannelAt(t, id) in ListChannels(t);
    }
    if |ListChannels(t)| > 0 {
      assert ListChannels(t)[0] in ListChannels(t);
    }
  }

  // --------------------------------------------------- when it completes

  lemma SeededRefsExist(legacy: Legacy, h: Host, u: Tables)
    requires ChannelsOf(u.channels) == ById(SeedChannels(legacy, h))
    ensures RefsIn(u, SeedProfiles(legacy, h))
  {
    ByIdLooksUp(SeedChannels(legacy, h));
    forall p, ref | p in SeedProfiles(legacy, h) && ref in p.defaults ensures ref in u.channels {
      var i :| 0 <= i < |legacy.profiles| && SeedProfiles(legacy, h)[i] == p;
      WithinIs(legacy.profiles[i].defaults, Created(legacy));
      var k :| 0 <= k < |legacy.enabled| && legacy.enabled[k] == ref;
      assert SeedChannels(legacy, h)[k] in SeedChannels(legacy, h) && SeedChannels(legacy, h)[k].id == ref;
      assert ref in ChannelsOf(u.channels);
    }
  }

  /** What both loops leave, and whether the second ended early. */
  ghost predicate SeedOutcome(t: Tables, legacy: Legacy, h: Host, r: Result) {
    var ps := SeedProfiles(legacy, h);
    && (!r.threw <==> FreeBefore(t, ps, |ps|))
    && ChannelsOf(r.tables.channels) == ById(SeedChannels(legacy, h))
    && (!r.threw ==> ProfilesOf(r.tables.profiles, r.tables.links) == ProfilesOf(t.profiles, t.links) + PlainById(ps))
  }

  lemma ChannelsSeeded(t: Tables, legacy: Legacy, h: Host, clock: nat -> nat) returns (u: Tables)
    requires t.channels.Keys == {}
    ensures Play(t, ChannelCalls(SeedChannels(legacy, h), clock)) == Result(u, false)
    ensures ChannelsUpserted(t, u, SeedChannels(legacy, h)) && ChannelsOf(u.channels) == ById(SeedChannels(legacy, h))
  {
    var cs, calls := SeedChannels(legacy, h), ChannelCalls(SeedChannels(legacy, h), clock);
    AfterChannelUpserts(t, cs, clock, |cs|);
    assert calls[..|cs|] == calls && cs[..|cs|] == cs;
    u := Play(t, calls).tables;
    assert ChannelsOf(t.channels) == map[];
  }

  /**
   * Seeding completes exactly when every token is free at its turn; then the store holds the
   * seeded channels and, over whatever profiles were there, the seeded ones. When it does
   * not complete the channels are all written just the same.
   */
  lemma SeedTheorem(t: Tables, legacy: Legacy, h: Host, clock: nat -> nat)
    requires t.channels.Keys == {}
    ensures SeedOutcome(t, legacy, h, Seed(t, legacy, h, clock))
  {
    var ps := SeedProfiles(legacy, h);
    var a, b := ChannelCalls(SeedChannels(legacy, h), clock), ProfileCalls(ps, clock, |legacy.enabled|);
    var u := ChannelsSeeded(t, legacy, h, clock);
    PlayConcat(t, a, b);
    SeededRefsExist(legacy, h, u);
    AfterProfileUpserts(u, ps, clock, |legacy.enabled|, |ps|);
    ProfileCallsKeepChannels(u, ps, clock, |legacy.enabled|, |ps|);
    assert b[..|ps|] == b && ps[..|ps|] == ps;
    SameFree(t, u, ps);
  }

  lemma SameFree(t: Tables, u: Tables, ps: seq<Profile>)
    requires u.profiles == t.profiles
    ensures FreeBefore(u, ps, |ps|) <==> FreeBefore(t, ps, |ps|)
  {
    forall j | 0 <= j < |ps| ensures Free(u, ps, j) <==> Free(t, ps, j) {}
  }

  /** Entry i gave its token to a slug that still has it when entry j asks for it. */
  ghost predicate TokenTakenBy(legacy: Legacy, h: Host, i: nat, j: nat)
    requires i < j < |legacy.profiles|
  {
    var ps := legacy.profiles;
    && ps[i].token == ps[j].token
    && SlugifyName(ps[i].name, h.lower) != SlugifyName(ps[j].name, h.lower)
    && forall k :: i < k < j ==> SlugifyName(ps[k].name, h.lower) != SlugifyName(ps[i].name, h.lower)
  }

  /**
   * On an empty database seeding completes exactly when no entry of TOKENS asks for a token
   * that an earlier entry gave to another slug and no entry in between took back.
   */
  lemma FreshSeedCompletesIff(t: Tables, legacy: Legacy, h: Host, clock: nat -> nat)
    requires t.channels.Keys == {} && t.profiles.Keys == {}
    ensures !Seed(t, legacy, h, clock).threw <==> forall i, j :: 0 <= i < j < |legacy.profiles| ==> !TokenTakenBy(legacy, h, i, j)
  {
    var ps := SeedProfiles(legacy, h);
    SeedTheorem(t, legacy, h, clock);
    forall i, j | 0 <= i < j < |ps|
      ensures TokenTakenBy(legacy, h, i, j) <==> ps[i].id != ps[j].id && ps[i].token == ps[j].token && !Rewritten(ps, i, j)
    {
      var slug := SlugifyName(legacy.profiles[i].name, h.lower);
      assert forall k :: i < k < j ==> (ps[k].id == ps[i].id <==> SlugifyName(legacy.profiles[k].name, h.lower) == slug);
    }
    if forall i, j :: 0 <= i < j < |ps| ==> !TokenTakenBy(legacy, h, i, j) {
      forall j | 0 <= j < |ps| ensures Free(t, ps, j) {
        forall i | 0 <= i < j && ps[i].id != ps[j].id && ps[i].token == ps[j].token ensures Rewritten(ps, i, j) {
          assert !TokenTakenBy(legacy, h, i, j);
        }
      }
    } else {
      var i, j :| 0 <= i < j < |ps| && TokenTakenBy(legacy, h, i, j);
      assert !Free(t, ps, j);
    }
  }

  /**
   * Once a boot has seeded any channel no later boot seeds anything, whatever its environment
   * says: after a seeding cut short the profiles it had not reached are never seeded.
   */
  lemma SeededOnce(t: Tables, legacy: Legacy, h: Host, clock: nat -> nat, later: Legacy, h': Host, clock': nat -> nat)
    requires legacy.enabled != []
    ensures var u := Seed(t, legacy, h, clock).tables; Seed(u, later, h', clock') == Result(u, false)
  {
    var u := Seed(t, legacy, h, clock).tables;
    if t.channels.Keys == {} {
      SeedTheorem(t, legacy, h, clock);
      var cs := SeedChannels(legacy, h);
      ByIdLooksUp(cs);
      assert cs[0] in cs && cs[0].id in ById(cs);
      assert cs[0].id in ChannelsOf(u.channels);
    }
  }

  // ------------------------------------------------- what it leaves

  /** The environment gave every setting that the type requires, each with more than space. */
  ghost predicate SettingsComplete(kind: string, legacy: Legacy, h: Host) {
    kind in h.required ==> forall key :: key in h.required[kind] ==>
      kind in legacy.settings && Filled(legacy.settings[kind], key)
  }

  lemma SeedChannelIs(kind: string, legacy: Legacy, h: Host)
    ensures var c := SeedChannel(kind, legacy, h);
      && c.id == kind && c.kind == kind
      && c.caption == (if kind == "" then "" else h.upper([kind[0]]) + kind[1..])
      && c.config == (if kind in legacy.settings then legacy.settings[kind] else map[])
      && (c.enabled <==> SettingsComplete(kind, legacy, h))
  {
    var c := SeedChannel(kind, legacy, h);
    if kind != "" {
      assert kind[..1] == [kind[0]];
    }
    forall key ensures IsBlank(c.config, key) <==> !Filled(c.config, key) {
      BlankIffNotFilled(c.config, key);
    }
  }

  lemma SeededChannelIs(legacy: Legacy, h: Host, id: string)
    ensures id in ById(SeedChannels(legacy, h)) <==> id in legacy.enabled
    ensures id in legacy.enabled ==> ById(SeedChannels(legacy, h))[id] == SeedChannel(id, legacy, h)
  {
    var cs := SeedChannels(legacy, h);
    ByIdLooksUp(cs);
    if id in legacy.enabled {
      var i :| 0 <= i < |legacy.enabled| && legacy.enabled[i] == id;
      assert cs[i] in cs && cs[i].id == id;
      var c := ById(cs)[id];
      var k :| 0 <= k < |cs| && cs[k] == c;
    }
  }

  /**
   * The channel rows of a seeded database, completed or cut short: one for each enabled type,
   * of that type, with the settings captured for it, and enabled exactly when those are complete.
   */
  lemma SeededChannelRow(t: Tables, legacy: Legacy, h: Host, clock: nat -> nat, kind: string)
    requires t.channels.Keys == {}
    ensures var rows := Seed(t, legacy, h, clock).tables.channels;
      && (kind in rows <==> kind in legacy.enabled)
      && (kind in rows ==>
        && rows[kind].kind == kind
        && rows[kind].caption == (if kind == "" then "" else h.upper([kind[0]]) + kind[1..])
        && rows[kind].config == (if kind in legacy.settings then legacy.settings[kind] else map[])
        && (rows[kind].enabled <==> SettingsComplete(kind, legacy, h)))
  {
    SeedTheorem(t, legacy, h, clock);
    SeededChannelIs(legacy, h, kind);
    SeedChannelIs(kind, legacy, h);
    var rows := Seed(t, legacy, h, clock).tables.channels;
    assert kind in rows <==> kind in ChannelsOf(rows);
  }

  /** Entry i is the last one in TOKENS whose name has that slug. */
  ghost predicate IsLastOfSlug(legacy: Legacy, h: Host, i: nat, id: string) {
    && i < |legacy.profiles| && SlugifyName(legacy.profiles[i].name, h.lower) == id
    && forall k :: i < k < |legacy.profiles| ==> SlugifyName(legacy.profiles[k].name, h.lower) != id
  }

  lemma SeededProfileIs(legacy: Legacy, h: Host, id: string) returns (i: nat)
    requires id in PlainById(SeedProfiles(legacy, h))
    ensures IsLastOfSlug(legacy, h, i, id)
    ensures var p := PlainById(SeedProfiles(legacy, h))[id];
      && p.name == legacy.profiles[i].name && p.token == legacy.profiles[i].token
      && forall ref :: ref in p.defaults <==> ref in legacy.profiles[i].defaults && ref in legacy.enabled
  {
    var ps := SeedProfiles(legacy, h);
    i := LastEntry(ps, id);
    WithinIs(legacy.profiles[i].defaults, Created(legacy));
    forall k | i < k < |legacy.profiles| ensures SlugifyName(legacy.profiles[k].name, h.lower) != id {
      assert ps[k].id != id;
    }
  }

  lemma SeededProfilesAre(t: Tables, legacy: Legacy, h: Host, clock: nat -> nat) returns (u: Tables)
    requires t.channels.Keys == {} && t.profiles.Keys == {} && !Seed(t, legacy, h, clock).threw
    ensures u == Seed(t, legacy, h, clock).tables && ProfilesOf(u.profiles, u.links) == PlainById(SeedProfiles(legacy, h))
  {
    u := Seed(t, legacy, h, clock).tables;
    SeedTheorem(t, legacy, h, clock);
    assert ProfilesOf(t.profiles, t.links) == map[];
  }

  /** Some entry of TOKENS has a name with that slug. */
  ghost predicate SlugAsked(legacy: Legacy, h: Host, id: string) {
    exists k :: 0 <= k < |legacy.profiles| && SlugifyName(legacy.profiles[k].name, h.lower) == id
  }

  lemma SlugAskedIff(legacy: Legacy, h: Host, id: string)
    ensures id in PlainById(SeedProfiles(legacy, h)) <==> SlugAsked(legacy, h, id)
  {
    var ps := SeedProfiles(legacy, h);
    PlainByIdLooksUp(ps);
    if k :| 0 <= k < |legacy.profiles| && SlugifyName(legacy.profiles[k].name, h.lower) == id {
      assert ps[k] in ps && ps[k].id == id;
    }
    if id in PlainById(ps) {
      var i := LastEntry(ps, id);
      assert SlugifyName(legacy.profiles[i].name, h.lower) == id;
    }
  }

  /**
   * The profile rows of a seeding that completes on a database without profiles: one for each
   * slug, from the last entry with it, its defaults cut to the enabled types.
   */
  lemma SeededProfileRow(t: Tables, legacy: Legacy, h: Host, clock: nat -> nat, id: string) returns (i: nat)
    requires t.channels.Keys == {} && t.profiles.Keys == {} && !Seed(t, legacy, h, clock).threw
    ensures var u := Seed(t, legacy, h, clock).tables;
      && (id in u.profiles <==> SlugAsked(legacy, h, id))
      && (id in u.profiles ==>
        && IsLastOfSlug(legacy, h, i, id)
        && u.profiles[id].name == legacy.profiles[i].name && u.profiles[id].token == legacy.profiles[i].token
        && forall ref :: (id, ref) in u.links <==> ref in legacy.profiles[i].defaults && ref in legacy.enabled)
  {
    var u := SeededProfilesAre(t, legacy, h, clock);
    SlugAskedIff(legacy, h, id);
    var rows := ProfilesOf(u.profiles, u.links);
    assert id in u.profiles <==> id in rows;
    i := 0;
    if id in rows {
      i := SeededProfileIs(legacy, h, id);
      assert rows[id] == Plain(u.profiles[id].name, u.profiles[id].token, DefaultIds(u.links, id));
      forall ref ensures (id, ref) in u.links <==> ref in DefaultIds(u.links, id) {}
    }
  }

  /** Every enabled type is a known one with a slug for a name. */
  ghost predicate TypesKnown(legacy: Legacy, h: Host) {
    forall kind :: kind in legacy.enabled ==> SlugShaped(kind) && kind in h.required
  }

  /** Entry i, the last of its slug, has the default, and the default is an enabled type. */
  ghost predicate DefaultKept(legacy: Legacy, h: Host, i: nat, ref: string) {
    && i < |legacy.profiles| && IsLastOfSlug(legacy, h, i, SlugifyName(legacy.profiles[i].name, h.lower))
    && ref in legacy.profiles[i].defaults && ref in legacy.enabled
  }

  /** No default that is kept, of an entry that is the last of its slug, is of an incomplete type. */
  ghost predicate DefaultsComplete(legacy: Legacy, h: Host) {
    forall i: nat, ref :: DefaultKept(legacy, h, i, ref) ==> SettingsComplete(ref, legacy, h)
  }

  lemma SeedKeepsIntegrity(t: Tables, legacy: Legacy, h: Host, clock: nat -> nat)
    requires Integrity(t)
    ensures Integrity(Seed(t, legacy, h, clock).tables)
  {
    var calls := ChannelCalls(SeedChannels(legacy, h), clock) + ProfileCalls(SeedProfiles(legacy, h), clock, |legacy.enabled|);
    assert calls[..|calls|] == calls;
    PlayKeepsIntegrity(t, calls, |calls|);
  }

  lemma SeededContent(t: Tables, legacy: Legacy, h: Host, clock: nat -> nat) returns (c: Content)
    requires t == Tables(map[], map[], {}) && !Seed(t, legacy, h, clock).threw
    ensures c == ContentOf(Seed(t, legacy, h, clock).tables) && c.profiles == PlainById(SeedProfiles(legacy, h))
    ensures c.channels.Keys == Created(legacy)
    ensures forall id :: id in c.channels ==> c.channels[id] == SeedChannel(id, legacy, h)
  {
    c := ContentOf(Seed(t, legacy, h, clock).tables);
    SeedTheorem(t, legacy, h, clock);
    assert ProfilesOf(t.profiles, t.links) == map[];
    forall id {
      SeededChannelIs(legacy, h, id);
    }
  }

  /** The rule for one seeded instance: its settings never matter, for without them it is disabled. */
  lemma SeededChannelRule(kind: string, legacy: Legacy, h: Host)
    ensures ChannelRule(SeedChannel(kind, legacy, h), h.required) <==> SlugShaped(kind) && kind in h.required
  {
    SeedChannelIs(kind, legacy, h);
  }

  lemma KeptIsDefault(legacy: Legacy, h: Host, i: nat, ref: string) returns (id: string)
    requires DefaultKept(legacy, h, i, ref)
    ensures id in PlainById(SeedProfiles(legacy, h)) && ref in PlainById(SeedProfiles(legacy, h))[id].defaults
  {
    var ps := SeedProfiles(legacy, h);
    id := ps[i].id;
    forall k | i < k < |ps| ensures ps[k].id != ps[i].id {
      assert SlugifyName(legacy.profiles[k].name, h.lower) != id;
    }
    LastCounts(ps, i);
    WithinIs(legacy.profiles[i].defaults, Created(legacy));
  }

  lemma DefaultIsKept(legacy: Legacy, h: Host, id: string, ref: string) returns (i: nat)
    requires id in PlainById(SeedProfiles(legacy, h)) && ref in PlainById(SeedProfiles(legacy, h))[id].defaults
    ensures DefaultKept(legacy, h, i, ref)
  {
    i := SeededProfileIs(legacy, h, id);
  }

  ghost predicate AllDefaultsEnabled(c: Content) {
    forall id, ref :: id in c.profiles && ref in c.profiles[id].defaults ==> ref in c.channels && c.channels[ref].enabled
  }

  /** All seeded defaults are there and enabled exactly when those kept are of complete types. */
  lemma SeededDefaultsEnabledIff(legacy: Legacy, h: Host, c: Content)
    requires c.profiles == PlainById(SeedProfiles(legacy, h)) && c.channels.Keys == Created(legacy)
    requires forall id :: id in c.channels ==> c.channels[id] == SeedChannel(id, legacy, h)
    ensures AllDefaultsEnabled(c) <==> DefaultsComplete(legacy, h)
  {
    if DefaultsComplete(legacy, h) {
      forall id, ref | id in c.profiles && ref in c.profiles[id].defaults ensures ref in c.channels && c.channels[ref].enabled {
        var i := DefaultIsKept(legacy, h, id, ref);
        SeedChannelIs(ref, legacy, h);
      }
    }
    if AllDefaultsEnabled(c) {
      forall i: nat, ref | DefaultKept(legacy, h, i, ref) ensures SettingsComplete(ref, legacy, h) {
        var id := KeptIsDefault(legacy, h, i, ref);
        SeedChannelIs(ref, legacy, h);
      }
    }
  }

  lemma ContentIsValidIff(legacy: Legacy, h: Host, c: Content, u: Tables)
    requires c == ContentOf(u) && Integrity(u) && c.profiles == PlainById(SeedProfiles(legacy, h)) && c.channels.Keys == Created(legacy)
    requires forall id :: id in c.channels ==> c.channels[id] == SeedChannel(id, legacy, h)
    ensures ValidStore(u, h.required) <==> TypesKnown(legacy, h) && DefaultsComplete(legacy, h)
  {
    forall id | id in c.channels ensures ChannelRule(c.channels[id], h.required) <==> SlugShaped(id) && id in h.required {
      SeededChannelRule(id, legacy, h);
    }
    SeededDefaultsEnabledIff(legacy, h, c);
    assert forall kind :: kind in legacy.enabled <==> kind in c.channels;
    assert forall p, q :: p in c.profiles && q in c.profiles && p != q ==> c.profiles[p].token != c.profiles[q].token;
  }

  /**
   * Seeding an empty database, when it completes, leaves a valid store exactly when all the
   * types are known slugs and every default kept is of a type with all its settings.
   */
  lemma SeedLeavesValidStoreIff(t: Tables, legacy: Legacy, h: Host, clock: nat -> nat)
    requires t == Tables(map[], map[], {}) && !Seed(t, legacy, h, clock).threw
    ensures ValidStore(Seed(t, legacy, h, clock).tables, h.required) <==> TypesKnown(legacy, h) && DefaultsComplete(legacy, h)
  {
    SeedKeepsIntegrity(t, legacy, h, clock);
    var c := SeededContent(t, legacy, h, clock);
    ContentIsValidIff(legacy, h, c, Seed(t, legacy, h, clock).tables);
  }
}
