/**
 * The two configuration surfaces agree: every successful entity operation on a valid store
 * is a PUT of the full configuration with that one edit.
 */
module EntityIsPut {
  import opened ConfigTypes
  import opened Validation
  import opened Store
  import opened PutConfig
  import opened ConfigService

  /** Every profile of the payload either keeps the token its row holds or is free to take it. */
  lemma TokensFreeMeansNoClash(t: Tables, ps: seq<Profile>)
    requires forall p, id :: p in ps && id in t.profiles && id != p.id ==> t.profiles[id].token != p.token
    ensures NoClashBefore(t, ps, |ps|)
  {
    forall j | 0 <= j < |ps| ensures NoClash(t, ps, j) {
      assert ps[j] in ps;
    }
  }

  /** PUT of a payload asking for content c, accepted and free of clashes, reaches c. */
  lemma PutReaches(t: Tables, payload: Payload, required: Registry, clock: nat -> nat)
    requires DistinctBy(payload.channels, ChannelId) && DistinctBy(payload.profiles, ProfileId)
    requires Valid(Requested(payload), required)
    requires forall p, id :: p in payload.profiles && id in t.profiles && id != p.id ==> t.profiles[id].token != p.token
    ensures VerdictOf(payload, required) == Ok
    ensures var r := Perform(t, Put(payload, clock), required);
      !r.threw && ContentOf(r.tables) == Requested(payload) && TimesKept(t, r.tables)
  {
    ValidGivesRule(payload, required);
    VerdictIffRule(payload, required);
    PutTheorem(t, payload, required, clock);
    TokensFreeMeansNoClash(t, payload.profiles);
  }

  lemma ListedTokensAreOwn(t: Tables)
    requires Integrity(t)
    ensures forall p, id :: p in ListProfiles(t) && id in t.profiles && id != p.id ==> t.profiles[id].token != p.token
  {
    ListProfilesIsTable(t);
  }

  /** Same verdict by construction; and when accepted, the same store contents. */
  lemma SaveChannelIsPut(t: Tables, c: Channel, now: nat, required: Registry, clock: nat -> nat)
    requires ValidStore(t, required) && VerdictOf(ChannelCandidate(t, c), required) == Ok
    ensures var entity, put := Perform(t, SaveChannel(c, now), required), Perform(t, Put(ChannelCandidate(t, c), clock), required);
      && !entity.threw && !put.threw && ContentOf(entity.tables) == ContentOf(put.tables)
      && TimesKept(t, entity.tables) && TimesKept(t, put.tables)
  {
    var cand := ChannelCandidate(t, c);
    SaveReachesCandidate(t, SaveChannel(c, now), required);
    VerdictIffRule(cand, required);
    RuleGivesValid(cand, required);
    ChannelCandidateAsks(t, c);
    ListedTokensAreOwn(t);
    PutReaches(t, cand, required, clock);
  }

  lemma SaveProfileIsPut(t: Tables, p: Profile, now: nat, required: Registry, clock: nat -> nat)
    requires ValidStore(t, required) && VerdictOf(ProfileCandidate(t, p), required) == Ok
    ensures var entity, put := Perform(t, SaveProfile(p, now), required), Perform(t, Put(ProfileCandidate(t, p), clock), required);
      && !entity.threw && !put.threw && ContentOf(entity.tables) == ContentOf(put.tables)
      && TimesKept(t, entity.tables) && TimesKept(t, put.tables)
  {
    SaveReachesCandidate(t, SaveProfile(p, now), required);
    ProfileCandidatePut(t, p, required, clock);
  }

  lemma ProfileCandidatePut(t: Tables, p: Profile, required: Registry, clock: nat -> nat)
    requires Integrity(t) && VerdictOf(ProfileCandidate(t, p), required) == Ok
    ensures var put := Perform(t, Put(ProfileCandidate(t, p), clock), required);
      !put.threw && ContentOf(put.tables) == Requested(ProfileCandidate(t, p)) && TimesKept(t, put.tables)
  {
    var cand := ProfileCandidate(t, p);
    VerdictIffRule(cand, required);
    RuleGivesValid(cand, required);
    ProfileCandidateAsks(t, p);
    CandidateTokensFree(t, p, required);
    PutReaches(t, cand, required, clock);
  }

  lemma CandidateTokensFree(t: Tables, p: Profile, required: Registry)
    requires Integrity(t) && VerdictOf(ProfileCandidate(t, p), required) == Ok
    ensures forall x, id :: x in ProfileCandidate(t, p).profiles && id in t.profiles && id != x.id ==> t.profiles[id].token != x.token
  {
    RefsExist(t, p, required);
    ListedTokensAreOwn(t);
    StoreProfilesRepresented(t);
    UpsertedByIdIs(ListProfiles(t), p, ProfileId);
    forall x, id | x in ProfileCandidate(t, p).profiles && id in t.profiles && id != x.id ensures t.profiles[id].token != x.token {
      assert UpsertedMember(ListProfiles(t), p, ProfileId, x);
    }
  }

  // ----------------------------------------------------------- removals

  /** The list without the entries of one id. */
  function Excluding<T>(s: seq<T>, gone: string, id: T -> string): seq<T> {
    if s == [] then []
    else if id(s[0]) != gone then [s[0]] + Excluding(s[1..], gone, id)
    else Excluding(s[1..], gone, id)
  }

  ghost predicate Remains<T>(s: seq<T>, gone: string, id: T -> string, x: T) {
    x in s && id(x) != gone
  }

  lemma {:induction false} ExcludingMembers<T>(s: seq<T>, gone: string, id: T -> string)
    ensures forall x :: x in Excluding(s, gone, id) <==> Remains(s, gone, id, x)
    decreases |s|
  {
    if s != [] {
      ExcludingMembers(s[1..], gone, id);
      assert s == [s[0]] + s[1..];
      forall x ensures x in Excluding(s, gone, id) <==> Remains(s, gone, id, x) {
        assert x in Excluding(s[1..], gone, id) <==> Remains(s[1..], gone, id, x);
      }
    }
  }

  lemma {:induction false} ExcludingDistinct<T>(s: seq<T>, gone: string, id: T -> string)
    requires DistinctBy(s, id)
    ensures DistinctBy(Excluding(s, gone, id), id)
    decreases |s|
  {
    if s != [] {
      var rest := s[1..];
      forall i, j | 0 <= i < j < |rest| ensures id(rest[i]) != id(rest[j]) {
        assert id(s[i + 1]) != id(s[j + 1]);
      }
      ExcludingDistinct(rest, gone, id);
      ExcludingMembers(rest, gone, id);
      var tail, r := Excluding(rest, gone, id), Excluding(s, gone, id);
      if id(s[0]) != gone {
        forall i, j | 0 <= i < j < |r| ensures id(r[i]) != id(r[j]) {
          assert r[j] == tail[j - 1];
          if i > 0 {
            assert id(tail[i - 1]) != id(tail[j - 1]);
          } else {
            assert Remains(rest, gone, id, tail[j - 1]);
            var k :| 0 <= k < |rest| && rest[k] == r[j];
            assert s[k + 1] == r[j];
          }
        }
      }
    }
  }

  lemma ExcludingRepresents<T, V>(s: seq<T>, m: map<string, V>, gone: string, id: T -> string, val: T -> V)
    requires DistinctBy(s, id) && Represents(s, m, id, val)
    ensures DistinctBy(Excluding(s, gone, id), id) && Represents(Excluding(s, gone, id), m - {gone}, id, val)
  {
    ExcludingDistinct(s, gone, id);
    ExcludingMembers(s, gone, id);
    var r, n := Excluding(s, gone, id), m - {gone};
    forall k | k in n ensures exists x :: x in r && id(x) == k {
      var x :| x in s && id(x) == k;
      assert Remains(s, gone, id, x);
    }
    forall x | x in r ensures id(x) in n && n[id(x)] == val(x) {
      assert Remains(s, gone, id, x);
    }
  }

  function Itself(ref: string): string { ref }

  function WithoutDefault(p: Profile, gone: string): Profile {
    p.(defaults := Excluding(p.defaults, gone, Itself))
  }

  ghost function ProfilesWithoutDefault(ps: seq<Profile>, gone: string): seq<Profile> {
    seq(|ps|, i requires 0 <= i < |ps| => WithoutDefault(ps[i], gone))
  }

  /** The full configuration with one channel removed, also from all defaults. */
  ghost function WithoutChannel(t: Tables, id: string): Payload {
    Payload(Excluding(ListChannels(t), id, ChannelId), ProfilesWithoutDefault(ListProfiles(t), id))
  }

  ghost function WithoutProfile(t: Tables, id: string): Payload {
    Payload(ListChannels(t), Excluding(ListProfiles(t), id, ProfileId))
  }

  lemma PrunedPlain(p: Profile, gone: string)
    ensures PlainOf(WithoutDefault(p, gone)) == PlainOf(p).(defaults := PlainOf(p).defaults - {gone})
  {
    ExcludingMembers(p.defaults, gone, Itself);
    forall ref ensures ref in Excluding(p.defaults, gone, Itself) <==> ref in p.defaults && ref != gone {
      assert ref in Excluding(p.defaults, gone, Itself) <==> Remains(p.defaults, gone, Itself, ref);
    }
  }

  lemma PrunedProfilesRepresent(ps: seq<Profile>, m: map<string, Plain>, gone: string)
    requires DistinctBy(ps, ProfileId) && Represents(ps, m, ProfileId, PlainOf)
    ensures DistinctBy(ProfilesWithoutDefault(ps, gone), ProfileId)
    ensures Represents(ProfilesWithoutDefault(ps, gone), ProfilesWithout(m, gone), ProfileId, PlainOf)
  {
    var r, n := ProfilesWithoutDefault(ps, gone), ProfilesWithout(m, gone);
    forall x | x in r ensures x.id in n && n[x.id] == PlainOf(x) {
      var i :| 0 <= i < |r| && r[i] == x;
      assert ps[i] in ps && ProfileId(ps[i]) in m && m[ps[i].id] == PlainOf(ps[i]);
      PrunedPlain(ps[i], gone);
    }
    forall k | k in n ensures exists x :: x in r && ProfileId(x) == k {
      var p :| p in ps && ProfileId(p) == k;
      var i :| 0 <= i < |ps| && ps[i] == p;
      assert r[i] in r && ProfileId(r[i]) == k;
    }
  }

  lemma WithoutChannelAsks(t: Tables, id: string)
    ensures var payload := WithoutChannel(t, id);
      && DistinctBy(payload.channels, ChannelId) && DistinctBy(payload.profiles, ProfileId)
      && Requested(payload) == Content(ChannelsOf(t.channels) - {id}, ProfilesWithout(ProfilesOf(t.profiles, t.links), id))
  {
    var cs, ps := ListChannels(t), ListProfiles(t);
    StoreChannelsRepresented(t);
    StoreProfilesRepresented(t);
    ExcludingRepresents(cs, ChannelsOf(t.channels), id, ChannelId, Self);
    var rest := Excluding(cs, id, ChannelId);
    ChannelListRepresents(rest);
    RepresentsUnique(rest, ById(rest), ChannelsOf(t.channels) - {id}, ChannelId, Self);
    PrunedProfilesRepresent(ps, ProfilesOf(t.profiles, t.links), id);
    var qs := ProfilesWithoutDefault(ps, id);
    ProfileListRepresents(qs);
    RepresentsUnique(qs, PlainById(qs), ProfilesWithout(ProfilesOf(t.profiles, t.links), id), ProfileId, PlainOf);
  }

  lemma WithoutProfileAsks(t: Tables, id: string)
    ensures var payload := WithoutProfile(t, id);
      && DistinctBy(payload.channels, ChannelId) && DistinctBy(payload.profiles, ProfileId)
      && Requested(payload) == ContentOf(t).(profiles := ProfilesOf(t.profiles, t.links) - {id})
  {
    var ps, rest := ListProfiles(t), Excluding(ListProfiles(t), id, ProfileId);
    FullConfigAsksForStore(t);
    StoreProfilesRepresented(t);
    ExcludingRepresents(ps, ProfilesOf(t.profiles, t.links), id, ProfileId, PlainOf);
    ProfileListRepresents(rest);
    RepresentsUnique(rest, PlainById(rest), ProfilesOf(t.profiles, t.links) - {id}, ProfileId, PlainOf);
  }

  lemma WithoutChannelTokensFree(t: Tables, id: string)
    requires Integrity(t)
    ensures forall x, q :: x in WithoutChannel(t, id).profiles && q in t.profiles && q != x.id ==> t.profiles[q].token != x.token
  {
    ListedTokensAreOwn(t);
    var ps := WithoutChannel(t, id).profiles;
    forall x, q | x in ps && q in t.profiles && q != x.id ensures t.profiles[q].token != x.token {
      var i :| 0 <= i < |ps| && ps[i] == x;
      assert ListProfiles(t)[i] in ListProfiles(t);
    }
  }

  lemma WithoutProfileTokensFree(t: Tables, id: string)
    requires Integrity(t)
    ensures forall x, q :: x in WithoutProfile(t, id).profiles && q in t.profiles && q != x.id ==> t.profiles[q].token != x.token
  {
    ListedTokensAreOwn(t);
    ExcludingMembers(ListProfiles(t), id, ProfileId);
    forall x, q | x in WithoutProfile(t, id).profiles && q in t.profiles && q != x.id ensures t.profiles[q].token != x.token {
      assert Remains(ListProfiles(t), id, ProfileId, x);
    }
  }

  /** A PUT asking for the contents of u, which has no rows but t's, leaves exactly u. */
  lemma PutLeaves(t: Tables, payload: Payload, u: Tables, required: Registry, clock: nat -> nat)
    requires ValidStore(t, required) && Integrity(u) && Valid(ContentOf(u), required)
    requires DistinctBy(payload.channels, ChannelId) && DistinctBy(payload.profiles, ProfileId)
    requires Requested(payload) == ContentOf(u)
    requires forall p, id :: p in payload.profiles && id in t.profiles && id != p.id ==> t.profiles[id].token != p.token
    requires TimesKept(t, u) && u.channels.Keys <= t.channels.Keys && u.profiles.Keys <= t.profiles.Keys
    ensures VerdictOf(payload, required) == Ok
    ensures Perform(t, Put(payload, clock), required) == Result(u, false)
  {
    PutReaches(t, payload, required, clock);
    var put := Perform(t, Put(payload, clock), required);
    assert Integrity(put.tables) by { PerformKeepsValid(t, Put(payload, clock), required); }
    SameContentSameTables(t, u, put.tables);
  }

  lemma DeletionKeepsTimes(t: Tables, call: Call)
    requires call.DeleteChannel? || call.DeleteProfile?
    ensures var u := Apply(t, call).tables;
      TimesKept(t, u) && u.channels.Keys <= t.channels.Keys && u.profiles.Keys <= t.profiles.Keys
  {
  }

  /** Deleting a channel is the PUT of everything else, with the channel gone from all defaults. */
  lemma RemoveChannelIsPut(t: Tables, id: string, required: Registry, clock: nat -> nat)
    requires ValidStore(t, required) && id in t.channels
    ensures VerdictOf(WithoutChannel(t, id), required) == Ok
    ensures var entity, put := Perform(t, RemoveChannel(id), required), Perform(t, Put(WithoutChannel(t, id), clock), required);
      !put.threw && entity == put
  {
    PerformKeepsValid(t, RemoveChannel(id), required);
    ChannelDeleteContent(t, id);
    WithoutChannelAsks(t, id);
    WithoutChannelTokensFree(t, id);
    DeletionKeepsTimes(t, DeleteChannel(id));
    PutLeaves(t, WithoutChannel(t, id), Perform(t, RemoveChannel(id), required).tables, required, clock);
  }

  /** Deleting a profile is the PUT of everything else. */
  lemma RemoveProfileIsPut(t: Tables, id: string, required: Registry, clock: nat -> nat)
    requires ValidStore(t, required) && id in t.profiles
    ensures VerdictOf(WithoutProfile(t, id), required) == Ok
    ensures var entity, put := Perform(t, RemoveProfile(id), required), Perform(t, Put(WithoutProfile(t, id), clock), required);
      !put.threw && entity == put
  {
    PerformKeepsValid(t, RemoveProfile(id), required);
    ProfileDeleteContent(t, id);
    WithoutProfileAsks(t, id);
    WithoutProfileTokensFree(t, id);
    DeletionKeepsTimes(t, DeleteProfile(id));
    PutLeaves(t, WithoutProfile(t, id), Perform(t, RemoveProfile(id), required).tables, required, clock);
  }

  /** Two stores with the same contents, no row newer than t, are the same tables. */
  lemma SameContentSameTables(t: Tables, u: Tables, v: Tables)
    requires ContentOf(u) == ContentOf(v) && Integrity(u) && Integrity(v)
    requires TimesKept(t, u) && TimesKept(t, v)
    requires u.channels.Keys <= t.channels.Keys && u.profiles.Keys <= t.profiles.Keys
    ensures u == v
  {
    SameChannelRows(t, u, v);
    SameProfileRows(t, u, v);
    forall l ensures l in u.links <==> l in v.links {
      SameLink(u, v, l);
      SameLink(v, u, l);
    }
  }

  lemma SameChannelRows(t: Tables, u: Tables, v: Tables)
    requires ChannelsOf(u.channels) == ChannelsOf(v.channels)
    requires TimesKept(t, u) && TimesKept(t, v) && u.channels.Keys <= t.channels.Keys
    ensures u.channels == v.channels
  {
    assert ChannelsOf(u.channels).Keys == u.channels.Keys && ChannelsOf(v.channels).Keys == v.channels.Keys;
    forall id | id in u.channels ensures u.channels[id] == v.channels[id] {
      assert ChannelsOf(u.channels)[id] == ChannelsOf(v.channels)[id];
    }
  }

  lemma SameProfileRows(t: Tables, u: Tables, v: Tables)
    requires ProfilesOf(u.profiles, u.links) == ProfilesOf(v.profiles, v.links)
    requires TimesKept(t, u) && TimesKept(t, v) && u.profiles.Keys <= t.profiles.Keys
    ensures u.profiles == v.profiles
  {
    var pu, pv := ProfilesOf(u.profiles, u.links), ProfilesOf(v.profiles, v.links);
    assert pu.Keys == u.profiles.Keys && pv.Keys == v.profiles.Keys;
    forall id | id in u.profiles ensures u.profiles[id] == v.profiles[id] {
      assert pu[id] == pv[id];
    }
  }

  lemma SameLink(u: Tables, v: Tables, l: (string, string))
    requires ContentOf(u) == ContentOf(v) && Integrity(u)
    ensures l in u.links ==> l in v.links
  {
    if l in u.links {
      var pu, pv := ProfilesOf(u.profiles, u.links), ProfilesOf(v.profiles, v.links);
      assert l.0 in pu && l.1 in DefaultIds(u.links, l.0);
      assert pu[l.0] == pv[l.0];
      assert l.1 in DefaultIds(v.links, l.0);
    }
  }

  /** Saving what was read changes nothing at all. */
  lemma PutOfFullConfigIsNoOp(t: Tables, required: Registry, clock: nat -> nat)
    requires ValidStore(t, required)
    ensures VerdictOf(FullConfig(t), required) == Ok
    ensures Perform(t, Put(FullConfig(t), clock), required) == Result(t, false)
  {
    FullConfigAsksForStore(t);
    ListedTokensAreOwn(t);
    PutLeaves(t, FullConfig(t), t, required, clock);
  }

  // ---------------------------------------- deletion without a cascade

  /** A channel repository that removes the row and leaves the links to the caller. */
  function DeleteRowOnly(t: Tables, id: string): Tables {
    t.(channels := t.channels - {id})
  }

  /** One round of the clean-up loop. */
  ghost function Prune(u: Tables, p: Profile, id: string): Tables {
    if id in p.defaults then Apply(u, SetDefaults(p.id, WithoutDefault(p, id).defaults)).tables else u
  }

  /** The clean-up loop over the first n listed profiles. */
  ghost function PruneListed(t: Tables, ps: seq<Profile>, id: string, n: nat): Tables
    requires n <= |ps|
  {
    if n == 0 then t else Prune(PruneListed(t, ps, id, n - 1), ps[n - 1], id)
  }

  /** The links of t but those to channel id from the profiles `done`. */
  ghost function LinksPruned(t: Tables, id: string, done: set<string>): set<(string, string)> {
    set l | l in t.links && !(l.1 == id && l.0 in done)
  }

  lemma PruneOne(t: Tables, u: Tables, p: Profile, id: string, done: set<string>)
    requires Integrity(t) && p.id in t.profiles && p == ProfileAt(t, p.id)
    requires u == DeleteRowOnly(t, id).(links := LinksPruned(t, id, done))
    ensures Prune(u, p, id) == DeleteRowOnly(t, id).(links := LinksPruned(t, id, done + {p.id}))
  {
    ListDefaultsIsSet(t, p.id);
    PrunedPlain(p, id);
    var refs := WithoutDefault(p, id).defaults;
    forall ref ensures ref in refs <==> (p.id, ref) in t.links && ref != id {
      assert ref in refs <==> ref in PlainOf(WithoutDefault(p, id)).defaults;
      assert ref in PlainOf(p).defaults <==> ref in p.defaults;
    }
    var links := Relinked(u, p.id, refs);
    assert links == LinksPruned(t, id, done + {p.id});
  }

  lemma {:induction false} PruneListedIs(t: Tables, ps: seq<Profile>, id: string, n: nat)
    requires Integrity(t) && n <= |ps|
    requires forall p :: p in ps ==> p.id in t.profiles && p == ProfileAt(t, p.id)
    ensures PruneListed(DeleteRowOnly(t, id), ps, id, n)
         == DeleteRowOnly(t, id).(links := LinksPruned(t, id, ProfileIds(ps[..n])))
    decreases n
  {
    if n > 0 {
      PruneListedIs(t, ps, id, n - 1);
      assert ps[..n] == ps[..n - 1] + [ps[n - 1]];
      assert ProfileIds(ps[..n]) == ProfileIds(ps[..n - 1]) + {ps[n - 1].id};
      assert ps[n - 1] in ps;
      PruneOne(t, PruneListed(DeleteRowOnly(t, id), ps, id, n - 1), ps[n - 1], id, ProfileIds(ps[..n - 1]));
    }
  }

  /** `deleteChannelEntity` reaches the same store whether or not the repository cascades. */
  lemma CascadeMakesNoDifference(t: Tables, id: string)
    requires Integrity(t)
    ensures PruneListed(DeleteRowOnly(t, id), ListProfiles(t), id, |ListProfiles(t)|) == Apply(t, DeleteChannel(id)).tables
  {
    var ps := ListProfiles(t);
    ListProfilesIsTable(t);
    PruneListedIs(t, ps, id, |ps|);
    assert ps[..|ps|] == ps;
    forall l | l in t.links ensures l.0 in ProfileIds(ps) {
      assert ProfileAt(t, l.0) in ps;
    }
  }
}
