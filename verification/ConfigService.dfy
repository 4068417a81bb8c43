/**
 * Entity-level changes (one channel or one profile at a time) over the same store as the
 * PUT: what makes a store valid, and that no change makes it invalid.
 */
module ConfigService {
  import opened ConfigTypes
  import opened Validation
  import opened Store
  import opened PutConfig

  // ------------------------------------------------------- valid stores

  /** The validator's rule, said of what a store holds. */
  ghost predicate Valid(c: Content, required: Registry) {
    && (forall id :: id in c.channels ==> c.channels[id].id == id && ChannelRule(c.channels[id], required))
    && (forall id, ref :: id in c.profiles && ref in c.profiles[id].defaults ==> ref in c.channels && c.channels[ref].enabled)
    && (forall p, q :: p in c.profiles && q in c.profiles && p != q ==> c.profiles[p].token != c.profiles[q].token)
  }

  ghost predicate ValidStore(t: Tables, required: Registry) {
    Integrity(t) && Valid(ContentOf(t), required)
  }

  ghost function FullConfig(t: Tables): Payload {
    Payload(ListChannels(t), ListProfiles(t))
  }

  function Self(c: Channel): Channel { c }

  /** The map m holds exactly the entries of the list, each under its id. */
  ghost predicate Represents<T, V>(list: seq<T>, m: map<string, V>, id: T -> string, val: T -> V) {
    && (forall x :: x in list ==> id(x) in m && m[id(x)] == val(x))
    && (forall k :: k in m ==> exists x :: x in list && id(x) == k)
  }

  lemma RepresentsUnique<T, V>(list: seq<T>, m: map<string, V>, n: map<string, V>, id: T -> string, val: T -> V)
    requires Represents(list, m, id, val) && Represents(list, n, id, val)
    ensures m == n
  {
  }

  lemma ByIdIsExact(cs: seq<Channel>)
    requires DistinctBy(cs, ChannelId)
    ensures forall c :: c in cs ==> c.id in ById(cs) && ById(cs)[c.id] == c
  {
    ByIdLooksUp(cs);
    forall c | c in cs ensures c.id in ById(cs) && ById(cs)[c.id] == c {
      var i :| 0 <= i < |cs| && cs[i] == c;
      var j :| 0 <= j < |cs| && cs[j] == ById(cs)[c.id];
      assert i == j;
    }
  }

  /** A payload the validator accepts asks for a valid configuration. */
  lemma RuleGivesValid(payload: Payload, required: Registry)
    requires Rule(payload, required)
    ensures Valid(Requested(payload), required)
  {
    var cs, ps, c := payload.channels, payload.profiles, Requested(payload);
    ByIdLooksUp(cs);
    ByIdIsExact(cs);
    PlainByIdLooksUp(ps);
    forall id, ref | id in c.profiles && ref in c.profiles[id].defaults
      ensures ref in c.channels && c.channels[ref].enabled
    {
      var p :| p in ps && p.id == id && c.profiles[id] == PlainOf(p);
      assert EnabledIn(cs, ref);
    }
    forall a, b | a in c.profiles && b in c.profiles && a != b ensures c.profiles[a].token != c.profiles[b].token {
      var p :| p in ps && p.id == a && c.profiles[a] == PlainOf(p);
      var q :| q in ps && q.id == b && c.profiles[b] == PlainOf(q);
      var i :| 0 <= i < |ps| && ps[i] == p;
      var j :| 0 <= j < |ps| && ps[j] == q;
      assert i != j;
    }
  }

  /** With distinct ids, the converse: a payload asking for a valid configuration is accepted. */
  lemma ValidGivesRule(payload: Payload, required: Registry)
    requires DistinctBy(payload.channels, ChannelId) && DistinctBy(payload.profiles, ProfileId)
    requires Valid(Requested(payload), required)
    ensures Rule(payload, required)
  {
    var cs, ps, c := payload.channels, payload.profiles, Requested(payload);
    ByIdIsExact(cs);
    ByIdLooksUp(cs);
    RequestedIsExact(ps);
    forall ch | ch in cs ensures ChannelRule(ch, required) {
      assert c.channels[ch.id] == ch;
    }
    forall p, ref | p in ps && ref in p.defaults ensures EnabledIn(cs, ref) {
      assert ref in c.profiles[p.id].defaults;
      assert c.channels[ref] in cs;
    }
    forall i, j | 0 <= i < j < |ps| ensures ps[i].token != ps[j].token {
      assert ps[i] in ps && ps[j] in ps;
      assert c.profiles[ps[i].id].token != c.profiles[ps[j].id].token;
    }
  }

  lemma ChannelListRepresents(cs: seq<Channel>)
    requires DistinctBy(cs, ChannelId)
    ensures Represents(cs, ById(cs), ChannelId, Self)
  {
    ByIdLooksUp(cs);
    ByIdIsExact(cs);
  }

  lemma ProfileListRepresents(ps: seq<Profile>)
    requires DistinctBy(ps, ProfileId)
    ensures Represents(ps, PlainById(ps), ProfileId, PlainOf)
  {
    RequestedIsExact(ps);
    forall k | k in PlainById(ps) ensures exists p :: p in ps && ProfileId(p) == k {
      var p :| p in ps && p.id == k;
      assert ProfileId(p) == k;
    }
  }

  lemma StoreChannelsRepresented(t: Tables)
    ensures DistinctBy(ListChannels(t), ChannelId)
    ensures Represents(ListChannels(t), ChannelsOf(t.channels), ChannelId, Self)
  {
    ListChannelsIsTable(t);
    forall k | k in t.channels ensures exists c :: c in ListChannels(t) && ChannelId(c) == k {
      assert ChannelAt(t, k) in ListChannels(t) && ChannelId(ChannelAt(t, k)) == k;
    }
  }

  lemma StoreProfilesRepresented(t: Tables)
    ensures DistinctBy(ListProfiles(t), ProfileId)
    ensures Represents(ListProfiles(t), ProfilesOf(t.profiles, t.links), ProfileId, PlainOf)
  {
    ListProfilesIsTable(t);
    var m := ProfilesOf(t.profiles, t.links);
    forall k | k in m ensures exists p :: p in ListProfiles(t) && ProfileId(p) == k {
      assert ProfileAt(t, k) in ListProfiles(t) && ProfileId(ProfileAt(t, k)) == k;
    }
    forall p | p in ListProfiles(t) ensures p.id in m && m[p.id] == PlainOf(p) {
      ListDefaultsIsSet(t, p.id);
      forall ref ensures ref in DefaultIds(t.links, p.id) <==> (p.id, ref) in t.links {}
    }
  }

  /** Reading the store back as a payload asks for exactly what the store holds. */
  lemma FullConfigAsksForStore(t: Tables)
    ensures Requested(FullConfig(t)) == ContentOf(t)
    ensures DistinctBy(ListChannels(t), ChannelId) && DistinctBy(ListProfiles(t), ProfileId)
  {
    StoreChannelsRepresented(t);
    ChannelListRepresents(ListChannels(t));
    RepresentsUnique(ListChannels(t), ById(ListChannels(t)), ChannelsOf(t.channels), ChannelId, Self);
    StoreProfilesRepresented(t);
    ProfileListRepresents(ListProfiles(t));
    RepresentsUnique(ListProfiles(t), PlainById(ListProfiles(t)), ProfilesOf(t.profiles, t.links), ProfileId, PlainOf);
  }

  /** On a store that keeps its constraints, valid means accepted by the validator as a whole. */
  lemma ValidStoreIsAccepted(t: Tables, required: Registry)
    requires Integrity(t)
    ensures ValidStore(t, required) <==> VerdictOf(FullConfig(t), required) == Ok
  {
    var payload := FullConfig(t);
    FullConfigAsksForStore(t);
    VerdictIffRule(payload, required);
    if Rule(payload, required) {
      RuleGivesValid(payload, required);
    }
    if ValidStore(t, required) {
      ValidGivesRule(payload, required);
    }
  }

  // --------------------------------------------------------- candidates

  /** The list with the entry of the same id replaced in place, or with the item appended. */
  function UpsertedById<T>(list: seq<T>, item: T, id: T -> string): seq<T> {
    if list == [] then [item]
    else if id(list[0]) == id(item) then [item] + list[1..]
    else [list[0]] + UpsertedById(list[1..], item, id)
  }

  ghost predicate UpsertedMember<T>(list: seq<T>, item: T, id: T -> string, x: T) {
    x == item || (x in list && id(x) != id(item))
  }

  lemma {:induction false} UpsertedByIdIs<T>(list: seq<T>, item: T, id: T -> string)
    requires DistinctBy(list, id)
    ensures forall x :: x in UpsertedById(list, item, id) <==> UpsertedMember(list, item, id, x)
    ensures DistinctBy(UpsertedById(list, item, id), id)
    decreases |list|
  {
    if list != [] {
      var rest := list[1..];
      var r := UpsertedById(list, item, id);
      assert list == [list[0]] + rest;
      assert DistinctBy(rest, id);
      forall x | x in rest ensures id(x) != id(list[0]) {
        var k :| 0 <= k < |rest| && rest[k] == x;
        assert list[k + 1] == x;
      }
      if id(list[0]) == id(item) {
        assert r == [item] + rest;
        assert forall x :: x in r <==> x == item || x in rest;
        assert DistinctBy(r, id);
      } else {
        UpsertedByIdIs(rest, item, id);
        var tail := UpsertedById(rest, item, id);
        assert r == [list[0]] + tail;
        assert forall x :: x in r <==> x == list[0] || x in tail;
        forall i, j | 0 <= i < j < |r| ensures id(r[i]) != id(r[j]) {
          assert r[j] == tail[j - 1] && r[j] in tail;
          if i > 0 {
            assert r[i] == tail[i - 1];
            assert id(tail[i - 1]) != id(tail[j - 1]);
          } else {
            assert UpsertedMember(rest, item, id, tail[j - 1]);
          }
        }
      }
    }
  }

  /** In place at the first entry with the item's id ... */
  lemma {:induction false} UpsertedInPlace<T>(list: seq<T>, item: T, id: T -> string, i: nat)
    requires i < |list| && id(list[i]) == id(item) && forall j :: 0 <= j < i ==> id(list[j]) != id(item)
    ensures UpsertedById(list, item, id) == list[i := item]
    decreases |list|
  {
    if i > 0 {
      var rest := list[1..];
      forall j | 0 <= j < i - 1 ensures id(rest[j]) != id(item) { assert rest[j] == list[j + 1]; }
      UpsertedInPlace(rest, item, id, i - 1);
      assert list[i := item] == [list[0]] + rest[i - 1 := item];
    } else {
      assert list[0 := item] == [item] + list[1..];
    }
  }

  /** ... or at the end. */
  lemma {:induction false} UpsertedAtEnd<T>(list: seq<T>, item: T, id: T -> string)
    requires forall x :: x in list ==> id(x) != id(item)
    ensures UpsertedById(list, item, id) == list + [item]
    decreases |list|
  {
    if list != [] {
      UpsertedAtEnd(list[1..], item, id);
      assert list == [list[0]] + list[1..];
    }
  }

  lemma UpsertedRepresents<T, V>(list: seq<T>, m: map<string, V>, item: T, id: T -> string, val: T -> V)
    requires DistinctBy(list, id) && Represents(list, m, id, val)
    ensures Represents(UpsertedById(list, item, id), m[id(item) := val(item)], id, val)
  {
    UpsertedByIdIs(list, item, id);
    var r, n := UpsertedById(list, item, id), m[id(item) := val(item)];
    forall k | k in n ensures exists x :: x in r && id(x) == k {
      if k == id(item) {
        assert item in r;
      } else {
        var x :| x in list && id(x) == k;
        assert UpsertedMember(list, item, id, x);
      }
    }
    forall x | x in r ensures id(x) in n && n[id(x)] == val(x) {
      assert UpsertedMember(list, item, id, x);
    }
  }

  ghost function ChannelCandidate(t: Tables, c: Channel): Payload {
    Payload(UpsertedById(ListChannels(t), c, ChannelId), ListProfiles(t))
  }

  ghost function ProfileCandidate(t: Tables, p: Profile): Payload {
    Payload(ListChannels(t), UpsertedById(ListProfiles(t), p, ProfileId))
  }

  lemma ChannelCandidateAsks(t: Tables, c: Channel)
    ensures DistinctBy(ChannelCandidate(t, c).channels, ChannelId) && DistinctBy(ListProfiles(t), ProfileId)
    ensures Requested(ChannelCandidate(t, c)) == ContentOf(t).(channels := ChannelsOf(t.channels)[c.id := c])
  {
    var cs, r := ListChannels(t), UpsertedById(ListChannels(t), c, ChannelId);
    FullConfigAsksForStore(t);
    StoreChannelsRepresented(t);
    UpsertedByIdIs(cs, c, ChannelId);
    UpsertedRepresents(cs, ChannelsOf(t.channels), c, ChannelId, Self);
    ChannelListRepresents(r);
    RepresentsUnique(r, ById(r), ChannelsOf(t.channels)[c.id := c], ChannelId, Self);
  }

  lemma ProfileCandidateAsks(t: Tables, p: Profile)
    ensures DistinctBy(ListChannels(t), ChannelId) && DistinctBy(ProfileCandidate(t, p).profiles, ProfileId)
    ensures Requested(ProfileCandidate(t, p))
         == ContentOf(t).(profiles := ProfilesOf(t.profiles, t.links)[p.id := PlainOf(p)])
  {
    var ps, r := ListProfiles(t), UpsertedById(ListProfiles(t), p, ProfileId);
    FullConfigAsksForStore(t);
    StoreProfilesRepresented(t);
    UpsertedByIdIs(ps, p, ProfileId);
    UpsertedRepresents(ps, ProfilesOf(t.profiles, t.links), p, ProfileId, PlainOf);
    ProfileListRepresents(r);
    RepresentsUnique(r, PlainById(r), ProfilesOf(t.profiles, t.links)[p.id := PlainOf(p)], ProfileId, PlainOf);
  }

  // ------------------------------------------------------ the operations

  datatype Op =
    | SaveChannel(channel: Channel, now: nat)
    | RemoveChannel(id: string)
    | SaveProfile(profile: Profile, now: nat)
    | RemoveProfile(id: string)
    | Put(payload: Payload, clock: nat -> nat)

  /** What an operation does to the store; only an accepted PUT or profile save could throw. */
  ghost function Perform(t: Tables, op: Op, required: Registry): Result {
    match op
    case SaveChannel(c, now) =>
      if VerdictOf(ChannelCandidate(t, c), required) == Ok then Apply(t, UpsertChannel(c, now)) else Result(t, false)
    case RemoveChannel(id) =>
      if id in t.channels then Apply(t, DeleteChannel(id)) else Result(t, false)
    case SaveProfile(p, now) =>
      if VerdictOf(ProfileCandidate(t, p), required) == Ok then Apply(t, UpsertProfile(p, now)) else Result(t, false)
    case RemoveProfile(id) =>
      if id in t.profiles then Apply(t, DeleteProfile(id)) else Result(t, false)
    case Put(payload, clock) =>
      if VerdictOf(payload, required) == Ok then Play(t, PutCalls(t, payload, clock)) else Result(t, false)
  }

  /** What each entity call does to the contents. */
  lemma ChannelUpsertContent(t: Tables, c: Channel, now: nat)
    ensures ContentOf(Apply(t, UpsertChannel(c, now)).tables) == ContentOf(t).(channels := ChannelsOf(t.channels)[c.id := c])
  {
    assert ChannelsOf(t.channels[c.id := RowOf(c, t.channels, now)]) == ChannelsOf(t.channels)[c.id := c];
  }

  ghost function ProfilesWithout(m: map<string, Plain>, id: string): map<string, Plain> {
    map k | k in m :: m[k].(defaults := m[k].defaults - {id})
  }

  lemma ChannelDeleteContent(t: Tables, id: string)
    ensures ContentOf(Apply(t, DeleteChannel(id)).tables)
         == Content(ChannelsOf(t.channels) - {id}, ProfilesWithout(ProfilesOf(t.profiles, t.links), id))
  {
    var u := Apply(t, DeleteChannel(id)).tables;
    ChannelsOfMinus(t.channels, {id});
    assert u.links == LinksWithout(t.links, {}, {id});
    forall k { LinksWithoutDefaults(t.links, {}, {id}, k); }
    assert ProfilesOf(u.profiles, u.links) == ProfilesWithout(ProfilesOf(t.profiles, t.links), id);
  }

  lemma ProfileDeleteContent(t: Tables, id: string)
    ensures ContentOf(Apply(t, DeleteProfile(id)).tables)
         == ContentOf(t).(profiles := ProfilesOf(t.profiles, t.links) - {id})
  {
    var u := Apply(t, DeleteProfile(id)).tables;
    ProfilesOfMinus(t.profiles, t.links, {id});
    assert u.links == LinksWithout(t.links, {id}, {});
    forall k | k != id ensures DefaultIds(u.links, k) == DefaultIds(t.links, k) {
      LinksWithoutDefaults(t.links, {id}, {}, k);
    }
    assert ProfilesOf(u.profiles, u.links) == ProfilesOf(u.profiles, t.links);
  }

  lemma RefsExist(t: Tables, p: Profile, required: Registry)
    requires VerdictOf(ProfileCandidate(t, p), required) == Ok
    ensures forall ref :: ref in p.defaults ==> ref in t.channels
    ensures !TokenTaken(t.profiles, p.id, p.token)
  {
    var cand := ProfileCandidate(t, p);
    VerdictIffRule(cand, required);
    RuleGivesValid(cand, required);
    ProfileCandidateAsks(t, p);
    var c := Requested(cand);
    assert c.profiles[p.id] == PlainOf(p);
    forall ref | ref in p.defaults ensures ref in t.channels {
      assert ref in c.profiles[p.id].defaults;
      assert ref in c.channels;
    }
    forall q | q in t.profiles && q != p.id ensures t.profiles[q].token != p.token {
      assert c.profiles[q].token == t.profiles[q].token;
    }
  }

  lemma ChannelSaveReaches(t: Tables, c: Channel, now: nat)
    ensures var r := Apply(t, UpsertChannel(c, now));
      !r.threw && ContentOf(r.tables) == Requested(ChannelCandidate(t, c)) && TimesKept(t, r.tables)
  {
    ChannelCandidateAsks(t, c);
    ChannelUpsertContent(t, c, now);
  }

  lemma ProfileSaveReaches(t: Tables, p: Profile, now: nat, required: Registry)
    requires VerdictOf(ProfileCandidate(t, p), required) == Ok
    ensures var r := Apply(t, UpsertProfile(p, now));
      !r.threw && ContentOf(r.tables) == Requested(ProfileCandidate(t, p)) && TimesKept(t, r.tables)
  {
    ProfileCandidateAsks(t, p);
    RefsExist(t, p, required);
    ProfileUpsertContent(t, p, now);
  }

  /** After an accepted save the store holds exactly the validated candidate. */
  lemma SaveReachesCandidate(t: Tables, op: Op, required: Registry)
    requires op.SaveChannel? || op.SaveProfile?
    ensures var cand := if op.SaveChannel? then ChannelCandidate(t, op.channel) else ProfileCandidate(t, op.profile);
      VerdictOf(cand, required) == Ok ==>
        !Perform(t, op, required).threw && ContentOf(Perform(t, op, required).tables) == Requested(cand)
    ensures TimesKept(t, Perform(t, op, required).tables)
  {
    if op.SaveChannel? {
      ChannelSaveReaches(t, op.channel, op.now);
    } else if VerdictOf(ProfileCandidate(t, op.profile), required) == Ok {
      ProfileSaveReaches(t, op.profile, op.now, required);
    }
  }

  /**
   * Validity is inductive: whatever a valid store is asked, it stays valid unless a PUT is
   * cut short, and no entity operation is ever cut short.
   */
  lemma PerformKeepsValid(t: Tables, op: Op, required: Registry)
    requires ValidStore(t, required)
    ensures !op.Put? ==> !Perform(t, op, required).threw
    ensures Integrity(Perform(t, op, required).tables)
    ensures !Perform(t, op, required).threw ==> ValidStore(Perform(t, op, required).tables, required)
  {
    match op
    case SaveChannel(c, now) =>
      SaveReachesCandidate(t, op, required);
      VerdictIffRule(ChannelCandidate(t, c), required);
      if VerdictOf(ChannelCandidate(t, c), required) == Ok { RuleGivesValid(ChannelCandidate(t, c), required); }
      ApplyKeepsIntegrity(t, UpsertChannel(c, now));
    case RemoveChannel(id) =>
      ChannelDeleteContent(t, id);
      ApplyKeepsIntegrity(t, DeleteChannel(id));
    case SaveProfile(p, now) =>
      SaveReachesCandidate(t, op, required);
      VerdictIffRule(ProfileCandidate(t, p), required);
      if VerdictOf(ProfileCandidate(t, p), required) == Ok { RuleGivesValid(ProfileCandidate(t, p), required); }
      ApplyKeepsIntegrity(t, UpsertProfile(p, now));
    case RemoveProfile(id) =>
      ProfileDeleteContent(t, id);
      ApplyKeepsIntegrity(t, DeleteProfile(id));
    case Put(payload, clock) =>
      VerdictIffRule(payload, required);
      if VerdictOf(payload, required) == Ok {
        PutTheorem(t, payload, required, clock);
        RuleGivesValid(payload, required);
        var calls := PutCalls(t, payload, clock);
        assert calls[..|calls|] == calls;
        PlayKeepsIntegrity(t, calls, |calls|);
      }
  }

  ghost predicate IsHistory(ts: seq<Tables>, ops: seq<Op>, required: Registry) {
    && |ts| == |ops| + 1
    && forall i :: 0 <= i < |ops| ==> Perform(ts[i], ops[i], required) == Result(ts[i + 1], false)
  }

  /** Over every history of completed operations the store stays valid. */
  lemma {:induction false} ValidityIsInductive(ts: seq<Tables>, ops: seq<Op>, required: Registry, k: nat)
    requires IsHistory(ts, ops, required) && ValidStore(ts[0], required) && k < |ts|
    ensures ValidStore(ts[k], required)
    decreases k
  {
    if k > 0 {
      ValidityIsInductive(ts, ops, required, k - 1);
      PerformKeepsValid(ts[k - 1], ops[k - 1], required);
    }
  }
}
