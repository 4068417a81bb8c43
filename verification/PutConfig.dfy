/**
 * PUT of a complete configuration: four loops of separate repository calls, and when and
 * how exactly they reach the requested state.
 */
module PutConfig {
  import opened ConfigTypes
  import opened Ordering
  import opened Validation
  import opened Store

  // ----------------------------------------------- what a store contains

  /** A profile as a client sees it, its defaults as a set. */
  datatype Plain = Plain(name: string, token: string, defaults: set<string>)

  /** The configuration a store holds, without creation times and listing order. */
  datatype Content = Content(channels: map<string, Channel>, profiles: map<string, Plain>)

  ghost function ChannelsOf(rows: map<string, ChannelRow>): map<string, Channel> {
    map id | id in rows :: AsChannel(id, rows[id])
  }

  ghost function ProfilesOf(rows: map<string, ProfileRow>, links: set<(string, string)>): map<string, Plain> {
    map id | id in rows :: Plain(rows[id].name, rows[id].token, DefaultIds(links, id))
  }

  ghost function ContentOf(t: Tables): Content {
    Content(ChannelsOf(t.channels), ProfilesOf(t.profiles, t.links))
  }

  ghost function PlainOf(p: Profile): Plain {
    Plain(p.name, p.token, set ref | ref in p.defaults)
  }

  ghost function PlainById(ps: seq<Profile>): map<string, Plain> {
    if ps == [] then map[]
    else PlainById(ps[..|ps| - 1])[ps[|ps| - 1].id := PlainOf(ps[|ps| - 1])]
  }

  /** The configuration a payload asks for; of several profiles with one id the last counts. */
  ghost function Requested(payload: Payload): Content {
    Content(ById(payload.channels), PlainById(payload.profiles))
  }

  // ------------------------------------------------------- the PUT's calls

  function IdsToDelete(existing: seq<string>, kept: set<string>): seq<string> {
    if existing == [] then []
    else if existing[0] in kept then IdsToDelete(existing[1..], kept)
    else [existing[0]] + IdsToDelete(existing[1..], kept)
  }

  function ChannelCalls(cs: seq<Channel>, clock: nat -> nat): seq<Call> {
    seq(|cs|, i requires 0 <= i < |cs| => UpsertChannel(cs[i], clock(i)))
  }

  function ProfileCalls(ps: seq<Profile>, clock: nat -> nat, start: nat): seq<Call> {
    seq(|ps|, i requires 0 <= i < |ps| => UpsertProfile(ps[i], clock(start + i)))
  }

  function ProfileDeletions(ids: seq<string>): seq<Call> {
    seq(|ids|, i requires 0 <= i < |ids| => DeleteProfile(ids[i]))
  }

  function ChannelDeletions(ids: seq<string>): seq<Call> {
    seq(|ids|, i requires 0 <= i < |ids| => DeleteChannel(ids[i]))
  }

  function ChannelIds(cs: seq<Channel>): set<string> {
    set c | c in cs :: c.id
  }

  function ProfileIds(ps: seq<Profile>): set<string> {
    set p | p in ps :: p.id
  }

  /** The four loops, in order: upsert channels, upsert profiles, delete profiles, delete channels. */
  ghost function PutCalls(t: Tables, payload: Payload, clock: nat -> nat): seq<Call> {
    ChannelCalls(payload.channels, clock)
    + ProfileCalls(payload.profiles, clock, |payload.channels|)
    + ProfileDeletions(IdsToDelete(ProfileOrder(t), ProfileIds(payload.profiles)))
    + ChannelDeletions(IdsToDelete(ChannelOrder(t), ChannelIds(payload.channels)))
  }

  /**
   * The token of profile j is not held by a row with another id, unless an earlier profile
   * of the payload has that id and so has already rewritten the row.
   */
  ghost predicate NoClash(t: Tables, ps: seq<Profile>, j: nat)
    requires j < |ps|
  {
    forall id :: id in t.profiles && id != ps[j].id && t.profiles[id].token == ps[j].token
      ==> id in ProfileIds(ps[..j])
  }

  ghost predicate NoClashBefore(t: Tables, ps: seq<Profile>, n: nat)
    requires n <= |ps|
  {
    forall j :: 0 <= j < n ==> NoClash(t, ps, j)
  }

  // ---------------------------------------------------- loop by loop

  ghost predicate TimesKept(t: Tables, u: Tables) {
    && (forall id :: id in t.channels && id in u.channels ==> u.channels[id].createdAt == t.channels[id].createdAt)
    && (forall id :: id in t.profiles && id in u.profiles ==> u.profiles[id].createdAt == t.profiles[id].createdAt)
  }

  /** u is t with the channels cs upserted. */
  ghost predicate ChannelsUpserted(t: Tables, u: Tables, cs: seq<Channel>) {
    && u.profiles == t.profiles && u.links == t.links && TimesKept(t, u)
    && t.channels.Keys <= u.channels.Keys
    && ChannelsOf(u.channels) == ChannelsOf(t.channels) + ById(cs)
  }

  /** u is t with the profiles ps upserted. */
  ghost predicate ProfilesUpserted(t: Tables, u: Tables, ps: seq<Profile>) {
    && u.channels == t.channels && TimesKept(t, u)
    && t.profiles.Keys <= u.profiles.Keys
    && ProfilesOf(u.profiles, u.links) == ProfilesOf(t.profiles, t.links) + PlainById(ps)
  }

  lemma OverrideThenUpdate<K, V>(a: map<K, V>, b: map<K, V>, k: K, v: V)
    ensures (a + b)[k := v] == a + b[k := v]
  {
  }

  lemma OneChannelUpsert(t: Tables, u: Tables, cs: seq<Channel>, c: Channel, now: nat)
    requires ChannelsUpserted(t, u, cs)
    ensures ChannelsUpserted(t, Apply(u, UpsertChannel(c, now)).tables, cs + [c])
  {
    var v := Apply(u, UpsertChannel(c, now)).tables;
    assert (cs + [c])[..|cs + [c]| - 1] == cs;
    assert ChannelsOf(v.channels) == ChannelsOf(u.channels)[c.id := c];
    OverrideThenUpdate(ChannelsOf(t.channels), ById(cs), c.id, c);
  }

  lemma {:induction false} AfterChannelUpserts(t: Tables, cs: seq<Channel>, clock: nat -> nat, n: nat)
    requires n <= |cs|
    ensures !Play(t, ChannelCalls(cs, clock)[..n]).threw
    ensures ChannelsUpserted(t, Play(t, ChannelCalls(cs, clock)[..n]).tables, cs[..n])
    decreases n
  {
    if n > 0 {
      AfterChannelUpserts(t, cs, clock, n - 1);
      PlayNext(t, ChannelCalls(cs, clock), n - 1);
      assert cs[..n] == cs[..n - 1] + [cs[n - 1]];
      OneChannelUpsert(t, Play(t, ChannelCalls(cs, clock)[..n - 1]).tables, cs[..n - 1], cs[n - 1], clock(n - 1));
    }
  }

  lemma {:induction false} PlainByIdLooksUp(ps: seq<Profile>)
    ensures PlainById(ps).Keys == ProfileIds(ps)
    ensures forall id :: id in PlainById(ps) ==> exists p :: p in ps && p.id == id && PlainById(ps)[id] == PlainOf(p)
    decreases |ps|
  {
    if ps != [] {
      var n := |ps| - 1;
      PlainByIdLooksUp(ps[..n]);
      assert ps == ps[..n] + [ps[n]];
      assert ps[n] in ps;
      forall id | id in PlainById(ps) ensures exists p :: p in ps && p.id == id && PlainById(ps)[id] == PlainOf(p) {
        if id != ps[n].id {
          assert id in PlainById(ps[..n]);
          var p :| p in ps[..n] && p.id == id && PlainById(ps[..n])[id] == PlainOf(p);
          assert p in ps;
        }
      }
    }
  }

  ghost predicate DistinctTokens(ps: seq<Profile>) {
    forall i, j :: 0 <= i < j < |ps| ==> ps[i].token != ps[j].token
  }

  /** A later entry before j has the id of entry i, so it has rewritten its row. */
  ghost predicate Rewritten(ps: seq<Profile>, i: nat, j: nat)
    requires i < j <= |ps|
  {
    exists k :: i < k < j && ps[k].id == ps[i].id
  }

  /**
   * The token of entry j is free at its turn: no row from before holds it, and no earlier
   * entry has given it to another row that still has it.
   */
  ghost predicate Free(t: Tables, ps: seq<Profile>, j: nat)
    requires j < |ps|
  {
    && NoClash(t, ps, j)
    && forall i :: 0 <= i < j && ps[i].id != ps[j].id && ps[i].token == ps[j].token ==> Rewritten(ps, i, j)
  }

  ghost predicate FreeBefore(t: Tables, ps: seq<Profile>, n: nat)
    requires n <= |ps|
  {
    forall j :: 0 <= j < n ==> Free(t, ps, j)
  }

  /** The last entry of an id is the one that counts. */
  lemma {:induction false} LastCounts(ps: seq<Profile>, i: nat)
    requires i < |ps| && forall k :: i < k < |ps| ==> ps[k].id != ps[i].id
    ensures ps[i].id in PlainById(ps) && PlainById(ps)[ps[i].id] == PlainOf(ps[i])
    decreases |ps|
  {
    if i < |ps| - 1 {
      LastCounts(ps[..|ps| - 1], i);
    }
  }

  lemma {:induction false} LastEntry(ps: seq<Profile>, id: string) returns (i: nat)
    requires id in PlainById(ps)
    ensures i < |ps| && ps[i].id == id && forall k :: i < k < |ps| ==> ps[k].id != id
    ensures PlainById(ps)[id] == PlainOf(ps[i])
    decreases |ps|
  {
    var n := |ps| - 1;
    if ps[n].id == id {
      i := n;
    } else {
      i := LastEntry(ps[..n], id);
    }
  }

  /** A row of the partly updated table that holds the token: an entry's, or one from before. */
  lemma TakenMeansNotFree(t: Tables, u: Tables, ps: seq<Profile>, n: nat, q: string)
    requires n < |ps| && ProfilesUpserted(t, u, ps[..n])
    requires q in u.profiles && q != ps[n].id && u.profiles[q].token == ps[n].token
    ensures !Free(t, ps, n)
  {
    var was, have := ProfilesOf(t.profiles, t.links), ProfilesOf(u.profiles, u.links);
    PlainByIdLooksUp(ps[..n]);
    assert have[q].token == ps[n].token;
    if q in PlainById(ps[..n]) {
      var i := LastEntry(ps[..n], q);
      assert ps[i].token == ps[n].token && !Rewritten(ps, i, n);
    } else {
      assert q in was && was[q].token == t.profiles[q].token;
      assert !NoClash(t, ps, n);
    }
  }

  lemma NotFreeMeansTaken(t: Tables, u: Tables, ps: seq<Profile>, n: nat)
    requires n < |ps| && ProfilesUpserted(t, u, ps[..n]) && !Free(t, ps, n)
    ensures TokenTaken(u.profiles, ps[n].id, ps[n].token)
  {
    var was, have := ProfilesOf(t.profiles, t.links), ProfilesOf(u.profiles, u.links);
    PlainByIdLooksUp(ps[..n]);
    if !NoClash(t, ps, n) {
      var q :| q in t.profiles && q != ps[n].id && t.profiles[q].token == ps[n].token && q !in ProfileIds(ps[..n]);
      assert have[q] == was[q];
      assert q in u.profiles;
    } else {
      var i :| 0 <= i < n && ps[i].id != ps[n].id && ps[i].token == ps[n].token && !Rewritten(ps, i, n);
      LastCounts(ps[..n], i);
      assert have[ps[i].id] == PlainOf(ps[i]);
      assert ps[i].id in u.profiles;
    }
  }

  /** After n upserts, the next hits the unique token constraint exactly when its token is not free. */
  lemma ClashIff(t: Tables, u: Tables, ps: seq<Profile>, n: nat)
    requires n < |ps| && ProfilesUpserted(t, u, ps[..n])
    ensures TokenTaken(u.profiles, ps[n].id, ps[n].token) <==> !Free(t, ps, n)
  {
    if !Free(t, ps, n) {
      NotFreeMeansTaken(t, u, ps, n);
    }
    if q :| q in u.profiles && q != ps[n].id && u.profiles[q].token == ps[n].token {
      TakenMeansNotFree(t, u, ps, n, q);
    }
  }

  /** With distinct tokens only rows from before can stand in the way. */
  lemma DistinctTokensFree(t: Tables, ps: seq<Profile>)
    requires DistinctTokens(ps)
    ensures FreeBefore(t, ps, |ps|) <==> NoClashBefore(t, ps, |ps|)
  {
    forall j | 0 <= j < |ps| ensures Free(t, ps, j) <==> NoClash(t, ps, j) {}
  }

  lemma OneProfileUpsert(t: Tables, u: Tables, ps: seq<Profile>, p: Profile, now: nat)
    requires ProfilesUpserted(t, u, ps) && !TokenTaken(u.profiles, p.id, p.token)
    requires forall ref :: ref in p.defaults ==> ref in u.channels
    ensures ProfilesUpserted(t, Apply(u, UpsertProfile(p, now)).tables, ps + [p])
  {
    var v := Apply(u, UpsertProfile(p, now)).tables;
    assert (ps + [p])[..|ps + [p]| - 1] == ps;
    ProfileUpsertContent(u, p, now);
    OverrideThenUpdate(ProfilesOf(t.profiles, t.links), PlainById(ps), p.id, PlainOf(p));
  }

  lemma RelinkedDefaults(u: Tables, id: string, refs: seq<string>, other: string)
    ensures DefaultIds(Relinked(u, id, refs), other)
         == if other == id then set ref | ref in refs && ref in u.channels else DefaultIds(u.links, other)
  {
    var links := Relinked(u, id, refs);
    forall ref ensures ref in DefaultIds(links, other) <==> (other, ref) in links {}
    forall ref ensures ref in DefaultIds(u.links, other) <==> (other, ref) in u.links {}
  }

  lemma ProfileUpsertContent(u: Tables, p: Profile, now: nat)
    requires !TokenTaken(u.profiles, p.id, p.token)
    requires forall ref :: ref in p.defaults ==> ref in u.channels
    ensures var v := Apply(u, UpsertProfile(p, now)).tables;
      v.channels == u.channels
      && ProfilesOf(v.profiles, v.links) == ProfilesOf(u.profiles, u.links)[p.id := PlainOf(p)]
  {
    var v := Apply(u, UpsertProfile(p, now)).tables;
    forall id | id in v.profiles ensures DefaultIds(v.links, id)
      == if id == p.id then PlainOf(p).defaults else DefaultIds(u.links, id) {
      RelinkedDefaults(u, p.id, p.defaults, id);
    }
    var a, b := ProfilesOf(v.profiles, v.links), ProfilesOf(u.profiles, u.links)[p.id := PlainOf(p)];
    assert a.Keys == b.Keys;
    forall id | id in a ensures a[id] == b[id] {}
  }

  /** After n profile upserts: all done unless some token is not free, and then cut short. */
  ghost predicate UpsertedSoFar(t: Tables, r: Result, ps: seq<Profile>, n: nat)
    requires n <= |ps|
  {
    && (!r.threw <==> FreeBefore(t, ps, n))
    && (!r.threw ==> ProfilesUpserted(t, r.tables, ps[..n]))
  }

  /** Every default of every entry names a channel with a row. */
  ghost predicate RefsIn(t: Tables, ps: seq<Profile>) {
    forall p, ref :: p in ps && ref in p.defaults ==> ref in t.channels
  }

  lemma NextProfileUpsert(t: Tables, r: Result, ps: seq<Profile>, n: nat, now: nat)
    requires n < |ps| && RefsIn(t, ps) && UpsertedSoFar(t, r, ps, n)
    ensures UpsertedSoFar(t, if r.threw then r else Apply(r.tables, UpsertProfile(ps[n], now)), ps, n + 1)
  {
    assert ps[..n + 1] == ps[..n] + [ps[n]];
    assert ps[n] in ps;
    if !r.threw {
      ClashIff(t, r.tables, ps, n);
      if Free(t, ps, n) {
        OneProfileUpsert(t, r.tables, ps[..n], ps[n], now);
      }
    }
  }

  lemma NextPlayed(t: Tables, calls: seq<Call>, ps: seq<Profile>, n: nat, now: nat)
    requires n < |ps| && n < |calls| && calls[n] == UpsertProfile(ps[n], now) && RefsIn(t, ps)
    requires UpsertedSoFar(t, Play(t, calls[..n]), ps, n)
    ensures UpsertedSoFar(t, Play(t, calls[..n + 1]), ps, n + 1)
  {
    PlayNext(t, calls, n);
    NextProfileUpsert(t, Play(t, calls[..n]), ps, n, now);
  }

  lemma NothingPlayed(t: Tables, calls: seq<Call>, ps: seq<Profile>)
    ensures UpsertedSoFar(t, Play(t, calls[..0]), ps, 0)
  {
  }

  lemma {:induction false} AfterProfileUpserts(t: Tables, ps: seq<Profile>, clock: nat -> nat, start: nat, n: nat)
    requires n <= |ps| && RefsIn(t, ps)
    ensures UpsertedSoFar(t, Play(t, ProfileCalls(ps, clock, start)[..n]), ps, n)
    decreases n
  {
    if n == 0 {
      NothingPlayed(t, ProfileCalls(ps, clock, start), ps);
    } else {
      AfterProfileUpserts(t, ps, clock, start, n - 1);
      NextPlayed(t, ProfileCalls(ps, clock, start), ps, n - 1, clock(start + n - 1));
    }
  }

  function Without(s: seq<string>, n: nat): set<string>
    requires n <= |s|
  {
    set id | id in s[..n]
  }

  lemma {:induction false} AfterProfileDeletions(t: Tables, ids: seq<string>, n: nat)
    requires n <= |ids|
    ensures Play(t, ProfileDeletions(ids)[..n]) == Result(
      t.(profiles := t.profiles - Without(ids, n), links := set l | l in t.links && l.0 !in Without(ids, n)), false)
    decreases n
  {
    if n > 0 {
      AfterProfileDeletions(t, ids, n - 1);
      PlayNext(t, ProfileDeletions(ids), n - 1);
      assert ids[..n] == ids[..n - 1] + [ids[n - 1]];
      assert Without(ids, n) == Without(ids, n - 1) + {ids[n - 1]};
    }
  }

  lemma {:induction false} AfterChannelDeletions(t: Tables, ids: seq<string>, n: nat)
    requires n <= |ids|
    ensures Play(t, ChannelDeletions(ids)[..n]) == Result(
      t.(channels := t.channels - Without(ids, n), links := set l | l in t.links && l.1 !in Without(ids, n)), false)
    decreases n
  {
    if n > 0 {
      AfterChannelDeletions(t, ids, n - 1);
      PlayNext(t, ChannelDeletions(ids), n - 1);
      assert ids[..n] == ids[..n - 1] + [ids[n - 1]];
      assert Without(ids, n) == Without(ids, n - 1) + {ids[n - 1]};
    }
  }

  lemma {:induction false} IdsToDeleteIs(existing: seq<string>, kept: set<string>)
    ensures forall id :: id in IdsToDelete(existing, kept) <==> id in existing && id !in kept
    decreases |existing|
  {
    if existing != [] {
      IdsToDeleteIs(existing[1..], kept);
    }
  }

  // ------------------------------------------------------ the whole PUT

  lemma OverrideMinus<K, V>(a: map<K, V>, b: map<K, V>)
    ensures a + b - (a.Keys - b.Keys) == b
  {
  }

  lemma ChannelsOfMinus(rows: map<string, ChannelRow>, gone: set<string>)
    ensures ChannelsOf(rows - gone) == ChannelsOf(rows) - gone
  {
  }

  lemma ProfilesOfMinus(rows: map<string, ProfileRow>, links: set<(string, string)>, gone: set<string>)
    ensures ProfilesOf(rows - gone, links) == ProfilesOf(rows, links) - gone
  {
  }

  ghost function LinksWithout(links: set<(string, string)>, pids: set<string>, cids: set<string>): set<(string, string)> {
    set l | l in links && l.0 !in pids && l.1 !in cids
  }

  lemma LinksWithoutDefaults(links: set<(string, string)>, pids: set<string>, cids: set<string>, id: string)
    requires id !in pids
    ensures DefaultIds(LinksWithout(links, pids, cids), id) == DefaultIds(links, id) - cids
  {
    forall ref ensures ref in DefaultIds(LinksWithout(links, pids, cids), id) <==> (id, ref) in LinksWithout(links, pids, cids) {}
    forall ref ensures ref in DefaultIds(links, id) <==> (id, ref) in links {}
  }

  /** The deletion loops remove no default that was asked for. */
  lemma RequestedDefaultsSurvive(t: Tables, u: Tables, payload: Payload, required: Registry, gone: set<string>, id: string)
    requires Rule(payload, required) && id in PlainById(payload.profiles)
    requires ProfilesOf(u.profiles, u.links) == ProfilesOf(t.profiles, t.links) + PlainById(payload.profiles)
    requires gone == t.channels.Keys - ChannelIds(payload.channels)
    ensures DefaultIds(u.links, id) - gone == DefaultIds(u.links, id)
  {
    PlainByIdLooksUp(payload.profiles);
    var p :| p in payload.profiles && p.id == id && PlainById(payload.profiles)[id] == PlainOf(p);
    assert ProfilesOf(u.profiles, u.links)[id] == PlainOf(p);
    forall ref | ref in DefaultIds(u.links, id) ensures ref !in gone {
      assert ref in p.defaults;
      assert EnabledIn(payload.channels, ref);
    }
  }

  /** The two deletion loops remove exactly what was not asked for, and none of what was. */
  lemma DeletionsLeaveRequested(t: Tables, u: Tables, payload: Payload, required: Registry, v: Tables)
    requires Rule(payload, required)
    requires ChannelsOf(u.channels) == ChannelsOf(t.channels) + ById(payload.channels)
    requires ProfilesOf(u.profiles, u.links) == ProfilesOf(t.profiles, t.links) + PlainById(payload.profiles)
    requires v == Tables(
      u.channels - (t.channels.Keys - ChannelIds(payload.channels)),
      u.profiles - (t.profiles.Keys - ProfileIds(payload.profiles)),
      LinksWithout(u.links, t.profiles.Keys - ProfileIds(payload.profiles), t.channels.Keys - ChannelIds(payload.channels)))
    ensures ContentOf(v) == Requested(payload)
  {
    var cids, pids := t.channels.Keys - ChannelIds(payload.channels), t.profiles.Keys - ProfileIds(payload.profiles);
    ByIdKeys(payload.channels);
    ChannelsOfMinus(u.channels, cids);
    OverrideMinus(ChannelsOf(t.channels), ById(payload.channels));
    RemainingProfiles(t, u, payload, required, pids, cids);
  }

  lemma RemainingProfiles(t: Tables, u: Tables, payload: Payload, required: Registry, pids: set<string>, cids: set<string>)
    requires Rule(payload, required)
    requires ProfilesOf(u.profiles, u.links) == ProfilesOf(t.profiles, t.links) + PlainById(payload.profiles)
    requires pids == t.profiles.Keys - ProfileIds(payload.profiles) && cids == t.channels.Keys - ChannelIds(payload.channels)
    ensures ProfilesOf(u.profiles - pids, LinksWithout(u.links, pids, cids)) == PlainById(payload.profiles)
  {
    var rows, links := u.profiles - pids, LinksWithout(u.links, pids, cids);
    assert ProfilesOf(rows, u.links) == PlainById(payload.profiles) by {
      PlainByIdLooksUp(payload.profiles);
      ProfilesOfMinus(u.profiles, u.links, pids);
      OverrideMinus(ProfilesOf(t.profiles, t.links), PlainById(payload.profiles));
    }
    forall id | id in rows ensures DefaultIds(links, id) == DefaultIds(u.links, id) {
      assert id in ProfilesOf(rows, u.links);
      LinksWithoutDefaults(u.links, pids, cids, id);
      RequestedDefaultsSurvive(t, u, payload, required, cids, id);
    }
    assert ProfilesOf(rows, links) == ProfilesOf(rows, u.links);
  }

  lemma ByIdKeys(cs: seq<Channel>)
    ensures ById(cs).Keys == ChannelIds(cs)
  {
    ByIdLooksUp(cs);
  }

  lemma WithoutIsDifference(t: Tables, payload: Payload)
    ensures var ids := IdsToDelete(ProfileOrder(t), ProfileIds(payload.profiles));
      Without(ids, |ids|) == t.profiles.Keys - ProfileIds(payload.profiles)
    ensures var ids := IdsToDelete(ChannelOrder(t), ChannelIds(payload.channels));
      Without(ids, |ids|) == t.channels.Keys - ChannelIds(payload.channels)
  {
    IdsToDeleteIs(ProfileOrder(t), ProfileIds(payload.profiles));
    IdsToDeleteIs(ChannelOrder(t), ChannelIds(payload.channels));
    OrderedIsListing(ProfileTimes(t), ProfileTimes(t).Keys);
    OrderedIsListing(ChannelTimes(t), ChannelTimes(t).Keys);
    var ps := IdsToDelete(ProfileOrder(t), ProfileIds(payload.profiles));
    var cs := IdsToDelete(ChannelOrder(t), ChannelIds(payload.channels));
    assert ps[..|ps|] == ps && cs[..|cs|] == cs;
  }

  /** The store after the two upsert loops, when none of their calls throws. */
  ghost function Upserted(t: Tables, payload: Payload, clock: nat -> nat): Result {
    Play(t, ChannelCalls(payload.channels, clock) + ProfileCalls(payload.profiles, clock, |payload.channels|))
  }

  lemma AfterUpserts(t: Tables, payload: Payload, required: Registry, clock: nat -> nat)
    requires Rule(payload, required)
    ensures var r := Upserted(t, payload, clock);
      && (!r.threw <==> NoClashBefore(t, payload.profiles, |payload.profiles|))
      && (!r.threw ==>
          && ChannelsOf(r.tables.channels) == ChannelsOf(t.channels) + ById(payload.channels)
          && ProfilesOf(r.tables.profiles, r.tables.links) == ProfilesOf(t.profiles, t.links) + PlainById(payload.profiles)
          && TimesKept(t, r.tables))
  {
    var cs, ps := payload.channels, payload.profiles;
    var a, b := ChannelCalls(cs, clock), ProfileCalls(ps, clock, |cs|);
    assert a[..|cs|] == a && b[..|ps|] == b && cs[..|cs|] == cs && ps[..|ps|] == ps;
    AfterChannelUpserts(t, cs, clock, |cs|);
    var u := Play(t, a).tables;
    PlayConcat(t, a, b);
    PayloadRefsIn(t, payload, required, u);
    AfterProfileUpserts(u, ps, clock, |cs|, |ps|);
    DistinctTokensFree(u, ps);
    forall j | 0 <= j < |ps| ensures NoClash(u, ps, j) <==> NoClash(t, ps, j) {}
  }

  /** What the two deletion loops leave of u, given the ids t listed before. */
  ghost function Swept(t: Tables, u: Tables, payload: Payload): Tables {
    var pids, cids := t.profiles.Keys - ProfileIds(payload.profiles), t.channels.Keys - ChannelIds(payload.channels);
    Tables(u.channels - cids, u.profiles - pids, LinksWithout(u.links, pids, cids))
  }

  lemma AfterDeletions(u: Tables, pids: seq<string>, cids: seq<string>)
    ensures Play(u, ProfileDeletions(pids) + ChannelDeletions(cids)) == Result(
      Tables(u.channels - Without(cids, |cids|), u.profiles - Without(pids, |pids|),
             LinksWithout(u.links, Without(pids, |pids|), Without(cids, |cids|))), false)
  {
    var c, d := ProfileDeletions(pids), ChannelDeletions(cids);
    assert c[..|pids|] == c && d[..|cids|] == d;
    AfterProfileDeletions(u, pids, |pids|);
    PlayConcat(u, c, d);
    AfterChannelDeletions(Play(u, c).tables, cids, |cids|);
  }

  /** The calls of a PUT are the upserts and then the deletions, unless an upsert throws. */
  lemma PutIsUpsertsThenDeletions(t: Tables, payload: Payload, clock: nat -> nat)
    ensures var r := Upserted(t, payload, clock);
      Play(t, PutCalls(t, payload, clock)) == if r.threw then r else Result(Swept(t, r.tables, payload), false)
  {
    var upserts := ChannelCalls(payload.channels, clock) + ProfileCalls(payload.profiles, clock, |payload.channels|);
    var pids := IdsToDelete(ProfileOrder(t), ProfileIds(payload.profiles));
    var cids := IdsToDelete(ChannelOrder(t), ChannelIds(payload.channels));
    var deletions := ProfileDeletions(pids) + ChannelDeletions(cids);
    assert PutCalls(t, payload, clock) == upserts + deletions;
    PlayConcat(t, upserts, deletions);
    AfterDeletions(Play(t, upserts).tables, pids, cids);
    WithoutIsDifference(t, payload);
  }

  /**
   * A valid PUT completes exactly when no token it assigns is still held by another row at
   * that point, and then the store is what was asked for; rows that survive keep their
   * creation time.
   */
  lemma PutTheorem(t: Tables, payload: Payload, required: Registry, clock: nat -> nat)
    requires Rule(payload, required)
    ensures var r := Play(t, PutCalls(t, payload, clock));
      && (!r.threw <==> NoClashBefore(t, payload.profiles, |payload.profiles|))
      && (!r.threw ==> ContentOf(r.tables) == Requested(payload) && TimesKept(t, r.tables))
  {
    AfterUpserts(t, payload, required, clock);
    var r := Upserted(t, payload, clock);
    PutIsUpsertsThenDeletions(t, payload, clock);
    if !r.threw {
      DeletionsLeaveRequested(t, r.tables, payload, required, Swept(t, r.tables, payload));
    }
  }

  // --------------------------------------------- times of new rows

  /** Entry i is the first of the list with its id, and t has no row of that id. */
  ghost predicate NewChannel(t: Tables, cs: seq<Channel>, i: nat) {
    i < |cs| && cs[i].id !in t.channels && forall k :: 0 <= k < i ==> cs[k].id != cs[i].id
  }

  ghost predicate NewProfile(t: Tables, ps: seq<Profile>, i: nat) {
    i < |ps| && ps[i].id !in t.profiles && forall k :: 0 <= k < i ==> ps[k].id != ps[i].id
  }

  lemma {:induction false} NewChannelTime(t: Tables, cs: seq<Channel>, clock: nat -> nat, i: nat, n: nat)
    requires NewChannel(t, cs, i) && i < n <= |cs|
    ensures var rows := Play(t, ChannelCalls(cs, clock)[..n]).tables.channels;
      cs[i].id in rows && rows[cs[i].id].createdAt == clock(i)
    decreases n
  {
    AfterChannelUpserts(t, cs, clock, n - 1);
    PlayNext(t, ChannelCalls(cs, clock), n - 1);
    if i < n - 1 {
      NewChannelTime(t, cs, clock, i, n - 1);
    } else {
      ByIdLooksUp(cs[..i]);
      var u := Play(t, ChannelCalls(cs, clock)[..i]).tables;
      assert cs[i].id in u.channels <==> cs[i].id in ChannelsOf(u.channels);
    }
  }

  ghost predicate HasTime(rows: map<string, ProfileRow>, id: string, time: nat) {
    id in rows && rows[id].createdAt == time
  }

  lemma LaterUpsertKeepsTime(u: Tables, p: Profile, now: nat, id: string, time: nat)
    requires HasTime(u.profiles, id, time)
    ensures HasTime(Apply(u, UpsertProfile(p, now)).tables.profiles, id, time)
  {
  }

  lemma FirstUpsertSetsTime(u: Tables, p: Profile, now: nat)
    requires p.id !in u.profiles && !Apply(u, UpsertProfile(p, now)).threw
    ensures HasTime(Apply(u, UpsertProfile(p, now)).tables.profiles, p.id, now)
  {
  }

  lemma NotYetThere(t: Tables, ps: seq<Profile>, i: nat, u: Tables)
    requires NewProfile(t, ps, i) && ProfilesUpserted(t, u, ps[..i])
    ensures ps[i].id !in u.profiles
  {
    PlainByIdLooksUp(ps[..i]);
    assert ps[i].id in u.profiles <==> ps[i].id in ProfilesOf(u.profiles, u.links);
  }

  lemma PrefixDidNotThrow(t: Tables, calls: seq<Call>, n: nat)
    requires n < |calls| && !Play(t, calls[..n + 1]).threw
    ensures !Play(t, calls[..n]).threw
  {
    PlayNext(t, calls, n);
  }

  lemma TimeStays(t: Tables, calls: seq<Call>, n: nat, p: Profile, now: nat, id: string, time: nat)
    requires n < |calls| && calls[n] == UpsertProfile(p, now) && !Play(t, calls[..n + 1]).threw
    requires HasTime(Play(t, calls[..n]).tables.profiles, id, time)
    ensures HasTime(Play(t, calls[..n + 1]).tables.profiles, id, time)
  {
    PlayNext(t, calls, n);
    LaterUpsertKeepsTime(Play(t, calls[..n]).tables, p, now, id, time);
  }

  lemma TimeIsSet(t: Tables, calls: seq<Call>, ps: seq<Profile>, i: nat, now: nat)
    requires i < |calls| && NewProfile(t, ps, i) && calls[i] == UpsertProfile(ps[i], now) && !Play(t, calls[..i + 1]).threw
    requires UpsertedSoFar(t, Play(t, calls[..i]), ps, i)
    ensures HasTime(Play(t, calls[..i + 1]).tables.profiles, ps[i].id, now)
  {
    PlayNext(t, calls, i);
    NotYetThere(t, ps, i, Play(t, calls[..i]).tables);
    FirstUpsertSetsTime(Play(t, calls[..i]).tables, ps[i], now);
  }

  /** Later upserts leave the time alone. */
  lemma {:induction false} TimeStaysUntil(t: Tables, calls: seq<Call>, from: nat, n: nat, id: string, time: nat)
    requires from <= n <= |calls| && forall k :: from <= k < n ==> calls[k].UpsertProfile?
    requires !Play(t, calls[..n]).threw && HasTime(Play(t, calls[..from]).tables.profiles, id, time)
    ensures HasTime(Play(t, calls[..n]).tables.profiles, id, time)
    decreases n
  {
    if from < n {
      PrefixDidNotThrow(t, calls, n - 1);
      TimeStaysUntil(t, calls, from, n - 1, id, time);
      TimeStays(t, calls, n - 1, calls[n - 1].profile, calls[n - 1].now, id, time);
    }
  }

  lemma {:induction false} EarlierDidNotThrow(t: Tables, calls: seq<Call>, m: nat, n: nat)
    requires m <= n <= |calls| && !Play(t, calls[..n]).threw
    ensures !Play(t, calls[..m]).threw
    decreases n
  {
    if m < n {
      PrefixDidNotThrow(t, calls, n - 1);
      EarlierDidNotThrow(t, calls, m, n - 1);
    }
  }

  lemma NewProfileTime(t: Tables, calls: seq<Call>, ps: seq<Profile>, i: nat, now: nat)
    requires NewProfile(t, ps, i) && |calls| == |ps| && forall k :: i <= k < |calls| ==> calls[k].UpsertProfile?
    requires calls[i] == UpsertProfile(ps[i], now) && !Play(t, calls).threw
    requires UpsertedSoFar(t, Play(t, calls[..i]), ps, i)
    ensures HasTime(Play(t, calls).tables.profiles, ps[i].id, now)
  {
    assert calls[..|calls|] == calls;
    EarlierDidNotThrow(t, calls, i + 1, |calls|);
    TimeIsSet(t, calls, ps, i, now);
    TimeStaysUntil(t, calls, i + 1, |calls|, ps[i].id, now);
  }

  /** Profile upserts leave the channels alone, also when they are cut short. */
  lemma {:induction false} ProfileCallsKeepChannels(t: Tables, ps: seq<Profile>, clock: nat -> nat, start: nat, n: nat)
    requires n <= |ps|
    ensures Play(t, ProfileCalls(ps, clock, start)[..n]).tables.channels == t.channels
    decreases n
  {
    if n > 0 {
      ProfileCallsKeepChannels(t, ps, clock, start, n - 1);
      PlayNext(t, ProfileCalls(ps, clock, start), n - 1);
    }
  }

  /** The store between the two upsert loops, and the store after them. */
  lemma LoopByLoop(t: Tables, payload: Payload, required: Registry, clock: nat -> nat) returns (u: Tables, v: Tables)
    requires Rule(payload, required) && !Upserted(t, payload, clock).threw
    ensures Play(t, ChannelCalls(payload.channels, clock)) == Result(u, false)
    ensures Play(u, ProfileCalls(payload.profiles, clock, |payload.channels|)) == Result(v, false)
    ensures v == Upserted(t, payload, clock).tables && v.channels == u.channels
    ensures u.profiles == t.profiles && RefsIn(u, payload.profiles)
  {
    var cs, ps := payload.channels, payload.profiles;
    var a, b := ChannelCalls(cs, clock), ProfileCalls(ps, clock, |cs|);
    assert a[..|cs|] == a && b[..|ps|] == b && cs[..|cs|] == cs;
    AfterChannelUpserts(t, cs, clock, |cs|);
    PlayConcat(t, a, b);
    u := Play(t, a).tables;
    v := Play(u, b).tables;
    PayloadRefsIn(t, payload, required, u);
    ProfileCallsKeepChannels(u, ps, clock, |cs|, |ps|);
  }

  /** A completed PUT is the channel loop, the profile loop and the sweep. */
  lemma LoopsThenSweep(t: Tables, payload: Payload, required: Registry, clock: nat -> nat)
      returns (u: Tables, v: Tables, w: Tables)
    requires Rule(payload, required) && !Play(t, PutCalls(t, payload, clock)).threw
    ensures w == Play(t, PutCalls(t, payload, clock)).tables && w == Swept(t, v, payload)
    ensures Play(t, ChannelCalls(payload.channels, clock)) == Result(u, false)
    ensures Play(u, ProfileCalls(payload.profiles, clock, |payload.channels|)) == Result(v, false)
    ensures v.channels == u.channels && u.profiles == t.profiles && RefsIn(u, payload.profiles)
  {
    PutIsUpsertsThenDeletions(t, payload, clock);
    u, v := LoopByLoop(t, payload, required, clock);
    w := Swept(t, v, payload);
  }

  lemma PayloadRefsIn(t: Tables, payload: Payload, required: Registry, u: Tables)
    requires Rule(payload, required) && ChannelsOf(u.channels) == ChannelsOf(t.channels) + ById(payload.channels)
    ensures RefsIn(u, payload.profiles)
  {
    ByIdLooksUp(payload.channels);
    forall p, ref | p in payload.profiles && ref in p.defaults ensures ref in u.channels {
      assert EnabledIn(payload.channels, ref);
      assert ref in ChannelsOf(u.channels);
    }
  }

  /** A channel row that a completed PUT creates has the time of its own call. */
  lemma NewChannelRowTime(t: Tables, payload: Payload, required: Registry, clock: nat -> nat, i: nat)
    requires Rule(payload, required) && !Play(t, PutCalls(t, payload, clock)).threw && NewChannel(t, payload.channels, i)
    ensures var rows, id := Play(t, PutCalls(t, payload, clock)).tables.channels, payload.channels[i].id;
      id in rows && rows[id].createdAt == clock(i)
  {
    var cs := payload.channels;
    var u, v, w := LoopsThenSweep(t, payload, required, clock);
    assert ChannelCalls(cs, clock)[..|cs|] == ChannelCalls(cs, clock);
    NewChannelTime(t, cs, clock, i, |cs|);
    assert cs[i] in cs && cs[i].id in ChannelIds(cs);
  }

  lemma SweepKeepsTime(t: Tables, v: Tables, payload: Payload, i: nat, time: nat)
    requires i < |payload.profiles| && HasTime(v.profiles, payload.profiles[i].id, time)
    ensures HasTime(Swept(t, v, payload).profiles, payload.profiles[i].id, time)
  {
    assert payload.profiles[i] in payload.profiles;
    assert payload.profiles[i].id in ProfileIds(payload.profiles);
  }

  lemma AllProfilesTime(u: Tables, ps: seq<Profile>, clock: nat -> nat, start: nat, i: nat, v: Tables)
    requires NewProfile(u, ps, i) && RefsIn(u, ps) && Play(u, ProfileCalls(ps, clock, start)) == Result(v, false)
    ensures HasTime(v.profiles, ps[i].id, clock(start + i))
  {
    var calls := ProfileCalls(ps, clock, start);
    AfterProfileUpserts(u, ps, clock, start, i);
    NewProfileTime(u, calls, ps, i, clock(start + i));
  }

  lemma SweptProfileTime(t: Tables, u: Tables, v: Tables, payload: Payload, clock: nat -> nat, i: nat)
    requires NewProfile(t, payload.profiles, i) && RefsIn(u, payload.profiles) && u.profiles == t.profiles
    requires Play(u, ProfileCalls(payload.profiles, clock, |payload.channels|)) == Result(v, false)
    ensures HasTime(Swept(t, v, payload).profiles, payload.profiles[i].id, clock(|payload.channels| + i))
  {
    AllProfilesTime(u, payload.profiles, clock, |payload.channels|, i, v);
    SweepKeepsTime(t, v, payload, i, clock(|payload.channels| + i));
  }

  /** A profile row likewise, the calls counted over both loops. */
  lemma NewProfileRowTime(t: Tables, payload: Payload, required: Registry, clock: nat -> nat, i: nat)
    requires Rule(payload, required) && !Play(t, PutCalls(t, payload, clock)).threw && NewProfile(t, payload.profiles, i)
    ensures HasTime(Play(t, PutCalls(t, payload, clock)).tables.profiles, payload.profiles[i].id, clock(|payload.channels| + i))
  {
    var u, v, w := LoopsThenSweep(t, payload, required, clock);
    SweptProfileTime(t, u, v, payload, clock, i);
  }

  /** Every entry of the payload is in the requested store as it stands there. */
  ghost predicate HeldAsIs(ps: seq<Profile>) {
    forall p :: p in ps ==> p.id in PlainById(ps) && PlainById(ps)[p.id] == PlainOf(p)
  }

  /** With distinct profile ids, each profile of the payload is in the requested store as is. */
  lemma RequestedIsExact(ps: seq<Profile>)
    requires DistinctBy(ps, ProfileId)
    ensures HeldAsIs(ps) && PlainById(ps).Keys == ProfileIds(ps)
  {
    PlainByIdLooksUp(ps);
    forall p | p in ps ensures p.id in PlainById(ps) && PlainById(ps)[p.id] == PlainOf(p) {
      var i :| 0 <= i < |ps| && ps[i] == p;
      assert forall k :: i < k < |ps| ==> ProfileId(ps[k]) != ProfileId(ps[i]);
      LastCounts(ps, i);
    }
  }

  /** A valid payload is held entry by entry exactly when it repeats no profile id. */
  lemma RequestedExactIff(payload: Payload, required: Registry)
    requires Rule(payload, required)
    ensures HeldAsIs(payload.profiles) <==> DistinctBy(payload.profiles, ProfileId)
  {
    var ps := payload.profiles;
    if DistinctBy(ps, ProfileId) {
      RequestedIsExact(ps);
    } else {
      var i, j :| 0 <= i < j < |ps| && ProfileId(ps[i]) == ProfileId(ps[j]);
      assert ps[i] in ps && ps[j] in ps && PlainOf(ps[i]) != PlainOf(ps[j]);
    }
  }

  // ------------------------------------- validity alone does not suffice

  /**
   * A valid payload that exchanges two tokens throws, and the same valid configuration can
   * complete in one order of its profiles and throw in the other.
   */
  lemma ValidPutCanThrow(required: Registry, clock: nat -> nat)
    ensures var t := TwoProfiles();
      var a, b, b' := Profile("a", "A", "y", []), Profile("b", "B", "x", []), Profile("b", "B", "z", []);
      && Integrity(t)
      && Rule(Payload([], [a, b]), required) && Play(t, PutCalls(t, Payload([], [a, b]), clock)).threw
      && Rule(Payload([], [a, b']), required) && Play(t, PutCalls(t, Payload([], [a, b']), clock)).threw
      && Rule(Payload([], [b', a]), required) && !Play(t, PutCalls(t, Payload([], [b', a]), clock)).threw
  {
    var a, b, b' := Profile("a", "A", "y", []), Profile("b", "B", "x", []), Profile("b", "B", "z", []);
    TokenStillHeld(a, b, required, clock);
    TokenStillHeld(a, b', required, clock);
    TokenReleasedFirst(b', a, required, clock);
  }

  ghost function TwoProfiles(): Tables {
    Tables(map[], map["a" := ProfileRow("A", "x", 0), "b" := ProfileRow("B", "y", 0)], {})
  }

  lemma TokenStillHeld(a: Profile, b: Profile, required: Registry, clock: nat -> nat)
    requires a == Profile("a", "A", "y", []) && b.token != "y" && b.defaults == []
    ensures Rule(Payload([], [a, b]), required)
    ensures Play(TwoProfiles(), PutCalls(TwoProfiles(), Payload([], [a, b]), clock)).threw
  {
    var t, ps := TwoProfiles(), [a, b];
    PutTheorem(t, Payload([], ps), required, clock);
    assert "b" in t.profiles && t.profiles["b"].token == ps[0].token && "b" != ps[0].id;
    assert ps[..0] == [];
    assert !NoClash(t, ps, 0);
  }

  lemma TokenReleasedFirst(b: Profile, a: Profile, required: Registry, clock: nat -> nat)
    requires b == Profile("b", "B", "z", []) && a == Profile("a", "A", "y", [])
    ensures Rule(Payload([], [b, a]), required)
    ensures !Play(TwoProfiles(), PutCalls(TwoProfiles(), Payload([], [b, a]), clock)).threw
  {
    var t, ps := TwoProfiles(), [b, a];
    PutTheorem(t, Payload([], ps), required, clock);
    assert NoClash(t, ps, 0);
    assert b in ps[..1];
    assert NoClash(t, ps, 1);
  }
}
