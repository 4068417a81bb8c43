/**
 * The repositories as objects over one mutable database. Each method's contract is the
 * corresponding call of module Store.
 */
module Repositories {
  import opened Options
  import opened ConfigTypes
  import opened Ordering
  import opened Store

  class Database {
    var channels: map<string, ChannelRow>
    var profiles: map<string, ProfileRow>
    var links: set<(string, string)>

    constructor ()
      ensures View() == Tables(map[], map[], {})
    {
      channels, profiles, links := map[], map[], {};
    }

    function View(): Tables
      reads this
    {
      Tables(channels, profiles, links)
    }
  }

  /** `cascades` is true of SQLite with foreign keys on, and may be false of another store. */
  class ChannelRepository {
    const db: Database
    const cascades: bool

    constructor (db: Database, cascades: bool)
      ensures this.db == db && this.cascades == cascades
    {
      this.db := db;
      this.cascades := cascades;
    }

    /** Every row once, oldest first, rows of one time by id. */
    method List() returns (r: seq<Channel>)
      ensures r == ListChannels(db.View())
      ensures forall c :: c in r <==> c.id in db.channels && c == Channel(c.id, db.channels[c.id].caption,
        db.channels[c.id].kind, db.channels[c.id].enabled, db.channels[c.id].config)
      ensures forall i, j :: 0 <= i < j < |r| ==>
        r[i].id != r[j].id && Precedes(db.channels[r[i].id].createdAt, r[i].id, db.channels[r[j].id].createdAt, r[j].id)
    {
      var ids := SortIds(ChannelTimes(db.View()));
      OrderedIsListing(ChannelTimes(db.View()), ChannelTimes(db.View()).Keys);
      r := [];
      for i := 0 to |ids|
        invariant r == ListChannels(db.View())[..i]
      {
        assert ids[i] in ids;
        r := r + [ChannelAt(db.View(), ids[i])];
      }
      ListChannelsIsTable(db.View());
      ChannelsListedInOrder(db.View());
    }

    /** The enabled rows of that listing, in its order. */
    method ListEnabled() returns (r: seq<Channel>)
      ensures r == EnabledOnly(ListChannels(db.View()))
      ensures forall c :: c in r <==> c.enabled && c.id in db.channels && c == Channel(c.id, db.channels[c.id].caption,
        db.channels[c.id].kind, db.channels[c.id].enabled, db.channels[c.id].config)
      ensures forall i, j :: 0 <= i < j < |r| ==>
        r[i].id != r[j].id && Precedes(db.channels[r[i].id].createdAt, r[i].id, db.channels[r[j].id].createdAt, r[j].id)
    {
      var cs := List();
      r := [];
      for i := 0 to |cs|
        invariant r == EnabledOnly(cs[..i])
      {
        assert cs[..i + 1][..i] == cs[..i];
        if cs[i].enabled {
          r := r + [cs[i]];
        }
      }
      assert cs[..|cs|] == cs;
      EnabledOnlyIs(cs);
      EnabledInOrder(db.View(), cs);
    }

    method Get(id: string) returns (r: Option<Channel>)
      ensures r == if id in db.channels then Some(ChannelAt(db.View(), id)) else None
      ensures r.Some? <==> id in db.channels
      ensures r.Some? ==> var row := db.channels[id];
        r.value == Channel(id, row.caption, row.kind, row.enabled, row.config)
    {
      return if id in db.channels then Some(ChannelAt(db.View(), id)) else None;
    }

    /** A new row gets the time of the call, an old one keeps its own; nothing else changes. */
    method Upsert(c: Channel, now: nat)
      modifies db
      ensures db.channels == old(db.channels)[c.id := ChannelRow(c.caption, c.kind, c.enabled, c.config,
        if c.id in old(db.channels) then old(db.channels[c.id].createdAt) else now)]
      ensures db.profiles == old(db.profiles) && db.links == old(db.links)
      ensures Result(db.View(), false) == Apply(old(db.View()), UpsertChannel(c, now))
    {
      db.channels := db.channels[c.id := RowOf(c, db.channels, now)];
    }

    /** With a cascade the foreign key takes the links to the channel along. */
    method Delete(id: string)
      modifies db
      ensures db.channels == old(db.channels) - {id} && db.profiles == old(db.profiles)
      ensures db.links == if cascades then set l | l in old(db.links) && l.1 != id else old(db.links)
      ensures cascades ==> Result(db.View(), false) == Apply(old(db.View()), DeleteChannel(id))
      ensures !cascades ==> db.View() == old(db.View()).(channels := old(db.channels) - {id})
    {
      db.channels := db.channels - {id};
      if cascades {
        db.links := set l | l in db.links && l.1 != id;
      }
    }
  }

  class ProfileRepository {
    const db: Database

    constructor (db: Database)
      ensures this.db == db
    {
      this.db := db;
    }

    method DefaultChannelsFor(id: string) returns (refs: seq<string>)
      ensures refs == ListDefaults(db.View(), id)
      ensures forall ref :: ref in refs <==> (id, ref) in db.links
      ensures forall i, j :: 0 <= i < j < |refs| ==> refs[i] != refs[j] && DictionaryBefore(refs[i], refs[j])
    {
      ListDefaultsIsSet(db.View(), id);
      DefaultsListedInOrder(db.View(), id);
      OrderedIsListing(NoTimes(DefaultIds(db.links, id)), DefaultIds(db.links, id));
      refs := SortIds(NoTimes(DefaultIds(db.links, id)));
      assert NoTimes(DefaultIds(db.links, id)).Keys == DefaultIds(db.links, id);
    }

    method RowToRecord(id: string) returns (p: Profile)
      requires id in db.profiles
      ensures p == ProfileAt(db.View(), id)
      ensures p.id == id && p.name == db.profiles[id].name && p.token == db.profiles[id].token
    {
      var refs := DefaultChannelsFor(id);
      return Profile(id, db.profiles[id].name, db.profiles[id].token, refs);
    }

    /** Every row once with its sorted defaults, oldest first, rows of one time by id. */
    method List() returns (r: seq<Profile>)
      ensures r == ListProfiles(db.View())
      ensures forall id :: id in db.profiles <==> exists p :: p in r && p.id == id
      ensures forall p :: p in r ==> p.id in db.profiles && p.name == db.profiles[p.id].name && p.token == db.profiles[p.id].token
      ensures forall p, ref :: p in r ==> (ref in p.defaults <==> (p.id, ref) in db.links)
      ensures forall i, j :: 0 <= i < j < |r| ==>
        r[i].id != r[j].id && Precedes(db.profiles[r[i].id].createdAt, r[i].id, db.profiles[r[j].id].createdAt, r[j].id)
    {
      var ids := SortIds(ProfileTimes(db.View()));
      OrderedIsListing(ProfileTimes(db.View()), ProfileTimes(db.View()).Keys);
      r := [];
      for i := 0 to |ids|
        invariant r == ListProfiles(db.View())[..i]
      {
        assert ids[i] in ids;
        var p := RowToRecord(ids[i]);
        r := r + [p];
      }
      ListedProfilesAre(db.View());
      ProfilesListedInOrder(db.View());
    }

    method Get(id: string) returns (r: Option<Profile>)
      ensures r == if id in db.profiles then Some(ProfileAt(db.View(), id)) else None
    {
      if id !in db.profiles {
        return None;
      }
      var p := RowToRecord(id);
      return Some(p);
    }

    /** The one profile holding the token; an empty token never resolves. */
    method ResolveByToken(token: string) returns (r: Option<Profile>)
      requires Integrity(db.View())
      ensures r.Some? <==> token != "" && exists id :: id in db.profiles && db.profiles[id].token == token
      ensures r.Some? ==> r.value.id in db.profiles && r.value == ProfileAt(db.View(), r.value.id) && r.value.token == token
      ensures r.Some? ==> forall id :: id in db.profiles && db.profiles[id].token == token ==> id == r.value.id
    {
      if token == "" || !exists id :: id in db.profiles && db.profiles[id].token == token {
        return None;
      }
      var id :| id in db.profiles && db.profiles[id].token == token;
      var p := RowToRecord(id);
      return Some(p);
    }

    /**
     * Delete-then-insert. An insert for a profile that has no row violates a foreign key;
     * references to channels that do not exist are skipped, not an error.
     */
    method ReplaceDefaultChannels(id: string, refs: seq<string>) returns (threw: bool)
      modifies db`links
      ensures threw <==> id !in db.profiles && exists ref :: ref in refs && ref in db.channels
      ensures !threw ==> db.links == Relinked(old(db.View()), id, refs)
      ensures !threw ==> forall l :: l in db.links <==>
        (l.0 != id && l in old(db.links)) || (l.0 == id && l.1 in refs && l.1 in db.channels)
    {
      ghost var t := db.View();
      db.links := set l | l in db.links && l.0 != id;
      for i := 0 to |refs|
        invariant db.links == Relinked(t, id, refs[..i])
        invariant id in db.profiles || forall j :: 0 <= j < i ==> refs[j] !in db.channels
      {
        if refs[i] in db.channels {
          if id !in db.profiles {
            return true;
          }
          db.links := db.links + {(id, refs[i])};
        }
        assert refs[..i + 1] == refs[..i] + [refs[i]];
      }
      assert refs[..|refs|] == refs;
      return false;
    }

    /**
     * Refused with nothing changed when another row holds the token. Otherwise the row is
     * written, a new one with the time of the call, and the profile's links are those of its
     * references that have a channel.
     */
    method Upsert(p: Profile, now: nat) returns (threw: bool)
      modifies db
      ensures threw <==> exists q :: q in old(db.profiles) && q != p.id && old(db.profiles)[q].token == p.token
      ensures db.channels == old(db.channels)
      ensures threw ==> db.profiles == old(db.profiles) && db.links == old(db.links)
      ensures !threw ==> db.profiles == old(db.profiles)[p.id := ProfileRow(p.name, p.token,
        if p.id in old(db.profiles) then old(db.profiles[p.id].createdAt) else now)]
      ensures !threw ==> forall l :: l in db.links <==>
        (l.0 != p.id && l in old(db.links)) || (l.0 == p.id && l.1 in p.defaults && l.1 in db.channels)
      ensures Result(db.View(), threw) == Apply(old(db.View()), UpsertProfile(p, now))
    {
      if exists q :: q in db.profiles && q != p.id && db.profiles[q].token == p.token {
        return true;
      }
      var createdAt := if p.id in db.profiles then db.profiles[p.id].createdAt else now;
      db.profiles := db.profiles[p.id := ProfileRow(p.name, p.token, createdAt)];
      threw := ReplaceDefaultChannels(p.id, p.defaults);
    }

    method Delete(id: string)
      modifies db
      ensures db.profiles == old(db.profiles) - {id} && db.channels == old(db.channels)
      ensures db.links == set l | l in old(db.links) && l.0 != id
      ensures Result(db.View(), false) == Apply(old(db.View()), DeleteProfile(id))
    {
      db.profiles := db.profiles - {id};
      db.links := set l | l in db.links && l.0 != id;
    }

    /** A failed replacement is rolled back with its transaction. */
    method SetDefaultChannels(id: string, refs: seq<string>) returns (threw: bool)
      modifies db
      ensures db.channels == old(db.channels) && db.profiles == old(db.profiles)
      ensures threw <==> id !in db.profiles && exists ref :: ref in refs && ref in db.channels
      ensures threw ==> db.links == old(db.links)
      ensures !threw ==> forall l :: l in db.links <==>
        (l.0 != id && l in old(db.links)) || (l.0 == id && l.1 in refs && l.1 in db.channels)
      ensures Result(db.View(), threw) == Apply(old(db.View()), SetDefaults(id, refs))
    {
      var before := db.links;
      threw := ReplaceDefaultChannels(id, refs);
      if threw {
        db.links := before;
      }
    }
  }

  function EnabledOnly(cs: seq<Channel>): seq<Channel> {
    if cs == [] then []
    else EnabledOnly(cs[..|cs| - 1]) + if cs[|cs| - 1].enabled then [cs[|cs| - 1]] else []
  }

  lemma {:induction false} EnabledOnlyIs(cs: seq<Channel>)
    ensures forall c :: c in EnabledOnly(cs) <==> c in cs && c.enabled
    decreases |cs|
  {
    if cs != [] {
      var n := |cs| - 1;
      EnabledOnlyIs(cs[..n]);
      assert cs == cs[..n] + [cs[n]];
    }
  }

  /** What holds of every two entries of a list in order holds of its enabled ones. */
  lemma {:induction false} EnabledPairs(cs: seq<Channel>, related: (Channel, Channel) -> bool) returns (r: seq<Channel>)
    requires forall i, j :: 0 <= i < j < |cs| ==> related(cs[i], cs[j])
    ensures r == EnabledOnly(cs) && forall i, j :: 0 <= i < j < |r| ==> related(r[i], r[j])
    decreases |cs|
  {
    if cs == [] {
      r := [];
    } else {
      var n := |cs| - 1;
      var init := EnabledPairs(cs[..n], related);
      EnabledOnlyIs(cs[..n]);
      r := init + if cs[n].enabled then [cs[n]] else [];
      forall i | 0 <= i < |init| ensures related(init[i], cs[n]) {
        assert init[i] in init;
        var k :| 0 <= k < n && cs[..n][k] == init[i];
        assert cs[k] == init[i];
      }
    }
  }

  /** Channel a is listed before channel b. */
  ghost predicate ListedBefore(t: Tables, a: Channel, b: Channel) {
    && a.id in t.channels && b.id in t.channels && a.id != b.id
    && Precedes(t.channels[a.id].createdAt, a.id, t.channels[b.id].createdAt, b.id)
  }

  lemma EnabledInOrder(t: Tables, cs: seq<Channel>)
    requires cs == ListChannels(t)
    ensures var r := EnabledOnly(cs); forall i, j :: 0 <= i < j < |r| ==> ListedBefore(t, r[i], r[j])
  {
    ListChannelsIsTable(t);
    ChannelsListedInOrder(t);
    var r := EnabledPairs(cs, (a: Channel, b: Channel) => ListedBefore(t, a, b));
  }

  lemma ListedProfilesAre(t: Tables)
    ensures var r := ListProfiles(t);
      && (forall id :: id in t.profiles <==> exists p :: p in r && p.id == id)
      && (forall p :: p in r ==> p.id in t.profiles && p.name == t.profiles[p.id].name && p.token == t.profiles[p.id].token)
      && (forall p, ref :: p in r ==> (ref in p.defaults <==> (p.id, ref) in t.links))
      && forall i, j :: 0 <= i < j < |r| ==> r[i].id != r[j].id
  {
    ListProfilesIsTable(t);
    var r := ListProfiles(t);
    forall id | id in t.profiles ensures exists p :: p in r && p.id == id {
      assert ProfileAt(t, id) in r && ProfileAt(t, id).id == id;
    }
    forall p, ref | p in r ensures ref in p.defaults <==> (p.id, ref) in t.links {
      ListDefaultsIsSet(t, p.id);
    }
  }
}
