/**
 * The SQLite store: three tables with their primary-key, unique and foreign-key
 * constraints, the calls the repositories make on them, and how they are listed.
 */
module Store {
  import opened ConfigTypes
  import opened Ordering

  datatype ChannelRow = ChannelRow(
    caption: string, kind: string, enabled: bool, config: map<string, string>, createdAt: nat)

  datatype ProfileRow = ProfileRow(name: string, token: string, createdAt: nat)

  /** `links` holds (profile id, channel id) pairs. Keys of a map are its primary key. */
  datatype Tables = Tables(
    channels: map<string, ChannelRow>,
    profiles: map<string, ProfileRow>,
    links: set<(string, string)>)

  /** UNIQUE(token) and both foreign keys. */
  ghost predicate Integrity(t: Tables) {
    && (forall p, q :: p in t.profiles && q in t.profiles && p != q ==> t.profiles[p].token != t.profiles[q].token)
    && (forall l :: l in t.links ==> l.0 in t.profiles && l.1 in t.channels)
  }

  // ----------------------------------------------------- repository calls

  datatype Call =
    | UpsertChannel(channel: Channel, now: nat)
    | DeleteChannel(id: string)
    | UpsertProfile(profile: Profile, now: nat)
    | DeleteProfile(id: string)
    | SetDefaults(profileId: string, refs: seq<string>)

  /** `threw` is a constraint violation; the call's transaction has been rolled back. */
  datatype Result = Result(tables: Tables, threw: bool)

  /** Another row already holds the token. */
  predicate TokenTaken(profiles: map<string, ProfileRow>, id: string, token: string) {
    exists q :: q in profiles && q != id && profiles[q].token == token
  }

  /** The links of one profile replaced by its references that exist. */
  function Relinked(t: Tables, id: string, refs: seq<string>): set<(string, string)> {
    (set l | l in t.links && l.0 != id) + (set ref | ref in refs && ref in t.channels :: (id, ref))
  }

  function RowOf(c: Channel, rows: map<string, ChannelRow>, now: nat): ChannelRow {
    ChannelRow(c.caption, c.kind, c.enabled, c.config, if c.id in rows then rows[c.id].createdAt else now)
  }

  function Apply(t: Tables, call: Call): Result {
    match call
    case UpsertChannel(c, now) => Result(t.(channels := t.channels[c.id := RowOf(c, t.channels, now)]), false)
    case DeleteChannel(id) =>
      Result(t.(channels := t.channels - {id}, links := set l | l in t.links && l.1 != id), false)
    case UpsertProfile(p, now) =>
      if TokenTaken(t.profiles, p.id, p.token) then Result(t, true)
      else
        var createdAt := if p.id in t.profiles then t.profiles[p.id].createdAt else now;
        Result(t.(profiles := t.profiles[p.id := ProfileRow(p.name, p.token, createdAt)],
                  links := Relinked(t, p.id, p.defaults)), false)
    case DeleteProfile(id) =>
      Result(t.(profiles := t.profiles - {id}, links := set l | l in t.links && l.0 != id), false)
    case SetDefaults(id, refs) =>
      if id !in t.profiles && exists ref :: ref in refs && ref in t.channels then Result(t, true)
      else Result(t.(links := Relinked(t, id, refs)), false)
  }

  /** Calls in order, up to and including the first that throws. */
  function Play(t: Tables, calls: seq<Call>): Result {
    if calls == [] then Result(t, false)
    else
      var r := Play(t, calls[..|calls| - 1]);
      if r.threw then r else Apply(r.tables, calls[|calls| - 1])
  }

  lemma ApplyKeepsIntegrity(t: Tables, call: Call)
    requires Integrity(t)
    ensures Integrity(Apply(t, call).tables)
  {
    var u := Apply(t, call).tables;
    forall l | l in u.links ensures l.0 in u.profiles && l.1 in u.channels {
      assert l in t.links || l.0 in u.profiles;
    }
  }

  /** Between any two calls, and after a sequence cut short by a throw, the constraints hold. */
  lemma {:induction false} PlayKeepsIntegrity(t: Tables, calls: seq<Call>, k: nat)
    requires Integrity(t) && k <= |calls|
    ensures Integrity(Play(t, calls[..k]).tables)
    decreases k
  {
    if k > 0 {
      PlayKeepsIntegrity(t, calls, k - 1);
      assert calls[..k][..k - 1] == calls[..k - 1];
      var r := Play(t, calls[..k - 1]);
      ApplyKeepsIntegrity(r.tables, calls[k - 1]);
    }
  }

  lemma {:induction false} PlayConcat(t: Tables, a: seq<Call>, b: seq<Call>)
    ensures Play(t, a + b) == if Play(t, a).threw then Play(t, a) else Play(Play(t, a).tables, b)
    decreases |b|
  {
    if b == [] {
      assert a + b == a;
    } else {
      var n := |b| - 1;
      assert (a + b)[..|a + b| - 1] == a + b[..n];
      PlayConcat(t, a, b[..n]);
    }
  }

  lemma PlayNext(t: Tables, calls: seq<Call>, k: nat)
    requires k < |calls|
    ensures Play(t, calls[..k + 1])
         == if Play(t, calls[..k]).threw then Play(t, calls[..k]) else Apply(Play(t, calls[..k]).tables, calls[k])
  {
    assert calls[..k + 1][..k] == calls[..k];
  }

  /** A throw ends the sequence: whatever follows changes nothing. */
  lemma ThrowEnds(t: Tables, calls: seq<Call>, k: nat)
    requires k <= |calls| && Play(t, calls[..k]).threw
    ensures Play(t, calls) == Play(t, calls[..k])
  {
    assert calls == calls[..k] + calls[k..];
    PlayConcat(t, calls[..k], calls[k..]);
  }

  /** The first call that throws changes nothing and is the last one made. */
  lemma StopsAt(t: Tables, calls: seq<Call>, k: nat)
    requires k < |calls| && !Play(t, calls[..k]).threw && Play(t, calls[..k + 1]).threw
    ensures Play(t, calls) == Result(Play(t, calls[..k]).tables, true)
  {
    PlayNext(t, calls, k);
    ThrowEnds(t, calls, k + 1);
  }

  lemma StopsAfter(t: Tables, calls: seq<Call>, before: seq<Call>, k: nat)
    requires k < |calls| && calls[..k] == before && !Play(t, before).threw && Play(t, calls[..k + 1]).threw
    ensures Play(t, calls) == Result(Play(t, before).tables, true)
  {
    StopsAt(t, calls, k);
  }

  /** One more call of a sequence: what it leaves, and that a throw is the end of it. */
  lemma PlayOn(t: Tables, calls: seq<Call>, i: nat, u: Tables, r: Result)
    requires i < |calls| && Play(t, calls[..i]) == Result(u, false) && r == Apply(u, calls[i])
    ensures Play(t, calls[..i + 1]) == r
    ensures r.threw ==> Play(t, calls) == r
  {
    PlayNext(t, calls, i);
    if r.threw {
      ThrowEnds(t, calls, i + 1);
    }
  }

  // ------------------------------------------------------------- listings

  function AsChannel(id: string, row: ChannelRow): Channel {
    Channel(id, row.caption, row.kind, row.enabled, row.config)
  }

  function ChannelAt(t: Tables, id: string): Channel
    requires id in t.channels
  {
    AsChannel(id, t.channels[id])
  }

  function DefaultIds(links: set<(string, string)>, id: string): set<string> {
    set l | l in links && l.0 == id :: l.1
  }

  function ChannelTimes(t: Tables): map<string, nat> {
    map id | id in t.channels :: t.channels[id].createdAt
  }

  function ProfileTimes(t: Tables): map<string, nat> {
    map id | id in t.profiles :: t.profiles[id].createdAt
  }

  /** Default channels come back ordered by channel id alone. */
  function NoTimes(ids: set<string>): map<string, nat> {
    map id | id in ids :: 0
  }

  ghost function ListDefaults(t: Tables, id: string): seq<string> {
    Ordered(NoTimes(DefaultIds(t.links, id)), DefaultIds(t.links, id))
  }

  ghost function ProfileAt(t: Tables, id: string): Profile
    requires id in t.profiles
  {
    Profile(id, t.profiles[id].name, t.profiles[id].token, ListDefaults(t, id))
  }

  ghost function ChannelOrder(t: Tables): seq<string> {
    Ordered(ChannelTimes(t), ChannelTimes(t).Keys)
  }

  ghost function ProfileOrder(t: Tables): seq<string> {
    Ordered(ProfileTimes(t), ProfileTimes(t).Keys)
  }

  ghost function ListChannels(t: Tables): (r: seq<Channel>) {
    OrderedIsListing(ChannelTimes(t), ChannelTimes(t).Keys);
    seq(|ChannelOrder(t)|, i requires 0 <= i < |ChannelOrder(t)| && ChannelOrder(t)[i] in t.channels =>
      ChannelAt(t, ChannelOrder(t)[i]))
  }

  ghost function ListProfiles(t: Tables): (r: seq<Profile>) {
    OrderedIsListing(ProfileTimes(t), ProfileTimes(t).Keys);
    seq(|ProfileOrder(t)|, i requires 0 <= i < |ProfileOrder(t)| && ProfileOrder(t)[i] in t.profiles =>
      ProfileAt(t, ProfileOrder(t)[i]))
  }

  /** A channel listing is the table: each row once, and nothing else. */
  lemma ListChannelsIsTable(t: Tables)
    ensures forall c :: c in ListChannels(t) <==> c.id in t.channels && c == ChannelAt(t, c.id)
    ensures forall i, j :: 0 <= i < j < |ListChannels(t)| ==> ListChannels(t)[i].id != ListChannels(t)[j].id
  {
    OrderedIsListing(ChannelTimes(t), ChannelTimes(t).Keys);
    var ids, r := ChannelOrder(t), ListChannels(t);
    forall c ensures c in r <==> c.id in t.channels && c == ChannelAt(t, c.id) {
      if c.id in t.channels && c == ChannelAt(t, c.id) {
        assert c.id in ids;
        var i :| 0 <= i < |ids| && ids[i] == c.id;
        assert r[i] == c;
      }
    }
  }

  lemma ListDefaultsIsSet(t: Tables, id: string)
    ensures forall ref :: ref in ListDefaults(t, id) <==> (id, ref) in t.links
  {
    OrderedIsListing(NoTimes(DefaultIds(t.links, id)), DefaultIds(t.links, id));
  }

  lemma ListProfilesIsTable(t: Tables)
    ensures forall p :: p in ListProfiles(t) <==> p.id in t.profiles && p == ProfileAt(t, p.id)
    ensures forall i, j :: 0 <= i < j < |ListProfiles(t)| ==> ListProfiles(t)[i].id != ListProfiles(t)[j].id
  {
    OrderedIsListing(ProfileTimes(t), ProfileTimes(t).Keys);
    var ids, r := ProfileOrder(t), ListProfiles(t);
    forall p ensures p in r <==> p.id in t.profiles && p == ProfileAt(t, p.id) {
      if p.id in t.profiles && p == ProfileAt(t, p.id) {
        assert p.id in ids;
        var i :| 0 <= i < |ids| && ids[i] == p.id;
        assert r[i] == p;
      }
    }
  }

  /** Channels come oldest first, those of one time by id. */
  lemma ChannelsListedInOrder(t: Tables)
    ensures var r := ListChannels(t); forall i, j :: 0 <= i < j < |r| ==>
      && r[i].id in t.channels && r[j].id in t.channels
      && Precedes(t.channels[r[i].id].createdAt, r[i].id, t.channels[r[j].id].createdAt, r[j].id)
  {
    OrderedIsListing(ChannelTimes(t), ChannelTimes(t).Keys);
    var ids, r := ChannelOrder(t), ListChannels(t);
    forall i | 0 <= i < |r| ensures r[i].id == ids[i] && ids[i] in t.channels {
      assert ids[i] in ids;
    }
    forall i, j | 0 <= i < j < |r|
      ensures Precedes(t.channels[r[i].id].createdAt, r[i].id, t.channels[r[j].id].createdAt, r[j].id)
    {
      OrderedPrecedes(ChannelTimes(t), ChannelTimes(t).Keys, i, j);
    }
  }

  lemma ProfilesListedInOrder(t: Tables)
    ensures var r := ListProfiles(t); forall i, j :: 0 <= i < j < |r| ==>
      && r[i].id in t.profiles && r[j].id in t.profiles
      && Precedes(t.profiles[r[i].id].createdAt, r[i].id, t.profiles[r[j].id].createdAt, r[j].id)
  {
    OrderedIsListing(ProfileTimes(t), ProfileTimes(t).Keys);
    var ids, r := ProfileOrder(t), ListProfiles(t);
    forall i | 0 <= i < |r| ensures r[i].id == ids[i] && ids[i] in t.profiles {
      assert ids[i] in ids;
    }
    forall i, j | 0 <= i < j < |r|
      ensures Precedes(t.profiles[r[i].id].createdAt, r[i].id, t.profiles[r[j].id].createdAt, r[j].id)
    {
      OrderedPrecedes(ProfileTimes(t), ProfileTimes(t).Keys, i, j);
    }
  }

  /** Defaults come in dictionary order of the channel ids. */
  lemma DefaultsListedInOrder(t: Tables, id: string)
    ensures var r := ListDefaults(t, id); forall i, j :: 0 <= i < j < |r| ==> DictionaryBefore(r[i], r[j])
  {
    var none := NoTimes(DefaultIds(t.links, id));
    var r := ListDefaults(t, id);
    forall i, j | 0 <= i < j < |r| ensures DictionaryBefore(r[i], r[j]) {
      OrderedPrecedes(none, DefaultIds(t.links, id), i, j);
    }
  }
}
