/**
 * The PUT handler and the entity operations as code over the repositories, each proved
 * against the specification its theorems are about.
 */
module ConfigHandlers {
  import opened ConfigTypes
  import opened Ordering
  import opened Validation
  import opened Store
  import opened Repositories
  import opened PutConfig
  import opened ConfigService
  import opened EntityIsPut

  datatype Reply =
    | BadBody            // 400: not the shape of a payload
    | Refused(fault: Fault)  // 400: the first fault found
    | Unknown(id: string)
    | Saved
    | Crashed            // a constraint violation escaped the handler

  /** The wire schema: ids, types and tokens are non-empty strings. */
  predicate SchemaOk(payload: Payload) {
    && (forall c :: c in payload.channels ==> c.id != "" && c.kind != "")
    && (forall p :: p in payload.profiles ==> p.id != "" && p.token != "")
  }

  method CollectIds(existing: seq<string>, kept: set<string>) returns (gone: seq<string>)
    ensures gone == IdsToDelete(existing, kept)
  {
    gone := [];
    for i := 0 to |existing|
      invariant gone + IdsToDelete(existing[i..], kept) == IdsToDelete(existing, kept)
    {
      if existing[i] !in kept {
        gone := gone + [existing[i]];
      }
    }
  }

  lemma ListedIds(t: Tables)
    ensures |ListChannels(t)| == |ChannelOrder(t)| && |ListProfiles(t)| == |ProfileOrder(t)|
    ensures forall i :: 0 <= i < |ListChannels(t)| ==> ListChannels(t)[i].id == ChannelOrder(t)[i]
    ensures forall i :: 0 <= i < |ListProfiles(t)| ==> ListProfiles(t)[i].id == ProfileOrder(t)[i]
  {
    OrderedIsListing(ChannelTimes(t), ChannelTimes(t).Keys);
    OrderedIsListing(ProfileTimes(t), ProfileTimes(t).Keys);
    forall i | 0 <= i < |ListChannels(t)| ensures ListChannels(t)[i].id == ChannelOrder(t)[i] {
      assert ChannelOrder(t)[i] in ChannelOrder(t);
    }
    forall i | 0 <= i < |ListProfiles(t)| ensures ListProfiles(t)[i].id == ProfileOrder(t)[i] {
      assert ProfileOrder(t)[i] in ProfileOrder(t);
    }
  }

  method UpsertChannels(repo: ChannelRepository, cs: seq<Channel>, clock: nat -> nat)
    modifies repo.db
    ensures Play(old(repo.db.View()), ChannelCalls(cs, clock)) == Result(repo.db.View(), false)
  {
    ghost var t, calls := repo.db.View(), ChannelCalls(cs, clock);
    for i := 0 to |cs|
      invariant Play(t, calls[..i]) == Result(repo.db.View(), false)
    {
      PlayNext(t, calls, i);
      repo.Upsert(cs[i], clock(i));
    }
    assert calls[..|cs|] == calls;
  }

  method UpsertProfiles(repo: ProfileRepository, ps: seq<Profile>, clock: nat -> nat, start: nat) returns (threw: bool)
    modifies repo.db
    ensures Play(old(repo.db.View()), ProfileCalls(ps, clock, start)) == Result(repo.db.View(), threw)
  {
    ghost var t, calls := repo.db.View(), ProfileCalls(ps, clock, start);
    for i := 0 to |ps|
      invariant Play(t, calls[..i]) == Result(repo.db.View(), false)
    {
      ghost var before := repo.db.View();
      threw := repo.Upsert(ps[i], clock(start + i));
      PlayOn(t, calls, i, before, Result(repo.db.View(), threw));
      if threw {
        return;
      }
    }
    assert calls[..|ps|] == calls;
    return false;
  }

  method DeleteProfiles(repo: ProfileRepository, ids: seq<string>)
    modifies repo.db
    ensures Play(old(repo.db.View()), ProfileDeletions(ids)) == Result(repo.db.View(), false)
  {
    ghost var t, calls := repo.db.View(), ProfileDeletions(ids);
    for i := 0 to |ids|
      invariant Play(t, calls[..i]) == Result(repo.db.View(), false)
    {
      PlayNext(t, calls, i);
      repo.Delete(ids[i]);
    }
    assert calls[..|ids|] == calls;
  }

  method DeleteChannels(repo: ChannelRepository, ids: seq<string>)
    requires repo.cascades
    modifies repo.db
    ensures Play(old(repo.db.View()), ChannelDeletions(ids)) == Result(repo.db.View(), false)
  {
    ghost var t, calls := repo.db.View(), ChannelDeletions(ids);
    for i := 0 to |ids|
      invariant Play(t, calls[..i]) == Result(repo.db.View(), false)
    {
      PlayNext(t, calls, i);
      repo.Delete(ids[i]);
    }
    assert calls[..|ids|] == calls;
  }

  method ExistingChannelIds(repo: ChannelRepository) returns (ids: seq<string>)
    ensures ids == ChannelOrder(repo.db.View())
  {
    var cs := repo.List();
    ids := seq(|cs|, i requires 0 <= i < |cs| => cs[i].id);
    ListedIds(repo.db.View());
  }

  method ExistingProfileIds(repo: ProfileRepository) returns (ids: seq<string>)
    ensures ids == ProfileOrder(repo.db.View())
  {
    var ps := repo.List();
    ids := seq(|ps|, i requires 0 <= i < |ps| => ps[i].id);
    ListedIds(repo.db.View());
  }

  /** PUT /api/config: validate everything, then four loops of separate calls. */
  method PutHandler(channelRepo: ChannelRepository, profileRepo: ProfileRepository,
                    payload: Payload, required: Registry, clock: nat -> nat) returns (reply: Reply)
    requires channelRepo.db == profileRepo.db && channelRepo.cascades
    modifies channelRepo.db
    ensures reply == BadBody <==>
      || (exists c :: c in payload.channels && (c.id == "" || c.kind == ""))
      || (exists p :: p in payload.profiles && (p.id == "" || p.token == ""))
    ensures reply.Refused? <==> reply != BadBody && !Rule(payload, required)
    ensures reply.Refused? ==> SaysFirstFailure(payload, required, reply.fault)
    ensures reply == BadBody || reply.Refused? ==> channelRepo.db.View() == old(channelRepo.db.View())
    ensures !reply.Unknown?
    ensures reply == Saved || reply == Crashed ==>
      var before := old(channelRepo.db.View());
      Result(channelRepo.db.View(), reply == Crashed) == Play(before, PutCalls(before, payload, clock))
    ensures reply == Crashed ==> !NoClashBefore(old(channelRepo.db.View()), payload.profiles, |payload.profiles|)
    ensures reply == Saved ==>
      && NoClashBefore(old(channelRepo.db.View()), payload.profiles, |payload.profiles|)
      && ContentOf(channelRepo.db.View()) == Requested(payload)
  {
    if !SchemaOk(payload) {
      return BadBody;
    }
    var verdict := ValidateConfigPayload(payload, required);
    if verdict.Rejected? {
      return Refused(verdict.fault);
    }
    var channelIds := ExistingChannelIds(channelRepo);
    var profileIds := ExistingProfileIds(profileRepo);
    var goneProfiles := CollectIds(profileIds, ProfileIds(payload.profiles));
    var goneChannels := CollectIds(channelIds, ChannelIds(payload.channels));

    ghost var t := channelRepo.db.View();
    ghost var a, b := ChannelCalls(payload.channels, clock), ProfileCalls(payload.profiles, clock, |payload.channels|);
    ghost var c, d := ProfileDeletions(goneProfiles), ChannelDeletions(goneChannels);
    PlayConcat(t, a, b);
    PlayConcat(t, a + b, c);
    PlayConcat(t, a + b + c, d);
    PutTheorem(t, payload, required, clock);

    UpsertChannels(channelRepo, payload.channels, clock);
    var threw := UpsertProfiles(profileRepo, payload.profiles, clock, |payload.channels|);
    if threw {
      return Crashed;
    }
    DeleteProfiles(profileRepo, goneProfiles);
    DeleteChannels(channelRepo, goneChannels);
    return Saved;
  }

  /** A change is written only if the whole candidate passes; otherwise nothing is. */
  method UpsertChannelEntity(channelRepo: ChannelRepository, profileRepo: ProfileRepository,
                             c: Channel, required: Registry, now: nat) returns (reply: Reply)
    requires channelRepo.db == profileRepo.db
    modifies channelRepo.db
    ensures Result(channelRepo.db.View(), false) == Perform(old(channelRepo.db.View()), SaveChannel(c, now), required)
    ensures reply == Saved <==> Rule(ChannelCandidate(old(channelRepo.db.View()), c), required)
    ensures reply != Saved ==> reply.Refused? && SaysFirstFailure(ChannelCandidate(old(channelRepo.db.View()), c), required, reply.fault)
    ensures reply != Saved ==> channelRepo.db.View() == old(channelRepo.db.View())
    ensures reply == Saved ==>
      && channelRepo.db.channels == old(channelRepo.db.channels)[c.id := ChannelRow(c.caption, c.kind, c.enabled, c.config,
           if c.id in old(channelRepo.db.channels) then old(channelRepo.db.channels[c.id].createdAt) else now)]
      && channelRepo.db.profiles == old(channelRepo.db.profiles) && channelRepo.db.links == old(channelRepo.db.links)
  {
    var cs := channelRepo.List();
    var ps := profileRepo.List();
    var verdict := ValidateConfigPayload(Payload(UpsertedById(cs, c, ChannelId), ps), required);
    VerdictIffRule(Payload(UpsertedById(cs, c, ChannelId), ps), required);
    if verdict.Rejected? {
      return Refused(verdict.fault);
    }
    channelRepo.Upsert(c, now);
    return Saved;
  }

  /** On a store that keeps its constraints an accepted profile never hits the unique token. */
  method UpsertProfileEntity(channelRepo: ChannelRepository, profileRepo: ProfileRepository,
                             p: Profile, required: Registry, now: nat) returns (reply: Reply)
    requires channelRepo.db == profileRepo.db
    modifies channelRepo.db
    ensures Result(channelRepo.db.View(), false) == Perform(old(channelRepo.db.View()), SaveProfile(p, now), required)
    ensures reply == Saved <==> Rule(ProfileCandidate(old(channelRepo.db.View()), p), required)
    ensures reply != Saved ==> reply.Refused? && SaysFirstFailure(ProfileCandidate(old(channelRepo.db.View()), p), required, reply.fault)
    ensures reply != Saved ==> channelRepo.db.View() == old(channelRepo.db.View())
    ensures reply == Saved ==>
      && channelRepo.db.profiles == old(channelRepo.db.profiles)[p.id := ProfileRow(p.name, p.token,
           if p.id in old(channelRepo.db.profiles) then old(channelRepo.db.profiles[p.id].createdAt) else now)]
      && channelRepo.db.channels == old(channelRepo.db.channels)
      && forall l :: l in channelRepo.db.links <==>
           (l.0 != p.id && l in old(channelRepo.db.links)) || (l.0 == p.id && l.1 in p.defaults)
  {
    var cs := channelRepo.List();
    var ps := profileRepo.List();
    var verdict := ValidateConfigPayload(Payload(cs, UpsertedById(ps, p, ProfileId)), required);
    if verdict.Rejected? {
      return Refused(verdict.fault);
    }
    RefsExist(channelRepo.db.View(), p, required);
    var threw := profileRepo.Upsert(p, now);
    return Saved;
  }

  method DeleteChannelEntity(channelRepo: ChannelRepository, profileRepo: ProfileRepository, id: string)
    returns (reply: Reply)
    requires channelRepo.db == profileRepo.db && Integrity(channelRepo.db.View())
    modifies channelRepo.db
    ensures channelRepo.db.View() == (if id in old(channelRepo.db.channels)
      then Apply(old(channelRepo.db.View()), DeleteChannel(id)).tables else old(channelRepo.db.View()))
    ensures channelRepo.db.channels == old(channelRepo.db.channels) - {id} && channelRepo.db.profiles == old(channelRepo.db.profiles)
    ensures channelRepo.db.links == set l | l in old(channelRepo.db.links) && l.1 != id
    ensures reply == if id in old(channelRepo.db.channels) then Saved else Unknown(id)
  {
    var existing := channelRepo.Get(id);
    if existing.None? {
      return Unknown(id);
    }
    ghost var t := channelRepo.db.View();
    channelRepo.Delete(id);
    ghost var u := channelRepo.db.View();
    var ps := profileRepo.List();
    for i := 0 to |ps|
      invariant channelRepo.db.View() == PruneListed(u, ps, id, i) && channelRepo.db.profiles == u.profiles
    {
      if id in ps[i].defaults {
        ListedHasRow(u, i);
        var threw := profileRepo.SetDefaultChannels(ps[i].id, WithoutDefault(ps[i], id).defaults);
      }
    }
    DeletedEitherWay(t, u, id);
    return Saved;
  }

  lemma ListedHasRow(u: Tables, i: nat)
    requires i < |ListProfiles(u)|
    ensures ListProfiles(u)[i].id in u.profiles
  {
    ListProfilesIsTable(u);
    assert ListProfiles(u)[i] in ListProfiles(u);
  }

  /** With a cascade the clean-up loop finds nothing; without one it does the same work. */
  lemma DeletedEitherWay(t: Tables, u: Tables, id: string)
    requires Integrity(t)
    requires u == Apply(t, DeleteChannel(id)).tables || u == DeleteRowOnly(t, id)
    ensures PruneListed(u, ListProfiles(u), id, |ListProfiles(u)|) == Apply(t, DeleteChannel(id)).tables
  {
    if u == DeleteRowOnly(t, id) {
      ListProfilesIgnoresChannels(t, u);
      CascadeMakesNoDifference(t, id);
    } else {
      NothingToPrune(u, id, |ListProfiles(u)|);
    }
  }

  lemma ListProfilesIgnoresChannels(t: Tables, u: Tables)
    requires u.profiles == t.profiles && u.links == t.links
    ensures ListProfiles(u) == ListProfiles(t)
  {
    assert ProfileTimes(u) == ProfileTimes(t);
    OrderedIsListing(ProfileTimes(t), ProfileTimes(t).Keys);
    forall i | 0 <= i < |ListProfiles(t)| ensures ListProfiles(u)[i] == ListProfiles(t)[i] {
      assert ProfileOrder(t)[i] in ProfileOrder(t);
    }
  }

  lemma {:induction false} NothingToPrune(u: Tables, id: string, n: nat)
    requires n <= |ListProfiles(u)| && forall l :: l in u.links ==> l.1 != id
    ensures PruneListed(u, ListProfiles(u), id, n) == u
    decreases n
  {
    if n > 0 {
      NothingToPrune(u, id, n - 1);
      ListProfilesIsTable(u);
      var p := ListProfiles(u)[n - 1];
      assert p in ListProfiles(u);
      ListDefaultsIsSet(u, p.id);
    }
  }

  method DeleteProfileEntity(profileRepo: ProfileRepository, id: string) returns (reply: Reply)
    modifies profileRepo.db
    ensures profileRepo.db.View() == (if id in old(profileRepo.db.profiles)
      then Apply(old(profileRepo.db.View()), DeleteProfile(id)).tables else old(profileRepo.db.View()))
    ensures profileRepo.db.profiles == old(profileRepo.db.profiles) - {id} && profileRepo.db.channels == old(profileRepo.db.channels)
    ensures id in old(profileRepo.db.profiles) ==> profileRepo.db.links == set l | l in old(profileRepo.db.links) && l.0 != id
    ensures reply == if id in old(profileRepo.db.profiles) then Saved else Unknown(id)
  {
    var existing := profileRepo.Get(id);
    if existing.None? {
      return Unknown(id);
    }
    profileRepo.Delete(id);
    return Saved;
  }
}
