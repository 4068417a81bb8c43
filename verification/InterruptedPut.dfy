/**
 * A PUT cut short by the token constraint: what it leaves, and exactly when that is still a
 * store the validator accepts.
 */
module InterruptedPut {
  import opened ConfigTypes
  import opened Validation
  import opened Store
  import opened PutConfig
  import opened ConfigService

  /** Profile j of the payload is the first whose token another row still holds at its turn. */
  ghost predicate FirstClash(t: Tables, ps: seq<Profile>, j: nat) {
    j < |ps| && NoClashBefore(t, ps, j) && !NoClash(t, ps, j)
  }

  lemma {:induction false} FirstClashExists(t: Tables, ps: seq<Profile>, n: nat) returns (j: nat)
    requires n <= |ps| && !NoClashBefore(t, ps, n)
    ensures j < n && FirstClash(t, ps, j)
    decreases n
  {
    if NoClashBefore(t, ps, n - 1) {
      j := n - 1;
    } else {
      j := FirstClashExists(t, ps, n - 1);
    }
  }

  /** All channels upserted, the first j profiles upserted, nothing deleted. */
  ghost predicate StoppedAt(t: Tables, payload: Payload, j: nat, u: Tables)
    requires j <= |payload.profiles|
  {
    && ChannelsOf(u.channels) == ChannelsOf(t.channels) + ById(payload.channels)
    && ProfilesOf(u.profiles, u.links) == ProfilesOf(t.profiles, t.links) + PlainById(payload.profiles[..j])
    && TimesKept(t, u)
  }

  /** The two upsert loops up to, but not including, the upsert of profile j. */
  function CallsBefore(payload: Payload, clock: nat -> nat, j: nat): seq<Call>
    requires j <= |payload.profiles|
  {
    ChannelCalls(payload.channels, clock) + ProfileCalls(payload.profiles[..j], clock, |payload.channels|)
  }

  lemma CallsBeforeIsPrefix(t: Tables, payload: Payload, clock: nat -> nat, j: nat)
    requires j < |payload.profiles|
    ensures var k := |payload.channels| + j;
      && k < |PutCalls(t, payload, clock)|
      && PutCalls(t, payload, clock)[..k] == CallsBefore(payload, clock, j)
      && PutCalls(t, payload, clock)[..k + 1] == CallsBefore(payload, clock, j + 1)
  {
  }

  lemma PrefixKeepsRule(payload: Payload, required: Registry, j: nat)
    requires Rule(payload, required) && j <= |payload.profiles|
    ensures Rule(payload.(profiles := payload.profiles[..j]), required)
  {
  }

  lemma PlayBeforeClash(t: Tables, payload: Payload, required: Registry, clock: nat -> nat, j: nat)
    requires Rule(payload, required) && FirstClash(t, payload.profiles, j)
    ensures var r := Play(t, CallsBefore(payload, clock, j)); !r.threw && StoppedAt(t, payload, j, r.tables)
  {
    var prefix := payload.(profiles := payload.profiles[..j]);
    PrefixKeepsRule(payload, required, j);
    AfterUpserts(t, prefix, required, clock);
    forall i | 0 <= i < j ensures NoClash(t, prefix.profiles, i) {
      assert NoClash(t, payload.profiles, i);
      assert prefix.profiles[..i] == payload.profiles[..i];
    }
  }

  lemma ClashThrows(t: Tables, payload: Payload, required: Registry, clock: nat -> nat, j: nat)
    requires Rule(payload, required) && FirstClash(t, payload.profiles, j)
    ensures Play(t, CallsBefore(payload, clock, j + 1)).threw
  {
    var prefix := payload.(profiles := payload.profiles[..j + 1]);
    PrefixKeepsRule(payload, required, j + 1);
    AfterUpserts(t, prefix, required, clock);
    assert prefix.profiles[..j] == payload.profiles[..j];
    assert !NoClash(t, prefix.profiles, j);
  }

  lemma PutIsCutShort(t: Tables, payload: Payload, clock: nat -> nat, j: nat)
    requires j < |payload.profiles|
    requires !Play(t, CallsBefore(payload, clock, j)).threw && Play(t, CallsBefore(payload, clock, j + 1)).threw
    ensures Play(t, PutCalls(t, payload, clock)) == Result(Play(t, CallsBefore(payload, clock, j)).tables, true)
  {
    CallsBeforeIsPrefix(t, payload, clock, j);
    StopsAfter(t, PutCalls(t, payload, clock), CallsBefore(payload, clock, j), |payload.channels| + j);
  }

  /** The upsert that clashes changes nothing, and nothing comes after it. */
  lemma PutStopsAtClash(t: Tables, payload: Payload, required: Registry, clock: nat -> nat, j: nat)
    requires Rule(payload, required) && FirstClash(t, payload.profiles, j)
    ensures var r := Play(t, PutCalls(t, payload, clock)); r.threw && StoppedAt(t, payload, j, r.tables)
  {
    PlayBeforeClash(t, payload, required, clock, j);
    ClashThrows(t, payload, required, clock, j);
    PutIsCutShort(t, payload, clock, j);
  }

  // ------------------------------------------------- when it is still valid

  /** No row that the PUT has not reached yet defaults to a channel that the payload disables. */
  ghost predicate DefaultsStayEnabled(t: Tables, payload: Payload, j: nat)
    requires j <= |payload.profiles|
  {
    forall id, ref | id in t.profiles && id !in ProfileIds(payload.profiles[..j])
        && (id, ref) in t.links && ref in ById(payload.channels) ::
      ById(payload.channels)[ref].enabled
  }

  /** A default of a profile already upserted names a channel that is there and enabled. */
  lemma UpsertedDefaultsEnabled(payload: Payload, required: Registry, j: nat, id: string, ref: string)
    requires Rule(payload, required) && j <= |payload.profiles|
    requires id in PlainById(payload.profiles[..j]) && ref in PlainById(payload.profiles[..j])[id].defaults
    ensures ref in ById(payload.channels) && ById(payload.channels)[ref].enabled
  {
    var ps := payload.profiles[..j];
    PlainByIdLooksUp(ps);
    var p :| p in ps && p.id == id && PlainById(ps)[id] == PlainOf(p);
    assert p in payload.profiles && ref in p.defaults;
    ByIdWithUniqueIds(payload.channels, ref);
  }

  lemma StoppedChannelsKeepRule(t: Tables, payload: Payload, required: Registry, j: nat, u: Tables)
    requires ValidStore(t, required) && Rule(payload, required)
    requires j <= |payload.profiles| && StoppedAt(t, payload, j, u)
    ensures var cs := ChannelsOf(u.channels); forall id :: id in cs ==> cs[id].id == id && ChannelRule(cs[id], required)
  {
    ByIdLooksUp(payload.channels);
    var cs, was := ChannelsOf(u.channels), ContentOf(t).channels;
    forall id | id in cs ensures cs[id].id == id && ChannelRule(cs[id], required) {
      if id in ById(payload.channels) {
        assert cs[id] == ById(payload.channels)[id];
      } else {
        assert id in was && cs[id] == was[id];
      }
    }
  }

  lemma StoppedRefEnabled(t: Tables, payload: Payload, required: Registry, j: nat, u: Tables, id: string, ref: string)
    requires ValidStore(t, required) && Rule(payload, required)
    requires j <= |payload.profiles| && StoppedAt(t, payload, j, u) && DefaultsStayEnabled(t, payload, j)
    requires id in ContentOf(u).profiles && ref in ContentOf(u).profiles[id].defaults
    ensures ref in ContentOf(u).channels && ContentOf(u).channels[ref].enabled
  {
    var done := PlainById(payload.profiles[..j]);
    PlainByIdLooksUp(payload.profiles[..j]);
    if id in done {
      assert ContentOf(u).profiles[id] == done[id];
      UpsertedDefaultsEnabled(payload, required, j, id, ref);
    } else {
      var was := ContentOf(t);
      assert id in was.profiles && ContentOf(u).profiles[id] == was.profiles[id];
      assert ref in was.channels && was.channels[ref].enabled;
      assert (id, ref) in t.links;
    }
  }

  lemma StoppedStoreIsValid(t: Tables, payload: Payload, required: Registry, j: nat, u: Tables)
    requires ValidStore(t, required) && Rule(payload, required)
    requires j <= |payload.profiles| && StoppedAt(t, payload, j, u) && DefaultsStayEnabled(t, payload, j)
    requires Integrity(u)
    ensures ValidStore(u, required)
  {
    StoppedChannelsKeepRule(t, payload, required, j, u);
    var c := ContentOf(u);
    forall id, ref | id in c.profiles && ref in c.profiles[id].defaults
      ensures ref in c.channels && c.channels[ref].enabled
    {
      StoppedRefEnabled(t, payload, required, j, u, id, ref);
    }
  }

  lemma ValidDefaultsStayEnabled(t: Tables, payload: Payload, required: Registry, j: nat, u: Tables)
    requires j <= |payload.profiles| && StoppedAt(t, payload, j, u) && ValidStore(u, required)
    ensures DefaultsStayEnabled(t, payload, j)
  {
    var byId, c := ById(payload.channels), ContentOf(u);
    PlainByIdLooksUp(payload.profiles[..j]);
    forall id, ref | id in t.profiles && id !in ProfileIds(payload.profiles[..j]) && (id, ref) in t.links && ref in byId
      ensures byId[ref].enabled
    {
      var was := ProfilesOf(t.profiles, t.links);
      assert ref in DefaultIds(t.links, id);
      assert id in was && c.profiles[id] == was[id];
      assert c.channels[ref] == byId[ref];
    }
  }

  /**
   * A PUT stopped at its first clash leaves a valid store exactly when no profile row it had
   * not yet rewritten defaults to a channel the payload disables.
   */
  lemma InterruptedPutValidIff(t: Tables, payload: Payload, required: Registry, clock: nat -> nat, j: nat)
    requires ValidStore(t, required) && Rule(payload, required) && FirstClash(t, payload.profiles, j)
    ensures ValidStore(Play(t, PutCalls(t, payload, clock)).tables, required) <==> DefaultsStayEnabled(t, payload, j)
  {
    var calls := PutCalls(t, payload, clock);
    var u := Play(t, calls).tables;
    PutStopsAtClash(t, payload, required, clock, j);
    assert calls[..|calls|] == calls;
    PlayKeepsIntegrity(t, calls, |calls|);
    if DefaultsStayEnabled(t, payload, j) {
      StoppedStoreIsValid(t, payload, required, j, u);
    }
    if ValidStore(u, required) {
      ValidDefaultsStayEnabled(t, payload, required, j, u);
    }
  }

  /** Any PUT on a valid store leaves a valid store exactly when its first clash, if any, is harmless. */
  lemma PutLeavesValidStoreIff(t: Tables, payload: Payload, required: Registry, clock: nat -> nat)
    requires ValidStore(t, required)
    ensures ValidStore(Perform(t, Put(payload, clock), required).tables, required)
       <==> (VerdictOf(payload, required) == Ok ==>
              forall j :: 0 <= j < |payload.profiles| && FirstClash(t, payload.profiles, j) ==> DefaultsStayEnabled(t, payload, j))
  {
    VerdictIffRule(payload, required);
    if VerdictOf(payload, required) == Ok {
      PutTheorem(t, payload, required, clock);
      PerformKeepsValid(t, Put(payload, clock), required);
      forall j: nat | FirstClash(t, payload.profiles, j)
        ensures ValidStore(Play(t, PutCalls(t, payload, clock)).tables, required) <==> DefaultsStayEnabled(t, payload, j)
      {
        InterruptedPutValidIff(t, payload, required, clock, j);
      }
      if !NoClashBefore(t, payload.profiles, |payload.profiles|) {
        var j := FirstClashExists(t, payload.profiles, |payload.profiles|);
      }
    }
  }

  /** A harmful clash: accepted, thrown, and no longer a valid store. */
  lemma HarmfulClash(t: Tables, payload: Payload, required: Registry, clock: nat -> nat, j: nat)
    requires ValidStore(t, required) && Rule(payload, required)
    requires FirstClash(t, payload.profiles, j) && !DefaultsStayEnabled(t, payload, j)
    ensures VerdictOf(payload, required) == Ok
    ensures var r := Perform(t, Put(payload, clock), required);
      r.threw && Integrity(r.tables) && !ValidStore(r.tables, required)
  {
    var r := PerformedPut(t, payload, required, clock);
    assert r.threw by { PutStopsAtClash(t, payload, required, clock, j); }
    assert !ValidStore(r.tables, required) by { InterruptedPutValidIff(t, payload, required, clock, j); }
    assert Integrity(r.tables) by { PerformKeepsValid(t, Put(payload, clock), required); }
  }

  lemma PerformedPut(t: Tables, payload: Payload, required: Registry, clock: nat -> nat) returns (r: Result)
    requires Rule(payload, required)
    ensures VerdictOf(payload, required) == Ok
    ensures r == Perform(t, Put(payload, clock), required) == Play(t, PutCalls(t, payload, clock))
  {
    VerdictIffRule(payload, required);
    r := Play(t, PutCalls(t, payload, clock));
  }

  // ------------------------------------------------- it need not be valid

  /** Values for every key the type requires. */
  ghost predicate Complete(kind: string, config: map<string, string>, required: Registry) {
    kind in required && forall key :: key in required[kind] ==> Filled(config, key)
  }

  /** Profile a holds token x and defaults to the enabled channel c; profile b holds token y. */
  function DefaultOnC(c: string, kind: string, config: map<string, string>, x: string, y: string): Tables {
    Tables(map[c := ChannelRow("", kind, true, config, 0)],
           map["a" := ProfileRow("A", x, 0), "b" := ProfileRow("B", y, 0)], {("a", c)})
  }

  /** Disable c, drop the default, and exchange the two tokens. */
  function DisableC(c: string, kind: string, config: map<string, string>, x: string, y: string): Payload {
    Payload([Channel(c, "", kind, false, config)], [Profile("b", "B", x, []), Profile("a", "A", y, [])])
  }

  lemma DefaultOnCIsValid(c: string, kind: string, config: map<string, string>, x: string, y: string, required: Registry)
    requires IsSlug(c) && x != y && Complete(kind, config, required)
    ensures ValidStore(DefaultOnC(c, kind, config, x, y), required)
  {
    var t := DefaultOnC(c, kind, config, x, y);
    forall id, ref | id in t.profiles && ref in DefaultIds(t.links, id) ensures ref == c {}
  }

  lemma DisableCKeepsRule(c: string, kind: string, config: map<string, string>, x: string, y: string, required: Registry)
    requires IsSlug(c) && x != y && kind in required
    ensures Rule(DisableC(c, kind, config, x, y), required)
  {
  }

  lemma DisableCIsHarmful(c: string, kind: string, config: map<string, string>, x: string, y: string)
    requires x != y
    ensures var t, payload := DefaultOnC(c, kind, config, x, y), DisableC(c, kind, config, x, y);
      FirstClash(t, payload.profiles, 0) && !DefaultsStayEnabled(t, payload, 0)
  {
    var t, payload := DefaultOnC(c, kind, config, x, y), DisableC(c, kind, config, x, y);
    assert payload.profiles[..0] == [];
    assert "a" in t.profiles && t.profiles["a"].token == payload.profiles[0].token;
    ByIdLooksUp(payload.channels);
    assert payload.channels[0] in payload.channels;
    assert ("a", c) in t.links && c in ById(payload.channels);
  }

  /**
   * For every channel type and complete configuration, a PUT cut short by the token constraint
   * keeps the database constraints but not the validator's rule: a profile can be left with a
   * default that was just disabled.
   */
  lemma InterruptedPutCanBreakRule(c: string, kind: string, config: map<string, string>, x: string, y: string,
                                   required: Registry, clock: nat -> nat)
    requires IsSlug(c) && x != y && Complete(kind, config, required)
    ensures var t, payload := DefaultOnC(c, kind, config, x, y), DisableC(c, kind, config, x, y);
      var r := Perform(t, Put(payload, clock), required);
      && ValidStore(t, required) && VerdictOf(payload, required) == Ok
      && r.threw && Integrity(r.tables) && !ValidStore(r.tables, required)
  {
    var t, payload := DefaultOnC(c, kind, config, x, y), DisableC(c, kind, config, x, y);
    DefaultOnCIsValid(c, kind, config, x, y, required);
    DisableCKeepsRule(c, kind, config, x, y, required);
    DisableCIsHarmful(c, kind, config, x, y);
    HarmfulClash(t, payload, required, clock, 0);
  }
}
