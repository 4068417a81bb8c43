/**
 * Fan-out of one notification to channel instances, delivery that re-reads the store, and
 * the synchronous queue that composes the two.
 */
module Dispatch {
  import opened Options
  import opened ConfigTypes
  import opened Ordering
  import opened Store
  import opened PutConfig
  import opened ConfigService
  import opened Repositories

  // ------------------------------------------------------ resolution

  /** The enabled ids of the source, each at its first occurrence. */
  function Resolve(source: seq<string>, enabled: set<string>): seq<string> {
    if source == [] then []
    else
      var init, last := source[..|source| - 1], source[|source| - 1];
      Resolve(init, enabled) + if last in enabled && last !in init then [last] else []
  }

  /** Requested channels, even an empty list, replace the profile's defaults. */
  method ResolveChannels(defaults: seq<string>, requested: Option<seq<string>>, enabled: set<string>)
    returns (resolved: seq<string>)
    ensures resolved == Resolve(if requested.Some? then requested.value else defaults, enabled)
  {
    var source := if requested.Some? then requested.value else defaults;
    var seen: set<string> := {};
    resolved := [];
    for i := 0 to |source|
      invariant resolved == Resolve(source[..i], enabled)
      invariant forall x :: x in seen <==> x in source[..i] && x in enabled
    {
      assert source[..i + 1][..i] == source[..i];
      if source[i] in enabled && source[i] !in seen {
        seen := seen + {source[i]};
        resolved := resolved + [source[i]];
      }
    }
    assert source[..|source|] == source;
  }

  function FirstIndex(s: seq<string>, x: string): nat
    requires x in s
  {
    if s[0] == x then 0 else 1 + FirstIndex(s[1..], x)
  }

  lemma {:induction false} FirstIndexIs(s: seq<string>, x: string)
    requires x in s
    ensures FirstIndex(s, x) < |s| && s[FirstIndex(s, x)] == x && x !in s[..FirstIndex(s, x)]
    decreases |s|
  {
    if s[0] != x {
      FirstIndexIs(s[1..], x);
      assert s[..FirstIndex(s, x)] == [s[0]] + s[1..][..FirstIndex(s[1..], x)];
    }
  }

  lemma FirstIndexUnique(s: seq<string>, x: string, i: nat)
    requires i < |s| && s[i] == x && x !in s[..i]
    ensures FirstIndex(s, x) == i
  {
    FirstIndexIs(s, x);
  }

  ghost predicate NoDup(s: seq<string>) {
    forall i, j :: 0 <= i < j < |s| ==> s[i] != s[j]
  }

  /** Exactly the source's enabled ids, once each, in the order they first occur. */
  lemma {:induction false} ResolveIs(source: seq<string>, enabled: set<string>)
    ensures forall x :: x in Resolve(source, enabled) <==> x in source && x in enabled
    ensures NoDup(Resolve(source, enabled))
    ensures var r := Resolve(source, enabled);
      forall i, j :: 0 <= i < j < |r| ==> r[i] in source && r[j] in source && FirstIndex(source, r[i]) < FirstIndex(source, r[j])
    decreases |source|
  {
    if source != [] {
      var n := |source| - 1;
      var init, r := source[..n], Resolve(source[..n], enabled);
      ResolveIs(init, enabled);
      assert source == init + [source[n]];
      assert forall x :: x in source <==> x in init || x == source[n];
      forall x | x in init ensures FirstIndex(source, x) == FirstIndex(init, x) < n {
        FirstIndexIs(init, x);
        assert source[..FirstIndex(init, x)] == init[..FirstIndex(init, x)];
        FirstIndexUnique(source, x, FirstIndex(init, x));
      }
      if source[n] !in init {
        FirstIndexUnique(source, source[n], n);
      }
      ResolveStepOrdered(source, enabled);
    }
  }

  lemma ResolveStepOrdered(source: seq<string>, enabled: set<string>)
    requires source != []
    requires var n := |source| - 1; var init, r := source[..n], Resolve(source[..n], enabled);
      && (forall x :: x in r <==> x in init && x in enabled)
      && (forall i, j :: 0 <= i < j < |r| ==>
            r[i] != r[j] && r[i] in init && r[j] in init && FirstIndex(init, r[i]) < FirstIndex(init, r[j]))
      && (forall x :: x in init ==> x in source && FirstIndex(source, x) == FirstIndex(init, x) < n)
      && (source[n] !in init ==> source[n] in source && FirstIndex(source, source[n]) == n)
    ensures var r := Resolve(source, enabled);
      forall i, j :: 0 <= i < j < |r| ==>
        r[i] != r[j] && r[i] in source && r[j] in source && FirstIndex(source, r[i]) < FirstIndex(source, r[j])
  {
    var n := |source| - 1;
    var r, s := Resolve(source[..n], enabled), Resolve(source, enabled);
    forall i, j | 0 <= i < j < |s|
      ensures s[i] != s[j] && s[i] in source && s[j] in source && FirstIndex(source, s[i]) < FirstIndex(source, s[j])
    {
      assert s[i] == r[i] && r[i] in r;
      if j < |r| {
        assert s[j] == r[j];
      }
    }
  }

  /** Nothing to drop, nothing dropped. */
  lemma {:induction false} ResolveFixed(s: seq<string>, enabled: set<string>)
    requires NoDup(s) && forall x :: x in s ==> x in enabled
    ensures Resolve(s, enabled) == s
    decreases |s|
  {
    if s != [] {
      var n := |s| - 1;
      assert s == s[..n] + [s[n]];
      assert s[n] in s;
      ResolveFixed(s[..n], enabled);
    }
  }

  lemma ResolveIdempotent(source: seq<string>, enabled: set<string>)
    ensures Resolve(Resolve(source, enabled), enabled) == Resolve(source, enabled)
  {
    ResolveIs(source, enabled);
    ResolveFixed(Resolve(source, enabled), enabled);
  }

  function EnabledIds(t: Tables): set<string> {
    set id | id in t.channels && t.channels[id].enabled
  }

  /** On a valid store a profile's stored defaults are dispatched as they are. */
  lemma StoredDefaultsResolveUnchanged(t: Tables, id: string, required: Registry)
    requires ValidStore(t, required) && id in t.profiles
    ensures Resolve(ListDefaults(t, id), EnabledIds(t)) == ListDefaults(t, id)
  {
    var refs := ListDefaults(t, id);
    OrderedIsListing(NoTimes(DefaultIds(t.links, id)), DefaultIds(t.links, id));
    forall ref | ref in refs ensures ref in EnabledIds(t) {
      var c := ContentOf(t);
      assert ref in c.profiles[id].defaults;
      assert ref in c.channels && c.channels[ref].enabled;
    }
    ResolveFixed(refs, EnabledIds(t));
  }

  // -------------------------------------------------------- delivery

  datatype Notification = Notification(title: string, message: string)

  datatype SendResult = Sent | SendFailed(error: string)

  /** What one delivery attempt does: skip, fail before sending, or send through an instance. */
  datatype Attempt = Skipped | NoAdapter | SentVia(instance: Channel, result: SendResult)

  /** What the world answers to the k-th send, which may depend on everything sent before it. */
  type Sender = (nat, Channel, Notification) -> SendResult

  /** The instance is there, enabled, and of a type that has an adapter. */
  predicate IsSent(t: Tables, id: string, known: set<string>) {
    id in t.channels && t.channels[id].enabled && t.channels[id].kind in known
  }

  /** How many of the ids reach a send. */
  function SendsIn(t: Tables, ids: seq<string>, known: set<string>): nat {
    if ids == [] then 0
    else SendsIn(t, ids[..|ids| - 1], known) + if IsSent(t, ids[|ids| - 1], known) then 1 else 0
  }

  /** The instance is the one the store holds at this moment; `known` are the types with an adapter. */
  function AttemptOf(t: Tables, id: string, n: Notification, known: set<string>, send: Sender, k: nat): Attempt {
    if id !in t.channels || !t.channels[id].enabled then Skipped
    else if t.channels[id].kind !in known then NoAdapter
    else SentVia(ChannelAt(t, id), send(k, ChannelAt(t, id), n))
  }

  /** `attempts` is 0 when the delivery was skipped. */
  datatype DeliveryReply = Resolved(channel: string, attempts: nat) | Threw(error: string)

  datatype Outcome = Outcome(channel: string, ok: bool, error: Option<string>)

  function UnknownType(c: Channel): string {
    "Unknown channel type \"" + c.kind + "\" for instance \"" + c.id + "\""
  }

  /** The outcome recorded for one id: a skip and a successful send are both ok. */
  function OutcomeOf(t: Tables, id: string, n: Notification, known: set<string>, send: Sender, k: nat): Outcome {
    match AttemptOf(t, id, n, known, send, k)
    case Skipped => Outcome(id, true, None)
    case NoAdapter => Outcome(id, false, Some(UnknownType(ChannelAt(t, id))))
    case SentVia(_, Sent) => Outcome(id, true, None)
    case SentVia(_, SendFailed(error)) => Outcome(id, false, Some(error))
  }

  /** The outcomes of a list of ids when k sends have been made before it. */
  function OutcomesOf(t: Tables, ids: seq<string>, n: Notification, known: set<string>, send: Sender, k: nat): seq<Outcome> {
    seq(|ids|, i requires 0 <= i < |ids| => OutcomeOf(t, ids[i], n, known, send, k + SendsIn(t, ids[..i], known)))
  }

  /** The outcome, in terms of what the store holds and what the world answers to send k. */
  ghost predicate IsOutcome(o: Outcome, t: Tables, id: string, n: Notification, known: set<string>, send: Sender, k: nat) {
    && o.channel == id
    && (o.error.None? <==> o.ok)
    && (id !in t.channels || !t.channels[id].enabled ==> o.ok)
    && (id in t.channels && t.channels[id].enabled ==>
        var row := t.channels[id];
        if row.kind !in known then
          !o.ok && o.error == Some("Unknown channel type \"" + row.kind + "\" for instance \"" + id + "\"")
        else match send(k, Channel(id, row.caption, row.kind, row.enabled, row.config), n)
             case Sent => o.ok
             case SendFailed(error) => !o.ok && o.error == Some(error))
  }

  lemma OutcomeOfIs(t: Tables, id: string, n: Notification, known: set<string>, send: Sender, k: nat)
    ensures IsOutcome(OutcomeOf(t, id, n, known, send, k), t, id, n, known, send, k)
  {
  }

  ghost predicate ReachesSend(t: Tables, ids: seq<string>, known: set<string>, i: int) {
    0 <= i < |ids| && ids[i] in t.channels && t.channels[ids[i]].enabled && t.channels[ids[i]].kind in known
  }

  /** How many of the ids have an enabled instance of a type with an adapter. */
  lemma {:induction false} SendsInCounts(t: Tables, ids: seq<string>, known: set<string>)
    ensures SendsIn(t, ids, known) == |set i | 0 <= i < |ids| && ReachesSend(t, ids, known, i)|
    decreases |ids|
  {
    if ids != [] {
      var n := |ids| - 1;
      SendsInCounts(t, ids[..n], known);
      var before := set i | 0 <= i < n && ReachesSend(t, ids[..n], known, i);
      var all := set i | 0 <= i < |ids| && ReachesSend(t, ids, known, i);
      assert forall i :: 0 <= i < n ==> (ReachesSend(t, ids[..n], known, i) <==> ReachesSend(t, ids, known, i));
      assert all == if n in all then before + {n} else before;
    }
  }

  datatype DispatchJob = DispatchJob(notification: Notification, profileId: string, requested: Option<seq<string>>)

  /** The ids a job resolves to on a store. */
  ghost function ResolvedIds(t: Tables, job: DispatchJob): seq<string> {
    var defaults := if job.requested.Some? || job.profileId !in t.profiles then [] else ListDefaults(t, job.profileId);
    Resolve(if job.requested.Some? then job.requested.value else defaults, EnabledIds(t))
  }

  /** The synchronous queue with the dispatch and delivery services as its handlers. */
  class InMemoryQueue {
    const channelRepo: ChannelRepository
    const profileRepo: ProfileRepository
    const known: set<string>
    const send: Sender
    var sends: nat
    var dispatchRegistered: bool
    var deliveryRegistered: bool
    var deliveries: seq<Outcome>

    constructor (channelRepo: ChannelRepository, profileRepo: ProfileRepository, known: set<string>, send: Sender)
      ensures this.channelRepo == channelRepo && this.profileRepo == profileRepo
      ensures this.known == known && this.send == send
      ensures deliveries == [] && sends == 0 && !dispatchRegistered && !deliveryRegistered
    {
      this.channelRepo, this.profileRepo, this.known, this.send := channelRepo, profileRepo, known, send;
      deliveries, sends, dispatchRegistered, deliveryRegistered := [], 0, false, false;
    }

    method OnDispatch()
      modifies this`dispatchRegistered
      ensures dispatchRegistered
    {
      dispatchRegistered := true;
    }

    method OnDelivery()
      modifies this`deliveryRegistered
      ensures deliveryRegistered
    {
      deliveryRegistered := true;
    }

    /** A missing or disabled instance resolves without an attempt; a failure is thrown on. */
    method Deliver(id: string, n: Notification) returns (r: DeliveryReply)
      modifies this`sends
      ensures var rows := channelRepo.db.channels;
        if id !in rows || !rows[id].enabled then r == Resolved(id, 0) && sends == old(sends)
        else if rows[id].kind !in known then
          r == Threw("Unknown channel type \"" + rows[id].kind + "\" for instance \"" + id + "\"") && sends == old(sends)
        else
          && sends == old(sends) + 1
          && match send(old(sends), Channel(id, rows[id].caption, rows[id].kind, rows[id].enabled, rows[id].config), n)
             case Sent => r == Resolved(id, 1)
             case SendFailed(error) => r == Threw(error)
      ensures sends == old(sends) + SendsIn(channelRepo.db.View(), [id], known)
      ensures var attempt := AttemptOf(channelRepo.db.View(), id, n, known, send, old(sends));
        r == match attempt
          case Skipped => Resolved(id, 0)
          case NoAdapter => Threw(UnknownType(ChannelAt(channelRepo.db.View(), id)))
          case SentVia(_, result) => if result.Sent? then Resolved(id, 1) else Threw(result.error)
    {
      assert [id][..0] == [];
      var found := channelRepo.Get(id);
      if found.None? || !found.value.enabled {
        return Resolved(id, 0);
      }
      if found.value.kind !in known {
        return Threw(UnknownType(found.value));
      }
      var result := send(sends, found.value, n);
      sends := sends + 1;
      return if result.Sent? then Resolved(id, 1) else Threw(result.error);
    }

    /** A throwing handler is caught: the outcome is recorded and the chain goes on. */
    method EnqueueDelivery(id: string, n: Notification)
      modifies this`deliveries, this`sends
      ensures sends == old(sends) + if deliveryRegistered then SendsIn(channelRepo.db.View(), [id], known) else 0
      ensures deliveries == old(deliveries)
        + if deliveryRegistered then [OutcomeOf(channelRepo.db.View(), id, n, known, send, old(sends))] else []
      ensures deliveryRegistered ==>
        && |deliveries| == |old(deliveries)| + 1
        && IsOutcome(deliveries[|old(deliveries)|], channelRepo.db.View(), id, n, known, send, old(sends))
      ensures !deliveryRegistered ==> deliveries == old(deliveries)
    {
      OutcomeOfIs(channelRepo.db.View(), id, n, known, send, sends);
      if deliveryRegistered {
        var r := Deliver(id, n);
        deliveries := deliveries + [if r.Threw? then Outcome(id, false, Some(r.error)) else Outcome(id, true, None)];
      }
    }

    /** The profile is looked up only when its defaults are needed. */
    method ResolveJob(job: DispatchJob) returns (ids: seq<string>)
      requires profileRepo.db == channelRepo.db
      ensures ids == ResolvedIds(channelRepo.db.View(), job)
      ensures var enabled := set id | id in channelRepo.db.channels && channelRepo.db.channels[id].enabled;
        match job.requested
        case Some(requested) => ids == Resolve(requested, enabled)
        case None => ids == Resolve(
          if job.profileId in channelRepo.db.profiles then ListDefaults(channelRepo.db.View(), job.profileId) else [], enabled)
    {
      var enabledList := channelRepo.ListEnabled();
      EnabledListIs(channelRepo.db.View());
      var enabled := set c | c in enabledList :: c.id;
      var defaults := [];
      if job.requested.None? {
        var profile := profileRepo.Get(job.profileId);
        if profile.Some? {
          defaults := profile.value.defaults;
        }
      }
      ids := ResolveChannels(defaults, job.requested, enabled);
    }

    method HandleDispatch(job: DispatchJob)
      requires profileRepo.db == channelRepo.db
      modifies this`deliveries, this`sends
      ensures var ids := ResolvedIds(channelRepo.db.View(), job);
        && deliveries == old(deliveries) + (if deliveryRegistered
             then OutcomesOf(channelRepo.db.View(), ids, job.notification, known, send, old(sends)) else [])
        && sends == old(sends) + if deliveryRegistered then SendsIn(channelRepo.db.View(), ids, known) else 0
      ensures deliveryRegistered ==> IsFanOut(deliveries, old(deliveries), channelRepo.db.View(), job, known, send, old(sends))
      ensures !deliveryRegistered ==> deliveries == old(deliveries)
    {
      FanOutIs(deliveries, channelRepo.db.View(), job, known, send, sends);
      var ids := ResolveJob(job);
      if ids == [] {
        return;
      }
      EnqueueAll(ids, job.notification);
    }

    method EnqueueAll(ids: seq<string>, n: Notification)
      modifies this`deliveries, this`sends
      ensures deliveries == old(deliveries)
        + if deliveryRegistered then OutcomesOf(channelRepo.db.View(), ids, n, known, send, old(sends)) else []
      ensures sends == old(sends) + if deliveryRegistered then SendsIn(channelRepo.db.View(), ids, known) else 0
    {
      ghost var t := channelRepo.db.View();
      ghost var before, k, all := deliveries, sends, OutcomesOf(t, ids, n, known, send, sends);
      for i := 0 to |ids|
        invariant deliveries == before + if deliveryRegistered then all[..i] else []
        invariant sends == k + if deliveryRegistered then SendsIn(t, ids[..i], known) else 0
      {
        OneMoreSend(t, ids, i, known);
        OneMoreOutcome(t, ids, n, known, send, k, i);
        EnqueueDelivery(ids[i], n);
      }
      assert ids[..|ids|] == ids;
    }

    /** One outcome per resolved id, in resolved order; nothing without a registered handler. */
    method EnqueueDispatch(job: DispatchJob)
      requires profileRepo.db == channelRepo.db
      modifies this`deliveries, this`sends
      ensures deliveries == old(deliveries) + if dispatchRegistered && deliveryRegistered
        then OutcomesOf(channelRepo.db.View(), ResolvedIds(channelRepo.db.View(), job), job.notification, known, send, old(sends))
        else []
      ensures dispatchRegistered && deliveryRegistered ==>
        IsFanOut(deliveries, old(deliveries), channelRepo.db.View(), job, known, send, old(sends))
      ensures !dispatchRegistered || !deliveryRegistered ==> deliveries == old(deliveries)
    {
      if dispatchRegistered {
        HandleDispatch(job);
      }
    }
  }

  /** The ids a job is for: those it names, or else its profile's defaults, cut to the enabled ones. */
  ghost predicate IsResolution(ids: seq<string>, t: Tables, job: DispatchJob) {
    var enabled := set id | id in t.channels && t.channels[id].enabled;
    match job.requested
    case Some(requested) => ids == Resolve(requested, enabled)
    case None => ids == Resolve(if job.profileId in t.profiles then ListDefaults(t, job.profileId) else [], enabled)
  }

  /** `after` is `before` with one outcome for each of the ids, in order, send by send. */
  ghost predicate AddsOutcomes(after: seq<Outcome>, before: seq<Outcome>, ids: seq<string>,
                               t: Tables, n: Notification, known: set<string>, send: Sender, k: nat) {
    && |after| == |before| + |ids| && after[..|before|] == before
    && forall i :: 0 <= i < |ids| ==> IsOutcome(after[|before| + i], t, ids[i], n, known, send, k + SendsIn(t, ids[..i], known))
  }

  /** ... for the ids of the job. */
  ghost predicate IsFanOut(after: seq<Outcome>, before: seq<Outcome>, t: Tables, job: DispatchJob,
                           known: set<string>, send: Sender, k: nat)
  {
    exists ids :: IsResolution(ids, t, job) && AddsOutcomes(after, before, ids, t, job.notification, known, send, k)
  }

  lemma OutcomesAreAdded(before: seq<Outcome>, ids: seq<string>, t: Tables, n: Notification, known: set<string>, send: Sender, k: nat)
    ensures AddsOutcomes(before + OutcomesOf(t, ids, n, known, send, k), before, ids, t, n, known, send, k)
  {
    var added := OutcomesOf(t, ids, n, known, send, k);
    var after := before + added;
    forall i | 0 <= i < |ids| ensures IsOutcome(after[|before| + i], t, ids[i], n, known, send, k + SendsIn(t, ids[..i], known)) {
      assert after[|before| + i] == added[i];
      OutcomeOfIs(t, ids[i], n, known, send, k + SendsIn(t, ids[..i], known));
    }
  }

  lemma FanOutIs(before: seq<Outcome>, t: Tables, job: DispatchJob, known: set<string>, send: Sender, k: nat)
    ensures IsFanOut(before + OutcomesOf(t, ResolvedIds(t, job), job.notification, known, send, k), before, t, job, known, send, k)
  {
    ResolutionIs(t, job);
    OutcomesAreAdded(before, ResolvedIds(t, job), t, job.notification, known, send, k);
  }

  lemma ResolutionIs(t: Tables, job: DispatchJob)
    ensures IsResolution(ResolvedIds(t, job), t, job)
  {
    assert EnabledIds(t) == set id | id in t.channels && t.channels[id].enabled;
  }

  lemma OneMoreSend(t: Tables, ids: seq<string>, i: nat, known: set<string>)
    requires i < |ids|
    ensures SendsIn(t, ids[..i + 1], known) == SendsIn(t, ids[..i], known) + SendsIn(t, [ids[i]], known)
  {
    assert ids[..i + 1][..i] == ids[..i];
    assert [ids[i]][..0] == [];
  }

  lemma OneMoreOutcome(t: Tables, ids: seq<string>, n: Notification, known: set<string>, send: Sender, k: nat, i: nat)
    requires i < |ids|
    ensures var all := OutcomesOf(t, ids, n, known, send, k);
      all[..i + 1] == all[..i] + [OutcomeOf(t, ids[i], n, known, send, k + SendsIn(t, ids[..i], known))]
  {
  }

  lemma EnabledListIs(t: Tables)
    ensures (set c | c in EnabledOnly(ListChannels(t)) :: c.id) == EnabledIds(t)
  {
    ListChannelsIsTable(t);
    EnabledOnlyIs(ListChannels(t));
    forall id | id in EnabledIds(t) ensures id in (set c | c in EnabledOnly(ListChannels(t)) :: c.id) {
      assert ChannelAt(t, id) in EnabledOnly(ListChannels(t));
    }
  }

  /** As the only requested channel, a resolved id resolves to itself; and it is enabled. */
  lemma ResolvedAlone(t: Tables, job: DispatchJob, i: nat)
    requires i < |ResolvedIds(t, job)|
    ensures var id := ResolvedIds(t, job)[i];
      ResolvedIds(t, job.(requested := Some([id]))) == [id] && id in EnabledIds(t)
  {
    var ids := ResolvedIds(t, job);
    var source := if job.requested.Some? then job.requested.value
      else if job.profileId !in t.profiles then [] else ListDefaults(t, job.profileId);
    ResolveIs(source, EnabledIds(t));
    assert ids[i] in ids;
    ResolveFixed([ids[i]], EnabledIds(t));
  }

  /** The two worlds answer the send of number `turn` alike, whatever they answer to the others. */
  ghost predicate AgreeOn(send: Sender, other: Sender, turn: nat, n: Notification) {
    forall c: Channel :: send(turn, c, n) == other(turn, c, n)
  }

  lemma OutcomeAlone(t: Tables, ids: seq<string>, n: Notification, known: set<string>, send: Sender, other: Sender, k: nat, i: nat)
    requires i < |ids| && AgreeOn(send, other, k + SendsIn(t, ids[..i], known), n)
    ensures OutcomesOf(t, [ids[i]], n, known, other, k + SendsIn(t, ids[..i], known)) == [OutcomesOf(t, ids, n, known, send, k)[i]]
  {
    assert [ids[i]][..0] == [];
    assert SendsIn(t, [], known) == 0;
  }

  /**
   * Isolation: each resolved id is attempted, and gets the outcome it would get as the only
   * requested channel if the world answered that one send as it answers it in the fan-out.
   * What the world answers to the other sends makes no difference, nor do ids that fail for
   * want of an adapter.
   */
  lemma FanOutIsIsolated(t: Tables, job: DispatchJob, known: set<string>, send: Sender, other: Sender, k: nat, i: nat)
    requires i < |ResolvedIds(t, job)|
    requires AgreeOn(send, other, k + SendsIn(t, ResolvedIds(t, job)[..i], known), job.notification)
    ensures var ids, n := ResolvedIds(t, job), job.notification;
      var turn, alone := k + SendsIn(t, ids[..i], known), job.(requested := Some([ids[i]]));
      && AttemptOf(t, ids[i], n, known, send, turn) != Skipped
      && OutcomesOf(t, ResolvedIds(t, alone), n, known, other, turn) == [OutcomesOf(t, ids, n, known, send, k)[i]]
  {
    ResolvedAlone(t, job, i);
    OutcomeAlone(t, ResolvedIds(t, job), job.notification, known, send, other, k, i);
  }
}
