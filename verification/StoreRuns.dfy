/**
 * Runs of the job queue whose panel is a store: every edit is a completed operation of the
 * configuration service.
 */
module StoreRuns {
  import opened Options
  import opened ConfigTypes
  import opened Validation
  import opened Store
  import opened PutConfig
  import opened ConfigService
  import opened Dispatch
  import opened QueueRuns

  /** The panel shows what the workers read of a store. */
  ghost predicate Shows(panel: Panel, t: Tables) {
    && panel.channels == ChannelsOf(t.channels)
    && panel.defaults.Keys == t.profiles.Keys
    && forall p :: p in ListProfiles(t) ==> p.id in panel.defaults && panel.defaults[p.id] == p.defaults
  }

  const NO_ROWS := Tables(map[], map[], {})

  ghost predicate EditedTo(t: Tables, u: Tables, required: Registry) {
    exists op: Op :: Perform(t, op, required) == Result(u, false)
  }

  /** The panel of state k shows store ts[k], and edits are completed operations on it. */
  ghost predicate OnStore(r: Run, ts: seq<Tables>, required: Registry) {
    && |ts| == |r.states| == |r.events| + 1 && ts[0] == NO_ROWS
    && (forall k :: 0 <= k < |ts| ==> Shows(r.states[k].panel, ts[k]))
    && (forall k :: 0 <= k < |r.events| && r.events[k].Edit? ==> EditedTo(ts[k], ts[k + 1], required))
    && (forall k :: 0 <= k < |r.events| && !r.events[k].Edit? ==> ts[k + 1] == ts[k])
  }

  lemma {:induction false} StoreStaysValid(r: Run, ts: seq<Tables>, required: Registry, k: nat)
    requires OnStore(r, ts, required) && k < |ts|
    ensures ValidStore(ts[k], required)
    decreases k
  {
    if k > 0 {
      StoreStaysValid(r, ts, required, k - 1);
      if r.events[k - 1].Edit? {
        var op: Op :| Perform(ts[k - 1], op, required) == Result(ts[k], false);
        PerformKeepsValid(ts[k - 1], op, required);
      }
    }
  }

  lemma {:induction false} NoEditNoChange(r: Run, ts: seq<Tables>, required: Registry, i: nat, j: nat)
    requires OnStore(r, ts, required) && i <= j < |ts|
    requires forall k :: i <= k < j ==> !r.events[k].Edit?
    ensures ts[j] == ts[i]
    decreases j
  {
    if i < j {
      NoEditNoChange(r, ts, required, i, j - 1);
      assert !r.events[j - 1].Edit?;
    }
  }

  /** A send goes through an instance that keeps the validator's rule. */
  lemma SendUsedValidInstance(attempts: nat, known: set<string>, r: Run, ts: seq<Tables>, required: Registry, k: nat, m: nat)
    requires Legal(attempts, known, r) && OnStore(r, ts, required)
    requires k < |r.states| && m < |r.states[k].sends|
    ensures ChannelRule(r.states[k].sends[m].instance, required) && r.states[k].sends[m].instance.enabled
  {
    var i := SendUsedLiveInstance(attempts, known, r, k, m);
    StoreStaysValid(r, ts, required, i);
    var id := r.states[i].jobs[r.states[k].sends[m].job].channel;
    assert ContentOf(ts[i]).channels[id] == ChannelAt(ts[i], id);
  }

  /**
   * A dispatch that asks for no channels, and between whose two reads nothing is edited,
   * resolves exactly its profile's stored defaults, or nothing for an unknown profile; one
   * that names channels resolves those of them that are enabled in the store.
   */
  lemma StoredDefaultsAreDispatched(attempts: nat, known: set<string>, r: Run, ts: seq<Tables>, required: Registry, a: nat, j: nat, d: nat)
    returns (i: nat)
    requires Legal(attempts, known, r) && OnStore(r, ts, required) && a < j < |r.events|
    requires r.events[a].AddDispatch? && d == |r.states[a].dispatches| && r.events[j] == ResolveDispatch(d)
    ensures i < j && r.events[i] == StartDispatch(d) && d < |r.states[j + 1].dispatches|
    ensures (forall k :: i < k < j ==> !r.events[k].Edit?) ==>
      var resolved, profileId := r.states[j + 1].dispatches[d].resolved, r.events[a].profileId;
      match r.events[a].requested
      case Some(ids) => resolved == Resolve(ids, EnabledIds(ts[j]))
      case None => resolved == if profileId in ts[j].profiles then ListDefaults(ts[j], profileId) else []
  {
    var enabled;
    i, enabled := ResolvedFromReads(attempts, known, r, a, j, d);
    if forall k :: i < k < j ==> !r.events[k].Edit? {
      NoEditNoChange(r, ts, required, i, j);
      StoreStaysValid(r, ts, required, j);
      EnabledShown(r.states[i].panel, ts[j], enabled);
      var profileId := r.events[a].profileId;
      if profileId in ts[j].profiles {
        ListProfilesIsTable(ts[j]);
        assert ProfileAt(ts[j], profileId) in ListProfiles(ts[j]);
        StoredDefaultsResolveUnchanged(ts[j], profileId, required);
      }
    }
  }

  lemma EnabledShown(panel: Panel, t: Tables, enabled: set<string>)
    requires Shows(panel, t) && forall id :: id in enabled <==> IsEnabledIn(panel, id)
    ensures enabled == EnabledIds(t)
  {
    forall id ensures id in enabled <==> id in EnabledIds(t) {
      assert id in enabled <==> IsEnabledIn(panel, id);
      assert id in panel.channels <==> id in t.channels;
    }
  }
}
