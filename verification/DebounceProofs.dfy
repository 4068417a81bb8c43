/**
 * The fate of every Stop in every run of the idle-debounce protocol.
 */
module DebounceProofs {
  import opened Options
  import opened Debounce
  import opened DebounceChains

  // --------------------------------------------------- the three signals

  /** The last activity write before event a is by a prompt that read its clock after s. */
  ghost predicate CancelledBefore(r: Run, a: nat, s: nat) {
    exists i :: 0 <= i < a && LastActivityWrite(r, i, a) && ReadAfter(r, i, s)
  }

  /** Another Stop replaced the pending entry between events w and q. */
  ghost predicate SupersededBetween(r: Run, w: nat, q: nat, s: nat) {
    exists i :: w < i < q && WriteByOther(r, i, s)
  }

  /**
   * A sender that had read the pending file before s wrote it deleted it before s's own
   * sender read it: its read-to-delete window contains the write of s.
   */
  ghost predicate ErasedBetween(r: Run, w: nat, q: nat, s: nat) {
    exists p, i :: p < w < i < q && DeleteByOther(r, i, s) && Is(r, p, r.events[i].s, READ_PENDING)
  }

  /** The marker a sender reads is newer than its Stop exactly when its last writer is. */
  lemma CancelSignal(idle: nat, r: Run, a: nat, s: nat)
    requires Legal(idle, r) && a < |r.states|
    ensures CancelledBefore(r, a, s)
       <==> r.states[a].files.activity.Some? && r.states[a].files.activity.value > s
  {
    if i :| 0 <= i < a && LastActivityWrite(r, i, a) && ReadAfter(r, i, s) {
      var c := MarkerIsLastWrite(idle, r, i, a);
    }
    if r.states[a].files.activity.Some? && r.states[a].files.activity.value > s {
      var i := MarkerWasWritten(idle, r, a);
      var c := MarkerIsLastWrite(idle, r, i, a);
    }
  }

  /** Prompts write their markers before event a in the order in which they read their clocks. */
  ghost predicate MarkersInOrder(r: Run, a: nat) {
    forall i, k, c, d | i < k < a && ActivityWrite(r, i) && ActivityWrite(r, k)
        && IsPrompt(r, c, r.events[i].p, ACTIVITY_CLOCK) && IsPrompt(r, d, r.events[k].p, ACTIVITY_CLOCK) ::
      c < d
  }

  /** When no slow prompt overtakes a newer one, any newer prompt recorded so far cancels. */
  lemma InOrderAnyPromptCancels(idle: nat, r: Run, a: nat, s: nat)
    requires Legal(idle, r) && a < |r.states| && MarkersInOrder(r, a)
    ensures CancelledBefore(r, a, s) <==> exists i :: 0 <= i < a && ActivityWrite(r, i) && ReadAfter(r, i, s)
  {
    if i :| 0 <= i < a && ActivityWrite(r, i) && ReadAfter(r, i, s) {
      var l := LastWriteFrom(r, i, a);
      var c := WriterClock(idle, r, i);
      var d := WriterClock(idle, r, l);
      if i < l {
        TimeGrows(idle, r, c + 1, d);
        assert Step(idle, r.states[c], r.events[c]) == Some(r.states[c + 1]);
        assert Step(idle, r.states[d], r.events[d]) == Some(r.states[d + 1]);
      }
      assert ReadAfter(r, l, s);
    }
  }

  /** A chain that reaches its deletion had read its own entry back. */
  lemma DeleterOwnedPending(idle: nat, r: Run, i: nat, s: nat) returns (p: nat)
    requires Legal(idle, r) && Is(r, i, s, DELETE)
    ensures p < i && Is(r, p, s, READ_PENDING)
    ensures StopTsOf(r.states[p].files.pending) == Some(s)
  {
    assert Step(idle, r.states[i], r.events[i]) == Some(r.states[i + 1]);
    p := Happened(idle, r, i, s, READ_PENDING);
    var d := Happened(idle, r, i, s, DECIDE);
    assert Step(idle, r.states[p], r.events[p]) == Some(r.states[p + 1]);
    assert Step(idle, r.states[d], r.events[d]) == Some(r.states[d + 1]);
    ChainKept(idle, r, d + 1, i, s);
    if d <= p { ChainKept(idle, r, d + 1, p + 1, s); }
    ChainKept(idle, r, p + 1, d, s);
  }

  /** With no other write in (w, q), a foreign delete there comes from an older window. */
  lemma DeleteMeansErased(idle: nat, r: Run, w: nat, i: nat, q: nat, s: nat)
    requires Legal(idle, r) && Is(r, w, s, WRITE) && w < i < q <= |r.events|
    requires DeleteByOther(r, i, s) && !SupersededBetween(r, w, q, s)
    ensures ErasedBetween(r, w, q, s)
  {
    var s' := r.events[i].s;
    var p := DeleterOwnedPending(idle, r, i, s');
    if p > w {
      var w' := Happened(idle, r, p, s', WRITE) by {
        assert Step(idle, r.states[p], r.events[p]) == Some(r.states[p + 1]);
      }
      if w' > w {
        assert WriteByOther(r, w', s);
      } else {
        LostForGood(idle, r, w', w, p, s');
      }
    }
  }

  /** The pending read returns s's own entry exactly when nothing superseded or erased it. */
  lemma PendingSignal(idle: nat, r: Run, w: nat, q: nat, s: nat)
    requires Legal(idle, r) && Is(r, w, s, WRITE) && Is(r, q, s, READ_PENDING)
    ensures w < q
    ensures StopTsOf(r.states[q].files.pending) == Some(s)
       <==> !SupersededBetween(r, w, q, s) && !ErasedBetween(r, w, q, s)
    ensures StopTsOf(r.states[q].files.pending) == Some(s) ==> r.states[q].files.pending == Written(r, w)
  {
    assert Step(idle, r.states[q], r.events[q]) == Some(r.states[q + 1]);
    var w0 := Happened(idle, r, q, s, WRITE);
    AtMostOnce(idle, r, w0, w, s, WRITE);
    WriteIsOwn(idle, r, w, s);
    if Untouched(r, w, q, s) {
      UntouchedStays(idle, r, w, q, s);
      assert !ErasedBetween(r, w, q, s);
    } else {
      var i :| w < i < q && (WriteByOther(r, i, s) || DeleteByOther(r, i, s));
      LostForGood(idle, r, w, i, q, s);
      if DeleteByOther(r, i, s) && !SupersededBetween(r, w, q, s) {
        DeleteMeansErased(idle, r, w, i, q, s);
      }
    }
  }

  // ------------------------------------------------------ fate of a Stop

  datatype Fate = Cancelled | Superseded | Erased | Posted

  /** The fate of Stop s, read off the order of events alone: w writes, a and q read. */
  ghost function FateOf(r: Run, s: nat, w: nat, a: nat, q: nat): Fate {
    if CancelledBefore(r, a, s) then Cancelled
    else if SupersededBetween(r, w, q, s) then Superseded
    else if ErasedBetween(r, w, q, s) then Erased
    else Posted
  }

  /** The decision to send is taken exactly when the fate is `Posted`. */
  lemma DecisionMatchesFate(idle: nat, r: Run, s: nat, w: nat, a: nat, q: nat, d: nat)
    requires Legal(idle, r)
    requires Is(r, w, s, WRITE) && Is(r, a, s, READ_ACTIVITY) && Is(r, q, s, READ_PENDING) && Is(r, d, s, DECIDE)
    ensures w < a < q < d
    ensures r.states[d + 1].procs[s].pc == (if FateOf(r, s, w, a, q) == Posted then BEGIN_POST else DROPPED)
    ensures FateOf(r, s, w, a, q) == Posted ==> r.states[d].procs[s].sawPending == Written(r, w)
  {
    assert Step(idle, r.states[w], r.events[w]) == Some(r.states[w + 1]);
    assert Step(idle, r.states[a], r.events[a]) == Some(r.states[a + 1]);
    assert Step(idle, r.states[q], r.events[q]) == Some(r.states[q + 1]);
    assert Step(idle, r.states[d], r.events[d]) == Some(r.states[d + 1]);
    var a0 := Happened(idle, r, q, s, READ_ACTIVITY);
    AtMostOnce(idle, r, a0, a, s, READ_ACTIVITY);
    var q0 := Happened(idle, r, d, s, READ_PENDING);
    AtMostOnce(idle, r, q0, q, s, READ_PENDING);
    var w0 := Happened(idle, r, a, s, WRITE);
    AtMostOnce(idle, r, w0, w, s, WRITE);
    ChainKept(idle, r, a + 1, d, s);
    ChainKept(idle, r, q + 1, d, s);
    CancelSignal(idle, r, a, s);
    PendingSignal(idle, r, w, q, s);
  }

  /** The gateway has received Stop s once if its chain is past `BeginPost`, else never. */
  lemma {:induction false} PostsMatchChain(idle: nat, r: Run, j: nat, s: nat)
    requires Legal(idle, r) && j < |r.states|
    ensures PostCount(r.states[j].posts, s)
         == if s in r.states[j].procs && BEGIN_POST < r.states[j].procs[s].pc <= SENT then 1 else 0
    ensures s in r.states[j].procs ==> r.states[j].procs[s].pc <= DROPPED
    decreases j
  {
    if j > 0 {
      PostsMatchChain(idle, r, j - 1, s);
      assert Step(idle, r.states[j - 1], r.events[j - 1]) == Some(r.states[j]);
      var before, after := r.states[j - 1].posts, r.states[j].posts;
      assert after == before || after[..|after| - 1] == before;
    }
  }

  predicate Finished(r: Run, s: nat)
    requires |r.states| > 0
  {
    var st := r.states[|r.states| - 1];
    s in st.procs && st.procs[s].pc >= SENT
  }

  /**
   * Every Stop whose sender has finished has exactly one fate, and the gateway received
   * it once if that fate is `Posted` and never otherwise.
   */
  lemma FateTheorem(idle: nat, r: Run, s: nat) returns (w: nat, a: nat, q: nat)
    requires Legal(idle, r) && Finished(r, s)
    ensures w < a < q < |r.events|
    ensures Is(r, w, s, WRITE) && Is(r, a, s, READ_ACTIVITY) && Is(r, q, s, READ_PENDING)
    ensures PostCount(r.states[|r.events|].posts, s) == if FateOf(r, s, w, a, q) == Posted then 1 else 0
  {
    var n := |r.events|;
    w := Happened(idle, r, n, s, WRITE);
    a := Happened(idle, r, n, s, READ_ACTIVITY);
    q := Happened(idle, r, n, s, READ_PENDING);
    var d := Happened(idle, r, n, s, DECIDE);
    DecisionMatchesFate(idle, r, s, w, a, q, d);
    assert Step(idle, r.states[d], r.events[d]) == Some(r.states[d + 1]);
    ChainKept(idle, r, d + 1, n, s);
    PostsMatchChain(idle, r, n, s);
  }

  /** A Stop with no newer prompt, no later write and no older sender overlapping it is posted. */
  lemma UndisturbedStopIsPosted(idle: nat, r: Run, s: nat, w: nat)
    requires Legal(idle, r) && Finished(r, s) && Is(r, w, s, WRITE)
    requires forall i :: 0 <= i < |r.events| && ActivityWrite(r, i) ==> !ReadAfter(r, i, s)
    requires forall i :: w < i < |r.events| ==> !WriteByOther(r, i, s)
    requires forall p, i :: p < w < i < |r.events| && DeleteByOther(r, i, s) ==> !Is(r, p, r.events[i].s, READ_PENDING)
    ensures PostCount(r.states[|r.events|].posts, s) == 1
  {
    var w', a, q := FateTheorem(idle, r, s);
    AtMostOnce(idle, r, w, w', s, WRITE);
  }

  // --------------------------------------------------- a justified POST

  /** A prompt that reads its activity clock after Stop s has read its own reads more than s. */
  lemma LaterClockReadsMore(idle: nat, r: Run, c: nat, k: nat, s: nat)
    requires Legal(idle, r) && Is(r, c, s, CLOCK)
    requires k < |r.events| && r.events[k].Prompt? && r.events[k].step.ReadActivityClock?
    ensures c < k <==> r.events[k].at > s
  {
    assert Step(idle, r.states[c], r.events[c]) == Some(r.states[c + 1]);
    assert Step(idle, r.states[k], r.events[k]) == Some(r.states[k + 1]);
    if c < k { TimeGrows(idle, r, c + 1, k); } else { TimeGrows(idle, r, k + 1, c); }
  }

  /**
   * When the sender of Stop s starts its POST: the idle window has passed since the Stop,
   * the prompt that wrote the activity marker last before the sender's read, if any, had read
   * its clock before the Stop did, no other Stop was recorded between the write and the
   * sender's pending read, and what is posted is what Stop s wrote: the time it ended and the
   * headline it was given.
   */
  lemma PostIsJustified(idle: nat, r: Run, k: nat, s: nat) returns (c: nat, w: nat, a: nat, q: nat)
    requires Legal(idle, r) && Is(r, k, s, BEGIN_POST)
    ensures c < w < a < q < k
    ensures Is(r, c, s, CLOCK) && Is(r, w, s, WRITE) && Is(r, a, s, READ_ACTIVITY) && Is(r, q, s, READ_PENDING)
    ensures r.events[c].at == s && r.events[k].at >= r.events[w].at + idle && r.events[w].at >= s
    ensures !CancelledBefore(r, a, s)
    ensures forall i :: LastActivityWrite(r, i, a) ==> exists m :: 0 <= m < c && IsPrompt(r, m, r.events[i].p, ACTIVITY_CLOCK)
    ensures forall i :: w < i < q ==> !WriteByOther(r, i, s) && !DeleteByOther(r, i, s)
    ensures Written(r, w).Some?
    ensures r.states[k + 1].posts == r.states[k].posts + [Post(s, Written(r, w).value.payload, r.events[k].at)]
    ensures r.events[w].act.WritePending?
    ensures var post := r.states[k + 1].posts[|r.states[k].posts|];
      post.s == s && post.payload.endedAt == s && post.payload.headline == r.events[w].act.headline
  {
    assert Step(idle, r.states[k], r.events[k]) == Some(r.states[k + 1]);
    c := Happened(idle, r, k, s, CLOCK);
    w := Happened(idle, r, k, s, WRITE);
    a := Happened(idle, r, k, s, READ_ACTIVITY);
    q := Happened(idle, r, k, s, READ_PENDING);
    var d := Happened(idle, r, k, s, DECIDE);
    DecisionMatchesFate(idle, r, s, w, a, q, d);
    assert Step(idle, r.states[c], r.events[c]) == Some(r.states[c + 1]);
    assert Step(idle, r.states[w], r.events[w]) == Some(r.states[w + 1]);
    assert Step(idle, r.states[d], r.events[d]) == Some(r.states[d + 1]);
    ChainKept(idle, r, d + 1, k, s);
    WriteIsOwn(idle, r, w, s);
    var c0 := Happened(idle, r, w, s, CLOCK);
    AtMostOnce(idle, r, c0, c, s, CLOCK);
    TimeGrows(idle, r, c + 1, w + 1);
    IdleElapsed(idle, r, w, k, s);
    forall i | LastActivityWrite(r, i, a) ensures exists m :: 0 <= m < c && IsPrompt(r, m, r.events[i].p, ACTIVITY_CLOCK) {
      var m := WriterClock(idle, r, i);
      assert !ReadAfter(r, i, s);
      LaterClockReadsMore(idle, r, c, m, s);
    }
    forall i | w < i < q ensures !WriteByOther(r, i, s) && !DeleteByOther(r, i, s) {
      PendingSignal(idle, r, w, q, s);
      if WriteByOther(r, i, s) || DeleteByOther(r, i, s) {
        LostForGood(idle, r, w, i, q, s);
      }
    }
  }

  /** A sender past its sleep is at least the idle window later than the write of its Stop. */
  lemma IdleElapsed(idle: nat, r: Run, w: nat, k: nat, s: nat)
    requires Legal(idle, r) && Is(r, w, s, WRITE) && k < |r.states|
    requires s in r.states[k].procs && r.states[k].procs[s].pc > WAKE
    ensures r.states[k].now >= r.events[w].at + idle
  {
    var sp := Happened(idle, r, k, s, SPAWN);
    var wk := Happened(idle, r, k, s, WAKE);
    assert Step(idle, r.states[w], r.events[w]) == Some(r.states[w + 1]);
    assert Step(idle, r.states[sp], r.events[sp]) == Some(r.states[sp + 1]);
    assert Step(idle, r.states[wk], r.events[wk]) == Some(r.states[wk + 1]);
    var w0 := Happened(idle, r, sp, s, WRITE);
    AtMostOnce(idle, r, w0, w, s, WRITE);
    var sp0 := Happened(idle, r, wk, s, SPAWN);
    AtMostOnce(idle, r, sp0, sp, s, SPAWN);
    TimeGrows(idle, r, w + 1, sp);
    ChainKept(idle, r, sp + 1, wk, s);
    TimeGrows(idle, r, wk + 1, k);
  }

  // ------------------------------------------------------ burst collapse

  /** The writes at events ks[0] < ks[1] < ... are Stops less than the idle window apart. */
  ghost predicate Burst(idle: nat, r: Run, ks: seq<nat>) {
    && (forall m :: 0 <= m < |ks| ==> ks[m] < |r.events| && r.events[ks[m]].Hook? && r.events[ks[m]].act.WritePending?)
    && (forall m :: 0 < m < |ks| ==> ks[m - 1] < ks[m] && r.events[ks[m]].at < r.events[ks[m - 1]].at + idle)
  }

  /** A Stop followed within the idle window by another Stop is never posted. */
  lemma SupersededInTime(idle: nat, r: Run, w: nat, i: nat, s: nat)
    requires Legal(idle, r) && Is(r, w, s, WRITE) && w < i
    requires WriteByOther(r, i, s) && r.events[i].at < r.events[w].at + idle
    ensures PostCount(r.states[|r.events|].posts, s) == 0
  {
    var n := |r.events|;
    PostsMatchChain(idle, r, n, s);
    if PostCount(r.states[n].posts, s) != 0 {
      var q := Happened(idle, r, n, s, READ_PENDING);
      var a := Happened(idle, r, n, s, READ_ACTIVITY);
      var d := Happened(idle, r, n, s, DECIDE);
      assert Step(idle, r.states[q], r.events[q]) == Some(r.states[q + 1]);
      assert Step(idle, r.states[i], r.events[i]) == Some(r.states[i + 1]);
      assert Step(idle, r.states[d], r.events[d]) == Some(r.states[d + 1]);
      IdleElapsed(idle, r, w, q, s);
      if q < i {
        TimeGrows(idle, r, q, i + 1);
      }
      assert SupersededBetween(r, w, q, s);
      DecisionMatchesFate(idle, r, s, w, a, q, d);
      ChainKept(idle, r, d + 1, n, s);
    }
  }

  ghost function BurstPosts(r: Run, ks: seq<nat>): nat
    requires |r.states| > 0
    requires forall m :: 0 <= m < |ks| ==> ks[m] < |r.events| && r.events[ks[m]].Hook?
  {
    if ks == [] then 0
    else PostCount(r.states[|r.states| - 1].posts, r.events[ks[0]].s) + BurstPosts(r, ks[1..])
  }

  /** A burst of Stops reaches the gateway at most once, and only through its last Stop. */
  lemma {:induction false} BurstCollapse(idle: nat, r: Run, ks: seq<nat>)
    requires Legal(idle, r) && ks != [] && Burst(idle, r, ks)
    ensures BurstPosts(r, ks) == PostCount(r.states[|r.events|].posts, r.events[ks[|ks| - 1]].s) <= 1
    decreases |ks|
  {
    if |ks| == 1 {
      assert ks[1..] == [];
      PostsMatchChain(idle, r, |r.events|, r.events[ks[0]].s);
    } else {
      var s := r.events[ks[0]].s;
      if r.events[ks[1]].s == s {
        AtMostOnce(idle, r, ks[0], ks[1], s, WRITE);
      }
      SupersededInTime(idle, r, ks[0], ks[1], s);
      BurstCollapse(idle, r, ks[1..]);
    }
  }

  // ------------------------------------------------------- never stuck

  /** A chain that has decided to send holds the entry it read. */
  lemma {:induction false} SenderHoldsEntry(idle: nat, r: Run, j: nat, s: nat)
    requires Legal(idle, r) && j < |r.states| && s in r.states[j].procs
    ensures 1 <= r.states[j].procs[s].pc <= DROPPED
    ensures DECIDE < r.states[j].procs[s].pc <= SENT ==> r.states[j].procs[s].sawPending.Some?
    decreases j
  {
    if j > 0 {
      assert Step(idle, r.states[j - 1], r.events[j - 1]) == Some(r.states[j]);
      if s in r.states[j - 1].procs {
        SenderHoldsEntry(idle, r, j - 1, s);
      }
    }
  }

  /** In every reachable state the next action of an unfinished Stop can happen. */
  lemma StopNeverStuck(idle: nat, r: Run, j: nat, s: nat, headline: string) returns (e: Event)
    requires Legal(idle, r) && j < |r.states| && s in r.states[j].procs
    requires r.states[j].procs[s].pc < SENT
    ensures e.Hook? && e.s == s && Rank(e.act) == r.states[j].procs[s].pc
    ensures Step(idle, r.states[j], e).Some?
  {
    SenderHoldsEntry(idle, r, j, s);
    var st, p := r.states[j], r.states[j].procs[s];
    var at := if st.now < p.spawnedAt + idle then p.spawnedAt + idle else st.now;
    var act :=
      if p.pc == 1 then ReadStart else if p.pc == 2 then UnlinkStart else if p.pc == 3 then WritePending(headline)
      else if p.pc == 4 then Spawn else if p.pc == 5 then Wake else if p.pc == 6 then ReadActivity
      else if p.pc == 7 then ReadPending else if p.pc == 8 then Decide else if p.pc == 9 then BeginPost
      else if p.pc == 10 then EndPost else DeletePending;
    e := Hook(at, s, act);
  }

  /** Nor is a prompt ever stuck, nor can a new Stop be kept out. */
  lemma PromptNeverStuck(idle: nat, st: State, p: nat) returns (e: Event)
    requires p !in st.prompts || (0 < st.prompts[p].pc < 4)
    ensures e.Prompt? && e.p == p && Step(idle, st, e).Some?
  {
    var at: nat := if st.lastClock < st.now then st.now else st.lastClock + 1;
    e := Prompt(at, p,
      if p !in st.prompts then ReadStartClock else if st.prompts[p].pc == 1 then WriteStart
      else if st.prompts[p].pc == 2 then ReadActivityClock else WriteActivity);
  }

  lemma StopCanStart(idle: nat, st: State, s: nat)
    requires st.now <= s && st.lastClock < s && s !in st.procs
    ensures Step(idle, st, Hook(s, s, ReadClock)).Some?
  {
  }
}
