/**
 * Runs of the idle-debounce protocol in which less happens than its documents say.
 */
module DebounceRuns {
  import opened Options
  import opened Debounce
  import opened DebounceChains
  import opened DebounceProofs
  import opened StartTimes

  // ------------------------------------------------------ building runs

  ghost function Last(r: Run): State
    requires |r.states| > 0
  {
    r.states[|r.states| - 1]
  }

  lemma Append(idle: nat, r: Run, e: Event) returns (r': Run)
    requires Legal(idle, r) && Step(idle, Last(r), e).Some?
    ensures Legal(idle, r') && r'.events == r.events + [e]
    ensures Last(r') == Step(idle, Last(r), e).value
  {
    r' := Run(r.events + [e], r.states + [Step(idle, Last(r), e).value]);
    forall i | 0 <= i < |r'.events| ensures Step(idle, r'.states[i], r'.events[i]) == Some(r'.states[i + 1]) {
      if i < |r.events| {
        assert r'.states[i] == r.states[i] && r'.states[i + 1] == r.states[i + 1] && r'.events[i] == r.events[i];
      }
    }
  }

  lemma Extend(idle: nat, r: Run, at: nat, s: nat, act: Action) returns (r': Run)
    requires Legal(idle, r) && Step(idle, Last(r), Hook(at, s, act)).Some?
    ensures Legal(idle, r') && r'.events == r.events + [Hook(at, s, act)]
    ensures Last(r') == Step(idle, Last(r), Hook(at, s, act)).value
  {
    r' := Append(idle, r, Hook(at, s, act));
  }

  /** Stop s runs its hook process at time s undisturbed, up to its first write. */
  lemma PlayHookStart(idle: nat, r: Run, s: nat) returns (r': Run)
    requires Legal(idle, r) && Last(r).now <= s && Last(r).lastClock < s && s !in Last(r).procs
    ensures Legal(idle, r')
    ensures r'.events == r.events + [Hook(s, s, ReadClock), Hook(s, s, ReadStart), Hook(s, s, UnlinkStart)]
    ensures var st := Last(r);
      Last(r') == st.(now := s, lastClock := s, files := st.files.(start := None),
                      procs := st.procs[s := Proc(WRITE, st.files.start, None, 0, None, None)])
  {
    r' := Extend(idle, r, s, s, ReadClock);
    r' := Extend(idle, r', s, s, ReadStart);
    r' := Extend(idle, r', s, s, UnlinkStart);
  }

  /** ... and on, up to the spawn of its sender. */
  lemma PlayHook(idle: nat, r: Run, s: nat, headline: string) returns (r': Run)
    requires Legal(idle, r) && Last(r).now <= s && Last(r).lastClock < s && s !in Last(r).procs
    ensures Legal(idle, r')
    ensures r'.events == r.events + [Hook(s, s, ReadClock), Hook(s, s, ReadStart), Hook(s, s, UnlinkStart),
                                     Hook(s, s, WritePending(headline)), Hook(s, s, Spawn)]
    ensures var st := Last(r);
      Last(r') == st.(now := s, lastClock := s, files := AfterStop(st.files, s, headline),
                      procs := st.procs[s := Proc(WAKE, st.files.start,
                        Some(BuildPayload(s, st.files.start, headline)), s, None, None)])
  {
    r' := PlayHookStart(idle, r, s);
    r' := Extend(idle, r', s, s, WritePending(headline));
    r' := Extend(idle, r', s, s, Spawn);
  }

  /** The sender of Stop s wakes once its idle window is over and reads both markers. */
  lemma PlayReads(idle: nat, r: Run, at: nat, s: nat) returns (r': Run)
    requires Legal(idle, r) && Last(r).now <= at && s in Last(r).procs
    requires Last(r).procs[s].pc == WAKE && Last(r).procs[s].spawnedAt + idle <= at
    ensures Legal(idle, r')
    ensures r'.events == r.events + [Hook(at, s, Wake), Hook(at, s, ReadActivity), Hook(at, s, ReadPending)]
    ensures var st := Last(r);
      Last(r') == st.(now := at, procs := st.procs[s := st.procs[s].(
        pc := DECIDE, sawActivity := st.files.activity, sawPending := st.files.pending)])
  {
    r' := Extend(idle, r, at, s, Wake);
    r' := Extend(idle, r', at, s, ReadActivity);
    r' := Extend(idle, r', at, s, ReadPending);
  }

  /** ... and decides. */
  lemma PlayWake(idle: nat, r: Run, at: nat, s: nat) returns (r': Run)
    requires Legal(idle, r) && Last(r).now <= at && s in Last(r).procs
    requires Last(r).procs[s].pc == WAKE && Last(r).procs[s].spawnedAt + idle <= at
    ensures Legal(idle, r')
    ensures r'.events == r.events + [Hook(at, s, Wake), Hook(at, s, ReadActivity),
                                     Hook(at, s, ReadPending), Hook(at, s, Decide)]
    ensures var st := Last(r);
      var send := ShouldDeferredSend(st.files.activity, StopTsOf(st.files.pending), s);
      Last(r') == st.(now := at, procs := st.procs[s := st.procs[s].(
        pc := if send then BEGIN_POST else DROPPED, sawActivity := st.files.activity, sawPending := st.files.pending)])
  {
    r' := PlayReads(idle, r, at, s);
    r' := Extend(idle, r', at, s, Decide);
  }

  /** A sender that has decided to send posts and deletes whatever the pending file holds. */
  lemma PlaySend(idle: nat, r: Run, at: nat, s: nat) returns (r': Run)
    requires Legal(idle, r) && Last(r).now <= at && s in Last(r).procs
    requires Last(r).procs[s].pc == BEGIN_POST && Last(r).procs[s].sawPending.Some?
    ensures Legal(idle, r')
    ensures r'.events == r.events + [Hook(at, s, BeginPost), Hook(at, s, EndPost), Hook(at, s, DeletePending)]
    ensures var st := Last(r);
      Last(r') == st.(now := at, files := st.files.(pending := None),
                      procs := st.procs[s := st.procs[s].(pc := SENT)],
                      posts := st.posts + [Post(s, st.procs[s].sawPending.value.payload, at)])
  {
    r' := Extend(idle, r, at, s, BeginPost);
    r' := Extend(idle, r', at, s, EndPost);
    r' := Extend(idle, r', at, s, DeletePending);
  }

  /** Prompt p runs at one time up to and including its second clock read. */
  lemma PlayPromptToClock(idle: nat, r: Run, at: nat, p: nat) returns (r': Run)
    requires Legal(idle, r) && Last(r).now <= at && Last(r).lastClock < at && p !in Last(r).prompts
    ensures Legal(idle, r')
    ensures r'.events == r.events + [Prompt(at, p, ReadStartClock), Prompt(at, p, WriteStart), Prompt(at, p, ReadActivityClock)]
    ensures var st := Last(r);
      Last(r') == st.(now := at, lastClock := at, files := st.files.(start := Some(at)),
                      prompts := st.prompts[p := PromptProc(3, at, at)])
  {
    r' := Append(idle, r, Prompt(at, p, ReadStartClock));
    r' := Append(idle, r', Prompt(at, p, WriteStart));
    r' := Append(idle, r', Prompt(at, p, ReadActivityClock));
  }

  /** Prompt p runs undisturbed. */
  lemma PlayPrompt(idle: nat, r: Run, at: nat, p: nat) returns (r': Run)
    requires Legal(idle, r) && Last(r).now <= at && Last(r).lastClock < at && p !in Last(r).prompts
    ensures Legal(idle, r')
    ensures r'.events == r.events + [Prompt(at, p, ReadStartClock), Prompt(at, p, WriteStart),
                                     Prompt(at, p, ReadActivityClock), Prompt(at, p, WriteActivity)]
    ensures var st := Last(r);
      Last(r') == st.(now := at, lastClock := at, files := st.files.(start := Some(at), activity := Some(at)),
                      prompts := st.prompts[p := PromptProc(4, at, at)])
  {
    r' := PlayPromptToClock(idle, r, at, p);
    r' := Append(idle, r', Prompt(at, p, WriteActivity));
  }

  // ----------------------------------------------- newest is not posted

  /** Stop s is the newest of the run: no Stop has read a later time. */
  ghost predicate Newest(r: Run, s: nat) {
    forall i: int, s': nat :: Is(r, i, s', CLOCK) ==> s' <= s
  }

  ghost predicate NoPrompts(r: Run) {
    forall i :: 0 <= i < |r.events| ==> !r.events[i].Prompt?
  }

  /** Every event so far belongs to the chain of Stop s. */
  ghost predicate Only(r: Run, s: nat) {
    forall i :: 0 <= i < |r.events| ==> r.events[i].Hook? && r.events[i].s == s
  }

  /** Stop 0 alone, up to its sender's decision to send. */
  lemma FirstDecides(idle: nat) returns (r: Run)
    ensures Legal(idle, r) && Only(r, 0) && Last(r).now == idle && Last(r).lastClock == 0
    ensures Last(r).files.start == None && Last(r).files.activity == None && Last(r).posts == []
    ensures Last(r).procs.Keys == {0} && Last(r).procs[0].pc == BEGIN_POST && Last(r).procs[0].sawPending.Some?
  {
    r := Run([], [INIT]);
    r := PlayHook(idle, r, 0, "");
    r := PlayWake(idle, r, idle, 0);
  }

  /**
   * For every idle window there is a run with no prompt at all whose newest Stop is never
   * posted: the older sender's clean-up, after its own POST, deletes the newer entry.
   */
  lemma NewestStopCanBeErased(idle: nat) returns (r: Run, s: nat, w: nat)
    requires idle > 0
    ensures Legal(idle, r) && Finished(r, s) && Newest(r, s) && Is(r, w, s, WRITE) && NoPrompts(r)
    ensures forall i :: w < i < |r.events| ==> !WriteByOther(r, i, s)
    ensures PostCount(Last(r).posts, s) == 0
  {
    r := FirstDecides(idle);
    s, w := idle, |r.events| + WRITE;
    r := PlayHook(idle, r, s, "");
    r := PlaySend(idle, r, s, 0);
    r := PlayWake(idle, r, s + idle, s);
    PostsMatchChain(idle, r, |r.events|, s);
  }

  /**
   * Nor need it be an erasure: a hook process delayed between its clock read and its write
   * replaces the entry of a newer Stop, whose sender then finds itself superseded.
   */
  lemma OlderStopCanSupersede(idle: nat) returns (r: Run, s: nat)
    requires idle > 0
    ensures Legal(idle, r) && Finished(r, s) && Newest(r, s) && NoPrompts(r)
    ensures forall i :: 0 <= i < |r.events| ==> !(r.events[i].Hook? && r.events[i].act.DeletePending?)
    ensures PostCount(Last(r).posts, s) == 0
  {
    s := 1;
    r := Run([], [INIT]);
    r := PlayHookStart(idle, r, 0);
    r := PlayHook(idle, r, s, "");
    r := Extend(idle, r, s, 0, WritePending(""));
    r := PlayWake(idle, r, s + idle, s);
    PostsMatchChain(idle, r, |r.events|, s);
  }

  // ------------------------------------------------ a burst posted twice

  /** Stop 0 posts while the hook of Stop 1 stands between its start unlink and its write. */
  lemma PostBesideDelayedHook(idle: nat) returns (r: Run)
    requires idle > 1
    ensures Legal(idle, r) && NoPrompts(r)
    ensures PostCount(Last(r).posts, 0) == 1 && PostCount(Last(r).posts, 1) == 0
    ensures Last(r).now == idle && Last(r).files == Files(None, None, None)
    ensures 1 in Last(r).procs && Last(r).procs[1] == Proc(WRITE, None, None, 0, None, None)
  {
    r := Run([], [INIT]);
    r := PlayHook(idle, r, 0, "");
    r := PlayHookStart(idle, r, 1);
    r := PlayWake(idle, r, idle, 0);
    r := PlaySend(idle, r, idle, 0);
  }

  /**
   * What collapses a burst is the gap between the writes of the pending file. Two Stops whose
   * timestamps are less than the window apart are both posted when the second writes late.
   */
  lemma LateWriteEscapesBurst(idle: nat) returns (r: Run)
    requires idle > 1
    ensures Legal(idle, r) && NoPrompts(r)
    ensures PostCount(Last(r).posts, 0) == 1 && PostCount(Last(r).posts, 1) == 1
  {
    r := PostBesideDelayedHook(idle);
    r := Extend(idle, r, idle, 1, WritePending(""));
    r := Extend(idle, r, idle, 1, Spawn);
    r := PlayWake(idle, r, idle + idle, 1);
    ghost var posts := Last(r).posts;
    r := Extend(idle, r, idle + idle, 1, BeginPost);
    assert Last(r).posts[..|posts|] == posts;
  }

  // --------------------------------------------- prompts that do not cancel

  /** Event i writes the marker for a prompt that read its clock after s, before event k. */
  ghost predicate RecordedBefore(r: Run, i: int, s: nat, k: int) {
    ActivityWrite(r, i) && ReadAfter(r, i, s) && i < k
  }

  /**
   * A prompt cancels only up to the sender's activity read: for every idle window there is a
   * run in which a newer prompt is recorded before the POST begins and the Stop is posted.
   */
  lemma LatePromptDoesNotCancel(idle: nat) returns (r: Run, s: nat, i: nat, k: nat)
    ensures Legal(idle, r) && Is(r, k, s, BEGIN_POST) && RecordedBefore(r, i, s, k)
    ensures PostCount(Last(r).posts, s) == 1
  {
    s := 0;
    r := Run([], [INIT]);
    r := PlayHook(idle, r, s, "");
    r := PlayReads(idle, r, idle, s);
    i := |r.events| + 3;
    r := PlayPrompt(idle, r, idle + 1, 0);
    r := Extend(idle, r, idle + 1, s, Decide);
    k := |r.events|;
    r := Extend(idle, r, idle + 1, s, BeginPost);
    IsRecorded(r, i, i - 1, s, k);
    PostsMatchChain(idle, r, |r.events|, s);
  }

  lemma IsRecorded(r: Run, i: nat, c: nat, s: nat, k: nat)
    requires ActivityWrite(r, i) && IsPrompt(r, c, r.events[i].p, ACTIVITY_CLOCK) && c < i < k && r.events[c].at > s
    ensures RecordedBefore(r, i, s, k)
  {
  }

  /**
   * Prompt 0 reads its clock at 0, Stop 1 starts to wait, prompt 1 runs at 2, and only then
   * does prompt 0 write its marker.
   */
  lemma SlowPrompt(idle: nat) returns (r: Run)
    ensures Legal(idle, r) && |r.events| == 13
    ensures r.events[10] == Prompt(2, 1, ReadActivityClock) && r.events[11] == Prompt(2, 1, WriteActivity)
    ensures Last(r).now == 2 && Last(r).files.activity == Some(0) && Last(r).posts == []
    ensures 1 in Last(r).procs && Last(r).procs[1].pc == WAKE && Last(r).procs[1].spawnedAt == 1
    ensures StopTsOf(Last(r).files.pending) == Some(1)
  {
    r := Run([], [INIT]);
    r := PlayPromptToClock(idle, r, 0, 0);
    r := PlayHook(idle, r, 1, "");
    r := PlayPrompt(idle, r, 2, 1);
    r := Append(idle, r, Prompt(2, 0, WriteActivity));
  }

  /** A sender that wakes to its own pending entry and a marker no newer than its Stop posts. */
  lemma PlayPost(idle: nat, r: Run, at: nat, s: nat) returns (r': Run)
    requires Legal(idle, r) && Last(r).now <= at && s in Last(r).procs && Last(r).posts == []
    requires Last(r).procs[s].pc == WAKE && Last(r).procs[s].spawnedAt + idle <= at
    requires ShouldDeferredSend(Last(r).files.activity, StopTsOf(Last(r).files.pending), s)
    ensures Legal(idle, r') && PostCount(Last(r').posts, s) == 1
    ensures r'.events == r.events + [Hook(at, s, Wake), Hook(at, s, ReadActivity), Hook(at, s, ReadPending),
                                     Hook(at, s, Decide), Hook(at, s, BeginPost)]
  {
    r' := PlayWake(idle, r, at, s);
    r' := Extend(idle, r', at, s, BeginPost);
    PostsMatchChain(idle, r', |r'.events|, s);
  }

  /**
   * The marker can go back: a prompt delayed between its clock read and its write undoes the
   * cancellation by a newer one, and a Stop older than a recorded prompt is posted.
   */
  lemma SlowPromptUndoesCancel(idle: nat) returns (r: Run, s: nat, i: nat, a: nat)
    ensures Legal(idle, r) && Is(r, a, s, READ_ACTIVITY) && RecordedBefore(r, i, s, a)
    ensures PostCount(Last(r).posts, s) == 1
  {
    s, i, a := 1, 11, 14;
    r := SlowPrompt(idle);
    r := PlayPost(idle, r, idle + 2, s);
    IsRecorded(r, i, 10, s, a);
  }

  // ----------------------------------------------------- a start time lost

  /** Stop 1 has read the start of prompt 0 and unlinks only after prompt 1 has written its own. */
  lemma UnlinkAfterPrompt(idle: nat) returns (r: Run)
    ensures Legal(idle, r) && |r.events| == 9 && StartWrite(r, 6)
    ensures r.events[7].Prompt? && r.events[8].Hook? && r.events[8].act.UnlinkStart?
    ensures Last(r).now == 2 && Last(r).lastClock == 2 && Last(r).files.start == None && Last(r).procs.Keys == {1}
  {
    r := Run([], [INIT]);
    r := PlayPromptToClock(idle, r, 0, 0);
    r := Extend(idle, r, 1, 1, ReadClock);
    r := Extend(idle, r, 1, 1, ReadStart);
    r := PlayPromptToClock(idle, r, 2, 1);
    r := Extend(idle, r, 2, 1, UnlinkStart);
  }

  /** The rest of a hook process that has read its clock, up to its write. */
  lemma PlayFromRead(idle: nat, r: Run, s: nat) returns (r': Run)
    requires Legal(idle, r) && Last(r).now == s && s in Last(r).procs && Last(r).procs[s].pc == READ_START
    ensures Legal(idle, r')
    ensures r'.events == r.events + [Hook(s, s, ReadStart), Hook(s, s, UnlinkStart), Hook(s, s, WritePending(""))]
    ensures Last(r').files.pending == Some(Pending(s, BuildPayload(s, Last(r).files.start, "")))
  {
    r' := Extend(idle, r, s, s, ReadStart);
    r' := Extend(idle, r', s, s, UnlinkStart);
    r' := Extend(idle, r', s, s, WritePending(""));
  }

  /**
   * A Stop can lose the start of a prompt that came before it though no other Stop ever reads
   * it: an earlier Stop that had read the file already unlinks what was written since.
   */
  lemma StartLostToEarlierStop(idle: nat) returns (r: Run, p: nat, c: nat, b: nat, w: nat)
    ensures Legal(idle, r) && p < c < b < w && StartWrite(r, p)
    ensures Is(r, c, 3, CLOCK) && Is(r, b, 3, READ_START) && Is(r, w, 3, WRITE) && !Cached(r, b)
    ensures forall i :: p < i < b ==> !(r.events[i].Hook? && r.events[i].act.ReadStart?)
    ensures Written(r, w).Some? && Written(r, w).value.payload.durationMs == None
  {
    p, c, b, w := 6, 9, 10, 12;
    r := UnlinkAfterPrompt(idle);
    r := Extend(idle, r, 3, 3, ReadClock);
    r := PlayFromRead(idle, r, 3);
    DurationIffCached(idle, r, 3, b, w);
  }
}
