/**
 * The start file: exactly when a Stop finds a start time, which one, and so exactly when its
 * message carries a duration.
 */
module StartTimes {
  import opened Options
  import opened Debounce
  import opened DebounceChains

  /**
   * Read off the order of events alone: a start time is in the file before event b. The
   * latest write puts one there; an unlink takes it away only if the unlinking Stop's own
   * read had found one.
   */
  ghost predicate Cached(r: Run, b: nat)
    decreases b
  {
    0 < b <= |r.events| &&
    (StartWrite(r, b - 1) || (!TakenAway(r, b - 1) && Cached(r, b - 1)))
  }

  /** Event u unlinks the start file after the same Stop's read had found it. */
  ghost predicate TakenAway(r: Run, u: nat)
    decreases u
  {
    && u < |r.events| && r.events[u].Hook? && r.events[u].act.UnlinkStart?
    && exists j: nat :: j < u && Is(r, j, r.events[u].s, READ_START) && Cached(r, j)
  }

  /** The local an unlinking or writing Stop holds is what its one start read found. */
  lemma ReadIsKept(idle: nat, r: Run, j: nat, s: nat, i: nat, k: nat)
    requires Legal(idle, r) && Is(r, j, s, READ_START) && Is(r, i, s, k) && READ_START < k
    ensures j < i && s in r.states[i].procs && r.states[i].procs[s].startedAt == r.states[j].files.start
  {
    assert Step(idle, r.states[i], r.events[i]) == Some(r.states[i + 1]);
    assert Step(idle, r.states[j], r.events[j]) == Some(r.states[j + 1]);
    var j' := Happened(idle, r, i, s, READ_START);
    AtMostOnce(idle, r, j', j, s, READ_START);
    ChainKept(idle, r, j + 1, i, s);
  }

  /** An unlink acts exactly when the same Stop's one start read had found something. */
  lemma TakenAwayIff(idle: nat, r: Run, u: nat) returns (j: nat)
    requires Legal(idle, r) && u < |r.events| && r.events[u].Hook? && r.events[u].act.UnlinkStart?
    ensures j < u && (TakenAway(r, u) <==> Cached(r, j))
    ensures r.states[u + 1].files.start == if r.states[j].files.start.Some? then None else r.states[u].files.start
  {
    var s := r.events[u].s;
    assert Step(idle, r.states[u], r.events[u]) == Some(r.states[u + 1]);
    j := Happened(idle, r, u, s, READ_START);
    ReadIsKept(idle, r, j, s, u, UNLINK_START);
    if i: nat :| i < u && Is(r, i, s, READ_START) && Cached(r, i) {
      AtMostOnce(idle, r, j, i, s, READ_START);
    }
  }

  lemma StartStays(idle: nat, r: Run, i: nat)
    requires Legal(idle, r) && i < |r.events| && !StartWrite(r, i)
    requires !(r.events[i].Hook? && r.events[i].act.UnlinkStart?)
    ensures r.states[i + 1].files.start == r.states[i].files.start && !TakenAway(r, i)
  {
    assert Step(idle, r.states[i], r.events[i]) == Some(r.states[i + 1]);
  }

  /** The start file is there exactly when the events say so. */
  lemma {:induction false} CachedSignal(idle: nat, r: Run, b: nat)
    requires Legal(idle, r) && b < |r.states|
    ensures r.states[b].files.start.Some? <==> Cached(r, b)
    decreases b
  {
    if b > 0 {
      CachedSignal(idle, r, b - 1);
      if StartWrite(r, b - 1) {
        assert Step(idle, r.states[b - 1], r.events[b - 1]) == Some(r.states[b]);
      } else if r.events[b - 1].Hook? && r.events[b - 1].act.UnlinkStart? {
        var j := TakenAwayIff(idle, r, b - 1);
        CachedSignal(idle, r, j);
      } else {
        StartStays(idle, r, b - 1);
      }
    }
  }

  /** Event p is the last write of the start file before event b. */
  ghost predicate LastStartWrite(r: Run, p: int, b: int) {
    StartWrite(r, p) && p < b && forall k :: p < k < b ==> !StartWrite(r, k)
  }

  /** What is in the file is the time the prompt that wrote it last had read. */
  lemma {:induction false} StartWasWritten(idle: nat, r: Run, b: nat) returns (p: nat, c: nat)
    requires Legal(idle, r) && b < |r.states| && r.states[b].files.start.Some?
    ensures c < p && LastStartWrite(r, p, b) && IsPrompt(r, c, r.events[p].p, START_CLOCK)
    ensures r.states[b].files.start == Some(r.events[c].at)
    decreases b
  {
    assert Step(idle, r.states[b - 1], r.events[b - 1]) == Some(r.states[b]);
    if StartWrite(r, b - 1) {
      p := b - 1;
      c := PromptHappened(idle, r, p, r.events[p].p, START_CLOCK);
      assert Step(idle, r.states[c], r.events[c]) == Some(r.states[c + 1]);
      PromptChainKept(idle, r, c + 1, p, r.events[p].p);
    } else {
      p, c := StartWasWritten(idle, r, b - 1);
    }
  }

  /** A message carries a duration exactly when the Stop's start read found a cached time. */
  lemma DurationIffCached(idle: nat, r: Run, s: nat, b: nat, w: nat)
    requires Legal(idle, r) && Is(r, b, s, READ_START) && Is(r, w, s, WRITE)
    ensures Written(r, w).Some? && Written(r, w).value.payload.endedAt == s
    ensures Written(r, w).value.payload.durationMs.Some? <==> Cached(r, b)
  {
    assert Step(idle, r.states[w], r.events[w]) == Some(r.states[w + 1]);
    ReadIsKept(idle, r, b, s, w, WRITE);
    CachedSignal(idle, r, b);
  }

  /**
   * That duration runs from the time read by the prompt that wrote the start file last, and
   * it is negative only if that prompt read its clock after the Stop had.
   */
  lemma DurationSinceLastStart(idle: nat, r: Run, s: nat, b: nat, w: nat) returns (p: nat, c: nat, k: nat)
    requires Legal(idle, r) && Is(r, b, s, READ_START) && Is(r, w, s, WRITE) && Cached(r, b)
    ensures c < p && LastStartWrite(r, p, b) && IsPrompt(r, c, r.events[p].p, START_CLOCK)
    ensures Written(r, w).Some? && Written(r, w).value.payload.durationMs == Some(s - r.events[c].at)
    ensures Is(r, k, s, CLOCK) && (c < k ==> s - r.events[c].at >= 0)
  {
    CachedSignal(idle, r, b);
    p, c := StartWasWritten(idle, r, b);
    assert Step(idle, r.states[w], r.events[w]) == Some(r.states[w + 1]);
    ReadIsKept(idle, r, b, s, w, WRITE);
    assert Step(idle, r.states[b], r.events[b]) == Some(r.states[b + 1]);
    k := Happened(idle, r, b, s, CLOCK);
    assert Step(idle, r.states[k], r.events[k]) == Some(r.states[k + 1]);
    assert Step(idle, r.states[c], r.events[c]) == Some(r.states[c + 1]);
    if c < k {
      TimeGrows(idle, r, c + 1, k);
    }
  }

  lemma {:induction false} NotCachedStays(r: Run, i: nat, j: nat)
    requires i <= j <= |r.events| && !Cached(r, i)
    requires forall k :: i <= k < j ==> !StartWrite(r, k)
    ensures !Cached(r, j)
    decreases j
  {
    if i < j {
      NotCachedStays(r, i, j - 1);
    }
  }

  /** The first of two Stops consumes the start time: with no write since, the second has none. */
  lemma LaterStopLosesStart(idle: nat, r: Run, s1: nat, s2: nat, b1: nat, u1: nat, b2: nat, w2: nat)
    requires Legal(idle, r)
    requires Is(r, b1, s1, READ_START) && Is(r, u1, s1, UNLINK_START) && Is(r, b2, s2, READ_START) && Is(r, w2, s2, WRITE)
    requires u1 < b2 && forall i :: b1 < i < b2 ==> !StartWrite(r, i)
    ensures Written(r, w2).Some? && Written(r, w2).value.payload.durationMs == None
  {
    ReadIsKept(idle, r, b1, s1, u1, UNLINK_START);
    if Cached(r, b1) {
      assert TakenAway(r, u1);
      NotCachedStays(r, u1 + 1, b2);
    } else {
      NotCachedStays(r, b1, b2);
    }
    DurationIffCached(idle, r, s2, b2, w2);
  }
}
