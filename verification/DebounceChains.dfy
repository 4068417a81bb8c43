/**
 * What every run of the idle-debounce protocol keeps: chains move forward once, time grows,
 * and each file holds what its last write left.
 */
module DebounceChains {
  import opened Options
  import opened Debounce

  // ------------------------------------------------ facts about one chain

  /** From p to q a chain only moves forward and keeps every local it has set. */
  ghost predicate Kept(p: Proc, q: Proc) {
    && p.pc <= q.pc
    && (p.pc > 1 ==> q.startedAt == p.startedAt)
    && (p.pc > WRITE ==> q.payload == p.payload)
    && (p.pc > SPAWN ==> q.spawnedAt == p.spawnedAt)
    && (p.pc > READ_ACTIVITY ==> q.sawActivity == p.sawActivity)
    && (p.pc > READ_PENDING ==> q.sawPending == p.sawPending)
    && (p.pc > DECIDE ==> (p.pc == DROPPED <==> q.pc == DROPPED))
  }

  lemma StepKeepsChain(idle: nat, r: Run, i: nat, s: nat)
    requires Legal(idle, r) && i + 1 < |r.states| && s in r.states[i].procs
    ensures s in r.states[i + 1].procs && Kept(r.states[i].procs[s], r.states[i + 1].procs[s])
  {
    assert Step(idle, r.states[i], r.events[i]) == Some(r.states[i + 1]);
  }

  lemma KeptTransitive(p: Proc, q: Proc, v: Proc)
    requires Kept(p, q) && Kept(q, v)
    ensures Kept(p, v)
  {
  }

  ghost predicate KeptAt(states: seq<State>, k: nat, s: nat)
    requires k + 1 < |states|
  {
    s in states[k].procs ==> s in states[k + 1].procs && Kept(states[k].procs[s], states[k + 1].procs[s])
  }

  lemma {:induction false} KeptAlong(states: seq<State>, i: nat, j: nat, s: nat)
    requires i <= j < |states| && s in states[i].procs
    requires forall k :: i <= k < j ==> KeptAt(states, k, s)
    ensures s in states[j].procs && Kept(states[i].procs[s], states[j].procs[s])
    decreases j
  {
    if i < j {
      KeptAlong(states, i, j - 1, s);
      assert KeptAt(states, j - 1, s);
      KeptTransitive(states[i].procs[s], states[j - 1].procs[s], states[j].procs[s]);
    }
  }

  lemma ChainKept(idle: nat, r: Run, i: nat, j: nat, s: nat)
    requires Legal(idle, r) && i <= j < |r.states|
    requires s in r.states[i].procs
    ensures s in r.states[j].procs && Kept(r.states[i].procs[s], r.states[j].procs[s])
  {
    forall k | i <= k < j ensures KeptAt(r.states, k, s) {
      if s in r.states[k].procs { StepKeepsChain(idle, r, k, s); }
    }
    KeptAlong(r.states, i, j, s);
  }

  lemma {:induction false} TimeGrows(idle: nat, r: Run, i: nat, j: nat)
    requires Legal(idle, r) && i <= j < |r.states|
    ensures r.states[i].now <= r.states[j].now
    ensures r.states[i].lastClock <= r.states[j].lastClock
    decreases j
  {
    if i < j {
      TimeGrows(idle, r, i, j - 1);
      assert Step(idle, r.states[j - 1], r.events[j - 1]) == Some(r.states[j]);
    }
  }

  /** No action of a Stop's chain happens twice. */
  lemma AtMostOnce(idle: nat, r: Run, i: nat, j: nat, s: nat, k: nat)
    requires Legal(idle, r) && Is(r, i, s, k) && Is(r, j, s, k)
    ensures i == j
  {
    if i != j {
      var a, b := if i < j then i else j, if i < j then j else i;
      assert Step(idle, r.states[a], r.events[a]) == Some(r.states[a + 1]);
      assert Step(idle, r.states[b], r.events[b]) == Some(r.states[b + 1]);
      ChainKept(idle, r, a + 1, b, s);
      assert false;
    }
  }

  /** A chain past the decision point or before it got there through each earlier action. */
  lemma {:induction false} Happened(idle: nat, r: Run, j: nat, s: nat, k: nat) returns (i: nat)
    requires Legal(idle, r) && j < |r.states| && k <= DECIDE
    requires s in r.states[j].procs && r.states[j].procs[s].pc > k
    ensures i < j && Is(r, i, s, k)
    decreases j
  {
    assert Step(idle, r.states[j - 1], r.events[j - 1]) == Some(r.states[j]);
    if s in r.states[j - 1].procs && r.states[j - 1].procs[s].pc > k {
      i := Happened(idle, r, j - 1, s, k);
    } else {
      i := j - 1;
    }
  }

  // ----------------------------------------------------- prompts likewise

  /** From p to q a prompt only moves forward and keeps every time it has read. */
  ghost predicate PromptKept(p: PromptProc, q: PromptProc) {
    && p.pc <= q.pc && q.startAt == p.startAt
    && (p.pc > ACTIVITY_CLOCK ==> q.activeAt == p.activeAt)
  }

  lemma {:induction false} PromptChainKept(idle: nat, r: Run, i: nat, j: nat, p: nat)
    requires Legal(idle, r) && i <= j < |r.states|
    requires p in r.states[i].prompts
    ensures p in r.states[j].prompts && PromptKept(r.states[i].prompts[p], r.states[j].prompts[p])
    decreases j
  {
    if i < j {
      PromptChainKept(idle, r, i, j - 1, p);
      assert Step(idle, r.states[j - 1], r.events[j - 1]) == Some(r.states[j]);
    }
  }

  /** No action of a prompt happens twice. */
  lemma PromptAtMostOnce(idle: nat, r: Run, i: nat, j: nat, p: nat, k: nat)
    requires Legal(idle, r) && IsPrompt(r, i, p, k) && IsPrompt(r, j, p, k)
    ensures i == j
  {
    if i != j {
      var a, b := if i < j then i else j, if i < j then j else i;
      assert Step(idle, r.states[a], r.events[a]) == Some(r.states[a + 1]);
      assert Step(idle, r.states[b], r.events[b]) == Some(r.states[b + 1]);
      PromptChainKept(idle, r, a + 1, b, p);
      assert false;
    }
  }

  lemma {:induction false} PromptHappened(idle: nat, r: Run, j: nat, p: nat, k: nat) returns (i: nat)
    requires Legal(idle, r) && j < |r.states|
    requires p in r.states[j].prompts && r.states[j].prompts[p].pc > k
    ensures i < j && IsPrompt(r, i, p, k)
    decreases j
  {
    assert Step(idle, r.states[j - 1], r.events[j - 1]) == Some(r.states[j]);
    if p in r.states[j - 1].prompts && r.states[j - 1].prompts[p].pc > k {
      i := PromptHappened(idle, r, j - 1, p, k);
    } else {
      i := j - 1;
    }
  }

  // ------------------------------------------------- the activity marker

  /** Event i is the last write of the activity marker before event a. */
  ghost predicate LastActivityWrite(r: Run, i: int, a: int) {
    ActivityWrite(r, i) && i < a && forall k :: i < k < a ==> !ActivityWrite(r, k)
  }

  /** The prompt of event i had read its activity clock by then, and after s. */
  ghost predicate ReadAfter(r: Run, i: int, s: nat)
    requires ActivityWrite(r, i)
  {
    exists c :: 0 <= c < i && IsPrompt(r, c, r.events[i].p, ACTIVITY_CLOCK) && r.events[c].at > s
  }

  /** A write leaves the time its prompt read at an earlier event, and only that one. */
  lemma WriterClock(idle: nat, r: Run, i: nat) returns (c: nat)
    requires Legal(idle, r) && ActivityWrite(r, i)
    ensures c < i && IsPrompt(r, c, r.events[i].p, ACTIVITY_CLOCK)
    ensures r.states[i + 1].files.activity == Some(r.events[c].at)
    ensures forall s :: ReadAfter(r, i, s) <==> r.events[c].at > s
  {
    var p := r.events[i].p;
    assert Step(idle, r.states[i], r.events[i]) == Some(r.states[i + 1]);
    c := PromptHappened(idle, r, i, p, ACTIVITY_CLOCK);
    assert Step(idle, r.states[c], r.events[c]) == Some(r.states[c + 1]);
    PromptChainKept(idle, r, c + 1, i, p);
    forall s ensures ReadAfter(r, i, s) <==> r.events[c].at > s {
      if d :| 0 <= d < i && IsPrompt(r, d, p, ACTIVITY_CLOCK) && r.events[d].at > s {
        PromptAtMostOnce(idle, r, c, d, p, ACTIVITY_CLOCK);
      }
    }
  }

  lemma {:induction false} MarkerStays(idle: nat, r: Run, i: nat, j: nat)
    requires Legal(idle, r) && i <= j < |r.states|
    requires forall k :: i <= k < j ==> !ActivityWrite(r, k)
    ensures r.states[j].files.activity == r.states[i].files.activity
    decreases j
  {
    if i < j {
      MarkerStays(idle, r, i, j - 1);
      assert !ActivityWrite(r, j - 1);
      assert Step(idle, r.states[j - 1], r.events[j - 1]) == Some(r.states[j]);
    }
  }

  /** From a write before a, the last one before a. */
  lemma {:induction false} LastWriteFrom(r: Run, i: nat, a: nat) returns (l: nat)
    requires ActivityWrite(r, i) && i < a
    ensures i <= l && LastActivityWrite(r, l, a)
    decreases a
  {
    if ActivityWrite(r, a - 1) {
      l := a - 1;
    } else {
      l := LastWriteFrom(r, i, a - 1);
    }
  }

  /** The marker holds the time read by the prompt that wrote it last. */
  lemma MarkerIsLastWrite(idle: nat, r: Run, i: nat, a: nat) returns (c: nat)
    requires Legal(idle, r) && a < |r.states| && LastActivityWrite(r, i, a)
    ensures c < i && IsPrompt(r, c, r.events[i].p, ACTIVITY_CLOCK)
    ensures r.states[a].files.activity == Some(r.events[c].at)
    ensures forall s :: ReadAfter(r, i, s) <==> r.events[c].at > s
  {
    c := WriterClock(idle, r, i);
    MarkerStays(idle, r, i + 1, a);
  }

  lemma {:induction false} MarkerWasWritten(idle: nat, r: Run, a: nat) returns (i: nat)
    requires Legal(idle, r) && a < |r.states| && r.states[a].files.activity.Some?
    ensures LastActivityWrite(r, i, a)
    decreases a
  {
    assert Step(idle, r.states[a - 1], r.events[a - 1]) == Some(r.states[a]);
    if ActivityWrite(r, a - 1) {
      i := a - 1;
    } else {
      i := MarkerWasWritten(idle, r, a - 1);
    }
  }

  // ---------------------------------------------------- the pending file

  /** What the write action left in the pending file. */
  function Written(r: Run, w: int): Option<Pending>
    requires 0 <= w < |r.states| - 1
  {
    r.states[w + 1].files.pending
  }

  /** A write leaves the Stop's own entry: its timestamp, the end of the task, and what was said. */
  lemma WriteIsOwn(idle: nat, r: Run, w: nat, s: nat)
    requires Legal(idle, r) && Is(r, w, s, WRITE)
    ensures r.events[w].act.WritePending?
    ensures Written(r, w).Some? && Written(r, w).value.stopTs == s
    ensures Written(r, w).value.payload.endedAt == s
    ensures Written(r, w).value.payload.headline == r.events[w].act.headline
  {
    assert Step(idle, r.states[w], r.events[w]) == Some(r.states[w + 1]);
  }

  /** No foreign write or delete in (w, q): the pending file still holds what s wrote. */
  ghost predicate Untouched(r: Run, w: int, q: int, s: nat) {
    forall i :: w < i < q ==> !WriteByOther(r, i, s) && !DeleteByOther(r, i, s)
  }

  /** Between its write and its read of it, a chain leaves the pending file to the others. */
  lemma StepKeepsPending(idle: nat, r: Run, i: nat, s: nat)
    requires Legal(idle, r) && i + 1 < |r.states|
    requires s in r.states[i].procs && WRITE < r.states[i].procs[s].pc <= READ_PENDING
    requires !WriteByOther(r, i, s) && !DeleteByOther(r, i, s)
    ensures r.states[i + 1].files.pending == r.states[i].files.pending
  {
    assert Step(idle, r.states[i], r.events[i]) == Some(r.states[i + 1]);
  }

  lemma WriteMovesOn(idle: nat, r: Run, w: nat, s: nat)
    requires Legal(idle, r) && Is(r, w, s, WRITE)
    ensures s in r.states[w + 1].procs && r.states[w + 1].procs[s].pc > WRITE
  {
    assert Step(idle, r.states[w], r.events[w]) == Some(r.states[w + 1]);
  }

  lemma UntouchedStep(idle: nat, r: Run, w: nat, i: nat, q: nat, s: nat)
    requires Legal(idle, r) && Is(r, w, s, WRITE) && w < i < q < |r.states|
    requires s in r.states[q].procs && r.states[q].procs[s].pc <= READ_PENDING
    requires !WriteByOther(r, i, s) && !DeleteByOther(r, i, s)
    ensures r.states[i + 1].files.pending == r.states[i].files.pending
  {
    WriteMovesOn(idle, r, w, s);
    ChainKept(idle, r, w + 1, i, s);
    ChainKept(idle, r, i, q, s);
    StepKeepsPending(idle, r, i, s);
  }

  lemma {:induction false} PendingConstant(states: seq<State>, i: nat, j: nat)
    requires i <= j < |states|
    requires forall k :: i <= k < j ==> states[k + 1].files.pending == states[k].files.pending
    ensures states[j].files.pending == states[i].files.pending
    decreases j
  {
    if i < j { PendingConstant(states, i, j - 1); }
  }

  lemma UntouchedStays(idle: nat, r: Run, w: nat, q: nat, s: nat)
    requires Legal(idle, r) && Is(r, w, s, WRITE) && w < q < |r.states|
    requires s in r.states[q].procs && r.states[q].procs[s].pc <= READ_PENDING
    requires Untouched(r, w, q, s)
    ensures r.states[q].files.pending == Written(r, w)
  {
    forall i | w < i < q ensures r.states[i + 1].files.pending == r.states[i].files.pending {
      UntouchedStep(idle, r, w, i, q, s);
    }
    PendingConstant(r.states, w + 1, q);
  }

  /** Once another chain has written or deleted the pending file it never returns to s. */
  lemma {:induction false} LostForGood(idle: nat, r: Run, w: nat, i: nat, q: nat, s: nat)
    requires Legal(idle, r) && Is(r, w, s, WRITE) && w < i < q < |r.states|
    requires WriteByOther(r, i, s) || DeleteByOther(r, i, s)
    ensures StopTsOf(r.states[q].files.pending) != Some(s)
    decreases q
  {
    assert Step(idle, r.states[q - 1], r.events[q - 1]) == Some(r.states[q]);
    if i + 1 < q {
      LostForGood(idle, r, w, i, q - 1, s);
      if Is(r, q - 1, s, WRITE) {
        AtMostOnce(idle, r, w, q - 1, s, WRITE);
      }
    }
  }
}
