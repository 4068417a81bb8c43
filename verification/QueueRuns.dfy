/**
 * Every interleaving of panel edits, dispatch attempts that may fail midway and delivery
 * attempts, over a job queue that retries a bounded number of times and keeps the jobs
 * whose attempts are exhausted.
 */
module QueueRuns {
  import opened Options
  import opened ConfigTypes
  import opened Dispatch

  /** The part of the store the workers read: instances by id, and default ids by profile. */
  datatype Panel = Panel(channels: map<string, Channel>, defaults: map<string, seq<string>>)

  /**
   * `started` counts attempts; the rest belongs to the latest one: the enabled ids it has
   * read while it has not yet read its profile, then what it resolved and has yet to enqueue.
   */
  datatype DispatchRec = DispatchRec(
    profileId: string, requested: Option<seq<string>>, started: nat,
    enabled: Option<set<string>>, resolved: seq<string>, remaining: seq<string>)

  /** One delivery job; jobs are numbered in the order they are added. */
  datatype Job = Job(dispatch: nat, channel: string)

  /** The four states a queue keeps a job in. */
  datatype Board = Board(waiting: set<nat>, active: set<nat>, done: set<nat>, dead: set<nat>)

  datatype Send = Send(job: nat, instance: Channel)

  datatype State = State(
    panel: Panel,
    dispatches: seq<DispatchRec>,
    dispatchBoard: Board,
    jobs: seq<Job>,
    failures: seq<nat>,      // failed attempts of each delivery job
    jobBoard: Board,
    sending: set<nat>,       // active jobs whose send has begun
    sends: seq<Send>)        // every send so far, with the instance it used

  datatype Event =
    | Edit(panel: Panel)
    | AddDispatch(profileId: string, requested: Option<seq<string>>)
    | StartDispatch(d: nat)   // reads the enabled instances
    | ResolveDispatch(d: nat) // reads the profile's defaults if it needs them, and resolves
    | AddNextJob(d: nat)
    | FailDispatch(d: nat)
    | FinishDispatch(d: nat)
    | StartJob(j: nat)
    | ReadInstance(j: nat)   // skip, fail for want of an adapter, or begin the send
    | SendOk(j: nat)
    | SendFail(j: nat)

  const EMPTY := Board({}, {}, {}, {})

  const INIT := State(Panel(map[], map[]), [], EMPTY, [], [], EMPTY, {}, [])

  function Activate(b: Board, i: nat): Board {
    b.(waiting := b.waiting - {i}, active := b.active + {i})
  }

  function Complete(b: Board, i: nat): Board {
    b.(active := b.active - {i}, done := b.done + {i})
  }

  /** After a failed attempt: back in line, or to the dead letters if it was the last. */
  function Retry(b: Board, i: nat, last: bool): Board {
    if last then b.(active := b.active - {i}, dead := b.dead + {i})
    else b.(active := b.active - {i}, waiting := b.waiting + {i})
  }

  function EnabledOn(p: Panel): set<string> {
    set id | id in p.channels && p.channels[id].enabled
  }

  function SourceOf(p: Panel, r: DispatchRec): seq<string> {
    if r.requested.Some? then r.requested.value
    else if r.profileId in p.defaults then p.defaults[r.profileId] else []
  }

  /** A failed delivery attempt of job j. */
  function FailJob(attempts: nat, s: State, j: nat): State
    requires j < |s.failures|
  {
    s.(failures := s.failures[j := s.failures[j] + 1],
       jobBoard := Retry(s.jobBoard, j, s.failures[j] + 1 >= attempts),
       sending := s.sending - {j})
  }

  function Step(attempts: nat, known: set<string>, s: State, e: Event): Option<State> {
    match e
    case Edit(panel) => Some(s.(panel := panel))
    case AddDispatch(profileId, requested) =>
      var d := |s.dispatches|;
      Some(s.(dispatches := s.dispatches + [DispatchRec(profileId, requested, 0, None, [], [])],
              dispatchBoard := s.dispatchBoard.(waiting := s.dispatchBoard.waiting + {d})))
    case StartDispatch(d) =>
      if d !in s.dispatchBoard.waiting || d >= |s.dispatches| then None
      else
        var r := s.dispatches[d].(
          started := s.dispatches[d].started + 1, enabled := Some(EnabledOn(s.panel)), resolved := [], remaining := []);
        Some(s.(dispatches := s.dispatches[d := r], dispatchBoard := Activate(s.dispatchBoard, d)))
    case ResolveDispatch(d) =>
      if d !in s.dispatchBoard.active || d >= |s.dispatches| || s.dispatches[d].enabled.None? then None
      else
        var r := s.dispatches[d];
        var ids := Resolve(SourceOf(s.panel, r), r.enabled.value);
        Some(s.(dispatches := s.dispatches[d := r.(enabled := None, resolved := ids, remaining := ids)]))
    case AddNextJob(d) =>
      if d !in s.dispatchBoard.active || d >= |s.dispatches| || s.dispatches[d].remaining == [] then None
      else
        var r := s.dispatches[d];
        Some(s.(dispatches := s.dispatches[d := r.(remaining := r.remaining[1..])],
                jobs := s.jobs + [Job(d, r.remaining[0])],
                failures := s.failures + [0],
                jobBoard := s.jobBoard.(waiting := s.jobBoard.waiting + {|s.jobs|})))
    case FailDispatch(d) =>
      if d !in s.dispatchBoard.active || d >= |s.dispatches| then None
      else Some(s.(dispatchBoard := Retry(s.dispatchBoard, d, s.dispatches[d].started >= attempts)))
    case FinishDispatch(d) =>
      if d !in s.dispatchBoard.active || d >= |s.dispatches| || s.dispatches[d].enabled.Some? || s.dispatches[d].remaining != [] then None
      else Some(s.(dispatchBoard := Complete(s.dispatchBoard, d)))
    case StartJob(j) =>
      if j !in s.jobBoard.waiting then None else Some(s.(jobBoard := Activate(s.jobBoard, j)))
    case ReadInstance(j) =>
      if j !in s.jobBoard.active || j in s.sending || j >= |s.jobs| || j >= |s.failures| then None
      else
        var id := s.jobs[j].channel;
        if id !in s.panel.channels || !s.panel.channels[id].enabled then Some(s.(jobBoard := Complete(s.jobBoard, j)))
        else if s.panel.channels[id].kind !in known then Some(FailJob(attempts, s, j))
        else Some(s.(sending := s.sending + {j}, sends := s.sends + [Send(j, s.panel.channels[id])]))
    case SendOk(j) =>
      if j !in s.sending then None
      else Some(s.(jobBoard := Complete(s.jobBoard, j), sending := s.sending - {j}))
    case SendFail(j) =>
      if j !in s.sending || j >= |s.failures| then None else Some(FailJob(attempts, s, j))
  }

  // ------------------------------------------------------------ invariant

  /** Each of the n items is in exactly one of the four states, and nothing else is. */
  ghost predicate Partition(b: Board, n: nat) {
    forall i: nat :: Places(b, i) == if i < n then 1 else 0
  }

  /** In how many of the four states an item is. */
  function Places(b: Board, i: nat): nat {
    (if i in b.waiting then 1 else 0) + (if i in b.active then 1 else 0)
    + (if i in b.done then 1 else 0) + (if i in b.dead then 1 else 0)
  }

  /** Jobs added for one channel by one dispatch. */
  function Count(jobs: seq<Job>, d: nat, channel: string): nat {
    if jobs == [] then 0
    else Count(jobs[..|jobs| - 1], d, channel) + if jobs[|jobs| - 1] == Job(d, channel) then 1 else 0
  }

  function SendCount(sends: seq<Send>, j: nat): nat {
    if sends == [] then 0
    else SendCount(sends[..|sends| - 1], j) + if sends[|sends| - 1].job == j then 1 else 0
  }

  /** Each dispatch is in one state; a dead one has used all its attempts, a waiting one has not. */
  ghost predicate DispatchesSound(attempts: nat, s: State) {
    && Partition(s.dispatchBoard, |s.dispatches|)
    && forall d :: 0 <= d < |s.dispatches| ==>
      && s.dispatches[d].started <= attempts
      && (d in s.dispatchBoard.waiting ==> s.dispatches[d].started < attempts)
      && (d in s.dispatchBoard.dead ==> s.dispatches[d].started == attempts)
  }

  /** Each delivery job is in one state; dead means exactly that all its attempts failed. */
  ghost predicate JobsSound(attempts: nat, s: State) {
    && Partition(s.jobBoard, |s.jobs|)
    && |s.failures| == |s.jobs|
    && (forall j :: j in s.sending ==> j in s.jobBoard.active)
    && (forall j :: 0 <= j < |s.jobs| ==> s.failures[j] <= attempts && (j in s.jobBoard.dead <==> s.failures[j] == attempts))
  }

  /** A job is sent at most once an attempt. */
  ghost predicate SendsBounded(s: State)
    requires |s.failures| == |s.jobs|
  {
    && (forall j :: j >= |s.jobs| ==> SendCount(s.sends, j) == 0)
    && forall j :: 0 <= j < |s.jobs| ==>
      SendCount(s.sends, j) <= s.failures[j] + if j in s.sending || j in s.jobBoard.done then 1 else 0
  }

  /** The current attempt may still add a job for channel c. */
  ghost predicate MayAdd(r: DispatchRec, c: string) {
    r.enabled.Some? || c in r.remaining
  }

  /** What dispatch d has added so far, against how often it has started. */
  ghost predicate FanOut(s: State, d: nat)
    requires d < |s.dispatches|
  {
    var r := s.dispatches[d];
    && NoDup(r.remaining)
    && (forall c :: c in r.remaining ==> c in r.resolved)
    && (forall c :: Count(s.jobs, d, c) + (if d in s.dispatchBoard.active && MayAdd(r, c) then 1 else 0) <= r.started)
    && (r.enabled.Some? ==> r.resolved == [] && r.remaining == [])
    && (forall c :: c in r.resolved && c !in r.remaining ==> Job(d, c) in s.jobs)
    && (d in s.dispatchBoard.done ==> r.remaining == [])
  }

  ghost predicate NoStrayJobs(s: State) {
    forall j :: 0 <= j < |s.jobs| ==> s.jobs[j].dispatch < |s.dispatches|
  }

  ghost predicate Inv(attempts: nat, s: State) {
    && DispatchesSound(attempts, s)
    && JobsSound(attempts, s)
    && SendsBounded(s)
    && NoStrayJobs(s)
    && forall d :: 0 <= d < |s.dispatches| ==> FanOut(s, d)
  }

  lemma BoardMoves(b: Board, i: nat, n: nat, last: bool)
    requires Partition(b, n) && i < n
    ensures i in b.waiting ==> Partition(Activate(b, i), n)
    ensures i in b.active ==> Partition(Complete(b, i), n) && Partition(Retry(b, i, last), n)
  {
    assert Places(b, i) == 1;
    forall k: nat
      ensures i in b.waiting ==> Places(Activate(b, i), k) == if k < n then 1 else 0
      ensures i in b.active ==> Places(Complete(b, i), k) == Places(Retry(b, i, last), k) == if k < n then 1 else 0
    {
      assert Places(b, k) == if k < n then 1 else 0;
    }
  }

  lemma BoardGrows(b: Board, n: nat)
    requires Partition(b, n)
    ensures Partition(b.(waiting := b.waiting + {n}), n + 1)
  {
    assert Places(b, n) == 0;
    var c := b.(waiting := b.waiting + {n});
    forall i: nat ensures Places(c, i) == if i < n + 1 then 1 else 0 {
      assert Places(b, i) == if i < n then 1 else 0;
    }
  }

  lemma InRange(b: Board, n: nat, i: nat)
    requires Partition(b, n) && (i in b.waiting || i in b.active)
    ensures i < n && i !in b.done && i !in b.dead
  {
    assert Places(b, i) == if i < n then 1 else 0;
  }

  lemma DispatchesKept(attempts: nat, known: set<string>, s: State, e: Event)
    requires attempts > 0 && DispatchesSound(attempts, s) && Step(attempts, known, s, e).Some?
    ensures DispatchesSound(attempts, Step(attempts, known, s, e).value)
  {
    var b, n := s.dispatchBoard, |s.dispatches|;
    match e
    case AddDispatch(_, _) => BoardGrows(b, n); assert Places(b, n) == 0;
    case StartDispatch(d) => BoardMoves(b, d, n, false);
    case FailDispatch(d) => BoardMoves(b, d, n, s.dispatches[d].started >= attempts);
    case FinishDispatch(d) => BoardMoves(b, d, n, false);
    case _ =>
  }

  lemma FailKept(attempts: nat, s: State, j: nat)
    requires JobsSound(attempts, s) && j in s.jobBoard.active && j < |s.jobs|
    ensures JobsSound(attempts, FailJob(attempts, s, j))
  {
    InRange(s.jobBoard, |s.jobs|, j);
    BoardMoves(s.jobBoard, j, |s.jobs|, s.failures[j] + 1 >= attempts);
  }

  lemma JobsKept(attempts: nat, known: set<string>, s: State, e: Event)
    requires attempts > 0 && JobsSound(attempts, s) && Step(attempts, known, s, e).Some?
    ensures JobsSound(attempts, Step(attempts, known, s, e).value)
  {
    var b, n := s.jobBoard, |s.jobs|;
    match e
    case AddNextJob(_) => BoardGrows(b, n); assert Places(b, n) == 0;
    case StartJob(j) => InRange(b, n, j); BoardMoves(b, j, n, false);
    case ReadInstance(j) => InRange(b, n, j); BoardMoves(b, j, n, false); FailKept(attempts, s, j);
    case SendOk(j) => InRange(b, n, j); BoardMoves(b, j, n, false);
    case SendFail(j) => InRange(b, n, j); FailKept(attempts, s, j);
    case _ =>
  }

  lemma SendsKept(attempts: nat, known: set<string>, s: State, e: Event)
    requires attempts > 0 && JobsSound(attempts, s) && SendsBounded(s) && Step(attempts, known, s, e).Some?
    ensures |Step(attempts, known, s, e).value.failures| == |Step(attempts, known, s, e).value.jobs|
    ensures SendsBounded(Step(attempts, known, s, e).value)
  {
    var t := Step(attempts, known, s, e).value;
    if e.ReadInstance? || e.SendOk? || e.SendFail? {
      InRange(s.jobBoard, |s.jobs|, e.j);
    }
    assert t.sends == s.sends || t.sends[..|t.sends| - 1] == s.sends;
    forall k: nat | k < |t.jobs|
      ensures SendCount(t.sends, k) <= t.failures[k] + if k in t.sending || k in t.jobBoard.done then 1 else 0
    {
      assert k >= |s.jobs| ==> SendCount(s.sends, k) == 0;
      assert k < |s.jobs| ==>
        SendCount(s.sends, k) <= s.failures[k] + if k in s.sending || k in s.jobBoard.done then 1 else 0;
    }
  }

  lemma {:induction false} CountZero(jobs: seq<Job>, d: nat, c: string)
    requires forall j :: 0 <= j < |jobs| ==> jobs[j].dispatch != d
    ensures Count(jobs, d, c) == 0
    decreases |jobs|
  {
    if jobs != [] {
      CountZero(jobs[..|jobs| - 1], d, c);
    }
  }

  lemma NextJobFanOut(s: State, t: State, k: nat, d: nat)
    requires k < |s.dispatches| && d < |s.dispatches| && FanOut(s, d) && s.dispatches[k].remaining != []
    requires var r := s.dispatches[k];
      && t.dispatches == s.dispatches[k := r.(remaining := r.remaining[1..])]
      && t.jobs == s.jobs + [Job(k, r.remaining[0])]
    requires t.dispatchBoard == s.dispatchBoard && k in s.dispatchBoard.active && k !in s.dispatchBoard.done
    ensures FanOut(t, d)
  {
    var r := s.dispatches[k];
    assert t.jobs[..|t.jobs| - 1] == s.jobs;
    assert t.jobs[|s.jobs|] in t.jobs;
    assert r.remaining == [r.remaining[0]] + r.remaining[1..];
    if d == k {
      assert r.remaining[0] !in r.remaining[1..];
    }
  }

  lemma FanOutKept(attempts: nat, known: set<string>, s: State, e: Event, d: nat)
    requires attempts > 0 && Inv(attempts, s) && Step(attempts, known, s, e).Some?
    requires d < |Step(attempts, known, s, e).value.dispatches|
    ensures FanOut(Step(attempts, known, s, e).value, d)
  {
    var t := Step(attempts, known, s, e).value;
    if e.AddDispatch? {
      assert Places(s.dispatchBoard, |s.dispatches|) == 0;
      AddedFanOut(s, t, d);
    } else {
      assert FanOut(s, d);
      if e.StartDispatch? {
        InRange(s.dispatchBoard, |s.dispatches|, e.d);
        assert Places(s.dispatchBoard, e.d) == 1;
      } else if e.ResolveDispatch? {
        InRange(s.dispatchBoard, |s.dispatches|, e.d);
        ResolveIs(SourceOf(s.panel, s.dispatches[e.d]), s.dispatches[e.d].enabled.value);
      } else if e.AddNextJob? {
        InRange(s.dispatchBoard, |s.dispatches|, e.d);
        NextJobFanOut(s, t, e.d, d);
      }
    }
  }

  lemma AddedFanOut(s: State, t: State, d: nat)
    requires NoStrayJobs(s) && d < |t.dispatches| && t.jobs == s.jobs
    requires |t.dispatches| == |s.dispatches| + 1 && t.dispatches[..|s.dispatches|] == s.dispatches
    requires t.dispatches[|s.dispatches|].started == 0 && t.dispatches[|s.dispatches|].remaining == []
      && t.dispatches[|s.dispatches|].resolved == [] && t.dispatches[|s.dispatches|].enabled == None
    requires t.dispatchBoard.active == s.dispatchBoard.active && t.dispatchBoard.done == s.dispatchBoard.done
    requires |s.dispatches| !in t.dispatchBoard.active
    requires d < |s.dispatches| ==> FanOut(s, d)
    ensures FanOut(t, d)
  {
    if d == |s.dispatches| {
      forall c { CountZero(s.jobs, d, c); }
    } else {
      assert t.dispatches[d] == s.dispatches[d];
    }
  }

  // ----------------------------------------------------------------- runs

  /** `states[i]` is the state before `events[i]`. */
  datatype Run = Run(events: seq<Event>, states: seq<State>)

  ghost predicate Legal(attempts: nat, known: set<string>, r: Run) {
    && |r.states| == |r.events| + 1
    && r.states[0] == INIT
    && forall i :: 0 <= i < |r.events| ==> Step(attempts, known, r.states[i], r.events[i]) == Some(r.states[i + 1])
  }

  lemma {:induction false} RunKeepsInv(attempts: nat, known: set<string>, r: Run, k: nat)
    requires attempts > 0 && Legal(attempts, known, r) && k < |r.states|
    ensures Inv(attempts, r.states[k])
    decreases k
  {
    if k > 0 {
      var s, e := r.states[k - 1], r.events[k - 1];
      RunKeepsInv(attempts, known, r, k - 1);
      assert Step(attempts, known, s, e) == Some(r.states[k]);
      DispatchesKept(attempts, known, s, e);
      JobsKept(attempts, known, s, e);
      SendsKept(attempts, known, s, e);
      forall d: nat | d < |r.states[k].dispatches| ensures FanOut(r.states[k], d) {
        FanOutKept(attempts, known, s, e, d);
      }
    }
  }

  /**
   * In every run each delivery job is in exactly one state, is dead exactly when all its
   * attempts have failed, and is sent no more often than there are attempts.
   */
  lemma JobsAreAccountedFor(attempts: nat, known: set<string>, r: Run, k: nat, j: nat)
    requires attempts > 0 && Legal(attempts, known, r) && k < |r.states| && j < |r.states[k].jobs|
    ensures var s := r.states[k];
      && Places(s.jobBoard, j) == 1
      && j < |s.failures| && (j in s.jobBoard.dead <==> s.failures[j] == attempts)
      && SendCount(s.sends, j) <= attempts
  {
    RunKeepsInv(attempts, known, r, k);
    var s := r.states[k];
    assert Places(s.jobBoard, j) == 1;
    assert j in s.sending ==> j in s.jobBoard.active;
  }

  /** Every send used the instance the store held, enabled, when the worker read it. */
  lemma {:induction false} SendUsedLiveInstance(attempts: nat, known: set<string>, r: Run, k: nat, m: nat) returns (i: nat)
    requires Legal(attempts, known, r) && k < |r.states| && m < |r.states[k].sends|
    ensures i < k && r.events[i] == ReadInstance(r.states[k].sends[m].job)
    ensures var s, send := r.states[i], r.states[k].sends[m];
      && send.job < |s.jobs|
      && s.jobs[send.job].channel in s.panel.channels
      && send.instance == s.panel.channels[s.jobs[send.job].channel] && send.instance.enabled
    decreases k
  {
    assert Step(attempts, known, r.states[k - 1], r.events[k - 1]) == Some(r.states[k]);
    if m < |r.states[k - 1].sends| {
      i := SendUsedLiveInstance(attempts, known, r, k - 1, m);
    } else {
      i := k - 1;
    }
  }

  predicate Skippable(s: State, j: nat) {
    && j < |s.jobs|
    && var id := s.jobs[j].channel; id !in s.panel.channels || !s.panel.channels[id].enabled
  }

  /** A job is done because its send succeeded, or because its instance was gone or disabled. */
  lemma {:induction false} DoneMeansSentOrSkipped(attempts: nat, known: set<string>, r: Run, k: nat, j: nat) returns (i: nat)
    requires Legal(attempts, known, r) && k < |r.states| && j in r.states[k].jobBoard.done
    ensures i < k && (r.events[i] == SendOk(j) || (r.events[i] == ReadInstance(j) && Skippable(r.states[i], j)))
    decreases k
  {
    assert Step(attempts, known, r.states[k - 1], r.events[k - 1]) == Some(r.states[k]);
    if j in r.states[k - 1].jobBoard.done {
      i := DoneMeansSentOrSkipped(attempts, known, r, k - 1, j);
    } else {
      i := k - 1;
    }
  }

  /**
   * A completed dispatch has at least one job for every id its last attempt resolved; and
   * no id ever has more jobs than the dispatch had attempts.
   */
  lemma DispatchFansOut(attempts: nat, known: set<string>, r: Run, k: nat, d: nat)
    requires attempts > 0 && Legal(attempts, known, r) && k < |r.states| && d < |r.states[k].dispatches|
    ensures var s := r.states[k];
      && (forall c :: Count(s.jobs, d, c) <= s.dispatches[d].started <= attempts)
      && (d in s.dispatchBoard.done ==> forall c :: c in s.dispatches[d].resolved ==> Job(d, c) in s.jobs)
  {
    RunKeepsInv(attempts, known, r, k);
    assert FanOut(r.states[k], d);
  }

  /** A dispatch keeps the profile and the request it was added with. */
  lemma {:induction false} RecordIsKept(attempts: nat, known: set<string>, r: Run, a: nat, k: nat, d: nat)
    requires Legal(attempts, known, r) && a < k < |r.states|
    requires r.events[a].AddDispatch? && d == |r.states[a].dispatches|
    ensures d < |r.states[k].dispatches|
    ensures r.states[k].dispatches[d].profileId == r.events[a].profileId
    ensures r.states[k].dispatches[d].requested == r.events[a].requested
    decreases k
  {
    assert Step(attempts, known, r.states[k - 1], r.events[k - 1]) == Some(r.states[k]);
    if a + 1 < k {
      RecordIsKept(attempts, known, r, a, k - 1, d);
    }
  }

  /** The ids enabled in a panel, read off its channels. */
  ghost predicate IsEnabledIn(p: Panel, id: string) {
    id in p.channels && p.channels[id].enabled
  }

  /** The enabled ids an attempt holds are those its own first read found. */
  lemma {:induction false} EnabledWasRead(attempts: nat, known: set<string>, r: Run, k: nat, d: nat) returns (i: nat)
    requires Legal(attempts, known, r) && k < |r.states| && d < |r.states[k].dispatches|
    requires r.states[k].dispatches[d].enabled.Some?
    ensures i < k && r.events[i] == StartDispatch(d)
    ensures forall m :: i < m < k ==> r.events[m] != StartDispatch(d)
    ensures forall id :: id in r.states[k].dispatches[d].enabled.value <==> IsEnabledIn(r.states[i].panel, id)
    decreases k
  {
    assert Step(attempts, known, r.states[k - 1], r.events[k - 1]) == Some(r.states[k]);
    if r.events[k - 1] == StartDispatch(d) {
      i := k - 1;
    } else {
      i := EnabledWasRead(attempts, known, r, k - 1, d);
    }
  }

  /**
   * What a dispatch resolves comes from its request and two reads. Channels named in the
   * request, even none, replace the profile's defaults whatever those are; otherwise they are
   * the defaults at the second read, or none for an unknown profile. Either way they are cut
   * to the instances enabled at the first read.
   */
  lemma ResolvedFromReads(attempts: nat, known: set<string>, r: Run, a: nat, j: nat, d: nat)
    returns (i: nat, enabled: set<string>)
    requires Legal(attempts, known, r) && a < j < |r.events|
    requires r.events[a].AddDispatch? && d == |r.states[a].dispatches| && r.events[j] == ResolveDispatch(d)
    ensures i < j && r.events[i] == StartDispatch(d) && forall m :: i < m < j ==> r.events[m] != StartDispatch(d)
    ensures forall id :: id in enabled <==> IsEnabledIn(r.states[i].panel, id)
    ensures d < |r.states[j + 1].dispatches|
    ensures var resolved, defaults := r.states[j + 1].dispatches[d].resolved, r.states[j].panel.defaults;
      match r.events[a].requested
      case Some(ids) => resolved == Resolve(ids, enabled)
      case None => resolved == Resolve(if r.events[a].profileId in defaults then defaults[r.events[a].profileId] else [], enabled)
  {
    assert Step(attempts, known, r.states[j], r.events[j]) == Some(r.states[j + 1]);
    RecordIsKept(attempts, known, r, a, j, d);
    i := EnabledWasRead(attempts, known, r, j, d);
    enabled := r.states[j].dispatches[d].enabled.value;
  }

  /** What is still to be enqueued is the rest of what was resolved. */
  lemma {:induction false} RemainingIsSuffix(attempts: nat, known: set<string>, r: Run, k: nat, d: nat)
    requires Legal(attempts, known, r) && k < |r.states| && d < |r.states[k].dispatches|
    ensures var rec := r.states[k].dispatches[d];
      |rec.remaining| <= |rec.resolved| && rec.remaining == rec.resolved[|rec.resolved| - |rec.remaining|..]
    decreases k
  {
    assert Step(attempts, known, r.states[k - 1], r.events[k - 1]) == Some(r.states[k]);
    if d < |r.states[k - 1].dispatches| {
      RemainingIsSuffix(attempts, known, r, k - 1, d);
    }
  }

  /** An attempt enqueues the resolved ids one by one in their order, each in a new waiting job. */
  lemma JobsFollowResolved(attempts: nat, known: set<string>, r: Run, k: nat, d: nat) returns (n: nat)
    requires Legal(attempts, known, r) && k < |r.events| && r.events[k] == AddNextJob(d)
    ensures d < |r.states[k].dispatches| && d < |r.states[k + 1].dispatches|
    ensures var s, t := r.states[k], r.states[k + 1];
      var rec, next := s.dispatches[d], t.dispatches[d];
      && n < |rec.resolved| && n + |rec.remaining| == |rec.resolved|
      && t.jobs == s.jobs + [Job(d, rec.resolved[n])] && |s.jobs| in t.jobBoard.waiting
      && next.resolved == rec.resolved && |next.remaining| == |rec.remaining| - 1
  {
    assert Step(attempts, known, r.states[k], r.events[k]) == Some(r.states[k + 1]);
    RemainingIsSuffix(attempts, known, r, k, d);
    n := |r.states[k].dispatches[d].resolved| - |r.states[k].dispatches[d].remaining|;
  }

  // ------------------------------------------- what one attempt does

  /** All items but i stand where they stood. */
  ghost predicate OnlyMoved(b: Board, c: Board, i: nat) {
    forall m: nat :: m != i ==>
      && (m in b.waiting <==> m in c.waiting) && (m in b.active <==> m in c.active)
      && (m in b.done <==> m in c.done) && (m in b.dead <==> m in c.dead)
  }

  /** A failed attempt of job j counts, and the job waits for the next one or is dead. */
  ghost predicate AttemptFailed(attempts: nat, s: State, t: State, j: nat) {
    && j < |s.failures| && t.failures == s.failures[j := s.failures[j] + 1]
    && j !in t.sending && j !in t.jobBoard.active && j !in t.jobBoard.done
    && (if s.failures[j] + 1 < attempts then j in t.jobBoard.waiting && j !in t.jobBoard.dead
        else j in t.jobBoard.dead && j !in t.jobBoard.waiting)
  }

  /**
   * A worker's read of the store: a missing or disabled instance ends the job without a send,
   * a type without an adapter fails the attempt, and otherwise one send begins, through the
   * instance as it stands.
   */
  lemma ReadInstanceIs(attempts: nat, known: set<string>, r: Run, k: nat, j: nat)
    requires attempts > 0 && Legal(attempts, known, r) && k < |r.events| && r.events[k] == ReadInstance(j)
    ensures var s, t := r.states[k], r.states[k + 1];
      && j < |s.jobs| && OnlyMoved(s.jobBoard, t.jobBoard, j)
      && var id := s.jobs[j].channel;
        if id !in s.panel.channels || !s.panel.channels[id].enabled then
          j in t.jobBoard.done && t.failures == s.failures && t.sends == s.sends && j !in t.sending
        else if s.panel.channels[id].kind !in known then
          AttemptFailed(attempts, s, t, j) && t.sends == s.sends
        else
          && j in t.jobBoard.active && j in t.sending && t.failures == s.failures
          && t.sends == s.sends + [Send(j, s.panel.channels[id])]
  {
    assert Step(attempts, known, r.states[k], r.events[k]) == Some(r.states[k + 1]);
    RunKeepsInv(attempts, known, r, k);
    InRange(r.states[k].jobBoard, |r.states[k].jobs|, j);
    OnePlace(r.states[k].jobBoard, |r.states[k].jobs|, j);
  }

  /** The answer to a send: a success ends the job, a failure fails the attempt. */
  lemma SendAnswerIs(attempts: nat, known: set<string>, r: Run, k: nat, j: nat)
    requires attempts > 0 && Legal(attempts, known, r) && k < |r.events|
    requires r.events[k] == SendOk(j) || r.events[k] == SendFail(j)
    ensures var s, t := r.states[k], r.states[k + 1];
      && j in s.sending && t.sends == s.sends && OnlyMoved(s.jobBoard, t.jobBoard, j)
      && if r.events[k].SendOk? then j in t.jobBoard.done && j !in t.sending && t.failures == s.failures
         else AttemptFailed(attempts, s, t, j)
  {
    assert Step(attempts, known, r.states[k], r.events[k]) == Some(r.states[k + 1]);
    RunKeepsInv(attempts, known, r, k);
    InRange(r.states[k].jobBoard, |r.states[k].jobs|, j);
    OnePlace(r.states[k].jobBoard, |r.states[k].jobs|, j);
  }

  lemma OnePlace(b: Board, n: nat, i: nat)
    requires Partition(b, n) && i in b.active
    ensures i !in b.waiting && i !in b.done && i !in b.dead
  {
    assert Places(b, i) == if i < n then 1 else 0;
  }

  /** A worker takes a waiting job, and that is all it does to it. */
  lemma StartJobIs(attempts: nat, known: set<string>, r: Run, k: nat, j: nat)
    requires attempts > 0 && Legal(attempts, known, r) && k < |r.events| && r.events[k] == StartJob(j)
    ensures var s, t := r.states[k], r.states[k + 1];
      && j in s.jobBoard.waiting && j in t.jobBoard.active && j !in t.sending && OnlyMoved(s.jobBoard, t.jobBoard, j)
      && t.failures == s.failures && t.sends == s.sends && t.jobs == s.jobs
  {
    assert Step(attempts, known, r.states[k], r.events[k]) == Some(r.states[k + 1]);
    RunKeepsInv(attempts, known, r, k);
    assert Places(r.states[k].jobBoard, j) <= 1;
  }

  /** The panel is what the last edit made it; an edit touches nothing else. */
  lemma PanelIsLastEdit(attempts: nat, known: set<string>, r: Run, k: nat)
    requires Legal(attempts, known, r) && k < |r.events|
    ensures r.states[k + 1].panel == if r.events[k].Edit? then r.events[k].panel else r.states[k].panel
    ensures r.events[k].Edit? ==> r.states[k + 1] == r.states[k].(panel := r.events[k].panel)
  {
    assert Step(attempts, known, r.states[k], r.events[k]) == Some(r.states[k + 1]);
  }

  /** What each step of a dispatch does to it; its jobs are the subject of `JobsFollowResolved`. */
  lemma DispatchStepIs(attempts: nat, known: set<string>, r: Run, k: nat, d: nat)
    requires attempts > 0 && Legal(attempts, known, r) && k < |r.events|
    ensures var s, t, e := r.states[k], r.states[k + 1], r.events[k];
      && (e.AddDispatch? && d == |s.dispatches| ==>
        && |t.dispatches| == d + 1 && d in t.dispatchBoard.waiting && t.dispatches[d].started == 0)
      && (e == StartDispatch(d) ==>
        && d < |s.dispatches| && d < |t.dispatches|
        && d in s.dispatchBoard.waiting && d in t.dispatchBoard.active && t.dispatches[d].started == s.dispatches[d].started + 1)
      && (e == FinishDispatch(d) ==>
        && d < |s.dispatches| && s.dispatches[d].enabled == None && s.dispatches[d].remaining == []
        && d in s.dispatchBoard.active && d in t.dispatchBoard.done && t.jobs == s.jobs)
      && (e == FailDispatch(d) ==>
        && d < |s.dispatches| && d in s.dispatchBoard.active && t.jobs == s.jobs && d !in t.dispatchBoard.active
        && (if s.dispatches[d].started < attempts then d in t.dispatchBoard.waiting else d in t.dispatchBoard.dead))
  {
    assert Step(attempts, known, r.states[k], r.events[k]) == Some(r.states[k + 1]);
  }

  // ------------------------------------------------------- never stuck

  /** An unfinished delivery job can always go on; a send can end either way. */
  lemma JobNeverStuck(attempts: nat, known: set<string>, r: Run, k: nat, j: nat, ok: bool) returns (e: Event)
    requires attempts > 0 && Legal(attempts, known, r) && k < |r.states| && j < |r.states[k].jobs|
    requires j !in r.states[k].jobBoard.done && j !in r.states[k].jobBoard.dead
    ensures Step(attempts, known, r.states[k], e).Some?
    ensures var s := r.states[k];
      if j in s.jobBoard.waiting then e == StartJob(j)
      else if j in s.sending then e == if ok then SendOk(j) else SendFail(j)
      else e == ReadInstance(j)
  {
    RunKeepsInv(attempts, known, r, k);
    var s := r.states[k];
    assert Places(s.jobBoard, j) == 1;
    e := if j in s.jobBoard.waiting then StartJob(j)
      else if j in s.sending then if ok then SendOk(j) else SendFail(j)
      else ReadInstance(j);
  }

  /** An unfinished dispatch can always start, resolve, add its next job or finish; an attempt can fail at any point. */
  lemma DispatchNeverStuck(attempts: nat, known: set<string>, r: Run, k: nat, d: nat) returns (e: Event)
    requires attempts > 0 && Legal(attempts, known, r) && k < |r.states| && d < |r.states[k].dispatches|
    requires d !in r.states[k].dispatchBoard.done && d !in r.states[k].dispatchBoard.dead
    ensures Step(attempts, known, r.states[k], e).Some?
    ensures var s, rec := r.states[k], r.states[k].dispatches[d];
      e == if d in s.dispatchBoard.waiting then StartDispatch(d)
           else if rec.enabled.Some? then ResolveDispatch(d)
           else if rec.remaining != [] then AddNextJob(d) else FinishDispatch(d)
    ensures d !in r.states[k].dispatchBoard.waiting ==> Step(attempts, known, r.states[k], FailDispatch(d)).Some?
  {
    RunKeepsInv(attempts, known, r, k);
    var s, rec := r.states[k], r.states[k].dispatches[d];
    assert Places(s.dispatchBoard, d) == 1;
    e := if d in s.dispatchBoard.waiting then StartDispatch(d)
      else if rec.enabled.Some? then ResolveDispatch(d)
      else if rec.remaining != [] then AddNextJob(d) else FinishDispatch(d);
  }

  /** The panel can be edited and a dispatch added at any moment. */
  lemma AlwaysOpen(attempts: nat, known: set<string>, s: State, panel: Panel, profileId: string, requested: Option<seq<string>>)
    ensures Step(attempts, known, s, Edit(panel)).Some? && Step(attempts, known, s, AddDispatch(profileId, requested)).Some?
  {
  }

  /**
   * Once the delivery queue is idle, every id of a completed dispatch has a job that either
   * ended without error or has failed on every one of its attempts.
   */
  lemma IdleQueueHasSettled(attempts: nat, known: set<string>, r: Run, k: nat, d: nat, c: string) returns (j: nat)
    requires attempts > 0 && Legal(attempts, known, r) && k < |r.states| && d < |r.states[k].dispatches|
    requires d in r.states[k].dispatchBoard.done && c in r.states[k].dispatches[d].resolved
    requires r.states[k].jobBoard.waiting == {} && r.states[k].jobBoard.active == {}
    ensures var s := r.states[k];
      && j < |s.jobs| && j < |s.failures| && s.jobs[j] == Job(d, c)
      && ((j in s.jobBoard.done && s.failures[j] < attempts) || (j in s.jobBoard.dead && s.failures[j] == attempts))
  {
    DispatchFansOut(attempts, known, r, k, d);
    var s := r.states[k];
    j :| 0 <= j < |s.jobs| && s.jobs[j] == Job(d, c);
    JobsAreAccountedFor(attempts, known, r, k, j);
    RunKeepsInv(attempts, known, r, k);
  }
}
