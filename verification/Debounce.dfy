/**
 * The idle-debounce protocol of the Claude Code hook.
 *
 * Short-lived hook processes (one per prompt, one per Stop) and the detached sender
 * each Stop spawns share three files of one session: start, activity and pending.
 * Every clock read, every read, write or deletion of a file and both ends of a POST are
 * separate steps, and a run is any interleaving of them.
 *
 * A prompt is a chain of four actions, identified by a number of its own. A Stop and its
 * sender are one chain too, identified by the Stop's timestamp. Two assumptions are built
 * into `Step`: the clock reads whose values are compared (a prompt's second one and a
 * Stop's) are strictly increasing, and cache writes succeed.
 */
module Debounce {
  import opened Options

  /** The end-of-task message: when the task ended, how long it took if known, what was said. */
  datatype Payload = Payload(endedAt: nat, durationMs: Option<int>, headline: string)

  datatype Pending = Pending(stopTs: nat, payload: Payload)

  /** The three per-session cache files; `None` is a missing or unreadable file. */
  datatype Files = Files(start: Option<nat>, activity: Option<nat>, pending: Option<Pending>)

  function BuildPayload(stopTs: nat, startedAt: Option<nat>, headline: string): Payload {
    Payload(stopTs, if startedAt.Some? then Some(stopTs - startedAt.value) else None, headline)
  }

  /** The sender's decision once it has slept and read both markers. */
  predicate ShouldDeferredSend(activityTs: Option<nat>, pendingStopTs: Option<nat>, myStopTs: nat) {
    if activityTs.Some? && activityTs.value > myStopTs then false
    else if pendingStopTs.None? || pendingStopTs.value != myStopTs then false
    else true
  }

  function StopTsOf(pending: Option<Pending>): Option<nat> {
    if pending.Some? then Some(pending.value.stopTs) else None
  }

  /** The files after a Stop's hook process has run with nothing in between. */
  function AfterStop(files: Files, stopTs: nat, headline: string): Files {
    files.(start := None, pending := Some(Pending(stopTs, BuildPayload(stopTs, files.start, headline))))
  }

  // ---------------------------------------------------------------- steps

  datatype PromptAction = ReadStartClock | WriteStart | ReadActivityClock | WriteActivity

  /** Program order of a prompt. */
  function PromptRank(a: PromptAction): nat {
    match a
    case ReadStartClock => 0
    case WriteStart => 1
    case ReadActivityClock => 2
    case WriteActivity => 3
  }

  const START_CLOCK := 0
  const ACTIVITY_CLOCK := 2

  datatype Action =
    | ReadClock | ReadStart | UnlinkStart | WritePending(headline: string) | Spawn
    | Wake | ReadActivity | ReadPending | Decide | BeginPost | EndPost | DeletePending

  /** Program order of a Stop: the position of each action in the chain of one Stop. */
  function Rank(a: Action): nat {
    match a
    case ReadClock => 0
    case ReadStart => 1
    case UnlinkStart => 2
    case WritePending(_) => 3
    case Spawn => 4
    case Wake => 5
    case ReadActivity => 6
    case ReadPending => 7
    case Decide => 8
    case BeginPost => 9
    case EndPost => 10
    case DeletePending => 11
  }

  const CLOCK := 0
  const READ_START := 1
  const UNLINK_START := 2
  const WRITE := 3
  const SPAWN := 4
  const WAKE := 5
  const READ_ACTIVITY := 6
  const READ_PENDING := 7
  const DECIDE := 8
  const BEGIN_POST := 9
  const DELETE := 11
  const SENT := 12     // terminal: posted and cleaned up
  const DROPPED := 13  // terminal: decided not to send

  /** The next action of prompt p, or of the chain of Stop s. */
  datatype Event = Prompt(at: nat, p: nat, step: PromptAction) | Hook(at: nat, s: nat, act: Action)

  /** Program counter of one prompt and the two times it has read. */
  datatype PromptProc = PromptProc(pc: nat, startAt: nat, activeAt: nat)

  /** Program counter and local variables of one Stop's chain. */
  datatype Proc = Proc(
    pc: nat,
    startedAt: Option<nat>,
    payload: Option<Payload>,
    spawnedAt: nat,
    sawActivity: Option<nat>,
    sawPending: Option<Pending>)

  datatype Post = Post(s: nat, payload: Payload, at: nat)

  /** `posts` is what the gateway has received, in order. */
  datatype State = State(
    now: nat, lastClock: int, files: Files, prompts: map<nat, PromptProc>, procs: map<nat, Proc>, posts: seq<Post>)

  const INIT := State(0, -1, Files(None, None, None), map[], map[], [])

  /** One step at its own time, or `None` when that step cannot happen here. */
  function Step(idle: nat, st: State, e: Event): Option<State> {
    if e.at < st.now then None
    else
      match e
      case Prompt(at, p, step) => PromptStep(st.(now := at), p, step)
      case Hook(at, s, act) => HookStep(idle, st.(now := at), s, act)
  }

  function PromptStep(st: State, p: nat, step: PromptAction): Option<State> {
    if step.ReadStartClock? then
      if p in st.prompts then None
      else Some(st.(prompts := st.prompts[p := PromptProc(1, st.now, 0)]))
    else if p !in st.prompts || st.prompts[p].pc != PromptRank(step) then None
    else
      var q := st.prompts[p].(pc := st.prompts[p].pc + 1);
      match step
      case WriteStart =>
        Some(st.(prompts := st.prompts[p := q], files := st.files.(start := Some(q.startAt))))
      case ReadActivityClock =>
        if st.now <= st.lastClock then None
        else Some(st.(lastClock := st.now, prompts := st.prompts[p := q.(activeAt := st.now)]))
      case WriteActivity =>
        Some(st.(prompts := st.prompts[p := q], files := st.files.(activity := Some(q.activeAt))))
  }

  function HookStep(idle: nat, st: State, s: nat, act: Action): Option<State> {
    if act.ReadClock? then
      if s != st.now || s <= st.lastClock || s in st.procs then None
      else Some(st.(lastClock := s, procs := st.procs[s := Proc(1, None, None, 0, None, None)]))
    else if s !in st.procs || st.procs[s].pc != Rank(act) then None
    else
      var p := st.procs[s];
      var q := p.(pc := p.pc + 1);
      match act
      case ReadStart => Some(st.(procs := st.procs[s := q.(startedAt := st.files.start)]))
      case UnlinkStart =>
        Some(st.(procs := st.procs[s := q],
                 files := st.files.(start := if p.startedAt.Some? then None else st.files.start)))
      case WritePending(headline) =>
        var payload := BuildPayload(s, p.startedAt, headline);
        Some(st.(procs := st.procs[s := q.(payload := Some(payload))],
                 files := st.files.(pending := Some(Pending(s, payload)))))
      case Spawn => Some(st.(procs := st.procs[s := q.(spawnedAt := st.now)]))
      case Wake => if st.now < p.spawnedAt + idle then None else Some(st.(procs := st.procs[s := q]))
      case ReadActivity => Some(st.(procs := st.procs[s := q.(sawActivity := st.files.activity)]))
      case ReadPending => Some(st.(procs := st.procs[s := q.(sawPending := st.files.pending)]))
      case Decide =>
        var send := ShouldDeferredSend(p.sawActivity, StopTsOf(p.sawPending), s);
        Some(st.(procs := st.procs[s := if send then q else p.(pc := DROPPED)]))
      case BeginPost =>
        if p.sawPending.None? then None
        else Some(st.(procs := st.procs[s := q], posts := st.posts + [Post(s, p.sawPending.value.payload, st.now)]))
      case EndPost => Some(st.(procs := st.procs[s := q]))
      case DeletePending =>
        Some(st.(procs := st.procs[s := q], files := st.files.(pending := None)))
  }

  // ----------------------------------------------------------------- runs

  /** `states[i]` is the state before `events[i]`. */
  datatype Run = Run(events: seq<Event>, states: seq<State>)

  ghost predicate Legal(idle: nat, r: Run) {
    && |r.states| == |r.events| + 1
    && r.states[0] == INIT
    && forall i :: 0 <= i < |r.events| ==> Step(idle, r.states[i], r.events[i]) == Some(r.states[i + 1])
  }

  /** Event i is the action of rank k of Stop s. */
  predicate Is(r: Run, i: int, s: nat, k: nat) {
    0 <= i < |r.events| && r.events[i].Hook? && r.events[i].s == s && Rank(r.events[i].act) == k
  }

  /** Event i is the action of rank k of prompt p. */
  predicate IsPrompt(r: Run, i: int, p: nat, k: nat) {
    0 <= i < |r.events| && r.events[i].Prompt? && r.events[i].p == p && PromptRank(r.events[i].step) == k
  }

  /** Event i writes the start file, or the activity marker. */
  predicate StartWrite(r: Run, i: int) {
    0 <= i < |r.events| && r.events[i].Prompt? && r.events[i].step.WriteStart?
  }

  predicate ActivityWrite(r: Run, i: int) {
    0 <= i < |r.events| && r.events[i].Prompt? && r.events[i].step.WriteActivity?
  }

  /** Event i is the write or the deletion of the pending file by the chain of another Stop. */
  predicate WriteByOther(r: Run, i: int, s: nat) {
    0 <= i < |r.events| && r.events[i].Hook? && r.events[i].s != s && r.events[i].act.WritePending?
  }

  predicate DeleteByOther(r: Run, i: int, s: nat) {
    0 <= i < |r.events| && r.events[i].Hook? && r.events[i].s != s && r.events[i].act.DeletePending?
  }

  function PostCount(posts: seq<Post>, s: nat): nat {
    if posts == [] then 0
    else PostCount(posts[..|posts| - 1], s) + if posts[|posts| - 1].s == s then 1 else 0
  }
}
