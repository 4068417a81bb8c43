/**
 * One hook invocation and one deferred sender as sequential code over the three cache
 * files of a session. The interleaved protocol is in module Debounce; here each handler
 * runs with nothing in between.
 */
module SessionFiles {
  import opened Options
  import opened Debounce

  datatype HookEvent = Start | End | NeedsInput

  /** Toggles and gateway address are strings or missing; `idle` is the window in ms. */
  datatype Config = Config(
    onStart: Option<string>,
    onEnd: Option<string>,
    onNeedsInput: Option<string>,
    url: Option<string>,
    idle: nat)

  datatype Outcome = Nothing | SentNow(payload: Payload) | Deferred(stopTs: nat)

  function MapEvent(name: string): Option<HookEvent> {
    if name == "UserPromptSubmit" then Some(Start)
    else if name == "Stop" then Some(End)
    else if name == "Notification" then Some(NeedsInput)
    else None
  }

  /** Start pushes are opt-in, the two others opt-out. */
  predicate IsEventEnabled(event: HookEvent, config: Config) {
    match event
    case Start => config.onStart == Some("true")
    case End => config.onEnd != Some("false")
    case NeedsInput => config.onNeedsInput != Some("false")
  }

  predicate HasUrl(config: Config) {
    config.url.Some? && config.url.value != ""
  }

  /** The Stop at `stopTs` is the freshest signal the files know of. */
  ghost predicate Freshest(files: Files, stopTs: nat) {
    && (files.activity.Some? ==> files.activity.value <= stopTs)
    && files.pending.Some? && files.pending.value.stopTs == stopTs
  }

  class Session {
    var start: Option<nat>
    var activity: Option<nat>
    var pending: Option<Pending>

    constructor ()
      ensures Contents() == Files(None, None, None)
    {
      start, activity, pending := None, None, None;
    }

    ghost function Contents(): Files
      reads this
    {
      Files(start, activity, pending)
    }

    method ReadAndClearStartTime() returns (startedAt: Option<nat>)
      modifies this`start
      ensures startedAt == old(start) && start == None
    {
      startedAt := start;
      if startedAt.Some? {
        start := None;
      }
    }

    /**
     * One hook invocation. `t0`, `t1` and `t2` are its successive clock reads. A prompt
     * refreshes both markers whatever the toggles say; a Stop of a session is deferred
     * and never sent now unless the window is 0; nothing else waits. A prompt is announced
     * only when asked for, the two others unless declined, and nothing without an address.
     */
    method Run(name: string, hasSession: bool, config: Config, t0: nat, t1: nat, t2: nat, headline: string)
      returns (outcome: Outcome)
      modifies this
      ensures name !in {"UserPromptSubmit", "Stop", "Notification"} ==> outcome == Nothing && Contents() == old(Contents())
      ensures config.url.None? || config.url.value == "" ==> outcome == Nothing
      ensures name == "UserPromptSubmit" ==>
        && pending == old(pending)
        && start == (if hasSession then Some(t0) else old(start))
        && activity == (if hasSession then Some(t1) else old(activity))
        && outcome == if config.onStart == Some("true") && config.url.Some? && config.url.value != ""
                      then SentNow(Payload(t2, None, "")) else Nothing
      ensures name == "Notification" ==>
        && Contents() == old(Contents())
        && outcome == if config.onNeedsInput != Some("false") && config.url.Some? && config.url.value != ""
                      then SentNow(Payload(t2, None, headline)) else Nothing
      ensures name == "Stop" && (config.onEnd == Some("false") || config.url.None? || config.url.value == "") ==>
        outcome == Nothing && Contents() == old(Contents())
      ensures name == "Stop" && config.onEnd != Some("false") && config.url.Some? && config.url.value != "" ==>
        var durationMs := if hasSession && old(start).Some? then Some(t2 - old(start).value) else None;
        && activity == old(activity)
        && start == (if hasSession then None else old(start))
        && (if hasSession && config.idle > 0
            then outcome == Deferred(t2) && pending == Some(Pending(t2, Payload(t2, durationMs, headline)))
            else outcome == SentNow(Payload(t2, durationMs, headline)) && pending == old(pending))
    {
      var event := MapEvent(name);
      if event == None {
        return Nothing;
      }
      if event.value == Start && hasSession {
        start := Some(t0);
        activity := Some(t1);
      }
      if !IsEventEnabled(event.value, config) || !HasUrl(config) {
        return Nothing;
      }
      if event.value == End && hasSession && config.idle > 0 {
        var startedAt := ReadAndClearStartTime();
        pending := Some(Pending(t2, BuildPayload(t2, startedAt, headline)));
        return Deferred(t2);
      }
      if event.value == End {
        var startedAt := None;
        if hasSession {
          startedAt := ReadAndClearStartTime();
        }
        return SentNow(BuildPayload(t2, startedAt, headline));
      }
      return SentNow(BuildPayload(t2, None, if event.value == Start then "" else headline));
    }

    /**
     * The sender of Stop `stopTs` after its sleep, with nothing in between: it posts the
     * pending payload and clears it exactly when the pending entry is its own and no newer
     * prompt was recorded; otherwise it leaves every file alone.
     */
    method RunDeferredSend(stopTs: nat, config: Config) returns (sent: Option<Payload>)
      modifies this
      ensures old(Freshest(Contents(), stopTs)) ==>
          && sent == (if config.url.Some? && config.url.value != "" then Some(old(pending).value.payload) else None)
          && Contents() == old(Contents()).(pending := None)
      ensures !old(Freshest(Contents(), stopTs)) ==> sent == None && Contents() == old(Contents())
    {
      var activityTs := activity;
      var found := pending;
      sent := None;
      if !ShouldDeferredSend(activityTs, StopTsOf(found), stopTs) {
        return;
      }
      if HasUrl(config) {
        sent := Some(found.value.payload);
      }
      pending := None;
    }
  }
}
