/** The per-oracle circuit breaker of `health.py`: a sliding window of outcomes, a cooldown
    and an escalating quota hold. Time is an argument; rates are compared by multiplication. */
module Breaker {
  import opened Text

  const MIN_SAMPLES: nat := 5
  const QUOTA_HOLD_MAX: real := 3600.0
  const NON_HEALTH_KINDS: set<string> := {
    "not_configured", "unknown_oracle", "auth_failed", "circuit_open", "model_unavailable", "model_too_large",
    "payment_required", "budget_exhausted", "context_too_large", "bad_input", "binary_missing", "sdk_unavailable",
    "transport_incapable", "disabled", "bad_args", "model_not_found", "context_too_small", "busy"}

  /** The settings as the environment readers clamp them. */
  datatype Settings = Settings(window: nat, threshold: real, cooldown: real, enabled: bool, holdBase: real)

  predicate Clamped(cfg: Settings) {
    cfg.window >= 1 && 0.1 <= cfg.threshold <= 1.0 && cfg.cooldown >= 1.0 && cfg.holdBase >= 0.0
  }

  /** `outcomes` is true for an error; `openedAt` is 0 while closed. */
  datatype State = State(outcomes: seq<bool>, openedAt: real, heldUntil: real, holdStep: nat)

  const Fresh := State([], 0.0, 0.0, 0)

  datatype Change = Opened | Reopened | Closed

  datatype Transition = Transition(key: string, to: Change, probe: bool, errors: nat, samples: nat,
                                   window: nat, cooldown: real)

  datatype Gate = ClosedGate | OpenGate | HalfOpen

  /** One recorded outcome: `now` is the clock (positive), `jitter` the random hold factor. */
  datatype Event = Event(status: string, kind: string, now: real, jitter: real)

  predicate EventOk(e: Event) {
    e.now > 0.0 && -0.1 <= e.jitter <= 0.1
  }

  function Errors(outcomes: seq<bool>): (n: nat)
    ensures n <= |outcomes|
  {
    if outcomes == [] then 0
    else Errors(outcomes[..|outcomes| - 1]) + (if outcomes[|outcomes| - 1] then 1 else 0)
  }

  predicate Tripped(outcomes: seq<bool>, threshold: real) {
    |outcomes| >= MIN_SAMPLES && Errors(outcomes) as real >= threshold * (|outcomes| as real)
  }

  /** The window after dropping the oldest outcomes and adding one. */
  function Slide(outcomes: seq<bool>, window: nat, isError: bool): seq<bool>
    requires window >= 1
  {
    (if |outcomes| >= window then outcomes[|outcomes| - window + 1..] else outcomes) + [isError]
  }

  predicate Ignored(e: Event) {
    e.status == "error" && e.kind in NON_HEALTH_KINDS
  }

  predicate IsQuota(cfg: Settings, e: Event) {
    e.status == "error" && e.kind == "rate_limit" && cfg.holdBase > 0.0
  }

  /** Outcomes that reach the sliding window. */
  predicate Counted(cfg: Settings, e: Event) {
    !Ignored(e) && !IsQuota(cfg, e)
  }

  function Pow2(n: nat): real {
    if n == 0 then 1.0 else 2.0 * Pow2(n - 1)
  }

  function MaxReal(a: real, b: real): real { if a >= b then a else b }

  function MinReal(a: real, b: real): real { if a <= b then a else b }

  /** A rate limit with the hold feature on: escalate once per expired hold, never shorten. */
  function Held(cfg: Settings, s: State, e: Event): State {
    var step := if e.now >= s.heldUntil then s.holdStep + 1 else s.holdStep;
    var base := if step > 0 then cfg.holdBase * Pow2(step - 1) else cfg.holdBase / 2.0;
    var hold := MinReal(base, QUOTA_HOLD_MAX) * (1.0 + e.jitter);
    s.(holdStep := step, heldUntil := MaxReal(s.heldUntil, e.now + hold))
  }

  function Probing(cfg: Settings, s: State, e: Event): bool {
    s.openedAt != 0.0 && e.now - s.openedAt >= cfg.cooldown
  }

  /** What one outcome does to a key's state, and the change it reports. */
  function Step(cfg: Settings, s: State, e: Event): (State, Option<Change>)
    requires Clamped(cfg)
  {
    if Ignored(e) then (s, None)
    else if IsQuota(cfg, e) then (Held(cfg, s, e), None)
    else
      var isError := e.status == "error";
      var outcomes := Slide(s.outcomes, cfg.window, isError);
      if !isError then
        (State(if s.openedAt != 0.0 then [false] else outcomes, 0.0, 0.0, 0),
         if cfg.enabled && s.openedAt != 0.0 then Some(Closed) else None)
      else if cfg.enabled && Tripped(outcomes, cfg.threshold) then
        (s.(outcomes := outcomes, openedAt := e.now),
         if s.openedAt == 0.0 then Some(Opened) else if Probing(cfg, s, e) then Some(Reopened) else None)
      else (s.(outcomes := outcomes), None)
  }

  // --- the object -----------------------------------------------------------------------------

  function StateAt(states: map<string, State>, key: string): State {
    if key in states then states[key] else Fresh
  }

  /** Drop the oldest outcomes until there is room, then add the newest. */
  method Push(outcomes: seq<bool>, window: nat, isError: bool) returns (out: seq<bool>)
    requires window >= 1
    ensures out == Slide(outcomes, window, isError)
  {
    out := outcomes;
    while |out| >= window
      invariant |out| <= |outcomes| && out == outcomes[|outcomes| - |out|..]
      invariant |outcomes| < window ==> out == outcomes
      invariant |outcomes| >= window ==> |out| >= window - 1
    {
      out := out[1..];
    }
    out := out + [isError];
  }

  class Breaker {
    var states: map<string, State>

    constructor ()
      ensures states == map[]
    {
      states := map[];
    }

    /** `record`: the whole new state of the key, nobody else's changed, and the change reported. */
    method Record(key: string, e: Event, cfg: Settings) returns (t: Option<Transition>)
      requires Clamped(cfg)
      modifies this
      ensures StateAt(states, key) == Step(cfg, StateAt(old(states), key), e).0
      ensures states == old(states) || states == old(states)[key := Step(cfg, StateAt(old(states), key), e).0]
      ensures t.Some? <==> Step(cfg, StateAt(old(states), key), e).1.Some?
      ensures t.Some? ==> t.value.key == key && t.value.to == Step(cfg, StateAt(old(states), key), e).1.value
      ensures t.Some? ==> t.value.samples == |StateAt(states, key).outcomes|
      ensures t.Some? ==> t.value.errors == Errors(StateAt(states, key).outcomes)
      ensures t.Some? ==> t.value.probe == Probing(cfg, StateAt(old(states), key), e)
      ensures t.Some? ==> t.value.window == cfg.window && t.value.cooldown == cfg.cooldown
    {
      hide Errors, Pow2, Tripped, Slide;
      if e.status == "error" && e.kind in NON_HEALTH_KINDS {
        return None;
      }
      var isError := e.status == "error";
      var s := StateAt(states, key);
      if isError && e.kind == "rate_limit" && cfg.holdBase > 0.0 {
        if e.now >= s.heldUntil {
          s := s.(holdStep := s.holdStep + 1);
        }
        var base := if s.holdStep > 0 then cfg.holdBase * Pow2(s.holdStep - 1) else cfg.holdBase / 2.0;
        var hold := MinReal(base, QUOTA_HOLD_MAX);
        hold := hold * (1.0 + e.jitter);
        s := s.(heldUntil := MaxReal(s.heldUntil, e.now + hold));
        states := states[key := s];
        return None;
      }
      var change: Option<Change> := None;
      var outcomes := Push(s.outcomes, cfg.window, isError);
      var wasOpen := s.openedAt != 0.0;
      var probing := wasOpen && e.now - s.openedAt >= cfg.cooldown;
      if !isError {
        if wasOpen {
          outcomes := [false];
          change := Some(Closed);
        }
        s := State(outcomes, 0.0, 0.0, 0);
      } else {
        s := s.(outcomes := outcomes);
        if cfg.enabled && Tripped(outcomes, cfg.threshold) {
          s := s.(openedAt := e.now);
          if !wasOpen {
            change := Some(Opened);
          } else if probing {
            change := Some(Reopened);
          }
        }
      }
      states := states[key := s];
      if cfg.enabled && change.Some? {
        var probe := match change.value case Opened => false case Reopened => true case Closed => probing;
        t := Some(Transition(key, change.value, probe, Errors(s.outcomes), |s.outcomes|, cfg.window, cfg.cooldown));
      } else {
        t := None;
      }
    }

    /** `state` */
    method GateOf(key: string, now: real, cfg: Settings) returns (g: Gate)
      ensures g == GateAt(cfg, StateAt(states, key), now)
    {
      if !cfg.enabled {
        return ClosedGate;
      }
      if key !in states || states[key].openedAt == 0.0 {
        return ClosedGate;
      }
      return if now - states[key].openedAt >= cfg.cooldown then HalfOpen else OpenGate;
    }

    /** `should_skip`: open, or a live hold while the feature is on. */
    method ShouldSkip(key: string, now: real, cfg: Settings) returns (skip: bool)
      ensures skip <==>
        (cfg.enabled && StateAt(states, key).openedAt != 0.0 && now - StateAt(states, key).openedAt < cfg.cooldown)
        || (cfg.holdBase > 0.0 && key in states && now < states[key].heldUntil)
    {
      var g := GateOf(key, now, cfg);
      if g == OpenGate {
        return true;
      }
      if cfg.holdBase <= 0.0 {
        return false;
      }
      return key in states && now < states[key].heldUntil;
    }
  }

  function GateAt(cfg: Settings, s: State, now: real): Gate {
    if !cfg.enabled || s.openedAt == 0.0 then ClosedGate
    else if now - s.openedAt >= cfg.cooldown then HalfOpen
    else OpenGate
  }

  // --- runs of one key ---------------------------------------------------------------------------

  function Run(cfg: Settings, s: State, events: seq<Event>): State
    requires Clamped(cfg)
  {
    if events == [] then s
    else Step(cfg, Run(cfg, s, events[..|events| - 1]), events[|events| - 1]).0
  }

  /** The changes a run reports, in order. */
  function Reports(cfg: Settings, s: State, events: seq<Event>): seq<Change>
    requires Clamped(cfg)
  {
    if events == [] then []
    else
      var change := Step(cfg, Run(cfg, s, events[..|events| - 1]), events[|events| - 1]).1;
      Reports(cfg, s, events[..|events| - 1]) + (if change.Some? then [change.value] else [])
  }

  ghost predicate EventsOk(events: seq<Event>) {
    forall i :: 0 <= i < |events| ==> EventOk(events[i])
  }

  // --- the window of an open breaker -----------------------------------------------------------------

  /** While the breaker is open its window alone justifies it. */
  ghost predicate WindowOk(cfg: Settings, s: State) {
    |s.outcomes| <= cfg.window && (s.openedAt != 0.0 ==> Tripped(s.outcomes, cfg.threshold))
  }

  lemma {:induction false} ErrorsDropFirst(outcomes: seq<bool>)
    requires outcomes != []
    ensures Errors(outcomes) == Errors(outcomes[1..]) + (if outcomes[0] then 1 else 0)
  {
    var n := |outcomes| - 1;
    if n > 0 {
      ErrorsDropFirst(outcomes[..n]);
      assert outcomes[1..][..n - 1] == outcomes[..n][1..];
    }
  }

  /** One more error never lowers the error rate of a full or a growing window. */
  lemma ErrorKeepsTripped(outcomes: seq<bool>, window: nat, threshold: real)
    requires window >= 1 && |outcomes| <= window && threshold <= 1.0 && Tripped(outcomes, threshold)
    ensures Tripped(Slide(outcomes, window, true), threshold)
  {
    hide Errors;
    if |outcomes| >= window {
      assert |outcomes| == window && outcomes[|outcomes| - window + 1..] == outcomes[1..];
      ErrorsDropFirst(outcomes);
      ErrorsSnoc(outcomes[1..], true);
    } else {
      ErrorsSnoc(outcomes, true);
      OneMore(threshold, |outcomes|);
    }
  }

  lemma OneMore(threshold: real, n: nat)
    ensures threshold * ((n + 1) as real) == threshold * (n as real) + threshold
  {
  }

  lemma StepKeepsWindow(cfg: Settings, s: State, e: Event)
    requires Clamped(cfg) && WindowOk(cfg, s) && EventOk(e)
    ensures WindowOk(cfg, Step(cfg, s, e).0)
  {
    if Counted(cfg, e) && e.status == "error" && s.openedAt != 0.0 {
      ErrorKeepsTripped(s.outcomes, cfg.window, cfg.threshold);
    }
  }

  /** In every run with fixed settings, an open breaker has at least five samples with the error
      rate at or above the threshold. */
  lemma {:induction false} OpenIsJustified(cfg: Settings, events: seq<Event>)
    requires Clamped(cfg) && EventsOk(events)
    ensures WindowOk(cfg, Run(cfg, Fresh, events))
  {
    if events != [] {
      OpenIsJustified(cfg, events[..|events| - 1]);
      StepKeepsWindow(cfg, Run(cfg, Fresh, events[..|events| - 1]), events[|events| - 1]);
    }
  }

  /** So any health failure after the cooldown re-opens the breaker, and says so. */
  lemma FailedProbeReopens(cfg: Settings, events: seq<Event>, e: Event)
    requires Clamped(cfg) && cfg.enabled && EventsOk(events) && EventOk(e)
    requires GateAt(cfg, Run(cfg, Fresh, events), e.now) == HalfOpen
    requires Counted(cfg, e) && e.status == "error"
    ensures var after := Step(cfg, Run(cfg, Fresh, events), e);
            after.1 == Some(Reopened) && after.0.openedAt == e.now && GateAt(cfg, after.0, e.now) == OpenGate
  {
    OpenIsJustified(cfg, events);
    ErrorKeepsTripped(Run(cfg, Fresh, events).outcomes, cfg.window, cfg.threshold);
  }

  // --- what is reported -----------------------------------------------------------------------------------

  predicate MayFollow(a: Change, b: Change) {
    if a == Closed then b == Opened else b != Opened
  }

  /** (opened reopened* closed)*, cut off anywhere. */
  ghost predicate Spells(changes: seq<Change>) {
    && (changes != [] ==> changes[0] == Opened)
    && forall i :: 0 <= i < |changes| - 1 ==> MayFollow(changes[i], changes[i + 1])
  }

  /** The reports of every run spell (opened reopened* closed)*, and the breaker is open exactly
      when the last report is not `closed`. */
  lemma {:induction false} ReportsSpell(cfg: Settings, events: seq<Event>)
    requires Clamped(cfg) && cfg.enabled && EventsOk(events)
    ensures var changes := Reports(cfg, Fresh, events);
            && Spells(changes)
            && (Run(cfg, Fresh, events).openedAt != 0.0 <==> changes != [] && changes[|changes| - 1] != Closed)
  {
    if events != [] {
      ReportsSpell(cfg, events[..|events| - 1]);
    }
  }

  // --- fresh samples after a close ----------------------------------------------------------------------------

  function CountedIn(cfg: Settings, events: seq<Event>): nat {
    if events == [] then 0
    else CountedIn(cfg, events[..|events| - 1]) + (if Counted(cfg, events[|events| - 1]) then 1 else 0)
  }

  /** From a closed state, each counted outcome adds at most one sample. */
  lemma {:induction false} SamplesGrowSlowly(cfg: Settings, s: State, events: seq<Event>)
    requires Clamped(cfg) && s.openedAt == 0.0 && |s.outcomes| + CountedIn(cfg, events) < MIN_SAMPLES
    ensures Run(cfg, s, events).openedAt == 0.0 && Reports(cfg, s, events) == []
    ensures |Run(cfg, s, events).outcomes| <= |s.outcomes| + CountedIn(cfg, events)
  {
    if events != [] {
      SamplesGrowSlowly(cfg, s, events[..|events| - 1]);
    }
  }

  /** After a close the breaker cannot open again before the fourth further counted outcome. */
  lemma FourBeforeReopening(cfg: Settings, before: State, closing: Event, events: seq<Event>)
    requires Clamped(cfg) && Step(cfg, before, closing).1 == Some(Closed)
    requires CountedIn(cfg, events) < 4
    ensures var closed := Step(cfg, before, closing).0;
            Run(cfg, closed, events).openedAt == 0.0 && Reports(cfg, closed, events) == []
  {
    SamplesGrowSlowly(cfg, Step(cfg, before, closing).0, events);
  }

  /** What a close leaves behind, whatever was there before. */
  const JustClosed := State([false], 0.0, 0.0, 0)

  lemma CloseLeaves(cfg: Settings, before: State, closing: Event)
    requires Clamped(cfg) && before.openedAt != 0.0 && closing.status != "error"
    ensures Step(cfg, before, closing).0 == JustClosed
    ensures cfg.enabled <==> Step(cfg, before, closing).1 == Some(Closed)
  {
  }

  /** A window below five samples never opens. */
  lemma {:induction false} SmallWindowNeverOpens(cfg: Settings, s: State, events: seq<Event>)
    requires Clamped(cfg) && s.openedAt == 0.0 && |s.outcomes| <= cfg.window
    requires cfg.window < MIN_SAMPLES || !cfg.enabled
    ensures Run(cfg, s, events).openedAt == 0.0 && |Run(cfg, s, events).outcomes| <= cfg.window
  {
    if events != [] {
      SmallWindowNeverOpens(cfg, s, events[..|events| - 1]);
    }
  }

  /** A closed state with a success on file and at most so many samples. */
  predicate SuccessOnFile(s: State, samples: nat) {
    s.openedAt == 0.0 && |s.outcomes| <= samples && Errors(s.outcomes) <= |s.outcomes| - 1
  }

  lemma SuccessStays(cfg: Settings, s: State, e: Event, samples: nat)
    requires Clamped(cfg) && cfg.window >= MIN_SAMPLES && cfg.threshold > 0.8
    requires samples < MIN_SAMPLES && SuccessOnFile(s, samples) && Counted(cfg, e)
    ensures SuccessOnFile(Step(cfg, s, e).0, samples + 1)
  {
    hide Errors;
    var isError := e.status == "error";
    ErrorsSnoc(s.outcomes, isError);
    BelowFourFifths(cfg.threshold, |s.outcomes| + 1);
    var outcomes := s.outcomes + [isError];
    assert Slide(s.outcomes, cfg.window, isError) == outcomes;
    assert isError ==> !Tripped(outcomes, cfg.threshold) by { BelowIsNotTripped(outcomes, cfg.threshold); }
    hide Tripped, Slide;
  }

  lemma BelowIsNotTripped(outcomes: seq<bool>, threshold: real)
    requires |outcomes| <= MIN_SAMPLES && Errors(outcomes) <= |outcomes| - 1
    requires (|outcomes| - 1) as real < threshold * (|outcomes| as real)
    ensures !Tripped(outcomes, threshold)
  {
    hide Errors;
  }

  lemma JustClosedSuccess()
    ensures SuccessOnFile(JustClosed, 1)
  {
    ErrorsSnoc([], false);
    assert [] + [false] == [false];
  }

  /** With the closing success still on file, four outcomes hold at most four errors in five. */
  lemma {:induction false} OneSuccessOnFile(cfg: Settings, events: seq<Event>)
    requires Clamped(cfg) && cfg.window >= MIN_SAMPLES && cfg.threshold > 0.8 && CountedIn(cfg, events) <= 4
    ensures SuccessOnFile(Run(cfg, JustClosed, events), 1 + CountedIn(cfg, events))
  {
    hide SuccessOnFile, Step, Counted, JustClosed;
    JustClosedSuccess();
    if events != [] {
      var n := |events| - 1;
      OneSuccessOnFile(cfg, events[..n]);
      var s, e := Run(cfg, JustClosed, events[..n]), events[n];
      if Counted(cfg, e) {
        SuccessStays(cfg, s, e, 1 + CountedIn(cfg, events[..n]));
      } else {
        SuccessUncounted(cfg, s, e, 1 + CountedIn(cfg, events[..n]));
      }
    }
  }

  lemma SuccessUncounted(cfg: Settings, s: State, e: Event, samples: nat)
    requires Clamped(cfg) && SuccessOnFile(s, samples) && !Counted(cfg, e)
    ensures SuccessOnFile(Step(cfg, s, e).0, samples)
  {
  }

  lemma BelowFourFifths(threshold: real, samples: nat)
    requires threshold > 0.8
    ensures samples <= MIN_SAMPLES && samples >= 1 ==> (samples - 1) as real < threshold * (samples as real)
  {
    assert samples == 1 ==> threshold * (samples as real) == threshold;
    assert samples == 2 ==> threshold * (samples as real) == threshold * 2.0;
    assert samples == 3 ==> threshold * (samples as real) == threshold * 3.0;
    assert samples == 4 ==> threshold * (samples as real) == threshold * 4.0;
    assert samples == 5 ==> threshold * (samples as real) == threshold * 5.0;
  }

  /** An error that says something about health. */
  const Failure := Event("error", "", 1.0, 0.0)

  lemma FiveFreshCallsHold(cfg: Settings, events: seq<Event>)
    requires Clamped(cfg) && CountedIn(cfg, events) <= 4
    requires !cfg.enabled || cfg.window < 5 || cfg.threshold > 0.8
    ensures Run(cfg, JustClosed, events).openedAt == 0.0
  {
    hide Run, CountedIn, Errors;
    if !cfg.enabled || cfg.window < 5 {
      SmallWindowNeverOpens(cfg, JustClosed, events);
    } else {
      OneSuccessOnFile(cfg, events);
    }
  }

  lemma FiveFreshCallsFail(cfg: Settings) returns (events: seq<Event>)
    requires Clamped(cfg) && cfg.enabled && cfg.window >= 5 && cfg.threshold <= 0.8
    ensures EventsOk(events) && CountedIn(cfg, events) <= 4 && Run(cfg, JustClosed, events).openedAt != 0.0
  {
    hide Run, Reports, CountedIn;
    var e := Failure;
    events := [e, e, e, e];
    FourErrorsReopen(cfg, JustClosed, e);
    FourCounted(cfg, e);
  }

  /** The promise of five fresh calls after a close, read as: no four counted outcomes, however
      mixed with others, open the breaker again. It holds exactly for these settings; the
      defaults are not among them. */
  lemma FiveFreshCallsExactly(cfg: Settings)
    requires Clamped(cfg)
    ensures (forall events :: EventsOk(events) && CountedIn(cfg, events) <= 4 ==>
              Run(cfg, JustClosed, events).openedAt == 0.0)
       <==> !cfg.enabled || cfg.window < 5 || cfg.threshold > 0.8
  {
    hide Run, CountedIn, EventsOk;
    if !cfg.enabled || cfg.window < 5 || cfg.threshold > 0.8 {
      forall events | EventsOk(events) && CountedIn(cfg, events) <= 4
        ensures Run(cfg, JustClosed, events).openedAt == 0.0
      {
        FiveFreshCallsHold(cfg, events);
      }
    } else {
      var events := FiveFreshCallsFail(cfg);
    }
  }

  lemma FourCounted(cfg: Settings, e: Event)
    requires Counted(cfg, e)
    ensures CountedIn(cfg, [e, e, e, e]) == 4
  {
    hide CountedIn;
    CountedSnoc(cfg, [], e);
    CountedSnoc(cfg, [e], e);
    CountedSnoc(cfg, [e, e], e);
    CountedSnoc(cfg, [e, e, e], e);
    assert [] + [e] == [e] && [e] + [e] == [e, e] && [e, e] + [e] == [e, e, e] && [e, e, e] + [e] == [e, e, e, e];
    NoneCounted(cfg);
  }

  lemma NoneCounted(cfg: Settings)
    ensures CountedIn(cfg, []) == 0
  {
  }

  lemma CountedSnoc(cfg: Settings, events: seq<Event>, e: Event)
    ensures CountedIn(cfg, events + [e]) == CountedIn(cfg, events) + (if Counted(cfg, e) then 1 else 0)
  {
    assert (events + [e])[..|events|] == events;
  }

  /** With room for five samples and a threshold of at most 4/5, four straight errors after a
      close open it. */
  lemma FourErrorsReopen(cfg: Settings, closed: State, e: Event)
    requires Clamped(cfg) && cfg.enabled && cfg.window >= 5 && cfg.threshold <= 0.8
    requires closed.outcomes == [false] && closed.openedAt == 0.0
    requires EventOk(e) && Counted(cfg, e) && e.status == "error"
    ensures Reports(cfg, closed, [e, e, e, e]) == [Opened]
    ensures Run(cfg, closed, [e, e, e, e]).openedAt == e.now
  {
    hide Run, Reports, Errors;
    RunSnoc(cfg, closed, [], e);
    RunSnoc(cfg, closed, [e], e);
    RunSnoc(cfg, closed, [e, e], e);
    RunSnoc(cfg, closed, [e, e, e], e);
    assert [] + [e] == [e] && [e] + [e] == [e, e] && [e, e] + [e] == [e, e, e] && [e, e, e] + [e] == [e, e, e, e];
    RunStart(cfg, closed);
    var one, two := Run(cfg, closed, [e]), Run(cfg, closed, [e, e]);
    assert one.outcomes == [false] + [true] && two.outcomes == one.outcomes + [true];
    var three := Run(cfg, closed, [e, e, e]);
    assert three.outcomes == two.outcomes + [true];
    var four := Slide(three.outcomes, cfg.window, true);
    assert four == three.outcomes + [true] && |four| == 5;
    ErrorsSnoc([], false);
    assert [] + [false] == [false];
    ErrorsSnoc([false], true);
    ErrorsSnoc(one.outcomes, true);
    ErrorsSnoc(two.outcomes, true);
    ErrorsSnoc(three.outcomes, true);
    NoErrors();
  }

  lemma RunStart(cfg: Settings, s: State)
    requires Clamped(cfg)
    ensures Run(cfg, s, []) == s && Reports(cfg, s, []) == []
  {
  }

  lemma NoErrors()
    ensures Errors([]) == 0
  {
  }

  lemma ErrorsSnoc(o: seq<bool>, isError: bool)
    ensures Errors(o + [isError]) == Errors(o) + (if isError then 1 else 0)
  {
    assert (o + [isError])[..|o|] == o;
  }

  lemma RunSnoc(cfg: Settings, s: State, events: seq<Event>, e: Event)
    requires Clamped(cfg)
    ensures var next := Step(cfg, Run(cfg, s, events), e);
            && Run(cfg, s, events + [e]) == next.0
            && Reports(cfg, s, events + [e]) == Reports(cfg, s, events) + (if next.1.Some? then [next.1.value] else [])
  {
    assert (events + [e])[..|events|] == events;
  }

  // --- quota holds --------------------------------------------------------------------------------------------------

  /** Until a success a hold never shortens and its step never falls; a rate limit that lands on
      a live hold does not escalate it. Only a success lifts a hold, and it lifts all of it. */
  lemma HoldStep(cfg: Settings, s: State, e: Event)
    requires Clamped(cfg) && EventOk(e)
    ensures var n := Step(cfg, s, e).0;
            && (e.status == "error" ==> n.heldUntil >= s.heldUntil && s.holdStep <= n.holdStep <= s.holdStep + 1)
            && (e.status == "error" && e.now < s.heldUntil ==> n.holdStep == s.holdStep)
            && (e.status != "error" ==> n.heldUntil == 0.0 && n.holdStep == 0)
            && n.heldUntil <= MaxReal(s.heldUntil, e.now + 1.1 * QUOTA_HOLD_MAX)
  {
    if IsQuota(cfg, e) {
      var step := if e.now >= s.heldUntil then s.holdStep + 1 else s.holdStep;
      var base := if step > 0 then cfg.holdBase * Pow2(step - 1) else cfg.holdBase / 2.0;
      CappedHold(MinReal(base, QUOTA_HOLD_MAX), e.jitter);
    }
  }

  lemma CappedHold(hold: real, jitter: real)
    requires hold <= QUOTA_HOLD_MAX && -0.1 <= jitter <= 0.1
    ensures hold * (1.0 + jitter) <= 1.1 * QUOTA_HOLD_MAX
  {
    if hold >= 0.0 {
      assert hold * (1.0 + jitter) <= hold * 1.1;
    } else {
      assert hold * (1.0 + jitter) <= 0.0;
    }
  }

  /** Over any run without a success, the hold in force at the start still stands at the end. */
  lemma {:induction false} HoldsNeverShorten(cfg: Settings, s: State, events: seq<Event>)
    requires Clamped(cfg) && EventsOk(events) && forall i :: 0 <= i < |events| ==> events[i].status == "error"
    ensures Run(cfg, s, events).heldUntil >= s.heldUntil && Run(cfg, s, events).holdStep >= s.holdStep
  {
    if events != [] {
      HoldsNeverShorten(cfg, s, events[..|events| - 1]);
      HoldStep(cfg, Run(cfg, s, events[..|events| - 1]), events[|events| - 1]);
    }
  }

  /** A burst of rate limits that all land on a live hold escalates nothing. */
  lemma {:induction false} LiveHoldNeverEscalates(cfg: Settings, s: State, events: seq<Event>)
    requires Clamped(cfg) && EventsOk(events)
    requires forall i :: 0 <= i < |events| ==> events[i].status == "error" && events[i].now < s.heldUntil
    ensures Run(cfg, s, events).holdStep == s.holdStep && Run(cfg, s, events).heldUntil >= s.heldUntil
  {
    if events != [] {
      var n := |events| - 1;
      LiveHoldNeverEscalates(cfg, s, events[..n]);
      HoldStep(cfg, Run(cfg, s, events[..n]), events[n]);
    }
  }
}
