/** The load, reload and swap decision of `lmstudio.py` (`_ensure_loaded_locked`) against a
    server whose answers are arbitrary. The host object holds what the server really has
    resident and a log of every request the decision made. */
module LmSwap {
  import opened Text

  const MIN_OUTPUT_TOKENS: nat := 512
  const CONTEXT_MARGIN: nat := 256
  const FLOOR_CONTEXT: nat := 2048
  const MEMORY_HINTS: seq<string> := ["not enough memory", "insufficient memory", "out of memory", "vram",
                                      "failed to allocate", "memory allocation"]

  datatype Policy = Never | Auto

  /** One catalog row. A `window` of 0 means the build does not report it; so does `maxWindow`. */
  datatype Entry = Entry(key: string, chat: bool, loaded: bool, window: nat, maxWindow: nat)

  datatype Resident = Resident(key: string, window: nat)

  datatype Verdict = Fits | NeedsRoom | TooLarge | Unknown

  /** `est` is the prompt estimate, `ceiling` the host's cap (0 for none); `models` is the first
      catalog read, `reread` the second one after a crash, `verdict` the control page's room check. */
  datatype Request = Request(model: string, est: nat, policy: Policy, defaultWindow: nat, ceiling: nat,
                             models: Option<seq<Entry>>, reread: Option<seq<Entry>>, verdict: Verdict)

  datatype Kind = Ready | NetworkError | ModelNotFound | ContextTooSmall | Busy | UnloadFailed | LoadFailed
                | ModelTooLarge | NeverAppeared

  datatype ProbeNote = NoProbe | LoadedAtFloor | FailedAtFloor | NotProbed

  /** `taken` are the residents the outcome names as unloaded by this call, with their windows;
      `notRestored` those it names as not put back. */
  datatype Outcome = Outcome(kind: Kind, key: string, window: nat, swapped: bool, loadedNow: bool,
                             taken: seq<Resident>, notRestored: seq<string>, offer: bool, probe: ProbeNote)

  function Plain(kind: Kind, key: string): Outcome {
    Outcome(kind, key, 0, false, false, [], [], false, NoProbe)
  }

  // --- reading errors -------------------------------------------------------------------

  predicate LooksMemory(error: string) {
    exists i :: 0 <= i < |MEMORY_HINTS| && Contains(MEMORY_HINTS[i], Lower(error))
  }

  predicate LooksCrash(error: string) {
    Contains("model_load_failed", Lower(error)) && Contains("exited before becoming healthy", Lower(error))
  }

  // --- windows ----------------------------------------------------------------------------

  function Min(a: nat, b: nat): nat { if a < b then a else b }

  function Max(a: nat, b: nat): nat { if a > b then a else b }

  function Needed(est: nat): nat {
    est + MIN_OUTPUT_TOKENS + CONTEXT_MARGIN
  }

  /** `_desired_context`; a cap of 0 is no cap. */
  function Desired(est: nat, defaultWindow: nat, maxWindow: nat, ceiling: nat): nat {
    var want := Max(defaultWindow, Needed(est));
    var capped := if maxWindow > 0 then Min(want, maxWindow) else want;
    if ceiling > 0 then Min(capped, ceiling) else capped
  }

  predicate WindowOk(w: nat, est: nat, maxWindow: nat, ceiling: nat) {
    Needed(est) <= w && (maxWindow > 0 ==> w <= maxWindow) && (ceiling > 0 ==> w <= ceiling)
  }

  // --- looking a model up -------------------------------------------------------------------

  function BaseName(key: string): string {
    if key == "" || key[0] == '@' then "" else [key[0]] + BaseName(key[1..])
  }

  function FirstWhere(models: seq<Entry>, p: Entry -> bool): Option<Entry> {
    if models == [] then None
    else if p(models[0]) then Some(models[0])
    else FirstWhere(models[1..], p)
  }

  /** `_find_model`: exact key, then any case, then a variant of it, a loaded one first. */
  function FindModel(models: seq<Entry>, name: string): (found: Option<Entry>)
  {
    var want := Strip(name);
    if want == "" then None
    else
      var exact := FirstWhere(models, (m: Entry) => m.key == want);
      var folded := FirstWhere(models, (m: Entry) => Lower(m.key) == Lower(want));
      var live := FirstWhere(models, (m: Entry) => Lower(BaseName(m.key)) == Lower(want) && m.loaded);
      var variant := FirstWhere(models, (m: Entry) => Lower(BaseName(m.key)) == Lower(want));
      if exact.Some? then exact else if folded.Some? then folded else if live.Some? then live else variant
  }

  /** `_resident_snapshot` */
  function Residents(models: seq<Entry>): seq<Resident> {
    if models == [] then []
    else (if models[0].loaded && models[0].chat then [Resident(models[0].key, models[0].window)] else [])
         + Residents(models[1..])
  }

  ghost predicate DistinctKeys(rs: seq<Resident>) {
    forall i, j :: 0 <= i < j < |rs| ==> rs[i].key != rs[j].key
  }

  ghost predicate Listed(models: seq<Entry>) {
    forall i, j :: 0 <= i < j < |models| ==> models[i].key != models[j].key
  }

  ghost predicate RowOf(models: seq<Entry>, r: Resident) {
    exists i :: 0 <= i < |models| && models[i].loaded && models[i].key == r.key && models[i].window == r.window
  }

  /** Each resident comes from the catalog row of its key. */
  lemma {:induction false} ResidentIsListed(models: seq<Entry>, r: Resident)
    requires r in Residents(models)
    ensures RowOf(models, r)
  {
    if r in Residents(models[1..]) {
      ResidentIsListed(models[1..], r);
      var i :| 0 <= i < |models[1..]| && models[1..][i].loaded && models[1..][i].key == r.key
               && models[1..][i].window == r.window;
      assert models[i + 1] == models[1..][i];
    } else {
      assert models[0].key == r.key;
    }
  }

  lemma {:induction false} ResidentsAreDistinct(models: seq<Entry>)
    requires Listed(models)
    ensures DistinctKeys(Residents(models))
  {
    if models != [] {
      var rest := Residents(models[1..]);
      ResidentsAreDistinct(models[1..]);
      forall j | 0 <= j < |rest| ensures rest[j].key != models[0].key {
        ResidentIsListed(models[1..], rest[j]);
      }
    }
  }

  lemma {:induction false} FirstWhereIsMember(models: seq<Entry>, p: Entry -> bool)
    ensures FirstWhere(models, p).Some? ==> FirstWhere(models, p).value in models
  {
    if models != [] && !p(models[0]) {
      FirstWhereIsMember(models[1..], p);
    }
  }

  lemma FoundIsListed(models: seq<Entry>, name: string)
    ensures FindModel(models, name).Some? ==> FindModel(models, name).value in models
  {
    var want := Strip(name);
    FirstWhereIsMember(models, (m: Entry) => m.key == want);
    FirstWhereIsMember(models, (m: Entry) => Lower(m.key) == Lower(want));
    FirstWhereIsMember(models, (m: Entry) => Lower(BaseName(m.key)) == Lower(want) && m.loaded);
    FirstWhereIsMember(models, (m: Entry) => Lower(BaseName(m.key)) == Lower(want));
  }

  /** `_desired_context` meets the prompt whenever the two caps were checked first. */
  lemma DesiredIsOk(est: nat, defaultWindow: nat, maxWindow: nat, ceiling: nat)
    ensures WindowOk(Desired(est, defaultWindow, maxWindow, ceiling), est, maxWindow, ceiling) <==>
      (maxWindow > 0 ==> Needed(est) <= maxWindow) && (ceiling > 0 ==> Needed(est) <= ceiling)
  {
  }

  // --- the server ------------------------------------------------------------------------------

  datatype Purpose = Requested | FloorProbe | Restoring

  datatype Event =
    | Load(key: string, window: nat, why: Purpose, error: Option<string>)
    | Unload(key: string, error: Option<string>)
    | ClaimTried(key: string, granted: bool)

  /** A failed load may leave a stray instance. */
  datatype LoadReply = LoadOk | LoadErr(error: string, stray: Option<nat>)

  /** An unload is confirmed, refused, or not confirmed in time; the last two may still have happened. */
  datatype UnloadReply = Gone | Refused(error: string, gone: bool) | Lingers(gone: bool)

  /** What the server itself said against an unload, as the log keeps it. */
  function ServerWords(reply: UnloadReply): Option<string> {
    match reply
    case Gone => None
    case Refused(error, _) => Some(error)
    case Lingers(_) => Some("")
  }

  /** What the code makes of it. */
  function Complaint(key: string, reply: UnloadReply, wait: string): Option<string> {
    match reply
    case Gone => None
    case Refused(error, _) => Some("could not unload " + key + ": " + error)
    case Lingers(_) =>
      Some(key + " did not unload within " + wait + "s (still resident; raise " +
           "ASK_FABLE_LMSTUDIO_UNLOAD_WAIT or unload it manually)")
  }

  /** Every answer the outside can give, by request number, and the configured wait for an unload. */
  datatype World = World(load: nat -> LoadReply, unload: nat -> UnloadReply, grant: nat -> bool,
                         appears: nat -> bool, fallbackWindow: nat, unloadWait: string)

  /** What is resident, with its window, and every request made so far. */
  datatype Server = Server(loaded: map<string, nat>, log: seq<Event>)

  /** The window a load request really gets: an omitted one is the server's default. */
  function Granted(w: World, window: nat): nat {
    if window == 0 then w.fallbackWindow else window
  }

  function AfterLoad(w: World, s: Server, key: string, window: nat, why: Purpose): (Server, Option<string>) {
    match w.load(|s.log|)
    case LoadOk =>
      (Server(s.loaded[key := Granted(w, window)], s.log + [Load(key, window, why, None)]), None)
    case LoadErr(error, stray) =>
      (Server(if stray.Some? then s.loaded[key := stray.value] else s.loaded,
              s.log + [Load(key, window, why, Some(error))]), Some(error))
  }

  predicate ReallyGone(reply: UnloadReply) {
    match reply
    case Gone => true
    case Refused(_, gone) => gone
    case Lingers(gone) => gone
  }

  function AfterUnload(w: World, s: Server, key: string): (Server, Option<string>) {
    var reply := w.unload(|s.log|);
    (Server(if ReallyGone(reply) then s.loaded - {key} else s.loaded, s.log + [Unload(key, ServerWords(reply))]),
     Complaint(key, reply, w.unloadWait))
  }

  function AfterClaim(w: World, s: Server, key: string): (Server, bool) {
    var granted := w.grant(|s.log|);
    (s.(log := s.log + [ClaimTried(key, granted)]), granted)
  }

  class Host {
    var loaded: map<string, nat>
    var log: seq<Event>
    const world: World

    constructor (world: World, loaded: map<string, nat>)
      ensures this.world == world && Now() == Server(loaded, [])
    {
      this.world, this.loaded, log := world, loaded, [];
    }

    function Now(): Server
      reads this
    {
      Server(loaded, log)
    }

    /** `_load_instance` */
    method LoadInstance(key: string, window: nat, why: Purpose) returns (err: Option<string>)
      modifies this
      ensures (Now(), err) == AfterLoad(world, old(Now()), key, window, why)
    {
      match world.load(|log|) {
        case LoadOk =>
          loaded := loaded[key := if window == 0 then world.fallbackWindow else window];
          err := None;
        case LoadErr(error, stray) =>
          if stray.Some? {
            loaded := loaded[key := stray.value];
          }
          err := Some(error);
      }
      log := log + [Load(key, window, why, err)];
    }

    /** `_unload_and_wait` */
    method UnloadAndWait(key: string) returns (err: Option<string>)
      modifies this
      ensures (Now(), err) == AfterUnload(world, old(Now()), key)
    {
      var reply := world.unload(|log|);
      if ReallyGone(reply) {
        loaded := loaded - {key};
      }
      log := log + [Unload(key, ServerWords(reply))];
      match reply {
        case Gone => err := None;
        case Refused(error, _) => err := Some("could not unload " + key + ": " + error);
        case Lingers(_) =>
          err := Some(key + " did not unload within " + world.unloadWait + "s (still resident; raise " +
                      "ASK_FABLE_LMSTUDIO_UNLOAD_WAIT or unload it manually)");
      }
    }

    /** `_unload_claim`: granted unless a chat is on the model. */
    method TryClaim(key: string) returns (granted: bool)
      modifies this`log
      ensures (Now(), granted) == AfterClaim(world, old(Now()), key)
    {
      granted := world.grant(|log|);
      log := log + [ClaimTried(key, granted)];
    }

    /** `_wait_loaded` */
    method WaitLoaded(key: string) returns (seen: bool)
      ensures seen == world.appears(|log|)
    {
      seen := world.appears(|log|);
    }
  }

  // --- the decision, step by step ------------------------------------------------------------------

  /** Put residents back at their reported windows, newest first; the keys that failed. */
  function Restored(w: World, s: Server, taken: seq<Resident>): (Server, seq<string>)
    decreases |taken|
  {
    if taken == [] then (s, [])
    else
      var n := |taken| - 1;
      var one := AfterLoad(w, s, taken[n].key, taken[n].window, Restoring);
      var rest := Restored(w, one.0, taken[..n]);
      (rest.0, (if one.1.Some? then [taken[n].key] else []) + rest.1)
  }

  lemma RestoredNext(w: World, s: Server, taken: seq<Resident>, i: nat)
    requires i < |taken|
    ensures var one := AfterLoad(w, s, taken[i].key, taken[i].window, Restoring);
            var rest := Restored(w, one.0, taken[..i]);
            Restored(w, s, taken[..i + 1]) == (rest.0, (if one.1.Some? then [taken[i].key] else []) + rest.1)
  {
    assert taken[..i + 1][..i] == taken[..i];
  }

  lemma RestoredNothing(w: World, s: Server, taken: seq<Resident>)
    ensures Restored(w, s, taken[..0]) == (s, [])
  {
  }

  /** `_restore`, newest first. */
  method Restore(host: Host, taken: seq<Resident>) returns (failed: seq<string>)
    modifies host
    ensures (host.Now(), failed) == Restored(host.world, old(host.Now()), taken)
  {
    hide Restored, AfterLoad;
    failed := [];
    var i := |taken|;
    assert taken[..i] == taken;
    ghost var whole := Restored(host.world, host.Now(), taken);
    assert [] + whole.1 == whole.1;
    while i > 0
      invariant 0 <= i <= |taken|
      invariant var rest := Restored(host.world, host.Now(), taken[..i]); whole == (rest.0, failed + rest.1)
    {
      ghost var soFar := failed;
      i := i - 1;
      RestoredNext(host.world, host.Now(), taken, i);
      var err := host.LoadInstance(taken[i].key, taken[i].window, Restoring);
      if err.Some? {
        failed := failed + [taken[i].key];
      }
      ghost var rest := Restored(host.world, host.Now(), taken[..i]);
      assert soFar + ((if err.Some? then [taken[i].key] else []) + rest.1) == failed + rest.1;
    }
    RestoredNothing(host.world, host.Now(), taken);
    assert failed + [] == failed;
  }

  datatype Probe = Probe(server: Server, proven: bool, detail: string)

  /** What the probe says when a chat is on the model. */
  const REFUSAL: string := " is answering a chat — cannot run the memory probe now"

  const NOT_FREED: string := " loaded at floor context but could not be freed again: "

  /** The floor-context probe. */
  function Probed(w: World, s: Server, key: string): Probe {
    var load := AfterLoad(w, s, key, FLOOR_CONTEXT, FloorProbe);
    if load.1.Some? then Probe(load.0, false, load.1.value)
    else
      var claim := AfterClaim(w, load.0, key);
      if !claim.1 then Probe(claim.0, false, key + REFUSAL)
      else
        var unload := AfterUnload(w, claim.0, key);
        if unload.1.Some? then Probe(unload.0, false, key + NOT_FREED + unload.1.value)
        else Probe(unload.0, true, "")
  }

  /** `_probe_crash_memory` */
  method ProbeCrash(host: Host, key: string) returns (proven: bool, detail: string)
    modifies host
    ensures Probe(host.Now(), proven, detail) == Probed(host.world, old(host.Now()), key)
  {
    var err := host.LoadInstance(key, FLOOR_CONTEXT, FloorProbe);
    if err.Some? {
      return false, err.value;
    }
    var claimed := host.TryClaim(key);
    if !claimed {
      return false, key + REFUSAL;
    }
    var uerr := host.UnloadAndWait(key);
    if uerr.Some? {
      return false, key + NOT_FREED + uerr.value;
    }
    return true, "";
  }

  datatype Shrink = Shrink(server: Server, err: Option<string>, memoryProven: bool, crashed: bool, note: ProbeNote)

  /** The non-destructive steps after a failed load: a smaller window, then the floor probe. */
  function Shrunk(w: World, s: Server, key: string, want: nat, first: string, est: nat): Shrink {
    var needed := Min(want, Needed(est));
    var again := if needed < want then AfterLoad(w, s, key, needed, Requested) else (s, Some(first));
    if again.1.None? then Shrink(again.0, None, LooksMemory(first), LooksCrash(first), NoProbe)
    else
      var error := again.1.value;
      if LooksCrash(error) && !LooksMemory(error) then
        if needed > FLOOR_CONTEXT then
          var p := Probed(w, again.0, key);
          Shrink(p.server, Some(if p.proven then error else error + "; floor-context probe: " + p.detail),
                 p.proven || LooksMemory(p.detail), true, if p.proven then LoadedAtFloor else FailedAtFloor)
        else Shrink(again.0, Some(error), false, true, NotProbed)
      else Shrink(again.0, Some(error), LooksMemory(error), LooksCrash(error), NoProbe)
  }

  method ShrinkAndProbe(host: Host, key: string, want: nat, first: string, est: nat)
    returns (err: Option<string>, memoryProven: bool, crashed: bool, note: ProbeNote)
    modifies host
    ensures Shrink(host.Now(), err, memoryProven, crashed, note)
         == Shrunk(host.world, old(host.Now()), key, want, first, est)
  {
    hide LooksMemory, LooksCrash;
    err, memoryProven, crashed, note := Some(first), LooksMemory(first), LooksCrash(first), NoProbe;
    var needed, attempted := Min(want, Needed(est)), want;
    if needed < want {
      attempted := needed;
      err := host.LoadInstance(key, needed, Requested);
    }
    if err.Some? {
      memoryProven, crashed := LooksMemory(err.value), LooksCrash(err.value);
      if crashed && !memoryProven {
        if attempted > FLOOR_CONTEXT {
          var proven, detail := ProbeCrash(host, key);
          memoryProven := proven || LooksMemory(detail);
          note := if proven then LoadedAtFloor else FailedAtFloor;
          if !proven {
            err := Some(err.value + "; floor-context probe: " + detail);
          }
        } else {
          note := NotProbed;
        }
      }
    }
  }

  /** `count` residents were taken; `blocked` is the outcome kind when it gave up part-way. */
  datatype Vacancy = Vacancy(server: Server, err: Option<string>, count: nat, blocked: Option<Kind>)

  predicate KeepVacating(err: Option<string>) {
    err.Some? && (LooksMemory(err.value) || LooksCrash(err.value))
  }

  /** Vacate residents one at a time, retrying after each. */
  function Vacated(w: World, s: Server, key: string, want: nat, residents: seq<Resident>, err: Option<string>)
    : (v: Vacancy)
    ensures v.count <= |residents|
    decreases |residents|
  {
    if residents == [] || !KeepVacating(err) then Vacancy(s, err, 0, None)
    else
      var claim := AfterClaim(w, s, residents[0].key);
      if !claim.1 then Vacancy(claim.0, err, 0, Some(Busy))
      else
        var unload := AfterUnload(w, claim.0, residents[0].key);
        if unload.1.Some? then Vacancy(unload.0, err, 0, Some(UnloadFailed))
        else
          var load := AfterLoad(w, unload.0, key, want, Requested);
          var rest := Vacated(w, load.0, key, want, residents[1..], load.1);
          rest.(count := rest.count + 1)
  }

  /** One turn of the swap loop, from resident `i` on. */
  lemma VacatedNext(w: World, s: Server, key: string, want: nat, residents: seq<Resident>, i: nat, err: Option<string>)
    requires i <= |residents|
    ensures i == |residents| || !KeepVacating(err) ==>
      Vacated(w, s, key, want, residents[i..], err) == Vacancy(s, err, 0, None)
    ensures i < |residents| && KeepVacating(err) ==>
      var claim := AfterClaim(w, s, residents[i].key);
      var unload := AfterUnload(w, claim.0, residents[i].key);
      var load := AfterLoad(w, unload.0, key, want, Requested);
      var rest := Vacated(w, load.0, key, want, residents[i + 1..], load.1);
      Vacated(w, s, key, want, residents[i..], err) ==
        if !claim.1 then Vacancy(claim.0, err, 0, Some(Busy))
        else if unload.1.Some? then Vacancy(unload.0, err, 0, Some(UnloadFailed))
        else rest.(count := rest.count + 1)
  {
    hide KeepVacating, AfterClaim, AfterUnload, AfterLoad;
    if i < |residents| {
      assert residents[i..][1..] == residents[i + 1..];
    }
  }

  /** The swap loop. */
  method Vacate(host: Host, key: string, want: nat, residents: seq<Resident>, first: string)
    returns (err: Option<string>, taken: seq<Resident>, blocked: Option<Kind>)
    modifies host
    ensures taken <= residents
    ensures Vacancy(host.Now(), err, |taken|, blocked)
         == Vacated(host.world, old(host.Now()), key, want, residents, Some(first))
  {
    hide KeepVacating, Vacated, AfterClaim, AfterUnload, AfterLoad;
    err, taken, blocked := Some(first), [], None;
    var i := 0;
    assert residents[0..] == residents;
    while i < |residents| && KeepVacating(err)
      invariant 0 <= i <= |residents| && taken == residents[..i]
      invariant Vacated(host.world, old(host.Now()), key, want, residents, Some(first))
        == var rest := Vacated(host.world, host.Now(), key, want, residents[i..], err); rest.(count := rest.count + i)
    {
      VacatedNext(host.world, host.Now(), key, want, residents, i, err);
      var r := residents[i];
      var claimed := host.TryClaim(r.key);
      if !claimed {
        return err, taken, Some(Busy);
      }
      var uerr := host.UnloadAndWait(r.key);
      if uerr.Some? {
        return err, taken, Some(UnloadFailed);
      }
      taken := taken + [r];
      i := i + 1;
      err := host.LoadInstance(key, want, Requested);
    }
    VacatedNext(host.world, host.Now(), key, want, residents, i, err);
  }

  /** One whole call: the server afterwards, the outcome, and the residents really unloaded. */
  datatype Run = Run(server: Server, out: Outcome, gone: seq<Resident>)

  /** Same model, larger window: unload and reload it. */
  function Reloaded(w: World, s: Server, key: string, window: nat, want: nat): Run {
    var claim := AfterClaim(w, s, key);
    if !claim.1 then Run(claim.0, Plain(Busy, key), [])
    else
      var unload := AfterUnload(w, claim.0, key);
      if unload.1.Some? then Run(unload.0, Plain(UnloadFailed, key), [])
      else
        var taken := [Resident(key, window)];
        var load := AfterLoad(w, unload.0, key, want, Requested);
        if load.1.Some? then
          var back := AfterLoad(w, load.0, key, window, Restoring);
          Run(back.0, Plain(LoadFailed, key).(taken := taken, notRestored := if back.1.Some? then [key] else []), taken)
        else if !w.appears(|load.0.log|) then Run(load.0, Plain(NeverAppeared, key), taken)
        else Run(load.0, Outcome(Ready, key, want, true, true, taken, [], false, NoProbe), taken)
  }

  method Reload(host: Host, key: string, window: nat, want: nat) returns (out: Outcome, ghost gone: seq<Resident>)
    modifies host
    ensures Run(host.Now(), out, gone) == Reloaded(host.world, old(host.Now()), key, window, want)
  {
    gone := [];
    var claimed := host.TryClaim(key);
    if !claimed {
      return Plain(Busy, key), gone;
    }
    var uerr := host.UnloadAndWait(key);
    if uerr.Some? {
      return Plain(UnloadFailed, key), gone;
    }
    var taken := [Resident(key, window)];
    gone := taken;
    var err := host.LoadInstance(key, want, Requested);
    if err.Some? {
      var again := host.LoadInstance(key, window, Restoring);
      out := Plain(LoadFailed, key).(taken := taken, notRestored := if again.Some? then [key] else []);
      return;
    }
    var seen := host.WaitLoaded(key);
    if !seen {
      return Plain(NeverAppeared, key), gone;
    }
    return Outcome(Ready, key, want, true, true, taken, [], false, NoProbe), gone;
  }

  function FirstLoad(w: World, s: Server, key: string, want: nat, est: nat): Shrink {
    var load := AfterLoad(w, s, key, want, Requested);
    if load.1.Some? && (LooksMemory(load.1.value) || LooksCrash(load.1.value))
    then Shrunk(w, load.0, key, want, load.1.value, est)
    else Shrink(load.0, load.1, false, false, NoProbe)
  }

  /** Who is vacated: after a crash the catalog is read again. */
  function Present(residents: seq<Resident>, crashed: bool, req: Request): seq<Resident> {
    if crashed && req.reread.Some? then Residents(req.reread.value) else residents
  }

  /** A model that is not loaded: add it, and only if memory is proven to be in the way and the
      policy allows, vacate residents for it. */
  function LoadedBeside(w: World, s: Server, key: string, want: nat, residents: seq<Resident>, req: Request): Run {
    var first := FirstLoad(w, s, key, want, req.est);
    if first.err.Some? && first.memoryProven && residents != [] && req.policy == Auto then
      Swapped(w, first.server, key, want, Present(residents, first.crashed, req), first.err, first.note)
    else
      var offer := residents != [] && first.memoryProven && req.policy != Auto;
      Finished(w, first.server, key, first.err, [], offer, first.note)
  }

  /** The swap itself, and putting everybody back if it does not lead to a loaded model. */
  function Swapped(w: World, s: Server, key: string, want: nat, present: seq<Resident>, err: Option<string>,
                   note: ProbeNote): Run {
    var v := Vacated(w, s, key, want, present, err);
    var taken := present[..v.count];
    if v.blocked.Some? || (v.err.Some? && taken != []) then
      var back := Restored(w, v.server, taken);
      var kind := if v.blocked.Some? then v.blocked.value else LoadFailed;
      Run(back.0, Plain(kind, key).(taken := taken, notRestored := back.1), taken)
    else Finished(w, v.server, key, v.err, taken, false, note)
  }

  /** The last lines: report the failed load, or wait for the model to appear. */
  function Finished(w: World, s: Server, key: string, err: Option<string>, taken: seq<Resident>, offer: bool,
                    note: ProbeNote): Run {
    if err.Some? then Run(s, Plain(LoadFailed, key).(offer := offer, probe := note), taken)
    else if !w.appears(|s.log|) then Run(s, Plain(NeverAppeared, key), taken)
    else
      var window := if key in s.loaded then s.loaded[key] else 0;
      Run(s, Outcome(Ready, key, window, taken != [], true, taken, [], false, note), taken)
  }

  method LoadBeside(host: Host, key: string, want: nat, residents: seq<Resident>, req: Request)
    returns (out: Outcome, ghost gone: seq<Resident>)
    modifies host
    ensures Run(host.Now(), out, gone) == LoadedBeside(host.world, old(host.Now()), key, want, residents, req)
  {
    hide LooksMemory, LooksCrash, Vacated, Restored, Shrunk, Residents;
    var err := host.LoadInstance(key, want, Requested);
    var memoryProven := err.Some? && LooksMemory(err.value);
    var crashed := err.Some? && LooksCrash(err.value);
    var note := NoProbe;
    if err.Some? && (memoryProven || crashed) {
      err, memoryProven, crashed, note := ShrinkAndProbe(host, key, want, err.value, req.est);
    }
    var taken: seq<Resident> := [];
    gone := [];
    if err.Some? && memoryProven && residents != [] && req.policy == Auto {
      var present := if crashed && req.reread.Some? then Residents(req.reread.value) else residents;
      var blocked;
      err, taken, blocked := Vacate(host, key, want, present, err.value);
      gone := taken;
      assert taken == present[..|taken|];
      if blocked.Some? {
        var failed := Restore(host, taken);
        return Plain(blocked.value, key).(taken := taken, notRestored := failed), gone;
      }
      if err.Some? && taken != [] {
        var failed := Restore(host, taken);
        return Plain(LoadFailed, key).(taken := taken, notRestored := failed), gone;
      }
    }
    if err.Some? {
      var offer := residents != [] && memoryProven && req.policy != Auto;
      return Plain(LoadFailed, key).(offer := offer, probe := note), gone;
    }
    var seen := host.WaitLoaded(key);
    if !seen {
      return Plain(NeverAppeared, key), gone;
    }
    var window := if key in host.loaded then host.loaded[key] else 0;
    return Outcome(Ready, key, window, taken != [], true, taken, [], false, note), gone;
  }

  /** The request names a chat model of the catalog. */
  predicate ChatFound(req: Request) {
    req.models.Some? && FindModel(req.models.value, req.model).Some? && Found(req).chat
  }

  function Found(req: Request): Entry
    requires req.models.Some? && FindModel(req.models.value, req.model).Some?
  {
    FindModel(req.models.value, req.model).value
  }

  /** Prompt, answer and margin fit the model's own window and the host's cap. */
  predicate CapsAllow(req: Request)
    requires ChatFound(req)
  {
    && (Found(req).maxWindow > 0 ==> Needed(req.est) <= Found(req).maxWindow)
    && (req.ceiling > 0 ==> Needed(req.est) <= req.ceiling)
  }

  /** It is resident with a reported window that is too small. */
  predicate TooSmallAsLoaded(req: Request)
    requires ChatFound(req)
  {
    Found(req).loaded && 0 < Found(req).window < Needed(req.est)
  }

  function Want(req: Request): nat
    requires ChatFound(req)
  {
    Desired(req.est, req.defaultWindow, Found(req).maxWindow, req.ceiling)
  }

  /** The whole decision. */
  function Decided(w: World, s: Server, req: Request): Run {
    if req.models == None then Run(s, Plain(NetworkError, req.model), [])
    else if FindModel(req.models.value, req.model) == None then Run(s, Plain(ModelNotFound, req.model), [])
    else
      var entry := Found(req);
      if !entry.chat then Run(s, Plain(ModelNotFound, entry.key), [])
      else if !CapsAllow(req) then Run(s, Plain(ContextTooSmall, entry.key), [])
      else if entry.loaded then
        if !TooSmallAsLoaded(req) then Run(s, Plain(Ready, entry.key).(window := entry.window), [])
        else if req.policy != Auto then Run(s, Plain(ContextTooSmall, entry.key).(offer := true), [])
        else Reloaded(w, s, entry.key, entry.window, Want(req))
      else
        var residents := Residents(req.models.value);
        if req.verdict == TooLarge then Run(s, Plain(ModelTooLarge, entry.key), [])
        else if req.verdict == NeedsRoom && residents != [] && req.policy != Auto
        then Run(s, Plain(LoadFailed, entry.key).(offer := true), [])
        else LoadedBeside(w, s, entry.key, Want(req), residents, req)
  }

  /** The state in which the decision comes to wait for the model to appear, with the residents it
      unloaded on the way; None if it ends before. */
  function AtWait(w: World, s: Server, req: Request): Option<(Server, seq<Resident>)> {
    if !ChatFound(req) || !CapsAllow(req) then None
    else if Found(req).loaded then
      if !TooSmallAsLoaded(req) || req.policy != Auto then None
      else
        var claim := AfterClaim(w, s, Found(req).key);
        var unload := AfterUnload(w, claim.0, Found(req).key);
        var load := AfterLoad(w, unload.0, Found(req).key, Want(req), Requested);
        if claim.1 && unload.1 == None && load.1 == None
        then Some((load.0, [Resident(Found(req).key, Found(req).window)])) else None
    else
      var residents := Residents(req.models.value);
      if req.verdict == TooLarge || (req.verdict == NeedsRoom && residents != [] && req.policy != Auto) then None
      else
        var first := FirstLoad(w, s, Found(req).key, Want(req), req.est);
        if first.err == None then Some((first.server, []))
        else if !first.memoryProven || residents == [] || req.policy != Auto then None
        else
          var present := Present(residents, first.crashed, req);
          var v := Vacated(w, first.server, Found(req).key, Want(req), present, first.err);
          if v.err == None then Some((v.server, present[..v.count])) else None
  }

  /** `_ensure_loaded_locked` */
  method EnsureLoaded(host: Host, req: Request) returns (out: Outcome, ghost gone: seq<Resident>)
    modifies host
    ensures Run(host.Now(), out, gone) == Decided(host.world, old(host.Now()), req)
  {
    hide FindModel, Residents, LoadedBeside, Reloaded;
    gone := [];
    if req.models == None {
      return Plain(NetworkError, req.model), gone;
    }
    var models := req.models.value;
    var found := FindModel(models, req.model);
    if found == None {
      return Plain(ModelNotFound, req.model), gone;
    }
    var entry := found.value;
    var key, maxWindow := entry.key, entry.maxWindow;
    if !entry.chat {
      return Plain(ModelNotFound, key), gone;
    }
    if maxWindow > 0 && Needed(req.est) > maxWindow {
      return Plain(ContextTooSmall, key), gone;
    }
    if req.ceiling > 0 && Needed(req.est) > req.ceiling {
      return Plain(ContextTooSmall, key), gone;
    }
    var want := Desired(req.est, req.defaultWindow, maxWindow, req.ceiling);
    if entry.loaded {
      if entry.window == 0 || entry.window >= Needed(req.est) {
        return Plain(Ready, key).(window := entry.window), gone;
      }
      if req.policy != Auto {
        return Plain(ContextTooSmall, key).(offer := true), gone;
      }
      out, gone := Reload(host, key, entry.window, want);
      return;
    }
    var residents := Residents(models);
    if req.verdict == TooLarge {
      return Plain(ModelTooLarge, key), gone;
    }
    if req.verdict == NeedsRoom && residents != [] && req.policy != Auto {
      return Plain(LoadFailed, key).(offer := true), gone;
    }
    out, gone := LoadBeside(host, key, want, residents, req);
  }
}
