/** What the load decision of `LmSwap` guarantees, for every answer of the server: whom it may
    unload, what it asks for, what it restores, and what it tells. */
module LmSwapRules {
  import opened Text
  import opened LmSwap

  // --- what the log must show --------------------------------------------------------------------

  /** Memory was shown to be the problem, by the server and nobody else: memory wording in its error
      on loading or unloading the model, or a floor-context load that succeeded. */
  predicate IsMemoryEvidence(e: Event, key: string) {
    match e
    case Load(k, _, why, err) =>
      k == key && if err.Some? then why != Restoring && LooksMemory(err.value) else why == FloorProbe
    case Unload(k, err) => k == key && err.Some? && LooksMemory(err.value)
    case _ => false
  }

  ghost predicate MemoryShown(log: seq<Event>, key: string) {
    exists i :: 0 <= i < |log| && IsMemoryEvidence(log[i], key)
  }

  ghost predicate UnloadJustified(log: seq<Event>, i: nat, key: string, policy: Policy)
    requires i < |log|
  {
    log[i].Unload? && log[i].key != key ==> policy == Auto && MemoryShown(log[..i], key)
  }

  /** Nothing but the requested model is unloaded under `never`, and under `auto` nothing else
      before memory was shown to be the problem. */
  ghost predicate Disciplined(log: seq<Event>, key: string, policy: Policy) {
    forall i :: 0 <= i < |log| ==> UnloadJustified(log, i, key, policy)
  }

  /** Every window requested for an answer holds the prompt and respects both caps. */
  ghost predicate WindowsOk(log: seq<Event>, key: string, est: nat, maxWindow: nat, ceiling: nat) {
    forall i :: 0 <= i < |log| && log[i].Load? && log[i].why == Requested ==>
      log[i].key == key && WindowOk(log[i].window, est, maxWindow, ceiling)
  }

  ghost predicate Names(taken: seq<Resident>, k: string) {
    exists r :: r in taken && r.key == k
  }

  /** Every other model the log shows unloaded is among `taken`. */
  ghost predicate Accounted(log: seq<Event>, key: string, taken: seq<Resident>) {
    forall i :: 0 <= i < |log| && log[i].Unload? && log[i].key != key && log[i].error == None ==>
      Names(taken, log[i].key)
  }

  /** No model is unloaded without its claim, taken in the step just before. */
  ghost predicate Claimed(log: seq<Event>) {
    forall i :: 0 <= i < |log| && log[i].Unload? ==> i > 0 && log[i - 1] == ClaimTried(log[i].key, true)
  }

  ghost predicate UnloadTried(log: seq<Event>, k: string) {
    exists i :: 0 <= i < |log| && log[i].Unload? && log[i].key == k
  }

  ghost predicate UnloadFailedOn(log: seq<Event>, k: string) {
    exists i :: 0 <= i < |log| && log[i].Unload? && log[i].key == k && log[i].error.Some?
  }

  ghost predicate WasUnloaded(log: seq<Event>, k: string) {
    exists i :: 0 <= i < |log| && log[i] == Unload(k, None)
  }

  /** Each of these residents was really unloaded. */
  ghost predicate Witnessed(log: seq<Event>, gone: seq<Resident>) {
    forall r :: r in gone ==> WasUnloaded(log, r.key)
  }

  ghost predicate AsBefore(a: map<string, nat>, b: map<string, nat>, k: string) {
    (k in a <==> k in b) && (k in a ==> a[k] == b[k])
  }

  /** One call: what was resident before it, the model it is about, and its request. */
  datatype Case = Case(before: map<string, nat>, key: string, req: Request, maxWindow: nat)

  ghost predicate LogOk(c: Case, log: seq<Event>, gone: seq<Resident>) {
    && Disciplined(log, c.key, c.req.policy)
    && WindowsOk(log, c.key, c.req.est, c.maxWindow, c.req.ceiling)
    && Accounted(log, c.key, gone)
    && Claimed(log)
    && Witnessed(log, gone)
  }

  /** No other model has moved unless its unload was tried. */
  ghost predicate Untouched(c: Case, s: Server) {
    forall k :: k != c.key && !UnloadTried(s.log, k) ==> AsBefore(c.before, s.loaded, k)
  }

  ghost predicate Good(c: Case, s: Server, gone: seq<Resident>) {
    LogOk(c, s.log, gone) && Untouched(c, s)
  }

  // --- one request -----------------------------------------------------------------------------------

  lemma DisciplineStep(log: seq<Event>, e: Event, key: string, policy: Policy)
    requires Disciplined(log, key, policy)
    requires e.Unload? && e.key != key ==> policy == Auto && MemoryShown(log, key)
    ensures Disciplined(log + [e], key, policy)
  {
    hide MemoryShown;
    var l := log + [e];
    forall i | 0 <= i < |l| ensures UnloadJustified(l, i, key, policy) {
      if i < |log| {
        assert l[..i] == log[..i];
        assert UnloadJustified(log, i, key, policy);
      } else {
        assert l[..i] == log;
      }
    }
  }

  lemma AccountStep(log: seq<Event>, e: Event, key: string, gone: seq<Resident>, more: seq<Resident>)
    requires Accounted(log, key, gone) && gone <= more
    requires e.Unload? && e.key != key && e.error == None ==> Names(more, e.key)
    ensures Accounted(log + [e], key, more)
  {
    hide Names;
    var l := log + [e];
    forall i | 0 <= i < |l| && l[i].Unload? && l[i].key != key && l[i].error == None
      ensures Names(more, l[i].key)
    {
      if i < |log| {
        assert l[i] == log[i];
        StillNamed(gone, more, l[i].key);
      }
    }
  }

  lemma StillNamed(gone: seq<Resident>, more: seq<Resident>, k: string)
    requires gone <= more && Names(gone, k)
    ensures Names(more, k)
  {
    var r :| r in gone && r.key == k;
    assert r in more;
  }

  lemma WitnessStep(log: seq<Event>, e: Event, gone: seq<Resident>, more: seq<Resident>)
    requires Witnessed(log, gone)
    requires forall r :: r in more && r !in gone ==> e == Unload(r.key, None)
    ensures Witnessed(log + [e], more)
  {
    hide WasUnloaded;
    forall r | r in more ensures WasUnloaded(log + [e], r.key) {
      UnloadedStays(log, e, r.key);
    }
  }

  lemma UnloadedStays(log: seq<Event>, e: Event, k: string)
    ensures WasUnloaded(log, k) || e == Unload(k, None) ==> WasUnloaded(log + [e], k)
  {
    var l := log + [e];
    if WasUnloaded(log, k) {
      var i :| 0 <= i < |log| && log[i] == Unload(k, None);
      assert l[i] == Unload(k, None);
    }
    assert l[|log|] == e;
  }

  lemma LogStep(c: Case, log: seq<Event>, e: Event, gone: seq<Resident>, more: seq<Resident>)
    requires LogOk(c, log, gone) && gone <= more
    requires e.Unload? && e.key != c.key ==>
      && c.req.policy == Auto && MemoryShown(log, c.key)
      && (e.error == None ==> Names(more, e.key))
    requires e.Load? && e.why == Requested ==>
      e.key == c.key && WindowOk(e.window, c.req.est, c.maxWindow, c.req.ceiling)
    requires e.Unload? ==> log != [] && log[|log| - 1] == ClaimTried(e.key, true)
    requires forall r :: r in more && r !in gone ==> e == Unload(r.key, None)
    ensures LogOk(c, log + [e], more)
  {
    hide Disciplined, Accounted, Witnessed, MemoryShown, WindowOk, Names;
    DisciplineStep(log, e, c.key, c.req.policy);
    AccountStep(log, e, c.key, gone, more);
    WitnessStep(log, e, gone, more);
  }

  lemma MemoryStays(log: seq<Event>, e: Event, key: string)
    ensures MemoryShown(log + [e], key) <==> MemoryShown(log, key) || IsMemoryEvidence(e, key)
  {
    var l := log + [e];
    if MemoryShown(log, key) {
      var i :| 0 <= i < |log| && IsMemoryEvidence(log[i], key);
      assert IsMemoryEvidence(l[i], key);
    }
    if IsMemoryEvidence(e, key) {
      assert IsMemoryEvidence(l[|log|], key);
    }
  }

  lemma TriedStays(log: seq<Event>, e: Event, k: string)
    ensures UnloadTried(log + [e], k) <==> UnloadTried(log, k) || (e.Unload? && e.key == k)
  {
    var l := log + [e];
    if UnloadTried(log, k) {
      var i :| 0 <= i < |log| && log[i].Unload? && log[i].key == k;
      assert l[i] == log[i];
    }
    if e.Unload? && e.key == k {
      assert l[|log|] == e;
    }
  }

  /** A step that moves at most one model, which is the requested one or has its unload tried. */
  lemma UntouchedStep(c: Case, s: Server, t: Server, e: Event, moved: string)
    requires Untouched(c, s) && t.log == s.log + [e]
    requires forall k :: k != moved ==> AsBefore(s.loaded, t.loaded, k)
    requires moved == c.key || UnloadTried(t.log, moved)
    ensures Untouched(c, t)
  {
    forall k | k != c.key && !UnloadTried(t.log, k) ensures AsBefore(c.before, t.loaded, k) {
      TriedStays(s.log, e, k);
      assert AsBefore(c.before, s.loaded, k);
      assert AsBefore(s.loaded, t.loaded, k);
    }
  }

  lemma LoadGood(w: World, c: Case, s: Server, gone: seq<Resident>, key: string, window: nat, why: Purpose)
    requires Good(c, s, gone) && (key == c.key || UnloadTried(s.log, key))
    requires why == Requested ==> key == c.key && WindowOk(window, c.req.est, c.maxWindow, c.req.ceiling)
    ensures var l := AfterLoad(w, s, key, window, why);
            && Good(c, l.0, gone)
            && l.0.log == s.log + [Load(key, window, why, l.1)]
            && (l.1 == None ==> key in l.0.loaded && l.0.loaded[key] == Granted(w, window))
            && (forall k :: k != key ==> AsBefore(s.loaded, l.0.loaded, k))
  {
    hide LogOk, Untouched;
    var l := AfterLoad(w, s, key, window, why);
    var e := Load(key, window, why, l.1);
    LogStep(c, s.log, e, gone, gone);
    TriedStays(s.log, e, key);
    UntouchedStep(c, s, l.0, e, key);
  }

  lemma ClaimGood(w: World, c: Case, s: Server, gone: seq<Resident>, key: string)
    requires Good(c, s, gone)
    ensures var l := AfterClaim(w, s, key);
            Good(c, l.0, gone) && l.0 == s.(log := s.log + [ClaimTried(key, l.1)])
  {
    hide LogOk, Untouched;
    var l := AfterClaim(w, s, key);
    LogStep(c, s.log, ClaimTried(key, l.1), gone, gone);
    UntouchedStep(c, s, l.0, ClaimTried(key, l.1), c.key);
  }

  /** A claimed unload: of the requested model at any time, of another one on evidence. */
  lemma UnloadGood(w: World, c: Case, s: Server, gone: seq<Resident>, r: Resident)
    requires Good(c, s, gone) && s.log != [] && s.log[|s.log| - 1] == ClaimTried(r.key, true)
    requires r.key != c.key ==> c.req.policy == Auto && MemoryShown(s.log, c.key)
    ensures var u := AfterUnload(w, s, r.key);
            && u.0.log == s.log + [Unload(r.key, ServerWords(w.unload(|s.log|)))]
            && (u.1 == None ==> Good(c, u.0, gone + [r]))
            && (u.1.Some? || r.key == c.key ==> Good(c, u.0, gone))
            && UnloadTried(u.0.log, r.key)
            && (forall k :: k != r.key ==> AsBefore(s.loaded, u.0.loaded, k))
  {
    hide LogOk, Untouched;
    var u := AfterUnload(w, s, r.key);
    var e := Unload(r.key, ServerWords(w.unload(|s.log|)));
    TriedStays(s.log, e, r.key);
    UntouchedStep(c, s, u.0, e, r.key);
    if u.1 == None {
      assert r in gone + [r];
      LogStep(c, s.log, e, gone, gone + [r]);
    }
    if u.1.Some? || r.key == c.key {
      LogStep(c, s.log, e, gone, gone);
    }
  }

  // --- putting residents back --------------------------------------------------------------------------

  /** Each resident in `taken` is loaded again at its reported window, or named as failed. */
  ghost predicate PutBack(w: World, loaded: map<string, nat>, taken: seq<Resident>, failed: seq<string>) {
    forall r :: r in taken ==>
      r.key in failed || (r.key in loaded && loaded[r.key] == Granted(w, r.window))
  }

  lemma {:induction false} RestoredGood(w: World, c: Case, s: Server, gone: seq<Resident>, taken: seq<Resident>)
    requires Good(c, s, gone) && DistinctKeys(taken)
    requires forall r :: r in taken ==> UnloadTried(s.log, r.key)
    ensures var back := Restored(w, s, taken);
            && Good(c, back.0, gone) && PutBack(w, back.0.loaded, taken, back.1)
            && (forall k :: k in back.1 ==> exists r :: r in taken && r.key == k)
            && (forall k :: (forall r :: r in taken ==> r.key != k) ==> AsBefore(s.loaded, back.0.loaded, k))
    decreases |taken|
  {
    hide Good, AfterLoad, UnloadTried;
    if taken != [] {
      var n := |taken| - 1;
      var last, rest := taken[n], taken[..n];
      LoadGood(w, c, s, gone, last.key, last.window, Restoring);
      var one := AfterLoad(w, s, last.key, last.window, Restoring);
      forall r | r in rest ensures UnloadTried(one.0.log, r.key) {
        TriedStays(s.log, Load(last.key, last.window, Restoring, one.1), r.key);
      }
      RestoredGood(w, c, one.0, gone, rest);
      var back := Restored(w, one.0, rest);
      assert forall r :: r in taken <==> r in rest || r == last;
      assert AsBefore(one.0.loaded, back.0.loaded, last.key) by {
        assert forall r :: r in rest ==> r.key != last.key;
      }
      forall k | forall r :: r in taken ==> r.key != k ensures AsBefore(s.loaded, back.0.loaded, k) {
        assert last in taken && k != last.key;
        assert AsBefore(s.loaded, one.0.loaded, k) && AsBefore(one.0.loaded, back.0.loaded, k);
      }
    }
  }

  // --- the steps after a failed load ------------------------------------------------------------------------

  lemma ProbedGood(w: World, c: Case, s: Server)
    requires Good(c, s, [])
    ensures var p := Probed(w, s, c.key);
            && Good(c, p.server, [])
            && (p.proven || LooksMemory(p.detail) || MemoryShown(s.log, c.key) ==> MemoryShown(p.server.log, c.key))
  {
    hide Good, LooksMemory, MemoryShown;
    var load := AfterLoad(w, s, c.key, FLOOR_CONTEXT, FloorProbe);
    LoadGood(w, c, s, [], c.key, FLOOR_CONTEXT, FloorProbe);
    MemoryStays(s.log, Load(c.key, FLOOR_CONTEXT, FloorProbe, load.1), c.key);
    if load.1 == None {
      var claim := AfterClaim(w, load.0, c.key);
      ClaimGood(w, c, load.0, [], c.key);
      MemoryStays(load.0.log, ClaimTried(c.key, claim.1), c.key);
      if claim.1 {
        UnloadGood(w, c, claim.0, [], Resident(c.key, 0));
        MemoryStays(claim.0.log, Unload(c.key, ServerWords(w.unload(|claim.0.log|))), c.key);
      }
    }
  }

  lemma ShrunkGood(w: World, c: Case, s: Server, want: nat, first: string)
    requires Good(c, s, []) && WindowOk(want, c.req.est, c.maxWindow, c.req.ceiling)
    requires LooksMemory(first) ==> MemoryShown(s.log, c.key)
    ensures var r := Shrunk(w, s, c.key, want, first, c.req.est);
            && Good(c, r.server, [])
            && (r.err.Some? && r.memoryProven ==> MemoryShown(r.server.log, c.key))
            && (r.err == None ==>
                  c.key in r.server.loaded && r.server.loaded[c.key] == Granted(w, Needed(c.req.est)))
  {
    hide Good, LooksMemory, LooksCrash, MemoryShown, Probed;
    var needed := Min(want, Needed(c.req.est));
    var again := AfterLoad(w, s, c.key, needed, Requested);
    if needed < want {
      LoadGood(w, c, s, [], c.key, needed, Requested);
      MemoryStays(s.log, Load(c.key, needed, Requested, again.1), c.key);
      ProbedGood(w, c, again.0);
    } else {
      ProbedGood(w, c, s);
    }
  }

  lemma FirstLoadGood(w: World, c: Case, s: Server, want: nat)
    requires Good(c, s, []) && WindowOk(want, c.req.est, c.maxWindow, c.req.ceiling)
    ensures var r := FirstLoad(w, s, c.key, want, c.req.est);
            && Good(c, r.server, [])
            && (r.err.Some? && r.memoryProven ==> MemoryShown(r.server.log, c.key))
            && (r.err == None ==>
                  && c.key in r.server.loaded
                  && r.server.loaded[c.key] in {Granted(w, want), Granted(w, Needed(c.req.est))})
  {
    hide Good, LooksMemory, LooksCrash, MemoryShown, Shrunk;
    var load := AfterLoad(w, s, c.key, want, Requested);
    LoadGood(w, c, s, [], c.key, want, Requested);
    MemoryStays(s.log, Load(c.key, want, Requested, load.1), c.key);
    if load.1.Some? {
      ShrunkGood(w, c, load.0, want, load.1.value);
    }
  }

  // --- the swap loop ----------------------------------------------------------------------------------------

  lemma {:induction false} VacatedGood(w: World, c: Case, s: Server, gone: seq<Resident>, want: nat,
                                       residents: seq<Resident>, err: Option<string>)
    requires Good(c, s, gone) && c.req.policy == Auto && MemoryShown(s.log, c.key)
    requires WindowOk(want, c.req.est, c.maxWindow, c.req.ceiling)
    ensures var v := Vacated(w, s, c.key, want, residents, err);
            && Good(c, v.server, gone + residents[..v.count])
            && (v.blocked.Some? ==> v.err.Some? && v.blocked.value in {Busy, UnloadFailed})
            && (v.err == None && err.Some? ==>
                  v.count > 0 && c.key in v.server.loaded && v.server.loaded[c.key] == Granted(w, want))
            && (v.err == None && err == None ==> v.server == s)
    decreases |residents|
  {
    hide Good, MemoryShown, KeepVacating, AfterLoad, AfterUnload, AfterClaim;
    var v := Vacated(w, s, c.key, want, residents, err);
    assert gone + residents[..0] == gone;
    if residents != [] && KeepVacating(err) {
      assert err.Some? by { assert KeepVacating(err); NeedsError(err); }
      var r := residents[0];
      var claim := AfterClaim(w, s, r.key);
      ClaimGood(w, c, s, gone, r.key);
      MemoryStays(s.log, ClaimTried(r.key, claim.1), c.key);
      if claim.1 {
        var unload := AfterUnload(w, claim.0, r.key);
        UnloadGood(w, c, claim.0, gone, r);
        MemoryStays(claim.0.log, Unload(r.key, ServerWords(w.unload(|claim.0.log|))), c.key);
        if unload.1 == None {
          var load := AfterLoad(w, unload.0, c.key, want, Requested);
          LoadGood(w, c, unload.0, gone + [r], c.key, want, Requested);
          MemoryStays(unload.0.log, Load(c.key, want, Requested, load.1), c.key);
          VacatedGood(w, c, load.0, gone + [r], want, residents[1..], load.1);
          assert gone + [r] + residents[1..][..v.count - 1] == gone + residents[..v.count];
        }
      }
    }
  }

  lemma NeedsError(err: Option<string>)
    requires KeepVacating(err)
    ensures err.Some?
  {
  }

  // --- the outcomes -----------------------------------------------------------------------------------------

  /** The outcomes by which a swap gives up after it may have unloaded something. */
  predicate GaveUp(out: Outcome) {
    out.kind == Busy || out.kind == UnloadFailed || out.kind == LoadFailed
  }

  /** What every way through the decision leaves behind. */
  ghost predicate RunOk(w: World, c: Case, run: Run) {
    && run.out.key == c.key && Good(c, run.server, run.gone)
    && run.out.taken == (if run.out.kind == NeverAppeared then [] else run.gone)
    && (GaveUp(run.out) ==> PutBack(w, run.server.loaded, run.gone, run.out.notRestored))
    && (run.out.kind == Ready && run.out.loadedNow ==>
          c.key in run.server.loaded && run.server.loaded[c.key] >= Needed(c.req.est))
    && (run.out.kind == Ready ==> (run.out.swapped <==> run.gone != []))
    && (c.req.policy == Never ==> run.gone == [])
  }

  lemma TriedWhenWitnessed(log: seq<Event>, gone: seq<Resident>)
    requires Witnessed(log, gone)
    ensures forall r :: r in gone ==> UnloadTried(log, r.key)
  {
  }

  lemma GoodParts(c: Case, s: Server, gone: seq<Resident>)
    requires Good(c, s, gone)
    ensures LogOk(c, s.log, gone) && Witnessed(s.log, gone) && Untouched(c, s)
  {
  }

  lemma ReloadedOk(w: World, c: Case, s: Server, window: nat, want: nat)
    requires Good(c, s, []) && WindowOk(want, c.req.est, c.maxWindow, c.req.ceiling) && c.req.policy == Auto
    ensures var run := Reloaded(w, s, c.key, window, want);
            && RunOk(w, c, run) && !run.out.offer && (run.gone == [] || run.gone == [Resident(c.key, window)])
            && run.out.kind in {Ready, Busy, UnloadFailed, LoadFailed, NeverAppeared}
            && (run.out.kind == Ready ==> run.out.loadedNow && run.server.loaded[c.key] == want)
            && |run.server.log| > |s.log|
  {
    hide Good, AfterClaim, AfterUnload, AfterLoad;
    var claim := AfterClaim(w, s, c.key);
    ClaimGood(w, c, s, [], c.key);
    if claim.1 {
      var unload := AfterUnload(w, claim.0, c.key);
      var r := Resident(c.key, window);
      UnloadGood(w, c, claim.0, [], r);
      if unload.1 == None {
        assert [] + [r] == [r];
        var load := AfterLoad(w, unload.0, c.key, want, Requested);
        LoadGood(w, c, unload.0, [r], c.key, want, Requested);
        if load.1.Some? {
          LoadGood(w, c, load.0, [r], c.key, window, Restoring);
        }
      }
    }
  }

  lemma FinishedOk(w: World, c: Case, s: Server, err: Option<string>, taken: seq<Resident>, offer: bool,
                   note: ProbeNote)
    requires Good(c, s, taken) && (err.Some? ==> taken == []) && (c.req.policy == Never ==> taken == [])
    requires err == None ==> c.key in s.loaded && s.loaded[c.key] >= Needed(c.req.est)
    ensures var run := Finished(w, s, c.key, err, taken, offer, note);
            && RunOk(w, c, run) && run.gone == taken && run.server == s && (run.out.offer ==> offer)
            && run.out.kind in {Ready, LoadFailed, NeverAppeared} && (run.out.kind == Ready ==> run.out.loadedNow)
  {
    hide Good;
    assert PutBack(w, s.loaded, [], []);
  }

  /** The swap: vacate, and restore if that did not lead to a loaded model. */
  lemma SwappedOk(w: World, c: Case, s: Server, want: nat, present: seq<Resident>, err: string, note: ProbeNote)
    requires Good(c, s, []) && WindowOk(want, c.req.est, c.maxWindow, c.req.ceiling) && DistinctKeys(present)
    requires c.req.policy == Auto && MemoryShown(s.log, c.key)
    ensures var run := Swapped(w, s, c.key, want, present, Some(err), note);
            && RunOk(w, c, run) && run.gone <= present && !run.out.offer
            && run.out.kind in {Ready, Busy, UnloadFailed, LoadFailed, NeverAppeared}
            && (run.out.kind == Ready ==> run.out.loadedNow)
            && |run.server.log| >= |s.log|
  {
    hide Good, MemoryShown, Vacated, Restored, Finished, Witnessed, LogOk, Untouched, DistinctKeys;
    var v := Vacated(w, s, c.key, want, present, Some(err));
    VacatedGood(w, c, s, [], want, present, Some(err));
    VacatedLogs(w, s, c.key, want, present, Some(err));
    var taken := present[..v.count];
    assert [] + taken == taken;
    if v.blocked.Some? || (v.err.Some? && taken != []) {
      PrefixDistinct(taken, present);
      GoodParts(c, v.server, taken);
      TriedWhenWitnessed(v.server.log, taken);
      RestoredGood(w, c, v.server, taken, taken);
      RestoredLogs(w, v.server, taken);
    } else {
      FinishedOk(w, c, v.server, v.err, taken, false, note);
    }
  }

  lemma PrefixDistinct(a: seq<Resident>, b: seq<Resident>)
    requires a <= b && DistinctKeys(b)
    ensures DistinctKeys(a)
  {
  }

  lemma LoadedBesideOk(w: World, c: Case, s: Server, want: nat, residents: seq<Resident>)
    requires Good(c, s, []) && WindowOk(want, c.req.est, c.maxWindow, c.req.ceiling)
    requires DistinctKeys(residents) && (c.req.reread.Some? ==> Listed(c.req.reread.value))
    ensures var run := LoadedBeside(w, s, c.key, want, residents, c.req);
            && RunOk(w, c, run)
            && (run.gone <= residents || (c.req.reread.Some? && run.gone <= Residents(c.req.reread.value)))
            && (run.out.offer ==> c.req.policy == Never && MemoryShown(run.server.log, c.key))
            && run.out.kind in {Ready, Busy, UnloadFailed, LoadFailed, NeverAppeared}
            && (run.out.kind == Ready ==> run.out.loadedNow)
            && |run.server.log| > |s.log|
  {
    hide Good, MemoryShown, FirstLoad, Residents, Listed, Swapped;
    var first := FirstLoad(w, s, c.key, want, c.req.est);
    FirstLoadGood(w, c, s, want);
    FirstLoadLogs(w, s, c.key, want, c.req.est);
    if first.err.Some? && first.memoryProven && residents != [] && c.req.policy == Auto {
      if c.req.reread.Some? {
        ResidentsAreDistinct(c.req.reread.value);
      }
      var present := Present(residents, first.crashed, c.req);
      SwappedOk(w, c, first.server, want, present, first.err.value, first.note);
    } else {
      assert PutBack(w, first.server.loaded, [], []);
    }
  }

  lemma FirstLoadLogs(w: World, s: Server, key: string, want: nat, est: nat)
    ensures |FirstLoad(w, s, key, want, est).server.log| > |s.log|
  {
    hide LooksMemory, LooksCrash;
  }

  lemma {:induction false} VacatedLogs(w: World, s: Server, key: string, want: nat, residents: seq<Resident>,
                                       err: Option<string>)
    ensures |Vacated(w, s, key, want, residents, err).server.log| >= |s.log|
    decreases |residents|
  {
    hide KeepVacating;
    if residents != [] && KeepVacating(err) {
      var claim := AfterClaim(w, s, residents[0].key);
      var unload := AfterUnload(w, claim.0, residents[0].key);
      var load := AfterLoad(w, unload.0, key, want, Requested);
      VacatedLogs(w, load.0, key, want, residents[1..], load.1);
    }
  }

  lemma {:induction false} RestoredLogs(w: World, s: Server, taken: seq<Resident>)
    ensures |Restored(w, s, taken).0.log| >= |s.log|
    decreases |taken|
  {
    if taken != [] {
      var n := |taken| - 1;
      RestoredLogs(w, AfterLoad(w, s, taken[n].key, taken[n].window, Restoring).0, taken[..n]);
    }
  }

  // --- the decision ----------------------------------------------------------------------------------------

  ghost predicate CatalogOk(req: Request) {
    (req.models.Some? ==> Listed(req.models.value)) && (req.reread.Some? ==> Listed(req.reread.value))
  }

  function MaxWindowOf(req: Request): nat {
    if req.models.Some? && FindModel(req.models.value, req.model).Some? then Found(req).maxWindow else 0
  }

  function KeyOf(req: Request): string {
    if req.models.Some? && FindModel(req.models.value, req.model).Some? then Found(req).key else req.model
  }

  function CaseOf(loaded: map<string, nat>, req: Request): Case {
    Case(loaded, KeyOf(req), req, MaxWindowOf(req))
  }

  /** The catalog row behind a resident: in the first read, or in the one after a crash. */
  ghost predicate ListedResident(req: Request, r: Resident) {
    (req.models.Some? && RowOf(req.models.value, r)) || (req.reread.Some? && RowOf(req.reread.value, r))
  }

  lemma StartsGood(loaded: map<string, nat>, req: Request)
    ensures Good(CaseOf(loaded, req), Server(loaded, []), [])
  {
  }

  lemma WantOk(req: Request)
    requires ChatFound(req) && CapsAllow(req)
    ensures WindowOk(Want(req), req.est, MaxWindowOf(req), req.ceiling)
  {
    DesiredIsOk(req.est, req.defaultWindow, Found(req).maxWindow, req.ceiling);
  }

  /** The discipline of every call: whom it unloads and when, with what claim; what it asks for;
      what it names and puts back; and that a model reported ready holds the prompt. */
  lemma DecidedOk(w: World, loaded: map<string, nat>, req: Request)
    requires CatalogOk(req)
    ensures var run := Decided(w, Server(loaded, []), req);
            && RunOk(w, CaseOf(loaded, req), run)
            && (run.out.offer ==>
                  && req.policy == Never && ChatFound(req)
                  && (TooSmallAsLoaded(req) || req.verdict == NeedsRoom || MemoryShown(run.server.log, run.out.key)))
  {
    hide Good, FindModel, Residents, LoadedBeside, Reloaded, MemoryShown, Listed, Desired;
    var c, s := CaseOf(loaded, req), Server(loaded, []);
    StartsGood(loaded, req);
    if ChatFound(req) && CapsAllow(req) {
      WantOk(req);
      if TooSmallAsLoaded(req) && req.policy == Auto {
        ReloadedOk(w, c, s, Found(req).window, Want(req));
      }
      ResidentsAreDistinct(req.models.value);
      LoadedBesideOk(w, c, s, Want(req), Residents(req.models.value));
    }
  }

  /** The refusals that need no server and the answers that need no load, each exactly when its
      condition holds; then nothing was asked of the server. */
  lemma DecidedKinds(w: World, loaded: map<string, nat>, req: Request)
    requires CatalogOk(req)
    ensures var run := Decided(w, Server(loaded, []), req);
            && (run.out.kind == NetworkError <==> req.models == None)
            && (run.out.kind == ModelNotFound <==> req.models.Some? && !ChatFound(req))
            && (run.out.kind == ContextTooSmall <==>
                  ChatFound(req) && (!CapsAllow(req) || (TooSmallAsLoaded(req) && req.policy == Never)))
            && (run.out.kind == ModelTooLarge <==>
                  ChatFound(req) && CapsAllow(req) && !Found(req).loaded && req.verdict == TooLarge)
            && (run.out.kind == Ready && !run.out.loadedNow <==>
                  ChatFound(req) && CapsAllow(req) && Found(req).loaded && !TooSmallAsLoaded(req))
            && (run.out.kind in {NetworkError, ModelNotFound, ContextTooSmall, ModelTooLarge} ==>
                  run.server == Server(loaded, []))
            && (run.out.kind == Ready && !run.out.loadedNow ==> run.server == Server(loaded, []))
  {
    hide Good, FindModel, Residents, LoadedBeside, Reloaded, MemoryShown, Listed, Desired, RunOk;
    var c, s := CaseOf(loaded, req), Server(loaded, []);
    StartsGood(loaded, req);
    if ChatFound(req) && CapsAllow(req) {
      WantOk(req);
      if TooSmallAsLoaded(req) && req.policy == Auto {
        ReloadedOk(w, c, s, Found(req).window, Want(req));
      }
      ResidentsAreDistinct(req.models.value);
      LoadedBesideOk(w, c, s, Want(req), Residents(req.models.value));
    }
  }

  /** A resident taken down was one the catalog listed, with the window it listed. */
  lemma TakenWereListed(w: World, loaded: map<string, nat>, req: Request, r: Resident)
    requires CatalogOk(req) && r in Decided(w, Server(loaded, []), req).gone
    ensures ListedResident(req, r)
  {
    hide Good, FindModel, LoadedBeside, Reloaded, MemoryShown, Listed, Desired, RunOk;
    var c, s := CaseOf(loaded, req), Server(loaded, []);
    StartsGood(loaded, req);
    WantOk(req);
    var models := req.models.value;
    FoundIsListed(models, req.model);
    if Found(req).loaded {
      ReloadedOk(w, c, s, Found(req).window, Want(req));
      var i :| 0 <= i < |models| && models[i] == Found(req);
      assert RowOf(models, r);
    } else {
      ResidentsAreDistinct(models);
      LoadedBesideOk(w, c, s, Want(req), Residents(models));
      if r in Residents(models) {
        ResidentIsListed(models, r);
      } else {
        ResidentIsListed(req.reread.value, r);
      }
    }
  }

  // --- what the operator is told ------------------------------------------------------------------------------

  /** The outcome is `never appeared as loaded` exactly when the call comes to the wait and the model
      does not show; what was really unloaded by then is what it had vacated. */
  lemma NeverAppearedExactly(w: World, loaded: map<string, nat>, req: Request)
    requires CatalogOk(req)
    ensures var run, wait := Decided(w, Server(loaded, []), req), AtWait(w, Server(loaded, []), req);
            && (run.out.kind == NeverAppeared <==> wait.Some? && !w.appears(|wait.value.0.log|))
            && (wait.Some? ==> run.server == wait.value.0 && run.gone == wait.value.1)
  {
    hide Good, FindModel, Residents, FirstLoad, Restored, Listed, Desired, Vacated, AfterLoad, AfterUnload, AfterClaim;
    var s := Server(loaded, []);
    if ChatFound(req) && CapsAllow(req) && !Found(req).loaded {
      var first := FirstLoad(w, s, Found(req).key, Want(req), req.est);
      var present := Present(Residents(req.models.value), first.crashed, req);
      VacatedBlocked(w, first.server, Found(req).key, Want(req), present, first.err);
    }
  }

  lemma {:induction false} VacatedBlocked(w: World, s: Server, key: string, want: nat, residents: seq<Resident>,
                                          err: Option<string>)
    ensures var v := Vacated(w, s, key, want, residents, err);
            v.blocked.Some? ==> v.err.Some? && v.blocked.value in {Busy, UnloadFailed}
    decreases |residents|
  {
    hide LooksMemory, LooksCrash;
    if residents != [] && KeepVacating(err) {
      var claim := AfterClaim(w, s, residents[0].key);
      var unload := AfterUnload(w, claim.0, residents[0].key);
      var load := AfterLoad(w, unload.0, key, want, Requested);
      VacatedBlocked(w, load.0, key, want, residents[1..], load.1);
    }
  }

  /** Every other model the call unloaded is named in its outcome, except exactly when the call came
      to wait for the model after vacating another one and the model does not show. */
  lemma NamedExactly(w: World, loaded: map<string, nat>, req: Request)
    requires CatalogOk(req)
    ensures var run, wait := Decided(w, Server(loaded, []), req), AtWait(w, Server(loaded, []), req);
            Accounted(run.server.log, run.out.key, run.out.taken) <==>
            !(wait.Some? && !w.appears(|wait.value.0.log|) && exists r :: r in wait.value.1 && r.key != KeyOf(req))
  {
    hide Decided, AtWait;
    DecidedOk(w, loaded, req);
    NeverAppearedExactly(w, loaded, req);
    var run := Decided(w, Server(loaded, []), req);
    if run.out.kind == NeverAppeared {
      if r :| r in run.gone && r.key != run.out.key {
        var i :| 0 <= i < |run.server.log| && run.server.log[i] == Unload(r.key, None);
        assert !Accounted(run.server.log, run.out.key, []);
      }
    }
  }

  // --- what is left of the residents ----------------------------------------------------------------------------

  /** The catalog told the truth about who is resident and, where it reported one, with what window. */
  ghost predicate Truthful(loaded: map<string, nat>, req: Request) {
    && (req.models.Some? ==> TruthfulRows(loaded, req.models.value, None))
    && (req.reread.Some? ==> TruthfulRows(loaded, req.reread.value, Some(KeyOf(req))))
  }

  /** After a crash the requested model itself may have left a stray. */
  ghost predicate TruthfulRows(loaded: map<string, nat>, models: seq<Entry>, except: Option<string>) {
    forall i :: 0 <= i < |models| && models[i].loaded && Some(models[i].key) != except ==>
      models[i].key in loaded && (models[i].window == 0 || models[i].window == loaded[models[i].key])
  }

  /** It is resident again, but at the server's default, because the catalog reported no window. */
  ghost predicate AtDefault(w: World, run: Run, k: string) {
    && (exists r :: r in run.gone && r.key == k && r.window == 0)
    && k in run.server.loaded && run.server.loaded[k] == w.fallbackWindow
  }

  /** After a swap that gave up under a truthful catalog, every model but the requested one is
      exactly as it was, or named as not restored, or the one whose unload errored, or back at the
      server's default because its window was never reported. */
  lemma GivingUpLosesNobody(w: World, loaded: map<string, nat>, req: Request, k: string)
    requires CatalogOk(req) && Truthful(loaded, req)
    requires var run := Decided(w, Server(loaded, []), req); GaveUp(run.out) && k != run.out.key
    ensures var run := Decided(w, Server(loaded, []), req);
            || AsBefore(loaded, run.server.loaded, k)
            || k in run.out.notRestored
            || UnloadFailedOn(run.server.log, k)
            || AtDefault(w, run, k)
  {
    hide Decided, Good, LogOk, Listed, ListedResident, UnloadTried, UnloadFailedOn, Truthful, CatalogOk;
    DecidedOk(w, loaded, req);
    var run := Decided(w, Server(loaded, []), req);
    var c := CaseOf(loaded, req);
    GoodParts(c, run.server, run.gone);
    if UnloadTried(run.server.log, k) && !UnloadFailedOn(run.server.log, k) {
      var r := TakenWhenTried(c, run.server.log, run.gone, k);
      TakenWereListed(w, loaded, req, r);
      ListedIsTrue(loaded, req, r);
    }
  }

  lemma TakenWhenTried(c: Case, log: seq<Event>, gone: seq<Resident>, k: string) returns (r: Resident)
    requires LogOk(c, log, gone) && k != c.key && UnloadTried(log, k) && !UnloadFailedOn(log, k)
    ensures r in gone && r.key == k
  {
    hide Disciplined, WindowsOk, Claimed, Witnessed;
    var i :| 0 <= i < |log| && log[i].Unload? && log[i].key == k;
    assert log[i].error == None;
    r :| r in gone && r.key == log[i].key;
  }

  lemma ListedIsTrue(loaded: map<string, nat>, req: Request, r: Resident)
    requires Truthful(loaded, req) && ListedResident(req, r) && r.key != KeyOf(req)
    ensures r.key in loaded && (r.window == 0 || r.window == loaded[r.key])
  {
    if req.models.Some? && RowOf(req.models.value, r) {
      var models := req.models.value;
      var i :| 0 <= i < |models| && models[i].loaded && models[i].key == r.key && models[i].window == r.window;
    } else {
      var models := req.reread.value;
      var i :| 0 <= i < |models| && models[i].loaded && models[i].key == r.key && models[i].window == r.window;
      assert Some(models[i].key) != Some(KeyOf(req));
    }
  }

  /** And a resident that was put back is exactly where it was if its window was reported, and
      otherwise only if the server's default happens to be its old window. */
  lemma RestoredExactlyWhenReported(w: World, loaded: map<string, nat>, req: Request, r: Resident)
    requires CatalogOk(req) && Truthful(loaded, req)
    requires var run := Decided(w, Server(loaded, []), req);
             GaveUp(run.out) && r in run.gone && r.key != run.out.key && r.key !in run.out.notRestored
    ensures var run := Decided(w, Server(loaded, []), req);
            && r.key in loaded
            && (AsBefore(loaded, run.server.loaded, r.key) <==>
                  r.window > 0 || w.fallbackWindow == loaded[r.key])
  {
    hide Decided, Listed, RowOf;
    DecidedOk(w, loaded, req);
    TakenWereListed(w, loaded, req, r);
    ListedIsTrue(loaded, req, r);
  }

  // --- the probe's verdict and what follows from it ---------------------------------------------------------------

  /** A model to be loaded beside whoever is resident, with nothing against trying. */
  predicate ComesToLoad(req: Request) {
    && ChatFound(req) && CapsAllow(req) && !Found(req).loaded && req.verdict != TooLarge
    && !(req.verdict == NeedsRoom && Residents(req.models.value) != [] && req.policy != Auto)
  }

  /** The floor probe that the first load leads to: its last error is a crash without memory wording,
      and the window tried is above the floor. */
  function ProbeOf(w: World, s: Server, key: string, want: nat, est: nat): Option<Probe> {
    var load := AfterLoad(w, s, key, want, Requested);
    if load.1 == None || !(LooksMemory(load.1.value) || LooksCrash(load.1.value)) then None
    else
      var needed := Min(want, Needed(est));
      var again := if needed < want then AfterLoad(w, load.0, key, needed, Requested) else load;
      if again.1.Some? && LooksCrash(again.1.value) && !LooksMemory(again.1.value) && needed > FLOOR_CONTEXT
      then Some(Probed(w, again.0, key)) else None
  }

  /** The probe of a whole call. */
  function ProbeIn(w: World, loaded: map<string, nat>, req: Request): Option<Probe> {
    if ComesToLoad(req) then ProbeOf(w, Server(loaded, []), Found(req).key, Want(req), req.est) else None
  }

  /** Who would be vacated after the crash. */
  function ToVacate(req: Request): seq<Resident>
    requires ComesToLoad(req)
  {
    var residents := Residents(req.models.value);
    if residents == [] then [] else Present(residents, true, req)
  }

  /** The code's verdict that memory is in the way: the probe proved it, or its detail has memory
      wording, whoever's words those are. */
  predicate TakenAsMemory(p: Probe) {
    p.proven || LooksMemory(p.detail)
  }

  lemma CrashRemains(error: string, more: string)
    requires LooksCrash(error)
    ensures LooksCrash(error + more)
  {
    assert Lower(error + more)[..|error|] == Lower(error);
    var low, all := Lower(error), Lower(error + more);
    forall needle | Contains(needle, low) ensures Contains(needle, all) {
      var i :| 0 <= i <= |low| && OccursAt(needle, low, i);
      assert all[i..i + |needle|] == low[i..i + |needle|];
      assert OccursAt(needle, all, i);
    }
  }

  lemma FirstLoadAfterProbe(w: World, s: Server, key: string, want: nat, est: nat)
    requires ProbeOf(w, s, key, want, est).Some?
    ensures var f, p := FirstLoad(w, s, key, want, est), ProbeOf(w, s, key, want, est).value;
            && f.server == p.server && f.err.Some? && LooksCrash(f.err.value) && f.crashed
            && f.memoryProven == TakenAsMemory(p)
  {
    hide LooksMemory, LooksCrash, Probed;
    var p := ProbeOf(w, s, key, want, est).value;
    var load := AfterLoad(w, s, key, want, Requested);
    var again := if Min(want, Needed(est)) < want
                 then AfterLoad(w, load.0, key, Min(want, Needed(est)), Requested) else load;
    var suffix := "; floor-context probe: " + p.detail;
    CrashRemains(again.1.value, suffix);
    assert again.1.value + suffix == again.1.value + "; floor-context probe: " + p.detail;
  }

  /** Up to the verdict no other model's unload is tried. */
  ghost predicate OnlyOn(log: seq<Event>, key: string) {
    forall i :: 0 <= i < |log| && log[i].Unload? ==> log[i].key == key
  }

  lemma ProbeOnlyOn(w: World, s: Server, key: string, want: nat, est: nat)
    requires OnlyOn(s.log, key) && ProbeOf(w, s, key, want, est).Some?
    ensures OnlyOn(ProbeOf(w, s, key, want, est).value.server.log, key)
  {
    hide LooksMemory, LooksCrash;
  }

  /** The first request of the swap is for the first resident's claim, and its unload is tried
      exactly when that is granted. */
  lemma VacatedFirst(w: World, s: Server, key: string, want: nat, residents: seq<Resident>, err: Option<string>)
    requires residents != [] && KeepVacating(err) && residents[0].key != key && OnlyOn(s.log, key)
    ensures var v, k := Vacated(w, s, key, want, residents, err), residents[0].key;
            && s.log + [ClaimTried(k, w.grant(|s.log|))] <= v.server.log
            && (UnloadTried(v.server.log, k) <==> w.grant(|s.log|))
            && (!w.grant(|s.log|) ==> v.count == 0 && v.server.log == s.log + [ClaimTried(k, false)])
  {
    hide KeepVacating, AfterLoad;
    var k := residents[0].key;
    var claim := AfterClaim(w, s, k);
    var unload := AfterUnload(w, claim.0, k);
    if claim.1 {
      TriedStays(claim.0.log, Unload(k, ServerWords(w.unload(|claim.0.log|))), k);
      if unload.1 == None {
        var load := AfterLoad(w, unload.0, key, want, Requested);
        LoadExtends(w, unload.0, key, want);
        VacatedExtends(w, load.0, key, want, residents[1..], load.1);
        TriedInMore(unload.0.log, Vacated(w, load.0, key, want, residents[1..], load.1).server.log, k);
      }
    } else {
      NotTried(s.log, key, ClaimTried(k, false), k);
    }
  }

  lemma NotTried(log: seq<Event>, key: string, e: Event, k: string)
    requires OnlyOn(log, key) && k != key && !e.Unload?
    ensures !UnloadTried(log + [e], k) && !UnloadTried(log, k)
  {
  }

  lemma TriedInMore(log: seq<Event>, more: seq<Event>, k: string)
    requires UnloadTried(log, k) && log <= more
    ensures UnloadTried(more, k)
  {
    var i :| 0 <= i < |log| && log[i].Unload? && log[i].key == k;
    assert more[i] == log[i];
  }

  lemma LoadExtends(w: World, s: Server, key: string, want: nat)
    ensures s.log <= AfterLoad(w, s, key, want, Requested).0.log
  {
  }

  lemma {:induction false} VacatedExtends(w: World, s: Server, key: string, want: nat, residents: seq<Resident>,
                                          err: Option<string>)
    ensures s.log <= Vacated(w, s, key, want, residents, err).server.log
    decreases |residents|
  {
    hide KeepVacating;
    if residents != [] && KeepVacating(err) {
      var claim := AfterClaim(w, s, residents[0].key);
      var unload := AfterUnload(w, claim.0, residents[0].key);
      var load := AfterLoad(w, unload.0, key, want, Requested);
      VacatedExtends(w, load.0, key, want, residents[1..], load.1);
    }
  }

  lemma {:induction false} RestoredExtends(w: World, s: Server, taken: seq<Resident>, k: string)
    ensures s.log <= Restored(w, s, taken).0.log
    ensures UnloadTried(Restored(w, s, taken).0.log, k) <==> UnloadTried(s.log, k)
    decreases |taken|
  {
    hide UnloadTried;
    if taken != [] {
      var n := |taken| - 1;
      var one := AfterLoad(w, s, taken[n].key, taken[n].window, Restoring);
      TriedStays(s.log, one.0.log[|s.log|], k);
      RestoredExtends(w, one.0, taken[..n], k);
    }
  }

  /** What the swap adds to the log, it adds behind what was there. */
  lemma SwappedFirst(w: World, s: Server, key: string, want: nat, present: seq<Resident>, err: Option<string>,
                     note: ProbeNote)
    requires present != [] && KeepVacating(err) && present[0].key != key && OnlyOn(s.log, key)
    ensures UnloadTried(Swapped(w, s, key, want, present, err, note).server.log, present[0].key) <==> w.grant(|s.log|)
  {
    hide KeepVacating, Vacated, Restored, UnloadTried;
    var v := Vacated(w, s, key, want, present, err);
    VacatedFirst(w, s, key, want, present, err);
    RestoredExtends(w, v.server, present[..v.count], present[0].key);
  }

  lemma SwappedLonger(w: World, s: Server, key: string, want: nat, present: seq<Resident>, err: Option<string>,
                      note: ProbeNote)
    requires present != [] && KeepVacating(err)
    ensures |Swapped(w, s, key, want, present, err, note).server.log| > |s.log|
  {
    hide KeepVacating, Restored;
    var v := Vacated(w, s, key, want, present, err);
    var claim := AfterClaim(w, s, present[0].key);
    var unload := AfterUnload(w, claim.0, present[0].key);
    var load := AfterLoad(w, unload.0, key, want, Requested);
    VacatedExtends(w, load.0, key, want, present[1..], load.1);
    RestoredExtends(w, v.server, present[..v.count], key);
  }

  /** After a crash that led to the probe, the decision goes on to ask anything of the server, which
      means to start vacating, exactly when the policy is `auto`, somebody is in the way, and the
      probe is taken as memory. The module's own rule asks for a probe that proved it. */
  lemma SwapAfterProbeExactly(w: World, loaded: map<string, nat>, req: Request)
    requires ProbeIn(w, loaded, req).Some?
    ensures var p, run := ProbeIn(w, loaded, req).value, Decided(w, Server(loaded, []), req);
            if req.policy == Auto && ToVacate(req) != [] && TakenAsMemory(p)
            then |run.server.log| > |p.server.log| else run.server == p.server
  {
    hide FindModel, Residents, Probed, LooksMemory, LooksCrash, FirstLoad, ProbeOf, Desired, Swapped;
    var s, key, want := Server(loaded, []), Found(req).key, Want(req);
    FirstLoadAfterProbe(w, s, key, want, req.est);
    var f := FirstLoad(w, s, key, want, req.est);
    if ToVacate(req) != [] {
      SwappedLonger(w, f.server, key, want, ToVacate(req), f.err, f.note);
    } else {
      NothingToSwap(w, f.server, key, want, f.err, f.note);
    }
  }

  lemma NothingToSwap(w: World, s: Server, key: string, want: nat, err: Option<string>, note: ProbeNote)
    requires err.Some?
    ensures Swapped(w, s, key, want, [], err, note).server == s
  {
  }

  /** After a crash that led to the probe, the first resident in the way has its unload tried exactly
      when the policy is `auto`, the probe is taken as memory, and the resident's claim is granted.
      The module's own rule asks for a probe that proved it. */
  lemma UnloadAfterProbeExactly(w: World, loaded: map<string, nat>, req: Request)
    requires ProbeIn(w, loaded, req).Some? && ToVacate(req) != [] && ToVacate(req)[0].key != KeyOf(req)
    ensures var p, run := ProbeIn(w, loaded, req).value, Decided(w, Server(loaded, []), req);
            UnloadTried(run.server.log, ToVacate(req)[0].key) <==>
            req.policy == Auto && TakenAsMemory(p) && w.grant(|p.server.log|)
  {
    hide FindModel, Residents, Probed, LooksMemory, LooksCrash, Swapped, UnloadTried, FirstLoad, ProbeOf, Desired;
    var s, key, want := Server(loaded, []), Found(req).key, Want(req);
    var p := ProbeIn(w, loaded, req).value;
    FirstLoadAfterProbe(w, s, key, want, req.est);
    ProbeOnlyOn(w, s, key, want, req.est);
    var f := FirstLoad(w, s, key, want, req.est);
    SwappedFirst(w, f.server, key, want, ToVacate(req), f.err, f.note);
    NotTried(p.server.log, key, ClaimTried(key, false), ToVacate(req)[0].key);
  }

  // --- whose words the detail are ------------------------------------------------------------------------------------

  lemma LowerAlready(s: string)
    requires forall c :: c in s ==> !('A' <= c <= 'Z')
    ensures Lower(s) == s
  {
    forall i | 0 <= i < |s| ensures !('A' <= s[i] <= 'Z') {
      assert s[i] in s;
    }
  }

  /** The refusal in parts, around its only `g`. */
  lemma RefusalInParts()
    ensures REFUSAL == " is answerin" + "g" + " a chat — cannot" + " run the memory" + " probe now"
  {
    hide MEMORY_HINTS, NOT_FREED, CRASH;
  }

  lemma RefusalHasNoCapital()
    ensures forall c :: c in REFUSAL ==> !('A' <= c <= 'Z')
  {
    RefusalInParts();
    hide REFUSAL;
  }

  lemma RefusalLetters()
    ensures 'v' !in REFUSAL && 'f' !in REFUSAL && 'l' !in REFUSAL
  {
    hide MEMORY_HINTS, NOT_FREED, CRASH;
    RefusalInParts();
    hide REFUSAL;
    assert forall c :: c in " is answerin" + "g" ==> c !in {'v', 'f', 'l'};
    assert forall c :: c in " a chat — cannot" ==> c !in {'v', 'f', 'l'};
    assert forall c :: c in " run the memory" ==> c !in {'v', 'f', 'l'};
    assert forall c :: c in " probe now" ==> c !in {'v', 'f', 'l'};
  }

  lemma RefusalStarts()
    ensures |REFUSAL| > 2 && REFUSAL[0] == ' ' && REFUSAL[1] == 'i'
  {
    RefusalInParts();
    hide REFUSAL;
  }

  lemma RefusalIsLower()
    ensures Lower(REFUSAL) == REFUSAL && |REFUSAL| > 2 && REFUSAL[0] == ' ' && REFUSAL[1] == 'i'
    ensures 'v' !in REFUSAL && 'f' !in REFUSAL && 'l' !in REFUSAL
  {
    hide REFUSAL, Lower;
    RefusalHasNoCapital();
    LowerAlready(REFUSAL);
    RefusalLetters();
    RefusalStarts();
  }

  /** The only `g` of the refusal is followed by a space. */
  lemma RefusalAfterG(j: nat)
    requires j + 1 < |REFUSAL| && REFUSAL[j] == 'g'
    ensures REFUSAL[j + 1] != 'h'
  {
    RefusalInParts();
    hide REFUSAL;
    var head, rest := " is answerin", " a chat — cannot" + " run the memory" + " probe now";
    assert REFUSAL == head + "g" + rest;
    assert 'g' !in head && 'g' !in rest && rest[0] == ' ';
    PlaceOf(head, rest, 'g', j);
  }

  lemma PlaceOf(head: string, rest: string, c: char, j: nat)
    requires c !in head && c !in rest && j < |head + [c] + rest| && (head + [c] + rest)[j] == c
    ensures j == |head|
  {
    assert forall i :: 0 <= i < |head| ==> head[i] in head;
    assert forall i :: 0 <= i < |rest| ==> rest[i] in rest;
  }

  /** No hint stands in the refusal itself. */
  lemma NoHintInRefusal(h: nat, j: nat) returns (m: nat)
    requires h < |MEMORY_HINTS| && j + |MEMORY_HINTS[h]| <= |REFUSAL|
    ensures m < |MEMORY_HINTS[h]| && REFUSAL[j + m] != MEMORY_HINTS[h][m]
  {
    hide REFUSAL;
    RefusalLetters();
    if h == 0 {
      TellTaleOfFirst();
      hide MEMORY_HINTS;
      m := 8;
      if REFUSAL[j + 8] == 'g' {
        RefusalAfterG(j + 8);
        m := 9;
      }
    } else {
      m := TellTale(h);
      hide MEMORY_HINTS;
      assert REFUSAL[j + m] in REFUSAL;
    }
  }

  lemma TellTaleOfFirst()
    ensures |MEMORY_HINTS[0]| > 9 && MEMORY_HINTS[0][8] == 'g' && MEMORY_HINTS[0][9] == 'h'
  {
  }

  /** Every other hint has a letter that the refusal lacks. */
  lemma TellTale(h: nat) returns (m: nat)
    requires 0 < h < |MEMORY_HINTS|
    ensures m < |MEMORY_HINTS[h]| && MEMORY_HINTS[h][m] in {'f', 'v', 'l'}
  {
    m := [8, 4, 5, 0, 0, 8][h];
  }

  /** The refusal's first two characters do not go on inside any hint. */
  lemma HintsDoNotSpan(h: nat, k: nat)
    requires h < |MEMORY_HINTS| && 0 < k < |MEMORY_HINTS[h]| && MEMORY_HINTS[h][k] == ' '
    ensures k + 1 < |MEMORY_HINTS[h]| && MEMORY_HINTS[h][k + 1] != 'i'
  {
    var hint := MEMORY_HINTS[h];
    assert hint[|hint| - 1] != ' ';
    assert hint[k + 1] in hint;
    if h == 1 {
      SpaceAfter("insufficient", " memory", k);
    } else if h == 4 {
      SpaceAfter("failed", " to allocate", k);
    } else if h == 5 {
      SpaceAfter("memory", " allocat", k);
    }
  }

  lemma SpaceAfter(word: string, rest: string, k: nat)
    requires ' ' !in word && 'i' !in rest && k + 1 < |word + rest| && (word + rest)[k] == ' '
    ensures (word + rest)[k + 1] != 'i'
  {
    assert forall j :: 0 <= j < |word| ==> word[j] in word;
    assert forall j :: 0 <= j < |rest| ==> rest[j] in rest;
  }

  /** So the refusal has memory wording exactly when the model's own key does. */
  lemma RefusalSpeaksOfTheKey(key: string)
    ensures LooksMemory(key + REFUSAL) <==> LooksMemory(key)
  {
    RefusalIsLower();
    hide REFUSAL, MEMORY_HINTS, Contains;
    assert Lower(key + REFUSAL) == Lower(key) + Lower(REFUSAL);
    forall h | 0 <= h < |MEMORY_HINTS|
      ensures Contains(MEMORY_HINTS[h], Lower(key) + REFUSAL) <==> Contains(MEMORY_HINTS[h], Lower(key))
    {
      HintInRefusal(Lower(key), h);
    }
  }

  lemma HintInRefusal(low: string, h: nat)
    requires h < |MEMORY_HINTS|
    ensures Contains(MEMORY_HINTS[h], low + REFUSAL) <==> Contains(MEMORY_HINTS[h], low)
  {
    hide REFUSAL, MEMORY_HINTS;
    var hint, all := MEMORY_HINTS[h], low + REFUSAL;
    if Contains(hint, low) {
      var i :| 0 <= i <= |low| && OccursAt(hint, low, i);
      assert all[i..i + |hint|] == low[i..i + |hint|];
      assert OccursAt(hint, all, i);
    }
    if Contains(hint, all) {
      var i :| 0 <= i <= |all| && OccursAt(hint, all, i);
      HintIsInKey(low, REFUSAL, h, i);
      assert all[i..i + |hint|] == low[i..i + |hint|];
      assert OccursAt(hint, low, i);
    }
  }

  lemma HintIsInKey(low: string, tail: string, h: nat, i: nat)
    requires tail == REFUSAL && h < |MEMORY_HINTS| && OccursAt(MEMORY_HINTS[h], low + tail, i)
    ensures i + |MEMORY_HINTS[h]| <= |low|
  {
    hide REFUSAL, MEMORY_HINTS;
    var hint := MEMORY_HINTS[h];
    forall j | 0 <= j < |hint| ensures hint[j] == (low + tail)[i + j] {
      assert hint[j] == (low + tail)[i..i + |hint|][j];
    }
    RefusalIsLower();
    if i >= |low| {
      var m := NoHintInRefusal(h, i - |low|);
    } else if i + |hint| > |low| {
      HintsDoNotSpan(h, |low| - i);
    }
  }

  /** What an unproven probe reports, and in whose words. */
  lemma UnprovenInWhoseWords(w: World, s: Server, key: string)
    requires !Probed(w, s, key).proven
    ensures var p, load := Probed(w, s, key), AfterLoad(w, s, key, FLOOR_CONTEXT, FloorProbe);
            // The floor load failed: the server's words.
            && (load.1.Some? ==> p.detail == load.1.value)
            // It loaded, but a chat is on it: the code's words, which speak of memory only through the key.
            && (load.1 == None && !w.grant(|load.0.log|) ==> (TakenAsMemory(p) <==> LooksMemory(key)))
            // It loaded and could not be freed: the code's words around the server's.
            && (load.1 == None && w.grant(|load.0.log|) ==>
                  p.detail == key + NOT_FREED + Complaint(key, w.unload(|load.0.log| + 1), w.unloadWait).value)
  {
    hide LooksMemory;
    RefusalSpeaksOfTheKey(key);
  }

  // --- a resident lost without a word ------------------------------------------------------------------------------

  /** The first load fails for memory, everything after it succeeds, but the model never appears. */
  function SilentWorld(): World {
    World((n: nat) => if n == 0 then LoadErr("out of memory", None) else LoadOk,
          (n: nat) => Gone, (n: nat) => true, (n: nat) => false, 4096, "60")
  }

  /** `a` is asked for while `b` is resident. */
  function SilentRequest(): Request {
    Request("a", 1, Auto, 0, 0, Some([Entry("a", true, false, 0, 0), Entry("b", true, true, 4096, 0)]), None, Unknown)
  }

  lemma OutOfMemoryIsMemory()
    ensures LooksMemory("out of memory") && !LooksCrash("out of memory")
  {
    var error := "out of memory";
    assert Lower(error) == error;
    assert OccursAt(MEMORY_HINTS[2], Lower(error), 0);
  }

  lemma SilentFinds()
    ensures var req := SilentRequest();
            && ChatFound(req) && Found(req) == Entry("a", true, false, 0, 0) && CapsAllow(req) && Want(req) == 769
            && Residents(req.models.value) == [Resident("b", 4096)]
  {
    var models := SilentRequest().models.value;
    assert Strip("a") == "a" by { assert !IsSpace('a'); }
    assert models[1..] == [Entry("b", true, true, 4096, 0)] && models[1..][1..] == [];
    assert FirstWhere(models, (m: Entry) => m.key == "a") == Some(models[0]);
    assert Residents(models[1..]) == [Resident("b", 4096)];
  }

  /** Then `b` is gone, was not put back, and the outcome names nobody. */
  lemma ResidentLostUnnamed()
    ensures var run := Decided(SilentWorld(), Server(map["b" := 4096], []), SilentRequest());
            && run.out.kind == NeverAppeared && run.out.taken == [] && run.out.notRestored == []
            && "b" !in run.server.loaded && run.gone == [Resident("b", 4096)]
  {
    var w, req := SilentWorld(), SilentRequest();
    SilentFinds();
    hide FindModel, Residents, SilentRequest, LooksMemory, LooksCrash, Found;
    OutOfMemoryIsMemory();
    var s := Server(map["b" := 4096], []);
    var error := "out of memory";
    var s1 := Server(map["b" := 4096], [Load("a", 769, Requested, Some(error))]);
    assert s.log + [Load("a", 769, Requested, Some(error))] == s1.log;
    assert AfterLoad(w, s, "a", 769, Requested) == (s1, Some(error));
    assert SilentRequest().est == 1 && SilentRequest().policy == Auto by { SilentFields(); }
    assert FirstLoad(w, s, "a", 769, 1) == Shrink(s1, Some(error), true, false, NoProbe);
    VacateOne(w, s1, Resident("b", 4096), error);
    SilentFields();
  }

  lemma SilentFields()
    ensures var req := SilentRequest();
            req.est == 1 && req.policy == Auto && req.verdict == Unknown && req.reread == None
  {
  }

  lemma VacateOne(w: World, s: Server, r: Resident, error: string)
    requires w == SilentWorld() && s.loaded == map["b" := 4096] && |s.log| == 1 && r == Resident("b", 4096)
    requires error == "out of memory"
    ensures var v := Vacated(w, s, "a", 769, [r], Some(error));
            v.err == None && v.count == 1 && v.blocked == None && v.server.loaded == map["a" := 769]
  {
    hide LooksMemory, LooksCrash;
    OutOfMemoryIsMemory();
    var claim := AfterClaim(w, s, "b");
    var unload := AfterUnload(w, claim.0, "b");
    var load := AfterLoad(w, unload.0, "a", 769, Requested);
    assert [r][1..] == [];
    assert Vacated(w, load.0, "a", 769, [], load.1) == Vacancy(load.0, None, 0, None);
  }

  // --- two unloads that the module's own rule forbids ---------------------------------------------------

  const CRASH: string := "model_load_failed: exited before becoming healthy"

  /** The first load crashes, the probe gets `probe`, and everything later succeeds, but for the claim
      with number `refused`. */
  function CrashWorld(probe: LoadReply, refused: nat): World {
    World((n: nat) => if n == 0 then LoadErr(CRASH, None) else if n == 1 then probe else LoadOk,
          (n: nat) => Gone, (n: nat) => n != refused, (n: nat) => true, 4096, "60")
  }

  /** `key` is asked for with a prompt of 3000 tokens while `b` is resident. */
  function CrashRequest(key: string): Request {
    Request(key, 3000, Auto, 0, 0, Some([Entry(key, true, false, 0, 0), Entry("b", true, true, 4096, 0)]), None,
            Unknown)
  }

  lemma CrashIsAmbiguous()
    ensures LooksCrash(CRASH) && !LooksMemory(CRASH)
  {
    CrashHasNoCapital();
    CrashWording();
    hide CRASH;
    LowerAlready(CRASH);
    forall h | 0 <= h < |MEMORY_HINTS| ensures !Contains(MEMORY_HINTS[h], CRASH) {
      CrashLacks(h);
    }
  }

  /** The crash message in parts, around its only `c`. */
  lemma CrashInParts()
    ensures CRASH == "model_load_failed" + ": " + "exited before be" + "c" + "oming healthy"
  {
    hide MEMORY_HINTS, NOT_FREED, REFUSAL;
  }

  lemma CrashHasNoCapital()
    ensures forall c :: c in CRASH ==> !('A' <= c <= 'Z')
  {
    CrashInParts();
    hide CRASH;
  }

  lemma CrashWording()
    ensures Contains("model_load_failed", CRASH) && Contains("exited before becoming healthy", CRASH)
  {
    CrashInParts();
    hide CRASH;
    assert OccursAt("model_load_failed", CRASH, 0);
    var needle := "exited before be" + "c" + "oming healthy";
    assert "exited before becoming healthy" == needle;
    assert CRASH == "model_load_failed" + ": " + needle;
    assert CRASH[19..19 + |needle|] == needle;
    assert OccursAt(needle, CRASH, 19);
  }

  lemma CrashLetters()
    ensures 'v' !in CRASH && 'u' !in CRASH
  {
    CrashInParts();
    hide CRASH;
  }

  /** The only `c` of the crash message is followed by an `o`. */
  lemma CrashAfterC(j: nat)
    requires j + 1 < |CRASH| && CRASH[j] == 'c'
    ensures CRASH[j + 1] != 'a'
  {
    CrashInParts();
    hide CRASH;
    var head, rest := "model_load_failed" + ": " + "exited before be", "oming healthy";
    assert CRASH == head + "c" + rest;
    assert 'c' !in head && 'c' !in rest && rest[0] == 'o';
    PlaceOf(head, rest, 'c', j);
  }

  lemma CrashLacks(h: nat)
    requires h < |MEMORY_HINTS|
    ensures !Contains(MEMORY_HINTS[h], CRASH)
  {
    CrashLetters();
    hide CRASH;
    var hint := MEMORY_HINTS[h];
    forall i | 0 <= i <= |CRASH| ensures !OccursAt(hint, CRASH, i) {
      if i + |hint| <= |CRASH| {
        var m := [7, 3, 1, 0, 14, 11][h];
        assert hint[m] in {'u', 'v', 'c'};
        assert CRASH[i..i + |hint|][m] == CRASH[i + m] && CRASH[i + m] in CRASH;
        if h >= 4 && CRASH[i + m] == 'c' {
          CrashAfterC(i + m);
          assert hint[m + 1] == 'a' && CRASH[i..i + |hint|][m + 1] == CRASH[i + m + 1];
        }
      }
    }
  }

  lemma CrashFinds(key: string)
    requires key in {"a", "vram-7b"}
    ensures var req := CrashRequest(key);
            && ComesToLoad(req) && Found(req) == Entry(key, true, false, 0, 0) && Want(req) == 3768
            && KeyOf(req) == key && req.policy == Auto && req.est == 3000
            && ToVacate(req) == [Resident("b", 4096)]
  {
    var models := CrashRequest(key).models.value;
    assert Strip(key) == key by { assert !IsSpace(key[0]) && !IsSpace(key[|key| - 1]); }
    assert models[1..] == [Entry("b", true, true, 4096, 0)] && models[1..][1..] == [];
    assert FirstWhere(models, (m: Entry) => m.key == key) == Some(models[0]);
    assert Residents(models[1..]) == [Resident("b", 4096)];
  }

  lemma CrashProbe(key: string, probe: LoadReply, refused: nat)
    requires key in {"a", "vram-7b"}
    ensures var w, s := CrashWorld(probe, refused), Server(map["b" := 4096], []);
            var crashed := AfterLoad(w, s, key, 3768, Requested).0;
            && crashed == Server(map["b" := 4096], [Load(key, 3768, Requested, Some(CRASH))])
            && ProbeIn(w, map["b" := 4096], CrashRequest(key)) == Some(Probed(w, crashed, key))
  {
    CrashFinds(key);
    CrashIsAmbiguous();
    hide LooksMemory, LooksCrash, CRASH, CrashRequest, Probed;
    var w, s := CrashWorld(probe, refused), Server(map["b" := 4096], []);
    assert [] + [Load(key, 3768, Requested, Some(CRASH))] == [Load(key, 3768, Requested, Some(CRASH))];
  }

  /** The model also fails at the floor window, which the module says is returned as it is with nothing
      unloaded; the server's words for it mention memory, and `b` is unloaded. */
  lemma UnloadedAfterProbeFailed()
    ensures var w, req := CrashWorld(LoadErr("out of memory", None), 9), CrashRequest("a");
            var p, run := ProbeIn(w, map["b" := 4096], req), Decided(w, Server(map["b" := 4096], []), req);
            p.Some? && !p.value.proven && UnloadTried(run.server.log, "b")
  {
    var w, req, loaded := CrashWorld(LoadErr("out of memory", None), 9), CrashRequest("a"), map["b" := 4096];
    CrashFinds("a");
    CrashProbe("a", LoadErr("out of memory", None), 9);
    OutOfMemoryIsMemory();
    hide LooksMemory, CrashRequest, Decided, UnloadTried;
    UnloadAfterProbeExactly(w, loaded, req);
  }

  /** The model loads at the floor window but a chat is on it, so it cannot be freed again; nobody
      mentioned memory but the model's own key, and `b` is unloaded. */
  lemma UnloadedOnTheKeysWord()
    ensures var w, req := CrashWorld(LoadOk, 2), CrashRequest("vram-7b");
            var p, run := ProbeIn(w, map["b" := 4096], req), Decided(w, Server(map["b" := 4096], []), req);
            p.Some? && !p.value.proven && UnloadTried(run.server.log, "b")
  {
    var w, req, loaded := CrashWorld(LoadOk, 2), CrashRequest("vram-7b"), map["b" := 4096];
    CrashFinds("vram-7b");
    CrashProbe("vram-7b", LoadOk, 2);
    KeyMentionsMemory();
    RefusalSpeaksOfTheKey("vram-7b");
    hide LooksMemory, CrashRequest, Decided, UnloadTried, REFUSAL;
    UnloadAfterProbeExactly(w, loaded, req);
  }

  lemma KeyMentionsMemory()
    ensures LooksMemory("vram-7b")
  {
    LowerAlready("vram-7b");
    assert OccursAt(MEMORY_HINTS[3], "vram-7b", 0);
  }
}
