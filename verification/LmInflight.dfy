/** The in-process protocol of `lmstudio.py` that keeps an unload and a chat off the same
    model: in-flight counts, POSTs that outlive their caller, and unload claims. */
module LmInflight {
  import opened Text

  /** The three module-level tables. A key with no count has no entry. */
  datatype Tables = Tables(inflight: map<string, nat>, generating: map<string, nat>, unloading: set<string>)

  function Count(m: map<string, nat>, key: string): nat {
    if key in m then m[key] else 0
  }

  function Increment(m: map<string, nat>, key: string): map<string, nat> {
    m[key := Count(m, key) + 1]
  }

  function Decrement(m: map<string, nat>, key: string): map<string, nat> {
    if Count(m, key) > 1 then m[key := Count(m, key) - 1] else m - {key}
  }

  predicate Busy(t: Tables, key: string) {
    Count(t.inflight, key) > 0 || Count(t.generating, key) > 0
  }

  function AddChat(t: Tables, key: string): Tables {
    if key in t.unloading then t else t.(inflight := Increment(t.inflight, key))
  }

  function Claim(t: Tables, key: string): Tables {
    if Busy(t, key) then t else t.(unloading := t.unloading + {key})
  }

  /** The module state, updated in place; each method body is one critical section. */
  class Lifecycle {
    var inflight: map<string, nat>
    var generating: map<string, nat>
    var unloading: set<string>

    constructor ()
      ensures Now() == Tables(map[], map[], {})
    {
      inflight, generating, unloading := map[], map[], {};
    }

    function Now(): Tables
      reads this
    {
      Tables(inflight, generating, unloading)
    }

    /** `_inflight_add` */
    method InflightAdd(key: string) returns (counted: bool)
      modifies this
      ensures counted == (key !in old(unloading)) && Now() == AddChat(old(Now()), key)
    {
      if key in unloading {
        return false;
      }
      inflight := inflight[key := (if key in inflight then inflight[key] else 0) + 1];
      return true;
    }

    /** `_inflight_done` */
    method InflightDone(key: string)
      modifies this
      ensures Now() == old(Now()).(inflight := Decrement(old(inflight), key))
    {
      var n: int := Count(inflight, key);
      n := n - 1;
      if n > 0 {
        inflight := inflight[key := n];
      } else {
        inflight := inflight - {key};
      }
    }

    /** Entry of `_generating` */
    method EnterGenerating(key: string)
      modifies this
      ensures Now() == old(Now()).(generating := Increment(old(generating), key))
    {
      generating := generating[key := (if key in generating then generating[key] else 0) + 1];
    }

    /** Exit of `_generating` */
    method LeaveGenerating(key: string)
      modifies this
      ensures Now() == old(Now()).(generating := Decrement(old(generating), key))
    {
      var left: int := Count(generating, key);
      left := left - 1;
      if left > 0 {
        generating := generating[key := left];
      } else {
        generating := generating - {key};
      }
    }

    /** Entry of `_unload_claim` */
    method ClaimUnload(key: string) returns (claimed: bool)
      modifies this
      ensures claimed == !Busy(old(Now()), key) && Now() == Claim(old(Now()), key)
    {
      claimed := (key !in inflight || inflight[key] == 0) && (key !in generating || generating[key] == 0);
      if claimed {
        unloading := unloading + {key};
      }
    }

    /** Exit of `_unload_claim`, taken only when the claim succeeded */
    method ReleaseUnload(key: string)
      modifies this
      ensures Now() == old(Now()).(unloading := old(unloading) - {key})
    {
      unloading := unloading - {key};
    }
  }

  // --- actors and their interleavings ---------------------------------------------------

  /** A counted chat or an open POST. `verified`: the pre-send re-check saw the model loaded. */
  datatype Slot = Slot(key: string, verified: bool)

  /** The tables together with every actor they stand for. `loaded` is what the server holds;
      `holder` owns the load lock; `unloads` maps a claiming thread to the key it claimed. */
  datatype System = System(tables: Tables, chats: map<nat, Slot>, posts: map<nat, Slot>,
                           unloads: map<nat, string>, holder: Option<nat>, loaded: set<string>)

  datatype Step =
    | StartChat(chat: nat, key: string)
    | Recheck(chat: nat)
    | OpenPost(post: nat, chat: nat)
    | ClosePost(post: nat)
    | EndChat(chat: nat)
    | TakeLock(thread: nat)
    | DropLock(thread: nat)
    | BeginUnload(thread: nat, key: string)
    | Evict(thread: nat)
    | EndUnload(thread: nat)
    | Load(thread: nat, key: string)

  /** When a step can be taken. A worker opens its POST while its caller is still counted. */
  predicate Enabled(s: System, step: Step) {
    match step
    case StartChat(c, _) => c !in s.chats
    case Recheck(c) => c in s.chats && s.chats[c].key in s.loaded
    case OpenPost(p, c) => p !in s.posts && c in s.chats
    case ClosePost(p) => p in s.posts
    case EndChat(c) => c in s.chats
    case TakeLock(_) => s.holder == None
    case DropLock(t) => s.holder == Some(t) && t !in s.unloads
    case BeginUnload(t, _) => s.holder == Some(t) && t !in s.unloads
    case Evict(t) => t in s.unloads
    case EndUnload(t) => t in s.unloads
    case Load(t, _) => s.holder == Some(t)
  }

  function Next(s: System, step: Step): System
    requires Enabled(s, step)
  {
    var t := s.tables;
    match step
    case StartChat(c, key) =>
      if key in t.unloading then s
      else s.(tables := AddChat(t, key), chats := s.chats[c := Slot(key, false)])
    case Recheck(c) => s.(chats := s.chats[c := s.chats[c].(verified := true)])
    case OpenPost(p, c) =>
      s.(tables := t.(generating := Increment(t.generating, s.chats[c].key)), posts := s.posts[p := s.chats[c]])
    case ClosePost(p) =>
      s.(tables := t.(generating := Decrement(t.generating, s.posts[p].key)), posts := s.posts - {p})
    case EndChat(c) =>
      s.(tables := t.(inflight := Decrement(t.inflight, s.chats[c].key)), chats := s.chats - {c})
    case TakeLock(u) => s.(holder := Some(u))
    case DropLock(_) => s.(holder := None)
    case BeginUnload(u, key) =>
      if Busy(t, key) then s
      else s.(tables := Claim(t, key), unloads := s.unloads[u := key])
    case Evict(u) => s.(loaded := s.loaded - {s.unloads[u]})
    case EndUnload(u) =>
      s.(tables := t.(unloading := t.unloading - {s.unloads[u]}), unloads := s.unloads - {u})
    case Load(_, key) => s.(loaded := s.loaded + {key})
  }

  function Initial(loaded: set<string>): System {
    System(Tables(map[], map[], {}), map[], map[], map[], None, loaded)
  }

  /** `trace` is a run: it starts initial and every state follows from the last by a step. */
  ghost predicate IsRun(trace: seq<System>, steps: seq<Step>) {
    && |trace| == |steps| + 1
    && trace[0] == Initial(trace[0].loaded)
    && forall i :: 0 <= i < |steps| ==> Enabled(trace[i], steps[i]) && trace[i + 1] == Next(trace[i], steps[i])
  }

  // --- the invariant ----------------------------------------------------------------------

  function On(slots: map<nat, Slot>, key: string): set<nat> {
    set i | i in slots && slots[i].key == key
  }

  /** The table counts exactly the actors, and holds no zero entries. */
  ghost predicate Counts(m: map<string, nat>, slots: map<nat, Slot>) {
    (forall key :: Count(m, key) == |On(slots, key)|) && (forall key :: key in m ==> m[key] > 0)
  }

  /** No unload is in progress on a model a chat counts in flight or a POST is open on, and
      no verified chat or POST has lost its model. */
  ghost predicate Safe(s: System) {
    && (forall c :: c in s.chats ==> s.chats[c].key !in s.tables.unloading)
    && (forall p :: p in s.posts ==> s.posts[p].key !in s.tables.unloading)
    && (forall c :: c in s.chats && s.chats[c].verified ==> s.chats[c].key in s.loaded)
    && (forall p :: p in s.posts && s.posts[p].verified ==> s.posts[p].key in s.loaded)
  }

  ghost predicate Inv(s: System) {
    && Counts(s.tables.inflight, s.chats)
    && Counts(s.tables.generating, s.posts)
    && (forall u :: u in s.unloads ==> s.holder == Some(u) && s.unloads[u] in s.tables.unloading)
    && (forall key :: key in s.tables.unloading ==> exists u :: u in s.unloads && s.unloads[u] == key)
    && Safe(s)
  }

  lemma IncrementCounts(m: map<string, nat>, slots: map<nat, Slot>, i: nat, slot: Slot)
    requires Counts(m, slots) && i !in slots
    ensures Counts(Increment(m, slot.key), slots[i := slot])
  {
    forall key ensures Count(Increment(m, slot.key), key) == |On(slots[i := slot], key)| {
      OnAdded(slots, i, slot, key);
    }
  }

  lemma OnAdded(slots: map<nat, Slot>, i: nat, slot: Slot, key: string)
    requires i !in slots
    ensures |On(slots[i := slot], key)| == |On(slots, key)| + (if key == slot.key then 1 else 0)
  {
    assert On(slots[i := slot], key) == On(slots, key) + (if key == slot.key then {i} else {});
  }

  lemma DecrementCounts(m: map<string, nat>, slots: map<nat, Slot>, i: nat)
    requires Counts(m, slots) && i in slots
    ensures Counts(Decrement(m, slots[i].key), slots - {i})
  {
    var k := slots[i].key;
    forall key ensures Count(Decrement(m, k), key) == |On(slots - {i}, key)| {
      if key == k {
        assert On(slots - {i}, key) == On(slots, key) - {i};
      } else {
        assert On(slots - {i}, key) == On(slots, key);
      }
    }
  }

  /** Marking a chat verified does not move any count. */
  lemma VerifyCounts(m: map<string, nat>, slots: map<nat, Slot>, i: nat)
    requires Counts(m, slots) && i in slots
    ensures Counts(m, slots[i := slots[i].(verified := true)])
  {
    forall key ensures On(slots[i := slots[i].(verified := true)], key) == On(slots, key) {
    }
  }

  /** An actor on `key` makes the key busy. */
  lemma ActorIsBusy(m: map<string, nat>, slots: map<nat, Slot>, i: nat)
    requires Counts(m, slots) && i in slots
    ensures Count(m, slots[i].key) > 0
  {
    assert i in On(slots, slots[i].key);
  }

  lemma StepKeepsInv(s: System, step: Step)
    requires Inv(s) && Enabled(s, step)
    ensures Inv(Next(s, step))
  {
    var n := Next(s, step);
    match step
    case StartChat(c, key) =>
      if key !in s.tables.unloading {
        IncrementCounts(s.tables.inflight, s.chats, c, Slot(key, false));
      }
    case Recheck(c) => VerifyCounts(s.tables.inflight, s.chats, c);
    case OpenPost(p, c) => IncrementCounts(s.tables.generating, s.posts, p, s.chats[c]);
    case ClosePost(p) => DecrementCounts(s.tables.generating, s.posts, p);
    case EndChat(c) => DecrementCounts(s.tables.inflight, s.chats, c);
    case BeginUnload(u, key) => ClaimKeepsInv(s, u, key);
    case Evict(u) =>
    case EndUnload(u) =>
      assert forall v :: v in s.unloads ==> v == u;
    case TakeLock(_) =>
    case DropLock(_) =>
    case Load(_, _) =>
  }

  lemma ClaimKeepsInv(s: System, u: nat, key: string)
    requires Inv(s) && s.holder == Some(u) && u !in s.unloads
    ensures Inv(Next(s, BeginUnload(u, key)))
  {
    if !Busy(s.tables, key) {
      var n := Next(s, BeginUnload(u, key));
      forall c | c in s.chats ensures s.chats[c].key != key {
        ActorIsBusy(s.tables.inflight, s.chats, c);
      }
      forall p | p in s.posts ensures s.posts[p].key != key {
        ActorIsBusy(s.tables.generating, s.posts, p);
      }
      // The lock holder has no claim yet, and nobody else can have one.
      assert s.tables.unloading == {};
      assert n.unloads[u] == key;
    }
  }

  /** Every state of every run is safe, and the tables count exactly the chats and POSTs there are. */
  lemma {:induction false} EveryRunIsSafe(trace: seq<System>, steps: seq<Step>, i: nat)
    requires IsRun(trace, steps) && i < |trace|
    ensures Inv(trace[i])
    ensures Safe(trace[i])
    ensures Counts(trace[i].tables.inflight, trace[i].chats) && Counts(trace[i].tables.generating, trace[i].posts)
  {
    if i > 0 {
      EveryRunIsSafe(trace, steps, i - 1);
      StepKeepsInv(trace[i - 1], steps[i - 1]);
    }
  }

  /** The window from the pre-send re-check to the end of the POST: while chat `c` is counted
      from state `i` and its POST `p` is open until state `j`, no in-process unload of that
      model is in progress or starts, and a model seen by the re-check is still there. */
  lemma NoUnloadDuringSend(trace: seq<System>, steps: seq<Step>, c: nat, p: nat, slot: Slot,
                           i: nat, k: nat, j: nat)
    requires IsRun(trace, steps) && i <= k <= j < |trace|
    requires forall t :: i <= t < k ==> c in trace[t].chats && trace[t].chats[c] == slot
    requires forall t :: k <= t <= j ==> p in trace[t].posts && trace[t].posts[p] == slot
    ensures forall t :: i <= t <= j ==> slot.key !in trace[t].tables.unloading
    ensures slot.verified ==> forall t :: i <= t <= j ==> slot.key in trace[t].loaded
    ensures forall t, u :: i <= t < j && t < |steps| && steps[t] == BeginUnload(u, slot.key) ==>
      trace[t + 1] == trace[t]
  {
    forall t | i <= t <= j ensures Inv(trace[t]) {
      EveryRunIsSafe(trace, steps, t);
    }
    forall t, u | i <= t < j && t < |steps| && steps[t] == BeginUnload(u, slot.key)
      ensures trace[t + 1] == trace[t]
    {
      if t < k {
        ActorIsBusy(trace[t].tables.inflight, trace[t].chats, c);
      } else {
        ActorIsBusy(trace[t].tables.generating, trace[t].posts, p);
      }
    }
  }

  // --- the assumption on workers is needed --------------------------------------------------

  /** A worker that enters `_generating` after its caller's count was dropped; `slot` is what
      its chat was: the model, and whether the re-check saw it loaded. */
  function OpenLate(s: System, post: nat, slot: Slot): System {
    s.(tables := s.tables.(generating := Increment(s.tables.generating, slot.key)), posts := s.posts[post := slot])
  }

  /** A late worker keeps the protocol safe exactly when no unload of its model is under way and
      a model the re-check saw loaded is still there. */
  lemma LateWorkerCondition(s: System, post: nat, slot: Slot)
    requires Inv(s) && post !in s.posts
    ensures Inv(OpenLate(s, post, slot)) <==>
      slot.key !in s.tables.unloading && (slot.verified ==> slot.key in s.loaded)
  {
    IncrementCounts(s.tables.generating, s.posts, post, slot);
    assert OpenLate(s, post, slot).posts[post] == slot;
  }

  /** Some state of the run had this very chat, and at its end the chat is over and its worker
      has yet to open the POST. */
  ghost predicate LeavesWorker(trace: seq<System>, steps: seq<Step>, c: nat, slot: Slot) {
    && IsRun(trace, steps)
    && (exists i :: 0 <= i < |trace| && c in trace[i].chats && trace[i].chats[c] == slot)
    && c !in trace[|trace| - 1].chats && trace[|trace| - 1].posts == map[]
  }

  lemma Extended(trace: seq<System>, steps: seq<Step>, step: Step) returns (more: seq<System>, taken: seq<Step>)
    requires IsRun(trace, steps) && |trace| > 0 && Enabled(trace[|trace| - 1], step)
    ensures IsRun(more, taken) && more == trace + [Next(trace[|trace| - 1], step)]
  {
    more, taken := trace + [Next(trace[|trace| - 1], step)], steps + [step];
  }

  /** A chat passes the re-check and ends; then an unload claims its model. */
  lemma ClaimAfterChat(key: string) returns (trace: seq<System>, steps: seq<Step>)
    ensures IsRun(trace, steps) && |trace| == 6
    ensures trace[2].chats == map[0 := Slot(key, true)]
    ensures trace[5] == System(Tables(map[], map[], {key}), map[], map[], map[1 := key], Some(1), {key})
  {
    hide IsRun;
    trace, steps := [Initial({key})], [];
    StartsRun(Initial({key}));
    trace, steps := Extended(trace, steps, StartChat(0, key));
    trace, steps := Extended(trace, steps, Recheck(0));
    trace, steps := Extended(trace, steps, EndChat(0));
    trace, steps := Extended(trace, steps, TakeLock(1));
    trace, steps := Extended(trace, steps, BeginUnload(1, key));
  }

  lemma StartsRun(s: System)
    requires s == Initial(s.loaded)
    ensures IsRun([s], [])
  {
  }

  /** The first failure: the chat ends, an unload claims the model, and during it the worker
      opens its POST. */
  lemma LateWorkerMeetsUnload(key: string)
    ensures exists trace: seq<System>, steps: seq<Step>, slot: Slot ::
      LeavesWorker(trace, steps, 0, slot) && slot.key == key &&
      key in trace[|trace| - 1].tables.unloading && !Safe(OpenLate(trace[|trace| - 1], 0, slot))
  {
    hide IsRun;
    var trace, steps := ClaimAfterChat(key);
    var slot := Slot(key, true);
    assert LeavesWorker(trace, steps, 0, slot);
    assert OpenLate(trace[5], 0, slot).posts[0] == slot;
  }

  /** The second: the unload is over too, nothing is being unloaded any more, and the worker
      sends to a model its chat had seen loaded but that is gone. */
  lemma LateWorkerFindsModelGone(key: string)
    ensures exists trace: seq<System>, steps: seq<Step>, slot: Slot ::
      LeavesWorker(trace, steps, 0, slot) && slot == Slot(key, true) &&
      key !in trace[|trace| - 1].tables.unloading && key !in trace[|trace| - 1].loaded &&
      !Safe(OpenLate(trace[|trace| - 1], 0, slot))
  {
    hide IsRun;
    var trace, steps := ClaimAfterChat(key);
    var slot := Slot(key, true);
    trace, steps := Extended(trace, steps, Evict(1));
    trace, steps := Extended(trace, steps, EndUnload(1));
    assert trace[2].chats[0] == slot;
    assert LeavesWorker(trace, steps, 0, slot);
    assert OpenLate(trace[7], 0, slot).posts[0] == slot;
  }
}
