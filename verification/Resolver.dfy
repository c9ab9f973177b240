/** The budgeted packer of `resolver.py`: many path specs become one bundle, with an account of
    every spec that did not make it. */
module Resolver {
  import opened Text
  import opened Bytes
  import LineBreaks
  import SafeFs

  datatype Range = Range(first: nat, last: nat)

  /** `safe_fs.Resolved`; no range stands for the whole file. */
  datatype Located = Located(absPath: string, relPath: string, range: Option<Range>)

  datatype Reason = BudgetExhausted | MaxFiles | Rejected(why: string)

  datatype Resolution = Found(at: Located) | Refused(why: string)

  datatype Reading = Content(text: string) | Unreadable(why: string)

  /** One call of `pack`. What the file system answers is arbitrary, call by call. */
  datatype Job = Job(
    specs: seq<string>,
    resolve: (nat, string) -> Resolution,
    read: (nat, Located) -> Reading,
    maxChars: int,
    maxFiles: int)

  datatype Item = Item(idx: nat, at: Located, spec: string)

  datatype Block = Block(item: Item, text: string)

  /** `idx` is bookkeeping of the model; the source reports only the spec and the reason. */
  datatype Skip = Skip(idx: nat, spec: string, reason: Reason)

  datatype State = State(admitted: seq<Block>, skipped: seq<Skip>, total: nat, stopped: bool)

  datatype PackResult = PackResult(bundle: string, included: seq<Block>, skipped: seq<Skip>, complete: bool, chars: nat)

  /** ASCII bytes as characters. */
  function AsText(bs: seq<byte>): string {
    seq(|bs|, i requires 0 <= i < |bs| => bs[i] as char)
  }

  function Label(at: Located): string {
    match at.range
    case None => at.relPath
    case Some(r) => at.relPath + ":" + AsText(Decimal(r.first)) + "-" + AsText(Decimal(r.last))
  }

  function Framed(at: Located, content: string): string {
    "=== " + Label(at) + " ===\n" + content
  }

  // --- resolving and deduplicating -----------------------------------------------------------

  function SpecAt(job: Job, i: nat): string
    requires i < |job.specs|
  {
    Strip(job.specs[i])
  }

  function ResolutionAt(job: Job, i: nat): Resolution
    requires i < |job.specs|
  {
    job.resolve(i, SpecAt(job, i))
  }

  function ItemAt(job: Job, i: nat): Item
    requires i < |job.specs| && ResolutionAt(job, i).Found?
  {
    Item(i, ResolutionAt(job, i).at, SpecAt(job, i))
  }

  function ItemsTo(job: Job, n: nat): seq<Item>
    requires n <= |job.specs|
  {
    if n == 0 then []
    else ItemsTo(job, n - 1) + (if ResolutionAt(job, n - 1).Found? then [ItemAt(job, n - 1)] else [])
  }

  function RefusedTo(job: Job, n: nat): seq<Skip>
    requires n <= |job.specs|
  {
    if n == 0 then []
    else
      RefusedTo(job, n - 1) +
      match ResolutionAt(job, n - 1)
      case Found(_) => []
      case Refused(why) => [Skip(n - 1, SpecAt(job, n - 1), Rejected(why))]
  }

  predicate SameTarget(a: Located, b: Located) {
    a.absPath == b.absPath && a.range == b.range
  }

  ghost predicate IsFirst(items: seq<Item>, k: nat)
    requires k < |items|
  {
    forall j :: 0 <= j < k ==> !SameTarget(items[j].at, items[k].at)
  }

  function Wholes(items: seq<Item>): (w: set<string>)
    ensures forall p :: p in w <==>
      exists j :: 0 <= j < |items| && items[j].at.range == None && items[j].at.absPath == p
  {
    set j | 0 <= j < |items| && items[j].at.range == None :: items[j].at.absPath
  }

  predicate HeldBack(item: Item, whole: set<string>) {
    item.at.range.Some? && item.at.absPath in whole
  }

  ghost function Kept(items: seq<Item>, whole: set<string>): seq<Item> {
    if items == [] then []
    else
      var n := |items| - 1;
      Kept(items[..n], whole) +
      if IsFirst(items, n) && !HeldBack(items[n], whole) then [items[n]] else []
  }

  ghost function Held(items: seq<Item>, whole: set<string>, path: string): seq<Item> {
    if items == [] then []
    else
      var n := |items| - 1;
      Held(items[..n], whole, path) +
      if IsFirst(items, n) && HeldBack(items[n], whole) && items[n].at.absPath == path then [items[n]] else []
  }

  function RangesOf(items: seq<Item>): seq<Item> {
    if items == [] then []
    else
      var n := |items| - 1;
      RangesOf(items[..n]) + if items[n].at.range.Some? then [items[n]] else []
  }

  function WholesOf(items: seq<Item>): seq<Item> {
    if items == [] then []
    else
      var n := |items| - 1;
      WholesOf(items[..n]) + if items[n].at.range.None? then [items[n]] else []
  }

  /** Admission priority: ranges before whole files, ties by input position. */
  function Order(kept: seq<Item>): seq<Item> {
    RangesOf(kept) + WholesOf(kept)
  }

  // --- admission ---------------------------------------------------------------------------------

  datatype Attempt = Attempt(state: State, failed: Option<Reason>)

  /** `admit` */
  function Admit(job: Job, s: State, item: Item): Attempt {
    if s.stopped then Attempt(s, Some(BudgetExhausted))
    else if |s.admitted| >= job.maxFiles then Attempt(s, Some(MaxFiles))
    else
      match job.read(item.idx, item.at)
      case Unreadable(why) => Attempt(s, Some(Rejected(why)))
      case Content(content) =>
        var text := Framed(item.at, content);
        if s.total + |text| > job.maxChars then Attempt(s, Some(BudgetExhausted))
        else Attempt(s.(admitted := s.admitted + [Block(item, text)], total := s.total + |text|), None)
  }

  function Skipping(s: State, item: Item, reason: Reason): State {
    s.(skipped := s.skipped + [Skip(item.idx, item.spec, reason)])
  }

  function Stopping(s: State, reason: Reason): State {
    s.(stopped := s.stopped || reason == BudgetExhausted)
  }

  function TryHeldOne(job: Job, s: State, item: Item): State {
    var a := Admit(job, s, item);
    match a.failed
    case None => a.state
    case Some(reason) => Stopping(Skipping(a.state, item, reason), reason)
  }

  function TryHeld(job: Job, s: State, held: seq<Item>): State {
    if held == [] then s
    else TryHeldOne(job, TryHeld(job, s, held[..|held| - 1]), held[|held| - 1])
  }

  /** One round of the admission loop; a file that is not admitted hands off to its ranges. */
  function Place(job: Job, s: State, item: Item, held: seq<Item>): State {
    var a := Admit(job, s, item);
    match a.failed
    case None => a.state
    case Some(reason) => Stopping(TryHeld(job, Skipping(a.state, item, reason), held), reason)
  }

  ghost function HeldIn(items: seq<Item>, path: string): seq<Item> {
    Held(items, Wholes(items), path)
  }

  ghost function Run(job: Job, s: State, items: seq<Item>, order: seq<Item>): State {
    if order == [] then s
    else
      var n := |order| - 1;
      Place(job, Run(job, s, items, order[..n]), order[n], HeldIn(items, order[n].at.absPath))
  }

  ghost function Items(job: Job): seq<Item> {
    ItemsTo(job, |job.specs|)
  }

  ghost function Queue(job: Job): seq<Item> {
    Order(Kept(Items(job), Wholes(Items(job))))
  }

  function Start(job: Job): State {
    State([], RefusedTo(job, |job.specs|), 0, false)
  }

  /** The state after the whole admission loop. */
  ghost function Final(job: Job): State {
    Run(job, Start(job), Items(job), Queue(job))
  }

  // --- counting occurrences of an input position ----------------------------------------------------

  function Times(items: seq<Item>, i: nat): nat {
    if items == [] then 0
    else Times(items[..|items| - 1], i) + (if items[|items| - 1].idx == i then 1 else 0)
  }

  function Included(blocks: seq<Block>, i: nat): nat {
    if blocks == [] then 0
    else Included(blocks[..|blocks| - 1], i) + (if blocks[|blocks| - 1].item.idx == i then 1 else 0)
  }

  function Skipped(skips: seq<Skip>, i: nat): nat {
    if skips == [] then 0
    else Skipped(skips[..|skips| - 1], i) + (if skips[|skips| - 1].idx == i then 1 else 0)
  }

  function Tally(s: State, i: nat): nat {
    Included(s.admitted, i) + Skipped(s.skipped, i)
  }

  lemma TimesSnoc(items: seq<Item>, x: Item, i: nat)
    ensures Times(items + [x], i) == Times(items, i) + (if x.idx == i then 1 else 0)
  {
    assert (items + [x])[..|items|] == items;
  }

  lemma SkippedSnoc(skips: seq<Skip>, x: Skip, i: nat)
    ensures Skipped(skips + [x], i) == Skipped(skips, i) + (if x.idx == i then 1 else 0)
  {
    assert (skips + [x])[..|skips|] == skips;
  }

  lemma IncludedSnoc(blocks: seq<Block>, x: Block, i: nat)
    ensures Included(blocks + [x], i) == Included(blocks, i) + (if x.item.idx == i then 1 else 0)
  {
    assert (blocks + [x])[..|blocks|] == blocks;
  }

  lemma {:induction false} TimesAppend(a: seq<Item>, b: seq<Item>, i: nat)
    ensures Times(a + b, i) == Times(a, i) + Times(b, i)
  {
    if b == [] {
      assert a + b == a;
    } else {
      var n := |b| - 1;
      assert a + b == (a + b[..n]) + [b[n]];
      TimesAppend(a, b[..n], i);
      TimesSnoc(a + b[..n], b[n], i);
    }
  }

  lemma {:induction false} TimesOfMember(items: seq<Item>, x: Item)
    requires x in items
    ensures Times(items, x.idx) > 0
  {
    var n := |items| - 1;
    if x != items[n] {
      var j :| 0 <= j < n && items[j] == x;
      assert items[..n][j] == x;
      TimesOfMember(items[..n], x);
    }
  }

  lemma AdmitTally(job: Job, s: State, item: Item, i: nat)
    ensures var a := Admit(job, s, item);
            && a.state.skipped == s.skipped
            && Included(a.state.admitted, i)
               == Included(s.admitted, i) + (if a.failed == None && item.idx == i then 1 else 0)
  {
    var a := Admit(job, s, item);
    if a.failed == None {
      IncludedSnoc(s.admitted, a.state.admitted[|s.admitted|], i);
    }
  }

  lemma SkippingTally(s: State, item: Item, reason: Reason, i: nat)
    ensures Skipped(Skipping(s, item, reason).skipped, i) == Skipped(s.skipped, i) + (if item.idx == i then 1 else 0)
  {
    SkippedSnoc(s.skipped, Skip(item.idx, item.spec, reason), i);
  }

  /** What one step may do to the account of position `i`. */
  ghost predicate Grows(s: State, t: State, i: nat, more: nat) {
    && Included(s.admitted, i) <= Included(t.admitted, i)
    && Skipped(s.skipped, i) <= Skipped(t.skipped, i)
    && Tally(t, i) == Tally(s, i) + more
  }

  lemma {:induction false} TryHeldTally(job: Job, s: State, held: seq<Item>, i: nat)
    ensures Grows(s, TryHeld(job, s, held), i, Times(held, i))
  {
    hide Included, Skipped, Admit;
    if held != [] {
      var n := |held| - 1;
      TryHeldTally(job, s, held[..n], i);
      var t := TryHeld(job, s, held[..n]);
      var a := Admit(job, t, held[n]);
      AdmitTally(job, t, held[n], i);
      if a.failed.Some? {
        SkippingTally(a.state, held[n], a.failed.value, i);
      }
    }
  }

  lemma PlaceTally(job: Job, s: State, item: Item, held: seq<Item>, i: nat)
    ensures Grows(s, Place(job, s, item, held), i,
                  (if item.idx == i then 1 else 0) + (if Admit(job, s, item).failed == None then 0 else Times(held, i)))
  {
    hide Included, Skipped, Admit, TryHeld, Times;
    var a := Admit(job, s, item);
    AdmitTally(job, s, item, i);
    if a.failed.Some? {
      SkippingTally(a.state, item, a.failed.value, i);
      TryHeldTally(job, Skipping(a.state, item, a.failed.value), held, i);
    }
  }

  /** A position that is in no held list is settled exactly as often as it is queued. */
  lemma {:induction false} RunTally(job: Job, s: State, items: seq<Item>, order: seq<Item>, i: nat)
    requires forall p :: Times(HeldIn(items, p), i) == 0
    ensures Grows(s, Run(job, s, items, order), i, Times(order, i))
  {
    hide Included, Skipped, Place, HeldIn, Admit;
    if order != [] {
      var n := |order| - 1;
      RunTally(job, s, items, order[..n], i);
      PlaceTally(job, Run(job, s, items, order[..n]), order[n], HeldIn(items, order[n].at.absPath), i);
    }
  }

  /** A position held under the file `x` is settled once if `x` was tried and failed, and not at
      all if `x` was admitted. */
  lemma {:induction false} RunTallyHeld(job: Job, s: State, items: seq<Item>, order: seq<Item>, x: Item, i: nat)
    requires forall p :: Times(HeldIn(items, p), i) == (if p == x.at.absPath then 1 else 0)
    requires forall p :: Times(HeldIn(items, p), x.idx) == 0
    requires Times(order, i) == 0 && Times(order, x.idx) <= 1
    requires forall y :: y in order && y.at.absPath == x.at.absPath ==> y == x
    requires Tally(s, x.idx) == 0
    ensures var t := Run(job, s, items, order);
            Tally(t, i) == Tally(s, i) + (if x in order && Included(t.admitted, x.idx) == 0 then 1 else 0)
  {
    hide Included, Skipped, Place, HeldIn, Admit;
    if order != [] {
      var n := |order| - 1;
      var before, y := order[..n], order[n];
      var t := Run(job, s, items, before);
      var held := HeldIn(items, y.at.absPath);
      assert order == before + [y];
      RunTallyHeld(job, s, items, before, x, i);
      RunTally(job, s, items, before, x.idx);
      RunTally(job, s, items, order, x.idx);
      PlaceTally(job, t, y, held, i);
      PlaceTally(job, t, y, held, x.idx);
      if y == x {
        if x in before {
          TimesOfMember(before, x);
        }
        PlaceSettles(job, t, x, held);
      } else if x in before {
        TimesOfMember(before, x);
      }
    }
  }

  /** The item a step is about ends up in the bundle exactly when its own attempt succeeds. */
  lemma PlaceSettles(job: Job, s: State, item: Item, held: seq<Item>)
    requires Tally(s, item.idx) == 0 && Times(held, item.idx) == 0
    ensures Included(Place(job, s, item, held).admitted, item.idx)
         == (if Admit(job, s, item).failed == None then 1 else 0)
  {
    hide Included, Skipped, Admit, TryHeld, Times;
    var a := Admit(job, s, item);
    AdmitTally(job, s, item, item.idx);
    if a.failed.Some? {
      SkippingTally(a.state, item, a.failed.value, item.idx);
      TryHeldTally(job, Skipping(a.state, item, a.failed.value), held, item.idx);
    }
  }

  // --- what resolving and deduplicating leave ---------------------------------------------------------

  lemma {:induction false} ItemsToTimes(job: Job, n: nat, i: nat)
    requires n <= |job.specs|
    ensures Times(ItemsTo(job, n), i) == (if i < n && ResolutionAt(job, i).Found? then 1 else 0)
  {
    hide ResolutionAt, SpecAt, Times;
    if n == 0 {
      NothingQueued(i);
    } else {
      ItemsToTimes(job, n - 1, i);
      var xs := ItemsTo(job, n - 1);
      assert xs + [] == xs;
      if ResolutionAt(job, n - 1).Found? {
        TimesSnoc(xs, ItemAt(job, n - 1), i);
      }
    }
  }

  lemma NothingQueued(i: nat)
    ensures Times([], i) == 0 && Included([], i) == 0 && Skipped([], i) == 0
  {
  }

  lemma {:induction false} RefusedToTimes(job: Job, n: nat, i: nat)
    requires n <= |job.specs|
    ensures Skipped(RefusedTo(job, n), i) == (if i < n && ResolutionAt(job, i).Refused? then 1 else 0)
  {
    hide ResolutionAt, SpecAt, Skipped;
    if n == 0 {
      NothingQueued(i);
    } else {
      RefusedToTimes(job, n - 1, i);
      var ss := RefusedTo(job, n - 1);
      assert ss + [] == ss;
      if ResolutionAt(job, n - 1).Refused? {
        SkippedSnoc(ss, Skip(n - 1, SpecAt(job, n - 1), Rejected(ResolutionAt(job, n - 1).why)), i);
      }
    }
  }

  lemma {:induction false} ItemsToHas(job: Job, n: nat, i: nat)
    requires i < n <= |job.specs| && ResolutionAt(job, i).Found?
    ensures ItemAt(job, i) in ItemsTo(job, n)
  {
    hide ResolutionAt, SpecAt;
    if i < n - 1 {
      ItemsToHas(job, n - 1, i);
    }
  }

  lemma ItemsToFacts(job: Job, n: nat, i: nat)
    requires n <= |job.specs|
    ensures Times(ItemsTo(job, n), i) == (if i < n && ResolutionAt(job, i).Found? then 1 else 0)
    ensures Skipped(RefusedTo(job, n), i) == (if i < n && ResolutionAt(job, i).Refused? then 1 else 0)
    ensures i < n && ResolutionAt(job, i).Found? ==> ItemAt(job, i) in ItemsTo(job, n)
  {
    hide ResolutionAt, SpecAt, Times, Skipped, RefusedTo;
    ItemsToTimes(job, n, i);
    RefusedToTimes(job, n, i);
    if i < n && ResolutionAt(job, i).Found? {
      ItemsToHas(job, n, i);
    }
  }

  ghost predicate Ascending(items: seq<Item>) {
    forall j, k :: 0 <= j < k < |items| ==> items[j].idx < items[k].idx
  }

  lemma {:induction false} ItemsToAscend(job: Job, n: nat)
    requires n <= |job.specs|
    ensures Ascending(ItemsTo(job, n))
    ensures forall k :: 0 <= k < |ItemsTo(job, n)| ==>
      ItemsTo(job, n)[k].idx < n && ResolutionAt(job, ItemsTo(job, n)[k].idx).Found?
      && ItemsTo(job, n)[k] == ItemAt(job, ItemsTo(job, n)[k].idx)
  {
    hide ResolutionAt, SpecAt;
    if n > 0 {
      ItemsToAscend(job, n - 1);
    }
  }

  ghost predicate IsKept(items: seq<Item>, whole: set<string>, k: nat)
    requires k < |items|
  {
    IsFirst(items, k) && !HeldBack(items[k], whole)
  }

  ghost predicate IsHeld(items: seq<Item>, whole: set<string>, path: string, k: nat)
    requires k < |items|
  {
    IsFirst(items, k) && HeldBack(items[k], whole) && items[k].at.absPath == path
  }

  lemma TimesSnocIf(xs: seq<Item>, x: Item, added: bool, i: nat)
    ensures Times(xs + (if added then [x] else []), i) == Times(xs, i) + (if added && x.idx == i then 1 else 0)
  {
    hide Times;
    if added {
      TimesSnoc(xs, x, i);
    } else {
      assert xs + [] == xs;
    }
  }

  lemma KeptStep(items: seq<Item>, whole: set<string>, i: nat)
    requires items != []
    ensures var n := |items| - 1;
            Times(Kept(items, whole), i)
            == Times(Kept(items[..n], whole), i) + (if IsKept(items, whole, n) && items[n].idx == i then 1 else 0)
  {
    hide Times, IsFirst, HeldBack;
    var n := |items| - 1;
    TimesSnocIf(Kept(items[..n], whole), items[n], IsKept(items, whole, n), i);
  }

  lemma HeldStep(items: seq<Item>, whole: set<string>, path: string, i: nat)
    requires items != []
    ensures var n := |items| - 1;
            Times(Held(items, whole, path), i)
            == Times(Held(items[..n], whole, path), i)
               + (if IsHeld(items, whole, path, n) && items[n].idx == i then 1 else 0)
  {
    hide Times, IsFirst, HeldBack;
    var n := |items| - 1;
    TimesSnocIf(Held(items[..n], whole, path), items[n], IsHeld(items, whole, path, n), i);
  }

  /** A position no item has is in neither list. */
  lemma {:induction false} DedupeNone(items: seq<Item>, whole: set<string>, path: string, i: nat)
    requires forall k :: 0 <= k < |items| ==> items[k].idx != i
    ensures Times(Kept(items, whole), i) == 0 && Times(Held(items, whole, path), i) == 0
  {
    hide Times, IsFirst, HeldBack, IsKept, IsHeld;
    if items == [] {
      NothingQueued(i);
    } else {
      DedupeNone(items[..|items| - 1], whole, path, i);
      KeptStep(items, whole, i);
      HeldStep(items, whole, path, i);
    }
  }

  lemma SameInPrefix(items: seq<Item>, whole: set<string>, path: string, n: nat, k: nat)
    requires k < n <= |items|
    ensures IsKept(items[..n], whole, k) == IsKept(items, whole, k)
    ensures IsHeld(items[..n], whole, path, k) == IsHeld(items, whole, path, k)
  {
    hide IsFirst, HeldBack;
    FirstInPrefix(items, n, k);
  }

  /** Each item is kept, held under its own file, or a duplicate. */
  lemma {:induction false} DedupeAt(items: seq<Item>, whole: set<string>, path: string, k: nat)
    requires Ascending(items) && k < |items|
    ensures Times(Kept(items, whole), items[k].idx) == (if IsKept(items, whole, k) then 1 else 0)
    ensures Times(Held(items, whole, path), items[k].idx) == (if IsHeld(items, whole, path, k) then 1 else 0)
  {
    hide Times, IsKept, IsHeld, Kept, Held;
    var n, i := |items| - 1, items[k].idx;
    KeptStep(items, whole, i);
    HeldStep(items, whole, path, i);
    if k == n {
      DedupeNone(items[..n], whole, path, i);
    } else {
      DedupeAt(items[..n], whole, path, k);
      SameInPrefix(items, whole, path, n, k);
    }
  }

  lemma {:induction false} AbsentWhenNone(items: seq<Item>, i: nat)
    requires Times(items, i) == 0
    ensures forall k :: 0 <= k < |items| ==> items[k].idx != i
  {
    forall k | 0 <= k < |items| ensures items[k].idx != i {
      if items[k].idx == i {
        TimesOfMember(items, items[k]);
      }
    }
  }

  /** Both together, for every position. */
  lemma DedupeTimes(items: seq<Item>, whole: set<string>, i: nat, path: string)
    requires Ascending(items)
    ensures Times(items, i) == 0 ==> Times(Kept(items, whole), i) == 0 && Times(Held(items, whole, path), i) == 0
    ensures forall k :: 0 <= k < |items| && items[k].idx == i ==>
      && Times(Kept(items, whole), i) == (if IsKept(items, whole, k) then 1 else 0)
      && Times(Held(items, whole, path), i) == (if IsHeld(items, whole, path, k) then 1 else 0)
  {
    hide Times, IsKept, IsHeld, Kept, Held;
    if Times(items, i) == 0 {
      AbsentWhenNone(items, i);
      DedupeNone(items, whole, path, i);
    }
    forall k | 0 <= k < |items| && items[k].idx == i
      ensures Times(Kept(items, whole), i) == (if IsKept(items, whole, k) then 1 else 0)
      ensures Times(Held(items, whole, path), i) == (if IsHeld(items, whole, path, k) then 1 else 0)
    {
      DedupeAt(items, whole, path, k);
    }
  }

  lemma FirstInPrefix(items: seq<Item>, n: nat, k: nat)
    requires k < n <= |items|
    ensures IsFirst(items, k) == IsFirst(items[..n], k)
  {
    assert forall j :: 0 <= j <= k ==> items[..n][j] == items[j];
  }

  lemma {:induction false} NotAmong(items: seq<Item>, i: nat)
    requires forall k :: 0 <= k < |items| ==> items[k].idx != i
    ensures Times(items, i) == 0
  {
    if items != [] {
      NotAmong(items[..|items| - 1], i);
    }
  }

  lemma {:induction false} KeptFrom(items: seq<Item>, whole: set<string>, y: Item)
    requires y in Kept(items, whole)
    ensures exists k :: 0 <= k < |items| && items[k] == y && IsFirst(items, k) && !HeldBack(y, whole)
  {
    hide HeldBack;
    var n := |items| - 1;
    if IsFirst(items, n) && !HeldBack(items[n], whole) && items[n] == y {
    } else {
      assert y in Kept(items[..n], whole);
      KeptFrom(items[..n], whole, y);
      var k :| 0 <= k < n && items[..n][k] == y && IsFirst(items[..n], k) && !HeldBack(y, whole);
      FirstInPrefix(items, n, k);
      assert items[k] == y && IsFirst(items, k);
    }
  }

  lemma {:induction false} KeptHas(items: seq<Item>, whole: set<string>, k: nat)
    requires k < |items| && IsFirst(items, k) && !HeldBack(items[k], whole)
    ensures items[k] in Kept(items, whole)
  {
    hide HeldBack, IsFirst;
    var n := |items| - 1;
    if k < n {
      FirstInPrefix(items, n, k);
      KeptHas(items[..n], whole, k);
    }
  }

  lemma PartsSnoc(kept: seq<Item>, x: Item)
    ensures RangesOf(kept + [x]) == if x.at.range.Some? then RangesOf(kept) + [x] else RangesOf(kept)
    ensures WholesOf(kept + [x]) == if x.at.range.None? then WholesOf(kept) + [x] else WholesOf(kept)
  {
    assert (kept + [x])[..|kept|] == kept;
  }

  lemma {:induction false} PartsPermute(kept: seq<Item>)
    ensures multiset(RangesOf(kept)) + multiset(WholesOf(kept)) == multiset(kept)
  {
    if kept != [] {
      var n := |kept| - 1;
      var before, x := kept[..n], kept[n];
      assert kept == before + [x];
      PartsPermute(before);
      PartsSnoc(before, x);
      var rs, ws := RangesOf(before), WholesOf(before);
      hide RangesOf, WholesOf;
      MultisetSnoc(before, x);
      if x.at.range.Some? {
        MultisetSnoc(rs, x);
      } else {
        MultisetSnoc(ws, x);
      }
    }
  }

  lemma MultisetSnoc<T>(xs: seq<T>, x: T)
    ensures multiset(xs + [x]) == multiset(xs) + multiset{x}
  {
  }

  lemma OrderPermutes(kept: seq<Item>)
    ensures multiset(Order(kept)) == multiset(kept)
  {
    PartsPermute(kept);
  }

  lemma {:induction false} OrderTimes(kept: seq<Item>, i: nat)
    ensures Times(Order(kept), i) == Times(kept, i)
  {
    TimesAppend(RangesOf(kept), WholesOf(kept), i);
    if kept != [] {
      var n := |kept| - 1;
      OrderTimes(kept[..n], i);
      TimesAppend(RangesOf(kept[..n]), WholesOf(kept[..n]), i);
      TimesAppend(RangesOf(kept[..n]), [kept[n]], i);
      TimesAppend(WholesOf(kept[..n]), [kept[n]], i);
      assert RangesOf(kept[..n]) + [] == RangesOf(kept[..n]);
      assert WholesOf(kept[..n]) + [] == WholesOf(kept[..n]);
      assert [kept[n]][..0] == [];
    }
  }

  lemma OrderMembers(kept: seq<Item>, y: Item)
    ensures y in Order(kept) <==> y in kept
  {
    OrderPermutes(kept);
    assert y in Order(kept) <==> y in multiset(Order(kept));
    assert y in kept <==> y in multiset(kept);
  }

  /** The first item with a given target. */
  lemma {:induction false} FirstTwin(items: seq<Item>, k: nat) returns (j: nat)
    requires k < |items|
    ensures j <= k && SameTarget(items[j].at, items[k].at) && IsFirst(items, j)
  {
    if IsFirst(items, k) {
      j := k;
    } else {
      var m :| 0 <= m < k && SameTarget(items[m].at, items[k].at);
      j := FirstTwin(items, m);
    }
  }

  // --- the account ------------------------------------------------------------------------------------

  /** An exact duplicate of an earlier spec. */
  ghost predicate Duplicate(job: Job, i: nat)
    requires i < |job.specs|
  {
    && ResolutionAt(job, i).Found?
    && exists j :: 0 <= j < i && ResolutionAt(job, j).Found?
                   && SameTarget(ResolutionAt(job, j).at, ResolutionAt(job, i).at)
  }

  /** A range (not itself a duplicate) of a whole file that was admitted. */
  ghost predicate Covered(job: Job, s: State, i: nat)
    requires i < |job.specs|
  {
    && ResolutionAt(job, i).Found?
    && ResolutionAt(job, i).at.range.Some?
    && !Duplicate(job, i)
    && exists j :: 0 <= j < |job.specs| && WholeOf(job, j, ResolutionAt(job, i).at.absPath)
                   && Included(s.admitted, j) > 0
  }

  predicate WholeOf(job: Job, j: nat, path: string)
    requires j < |job.specs|
  {
    ResolutionAt(job, j).Found? && ResolutionAt(job, j).at.range.None? && ResolutionAt(job, j).at.absPath == path
  }

  lemma DuplicateIsNotFirst(job: Job, k: nat)
    requires k < |Items(job)|
    ensures Items(job)[k].idx < |job.specs| && (Duplicate(job, Items(job)[k].idx) <==> !IsFirst(Items(job), k))
  {
    var items := Items(job);
    ItemsToAscend(job, |job.specs|);
    var i := items[k].idx;
    if Duplicate(job, i) {
      var j :| 0 <= j < i && ResolutionAt(job, j).Found?
               && SameTarget(ResolutionAt(job, j).at, ResolutionAt(job, i).at);
      ItemsToFacts(job, |job.specs|, j);
      var m :| 0 <= m < |items| && items[m] == ItemAt(job, j);
      assert m < k;
    }
  }

  /** How often a position is settled by the whole loop, by what kind of item it is. */
  lemma Settled(job: Job, k: nat)
    requires k < |Items(job)|
    ensures var items := Items(job); var i := items[k].idx;
            && Times(Queue(job), i) == (if IsFirst(items, k) && !HeldBack(items[k], Wholes(items)) then 1 else 0)
            && forall p :: Times(HeldIn(items, p), i) ==
                 if IsFirst(items, k) && HeldBack(items[k], Wholes(items)) && items[k].at.absPath == p then 1 else 0
  {
    hide Times, IsFirst, HeldBack, Kept, Held;
    var items := Items(job);
    var i := items[k].idx;
    ItemsToAscend(job, |job.specs|);
    OrderTimes(Kept(items, Wholes(items)), i);
    forall p
      ensures Times(HeldIn(items, p), i)
           == (if IsFirst(items, k) && HeldBack(items[k], Wholes(items)) && items[k].at.absPath == p then 1 else 0)
      ensures Times(Kept(items, Wholes(items)), i)
           == (if IsFirst(items, k) && !HeldBack(items[k], Wholes(items)) then 1 else 0)
    {
      DedupeTimes(items, Wholes(items), i, p);
    }
    assert Times(HeldIn(items, ""), i) >= 0;
  }

  /** Every spec is settled exactly once: included, skipped, an exact duplicate of an earlier
      spec, or a range of a whole file that was admitted. */
  lemma EverySpecIsAccountedFor(job: Job, i: nat)
    requires i < |job.specs|
    ensures Included(Final(job).admitted, i) + Skipped(Final(job).skipped, i)
            + (if Duplicate(job, i) then 1 else 0) + (if Covered(job, Final(job), i) then 1 else 0) == 1
  {
    hide Run, Queue, Times, Included, Skipped, Covered, Duplicate, HeldIn;
    ItemsToFacts(job, |job.specs|, i);
    if ResolutionAt(job, i).Refused? {
      RefusedAccount(job, i);
    } else {
      var k :| 0 <= k < |Items(job)| && Items(job)[k] == ItemAt(job, i);
      if IsFirst(Items(job), k) && HeldBack(Items(job)[k], Wholes(Items(job))) {
        HeldAccount(job, k);
      } else {
        QueuedAccount(job, k);
      }
    }
  }

  lemma RefusedAccount(job: Job, i: nat)
    requires i < |job.specs| && ResolutionAt(job, i).Refused?
    ensures Tally(Final(job), i) == 1 && !Duplicate(job, i) && !Covered(job, Final(job), i)
  {
    hide Run, Times, Included, Skipped, Kept, Held;
    var items := Items(job);
    ItemsToFacts(job, |job.specs|, i);
    ItemsToAscend(job, |job.specs|);
    OrderTimes(Kept(items, Wholes(items)), i);
    forall p ensures Times(HeldIn(items, p), i) == 0 && Times(Queue(job), i) == 0 {
      DedupeTimes(items, Wholes(items), i, p);
    }
    assert Times(HeldIn(items, ""), i) == 0;
    RunTally(job, Start(job), items, Queue(job), i);
    NothingQueued(i);
  }

  lemma StartTally(job: Job, k: nat)
    requires k < |Items(job)|
    ensures Tally(Start(job), Items(job)[k].idx) == 0
  {
    ItemsToAscend(job, |job.specs|);
    ItemsToFacts(job, |job.specs|, Items(job)[k].idx);
  }

  lemma QueuedAccount(job: Job, k: nat)
    requires k < |Items(job)| && !(IsFirst(Items(job), k) && HeldBack(Items(job)[k], Wholes(Items(job))))
    ensures var i := Items(job)[k].idx;
            && i < |job.specs| && !Covered(job, Final(job), i)
            && Tally(Final(job), i) + (if Duplicate(job, i) then 1 else 0) == 1
  {
    hide Run, Times, Included, Skipped, Kept, Held, IsFirst, Queue, HeldIn, Duplicate;
    var items := Items(job);
    var i := items[k].idx;
    ItemsToAscend(job, |job.specs|);
    DuplicateIsNotFirst(job, k);
    Settled(job, k);
    StartTally(job, k);
    RunTally(job, Start(job), items, Queue(job), i);
    if Covered(job, Final(job), i) {
      var j :| 0 <= j < |job.specs| && WholeOf(job, j, ResolutionAt(job, i).at.absPath)
               && Included(Final(job).admitted, j) > 0;
      ItemsToFacts(job, |job.specs|, j);
    }
  }

  lemma HeldAccount(job: Job, k: nat)
    requires k < |Items(job)| && IsFirst(Items(job), k) && HeldBack(Items(job)[k], Wholes(Items(job)))
    ensures var i := Items(job)[k].idx;
            && i < |job.specs| && !Duplicate(job, i)
            && Tally(Final(job), i) + (if Covered(job, Final(job), i) then 1 else 0) == 1
  {
    hide Run, Times, Included, Skipped, Kept, Held, IsFirst, Queue, HeldIn, Duplicate;
    var items := Items(job);
    var i, path := items[k].idx, items[k].at.absPath;
    ItemsToAscend(job, |job.specs|);
    DuplicateIsNotFirst(job, k);
    Settled(job, k);
    StartTally(job, k);
    var w :| 0 <= w < |items| && items[w].at.range == None && items[w].at.absPath == path;
    var f := FirstTwin(items, w);
    var x := items[f];
    Settled(job, f);
    StartTally(job, f);
    OnlyFileQueued(job, f);
    RunTallyHeld(job, Start(job), items, Queue(job), x, i);
    CoveredByFirst(job, k, f);
  }

  /** The first whole-file spec of a path is queued, and nothing else of that path is. */
  lemma OnlyFileQueued(job: Job, f: nat)
    requires f < |Items(job)| && IsFirst(Items(job), f) && Items(job)[f].at.range.None?
    ensures Items(job)[f] in Queue(job)
    ensures forall y :: y in Queue(job) && y.at.absPath == Items(job)[f].at.absPath ==> y == Items(job)[f]
  {
    hide Kept, Order;
    var items := Items(job);
    var whole := Wholes(items);
    var x := items[f];
    KeptHas(items, whole, f);
    OrderMembers(Kept(items, whole), x);
    forall y | y in Queue(job) && y.at.absPath == x.at.absPath ensures y == x {
      OrderMembers(Kept(items, whole), y);
      KeptFrom(items, whole, y);
      var m :| 0 <= m < |items| && items[m] == y && IsFirst(items, m) && !HeldBack(y, whole);
      assert x.at.absPath in whole;
      assert SameTarget(items[m].at, items[f].at);
      assert m == f;
    }
  }

  lemma CoveredByFirst(job: Job, k: nat, f: nat)
    requires k < |Items(job)| && IsFirst(Items(job), k) && Items(job)[k].at.range.Some?
    requires f < |Items(job)| && IsFirst(Items(job), f) && Items(job)[f].at.range.None?
    requires Items(job)[f].at.absPath == Items(job)[k].at.absPath
    ensures Items(job)[k].idx < |job.specs|
    ensures Covered(job, Final(job), Items(job)[k].idx) <==> Included(Final(job).admitted, Items(job)[f].idx) > 0
  {
    hide Run, Times, Included, Skipped, Kept, Held, Queue, HeldIn, Duplicate, Final;
    var items := Items(job);
    var i := items[k].idx;
    ItemsToAscend(job, |job.specs|);
    DuplicateIsNotFirst(job, k);
    if Covered(job, Final(job), i) {
      var j :| 0 <= j < |job.specs| && WholeOf(job, j, ResolutionAt(job, i).at.absPath)
               && Included(Final(job).admitted, j) > 0;
      ItemsToFacts(job, |job.specs|, j);
      var m :| 0 <= m < |items| && items[m] == ItemAt(job, j);
      if m != f {
        assert SameTarget(items[m].at, items[f].at);
        RepeatedFileIsNeverAdmitted(job, m, f);
      }
    }
  }

  lemma RepeatedFileIsNeverAdmitted(job: Job, m: nat, f: nat)
    requires m < |Items(job)| && f < |Items(job)| && m != f && IsFirst(Items(job), f)
    requires SameTarget(Items(job)[m].at, Items(job)[f].at)
    ensures Included(Final(job).admitted, Items(job)[m].idx) == 0
  {
    hide Run, Times, Included, Skipped, Kept, Held, Queue, HeldIn;
    assert f < m;
    assert !IsFirst(Items(job), m);
    Settled(job, m);
    StartTally(job, m);
    RunTally(job, Start(job), Items(job), Queue(job), Items(job)[m].idx);
  }

  // --- the budget ---------------------------------------------------------------------------------------

  function Chars(blocks: seq<Block>): nat {
    if blocks == [] then 0 else Chars(blocks[..|blocks| - 1]) + |blocks[|blocks| - 1].text|
  }

  function AtLeastZero(n: int): nat {
    if n > 0 then n else 0
  }

  /** What is admitted fits both budgets and is what was read, under its label. */
  ghost predicate WithinBudget(job: Job, s: State) {
    && s.total == Chars(s.admitted) <= AtLeastZero(job.maxChars)
    && |s.admitted| <= AtLeastZero(job.maxFiles)
    && forall b :: b in s.admitted ==> Genuine(job, b)
  }

  predicate Genuine(job: Job, b: Block) {
    match job.read(b.item.idx, b.item.at)
    case Content(content) => b.text == Framed(b.item.at, content)
    case Unreadable(_) => false
  }

  lemma AdmitFits(job: Job, s: State, item: Item)
    requires WithinBudget(job, s)
    ensures WithinBudget(job, Admit(job, s, item).state)
  {
    var a := Admit(job, s, item);
    if a.failed == None {
      assert a.state.admitted[..|s.admitted|] == s.admitted;
    }
  }

  lemma {:induction false} TryHeldFits(job: Job, s: State, held: seq<Item>)
    requires WithinBudget(job, s)
    ensures WithinBudget(job, TryHeld(job, s, held))
  {
    hide Admit, Chars;
    if held != [] {
      var n := |held| - 1;
      TryHeldFits(job, s, held[..n]);
      AdmitFits(job, TryHeld(job, s, held[..n]), held[n]);
    }
  }

  lemma {:induction false} RunFits(job: Job, s: State, items: seq<Item>, order: seq<Item>)
    requires WithinBudget(job, s)
    ensures WithinBudget(job, Run(job, s, items, order))
  {
    hide Admit, Chars, TryHeld;
    if order != [] {
      var n := |order| - 1;
      var t := Run(job, s, items, order[..n]);
      RunFits(job, s, items, order[..n]);
      AdmitFits(job, t, order[n]);
      var a := Admit(job, t, order[n]);
      if a.failed.Some? {
        TryHeldFits(job, Skipping(a.state, order[n], a.failed.value), HeldIn(items, order[n].at.absPath));
      }
    }
  }

  /** The blocks together never exceed the character budget, nor the file budget. */
  lemma PackStaysInBudget(job: Job)
    ensures WithinBudget(job, Final(job))
  {
    RunFits(job, Start(job), Items(job), Queue(job));
  }

  // --- overflow -------------------------------------------------------------------------------------------

  /** Nothing enters a stopped pack, and everything it still meets is reported as over budget. */
  ghost predicate OnlyRefuses(s: State, t: State) {
    && t.admitted == s.admitted && t.total == s.total && t.stopped
    && |s.skipped| <= |t.skipped| && t.skipped[..|s.skipped|] == s.skipped
    && forall k :: |s.skipped| <= k < |t.skipped| ==> t.skipped[k].reason == BudgetExhausted
  }

  lemma {:induction false} StoppedTryHeld(job: Job, s: State, held: seq<Item>)
    requires s.stopped
    ensures OnlyRefuses(s, TryHeld(job, s, held))
  {
    if held != [] {
      StoppedTryHeld(job, s, held[..|held| - 1]);
    }
  }

  lemma StoppedPlace(job: Job, s: State, item: Item, held: seq<Item>)
    requires s.stopped
    ensures OnlyRefuses(s, Place(job, s, item, held))
  {
    StoppedTryHeld(job, Skipping(s, item, BudgetExhausted), held);
  }

  lemma {:induction false} StoppedRun(job: Job, s: State, items: seq<Item>, order: seq<Item>)
    requires s.stopped
    ensures OnlyRefuses(s, Run(job, s, items, order))
  {
    hide Place;
    if order != [] {
      var n := |order| - 1;
      StoppedRun(job, s, items, order[..n]);
      StoppedPlace(job, Run(job, s, items, order[..n]), order[n], HeldIn(items, order[n].at.absPath));
    }
  }

  lemma {:induction false} RunAppend(job: Job, s: State, items: seq<Item>, a: seq<Item>, b: seq<Item>)
    ensures Run(job, s, items, a + b) == Run(job, Run(job, s, items, a), items, b)
  {
    if b == [] {
      assert a + b == a;
    } else {
      var n := |b| - 1;
      RunAppend(job, s, items, a, b[..n]);
      assert (a + b)[..|a + b| - 1] == a + b[..n];
    }
  }

  lemma {:induction false} TryHeldAppend(job: Job, s: State, a: seq<Item>, b: seq<Item>)
    ensures TryHeld(job, s, a + b) == TryHeld(job, TryHeld(job, s, a), b)
  {
    hide TryHeldOne;
    if b == [] {
      assert a + b == a;
    } else {
      var n := |b| - 1;
      TryHeldAppend(job, s, a, b[..n]);
      assert (a + b)[..|a + b| - 1] == a + b[..n];
    }
  }

  /** Blocks are only ever appended, and a list of held ranges appends only its own. */
  lemma {:induction false} TryHeldAdds(job: Job, s: State, held: seq<Item>)
    ensures var t := TryHeld(job, s, held);
            && s.admitted <= t.admitted
            && (s.stopped ==> t.stopped)
            && forall k :: |s.admitted| <= k < |t.admitted| ==> t.admitted[k].item in held
  {
    if held != [] {
      TryHeldAdds(job, s, held[..|held| - 1]);
    }
  }

  /** Once a queued item overflows the budget, only the ranges held under that very file can
      still enter; every later spec is reported as over budget. */
  lemma AfterFirstOverflow(job: Job, n: nat)
    requires n < |Queue(job)|
    requires Admit(job, Run(job, Start(job), Items(job), Queue(job)[..n]), Queue(job)[n]).failed
             == Some(BudgetExhausted)
    ensures var s, x := Run(job, Start(job), Items(job), Queue(job)[..n]), Queue(job)[n];
            var held := HeldIn(Items(job), x.at.absPath);
            && s.admitted <= Final(job).admitted
            && (forall k :: |s.admitted| <= k < |Final(job).admitted| ==> Final(job).admitted[k].item in held)
            && OnlyRefuses(Place(job, s, x, held), Final(job))
  {
    hide Admit, TryHeld, Items, Queue, HeldIn, Start;
    var order, items := Queue(job), Items(job);
    var s, x := Run(job, Start(job), items, order[..n]), order[n];
    var held := HeldIn(items, x.at.absPath);
    var t := Place(job, s, x, held);
    assert order[..n + 1][..n] == order[..n];
    assert t == Run(job, Start(job), items, order[..n + 1]);
    assert order == order[..n + 1] + order[n + 1..];
    RunAppend(job, Start(job), items, order[..n + 1], order[n + 1..]);
    StoppedRun(job, t, items, order[n + 1..]);
    RefusalKeepsState(job, s, x);
    TryHeldAdds(job, Skipping(s, x, BudgetExhausted), held);
  }

  lemma RefusalKeepsState(job: Job, s: State, item: Item)
    requires Admit(job, s, item).failed.Some?
    ensures Admit(job, s, item).state == s
  {
  }

  /** A held range that overflows ends the pack: not even its sibling ranges enter any more. */
  lemma AfterHeldOverflow(job: Job, n: nat, m: nat)
    requires n < |Queue(job)|
    requires var s, x := Run(job, Start(job), Items(job), Queue(job)[..n]), Queue(job)[n];
             var held := HeldIn(Items(job), x.at.absPath);
             && Admit(job, s, x).failed.Some? && m < |held|
             && var t := TryHeld(job, Skipping(s, x, Admit(job, s, x).failed.value), held[..m]);
                Admit(job, t, held[m]).failed == Some(BudgetExhausted)
    ensures var s, x := Run(job, Start(job), Items(job), Queue(job)[..n]), Queue(job)[n];
            var held := HeldIn(Items(job), x.at.absPath);
            var t := TryHeld(job, Skipping(s, x, Admit(job, s, x).failed.value), held[..m]);
            Final(job).admitted == t.admitted
  {
    hide Admit, Items, Queue, HeldIn, Start;
    var order, items := Queue(job), Items(job);
    var s, x := Run(job, Start(job), items, order[..n]), order[n];
    var held := HeldIn(items, x.at.absPath);
    var reason := Admit(job, s, x).failed.value;
    RefusalKeepsState(job, s, x);
    var s1 := Skipping(s, x, reason);
    var t := TryHeld(job, s1, held[..m]);
    RefusalKeepsState(job, t, held[m]);
    assert held[..m + 1][..m] == held[..m];
    var u := TryHeld(job, s1, held[..m + 1]);
    assert u.stopped && u.admitted == t.admitted;
    assert held == held[..m + 1] + held[m + 1..];
    TryHeldAppend(job, s1, held[..m + 1], held[m + 1..]);
    StoppedTryHeld(job, u, held[m + 1..]);
    var v := Place(job, s, x, held);
    assert order[..n + 1][..n] == order[..n];
    assert v == Run(job, Start(job), items, order[..n + 1]);
    assert order == order[..n + 1] + order[n + 1..];
    RunAppend(job, Start(job), items, order[..n + 1], order[n + 1..]);
    StoppedRun(job, v, items, order[n + 1..]);
  }

  // --- the reasons are true -----------------------------------------------------------------------------

  ghost predicate IsSpec(job: Job, item: Item) {
    item.idx < |job.specs| && ResolutionAt(job, item.idx).Found? && item == ItemAt(job, item.idx)
  }

  /** The block of this spec can be read but does not fit beside what is admitted. */
  ghost predicate DoesNotFit(job: Job, s: State, item: Item) {
    && IsSpec(job, item)
    && job.read(item.idx, item.at).Content?
    && s.total + |Framed(item.at, job.read(item.idx, item.at).text)| > job.maxChars
  }

  ghost predicate Overflowed(job: Job, s: State) {
    exists item :: DoesNotFit(job, s, item)
  }

  ghost predicate Justified(job: Job, s: State, skip: Skip) {
    match skip.reason
    case MaxFiles => |s.admitted| >= job.maxFiles
    case BudgetExhausted => Overflowed(job, s)
    case Rejected(why) =>
      && skip.idx < |job.specs|
      && match ResolutionAt(job, skip.idx)
         case Refused(reason) => reason == why
         case Found(at) => job.read(skip.idx, at) == Unreadable(why)
  }

  ghost predicate Honest(job: Job, s: State) {
    && (forall k :: 0 <= k < |s.skipped| ==> Justified(job, s, s.skipped[k]))
    && (s.stopped ==> Overflowed(job, s))
    && (forall b :: b in s.admitted ==> IsSpec(job, b.item))
  }

  /** What was too big stays too big as the pack grows. */
  lemma OverflowStays(job: Job, s: State, t: State)
    requires s.total <= t.total && Overflowed(job, s)
    ensures Overflowed(job, t)
  {
    var item :| DoesNotFit(job, s, item);
    assert DoesNotFit(job, t, item);
  }

  /** One attempt, and the entry it leaves behind when it fails. */
  lemma AdmitHonest(job: Job, s: State, item: Item)
    requires Honest(job, s) && IsSpec(job, item)
    ensures var a := Admit(job, s, item);
            && a.state.total >= s.total && Honest(job, a.state)
            && (a.failed.Some? ==> a.state == s && Honest(job, Skipping(s, item, a.failed.value)))
            && (a.failed == Some(BudgetExhausted) ==> Overflowed(job, s))
  {
    hide ResolutionAt, SpecAt, Framed;
    var a := Admit(job, s, item);
    if a.failed == None {
      if Overflowed(job, s) {
        OverflowStays(job, s, a.state);
      }
    } else if a.failed == Some(BudgetExhausted) && !s.stopped {
      assert DoesNotFit(job, s, item);
    }
    if a.failed.Some? {
      SameSizeHonest(job, s, Skipping(s, item, a.failed.value));
    }
  }

  /** Whether an entry is justified depends only on what is admitted. */
  lemma SameSizeHonest(job: Job, s: State, t: State)
    requires t.admitted == s.admitted && t.total == s.total
    ensures Overflowed(job, t) <==> Overflowed(job, s)
    ensures forall skip :: Justified(job, s, skip) <==> Justified(job, t, skip)
  {
    if Overflowed(job, s) {
      OverflowStays(job, s, t);
    }
    if Overflowed(job, t) {
      OverflowStays(job, t, s);
    }
  }

  lemma StoppingHonest(job: Job, s: State, reason: Reason)
    requires Honest(job, s) && (reason == BudgetExhausted ==> Overflowed(job, s))
    ensures Honest(job, Stopping(s, reason))
  {
    SameSizeHonest(job, s, Stopping(s, reason));
  }

  lemma {:induction false} TryHeldHonest(job: Job, s: State, held: seq<Item>)
    requires Honest(job, s) && forall x :: x in held ==> IsSpec(job, x)
    ensures Honest(job, TryHeld(job, s, held)) && TryHeld(job, s, held).total >= s.total
  {
    hide Honest, Admit, IsSpec, Overflowed;
    if held != [] {
      var n := |held| - 1;
      TryHeldHonest(job, s, held[..n]);
      var t := TryHeld(job, s, held[..n]);
      AdmitHonest(job, t, held[n]);
      var a := Admit(job, t, held[n]);
      if a.failed.Some? {
        SameSizeHonest(job, t, Skipping(t, held[n], a.failed.value));
        StoppingHonest(job, Skipping(t, held[n], a.failed.value), a.failed.value);
      }
    }
  }

  lemma PlaceHonest(job: Job, s: State, item: Item, held: seq<Item>)
    requires Honest(job, s) && IsSpec(job, item) && forall x :: x in held ==> IsSpec(job, x)
    ensures Honest(job, Place(job, s, item, held))
  {
    hide Honest, Admit, IsSpec, Overflowed, TryHeld;
    AdmitHonest(job, s, item);
    var a := Admit(job, s, item);
    if a.failed.Some? {
      var t := Skipping(s, item, a.failed.value);
      TryHeldHonest(job, t, held);
      if a.failed.value == BudgetExhausted {
        OverflowStays(job, s, TryHeld(job, t, held));
      }
      StoppingHonest(job, TryHeld(job, t, held), a.failed.value);
    }
  }

  lemma {:induction false} RunHonest(job: Job, s: State, items: seq<Item>, order: seq<Item>)
    requires Honest(job, s) && (forall x :: x in items ==> IsSpec(job, x)) && forall x :: x in order ==> x in items
    ensures Honest(job, Run(job, s, items, order))
  {
    hide Honest, IsSpec, Place, Wholes;
    if order != [] {
      var n := |order| - 1;
      RunHonest(job, s, items, order[..n]);
      var held := HeldIn(items, order[n].at.absPath);
      forall x | x in held ensures IsSpec(job, x) {
        HeldFrom(items, Wholes(items), order[n].at.absPath, x);
      }
      PlaceHonest(job, Run(job, s, items, order[..n]), order[n], held);
    }
  }

  lemma {:induction false} HeldFrom(items: seq<Item>, whole: set<string>, path: string, y: Item)
    requires y in Held(items, whole, path)
    ensures y in items
  {
    var n := |items| - 1;
    if y != items[n] {
      HeldFrom(items[..n], whole, path, y);
    }
  }

  lemma {:induction false} RefusedHonest(job: Job, n: nat)
    requires n <= |job.specs|
    ensures forall k :: 0 <= k < |RefusedTo(job, n)| ==>
      var skip := RefusedTo(job, n)[k];
      && skip.idx < |job.specs| && ResolutionAt(job, skip.idx).Refused?
      && skip.reason == Rejected(ResolutionAt(job, skip.idx).why)
  {
    hide ResolutionAt, SpecAt;
    if n > 0 {
      RefusedHonest(job, n - 1);
    }
  }

  lemma FinalIsHonest(job: Job)
    ensures Honest(job, Final(job))
  {
    hide Kept, ResolutionAt, RefusedTo, ItemsTo, Wholes, Run, Overflowed;
    var items := Items(job);
    RefusedHonest(job, |job.specs|);
    ItemsToAscend(job, |job.specs|);
    forall x | x in Queue(job) ensures x in items {
      OrderMembers(Kept(items, Wholes(items)), x);
      KeptFrom(items, Wholes(items), x);
    }
    RunHonest(job, Start(job), items, Queue(job));
  }

  /** Every reason in the account is true: a rejected spec did not resolve or could not be read,
      the file budget is used up, or some readable block really does not fit beside what was
      admitted. */
  lemma ReasonsAreTrue(job: Job)
    ensures forall k :: 0 <= k < |Final(job).skipped| ==> Justified(job, Final(job), Final(job).skipped[k])
  {
    FinalIsHonest(job);
  }

  // --- entering after an overflow -----------------------------------------------------------------------

  /** The first of these ranges that can be read at all fits into what is left of the budget. */
  predicate FirstReadableFits(job: Job, s: State, held: seq<Item>) {
    held != [] &&
    match job.read(held[0].idx, held[0].at)
    case Unreadable(_) => FirstReadableFits(job, s, held[1..])
    case Content(content) => s.total + |Framed(held[0].at, content)| <= job.maxChars
  }

  lemma {:induction false} HeldEnters(job: Job, s: State, held: seq<Item>)
    requires !s.stopped && |s.admitted| < job.maxFiles
    ensures TryHeld(job, s, held).admitted != s.admitted <==> FirstReadableFits(job, s, held)
    decreases |held|
  {
    if held != [] {
      var t := TryHeldOne(job, s, held[0]);
      assert [held[0]][..0] == [];
      assert TryHeld(job, s, [held[0]]) == TryHeldOne(job, TryHeld(job, s, []), held[0]);
      assert [held[0]] + held[1..] == held;
      TryHeldAppend(job, s, [held[0]], held[1..]);
      hide TryHeld, Framed;
      if job.read(held[0].idx, held[0].at).Unreadable? {
        HeldEnters(job, t, held[1..]);
        SameBudgetFits(job, s, t, held[1..]);
      } else if t.stopped {
        StoppedTryHeld(job, t, held[1..]);
      } else {
        TryHeldAdds(job, t, held[1..]);
      }
    }
  }

  lemma {:induction false} SameBudgetFits(job: Job, s: State, t: State, held: seq<Item>)
    requires s.total == t.total
    ensures FirstReadableFits(job, s, held) <==> FirstReadableFits(job, t, held)
  {
    if held != [] {
      SameBudgetFits(job, s, t, held[1..]);
    }
  }

  /** After the first overflow anything at all enters exactly when the first readable range held
      under the overflowing file fits. */
  lemma EntersAfterOverflowExactly(job: Job, n: nat)
    requires n < |Queue(job)|
    requires !Run(job, Start(job), Items(job), Queue(job)[..n]).stopped
    requires Admit(job, Run(job, Start(job), Items(job), Queue(job)[..n]), Queue(job)[n]).failed
             == Some(BudgetExhausted)
    ensures var s, x := Run(job, Start(job), Items(job), Queue(job)[..n]), Queue(job)[n];
            Final(job).admitted != s.admitted <==>
            FirstReadableFits(job, s, HeldIn(Items(job), x.at.absPath))
  {
    hide TryHeld, Items, Queue, HeldIn, Start, Run, FirstReadableFits, Final;
    var s, x := Run(job, Start(job), Items(job), Queue(job)[..n]), Queue(job)[n];
    var held := HeldIn(Items(job), x.at.absPath);
    var refused := Skipping(s, x, BudgetExhausted);
    AfterFirstOverflow(job, n);
    HeldEnters(job, refused, held);
    SameBudgetFits(job, s, refused, held);
  }

  // --- two specs of one file --------------------------------------------------------------------------------

  /** A whole file first, then a range of it. */
  predicate FileThenRange(job: Job) {
    && |job.specs| == 2
    && ResolutionAt(job, 0).Found? && ResolutionAt(job, 0).at.range.None?
    && ResolutionAt(job, 1).Found? && ResolutionAt(job, 1).at.range.Some?
    && ResolutionAt(job, 0).at.absPath == ResolutionAt(job, 1).at.absPath
  }

  lemma FileThenRangeRun(job: Job)
    requires FileThenRange(job)
    ensures Items(job) == [ItemAt(job, 0), ItemAt(job, 1)] && Start(job) == State([], [], 0, false)
    ensures Queue(job) == [ItemAt(job, 0)]
    ensures HeldIn(Items(job), ItemAt(job, 0).at.absPath) == [ItemAt(job, 1)]
    ensures Final(job) == Place(job, State([], [], 0, false), ItemAt(job, 0), [ItemAt(job, 1)])
  {
    var file, part := ItemAt(job, 0), ItemAt(job, 1);
    var items := [file, part];
    assert ItemsTo(job, 0) == [] && ItemsTo(job, 1) == [file] && ItemsTo(job, 2) == items;
    assert RefusedTo(job, 0) == [] && RefusedTo(job, 1) == [] && RefusedTo(job, 2) == [];
    FileThenRangeQueue(items);
    hide Place, Items, Start, HeldIn, Queue;
    assert [file][..0] == [];
    assert Run(job, Start(job), items, []) == Start(job);
  }

  lemma FileThenRangeQueue(items: seq<Item>)
    requires |items| == 2 && items[0].at.range.None? && items[1].at.range.Some?
    requires items[0].at.absPath == items[1].at.absPath
    ensures Order(Kept(items, Wholes(items))) == [items[0]]
    ensures HeldIn(items, items[0].at.absPath) == [items[1]]
  {
    var whole, path := Wholes(items), items[0].at.absPath;
    assert items[0].at.absPath in whole;
    assert items[..1] == [items[0]] && items[..1][..0] == [];
    assert IsFirst(items[..1], 0) && IsFirst(items, 1);
    assert Kept([], whole) == [] && Held([], whole, path) == [];
    assert Kept(items[..1], whole) == [items[0]] && Held(items[..1], whole, path) == [];
    assert Kept(items, whole) == [items[0]] && Held(items, whole, path) == [items[1]];
    var kept := [items[0]];
    assert kept[..0] == [];
    assert RangesOf([]) == [] && WholesOf([]) == [];
    assert RangesOf(kept) == [] && WholesOf(kept) == kept;
  }

  const TheFile := Located("f", "f", None)

  function LinesOf(first: nat, last: nat): Located {
    Located("f", "f", Some(Range(first, last)))
  }

  function Resolving(file: Located, lines: Located): (nat, string) -> Resolution {
    (i: nat, spec: string) => Found(if i == 0 then file else lines)
  }

  function TightRead(i: nat, at: Located): Reading {
    Content(if at.range.None? then seq(50, k => 'a') else "a\n")
  }

  /** A file of fifty characters under a budget of thirty, and its first line. */
  function TightJob(): Job {
    Job(["f", "f:1-1"], Resolving(TheFile, LinesOf(1, 1)), TightRead, 30, 5)
  }

  const FirstLine: string := "=== f:1-1 ===\na\n"

  lemma FirstLineIsFramed()
    ensures Framed(LinesOf(1, 1), "a\n") == FirstLine && |FirstLine| == 16
    ensures |Framed(TheFile, seq(50, k => 'a'))| > 30
  {
    assert Decimal(1) == [49] && AsText([49]) == "1";
  }

  /** The file is refused for the budget, the range is then admitted. */
  lemma TightAttempts(file: Item, part: Item, s: State)
    requires file.at == TheFile && part.at == LinesOf(1, 1) && s.admitted == [] && s.total == 0 && !s.stopped
    ensures Admit(TightJob(), s, file) == Attempt(s, Some(BudgetExhausted))
    ensures Admit(TightJob(), s, part) == Attempt(s.(admitted := [Block(part, FirstLine)], total := 16), None)
  {
    hide Framed, FirstLine;
    FirstLineIsFramed();
  }

  lemma TightItems()
    ensures var job := TightJob();
            FileThenRange(job) && ItemAt(job, 0).at == TheFile && ItemAt(job, 1).at == LinesOf(1, 1)
  {
  }

  /** So a later spec does enter after an overflow: the file does not fit, its range does. */
  lemma RangeEntersAfterOverflow()
    ensures var job := TightJob();
            && FileThenRange(job) && Queue(job) == [ItemAt(job, 0)]
            && Admit(job, Start(job), Queue(job)[0]).failed == Some(BudgetExhausted)
            && Final(job).admitted == [Block(ItemAt(job, 1), FirstLine)]
            && Final(job).skipped == [Skip(0, ItemAt(job, 0).spec, BudgetExhausted)]
  {
    TightItems();
    var job := TightJob();
    hide TightJob, FirstLine, Items, Queue, HeldIn, Final, Admit, ResolutionAt, SpecAt;
    FileThenRangeRun(job);
    var file, part := ItemAt(job, 0), ItemAt(job, 1);
    var s0 := State([], [], 0, false);
    var s := Skipping(s0, file, BudgetExhausted);
    TightAttempts(file, part, s0);
    TightAttempts(file, part, s);
    OneHeld(job, s, part);
  }

  lemma OneHeld(job: Job, s: State, item: Item)
    ensures TryHeld(job, s, [item]) == TryHeldOne(job, s, item)
  {
    hide TryHeldOne;
    assert [item][..0] == [];
    assert TryHeld(job, s, []) == s;
  }

  // --- what a covered range stands for ----------------------------------------------------------------------

  /** What reading a target of a file with these bytes gives. */
  function BytesRead(data: seq<byte>, range: Option<Range>, cap: nat): SafeFs.Read {
    match range
    case None => SafeFs.Screen(data, cap)
    case Some(r) => if 1 <= r.first <= r.last then SafeFs.NaiveRange(data, r.first, r.last, cap) else SafeFs.BadRange
  }

  /** The files behind one pack: their bytes, the cap, and how bytes become text. */
  datatype Disk = Disk(data: string -> seq<byte>, cap: nat, decode: seq<byte> -> string)

  function TargetRead(disk: Disk, at: Located): SafeFs.Read {
    BytesRead(disk.data(at.absPath), at.range, disk.cap)
  }

  /** Every reading of the pack is a reading of these files, and its ranges are well formed. */
  ghost predicate ReadsFrom(job: Job, disk: Disk) {
    && (forall i: nat, at :: job.read(i, at).Content? <==> TargetRead(disk, at).Content?)
    && (forall i: nat, at :: job.read(i, at).Content? ==>
          job.read(i, at).text == disk.decode(TargetRead(disk, at).data))
    && (forall i :: 0 <= i < |job.specs| && ResolutionAt(job, i).Found? ==> WellFormedRange(ResolutionAt(job, i).at))
  }

  predicate WellFormedRange(at: Located) {
    at.range.Some? ==> 1 <= at.range.value.first <= at.range.value.last
  }

  function LineCountOf(disk: Disk, path: string): nat {
    |LineBreaks.Lines(disk.data(path), SafeFs.NEWLINE)|
  }

  /** A range that starts within its file. */
  predicate StartsInside(disk: Disk, at: Located) {
    at.range.Some? ==> at.range.value.first <= LineCountOf(disk, at.absPath)
  }

  ghost predicate PartOf(part: seq<byte>, data: seq<byte>) {
    exists i, j :: 0 <= i <= j <= |data| && part == data[i..j]
  }

  /** The target can be read, and its bytes are part of the bytes of some admitted block. */
  ghost predicate Present(s: State, disk: Disk, at: Located) {
    && TargetRead(disk, at).Content?
    && exists b :: b in s.admitted && Shows(disk, b, at)
  }

  ghost predicate Shows(disk: Disk, b: Block, at: Located) {
    && b.item.at.absPath == at.absPath
    && TargetRead(disk, b.item.at).Content?
    && b.text == Framed(b.item.at, disk.decode(TargetRead(disk, b.item.at).data))
    && TargetRead(disk, at).Content? && PartOf(TargetRead(disk, at).data, TargetRead(disk, b.item.at).data)
  }

  lemma {:induction false} IncludedBlock(blocks: seq<Block>, i: nat) returns (b: Block)
    requires Included(blocks, i) > 0
    ensures b in blocks && b.item.idx == i
  {
    b := blocks[|blocks| - 1];
    if b.item.idx != i {
      b := IncludedBlock(blocks[..|blocks| - 1], i);
    }
  }

  /** Within the cap and free of NUL, a range of a file reads as a slice of it exactly when it
      starts inside; otherwise it is out of range. */
  lemma RangeOfCleanFile(data: seq<byte>, r: Range, cap: nat)
    requires SafeFs.Screen(data, cap).Content? && 1 <= r.first <= r.last
    ensures var read := SafeFs.NaiveRange(data, r.first, r.last, cap);
            if r.first <= |LineBreaks.Lines(data, SafeFs.NEWLINE)| then read.Content? && PartOf(read.data, data)
            else read == SafeFs.BadRange
  {
    hide LineBreaks.Lines, LineBreaks.StartOf;
    var n := |LineBreaks.Lines(data, SafeFs.NEWLINE)|;
    if r.first <= n {
      var to := SafeFs.Min(r.last, n);
      LineBreaks.LinesAreSlices(data, SafeFs.NEWLINE, r.first - 1, to);
      var i, j := LineBreaks.StartOf(data, SafeFs.NEWLINE, r.first - 1), LineBreaks.StartOf(data, SafeFs.NEWLINE, to);
      var part := data[i..j];
      assert SafeFs.NUL in part ==> SafeFs.NUL in data;
      assert PartOf(part, data);
    }
  }

  /** A covered range is present in the bundle exactly when it starts within its file; one that
      starts past the end would have been reported as out of range on its own, and is dropped. */
  lemma CoveredRangeExactly(job: Job, disk: Disk, i: nat)
    requires ReadsFrom(job, disk) && i < |job.specs| && Covered(job, Final(job), i)
    ensures var at := ResolutionAt(job, i).at;
            && (Present(Final(job), disk, at) <==> StartsInside(disk, at))
            && (TargetRead(disk, at) == SafeFs.BadRange <==> !StartsInside(disk, at))
  {
    hide Final, Duplicate, Included, Framed, SafeFs.Screen, SafeFs.NaiveRange;
    var at := ResolutionAt(job, i).at;
    var j :| 0 <= j < |job.specs| && WholeOf(job, j, at.absPath) && Included(Final(job).admitted, j) > 0;
    var b := IncludedBlock(Final(job).admitted, j);
    FinalIsHonest(job);
    PackStaysInBudget(job);
    assert Genuine(job, b) && IsSpec(job, b.item);
    var data := disk.data(at.absPath);
    WholeShown(disk, data);
    RangeOfCleanFile(data, at.range.value, disk.cap);
    if StartsInside(disk, at) {
      assert Shows(disk, b, at);
    }
  }

  lemma WholeShown(disk: Disk, data: seq<byte>)
    requires SafeFs.Screen(data, disk.cap).Content?
    ensures SafeFs.Screen(data, disk.cap).data == data
  {
  }

  /** A spec that is included, or covered from inside its file, or a duplicate, is present. */
  lemma {:induction false} SettledIsPresent(job: Job, disk: Disk, i: nat)
    requires ReadsFrom(job, disk) && i < |job.specs| && Packed(job).complete
    requires forall k :: 0 <= k < |job.specs| && Covered(job, Final(job), k) ==>
      StartsInside(disk, ResolutionAt(job, k).at)
    ensures ResolutionAt(job, i).Found? && Present(Final(job), disk, ResolutionAt(job, i).at)
  {
    hide Final, Included, Framed, Covered, Packed, TargetRead;
    CompleteExactly(job);
    if Covered(job, Final(job), i) {
      assert ResolutionAt(job, i).Found? by { CoveredIsFound(job, i); }
      CoveredRangeExactly(job, disk, i);
    } else if Duplicate(job, i) {
      var j :| 0 <= j < i && ResolutionAt(job, j).Found?
               && SameTarget(ResolutionAt(job, j).at, ResolutionAt(job, i).at);
      SettledIsPresent(job, disk, j);
      SameTargetPresent(Final(job), disk, ResolutionAt(job, j).at, ResolutionAt(job, i).at);
    } else {
      var b := IncludedBlock(Final(job).admitted, i);
      FinalIsHonest(job);
      PackStaysInBudget(job);
      assert Genuine(job, b) && IsSpec(job, b.item);
      var part := TargetRead(disk, b.item.at).data;
      assert part == part[0..|part|];
      assert Shows(disk, b, b.item.at);
    }
  }

  lemma CoveredIsFound(job: Job, i: nat)
    requires i < |job.specs| && Covered(job, Final(job), i)
    ensures ResolutionAt(job, i).Found?
  {
  }

  lemma SameTargetPresent(s: State, disk: Disk, a: Located, b: Located)
    requires SameTarget(a, b) && Present(s, disk, a)
    ensures Present(s, disk, b)
  {
    var block :| block in s.admitted && Shows(disk, block, a);
    assert Shows(disk, block, b);
  }

  /** A complete pack really holds the bytes of every spec exactly when every covered range
      starts within its file. */
  lemma CompleteLosesNothingExactly(job: Job, disk: Disk)
    requires ReadsFrom(job, disk) && Packed(job).complete
    ensures (forall i :: 0 <= i < |job.specs| ==>
              ResolutionAt(job, i).Found? && Present(Final(job), disk, ResolutionAt(job, i).at))
       <==> (forall i :: 0 <= i < |job.specs| && Covered(job, Final(job), i) ==>
              StartsInside(disk, ResolutionAt(job, i).at))
  {
    hide Final, Covered, Packed, Present, StartsInside, ReadsFrom;
    forall i | 0 <= i < |job.specs| && Covered(job, Final(job), i)
      ensures ResolutionAt(job, i).Found?
      ensures Present(Final(job), disk, ResolutionAt(job, i).at) <==> StartsInside(disk, ResolutionAt(job, i).at)
    {
      CoveredIsFound(job, i);
      CoveredRangeExactly(job, disk, i);
    }
    if forall i :: 0 <= i < |job.specs| && Covered(job, Final(job), i) ==>
      StartsInside(disk, ResolutionAt(job, i).at)
    {
      forall i | 0 <= i < |job.specs|
        ensures ResolutionAt(job, i).Found? && Present(Final(job), disk, ResolutionAt(job, i).at)
      {
        SettledIsPresent(job, disk, i);
      }
    }
  }

  /** One line of one character. */
  function OneLineDisk(): Disk {
    Disk((path: string) => [120], 100, AsText)
  }

  function ReadOneLine(i: nat, at: Located): Reading {
    match TargetRead(OneLineDisk(), at)
    case Content(bs) => Content(AsText(bs))
    case _ => Unreadable("bad_range")
  }

  /** The file and its lines 5 to 9, which it does not have. */
  function PastEndJob(): Job {
    Job(["f", "f:5-9"], Resolving(TheFile, LinesOf(5, 9)), ReadOneLine, 100, 5)
  }

  lemma OneLine()
    ensures |LineBreaks.Lines([120], SafeFs.NEWLINE)| == 1
    ensures TargetRead(OneLineDisk(), TheFile) == SafeFs.Content([120])
    ensures TargetRead(OneLineDisk(), LinesOf(5, 9)) == SafeFs.BadRange
    ensures |Framed(TheFile, AsText([120]))| <= 100
  {
    assert LineBreaks.LineEnd([120], SafeFs.NEWLINE, 0) == 1;
    assert [120][1..] == [];
    assert LineBreaks.Lines([120][1..], SafeFs.NEWLINE) == [];
  }

  lemma PastEndReads()
    ensures var job := PastEndJob();
            && ReadsFrom(job, OneLineDisk()) && FileThenRange(job)
            && ItemAt(job, 0).at == TheFile && ItemAt(job, 1).at == LinesOf(5, 9)
  {
    hide SpecAt, TargetRead;
  }

  lemma PastEndAttempt(file: Item)
    requires file.at == TheFile
    ensures var text := Framed(TheFile, AsText([120]));
            Admit(PastEndJob(), State([], [], 0, false), file)
            == Attempt(State([Block(file, text)], [], |text|, false), None)
  {
    hide Framed, TargetRead, AsText;
    OneLine();
  }

  /** Such a pack claims to be complete, and lines 5 to 9 are nowhere and nowhere reported. */
  lemma PastEndIsDropped()
    ensures var job, disk := PastEndJob(), OneLineDisk();
            && FileThenRange(job) && ReadsFrom(job, disk)
            && Packed(job).complete && Covered(job, Final(job), 1)
            && TargetRead(disk, ResolutionAt(job, 1).at) == SafeFs.BadRange
            && !Present(Final(job), disk, ResolutionAt(job, 1).at)
  {
    PastEndReads();
    OneLine();
    var job, disk := PastEndJob(), OneLineDisk();
    hide PastEndJob, OneLineDisk, ReadsFrom, Framed, SpecAt, TargetRead, Admit, Items, Queue, HeldIn, Final, Present;
    FileThenRangeRun(job);
    var file := ItemAt(job, 0);
    PastEndAttempt(file);
    OneBlock(Block(file, Framed(TheFile, AsText([120]))));
    assert WholeOf(job, 0, "f");
    assert !SameTarget(ResolutionAt(job, 0).at, ResolutionAt(job, 1).at);
    CoveredRangeExactly(job, disk, 1);
  }

  lemma OneBlock(b: Block)
    ensures Included([b], b.item.idx) == 1
  {
    assert [b][..0] == [];
    NothingQueued(b.item.idx);
  }

  // --- the bundle -------------------------------------------------------------------------------------------

  /** Insert a block behind every block of a smaller or equal input position. */
  function InsertByPosition(sorted: seq<Block>, b: Block): seq<Block> {
    if sorted == [] || sorted[|sorted| - 1].item.idx <= b.item.idx then sorted + [b]
    else InsertByPosition(sorted[..|sorted| - 1], b) + [sorted[|sorted| - 1]]
  }

  /** `admitted.sort` by input position. */
  function InInputOrder(blocks: seq<Block>): seq<Block> {
    if blocks == [] then []
    else InsertByPosition(InInputOrder(blocks[..|blocks| - 1]), blocks[|blocks| - 1])
  }

  /** `"\n\n".join` */
  function Joined(blocks: seq<Block>): string {
    if blocks == [] then ""
    else if |blocks| == 1 then blocks[0].text
    else Joined(blocks[..|blocks| - 1]) + "\n\n" + blocks[|blocks| - 1].text
  }

  ghost predicate InOrder(blocks: seq<Block>) {
    forall j, k :: 0 <= j < k < |blocks| ==> blocks[j].item.idx <= blocks[k].item.idx
  }

  lemma CharsSnoc(blocks: seq<Block>, b: Block)
    ensures Chars(blocks + [b]) == Chars(blocks) + |b.text|
  {
    assert (blocks + [b])[..|blocks|] == blocks;
  }

  lemma {:induction false} InsertPermutes(sorted: seq<Block>, b: Block)
    ensures var r := InsertByPosition(sorted, b);
            && multiset(r) == multiset(sorted) + multiset{b}
            && Chars(r) == Chars(sorted) + |b.text| && |r| == |sorted| + 1
  {
    hide Chars;
    if sorted == [] || sorted[|sorted| - 1].item.idx <= b.item.idx {
      CharsSnoc(sorted, b);
    } else {
      var n := |sorted| - 1;
      var rest, last := sorted[..n], sorted[n];
      InsertPermutes(rest, b);
      assert sorted == rest + [last];
      CharsSnoc(InsertByPosition(rest, b), last);
      CharsSnoc(rest, last);
    }
  }

  lemma {:induction false} InsertBounded(sorted: seq<Block>, b: Block, top: nat)
    requires b.item.idx <= top && forall j :: 0 <= j < |sorted| ==> sorted[j].item.idx <= top
    ensures forall j :: 0 <= j < |InsertByPosition(sorted, b)| ==> InsertByPosition(sorted, b)[j].item.idx <= top
  {
    if sorted != [] && sorted[|sorted| - 1].item.idx > b.item.idx {
      InsertBounded(sorted[..|sorted| - 1], b, top);
    }
  }

  lemma {:induction false} InsertFacts(sorted: seq<Block>, b: Block)
    requires InOrder(sorted)
    ensures InOrder(InsertByPosition(sorted, b))
  {
    if sorted != [] && sorted[|sorted| - 1].item.idx > b.item.idx {
      var n := |sorted| - 1;
      InsertFacts(sorted[..n], b);
      InsertBounded(sorted[..n], b, sorted[n].item.idx);
    }
  }

  lemma {:induction false} SortFacts(blocks: seq<Block>)
    ensures var r := InInputOrder(blocks);
            && InOrder(r) && multiset(r) == multiset(blocks)
            && Chars(r) == Chars(blocks) && |r| == |blocks|
  {
    hide InsertByPosition;
    if blocks != [] {
      var n := |blocks| - 1;
      SortFacts(blocks[..n]);
      InsertFacts(InInputOrder(blocks[..n]), blocks[n]);
      InsertPermutes(InInputOrder(blocks[..n]), blocks[n]);
      assert blocks == blocks[..n] + [blocks[n]];
    }
  }

  lemma {:induction false} JoinedLength(blocks: seq<Block>)
    ensures |Joined(blocks)| == Chars(blocks) + (if blocks == [] then 0 else 2 * (|blocks| - 1))
  {
    if |blocks| == 1 {
      assert blocks[..0] == [];
    } else if |blocks| > 1 {
      JoinedLength(blocks[..|blocks| - 1]);
    }
  }

  ghost function Packed(job: Job): PackResult {
    var s := Final(job);
    var blocks := InInputOrder(s.admitted);
    var bundle := Joined(blocks);
    PackResult(bundle, blocks, s.skipped, s.skipped == [], |bundle|)
  }

  /** The bundle holds exactly the admitted blocks, follows the input order strictly, and its
      length is the budgeted characters plus two per separator. */
  lemma BundleFollowsInput(job: Job)
    ensures var r := Packed(job);
            && multiset(r.included) == multiset(Final(job).admitted)
            && (forall j, k :: 0 <= j < k < |r.included| ==> r.included[j].item.idx < r.included[k].item.idx)
            && r.bundle == Joined(r.included)
            && r.chars == Final(job).total + 2 * AtLeastZero(|r.included| - 1)
            && r.chars <= AtLeastZero(job.maxChars) + 2 * AtLeastZero(|r.included| - 1)
            && |r.included| <= AtLeastZero(job.maxFiles)
  {
    hide Final, Chars, InInputOrder, Joined;
    var blocks := Final(job).admitted;
    SortFacts(blocks);
    PackStaysInBudget(job);
    JoinedLength(InInputOrder(blocks));
    EachBlockOnce(job);
  }

  lemma {:induction false} InsertIncluded(sorted: seq<Block>, b: Block, i: nat)
    ensures Included(InsertByPosition(sorted, b), i) == Included(sorted, i) + (if b.item.idx == i then 1 else 0)
  {
    hide Included;
    if sorted == [] || sorted[|sorted| - 1].item.idx <= b.item.idx {
      IncludedSnoc(sorted, b, i);
    } else {
      var rest, last := sorted[..|sorted| - 1], sorted[|sorted| - 1];
      InsertIncluded(rest, b, i);
      IncludedSnoc(InsertByPosition(rest, b), last, i);
      assert sorted == rest + [last];
      IncludedSnoc(rest, last, i);
    }
  }

  lemma {:induction false} SortIncluded(blocks: seq<Block>, i: nat)
    ensures Included(InInputOrder(blocks), i) == Included(blocks, i)
  {
    if blocks != [] {
      SortIncluded(blocks[..|blocks| - 1], i);
      InsertIncluded(InInputOrder(blocks[..|blocks| - 1]), blocks[|blocks| - 1], i);
    }
  }

  lemma {:induction false} IncludedAppend(a: seq<Block>, b: seq<Block>, i: nat)
    ensures Included(a + b, i) == Included(a, i) + Included(b, i)
  {
    if b == [] {
      assert a + b == a;
    } else {
      var n := |b| - 1;
      assert a + b == (a + b[..n]) + [b[n]];
      IncludedAppend(a, b[..n], i);
      IncludedSnoc(a + b[..n], b[n], i);
    }
  }

  lemma {:induction false} IncludedMember(a: seq<Block>, j: nat)
    requires j < |a|
    ensures Included(a, a[j].item.idx) >= 1
  {
    if j < |a| - 1 {
      IncludedMember(a[..|a| - 1], j);
    }
  }

  lemma IncludedTwice(a: seq<Block>, j: nat, k: nat)
    requires j < k < |a| && a[j].item.idx == a[k].item.idx
    ensures Included(a, a[j].item.idx) >= 2
  {
    hide Included;
    var i := a[j].item.idx;
    IncludedMember(a[..k], j);
    IncludedSnoc(a[..k], a[k], i);
    IncludedAppend(a[..k] + [a[k]], a[k + 1..], i);
    assert a == a[..k] + [a[k]] + a[k + 1..];
  }

  lemma EachBlockOnce(job: Job)
    ensures var blocks := InInputOrder(Final(job).admitted);
            forall j, k :: 0 <= j < k < |blocks| ==> blocks[j].item.idx != blocks[k].item.idx
  {
    hide Final, Included;
    var blocks := InInputOrder(Final(job).admitted);
    forall j, k | 0 <= j < k < |blocks| ensures blocks[j].item.idx != blocks[k].item.idx {
      if blocks[j].item.idx == blocks[k].item.idx {
        var i := blocks[j].item.idx;
        IncludedTwice(blocks, j, k);
        SortIncluded(Final(job).admitted, i);
        AtMostOnce(job, i);
      }
    }
  }

  lemma AtMostOnce(job: Job, i: nat)
    ensures Included(Final(job).admitted, i) <= 1
  {
    hide Run, Times, Included, Skipped, Kept, Held, Queue;
    if i < |job.specs| {
      EverySpecIsAccountedFor(job, i);
    } else {
      OutsideIsNeverIncluded(job, i);
    }
  }

  lemma OutsideIsNeverIncluded(job: Job, i: nat)
    requires i >= |job.specs|
    ensures Included(Final(job).admitted, i) == 0
  {
    hide Run, Times, Included, Skipped, Kept, Held;
    var items := Items(job);
    ItemsToFacts(job, |job.specs|, i);
    ItemsToAscend(job, |job.specs|);
    OrderTimes(Kept(items, Wholes(items)), i);
    forall p ensures Times(HeldIn(items, p), i) == 0 && Times(Queue(job), i) == 0 {
      DedupeTimes(items, Wholes(items), i, p);
    }
    assert Times(HeldIn(items, ""), i) == 0;
    RunTally(job, Start(job), items, Queue(job), i);
    NothingQueued(i);
  }

  /** A pack is complete exactly when no spec had to be left out: each one is in the bundle, a
      duplicate, or a range of a file that is in the bundle. */
  lemma CompleteExactly(job: Job)
    ensures Packed(job).complete <==>
      forall i :: 0 <= i < |job.specs| ==>
        Included(Final(job).admitted, i) == 1 || Duplicate(job, i) || Covered(job, Final(job), i)
  {
    hide Final, Included, Skipped, Duplicate, Covered;
    var skipped := Final(job).skipped;
    if skipped == [] {
      forall i | 0 <= i < |job.specs|
        ensures Included(Final(job).admitted, i) == 1 || Duplicate(job, i) || Covered(job, Final(job), i)
      {
        EverySpecIsAccountedFor(job, i);
        NothingQueued(i);
      }
    } else {
      var i := skipped[|skipped| - 1].idx;
      SkippedSnoc(skipped[..|skipped| - 1], skipped[|skipped| - 1], i);
      assert skipped == skipped[..|skipped| - 1] + [skipped[|skipped| - 1]];
      SkipsAreSpecs(job, i);
      EverySpecIsAccountedFor(job, i);
    }
  }

  lemma SkipsAreSpecs(job: Job, i: nat)
    requires Skipped(Final(job).skipped, i) > 0
    ensures i < |job.specs|
  {
    hide Run, Times, Included, Skipped, Kept, Held;
    if i >= |job.specs| {
      var items := Items(job);
      ItemsToFacts(job, |job.specs|, i);
      ItemsToAscend(job, |job.specs|);
      OrderTimes(Kept(items, Wholes(items)), i);
      forall p ensures Times(HeldIn(items, p), i) == 0 && Times(Queue(job), i) == 0 {
        DedupeTimes(items, Wholes(items), i, p);
      }
      assert Times(HeldIn(items, ""), i) == 0;
      RunTally(job, Start(job), items, Queue(job), i);
      NothingQueued(i);
    }
  }

  // --- the loops of the packer ----------------------------------------------------------------------------------

  /** The closure state of `pack`. */
  class Packing {
    const job: Job
    var admitted: seq<Block>
    var skipped: seq<Skip>
    var total: nat
    var stopped: bool

    constructor (job: Job)
      ensures this.job == job && Now() == State([], [], 0, false)
    {
      this.job := job;
      admitted, skipped, total, stopped := [], [], 0, false;
    }

    function Now(): State
      reads this
    {
      State(admitted, skipped, total, stopped)
    }

    /** `admit` */
    method TryAdmit(item: Item) returns (failed: Option<Reason>)
      modifies this`total, this`admitted
      ensures Attempt(Now(), failed) == Admit(job, old(Now()), item)
    {
      if stopped {
        return Some(BudgetExhausted);
      }
      if |admitted| >= job.maxFiles {
        return Some(MaxFiles);
      }
      var reading := job.read(item.idx, item.at);
      if reading.Unreadable? {
        return Some(Rejected(reading.why));
      }
      var block := Framed(item.at, reading.text);
      if total + |block| > job.maxChars {
        return Some(BudgetExhausted);
      }
      total := total + |block|;
      admitted := admitted + [Block(item, block)];
      return None;
    }

    method PutAside(item: Item, reason: Reason)
      modifies this`skipped
      ensures Now() == Skipping(old(Now()), item, reason)
    {
      skipped := skipped + [Skip(item.idx, item.spec, reason)];
    }

    method AdmitHeld(held: seq<Item>)
      modifies this
      ensures Now() == TryHeld(job, old(Now()), held)
    {
      hide Admit;
      assert held[..|held|] == held;
      for k := 0 to |held|
        invariant Now() == TryHeld(job, old(Now()), held[..k])
      {
        assert held[..k + 1][..k] == held[..k];
        var failed := TryAdmit(held[k]);
        if failed.Some? {
          PutAside(held[k], failed.value);
          stopped := stopped || failed.value == BudgetExhausted;
        }
      }
    }

    /** The admission loop of `pack`. */
    method AdmitAll(ghost items: seq<Item>, order: seq<Item>, held: map<string, seq<Item>>)
      requires forall p :: HeldAt(held, p) == HeldIn(items, p)
      modifies this
      ensures Now() == Run(job, old(Now()), items, order)
    {
      hide Admit, TryHeld, HeldIn, HeldAt;
      assert order[..|order|] == order;
      for k := 0 to |order|
        invariant Now() == Run(job, old(Now()), items, order[..k])
      {
        assert order[..k + 1][..k] == order[..k];
        var failed := TryAdmit(order[k]);
        if failed.Some? {
          PutAside(order[k], failed.value);
          AdmitHeld(HeldAt(held, order[k].at.absPath));
          stopped := stopped || failed.value == BudgetExhausted;
        }
      }
    }

    /** The resolving loop of `pack`. */
    method ResolveAll() returns (items: seq<Item>)
      requires Now() == State([], [], 0, false)
      modifies this`skipped
      ensures items == Items(job) && Now() == Start(job)
    {
      items := [];
      for i := 0 to |job.specs|
        invariant items == ItemsTo(job, i) && skipped == RefusedTo(job, i)
      {
        var spec := Strip(job.specs[i]);
        match job.resolve(i, spec)
        case Refused(why) => skipped := skipped + [Skip(i, spec, Rejected(why))];
        case Found(at) => items := items + [Item(i, at, spec)];
      }
    }
  }

  /** `held.get(path, [])` */
  function HeldAt(held: map<string, seq<Item>>, path: string): seq<Item> {
    if path in held then held[path] else []
  }

  /** `held.setdefault(path, []).append(item)` */
  function Holding(held: map<string, seq<Item>>, item: Item): (r: map<string, seq<Item>>)
    ensures forall p :: HeldAt(r, p) == HeldAt(held, p) + if p == item.at.absPath then [item] else []
  {
    held[item.at.absPath := HeldAt(held, item.at.absPath) + [item]]
  }

  /** The `seen` set after these items. */
  function Signatures(items: seq<Item>): set<(string, Option<Range>)> {
    set j | 0 <= j < |items| :: (items[j].at.absPath, items[j].at.range)
  }

  /** `_dedupe` */
  method Dedupe(items: seq<Item>) returns (out: seq<Item>, held: map<string, seq<Item>>)
    ensures out == Kept(items, Wholes(items))
    ensures forall p :: HeldAt(held, p) == HeldIn(items, p)
  {
    var whole := Wholes(items);
    var seen: set<(string, Option<Range>)> := {};
    out, held := [], map[];
    for k := 0 to |items|
      invariant seen == Signatures(items[..k])
      invariant out == Kept(items[..k], whole)
      invariant forall p :: HeldAt(held, p) == Held(items[..k], whole, p)
    {
      hide Kept, Held, IsFirst, HeldBack, HeldAt, Wholes, Signatures;
      ghost var held0 := held;
      var item := items[k];
      var sig := (item.at.absPath, item.at.range);
      FirstBySignature(items, k);
      DedupeSnoc(items, k, whole);
      if sig !in seen {
        if HeldBack(item, whole) {
          held := Holding(held, item);
        } else {
          out := out + [item];
        }
      }
      seen := seen + {sig};
      forall p ensures HeldAt(held, p) == Held(items[..k + 1], whole, p) {
        assert HeldAt(held0, p) == Held(items[..k], whole, p);
        assert HeldAt(held0, p) + [] == HeldAt(held0, p);
      }
    }
    assert items[..|items|] == items;
  }

  lemma FirstBySignature(items: seq<Item>, k: nat)
    requires k < |items|
    ensures (items[k].at.absPath, items[k].at.range) in Signatures(items[..k]) <==> !IsFirst(items, k)
    ensures Signatures(items[..k + 1]) == Signatures(items[..k]) + {(items[k].at.absPath, items[k].at.range)}
  {
    var sig := (items[k].at.absPath, items[k].at.range);
    if !IsFirst(items, k) {
      var j :| 0 <= j < k && SameTarget(items[j].at, items[k].at);
      assert items[..k][j] == items[j];
    }
    forall other ensures other in Signatures(items[..k + 1]) <==> other in Signatures(items[..k]) || other == sig {
      if other in Signatures(items[..k]) {
        var j :| 0 <= j < k && (items[..k][j].at.absPath, items[..k][j].at.range) == other;
        assert items[..k + 1][j] == items[..k][j];
      } else if other == sig {
        assert items[..k + 1][k] == items[k];
      }
    }
  }

  lemma DedupeSnoc(items: seq<Item>, k: nat, whole: set<string>)
    requires k < |items|
    ensures Kept(items[..k + 1], whole)
         == Kept(items[..k], whole) + (if IsFirst(items, k) && !HeldBack(items[k], whole) then [items[k]] else [])
    ensures forall p :: Held(items[..k + 1], whole, p) == Held(items[..k], whole, p) + (
              if IsFirst(items, k) && HeldBack(items[k], whole) && items[k].at.absPath == p then [items[k]] else [])
  {
    assert items[..k + 1][..k] == items[..k];
    FirstInPrefix(items, k + 1, k);
  }

  /** `pack` */
  method Pack(job: Job) returns (r: PackResult)
    ensures r == Packed(job)
  {
    hide Run, Kept, Held, InInputOrder, Joined;
    var packing := new Packing(job);
    var items := packing.ResolveAll();
    var kept, held := Dedupe(items);
    packing.AdmitAll(items, Order(kept), held);
    var blocks := InInputOrder(packing.admitted);
    var bundle := Joined(blocks);
    r := PackResult(bundle, blocks, packing.skipped, packing.skipped == [], |bundle|);
  }

  /** The queue is the kept items, sorted by (range before whole file, input position). */
  lemma QueueIsSorted(job: Job)
    ensures var q := Queue(job);
            && multiset(q) == multiset(Kept(Items(job), Wholes(Items(job))))
            && forall j, k :: 0 <= j < k < |q| ==>
                 (q[j].at.range.Some? && q[k].at.range.None?)
                 || (q[j].at.range.Some? == q[k].at.range.Some? && q[j].idx < q[k].idx)
  {
    hide ItemsTo, Wholes, Kept;
    ItemsToAscend(job, |job.specs|);
    var kept := Kept(Items(job), Wholes(Items(job)));
    KeptAscend(Items(job), Wholes(Items(job)));
    OrderPermutes(kept);
    PartsAscend(kept);
    forall x ensures x in RangesOf(kept) ==> x.at.range.Some?
             ensures x in WholesOf(kept) ==> x.at.range.None? {
      PartMembers(kept, x);
    }
  }

  lemma {:induction false} PartMembers(kept: seq<Item>, x: Item)
    ensures x in RangesOf(kept) ==> x.at.range.Some? && x in kept
    ensures x in WholesOf(kept) ==> x.at.range.None? && x in kept
  {
    if kept != [] {
      PartMembers(kept[..|kept| - 1], x);
    }
  }

  lemma {:induction false} PartsAscend(kept: seq<Item>)
    requires Ascending(kept)
    ensures Ascending(RangesOf(kept)) && Ascending(WholesOf(kept))
  {
    if kept != [] {
      var n := |kept| - 1;
      PartsAscend(kept[..n]);
      forall x | x in RangesOf(kept[..n]) || x in WholesOf(kept[..n]) ensures x.idx < kept[n].idx {
        PartMembers(kept[..n], x);
      }
    }
  }

  lemma {:induction false} KeptAscend(items: seq<Item>, whole: set<string>)
    requires Ascending(items)
    ensures Ascending(Kept(items, whole))
    ensures forall x :: x in Kept(items, whole) ==> x in items
  {
    if items != [] {
      var n := |items| - 1;
      KeptAscend(items[..n], whole);
      assert forall x :: x in items[..n] ==> x.idx < items[n].idx;
    }
  }
}
