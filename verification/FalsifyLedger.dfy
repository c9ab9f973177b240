/** The receipt-typed ledger of a falsification run and the state transitions of
    `falsify_ledger.py`. Each transition is a function on ledgers; the transitions that
    the source computes with a loop are methods proved equal to those functions. */
module FalsifyLedger {
  import opened Text
  import opened ContraGraph

  const SURVIVE_AFTER: nat := 2
  const MAX_REOPENS: nat := 3

  datatype Status = Open | Killed | Survived

  /** `text` stands for whatever else the receipt carries. A verdict field that is absent
      in the source is `false` (or `""` for `signer`, the source's `by`). */
  datatype Receipt = Receipt(kind: string, quote: string, code: string, addresses: string, text: string,
                             ok: bool, stable: bool, inconclusive: bool, signer: string)

  datatype Kill = Kill(killer: string, kind: string, round: nat, accepted: bool, addressed: bool)

  datatype Claim = Claim(id: string, author: string, domain: string, text: string, status: Status,
                         receipts: seq<Receipt>, kills: seq<Kill>, attempts: nat, reopens: nat)

  datatype Bucket = Bucket(kills: nat, deaths: nat, survives: nat)

  datatype Field = Kills | Deaths | Survives

  datatype Phase = Active | Fixpoint

  datatype Ledger = Ledger(session: string, round: nat, phase: Phase,
                           claims: seq<Claim>, edges: seq<Edge>, rep: map<string, Bucket>)

  /** A claim as a model wrote it; the last three fields are ones a model may supply but
      must not control. */
  datatype RawClaim = RawClaim(id: string, text: string, author: string, domain: string,
                               receipts: seq<Receipt>, status: Status, kills: seq<Kill>, attempts: int)

  function NewLedger(session: string): Ledger {
    Ledger(session, 0, Active, [], [], map[])
  }

  // --- lookup -------------------------------------------------------------------

  /** Position of the claim `by_id` yields for `id` (the last one wins), or -1. */
  function IndexOf(claims: seq<Claim>, id: string): (i: int)
    ensures -1 <= i < |claims|
    ensures i >= 0 ==> claims[i].id == id
    ensures i < 0 ==> forall k :: 0 <= k < |claims| ==> claims[k].id != id
  {
    if claims == [] then -1
    else if claims[|claims| - 1].id == id then |claims| - 1
    else IndexOf(claims[..|claims| - 1], id)
  }

  ghost predicate UniqueIds(claims: seq<Claim>) {
    forall i, j :: 0 <= i < j < |claims| ==> claims[i].id != claims[j].id
  }

  // --- receipts and support -------------------------------------------------------

  predicate CiteSupported(r: Receipt, corpus: string) {
    r.kind == "cite" && r.quote != "" && Contains(r.quote, corpus)
  }

  predicate StableMetamorph(r: Receipt) {
    r.kind == "metamorph" && r.stable && r.signer == "clerk"
  }

  /** A receipt that lets a claim compound. */
  predicate Supports(r: Receipt) {
    ((r.kind == "cite" || r.kind == "run") && r.ok) || StableMetamorph(r)
  }

  predicate HasSupport(c: Claim) {
    exists i :: 0 <= i < |c.receipts| && Supports(c.receipts[i])
  }

  predicate Compoundable(c: Claim) {
    c.status != Killed && HasSupport(c)
  }

  // --- kills ----------------------------------------------------------------------

  predicate Live(k: Kill) {
    k.accepted && !k.addressed
  }

  predicate HasLiveKill(kills: seq<Kill>) {
    exists i :: 0 <= i < |kills| && Live(kills[i])
  }

  function AcceptedKills(kills: seq<Kill>): nat {
    if kills == [] then 0
    else AcceptedKills(kills[..|kills| - 1]) + (if kills[|kills| - 1].accepted then 1 else 0)
  }

  /** Failed attempts recorded after the last accepted kill. */
  function FailedSinceKill(kills: seq<Kill>): nat {
    if kills == [] || kills[|kills| - 1].accepted then 0
    else FailedSinceKill(kills[..|kills| - 1]) + 1
  }

  function Address(k: Kill): Kill {
    if k.accepted then k.(addressed := true) else k
  }

  function AddressAll(kills: seq<Kill>): seq<Kill> {
    seq(|kills|, i requires 0 <= i < |kills| => Address(kills[i]))
  }

  // --- asserting ------------------------------------------------------------------

  predicate AddressesKill(raw: RawClaim, id: string) {
    exists i :: 0 <= i < |raw.receipts| && raw.receipts[i].addresses == id
  }

  /** An illegal re-assert of a killed claim. */
  predicate NoReassert(led: Ledger, raw: RawClaim) {
    var i := IndexOf(led.claims, Strip(raw.id));
    && i >= 0
    && led.claims[i].status == Killed
    && (led.claims[i].reopens >= MAX_REOPENS || !AddressesKill(raw, Strip(raw.id)))
  }

  function Normalize(raw: RawClaim): Option<Claim> {
    var id, text := Strip(raw.id), Strip(raw.text);
    if id == "" || text == "" then None
    else Some(Claim(id, Strip(raw.author), Strip(if raw.domain == "" then "general" else raw.domain),
                    text, Open, raw.receipts, [], 0, 0))
  }

  predicate Admissible(led: Ledger, raw: RawClaim) {
    !NoReassert(led, raw) && Normalize(raw).Some?
  }

  /** What an admitted re-assert does to the claim it names. */
  function Restate(c: Claim, receipts: seq<Receipt>): Claim {
    var d := c.(receipts := c.receipts + receipts);
    if c.status == Killed then
      d.(status := Open, kills := AddressAll(c.kills), attempts := 0, reopens := c.reopens + 1)
    else d
  }

  function Ingest(led: Ledger, raw: RawClaim): Ledger {
    if !Admissible(led, raw) then led
    else
      var norm := Normalize(raw).value;
      var i := IndexOf(led.claims, norm.id);
      if i >= 0 then led.(claims := led.claims[i := Restate(led.claims[i], norm.receipts)])
      else led.(claims := led.claims + [norm])
  }

  function IngestAll(led: Ledger, raws: seq<RawClaim>): Ledger {
    if raws == [] then led else Ingest(IngestAll(led, raws[..|raws| - 1]), raws[|raws| - 1])
  }

  function AcceptedIds(led: Ledger, raws: seq<RawClaim>): seq<string> {
    if raws == [] then []
    else
      var before, raw := raws[..|raws| - 1], raws[|raws| - 1];
      AcceptedIds(led, before) +
      (if Admissible(IngestAll(led, before), raw) then [Strip(raw.id)] else [])
  }

  function RejectedClaims(led: Ledger, raws: seq<RawClaim>): seq<RawClaim> {
    if raws == [] then []
    else
      var before, raw := raws[..|raws| - 1], raws[|raws| - 1];
      RejectedClaims(led, before) + (if Admissible(IngestAll(led, before), raw) then [] else [raw])
  }

  /** `apply_asserts`. */
  method ApplyAsserts(ledger: Ledger, raws: seq<RawClaim>)
    returns (led: Ledger, accepted: seq<string>, rejected: seq<RawClaim>)
    ensures led == IngestAll(ledger, raws)
    ensures accepted == AcceptedIds(ledger, raws)
    ensures rejected == RejectedClaims(ledger, raws)
  {
    led, accepted, rejected := ledger, [], [];
    for n := 0 to |raws|
      invariant led == IngestAll(ledger, raws[..n])
      invariant accepted == AcceptedIds(ledger, raws[..n])
      invariant rejected == RejectedClaims(ledger, raws[..n])
    {
      assert raws[..n + 1][..n] == raws[..n];
      var raw := raws[n];
      if NoReassert(led, raw) {
        rejected := rejected + [raw];
        continue;
      }
      var norm := Normalize(raw);
      if norm == None {
        rejected := rejected + [raw];
        continue;
      }
      var i := IndexOf(led.claims, norm.value.id);
      if i >= 0 {
        led := led.(claims := led.claims[i := Restate(led.claims[i], norm.value.receipts)]);
      } else {
        led := led.(claims := led.claims + [norm.value]);
      }
      accepted := accepted + [norm.value.id];
    }
    assert raws[..|raws|] == raws;
  }

  // --- kills, edges, reputation -----------------------------------------------------

  function Struck(c: Claim, kill: Kill): Claim {
    var d := c.(kills := c.kills + [kill]);
    if kill.accepted then d.(status := Killed) else d.(attempts := c.attempts + 1)
  }

  function RecordKill(led: Ledger, target: string, kill: Kill): Ledger {
    var i := IndexOf(led.claims, target);
    if i < 0 then led else led.(claims := led.claims[i := Struck(led.claims[i], kill)])
  }

  function AddContraEdge(led: Ledger, src: string, dst: string): Ledger {
    led.(edges := led.edges + [Contra(src, dst)])
  }

  ghost predicate ContraValid(led: Ledger, src: string, dst: string) {
    var j := IndexOf(led.claims, dst);
    && IndexOf(led.claims, src) >= 0
    && j >= 0
    && led.claims[j].status == Survived
    && !Reaches(led.edges + [Contra(src, dst)], dst, src)
  }

  method CheckContra(led: Ledger, src: string, dst: string) returns (valid: bool)
    ensures valid == ContraValid(led, src, dst)
  {
    var i, j := IndexOf(led.claims, src), IndexOf(led.claims, dst);
    if i < 0 || j < 0 || led.claims[j].status != Survived {
      return false;
    }
    var cycle := HasCycle(led.edges, src, dst);
    return !cycle;
  }

  function BucketAt(rep: map<string, Bucket>, key: string): Bucket {
    if key in rep then rep[key] else Bucket(0, 0, 0)
  }

  function Bump(b: Bucket, field: Field): Bucket {
    match field
    case Kills => b.(kills := b.kills + 1)
    case Deaths => b.(deaths := b.deaths + 1)
    case Survives => b.(survives := b.survives + 1)
  }

  function BumpRep(led: Ledger, agent: string, domain: string, field: Field): Ledger {
    var key := agent + "|" + domain;
    led.(rep := led.rep[key := Bump(BucketAt(led.rep, key), field)])
  }

  // --- resolve ----------------------------------------------------------------------

  function Verdict(c: Claim): Status {
    if HasLiveKill(c.kills) then Killed
    else if HasSupport(c) && c.attempts >= SURVIVE_AFTER then Survived
    else if c.status != Killed then Open
    else Killed
  }

  function Settle(c: Claim): Claim {
    c.(status := Verdict(c))
  }

  function Resolved(led: Ledger): Ledger {
    led.(claims := seq(|led.claims|, i requires 0 <= i < |led.claims| => Settle(led.claims[i])))
  }

  /** `resolve`, claim by claim. */
  method Resolve(ledger: Ledger) returns (led: Ledger)
    ensures led == Resolved(ledger)
  {
    led := ledger;
    for i := 0 to |ledger.claims|
      invariant led == ledger.(claims := led.claims) && |led.claims| == |ledger.claims|
      invariant forall k :: 0 <= k < i ==> led.claims[k] == Settle(ledger.claims[k])
      invariant forall k :: i <= k < |ledger.claims| ==> led.claims[k] == ledger.claims[k]
    {
      var c := led.claims[i];
      if HasLiveKill(c.kills) {
        c := c.(status := Killed);
      } else if HasSupport(c) && c.attempts >= SURVIVE_AFTER {
        c := c.(status := Survived);
      } else if c.status != Killed {
        c := c.(status := Open);
      }
      led := led.(claims := led.claims[i := c]);
    }
    assert led.claims == Resolved(ledger).claims;
  }

  // --- fixpoint ---------------------------------------------------------------------

  datatype Mark = Mark(id: string, status: Status, attempts: nat, receipts: nat)

  function MarkOf(c: Claim): Mark {
    Mark(c.id, c.status, c.attempts, |c.receipts|)
  }

  /** The compact signature: per claim four fields, then the number of edges. */
  function Signature(led: Ledger): (seq<Mark>, nat) {
    (seq(|led.claims|, i requires 0 <= i < |led.claims| => MarkOf(led.claims[i])), |led.edges|)
  }

  predicate IsFixpoint(prev: Ledger, curr: Ledger) {
    Signature(prev) == Signature(curr)
  }
}
