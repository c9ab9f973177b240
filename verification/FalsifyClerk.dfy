/** The deterministic clerk of `falsify.py`: it turns model output into ledger
    transitions. Model text, sandbox verdicts and metamorphic re-runs are arbitrary inputs. */
module FalsifyClerk {
  import opened Text
  import opened ContraGraph
  import opened FalsifyLedger

  datatype RunVerdict = Pass | Fail | Inconclusive

  datatype Probe = Probe(stable: bool, text: string)

  /** One attack row. `verdict` is what the sandbox says of the attack's test, consulted
      only by a `run` move. */
  datatype Attack = Attack(target: string, move: string, newId: string, quote: string,
                           domain: string, text: string, verdict: RunVerdict)

  /** Everything one round receives from outside: both models' blocks, the corpus, the
      sandbox (code, claim position, receipt position) and the metamorphic check per claim. */
  datatype RoundInput = RoundInput(asserts: seq<RawClaim>, attacks: seq<Attack>, corpus: string,
                                   sandbox: (string, nat, nat) -> RunVerdict,
                                   metamorph: bool, probe: nat -> Option<Probe>,
                                   assertor: string, falsifier: string)

  // --- asserts ----------------------------------------------------------------------

  function Unsigned(r: Receipt): Receipt {
    r.(ok := false, stable := false, inconclusive := false, signer := "")
  }

  /** `scrub_receipts`: drop metamorph receipts, erase every clerk-only verdict. */
  function Scrub(rs: seq<Receipt>): seq<Receipt> {
    if rs == [] then []
    else Scrub(rs[..|rs| - 1]) +
         (if rs[|rs| - 1].kind != "metamorph" then [Unsigned(rs[|rs| - 1])] else [])
  }

  function Stamp(raws: seq<RawClaim>, author: string): seq<RawClaim> {
    seq(|raws|, i requires 0 <= i < |raws| =>
      raws[i].(author := author, receipts := Scrub(raws[i].receipts)))
  }

  function Held(claims: seq<Claim>, id: string): nat {
    var i := IndexOf(claims, id);
    if i < 0 then 0 else |claims[i].receipts|
  }

  function Judge(r: Receipt, corpus: string, verdict: RunVerdict): Receipt {
    if r.kind == "cite" then r.(ok := CiteSupported(r, corpus))
    else if r.kind == "run" then
      r.(ok := verdict == Pass, inconclusive := verdict == Inconclusive || r.inconclusive)
    else r
  }

  /** Only receipts at position `held` or later are judged. */
  function JudgeFrom(rs: seq<Receipt>, held: nat, corpus: string,
                     sandbox: (string, nat, nat) -> RunVerdict, i: nat): seq<Receipt> {
    seq(|rs|, j requires 0 <= j < |rs| =>
      JudgeAt(rs[j], held, corpus, sandbox, i, j))
  }

  function JudgeAt(r: Receipt, held: nat, corpus: string,
                   sandbox: (string, nat, nat) -> RunVerdict, i: nat, j: nat): Receipt {
    if j < held then r else Judge(r, corpus, sandbox(r.code, i, j))
  }

  function JudgeClaim(c: Claim, accepted: seq<string>, prior: seq<Claim>, corpus: string,
                      sandbox: (string, nat, nat) -> RunVerdict, i: nat): Claim {
    if c.id in accepted then
      c.(receipts := JudgeFrom(c.receipts, Held(prior, c.id), corpus, sandbox, i))
    else c
  }

  function JudgeAll(led: Ledger, accepted: seq<string>, prior: seq<Claim>, corpus: string,
                    sandbox: (string, nat, nat) -> RunVerdict): Ledger {
    led.(claims := seq(|led.claims|, i requires 0 <= i < |led.claims| =>
      JudgeClaim(led.claims[i], accepted, prior, corpus, sandbox, i)))
  }

  function Asserted(led: Ledger, inp: RoundInput): Ledger {
    var raws := Stamp(inp.asserts, inp.assertor);
    JudgeAll(IngestAll(led, raws), AcceptedIds(led, raws), led.claims, inp.corpus, inp.sandbox)
  }

  /** `_clerk_asserts`. */
  method ClerkAsserts(ledger: Ledger, inp: RoundInput) returns (led: Ledger, rejected: seq<RawClaim>)
    ensures led == Asserted(ledger, inp)
    ensures rejected == RejectedClaims(ledger, Stamp(inp.asserts, inp.assertor))
  {
    var raws := [];
    for n := 0 to |inp.asserts|
      invariant raws == Stamp(inp.asserts[..n], inp.assertor)
    {
      raws := raws + [inp.asserts[n].(author := inp.assertor, receipts := Scrub(inp.asserts[n].receipts))];
    }
    assert inp.asserts[..|inp.asserts|] == inp.asserts;
    var accepted: seq<string>;
    led, accepted, rejected := ApplyAsserts(ledger, raws);
    led := JudgeAccepted(led, accepted, ledger.claims, inp.corpus, inp.sandbox);
  }

  /** The loop that verifies this turn's receipts of every accepted claim. */
  method JudgeAccepted(ledger: Ledger, accepted: seq<string>, prior: seq<Claim>, corpus: string,
                       sandbox: (string, nat, nat) -> RunVerdict) returns (led: Ledger)
    ensures led == JudgeAll(ledger, accepted, prior, corpus, sandbox)
  {
    led := ledger;
    for i := 0 to |ledger.claims|
      invariant led == ledger.(claims := led.claims) && |led.claims| == |ledger.claims|
      invariant forall k :: 0 <= k < i ==>
        led.claims[k] == JudgeClaim(ledger.claims[k], accepted, prior, corpus, sandbox, k)
      invariant forall k :: i <= k < |ledger.claims| ==> led.claims[k] == ledger.claims[k]
    {
      var c := led.claims[i];
      if c.id in accepted {
        var rs := JudgeReceipts(c.receipts, Held(prior, c.id), corpus, sandbox, i);
        led := led.(claims := led.claims[i := c.(receipts := rs)]);
      }
    }
    assert led.claims == JudgeAll(ledger, accepted, prior, corpus, sandbox).claims;
  }

  /** The inner loop over one accepted claim's new receipts. */
  method JudgeReceipts(rs: seq<Receipt>, held: nat, corpus: string,
                       sandbox: (string, nat, nat) -> RunVerdict, i: nat) returns (out: seq<Receipt>)
    ensures out == JudgeFrom(rs, held, corpus, sandbox, i)
  {
    out := rs;
    var j := held;
    while j < |rs|
      invariant |out| == |rs| && held <= j
      invariant forall k :: 0 <= k < |rs| && k < j ==> out[k] == JudgeAt(rs[k], held, corpus, sandbox, i, k)
      invariant forall k :: j <= k < |rs| ==> out[k] == rs[k]
    {
      var r := out[j];
      if r.kind == "cite" {
        r := r.(ok := CiteSupported(r, corpus));
      } else if r.kind == "run" {
        var verdict := sandbox(r.code, i, j);
        r := r.(ok := verdict == Pass);
        if verdict == Inconclusive {
          r := r.(inconclusive := true);
        }
      }
      out := out[j := r];
      j := j + 1;
    }
  }

  // --- metamorph --------------------------------------------------------------------

  predicate ClerkProbed(c: Claim) {
    exists i :: 0 <= i < |c.receipts| && c.receipts[i].kind == "metamorph" && c.receipts[i].signer == "clerk"
  }

  function ClerkReceipt(p: Probe): Receipt {
    Receipt("metamorph", "", "", "", p.text, false, p.stable, false, "clerk")
  }

  function ProbeClaim(c: Claim, p: Option<Probe>): Claim {
    if c.status != Open || Compoundable(c) || ClerkProbed(c) || p == None then c
    else c.(receipts := c.receipts + [ClerkReceipt(p.value)])
  }

  function Probed(led: Ledger, probe: nat -> Option<Probe>): Ledger {
    led.(claims := seq(|led.claims|, i requires 0 <= i < |led.claims| => ProbeClaim(led.claims[i], probe(i))))
  }

  /** `_clerk_metamorph`. */
  method ClerkMetamorph(ledger: Ledger, probe: nat -> Option<Probe>) returns (led: Ledger)
    ensures led == Probed(ledger, probe)
  {
    led := ledger;
    for i := 0 to |ledger.claims|
      invariant led == ledger.(claims := led.claims) && |led.claims| == |ledger.claims|
      invariant forall k :: 0 <= k < i ==> led.claims[k] == ProbeClaim(ledger.claims[k], probe(k))
      invariant forall k :: i <= k < |ledger.claims| ==> led.claims[k] == ledger.claims[k]
    {
      var c := led.claims[i];
      if c.status != Open || Compoundable(c) || ClerkProbed(c) {
        continue;
      }
      var p := probe(i);
      if p.Some? {
        led := led.(claims := led.claims[i := c.(receipts := c.receipts + [ClerkReceipt(p.value)])]);
      }
    }
    assert led.claims == Probed(ledger, probe).claims;
  }

  // --- attacks ----------------------------------------------------------------------

  /** An accepted kill moves reputation: one kill for the killer, one death for the author. */
  function Slain(led: Ledger, target: Claim, killer: string, kind: string, round: nat): Ledger {
    var domain := if target.domain == "" then "general" else target.domain;
    BumpRep(BumpRep(RecordKill(led, target.id, FalsifyLedger.Kill(killer, kind, round, true, false)),
                    killer, domain, Kills),
            target.author, domain, Deaths)
  }

  function Withstood(led: Ledger, target: string, killer: string, kind: string, round: nat): Ledger {
    RecordKill(led, target, FalsifyLedger.Kill(killer, kind, round, false, false))
  }

  /** The claim a `contra` move registers. */
  function ContraClaim(atk: Attack, target: Claim, killer: string): RawClaim {
    RawClaim(Strip(atk.newId),
             if atk.text == "" then "contradicts " + target.id else atk.text,
             killer,
             if atk.domain != "" then atk.domain
             else if target.domain == "" then "general" else target.domain,
             [Receipt("cite", atk.quote, "", "", "", true, false, false, "")], Open, [], 0)
  }

  predicate RegistersContra(led: Ledger, atk: Attack, corpus: string) {
    && Strip(atk.newId) != ""
    && atk.quote != "" && Contains(atk.quote, corpus)
    && IndexOf(led.claims, Strip(atk.newId)) < 0
  }

  ghost function ContraMove(led: Ledger, atk: Attack, target: Claim, killer: string, corpus: string,
                            round: nat): Ledger {
    var newId := Strip(atk.newId);
    if RegistersContra(led, atk, corpus) then
      var raw := ContraClaim(atk, target, killer);
      var grown := Ingest(led, raw);
      if Admissible(led, raw) && ContraValid(grown, newId, target.id) then
        Slain(AddContraEdge(grown, newId, target.id), target, killer, "contra", round)
      else Withstood(grown, target.id, killer, "contra", round)
    else Withstood(led, target.id, killer, "contra", round)
  }

  ghost function AttackOne(led: Ledger, atk: Attack, killer: string, corpus: string, round: nat): Ledger {
    var i := IndexOf(led.claims, Strip(atk.target));
    if i < 0 || led.claims[i].status == Killed then led
    else
      var target := led.claims[i];
      if atk.move == "contra" then ContraMove(led, atk, target, killer, corpus, round)
      else if atk.move == "run" then
        match atk.verdict
        case Fail => Slain(led, target, killer, "run", round)
        case Pass => Withstood(led, target.id, killer, "run", round)
        case Inconclusive => led
      else if Compoundable(target) then Withstood(led, target.id, killer, "challenge", round)
      else Slain(led, target, killer, "challenge", round)
  }

  ghost function Attacked(led: Ledger, atks: seq<Attack>, killer: string, corpus: string, round: nat): Ledger {
    if atks == [] then led
    else AttackOne(Attacked(led, atks[..|atks| - 1], killer, corpus, round), atks[|atks| - 1],
                   killer, corpus, round)
  }

  /** `_clerk_attacks`. */
  method ClerkAttacks(ledger: Ledger, atks: seq<Attack>, killer: string, corpus: string, round: nat)
    returns (led: Ledger)
    ensures led == Attacked(ledger, atks, killer, corpus, round)
  {
    led := ledger;
    for n := 0 to |atks|
      invariant led == Attacked(ledger, atks[..n], killer, corpus, round)
    {
      assert atks[..n + 1][..n] == atks[..n];
      var atk := atks[n];
      var i := IndexOf(led.claims, Strip(atk.target));
      if i < 0 || led.claims[i].status == Killed {
        continue;
      }
      var target := led.claims[i];
      if atk.move == "contra" {
        led := ClerkContra(led, atk, target, killer, corpus, round);
        continue;
      }
      if atk.move == "run" {
        if atk.verdict == Fail {
          led := Slain(led, target, killer, "run", round);
        } else if atk.verdict == Pass {
          led := Withstood(led, target.id, killer, "run", round);
        }
        continue;
      }
      if Compoundable(target) {
        led := Withstood(led, target.id, killer, "challenge", round);
      } else {
        led := Slain(led, target, killer, "challenge", round);
      }
    }
    assert atks[..|atks|] == atks;
  }

  /** The `contra` branch of the attack loop. */
  method ClerkContra(ledger: Ledger, atk: Attack, target: Claim, killer: string, corpus: string, round: nat)
    returns (led: Ledger)
    ensures led == ContraMove(ledger, atk, target, killer, corpus, round)
  {
    led := ledger;
    var newId := Strip(atk.newId);
    if RegistersContra(led, atk, corpus) {
      var raw := ContraClaim(atk, target, killer);
      var accepted, rejected;
      led, accepted, rejected := ApplyAsserts(led, [raw]);
      assert [raw][..0] == [];
      var valid := CheckContra(led, newId, target.id);
      StripTwice(atk.newId);
      if newId in accepted && valid {
        led := Slain(AddContraEdge(led, newId, target.id), target, killer, "contra", round);
        return;
      }
    }
    led := Withstood(led, target.id, killer, "contra", round);
  }

  // --- survivors and the round --------------------------------------------------------

  predicate NewSurvivor(before: Ledger, c: Claim) {
    c.status == Survived && c.id != "" &&
    !exists k :: 0 <= k < |before.claims| && before.claims[k].id == c.id && before.claims[k].status == Survived
  }

  /** Credit the first `n` claims of `after`. */
  function CreditFirst(before: Ledger, after: Ledger, n: nat): Ledger
    requires n <= |after.claims|
  {
    if n == 0 then after
    else
      var led, c := CreditFirst(before, after, n - 1), after.claims[n - 1];
      if NewSurvivor(before, c) then
        BumpRep(led, c.author, if c.domain == "" then "general" else c.domain, Survives)
      else led
  }

  function Credited(before: Ledger, after: Ledger): Ledger {
    CreditFirst(before, after, |after.claims|)
  }

  /** `_credit_survivors`. */
  method CreditSurvivors(before: Ledger, after: Ledger) returns (led: Ledger)
    ensures led == Credited(before, after)
  {
    led := after;
    for n := 0 to |after.claims|
      invariant led == CreditFirst(before, after, n)
    {
      var c := after.claims[n];
      if NewSurvivor(before, c) {
        led := BumpRep(led, c.author, if c.domain == "" then "general" else c.domain, Survives);
      }
    }
  }

  /** The ledger once both models' blocks are in and the clerk has resolved. */
  ghost function Played(led: Ledger, inp: RoundInput): Ledger {
    var asserted := Asserted(led, inp);
    var probed := if inp.metamorph then Probed(asserted, inp.probe) else asserted;
    var attacked := Attacked(probed, inp.attacks, inp.falsifier, inp.corpus, led.round + 1);
    Credited(led, Resolved(attacked)).(round := led.round + 1)
  }

  ghost function Round(led: Ledger, inp: RoundInput): Ledger {
    var before := led.(phase := Active);
    var after := Played(before, inp);
    after.(phase := if IsFixpoint(before, after) then Fixpoint else Active)
  }

  /** Any sequence of rounds, whether or not a call stopped at a fixpoint in between. */
  ghost function Rounds(led: Ledger, inputs: seq<RoundInput>): Ledger {
    if inputs == [] then led else Round(Rounds(led, inputs[..|inputs| - 1]), inputs[|inputs| - 1])
  }

  /** One pass of the round loop of `_falsify`. */
  method PlayRound(ledger: Ledger, inp: RoundInput) returns (led: Ledger)
    ensures led == Round(ledger, inp)
  {
    hide Asserted, Probed, Attacked, Resolved, CreditFirst, IsFixpoint;
    var before := ledger.(phase := Active);
    var rejected;
    led, rejected := ClerkAsserts(before, inp);
    if inp.metamorph {
      led := ClerkMetamorph(led, inp.probe);
    }
    led := ClerkAttacks(led, inp.attacks, inp.falsifier, inp.corpus, before.round + 1);
    led := Resolve(led);
    led := CreditSurvivors(before, led);
    led := led.(round := before.round + 1);
    led := led.(phase := if IsFixpoint(before, led) then Fixpoint else Active);
  }

  ghost predicate StillActive(ledger: Ledger, inputs: seq<RoundInput>, n: nat)
    requires n <= |inputs|
  {
    Rounds(ledger, inputs[..n]).phase == Active
  }

  /** The first `n + 1` rounds are the first `n` and then one more. */
  lemma RoundsStep(ledger: Ledger, inputs: seq<RoundInput>, n: nat)
    requires n < |inputs|
    ensures Rounds(ledger, inputs[..n + 1]) == Round(Rounds(ledger, inputs[..n]), inputs[n])
  {
    assert inputs[..n + 1][..n] == inputs[..n];
  }

  /** The round loop of `_falsify`: it stops right after the first round that reaches a
      fixpoint, and otherwise plays every round it was given. */
  method PlayRounds(ledger: Ledger, inputs: seq<RoundInput>) returns (led: Ledger, played: nat)
    ensures played <= |inputs|
    ensures led == Rounds(ledger, inputs[..played])
    ensures played < |inputs| ==> played > 0 && led.phase == Fixpoint
    ensures forall n :: 0 < n < played ==> StillActive(ledger, inputs, n)
  {
    hide Round;
    led, played := ledger, 0;
    while played < |inputs|
      invariant played <= |inputs|
      invariant led == Rounds(ledger, inputs[..played])
      invariant forall n :: 0 < n <= played ==> StillActive(ledger, inputs, n)
    {
      RoundsStep(ledger, inputs, played);
      led := PlayRound(led, inputs[played]);
      played := played + 1;
      if led.phase == Fixpoint {
        return;
      }
    }
  }
}
