/**
 First-match rules on WebSocket frames (internal/rules/engine.go, internal/rules/match.go).

 `fits` is matchANDExceptPayload on the frame at hand: host, path, method, headers, opcode and
 direction, none of which reads the payload. A payload that was not loaded is `None`.
 */
module Rules {
  import opened Options
  import opened Bytes

  datatype Phase = AnyPhase | RequestPhase | ResponsePhase | WebSocketPhase

  datatype Action = Drop | Block | OtherAction

  datatype Rule = Rule(id: string, enabled: bool, phase: Phase, payloadContains: seq<Byte>, action: Action)

  /** bytes.Contains. */
  predicate Contains(s: seq<Byte>, part: seq<Byte>) {
    exists i :: 0 <= i <= |s| && part <= s[i..]
  }

  predicate MatchPayload(r: Rule, payload: Option<seq<Byte>>) {
    r.payloadContains == [] || (payload.Some? && Contains(payload.value, r.payloadContains))
  }

  /** Engine.Match: the first enabled rule of the phase that matches. */
  function Match(on: bool, rules: seq<Rule>, phase: Phase, fits: Rule -> bool,
                 payload: Option<seq<Byte>>): (hit: Option<Rule>)
    ensures hit.Some? ==> hit.value in rules && hit.value.enabled && fits(hit.value)
  {
    if !on || rules == [] then None
    else if rules[0].enabled && (rules[0].phase == AnyPhase || rules[0].phase == phase)
            && fits(rules[0]) && MatchPayload(rules[0], payload)
    then Some(rules[0])
    else Match(on, rules[1..], phase, fits, payload)
  }

  /** The part stands at position k. */
  predicate OccursAt(s: seq<Byte>, part: seq<Byte>, k: nat) {
    k + |part| <= |s| && s[k..k + |part|] == part
  }

  /** A rule matches a frame: enabled, of its phase or of none, on its host and so on, and with what it asks
      for somewhere in the payload, if it asks and the payload was loaded. */
  ghost predicate Applies(r: Rule, phase: Phase, fits: Rule -> bool, payload: Option<seq<Byte>>) {
    && r.enabled && (r.phase == AnyPhase || r.phase == phase) && fits(r)
    && (r.payloadContains == [] || (payload.Some? && exists k: nat :: OccursAt(payload.value, r.payloadContains, k)))
  }

  lemma ContainsIff(s: seq<Byte>, part: seq<Byte>)
    ensures Contains(s, part) <==> exists k: nat :: OccursAt(s, part, k)
  {
    if Contains(s, part) {
      var i :| 0 <= i <= |s| && part <= s[i..];
      assert s[i..][..|part|] == s[i..i + |part|];
      assert OccursAt(s, part, i);
    }
    if k: nat :| OccursAt(s, part, k) {
      assert s[k..][..|part|] == part;
      assert part <= s[k..];
    }
  }

  lemma AppliesIff(r: Rule, phase: Phase, fits: Rule -> bool, payload: Option<seq<Byte>>)
    ensures Applies(r, phase, fits, payload)
      <==> r.enabled && (r.phase == AnyPhase || r.phase == phase) && fits(r) && MatchPayload(r, payload)
  {
    if payload.Some? {
      ContainsIff(payload.value, r.payloadContains);
    }
  }

  /** The hit is the first rule in the list that matches, if the engine is on and one does. */
  lemma {:induction false} FirstMatch(on: bool, rules: seq<Rule>, phase: Phase, fits: Rule -> bool,
                                      payload: Option<seq<Byte>>)
    ensures
      var hit := Match(on, rules, phase, fits, payload);
      && (hit.None? <==> !on || forall i | 0 <= i < |rules| :: !Applies(rules[i], phase, fits, payload))
      && (hit.Some? ==>
            exists i | 0 <= i < |rules| ::
              && rules[i] == hit.value && Applies(rules[i], phase, fits, payload)
              && forall j | 0 <= j < i :: !Applies(rules[j], phase, fits, payload))
    decreases |rules|
  {
    if on && rules != [] {
      AppliesIff(rules[0], phase, fits, payload);
      hide Applies;
      if !Applies(rules[0], phase, fits, payload) {
        FirstMatch(on, rules[1..], phase, fits, payload);
        var hit := Match(on, rules[1..], phase, fits, payload);
        assert forall i | 0 < i < |rules| :: rules[i] == rules[1..][i - 1];
        if hit.Some? {
          var i :| 0 <= i < |rules[1..]| && rules[1..][i] == hit.value && Applies(rules[1..][i], phase, fits, payload)
            && forall j | 0 <= j < i :: !Applies(rules[1..][j], phase, fits, payload);
          assert rules[i + 1] == hit.value;
        }
      }
    }
  }

  predicate HasEnabledWebSocket(on: bool, rules: seq<Rule>) {
    on && exists r :: r in rules && r.enabled && r.phase == WebSocketPhase
  }

  /** Engine.NeedsFramePayload, which scans without looking at any payload. */
  predicate NeedsPayload(on: bool, rules: seq<Rule>, fits: Rule -> bool, declared: nat, visCap: int) {
    if !on || rules == [] then false
    else
      var r := rules[0];
      if !r.enabled || r.phase != WebSocketPhase || !fits(r) then NeedsPayload(on, rules[1..], fits, declared, visCap)
      else if r.payloadContains == [] then false
      else if visCap < 0 || declared > visCap then NeedsPayload(on, rules[1..], fits, declared, visCap)
      else true
  }

  /** The payload Match sees when it is loaded only on demand. */
  function LazyPayload(on: bool, rules: seq<Rule>, fits: Rule -> bool, payload: seq<Byte>,
                       visCap: int): Option<seq<Byte>> {
    if |payload| > 0 && NeedsPayload(on, rules, fits, |payload|, visCap) then Some(payload) else None
  }

  /** The payload Match would see if every frame small enough were loaded. */
  function EagerPayload(payload: seq<Byte>, visCap: int): Option<seq<Byte>> {
    if 0 < |payload| <= visCap then Some(payload) else None
  }

  /** Validated rules name a phase (internal/config/validate.go:466-479). */
  predicate Validated(rules: seq<Rule>) {
    forall r | r in rules :: r.phase != AnyPhase
  }

  /** No enabled rule without a phase asks about the payload. */
  predicate PhasedPayloads(rules: seq<Rule>) {
    forall r | r in rules :: r.enabled && r.phase == AnyPhase ==> r.payloadContains == []
  }

  lemma {:induction false} UnneededPayload(on: bool, rules: seq<Rule>, fits: Rule -> bool, payload: seq<Byte>,
                                           visCap: int)
    requires PhasedPayloads(rules) && |payload| <= visCap && !NeedsPayload(on, rules, fits, |payload|, visCap)
    ensures
      Match(on, rules, WebSocketPhase, fits, None) == Match(on, rules, WebSocketPhase, fits, Some(payload))
    decreases |rules|
  {
    if on && rules != [] {
      var r := rules[0];
      assert r in rules;
      if !(r.enabled && (r.phase == AnyPhase || r.phase == WebSocketPhase) && fits(r)) {
        UnneededPayload(on, rules[1..], fits, payload, visCap);
      }
    }
  }

  lemma {:induction false} NeedFits(on: bool, rules: seq<Rule>, fits: Rule -> bool, declared: nat, visCap: int)
    requires NeedsPayload(on, rules, fits, declared, visCap)
    ensures declared <= visCap
    decreases |rules|
  {
    var r := rules[0];
    if !r.enabled || r.phase != WebSocketPhase || !fits(r) || declared > visCap {
      NeedFits(on, rules[1..], fits, declared, visCap);
    }
  }

  /** Loading payloads only on demand never changes the verdict. */
  lemma LazyIsEager(on: bool, rules: seq<Rule>, fits: Rule -> bool, payload: seq<Byte>, visCap: int)
    requires PhasedPayloads(rules)
    ensures
      Match(on, rules, WebSocketPhase, fits, LazyPayload(on, rules, fits, payload, visCap))
      == Match(on, rules, WebSocketPhase, fits, EagerPayload(payload, visCap))
  {
    if |payload| > 0 && NeedsPayload(on, rules, fits, |payload|, visCap) {
      NeedFits(on, rules, fits, |payload|, visCap);
    } else if 0 < |payload| <= visCap {
      UnneededPayload(on, rules, fits, payload, visCap);
    }
  }

  lemma ValidatedIsPhased(rules: seq<Rule>)
    requires Validated(rules)
    ensures PhasedPayloads(rules)
  {
  }

  /** In particular for every rule list that passed validation. */
  lemma ValidatedLazyIsEager(on: bool, rules: seq<Rule>, fits: Rule -> bool, payload: seq<Byte>, visCap: int)
    requires Validated(rules)
    ensures
      Match(on, rules, WebSocketPhase, fits, LazyPayload(on, rules, fits, payload, visCap))
      == Match(on, rules, WebSocketPhase, fits, EagerPayload(payload, visCap))
  {
    ValidatedIsPhased(rules);
    LazyIsEager(on, rules, fits, payload, visCap);
  }

  /** A rule without a phase, which validation rejects, would be judged differently. */
  lemma UnphasedRuleDiffers(id: string, payload: seq<Byte>, visCap: int)
    requires 0 < |payload| <= visCap
    ensures
      var rules := [Rule(id, true, AnyPhase, payload, Drop)];
      var fits := _ => true;
      && Match(true, rules, WebSocketPhase, fits, LazyPayload(true, rules, fits, payload, visCap)) == None
      && Match(true, rules, WebSocketPhase, fits, EagerPayload(payload, visCap)).Some?
  {
    var rules := [Rule(id, true, AnyPhase, payload, Drop)];
    assert payload <= payload[0..];
    assert rules[1..] == [];
    assert !NeedsPayload(true, rules[1..], _ => true, |payload|, visCap);
  }

  /** The pump may skip the rules when no enabled rule is a websocket rule: validated rules then
      match no frame. */
  lemma {:induction false} FastPathMissesNothing(on: bool, rules: seq<Rule>, fits: Rule -> bool,
                                                 payload: Option<seq<Byte>>)
    requires Validated(rules) && !HasEnabledWebSocket(on, rules)
    ensures Match(on, rules, WebSocketPhase, fits, payload) == None
    decreases |rules|
  {
    if on && rules != [] {
      assert rules[0] in rules;
      FastPathMissesNothing(on, rules[1..], fits, payload);
    }
  }
}
