/** The rule-based CoinJoin classifier: six rules over a transaction's `vin`
    and `vout` lists, and `IsCoinjoinLike`, which runs them in a fixed order
    and stops at the first rule that fails. */
module Coinjoin {
  import opened Transaction
  import opened Log2

  // ---------------------------------------------------------------------
  // Rule 1: at least three inputs.

  predicate HasMinimumInputs(vin: seq<Input>)
  {
    |vin| >= 3
  }

  // ---------------------------------------------------------------------
  // Rule 2: enough outputs for the inputs. The source takes
  // `int(math.log2(len(vout)))`, which raises on an empty `vout`, and compares
  // `len(vout) < len(vin) / 2` in floating point, which for counts is
  // `2 * |vout| < |vin|`.

  function HasSufficientOutputs(vin: seq<Input>, vout: seq<Output>): (r: Result<bool>)
    ensures |vout| == 0 ==> r == Err(MathDomainError)
    ensures 0 < |vout| < 64 ==> r == Ok(|vout| >= |vin|)
    ensures |vout| >= 64 ==> r == Ok(2 * |vout| >= |vin|)
  {
    if |vout| == 0 then
      Err(MathDomainError)
    else
      FloorLog2Below(|vout|, 6);
      if FloorLog2(|vout|) < 6 then Ok(!(|vout| < |vin|))
      else Ok(!(2 * |vout| < |vin|))
  }

  // ---------------------------------------------------------------------
  // Rule 5: fewer outputs than twice the inputs.

  predicate HasReasonableOutputCount(vin: seq<Input>, vout: seq<Output>)
  {
    var maxOutputCount := |vin| * 2;
    !(|vout| >= maxOutputCount)
  }

  // ---------------------------------------------------------------------
  // Rule 3: some output value repeats at least `RepeatTarget(|vout|)` times.

  /** `max(min(int(math.log2(n)) + 1, 5), 3)`: 3 below 8 outputs, 4 from 8 to 15, 5 from 16 on. */
  function RepeatTarget(n: nat): (target: nat)
    requires n >= 1
    ensures 3 <= target <= 5
    ensures n < 8 ==> target == 3
    ensures 8 <= n < 16 ==> target == 4
    ensures 16 <= n ==> target == 5
  {
    FloorLog2Below(n, 3);
    FloorLog2Below(n, 4);
    var bits := FloorLog2(n) + 1;
    var capped := if bits < 5 then bits else 5;
    if capped > 3 then capped else 3
  }

  /** How many outputs carry the value `x`; outputs without a value are not counted. */
  function Occurrences(vout: seq<Output>, x: real): (c: nat)
    ensures c <= |vout|
  {
    if vout == [] then 0
    else Occurrences(vout[..|vout| - 1], x) + (if vout[|vout| - 1].value == Some(x) then 1 else 0)
  }

  /** Rule 3 as a property: at least three outputs, and some value carried by
      at least `RepeatTarget(|vout|)` of them. */
  ghost predicate RepeatedValueRule(vout: seq<Output>)
  {
    |vout| >= 3 && exists x :: Occurrences(vout, x) >= RepeatTarget(|vout|)
  }

  /** The count a tally map holds for `x`, zero when `x` was never seen. */
  function Tally(valueCounts: map<real, nat>, x: real): nat
  {
    if x in valueCounts then valueCounts[x] else 0
  }

  /** Tallies the present output values in a map (the source's `Counter`),
      then looks for a tally that reaches the target. */
  method HasRepeatedOutputValue(vout: seq<Output>) returns (r: bool)
    ensures r == RepeatedValueRule(vout)
  {
    if |vout| < 3 {
      return false;
    }
    var target := RepeatTarget(|vout|);
    var valueCounts: map<real, nat> := map[];
    var i := 0;
    while i < |vout|
      invariant 0 <= i <= |vout|
      invariant forall x :: Tally(valueCounts, x) == Occurrences(vout[..i], x)
    {
      assert vout[..i + 1][..i] == vout[..i];
      match vout[i].value {
        case Some(x) =>
          valueCounts := valueCounts[x := Tally(valueCounts, x) + 1];
        case None =>
      }
      i := i + 1;
    }
    assert vout[..i] == vout;
    r := AnyCountReaches(valueCounts, target);
    if r {
      var x :| x in valueCounts && valueCounts[x] >= target;
      assert Occurrences(vout, x) == Tally(valueCounts, x);
    }
  }

  /** `any(count >= target for count in value_counts.values())`, visiting the
      tallied values one at a time. */
  method AnyCountReaches(valueCounts: map<real, nat>, target: nat) returns (found: bool)
    ensures found <==> exists x :: x in valueCounts && valueCounts[x] >= target
  {
    var remaining := valueCounts.Keys;
    while remaining != {}
      invariant remaining <= valueCounts.Keys
      invariant forall x :: x in valueCounts && x !in remaining ==> valueCounts[x] < target
      decreases remaining
    {
      assert exists y :: y in remaining by {
        if forall y :: y !in remaining {
          assert false;
        }
      }
      var x :| x in remaining;
      if valueCounts[x] >= target {
        return true;
      }
      remaining := remaining - {x};
    }
    return false;
  }

  lemma {:induction false} OccurrencesAppend(a: seq<Output>, b: seq<Output>, x: real)
    ensures Occurrences(a + b, x) == Occurrences(a, x) + Occurrences(b, x)
    decreases |b|
  {
    if b == [] {
      assert a + b == a;
    } else {
      var n := |b| - 1;
      assert (a + b)[..|a + b| - 1] == a + b[..n];
      OccurrencesAppend(a, b[..n], x);
    }
  }

  /** The tally does not depend on the order of the outputs. */
  lemma {:induction false} OccurrencesIgnoreOrder(a: seq<Output>, b: seq<Output>, x: real)
    requires multiset(a) == multiset(b)
    ensures Occurrences(a, x) == Occurrences(b, x)
    decreases |a|
  {
    if a != [] {
      var n := |a| - 1;
      var last := a[n];
      assert a == a[..n] + [last];
      assert last in multiset(b);
      var k :| 0 <= k < |b| && b[k] == last;
      assert b == b[..k] + [last] + b[k + 1..];
      assert multiset(a) == multiset(a[..n]) + multiset{last};
      assert multiset(b) == multiset(b[..k]) + multiset{last} + multiset(b[k + 1..]);
      assert multiset(b[..k] + b[k + 1..]) == multiset(b[..k]) + multiset(b[k + 1..]);
      assert multiset(a[..n]) == multiset(b[..k] + b[k + 1..]) by {
        forall o: Output
          ensures multiset(a[..n])[o] == multiset(b[..k] + b[k + 1..])[o]
        {
          assert multiset(a)[o] == multiset(b)[o];
        }
      }
      OccurrencesIgnoreOrder(a[..n], b[..k] + b[k + 1..], x);
      OccurrencesAppend(b[..k], b[k + 1..], x);
      OccurrencesAppend(b[..k] + [last], b[k + 1..], x);
      OccurrencesAppend(b[..k], [last], x);
      assert [last][..0] == [];
    } else {
      assert |b| == |multiset(b)| == 0;
    }
  }

  /** Rule 3 sees the outputs as a multiset: reordering them never changes it. */
  lemma RepeatedValueRuleIgnoresOrder(a: seq<Output>, b: seq<Output>)
    requires multiset(a) == multiset(b)
    ensures RepeatedValueRule(a) == RepeatedValueRule(b)
  {
    assert |a| == |multiset(a)| == |multiset(b)| == |b|;
    forall x
      ensures Occurrences(a, x) == Occurrences(b, x)
    {
      OccurrencesIgnoreOrder(a, b, x);
    }
  }

  /** With at least three outputs, five outputs of one value always satisfy
      rule 3 and two never do, whatever the output count. */
  lemma RepeatedValueRuleBounds(vout: seq<Output>, x: real)
    requires |vout| >= 3
    ensures Occurrences(vout, x) >= 5 ==> RepeatedValueRule(vout)
    ensures (forall y :: Occurrences(vout, y) <= 2) ==> !RepeatedValueRule(vout)
  {
  }

  // ---------------------------------------------------------------------
  // Rule 4: under one value, an address must not repeat the address last
  // recorded for that value. The source keeps one address per value in a
  // dictionary and overwrites it, so only the most recent address is compared.

  /** One (value, address) pair visited by the scan. */
  datatype ValueAddress = ValueAddress(value: real, address: string)

  /** The pairs the scan visits for one output: none unless the value is
      truthy and the address list non-empty. */
  function OutputPairs(output: Output): seq<ValueAddress>
  {
    var addresses := Addresses(output);
    if Truthy(output.value) && |addresses| > 0 then
      seq(|addresses|, j requires 0 <= j < |addresses| => ValueAddress(output.value.value, addresses[j]))
    else
      []
  }

  /** All pairs in scan order: outputs in order, each output's addresses in order. */
  function Pairs(vout: seq<Output>): seq<ValueAddress>
  {
    if vout == [] then []
    else Pairs(vout[..|vout| - 1]) + OutputPairs(vout[|vout| - 1])
  }

  /** The address of the last pair in `ps` with value `x`: what the source's
      dictionary holds for `x` after visiting `ps`. */
  function LastAddress(ps: seq<ValueAddress>, x: real): Option<string>
  {
    if ps == [] then None
    else if ps[|ps| - 1].value == x then Some(ps[|ps| - 1].address)
    else LastAddress(ps[..|ps| - 1], x)
  }

  /** The pair at position `k` repeats the address last recorded for its value before it. */
  predicate RepeatAt(ps: seq<ValueAddress>, k: int)
  {
    0 <= k < |ps| && LastAddress(ps[..k], ps[k].value) == Some(ps[k].address)
  }

  /** Some pair repeats the address last recorded for its value before it. */
  ghost predicate RepeatsLastAddress(ps: seq<ValueAddress>)
  {
    exists k :: RepeatAt(ps, k)
  }

  /** Rule 4 as a property of the whole output list. */
  ghost predicate SameValueRule(vout: seq<Output>)
  {
    !RepeatsLastAddress(Pairs(vout))
  }

  function Lookup(m: map<real, string>, x: real): Option<string>
  {
    if x in m then Some(m[x]) else None
  }

  lemma {:induction false} PairsAppend(a: seq<Output>, b: seq<Output>)
    ensures Pairs(a + b) == Pairs(a) + Pairs(b)
    decreases |b|
  {
    if b == [] {
      assert a + b == a;
    } else {
      var n := |b| - 1;
      assert (a + b)[..|a + b| - 1] == a + b[..n];
      assert (a + b)[|a + b| - 1] == b[n];
      PairsAppend(a, b[..n]);
      calc {
        Pairs(a + b);
        Pairs(a + b[..n]) + OutputPairs(b[n]);
        Pairs(a) + Pairs(b[..n]) + OutputPairs(b[n]);
        Pairs(a) + Pairs(b);
      }
    }
  }

  lemma RepeatsAppend(ps: seq<ValueAddress>, p: ValueAddress)
    ensures RepeatsLastAddress(ps + [p]) <==> RepeatsLastAddress(ps) || LastAddress(ps, p.value) == Some(p.address)
  {
    var qs := ps + [p];
    assert qs[..|ps|] == ps;
    forall k | 0 <= k < |ps|
      ensures qs[..k] == ps[..k] && qs[k] == ps[k]
    {
    }
    if RepeatsLastAddress(qs) {
      var k :| RepeatAt(qs, k);
      if k < |ps| {
        assert RepeatAt(ps, k);
      }
    }
    if RepeatsLastAddress(ps) {
      var k :| RepeatAt(ps, k);
      assert RepeatAt(qs, k);
    }
    if LastAddress(ps, p.value) == Some(p.address) {
      assert RepeatAt(qs, |ps|);
    }
  }

  lemma RepeatsExtend(ps: seq<ValueAddress>, qs: seq<ValueAddress>)
    requires RepeatsLastAddress(ps)
    ensures RepeatsLastAddress(ps + qs)
  {
    var k :| RepeatAt(ps, k);
    assert (ps + qs)[..k] == ps[..k];
    assert (ps + qs)[k] == ps[k];
    assert RepeatAt(ps + qs, k);
  }

  /** Walks the outputs and their addresses, remembering the last address per
      value, and fails as soon as an address equals the one remembered. */
  method HasSameValueDifferentAddresses(vout: seq<Output>) returns (r: bool)
    ensures r == SameValueRule(vout)
  {
    var seenValues: map<real, string> := map[];
    ghost var visited: seq<ValueAddress> := [];
    var i := 0;
    while i < |vout|
      invariant 0 <= i <= |vout|
      invariant visited == Pairs(vout[..i])
      invariant forall x :: Lookup(seenValues, x) == LastAddress(visited, x)
      invariant !RepeatsLastAddress(visited)
    {
      var output := vout[i];
      assert vout[..i + 1][..i] == vout[..i];
      assert Pairs(vout[..i + 1]) == visited + OutputPairs(output);
      if Truthy(output.value) && |Addresses(output)| > 0 {
        var ok;
        ok, seenValues := RecordAddresses(seenValues, visited, output);
        if !ok {
          PairsAppend(vout[..i + 1], vout[i + 1..]);
          assert vout[..i + 1] + vout[i + 1..] == vout;
          RepeatsExtend(visited + OutputPairs(output), Pairs(vout[i + 1..]));
          return false;
        }
      } else {
        assert visited + OutputPairs(output) == visited;
      }
      visited := visited + OutputPairs(output);
      i := i + 1;
    }
    assert vout[..i] == vout;
    return true;
  }

  /** The inner loop of the scan, over the addresses of one output with a
      truthy value: records each address as the last one for that value, and
      stops at the first address equal to the one already recorded. */
  method RecordAddresses(seenValues: map<real, string>, ghost visited: seq<ValueAddress>, output: Output)
    returns (ok: bool, updated: map<real, string>)
    requires Truthy(output.value) && |Addresses(output)| > 0
    requires forall x :: Lookup(seenValues, x) == LastAddress(visited, x)
    requires !RepeatsLastAddress(visited)
    ensures ok == !RepeatsLastAddress(visited + OutputPairs(output))
    ensures ok ==> forall x :: Lookup(updated, x) == LastAddress(visited + OutputPairs(output), x)
  {
    var value := output.value.value;
    var addresses := Addresses(output);
    ghost var ops := OutputPairs(output);
    ghost var done := visited;
    updated := seenValues;
    var j := 0;
    while j < |addresses|
      invariant 0 <= j <= |addresses| == |ops|
      invariant done == visited + ops[..j]
      invariant forall x :: Lookup(updated, x) == LastAddress(done, x)
      invariant !RepeatsLastAddress(done)
    {
      var address := addresses[j];
      ghost var pair := ValueAddress(value, address);
      assert ops[..j + 1] == ops[..j] + [pair];
      RepeatsAppend(done, pair);
      if value in updated && updated[value] == address {
        assert visited + ops == (done + [pair]) + ops[j + 1..];
        RepeatsExtend(done + [pair], ops[j + 1..]);
        return false, updated;
      }
      RememberLast(updated, done, pair);
      updated := updated[value := address];
      done := done + [pair];
      j := j + 1;
    }
    assert ops[..j] == ops;
    return true, updated;
  }

  /** Overwriting the entry for a pair's value keeps the map equal to the
      last address per value. */
  lemma RememberLast(seenValues: map<real, string>, ps: seq<ValueAddress>, p: ValueAddress)
    requires forall x :: Lookup(seenValues, x) == LastAddress(ps, x)
    ensures forall x :: Lookup(seenValues[p.value := p.address], x) == LastAddress(ps + [p], x)
  {
    assert (ps + [p])[..|ps|] == ps;
  }

  /** An output the scan skips (no truthy value, or no address) contributes
      no pair, wherever it stands, so it never changes rule 4. */
  lemma SkippedOutputIgnored(a: seq<Output>, output: Output, b: seq<Output>)
    requires !Truthy(output.value) || |Addresses(output)| == 0
    ensures Pairs(a + [output] + b) == Pairs(a + b)
    ensures SameValueRule(a + [output] + b) == SameValueRule(a + b)
  {
    PairsAppend(a + [output], b);
    PairsAppend(a, [output]);
    PairsAppend(a, b);
    assert [output][..0] == [];
    assert Pairs([output]) == [];
  }

  /** Outputs without addresses give the scan nothing to compare. */
  lemma {:induction false} NoAddressesNoPairs(vout: seq<Output>)
    requires forall k :: 0 <= k < |vout| ==> Addresses(vout[k]) == []
    ensures Pairs(vout) == []
  {
    if vout != [] {
      NoAddressesNoPairs(vout[..|vout| - 1]);
    }
  }

  lemma {:induction false} LastAddressOccurs(ps: seq<ValueAddress>, x: real)
    ensures LastAddress(ps, x).Some? ==> ValueAddress(x, LastAddress(ps, x).value) in ps
  {
    if ps != [] && ps[|ps| - 1].value != x {
      var init := ps[..|ps| - 1];
      LastAddressOccurs(init, x);
      if LastAddress(init, x).Some? {
        var m :| 0 <= m < |init| && init[m] == ValueAddress(x, LastAddress(init, x).value);
        assert ps[m] == init[m];
      }
    }
  }

  /** The reading of rule 4's docstring (Coinjoin.py:105) under which no
      (value, address) pair may occur twice is stricter than the code: output
      lists meeting it always pass rule 4, which only rejects some repeats. */
  lemma DistinctPairsPass(vout: seq<Output>)
    requires forall k, m :: 0 <= k < m < |Pairs(vout)| ==> Pairs(vout)[k] != Pairs(vout)[m]
    ensures SameValueRule(vout)
  {
    var ps := Pairs(vout);
    if RepeatsLastAddress(ps) {
      var k :| RepeatAt(ps, k);
      LastAddressOccurs(ps[..k], ps[k].value);
      assert false;
    }
  }

  function SingleAddressOutput(value: real, address: string): Output
  {
    Output(Some(value), Some(ScriptPubKey(Some([address]), None)))
  }

  /** Only the last address per value is remembered, so rule 4 depends on the
      order of the outputs: addresses a, b, a under one value pass, while the
      same three outputs ordered a, a, b fail. */
  lemma OnlyLastAddressCompared(v: real, a: string, b: string)
    requires v != 0.0 && a != b
    ensures SameValueRule([SingleAddressOutput(v, a), SingleAddressOutput(v, b), SingleAddressOutput(v, a)])
    ensures !SameValueRule([SingleAddressOutput(v, a), SingleAddressOutput(v, a), SingleAddressOutput(v, b)])
  {
    var oa, ob := SingleAddressOutput(v, a), SingleAddressOutput(v, b);
    var pa, pb := ValueAddress(v, a), ValueAddress(v, b);
    assert OutputPairs(oa) == [pa];
    assert OutputPairs(ob) == [pb];
    assert Pairs([oa]) == [pa] by { assert [oa][..0] == []; }

    var aba := [oa, ob, oa];
    assert aba[..2] == [oa, ob] && [oa, ob][..1] == [oa];
    assert Pairs(aba) == [pa, pb, pa];
    var ps := [pa, pb, pa];
    assert ps[..1] == [pa] && ps[..2] == [pa, pb];
    assert [pa, pb][..1] == [pa];
    assert !RepeatAt(ps, 0) && !RepeatAt(ps, 1) && !RepeatAt(ps, 2);

    var aab := [oa, oa, ob];
    assert aab[..2] == [oa, oa] && [oa, oa][..1] == [oa];
    assert Pairs(aab) == [pa, pa, pb];
    assert [pa, pa, pb][..1] == [pa];
    assert RepeatAt([pa, pa, pb], 1);
  }

  // ---------------------------------------------------------------------
  // Rule 6: no OP_RETURN output, i.e. no output of value 0 whose script type
  // is "nulldata". The source's name says "has", but the rule passes when
  // there is none.

  predicate IsOpReturn(output: Output)
  {
    output.value == Some(0.0) && ScriptType(output) == Some("nulldata")
  }

  ghost predicate NoOpReturnRule(vout: seq<Output>)
  {
    forall k :: 0 <= k < |vout| ==> !IsOpReturn(vout[k])
  }

  method HasOpReturnOutput(vout: seq<Output>) returns (r: bool)
    ensures r == NoOpReturnRule(vout)
  {
    var i := 0;
    while i < |vout|
      invariant 0 <= i <= |vout|
      invariant forall k :: 0 <= k < i ==> !IsOpReturn(vout[k])
    {
      if vout[i].value == Some(0.0) && ScriptType(vout[i]) == Some("nulldata") {
        return false;
      }
      i := i + 1;
    }
    return true;
  }

  // ---------------------------------------------------------------------
  // The classifier.

  /** The conjunction of the six rules, in the order the classifier runs them;
      every rule is defined once there is at least one output. */
  ghost predicate AllRules(vin: seq<Input>, vout: seq<Output>)
    requires |vout| > 0
  {
    && HasMinimumInputs(vin)
    && HasSufficientOutputs(vin, vout) == Ok(true)
    && HasReasonableOutputCount(vin, vout)
    && SameValueRule(vout)
    && NoOpReturnRule(vout)
    && RepeatedValueRule(vout)
  }

  /** Runs the rules in order and stops at the first failure; raises (here:
      returns `Err`) when rule 1 passes and `vout` is empty. */
  method IsCoinjoinLike(tx: Tx) returns (verdict: Result<bool>)
    ensures |Vin(tx)| < 3 ==> verdict == Ok(false)
    ensures |Vout(tx)| == 0 ==> verdict == (if |Vin(tx)| >= 3 then Err(MathDomainError) else Ok(false))
    ensures |Vout(tx)| > 0 ==> verdict == Ok(AllRules(Vin(tx), Vout(tx)))
  {
    var vin := Vin(tx);
    var vout := Vout(tx);

    if !HasMinimumInputs(vin) {
      return Ok(false);
    }
    var sufficient := HasSufficientOutputs(vin, vout);
    if sufficient.Err? {
      return Err(sufficient.error);
    }
    if !sufficient.value {
      return Ok(false);
    }
    if !HasReasonableOutputCount(vin, vout) {
      return Ok(false);
    }
    var differentAddresses := HasSameValueDifferentAddresses(vout);
    if !differentAddresses {
      return Ok(false);
    }
    var noOpReturn := HasOpReturnOutput(vout);
    if !noOpReturn {
      return Ok(false);
    }
    var repeated := HasRepeatedOutputValue(vout);
    if !repeated {
      return Ok(false);
    }
    return Ok(true);
  }

  /** What a positive verdict says about the counts: at least three inputs,
      fewer outputs than twice the inputs but at least three, and at least as
      many outputs as inputs below 64 outputs (half as many from 64 on). */
  lemma PositiveVerdictShape(vin: seq<Input>, vout: seq<Output>)
    requires |vout| > 0 && AllRules(vin, vout)
    ensures |vin| >= 3 && 3 <= |vout| < 2 * |vin|
    ensures |vout| < 64 ==> |vin| <= |vout|
    ensures |vout| >= 64 ==> |vin| <= 2 * |vout|
  {
  }

  /** Five inputs; six outputs without addresses, of values 1000 (three
      times), 500, 700 and 900: every rule passes (the target for six outputs is 3). */
  lemma EqualValueMixAccepted()
    ensures var vin := [Input, Input, Input, Input, Input];
      var vout := [Output(Some(1000.0), None), Output(Some(1000.0), None), Output(Some(1000.0), None),
                   Output(Some(500.0), None), Output(Some(700.0), None), Output(Some(900.0), None)];
      AllRules(vin, vout)
  {
    var vout := [Output(Some(1000.0), None), Output(Some(1000.0), None), Output(Some(1000.0), None),
                 Output(Some(500.0), None), Output(Some(700.0), None), Output(Some(900.0), None)];
    NoAddressesNoPairs(vout);
    assert !RepeatsLastAddress([]);
    assert vout[..5][..4][..3] == vout[..3];
    assert vout[..3][..2][..1] == vout[..1];
    assert Occurrences(vout[..1], 1000.0) == 1 by { assert vout[..1][..0] == []; }
    assert Occurrences(vout[..3], 1000.0) == 3;
    assert Occurrences(vout, 1000.0) == 3;
  }
}
