/** `topUpRewarder`, and `topUpMultipleEpochs`, which plans it several times from one snapshot. */
module TopUps {
  import opened Base
  import opened Emission
  import opened Rewarders
  import opened RewarderPlans

  /** The arguments of `topUpRewarder`. */
  datatype TopUp = TopUp(deployment: string, token: Token, epochAmount: Option<int>)

  /** The first slot from `i` on that pays in `token`. */
  function FindSlot(slots: seq<Slot>, token: Address, i: nat): (r: Option<nat>)
    requires i <= |slots|
    ensures r.Some? ==> i <= r.value < |slots| && slots[r.value].token == token
    ensures forall j :: i <= j < (if r.Some? then r.value else |slots|) ==> slots[j].token != token
    decreases |slots| - i
  {
    if i == |slots| then None
    else if slots[i].token == token then Some(i)
    else FindSlot(slots, token, i + 1)
  }

  /** The rewarder and the token address, when both are known and the rewarder is on chain. */
  function Locate(env: Env, s: State, t: TopUp): Result<(Address, Address)> {
    if t.deployment in env.deployments && env.deployments[t.deployment] in s.slots && t.token in env.tokens
    then Ok((env.deployments[t.deployment], env.tokens[t.token]))
    else Err
  }

  function NewRate(t: TopUp, current: int): int {
    if t.epochAmount.Some? then TokenPerEpochToTokenPerSec(t.epochAmount.value) else current
  }

  function Payment(token: Address, r: Address, rate: int): seq<Tx> {
    if rate > 0 then [Transfer(token, r, TokenPerSecToTokenPerEpoch(rate))] else []
  }

  function PlanTopUp(env: Env, s: State, t: TopUp): Result<seq<Tx>> {
    var (r, token) :- Locate(env, s, t);
    match FindSlot(s.slots[r], token, 0)
    case Some(i) =>
      var rate := NewRate(t, s.slots[r][i].rate);
      Ok(Payment(token, r, rate) + (if rate != s.slots[r][i].rate then [SetRewardRate(r, i, rate, None)] else []))
    case None =>
      if t.epochAmount.Some? && t.epochAmount.value > 0 then
        Ok([Transfer(token, r, t.epochAmount.value),
            AddRewardToken(r, token, TokenPerEpochToTokenPerSec(t.epochAmount.value))])
      else Err
  }

  method TopUpRewarder(env: Env, chain: Chain, t: TopUp) returns (r: Result<seq<Tx>>)
    ensures r == PlanTopUp(env, chain.Snapshot(), t)
  {
    var s := chain.Snapshot();
    var located := Locate(env, s, t);
    if located.Err? {
      return Err;
    }
    var (rewarder, token) := located.value;
    var rates := s.slots[rewarder];
    var i := 0;
    while i < |rates| && rates[i].token != token
      invariant i <= |rates|
      invariant FindSlot(rates, token, 0) == FindSlot(rates, token, i)
    {
      i := i + 1;
    }
    var txns: seq<Tx> := [];
    if i < |rates| {
      var newTokenRate := NewRate(t, rates[i].rate);
      assert FindSlot(rates, token, 0) == Some(i);
      if newTokenRate > 0 {
        txns := txns + [Transfer(token, rewarder, TokenPerSecToTokenPerEpoch(newTokenRate))];
      }
      if newTokenRate != rates[i].rate {
        txns := txns + [SetRewardRate(rewarder, i, newTokenRate, None)];
      }
      assert txns == Payment(token, rewarder, newTokenRate)
                     + (if newTokenRate != rates[i].rate then [SetRewardRate(rewarder, i, newTokenRate, None)] else []);
      return Ok(txns);
    } else {
      if t.epochAmount.None? || t.epochAmount.value <= 0 {
        return Err;
      }
      var newTokenRate := TokenPerEpochToTokenPerSec(t.epochAmount.value);
      txns := txns + [Transfer(token, rewarder, t.epochAmount.value)];
      txns := txns + [AddRewardToken(rewarder, token, newTokenRate)];
      assert txns == [Transfer(token, rewarder, t.epochAmount.value), AddRewardToken(rewarder, token, newTokenRate)];
      return Ok(txns);
    }
  }

  function Repeat(txs: seq<Tx>, n: nat): seq<Tx> {
    if n == 0 then [] else txs + Repeat(txs, n - 1)
  }

  /** `topUpMultipleEpochs`, concatenated: every plan is made from the same snapshot. */
  function PlanEpochs(env: Env, s: State, t: TopUp, n: nat): Result<seq<Tx>> {
    if n == 0 then Ok([]) else
      var plan :- PlanTopUp(env, s, t);
      Ok(Repeat(plan, n))
  }

  function RunSnapshot(env: Env, s: State, t: TopUp, n: nat): Option<State> {
    match PlanEpochs(env, s, t, n)
    case Err => None
    case Ok(txs) => Run(s, txs)
  }

  /** Planning and executing one top-up after the other. */
  function RunSequential(env: Env, s: State, t: TopUp, n: nat): Option<State>
    decreases n
  {
    if n == 0 then Some(s) else
      match PlanTopUp(env, s, t)
      case Err => None
      case Ok(txs) =>
        match Run(s, txs)
        case None => None
        case Some(s1) => RunSequential(env, s1, t, n - 1)
  }

  // ---------------------------------------------------------------------------------------------
  // A token that is already there
  // ---------------------------------------------------------------------------------------------

  /** Slot `i` is the one that pays in the token, and it already has the new rate. */
  predicate Settled(env: Env, s: State, t: TopUp, i: nat) {
    && Locate(env, s, t).Ok?
    && FindSlot(s.slots[Locate(env, s, t).value.0], Locate(env, s, t).value.1, 0) == Some(i)
    && NewRate(t, s.slots[Locate(env, s, t).value.0][i].rate) == s.slots[Locate(env, s, t).value.0][i].rate
  }

  lemma FindSlotSameTokens(a: seq<Slot>, b: seq<Slot>, token: Address)
    requires |a| <= |b| && forall j :: 0 <= j < |a| ==> a[j].token == b[j].token
    requires FindSlot(a, token, 0).Some?
    ensures FindSlot(b, token, 0) == FindSlot(a, token, 0)
  {
    var i := FindSlot(a, token, 0).value;
    assert b[i].token == token && forall j :: 0 <= j < i ==> b[j].token != token;
    var k := FindSlot(b, token, 0);
  }

  /** A transfer changes no slot, and rewriting the rate a slot already has changes nothing. */
  lemma RewriteIsNoOp(s: State, r: Address, i: nat, txs: seq<Tx>, token: Address, rate: int)
    requires IsSlot(s, r, i) && RateOf(s, r, i) == rate
    requires txs == [] || (rate <= MAX_RATE && txs == [SetRewardRate(r, i, rate, None)])
    ensures Run(s, Payment(token, r, rate) + txs) == Run(s, Payment(token, r, rate))
  {
    RunConcat(s, Payment(token, r, rate), txs);
    match Run(s, Payment(token, r, rate)) {
      case None =>
      case Some(s1) =>
        assert s1.slots == s.slots;
        assert s1.slots[r][i := s1.slots[r][i].(rate := rate)] == s1.slots[r];
        assert s1.slots[r := s1.slots[r]] == s1.slots;
        if txs != [] {
          RunOne(s1, txs[0]);
        }
    }
  }

  lemma PaymentKeepsSlots(s: State, token: Address, r: Address, rate: int)
    ensures Run(s, Payment(token, r, rate)).Some? ==> Run(s, Payment(token, r, rate)).value.slots == s.slots
  {
    if Payment(token, r, rate) != [] {
      RunOne(s, Payment(token, r, rate)[0]);
    }
  }

  lemma SettledPlan(env: Env, s: State, t: TopUp, i: nat)
    requires Settled(env, s, t, i)
    ensures var (r, token) := Locate(env, s, t).value;
            PlanTopUp(env, s, t) == Ok(Payment(token, r, s.slots[r][i].rate))
  {
    var (r, token) := Locate(env, s, t).value;
    var pay := Payment(token, r, s.slots[r][i].rate);
    assert pay + [] == pay;
  }

  lemma {:induction false} SettledRepeats(env: Env, s: State, t: TopUp, i: nat, txs: seq<Tx>, n: nat)
    requires Settled(env, s, t, i)
    requires var (r, token) := Locate(env, s, t).value;
             var rate := s.slots[r][i].rate;
             || txs == Payment(token, r, rate)
             || (rate <= MAX_RATE && txs == Payment(token, r, rate) + [SetRewardRate(r, i, rate, None)])
    ensures Run(s, Repeat(txs, n)) == RunSequential(env, s, t, n)
    decreases n
  {
    hide Exec, PlanTopUp, FindSlot, Payment;
    if n > 0 {
      var (r, token) := Locate(env, s, t).value;
      var rate := s.slots[r][i].rate;
      var pay := Payment(token, r, rate);
      assert pay + [] == pay;
      RewriteIsNoOp(s, r, i, if txs == pay then [] else [SetRewardRate(r, i, rate, None)], token, rate);
      SettledPlan(env, s, t, i);
      PaymentKeepsSlots(s, token, r, rate);
      RunConcat(s, txs, Repeat(txs, n - 1));
      if Run(s, pay).Some? {
        SettledRepeats(env, Run(s, pay).value, t, i, txs, n - 1);
      }
    }
  }

  /** After a top-up the slot has the new rate, and keeps it from then on. */
  lemma TopUpSettles(env: Env, s: State, t: TopUp, s1: State)
    requires Locate(env, s, t).Ok?
    requires FindSlot(s.slots[Locate(env, s, t).value.0], Locate(env, s, t).value.1, 0).Some?
    requires Run(s, PlanTopUp(env, s, t).value) == Some(s1)
    ensures var (r, token) := Locate(env, s, t).value;
            var i := FindSlot(s.slots[r], token, 0).value;
            && Settled(env, s1, t, i) && Locate(env, s1, t) == Ok((r, token))
            && s1.slots[r][i].rate == NewRate(t, s.slots[r][i].rate)
            && (s.slots[r][i].rate != s1.slots[r][i].rate ==> s1.slots[r][i].rate <= MAX_RATE)
  {
    var (r, token) := Locate(env, s, t).value;
    var i := FindSlot(s.slots[r], token, 0).value;
    var rate := NewRate(t, RateOf(s, r, i));
    var pay := Payment(token, r, rate);
    var writes := if rate != RateOf(s, r, i) then [SetRewardRate(r, i, rate, None)] else [];
    RunConcat(s, pay, writes);
    PaymentKeepsSlots(s, token, r, rate);
    if writes != [] {
      RunOne(Run(s, pay).value, writes[0]);
    }
    FindSlotSameTokens(s.slots[r], s1.slots[r], token);
  }

  lemma PresentTokenAgrees(env: Env, s: State, t: TopUp, n: nat)
    requires Locate(env, s, t).Ok?
    requires FindSlot(s.slots[Locate(env, s, t).value.0], Locate(env, s, t).value.1, 0).Some?
    ensures RunSnapshot(env, s, t, n) == RunSequential(env, s, t, n)
  {
    if n > 0 {
      var (r, token) := Locate(env, s, t).value;
      var i := FindSlot(s.slots[r], token, 0).value;
      var current := RateOf(s, r, i);
      var rate := NewRate(t, current);
      var pay := Payment(token, r, rate);
      var writes := if rate != current then [SetRewardRate(r, i, rate, None)] else [];
      var txs := pay + writes;
      assert PlanTopUp(env, s, t) == Ok(txs);
      RunConcat(s, txs, Repeat(txs, n - 1));
      match Run(s, txs) {
        case None =>
        case Some(s1) =>
          TopUpSettles(env, s, t, s1);
          assert pay + [] == pay;
          SettledRepeats(env, s1, t, i, txs, n - 1);
      }
    }
  }

  // ---------------------------------------------------------------------------------------------
  // A token that has to be added
  // ---------------------------------------------------------------------------------------------

  lemma {:induction false} RepeatedAdditions(s: State, r: Address, token: Address, amount: int, rate: int, n: nat)
    requires r in s.slots
    requires Run(s, Repeat([Transfer(token, r, amount), AddRewardToken(r, token, rate)], n)).Some?
    ensures var s' := Run(s, Repeat([Transfer(token, r, amount), AddRewardToken(r, token, rate)], n)).value;
            r in s'.slots && |s'.slots[r]| == |s.slots[r]| + n
    decreases n
  {
    if n > 0 {
      var txs := [Transfer(token, r, amount), AddRewardToken(r, token, rate)];
      RunConcat(s, txs, Repeat(txs, n - 1));
      RunTwo(s, txs[0], txs[1]);
      var s1 := Run(s, txs).value;
      RepeatedAdditions(s1, r, token, amount, rate, n - 1);
    }
  }

  lemma {:induction false} PresentTokenKeepsSlots(env: Env, s: State, t: TopUp, n: nat)
    requires Locate(env, s, t).Ok?
    requires FindSlot(s.slots[Locate(env, s, t).value.0], Locate(env, s, t).value.1, 0).Some?
    requires RunSequential(env, s, t, n).Some?
    ensures var r := Locate(env, s, t).value.0;
            var s' := RunSequential(env, s, t, n).value;
            r in s'.slots && |s'.slots[r]| == |s.slots[r]|
    decreases n
  {
    if n > 0 {
      var (r, token) := Locate(env, s, t).value;
      var txs := PlanTopUp(env, s, t).value;
      RunEffect(s, txs);
      var s1 := Run(s, txs).value;
      assert forall j :: 0 <= j < |s.slots[r]| ==> IsSlot(s, r, j) && s1.slots[r][j].token == s.slots[r][j].token;
      FindSlotSameTokens(s.slots[r], s1.slots[r], token);
      PresentTokenKeepsSlots(env, s1, t, n - 1);
    }
  }

  /** Executing the plan for a missing token appends a slot paying in it, at the new rate. */
  lemma AdditionEffect(env: Env, s: State, t: TopUp)
    requires PlanTopUp(env, s, t).Ok? && Run(s, PlanTopUp(env, s, t).value).Some?
    requires FindSlot(s.slots[Locate(env, s, t).value.0], Locate(env, s, t).value.1, 0).None?
    ensures var (r, token) := Locate(env, s, t).value;
            var s1 := Run(s, PlanTopUp(env, s, t).value).value;
            && Locate(env, s1, t) == Ok((r, token))
            && |s1.slots[r]| == |s.slots[r]| + 1
            && FindSlot(s1.slots[r], token, 0) == Some(|s.slots[r]|)
            && s1.slots[r][|s.slots[r]|].rate == TokenPerEpochToTokenPerSec(t.epochAmount.value)
  {
    var (r, token) := Locate(env, s, t).value;
    var txs := PlanTopUp(env, s, t).value;
    RunTwo(s, txs[0], txs[1]);
    var s1 := Run(s, txs).value;
    assert s1.slots[r] == s.slots[r] + [s1.slots[r][|s.slots[r]|]];
    var k := FindSlot(s1.slots[r], token, 0);
    assert s1.slots[r][|s.slots[r]|].token == token;
  }

  /**
   Planning all the epochs from one snapshot comes to the same as planning and executing them one by one,
   to the last balance, exactly when the rewarder already pays in the token or there is at most one epoch.
   (Where both fail there is nothing to compare.)
   */
  lemma SnapshotEqualsSequential(env: Env, s: State, t: TopUp, n: nat)
    requires Locate(env, s, t).Ok?
    requires RunSnapshot(env, s, t, n).Some? || RunSequential(env, s, t, n).Some?
    ensures RunSnapshot(env, s, t, n) == RunSequential(env, s, t, n) <==>
            n <= 1 || FindSlot(s.slots[Locate(env, s, t).value.0], Locate(env, s, t).value.1, 0).Some?
  {
    var (r, token) := Locate(env, s, t).value;
    if FindSlot(s.slots[r], token, 0).Some? {
      PresentTokenAgrees(env, s, t, n);
    } else if n == 1 {
      var txs := PlanTopUp(env, s, t).value;
      assert Repeat(txs, 1) == txs + Repeat(txs, 0) == txs;
    } else if n > 1 && RunSnapshot(env, s, t, n).Some? && RunSequential(env, s, t, n).Some? {
      var txs := PlanTopUp(env, s, t).value;
      RepeatedAdditions(s, r, token, t.epochAmount.value, TokenPerEpochToTokenPerSec(t.epochAmount.value), n);
      AdditionEffect(env, s, t);
      PresentTokenKeepsSlots(env, Run(s, txs).value, t, n - 1);
    }
  }

  /** The rate of the slot found for a token, zero when there is none. */
  function FoundRate(s: State, r: Address, token: Address): nat
    requires r in s.slots
  {
    match FindSlot(s.slots[r], token, 0)
    case None => 0
    case Some(i) => s.slots[r][i].rate
  }

  lemma PresentTopUpEffect(env: Env, s: State, t: TopUp)
    requires PlanTopUp(env, s, t).Ok? && Run(s, PlanTopUp(env, s, t).value).Some?
    requires FindSlot(s.slots[Locate(env, s, t).value.0], Locate(env, s, t).value.1, 0).Some?
    ensures var (r, token) := Locate(env, s, t).value;
            var plan, s' := PlanTopUp(env, s, t).value, Run(s, PlanTopUp(env, s, t).value).value;
            var rate := NewRate(t, FoundRate(s, r, token));
            && r in s'.slots && FoundRate(s', r, token) == rate
            && SentTo(plan, token, r) == Sent(plan, token) == rate * EPOCH_SECONDS
  {
    var (r, token) := Locate(env, s, t).value;
    var plan, s' := PlanTopUp(env, s, t).value, Run(s, PlanTopUp(env, s, t).value).value;
    var i := FindSlot(s.slots[r], token, 0).value;
    var rate := NewRate(t, RateOf(s, r, i));
    var pay := Payment(token, r, rate);
    var writes := if rate != RateOf(s, r, i) then [SetRewardRate(r, i, rate, None)] else [];
    assert plan == pay + writes;
    assert pay != [] ==> pay[1..] == [];
    assert writes != [] ==> writes[1..] == [];
    ConcatMeasures(pay, writes);
    RunConcat(s, pay, writes);
    if writes != [] {
      RunOne(Run(s, pay).value, writes[0]);
    }
    FindSlotSameTokens(s.slots[r], s'.slots[r], token);
  }

  /** There is a plan exactly when rewarder and token are known, and a token not paid yet comes with an amount. */
  lemma TopUpPlanIff(env: Env, s: State, t: TopUp)
    ensures PlanTopUp(env, s, t).Ok? <==>
            && t.deployment in env.deployments && env.deployments[t.deployment] in s.slots && t.token in env.tokens
            && ((exists i :: && 0 <= i < |s.slots[env.deployments[t.deployment]]|
                             && s.slots[env.deployments[t.deployment]][i].token == env.tokens[t.token])
                || (t.epochAmount.Some? && t.epochAmount.value > 0))
  {
  }

  /** The balances after the multisig has sent `amount` to `r`. */
  ghost predicate Paid(s: State, s': State, token: Address, r: Address, amount: int) {
    forall t, h :: Balance(s', t, h) ==
                   Balance(s, t, h) + (if t == token && h == r then amount else 0)
                   - (if t == token && h == s.multisig then amount else 0)
  }

  /** Topping up without an amount pays one epoch of the current rate and changes no slot. */
  lemma RefillEffect(env: Env, s: State, t: TopUp, r: Address, token: Address, i: nat)
    requires t.epochAmount == None
    requires t.deployment in env.deployments && env.deployments[t.deployment] == r && r in s.slots
    requires t.token in env.tokens && env.tokens[t.token] == token
    requires i < |s.slots[r]| && s.slots[r][i].token == token
    requires forall j :: 0 <= j < i ==> s.slots[r][j].token != token
    ensures PlanTopUp(env, s, t).Ok?
    ensures var after := Run(s, PlanTopUp(env, s, t).value);
            var amount := s.slots[r][i].rate * 604800;
            && (after.Some? <==> amount == 0 || amount <= Balance(s, token, s.multisig))
            && (after.Some? ==>
                  && after.value.slots == s.slots && after.value.multisig == s.multisig
                  && Paid(s, after.value, token, r, amount))
  {
    var rate := s.slots[r][i].rate;
    assert FindSlot(s.slots[r], token, 0) == Some(i);
    var pay := Payment(token, r, rate);
    assert pay + [] == pay;
    if rate > 0 {
      RunOne(s, pay[0]);
    }
  }

  /**
   With an amount the slot gets the rate that pays it out over an epoch, rounded toward zero, and is sent an epoch
   of that. A rate below zero is refused by the rewarder.
   */
  lemma RateChangeEffect(env: Env, s: State, t: TopUp, r: Address, token: Address, i: nat)
    requires t.epochAmount.Some?
    requires t.deployment in env.deployments && env.deployments[t.deployment] == r && r in s.slots
    requires t.token in env.tokens && env.tokens[t.token] == token
    requires i < |s.slots[r]| && s.slots[r][i].token == token
    requires forall j :: 0 <= j < i ==> s.slots[r][j].token != token
    ensures PlanTopUp(env, s, t).Ok?
    ensures var after := Run(s, PlanTopUp(env, s, t).value);
            var amount := t.epochAmount.value;
            var rate := if amount >= 0 then amount / 604800 else -(-amount / 604800);
            && (after.Some? <==>
                  && rate >= 0
                  && (rate == 0 || rate * 604800 <= Balance(s, token, s.multisig))
                  && (rate == s.slots[r][i].rate || rate <= 10000_000000000000000000))
            && (after.Some? ==>
                  && after.value.slots == s.slots[r := s.slots[r][i := Slot(token, rate)]]
                  && after.value.multisig == s.multisig && Paid(s, after.value, token, r, rate * 604800))
  {
    var amount, current := t.epochAmount.value, s.slots[r][i].rate;
    var rate := if amount >= 0 then amount / 604800 else -(-amount / 604800);
    assert FindSlot(s.slots[r], token, 0) == Some(i);
    var pay, writes := Payment(token, r, rate), if rate != current then [SetRewardRate(r, i, rate, None)] else [];
    assert PlanTopUp(env, s, t) == Ok(pay + writes);
    RunConcat(s, pay, writes);
    if rate > 0 {
      RunOne(s, pay[0]);
    }
    if Run(s, pay).Some? {
      var s1 := Run(s, pay).value;
      assert s1.slots == s.slots;
      if rate != current {
        RunOne(s1, writes[0]);
      } else {
        assert s.slots[r][i := Slot(token, rate)] == s.slots[r];
      }
    }
  }

  /** A token not paid yet is added at the end, and is sent the whole amount. */
  lemma NewTokenEffect(env: Env, s: State, t: TopUp, r: Address, token: Address)
    requires t.epochAmount.Some? && t.epochAmount.value > 0
    requires t.deployment in env.deployments && env.deployments[t.deployment] == r && r in s.slots
    requires t.token in env.tokens && env.tokens[t.token] == token
    requires forall j :: 0 <= j < |s.slots[r]| ==> s.slots[r][j].token != token
    ensures PlanTopUp(env, s, t).Ok?
    ensures var after := Run(s, PlanTopUp(env, s, t).value);
            var amount := t.epochAmount.value;
            && (after.Some? <==>
                  amount <= Balance(s, token, s.multisig) && amount / 604800 <= 0xFFFF_FFFF_FFFF_FFFF_FFFF_FFFF)
            && (after.Some? ==>
                  && after.value.slots == s.slots[r := s.slots[r] + [Slot(token, amount / 604800)]]
                  && after.value.multisig == s.multisig && Paid(s, after.value, token, r, amount))
  {
    assert FindSlot(s.slots[r], token, 0) == None;
    var plan := PlanTopUp(env, s, t).value;
    RunTwo(s, plan[0], plan[1]);
  }

  /**
   What one top-up sends covers one epoch at the rate it leaves behind, with less than one unit per second
   to spare; it never exceeds an explicit epoch amount, nor falls short of it by more than that.
   */
  lemma TopUpFundsOneEpoch(env: Env, s: State, t: TopUp)
    requires PlanTopUp(env, s, t).Ok? && Run(s, PlanTopUp(env, s, t).value).Some?
    requires t.epochAmount.Some? ==> t.epochAmount.value >= 0
    ensures var (r, token) := Locate(env, s, t).value;
            var plan, s' := PlanTopUp(env, s, t).value, Run(s, PlanTopUp(env, s, t).value).value;
            && r in s'.slots
            && var sent, due := SentTo(plan, token, r), FoundRate(s', r, token) * EPOCH_SECONDS;
               && sent == Sent(plan, token)
               && due <= sent < due + EPOCH_SECONDS
               && (t.epochAmount.Some? ==> sent <= t.epochAmount.value < sent + EPOCH_SECONDS)
  {
    var (r, token) := Locate(env, s, t).value;
    var plan := PlanTopUp(env, s, t).value;
    if t.epochAmount.Some? {
      EpochRoundTrip(t.epochAmount.value, 0);
    }
    match FindSlot(s.slots[r], token, 0) {
      case None =>
        AdditionEffect(env, s, t);
        var transfer, addition := [plan[0]], [plan[1]];
        assert plan == transfer + addition && transfer[1..] == [] && addition[1..] == [];
        ConcatMeasures(transfer, addition);
      case Some(i) =>
        PresentTopUpEffect(env, s, t);
    }
  }
}
