/**
 The whole-plan theorems of `updateEmissionsAndTopUp` and `pauseOrResumeRewardRate`: when a plan is
 produced, when it goes through, what state it leads to, and that planning again then proposes nothing.
 */
module Convergence {
  import opened Base
  import opened Emission
  import opened Ledger
  import opened Rewarders
  import opened RewarderPlans

  // ---------------------------------------------------------------------------------------------
  // When there is a plan
  // ---------------------------------------------------------------------------------------------

  predicate SlotPlannable(s: State, h: Handler, e: RewarderConfig, r: Address, i: nat)
    requires IsSlot(s, r, i)
  {
    && i < |e.tokenPerSec|
    && (h.PauseOrResumeRewardRate? ==> e.tokenPerSec[i] >= 0 && !(e.isV2 && Writes(s, h, e, r, i)))
  }

  predicate Plannable(env: Env, s: State, h: Handler, e: RewarderConfig) {
    && Resolved(env, s, e)
    && forall i :: 0 <= i < |e.rewardTokens| ==> SlotPlannable(s, h, e, AddressOf(env, e).value, i)
  }

  lemma {:induction false} PlanSlotsOkIff(s: State, h: Handler, e: RewarderConfig, r: Address, i: nat)
    requires r in s.slots && |s.slots[r]| == |e.rewardTokens| && i <= |s.slots[r]| && Solvent(s)
    ensures PlanSlots(s, h, e, r, i).Ok? <==>
            forall j :: i <= j < |e.rewardTokens| ==> SlotPlannable(s, h, e, r, j)
    decreases |e.rewardTokens| - i
  {
    if i < |e.rewardTokens| {
      PlanSlotForm(s, h, e, r, i);
      assert PlanSlot(s, h, e, r, i).Ok? <==> SlotPlannable(s, h, e, r, i);
      PlanSlotsOkIff(s, h, e, r, i + 1);
    }
  }

  /** A plan is all or nothing: one entry failing one check, and no transaction at all is proposed. */
  lemma {:induction false} PlanOkIff(env: Env, s: State, h: Handler, entries: seq<RewarderConfig>)
    requires Solvent(s)
    ensures Plan(env, s, h, entries).Ok? <==> forall e :: e in entries ==> Plannable(env, s, h, e)
  {
    if entries != [] {
      var e := entries[0];
      assert e in entries;
      assert forall x :: x in entries <==> x == e || x in entries[1..];
      PlanOkIff(env, s, h, entries[1..]);
      if && AddressOf(env, e).Ok? && AddressOf(env, e).value in s.slots
         && TokensMatch(env, e, s.slots[AddressOf(env, e).value])
      {
        PlanSlotsOkIff(s, h, e, AddressOf(env, e).value, 0);
        if PlanEntry(env, s, h, e).Ok? && |e.rewardTokens| > 0 {
          assert SlotPlannable(s, h, e, AddressOf(env, e).value, |e.rewardTokens| - 1);
        }
      }
    }
  }

  /**
   What an entry must look like for there to be a plan. A V2 entry brings its rewarder's address, any other is
   found by the name of its deployment; the rewarder has the configured tokens, slot by slot, and there is a rate
   for each. Pausing and resuming takes rates that are not negative, and cannot write to a V2 rewarder.
   */
  predicate EntryFits(env: Env, s: State, h: Handler, e: RewarderConfig) {
    && (if e.isV2 then e.address.Some? else e.name in env.deployments)
    && var r := if e.isV2 then e.address.value else env.deployments[e.name];
       && r in s.slots && |s.slots[r]| == |e.rewardTokens| <= |e.tokenPerSec|
       && forall i :: 0 <= i < |e.rewardTokens| ==>
            && e.rewardTokens[i] in env.tokens && env.tokens[e.rewardTokens[i]] == s.slots[r][i].token
            && (h.PauseOrResumeRewardRate? ==> e.tokenPerSec[i] >= 0 && !(e.isV2 && Writes(s, h, e, r, i)))
  }

  lemma EntryFitsIff(env: Env, s: State, h: Handler, e: RewarderConfig)
    ensures EntryFits(env, s, h, e) <==> Plannable(env, s, h, e)
  {
    hide Writes;
    if AddressOf(env, e).Ok? && AddressOf(env, e).value in s.slots {
      var r := AddressOf(env, e).value;
      if |s.slots[r]| == |e.rewardTokens| <= |e.tokenPerSec| {
        assert forall i :: 0 <= i < |e.rewardTokens| ==> (SlotPlannable(s, h, e, r, i) <==>
          (h.PauseOrResumeRewardRate? ==> e.tokenPerSec[i] >= 0 && !(e.isV2 && Writes(s, h, e, r, i))));
      }
    }
  }

  /** There is a plan exactly when every entry fits; otherwise there is no transaction at all. */
  lemma PlanExistsIff(env: Env, s: State, h: Handler, entries: seq<RewarderConfig>)
    requires Solvent(s)
    ensures Plan(env, s, h, entries).Ok? <==> forall e :: e in entries ==> EntryFits(env, s, h, e)
  {
    hide EntryFits, Plannable;
    PlanOkIff(env, s, h, entries);
    forall e | e in entries ensures EntryFits(env, s, h, e) <==> Plannable(env, s, h, e) {
      EntryFitsIff(env, s, h, e);
    }
  }

  // ---------------------------------------------------------------------------------------------
  // What is in it
  // ---------------------------------------------------------------------------------------------

  /** How many entries want to change slot `i` of `r`. */
  function Differing(env: Env, s: State, h: Handler, entries: seq<RewarderConfig>, r: Address, i: nat): nat
    requires AllResolved(env, s, entries)
  {
    if entries == [] then 0 else
      var e := entries[0];
      assert Resolved(env, s, e) && AllResolved(env, s, entries[1..]);
      (if Configures(env, e, r, i) && Writes(s, h, e, r, i) then 1 else 0)
      + Differing(env, s, h, entries[1..], r, i)
  }

  predicate Targets(env: Env, entries: seq<RewarderConfig>, r: Address) {
    exists e :: e in entries && AddressOf(env, e) == Ok(r)
  }

  /** The first entry's part of a plan, and the rest of it. */
  lemma PlanSplit(env: Env, s: State, h: Handler, entries: seq<RewarderConfig>)
    requires entries != [] && Solvent(s) && Plan(env, s, h, entries).Ok?
    ensures AllResolved(env, s, entries) && Resolved(env, s, entries[0]) && AllResolved(env, s, entries[1..])
    ensures Plan(env, s, h, entries[1..]).Ok?
    ensures var r := AddressOf(env, entries[0]).value;
            && PlanSlots(s, h, entries[0], r, 0).Ok?
            && Plan(env, s, h, entries).value ==
               PlanSlots(s, h, entries[0], r, 0).value + Plan(env, s, h, entries[1..]).value
  {
    PlanOkIff(env, s, h, entries);
  }

  lemma {:induction false} PlanContents(env: Env, s: State, h: Handler, entries: seq<RewarderConfig>)
    requires Solvent(s) && Plan(env, s, h, entries).Ok?
    ensures AllResolved(env, s, entries)
    ensures var plan := Plan(env, s, h, entries).value;
            && NoNewToken(plan)
            && (forall tx :: tx in plan ==> Targets(env, entries, if tx.Transfer? then tx.to else tx.rewarder))
            && (forall r, i: nat :: WriteCount(plan, r, i) == Differing(env, s, h, entries, r, i))
            && (forall t, r :: SentTo(plan, t, r) == TopUpDue(env, s, h, entries, t, r))
            && (forall t :: Sent(plan, t) == TopUpTotal(env, s, h, entries, t))
  {
    if entries != [] {
      var e := entries[0];
      PlanSplit(env, s, h, entries);
      var r := AddressOf(env, e).value;
      var first, rest := PlanSlots(s, h, e, r, 0).value, Plan(env, s, h, entries[1..]).value;
      PlanSlotsContents(s, h, e, r, 0);
      PlanContents(env, s, h, entries[1..]);
      ConcatMeasures(first, rest);
      assert e in entries && forall x :: x in entries[1..] ==> x in entries;
    }
  }

  /** All the entries that configure slot `i` of `r` want it at rate `v`. */
  ghost predicate AgreeAt(env: Env, s: State, h: Handler, entries: seq<RewarderConfig>, r: Address, i: nat, v: int)
    requires AllResolved(env, s, entries)
  {
    forall e :: e in entries && Configures(env, e, r, i) ==> assert Resolved(env, s, e); Desired(s, h, e, r, i) == v
  }

  lemma {:induction false} PlanRate(
    env: Env, s: State, h: Handler, entries: seq<RewarderConfig>, r: Address, i: nat, v: int, d: int)
    requires Solvent(s) && Plan(env, s, h, entries).Ok? && AllResolved(env, s, entries)
    requires AgreeAt(env, s, h, entries, r, i, v)
    requires IsSlot(s, r, i) && (d == RateOf(s, r, i) || d == v)
    ensures RateAfter(Plan(env, s, h, entries).value, r, i, d) ==
            if exists e :: e in entries && Configures(env, e, r, i) then v else d
  {
    if entries != [] {
      var e := entries[0];
      assert e in entries && forall x :: x in entries <==> x == e || x in entries[1..];
      PlanSplit(env, s, h, entries);
      var q := AddressOf(env, e).value;
      var first, rest := PlanSlots(s, h, e, q, 0).value, Plan(env, s, h, entries[1..]).value;
      PlanSlotsContents(s, h, e, q, 0);
      ConcatMeasures(first, rest);
      PlanRate(env, s, h, entries[1..], r, i, v, RateAfter(first, r, i, d));
    }
  }

  // ---------------------------------------------------------------------------------------------
  // What it achieves
  // ---------------------------------------------------------------------------------------------

  /** Entries that configure one slot want the same rate for it, as when their rewarders are distinct. */
  ghost predicate Agree(env: Env, s: State, h: Handler, entries: seq<RewarderConfig>)
    requires AllResolved(env, s, entries)
  {
    forall e, f, i: nat ::
      e in entries && f in entries && AddressOf(env, e) == AddressOf(env, f) && i < |e.rewardTokens| ==>
      assert Resolved(env, s, e) && Resolved(env, s, f);
      Desired(s, h, e, AddressOf(env, e).value, i) == Desired(s, h, f, AddressOf(env, e).value, i)
  }

  /** Every configured slot of `s'` has the rate desired when `s` was read. */
  ghost predicate Converged(env: Env, s: State, h: Handler, entries: seq<RewarderConfig>, s': State)
    requires AllResolved(env, s, entries)
  {
    forall e, i: nat :: e in entries && i < |e.rewardTokens| ==>
      assert Resolved(env, s, e);
      var r := AddressOf(env, e).value;
      IsSlot(s', r, i) && RateOf(s', r, i) == Desired(s, h, e, r, i)
  }

  lemma DistinctRewardersAgree(env: Env, s: State, h: Handler, entries: seq<RewarderConfig>)
    requires AllResolved(env, s, entries)
    requires forall a, b :: 0 <= a < b < |entries| ==> AddressOf(env, entries[a]) != AddressOf(env, entries[b])
    ensures Agree(env, s, h, entries)
  {
    forall e, f | e in entries && f in entries && AddressOf(env, e) == AddressOf(env, f) ensures e == f {
      var a :| 0 <= a < |entries| && entries[a] == e;
      var b :| 0 <= b < |entries| && entries[b] == f;
    }
  }

  /**
   A proposal goes through exactly when the rates it writes are within the contract's limits and the
   multisig holds the total of every token it sends.
   */
  lemma PlanGoesThroughIff(env: Env, s: State, h: Handler, entries: seq<RewarderConfig>)
    requires Solvent(s) && Plan(env, s, h, entries).Ok? && AllResolved(env, s, entries)
    requires !Targets(env, entries, s.multisig)
    ensures Run(s, Plan(env, s, h, entries).value).Some? <==>
            && (forall e, i: nat :: e in entries && i < |e.rewardTokens| ==>
                  assert Resolved(env, s, e);
                  var r := AddressOf(env, e).value;
                  Writes(s, h, e, r, i) ==> 0 <= Desired(s, h, e, r, i) <= 10000_000000000000000000)
            && (forall t :: TopUpTotal(env, s, h, entries, t) <= Balance(s, t, s.multisig))
  {
    var plan := Plan(env, s, h, entries).value;
    PlanContents(env, s, h, entries);
    RunSucceedsIff(s, plan);
    PlanAcceptableIff(env, s, h, entries);
  }

  predicate EntryInRange(env: Env, s: State, h: Handler, e: RewarderConfig)
    requires Resolved(env, s, e)
  {
    var r := AddressOf(env, e).value;
    forall i :: 0 <= i < |e.rewardTokens| && Writes(s, h, e, r, i) ==> 0 <= Desired(s, h, e, r, i) <= MAX_RATE
  }

  lemma {:induction false} SlotsAcceptableIff(s: State, h: Handler, e: RewarderConfig, r: Address, i: nat)
    requires r in s.slots && |s.slots[r]| == |e.rewardTokens| && i <= |s.slots[r]| && Solvent(s)
    requires |e.rewardTokens| <= |e.tokenPerSec| && PlanSlots(s, h, e, r, i).Ok?
    ensures (forall tx :: tx in PlanSlots(s, h, e, r, i).value ==> Acceptable(s, tx)) <==>
            forall j :: i <= j < |e.rewardTokens| && Writes(s, h, e, r, j) ==> 0 <= Desired(s, h, e, r, j) <= MAX_RATE
    decreases |e.rewardTokens| - i
  {
    if i < |e.rewardTokens| {
      PlanSlotForm(s, h, e, r, i);
      SlotsAcceptableIff(s, h, e, r, i + 1);
      var writes, transfers := SlotWrites(s, h, e, r, i), SlotTransfers(s, h, e, r, i);
      var rest := PlanSlots(s, h, e, r, i + 1).value;
      assert PlanSlots(s, h, e, r, i).value == writes + transfers + rest;
      assert forall tx :: tx in writes + transfers + rest <==> tx in writes || tx in transfers || tx in rest;
      assert forall tx :: tx in transfers ==> Acceptable(s, tx) by {
        if TopsUp(h, e, i) {
          MulMono(0, e.tokenPerSec[i] * EPOCH_SECONDS, h.epochs.value);
        }
      }
      if Writes(s, h, e, r, i) {
        assert writes[0] in writes;
      }
    }
  }

  lemma {:induction false} PlanAcceptableIff(env: Env, s: State, h: Handler, entries: seq<RewarderConfig>)
    requires Solvent(s) && Plan(env, s, h, entries).Ok? && AllResolved(env, s, entries)
    ensures (forall tx :: tx in Plan(env, s, h, entries).value ==> Acceptable(s, tx)) <==>
            forall e :: e in entries ==> Resolved(env, s, e) && EntryInRange(env, s, h, e)
  {
    if entries != [] {
      var e := entries[0];
      assert e in entries && forall x :: x in entries <==> x == e || x in entries[1..];
      PlanSplit(env, s, h, entries);
      SlotsAcceptableIff(s, h, e, AddressOf(env, e).value, 0);
      PlanAcceptableIff(env, s, h, entries[1..]);
      var first, rest := PlanSlots(s, h, e, AddressOf(env, e).value, 0).value, Plan(env, s, h, entries[1..]).value;
      assert forall tx :: tx in first + rest <==> tx in first || tx in rest;
    }
  }

  /**
   Executing a plan brings every configured slot to its desired rate if and only if the configuration
   does not contradict itself. Rewarders outside the configuration are untouched, every balance moves by
   exactly what is due, and no token is minted or lost.
   */
  lemma PlanConverges(env: Env, s: State, h: Handler, entries: seq<RewarderConfig>, s': State)
    requires Solvent(s) && Plan(env, s, h, entries).Ok? && AllResolved(env, s, entries)
    requires Run(s, Plan(env, s, h, entries).value) == Some(s')
    ensures Converged(env, s, h, entries, s') <==> Agree(env, s, h, entries)
    ensures s'.slots.Keys == s.slots.Keys
    ensures forall r :: r in s.slots && !Targets(env, entries, r) ==> s'.slots[r] == s.slots[r]
    ensures forall t, a :: Balance(s', t, a) == Balance(s, t, a) + TopUpDue(env, s, h, entries, t, a)
                                                - (if a == s.multisig then TopUpTotal(env, s, h, entries, t) else 0)
    ensures forall t :: Supply(s'.ledger, t) == Supply(s.ledger, t)
    ensures AllResolved(env, s', entries) && Solvent(s')
  {
    var plan := Plan(env, s, h, entries).value;
    PlanContents(env, s, h, entries);
    RunEffect(s, plan);
    RunSolvent(s, plan);
    EffectKeepsResolved(env, s, entries, plan, s');
    forall r | r in s.slots && !Targets(env, entries, r) ensures s'.slots[r] == s.slots[r] {
      RunFrame(s, plan, r);
    }
    hide Plan, Run, Desired, Targets, Supply;
    if Agree(env, s, h, entries) {
      forall e, i: nat | e in entries && i < |e.rewardTokens|
        ensures Resolved(env, s, e)
        ensures IsSlot(s', AddressOf(env, e).value, i)
        ensures RateOf(s', AddressOf(env, e).value, i) == Desired(s, h, e, AddressOf(env, e).value, i)
      {
        SlotConverges(env, s, h, entries, s', e, i);
      }
    }
  }

  lemma EffectKeepsResolved(env: Env, s: State, entries: seq<RewarderConfig>, plan: seq<Tx>, s': State)
    requires AllResolved(env, s, entries) && Effect(s, plan, s')
    ensures AllResolved(env, s', entries)
  {
    forall e | e in entries ensures Resolved(env, s', e) {
      assert Resolved(env, s, e);
      var r := AddressOf(env, e).value;
      assert forall i :: 0 <= i < |s.slots[r]| ==> IsSlot(s, r, i) && s'.slots[r][i].token == s.slots[r][i].token;
    }
  }

  lemma SlotConverges(
    env: Env, s: State, h: Handler, entries: seq<RewarderConfig>, s': State, e: RewarderConfig, i: nat)
    requires Solvent(s) && Plan(env, s, h, entries).Ok? && AllResolved(env, s, entries)
    requires Effect(s, Plan(env, s, h, entries).value, s') && Agree(env, s, h, entries)
    requires e in entries && i < |e.rewardTokens|
    ensures Resolved(env, s, e) && IsSlot(s', AddressOf(env, e).value, i)
    ensures RateOf(s', AddressOf(env, e).value, i) == Desired(s, h, e, AddressOf(env, e).value, i)
  {
    hide Plan, Desired, Balance, Supply;
    assert Resolved(env, s, e);
    var r := AddressOf(env, e).value;
    assert IsSlot(s, r, i);
    PlanRate(env, s, h, entries, r, i, Desired(s, h, e, r, i), RateOf(s, r, i));
    assert Configures(env, e, r, i);
  }

  function WithoutTopUp(h: Handler): Handler {
    match h
    case UpdateEmissionsAndTopUp(_, _) => UpdateEmissionsAndTopUp(None, None)
    case PauseOrResumeRewardRate(_) => h
  }

  lemma {:induction false} EntryTopUpNone(s: State, h: Handler, e: RewarderConfig, r: Address, t: Address, i: nat)
    requires r in s.slots && |s.slots[r]| == |e.rewardTokens| <= |e.tokenPerSec| && i <= |s.slots[r]|
    requires h == WithoutTopUp(h)
    ensures EntryTopUp(s, h, e, r, t, i) == 0
    decreases |e.rewardTokens| - i
  {
    if i < |e.rewardTokens| {
      EntryTopUpNone(s, h, e, r, t, i + 1);
    }
  }

  lemma {:induction false} NoTopUp(env: Env, s: State, h: Handler, entries: seq<RewarderConfig>, t: Address, a: Address)
    requires AllResolved(env, s, entries) && h == WithoutTopUp(h)
    ensures TopUpDue(env, s, h, entries, t, a) == 0 && TopUpTotal(env, s, h, entries, t) == 0
  {
    if entries != [] {
      assert Resolved(env, s, entries[0]) && AllResolved(env, s, entries[1..]);
      EntryTopUpNone(s, h, entries[0], AddressOf(env, entries[0]).value, t, 0);
      NoTopUp(env, s, h, entries[1..], t, a);
    }
  }

  /** A plan with nothing to write and nothing to send is the empty plan. */
  lemma {:induction false} SettledSlotsPlanNothing(s: State, h: Handler, e: RewarderConfig, r: Address, i: nat)
    requires r in s.slots && |s.slots[r]| == |e.rewardTokens| <= |e.tokenPerSec| && i <= |s.slots[r]| && Solvent(s)
    requires h == WithoutTopUp(h)
    requires h.PauseOrResumeRewardRate? ==> forall j :: 0 <= j < |e.rewardTokens| ==> e.tokenPerSec[j] >= 0
    requires forall j :: i <= j < |e.rewardTokens| ==> !Writes(s, h, e, r, j)
    ensures PlanSlots(s, h, e, r, i) == Ok([])
    decreases |e.rewardTokens| - i
  {
    if i < |e.rewardTokens| {
      PlanSlotForm(s, h, e, r, i);
      SettledSlotsPlanNothing(s, h, e, r, i + 1);
    }
  }

  lemma {:induction false} SettledPlansNothing(env: Env, s: State, h: Handler, entries: seq<RewarderConfig>)
    requires AllResolved(env, s, entries) && Solvent(s) && h == WithoutTopUp(h)
    requires h.PauseOrResumeRewardRate? ==>
               forall e, j :: e in entries && 0 <= j < |e.rewardTokens| ==> Resolved(env, s, e) && e.tokenPerSec[j] >= 0
    requires forall e, j: nat :: e in entries && j < |e.rewardTokens| ==>
               Resolved(env, s, e) && !Writes(s, h, e, AddressOf(env, e).value, j)
    ensures Plan(env, s, h, entries) == Ok([])
  {
    if entries != [] {
      var e := entries[0];
      assert e in entries && Resolved(env, s, e) && forall x :: x in entries[1..] ==> x in entries;
      SettledSlotsPlanNothing(s, h, e, AddressOf(env, e).value, 0);
      assert PlanEntry(env, s, h, e) == Ok([]);
      SettledPlansNothing(env, s, h, entries[1..]);
      var none: seq<Tx> := [];
      assert none + none == none;
    }
  }

  /**
   Reconciliation is a fixpoint: after a plan has been executed, planning again (without topping up a
   second time) proposes nothing.
   */
  lemma ReplanIsEmpty(env: Env, s: State, h: Handler, entries: seq<RewarderConfig>, s': State)
    requires Solvent(s) && Plan(env, s, h, entries).Ok? && AllResolved(env, s, entries)
    requires Agree(env, s, h, entries)
    requires Run(s, Plan(env, s, h, entries).value) == Some(s')
    ensures Plan(env, s', WithoutTopUp(h), entries) == Ok([])
  {
    PlanConverges(env, s, h, entries, s');
    PlanOkIff(env, s, h, entries);
    var h' := WithoutTopUp(h);
    forall e, i: nat | e in entries && i < |e.rewardTokens|
      ensures Resolved(env, s', e) && !Writes(s', h', e, AddressOf(env, e).value, i)
      ensures h'.PauseOrResumeRewardRate? ==> e.tokenPerSec[i] >= 0
    {
      assert Resolved(env, s, e) && Resolved(env, s', e) && Plannable(env, s, h, e);
      var r := AddressOf(env, e).value;
      assert SlotPlannable(s, h, e, r, i);
      if h.PauseOrResumeRewardRate? {
        NoTopUp(env, s, h, entries, s.slots[r][i].token, r);
      }
    }
    SettledPlansNothing(env, s', h', entries);
  }

  /** What is desired of a slot depends on its balance alone, and is one of three rates. */
  lemma PauseDecision(s: State, threshold: nat, e: RewarderConfig, r: Address, i: nat)
    requires IsSlot(s, r, i) && i < |e.tokenPerSec| && e.tokenPerSec[i] >= 0
    ensures var h := PauseOrResumeRewardRate(threshold);
            var expected, after := e.tokenPerSec[i], Desired(s, h, e, r, i);
            && (expected > 0 ==>
                  (after > 0 <==> Balance(s, s.slots[r][i].token, r) >= threshold * expected))
            && (Writes(s, h, e, r, i) ==> expected > 0 && (after == 0 || (RateOf(s, r, i) == 0 && after == expected)))
  {
  }

  /** The slot a rate write is for, and that it writes what is desired of it. */
  ghost predicate WritesDesired(env: Env, s: State, h: Handler, entries: seq<RewarderConfig>, tx: Tx)
    requires tx.SetRewardRate?
  {
    exists e :: && e in entries && Configures(env, e, tx.rewarder, tx.index) && Resolved(env, s, e)
                && Writes(s, h, e, tx.rewarder, tx.index) && tx.rate == Desired(s, h, e, tx.rewarder, tx.index)
  }

  lemma {:induction false} SlotsWriteDesired(s: State, h: Handler, e: RewarderConfig, r: Address, i: nat, tx: Tx)
    requires r in s.slots && |s.slots[r]| == |e.rewardTokens| && i <= |s.slots[r]| && Solvent(s)
    requires |e.rewardTokens| <= |e.tokenPerSec| && PlanSlots(s, h, e, r, i).Ok?
    requires tx in PlanSlots(s, h, e, r, i).value && tx.SetRewardRate?
    ensures tx.rewarder == r && tx.index < |e.rewardTokens|
    ensures Writes(s, h, e, r, tx.index) && tx.rate == Desired(s, h, e, r, tx.index)
    decreases |e.rewardTokens| - i
  {
    PlanSlotForm(s, h, e, r, i);
    if tx !in PlanSlot(s, h, e, r, i).value {
      SlotsWriteDesired(s, h, e, r, i + 1, tx);
    }
  }

  lemma {:induction false} PlanWritesDesired(env: Env, s: State, h: Handler, entries: seq<RewarderConfig>, tx: Tx)
    requires Solvent(s) && Plan(env, s, h, entries).Ok?
    requires tx in Plan(env, s, h, entries).value && tx.SetRewardRate?
    ensures WritesDesired(env, s, h, entries, tx)
  {
    PlanSplit(env, s, h, entries);
    var e, rest := entries[0], entries[1..];
    if tx in PlanSlots(s, h, e, AddressOf(env, e).value, 0).value {
      SlotsWriteDesired(s, h, e, AddressOf(env, e).value, 0, tx);
      assert e in entries;
    } else {
      PlanWritesDesired(env, s, h, rest, tx);
      var f :| && f in rest && Configures(env, f, tx.rewarder, tx.index) && Resolved(env, s, f)
               && Writes(s, h, f, tx.rewarder, tx.index) && tx.rate == Desired(s, h, f, tx.rewarder, tx.index);
      assert f in entries;
    }
  }

  /**
   A transaction that an entry asks for its slot `i`, told by the configuration: it goes to the entry's rewarder,
   writes a rate that differs to the slot of that number, with a third argument for V2 rewarders, or pays the
   slot's configured token for as many epochs as asked for, if that token is to be topped up.
   */
  ghost predicate AskedFor(env: Env, s: State, h: Handler, e: RewarderConfig, i: nat, tx: Tx) {
    && i < |e.rewardTokens| && i < |e.tokenPerSec|
    && var r := if tx.Transfer? then tx.to else tx.rewarder;
       && (if e.isV2 then e.address == Some(r) else e.name in env.deployments && env.deployments[e.name] == r)
       && IsSlot(s, r, i)
       && match tx
          case SetRewardRate(_, index, rate, start) =>
            && index == i && rate == Desired(s, h, e, r, i) != RateOf(s, r, i)
            && start == if e.isV2 then Some(0) else None
          case AddRewardToken(_, _, _) => false
          case Transfer(token, _, amount) =>
            && e.rewardTokens[i] in env.tokens && token == env.tokens[e.rewardTokens[i]]
            && h.UpdateEmissionsAndTopUp? && h.epochs.Some? && h.epochs.value > 0
            && h.tokens.Some? && e.rewardTokens[i] in h.tokens.value && e.tokenPerSec[i] > 0
            && amount == e.tokenPerSec[i] * 604800 * h.epochs.value
  }

  lemma {:induction false} SlotsAskedFor(
    env: Env, s: State, h: Handler, e: RewarderConfig, r: Address, i: nat, tx: Tx) returns (j: nat)
    requires AddressOf(env, e) == Ok(r) && r in s.slots && TokensMatch(env, e, s.slots[r]) && i <= |s.slots[r]|
    requires Solvent(s) && |e.rewardTokens| <= |e.tokenPerSec| && PlanSlots(s, h, e, r, i).Ok?
    requires tx in PlanSlots(s, h, e, r, i).value
    ensures AskedFor(env, s, h, e, j, tx)
    decreases |e.rewardTokens| - i
  {
    PlanSlotForm(s, h, e, r, i);
    if tx in PlanSlot(s, h, e, r, i).value {
      hide PlanSlots, Desired, RateOf;
      j := i;
    } else {
      hide AskedFor, TokensMatch, PlanSlot;
      j := SlotsAskedFor(env, s, h, e, r, i + 1, tx);
    }
  }

  /** Nothing is proposed that the configuration does not ask for, nor to anybody else. */
  lemma {:induction false} PlanAskedFor(env: Env, s: State, h: Handler, entries: seq<RewarderConfig>, tx: Tx)
    requires Solvent(s) && Plan(env, s, h, entries).Ok? && tx in Plan(env, s, h, entries).value
    ensures exists e, i :: e in entries && AskedFor(env, s, h, e, i, tx)
  {
    hide AskedFor;
    PlanSplit(env, s, h, entries);
    var e, rest := entries[0], entries[1..];
    if tx in PlanSlots(s, h, e, AddressOf(env, e).value, 0).value {
      var i := SlotsAskedFor(env, s, h, e, AddressOf(env, e).value, 0, tx);
      assert e in entries;
    } else {
      PlanAskedFor(env, s, h, rest, tx);
      var f, i :| f in rest && AskedFor(env, s, h, f, i, tx);
      assert f in entries;
    }
  }

  /** What each slot from `i` on is proposed. */
  function SlotPlans(s: State, h: Handler, e: RewarderConfig, r: Address, i: nat): (plans: seq<seq<Tx>>)
    requires r in s.slots && |s.slots[r]| == |e.rewardTokens| && i <= |s.slots[r]|
    requires forall j :: i <= j < |e.rewardTokens| ==> PlanSlot(s, h, e, r, j).Ok?
    ensures |plans| == |e.rewardTokens| - i
    ensures forall k :: 0 <= k < |plans| ==> plans[k] == PlanSlot(s, h, e, r, i + k).value
  {
    seq(|e.rewardTokens| - i, k requires 0 <= k < |e.rewardTokens| - i => PlanSlot(s, h, e, r, i + k).value)
  }

  /** The proposals for a rewarder come slot by slot; one slot that cannot be planned, and there are none. */
  lemma {:induction false} SlotsInOrder(s: State, h: Handler, e: RewarderConfig, r: Address, i: nat)
    requires r in s.slots && |s.slots[r]| == |e.rewardTokens| && i <= |s.slots[r]|
    ensures PlanSlots(s, h, e, r, i).Ok? <==> forall j :: i <= j < |e.rewardTokens| ==> PlanSlot(s, h, e, r, j).Ok?
    ensures PlanSlots(s, h, e, r, i).Ok? ==>
              PlanSlots(s, h, e, r, i).value == Flatten(SlotPlans(s, h, e, r, i))
    decreases |e.rewardTokens| - i
  {
    hide PlanSlot;
    if i < |e.rewardTokens| {
      SlotsInOrder(s, h, e, r, i + 1);
      if PlanSlots(s, h, e, r, i).Ok? {
        var plans := SlotPlans(s, h, e, r, i);
        assert plans[1..] == SlotPlans(s, h, e, r, i + 1) && plans[0] == PlanSlot(s, h, e, r, i).value;
      }
    }
  }

  /** A slot is emitting exactly when its balance pays for `threshold` seconds of its configured rate. */
  predicate EmitsIffCovered(s: State, threshold: nat, e: RewarderConfig, r: Address, i: nat)
    requires IsSlot(s, r, i) && i < |e.tokenPerSec|
  {
    RateOf(s, r, i) > 0 <==> Balance(s, s.slots[r][i].token, r) >= threshold * e.tokenPerSec[i]
  }

  /**
   Pause and resume, end to end. In the state an executed plan leads to, every slot with a positive configured
   rate emits exactly when its balance covers the threshold, and every slot configured at zero has the rate it
   had. Nothing was sent, and no rate was written but zero, and the configured one to a paused slot.
   */
  lemma PauseOrResumeSettles(env: Env, s: State, threshold: nat, entries: seq<RewarderConfig>, s': State)
    requires Solvent(s) && AllResolved(env, s, entries)
    requires Plan(env, s, PauseOrResumeRewardRate(threshold), entries).Ok?
    requires Agree(env, s, PauseOrResumeRewardRate(threshold), entries)
    requires Run(s, Plan(env, s, PauseOrResumeRewardRate(threshold), entries).value) == Some(s')
    ensures forall e, i: nat :: e in entries && i < |e.rewardTokens| ==>
              && Resolved(env, s, e) && e.tokenPerSec[i] >= 0
              && var r := AddressOf(env, e).value;
                 && IsSlot(s', r, i) && s'.slots[r][i].token == s.slots[r][i].token
                 && (e.tokenPerSec[i] > 0 ==> EmitsIffCovered(s', threshold, e, r, i))
                 && (e.tokenPerSec[i] == 0 ==> RateOf(s', r, i) == RateOf(s, r, i))
    ensures forall t, a :: Balance(s', t, a) == Balance(s, t, a)
    ensures forall tx :: tx in Plan(env, s, PauseOrResumeRewardRate(threshold), entries).value && tx.SetRewardRate? ==>
              tx.rate == 0 || exists e :: && e in entries && Configures(env, e, tx.rewarder, tx.index)
                                          && Resolved(env, s, e) && RateOf(s, tx.rewarder, tx.index) == 0
                                          && tx.rate == e.tokenPerSec[tx.index] > 0
  {
    var h := PauseOrResumeRewardRate(threshold);
    PlanOkIff(env, s, h, entries);
    PlanConverges(env, s, h, entries, s');
    PlanContents(env, s, h, entries);
    RunEffect(s, Plan(env, s, h, entries).value);
    forall t, a ensures Balance(s', t, a) == Balance(s, t, a) {
      NoTopUp(env, s, h, entries, t, a);
    }
    hide Plan, Run, Agree;
    forall e, i: nat | e in entries && i < |e.rewardTokens|
      ensures Resolved(env, s, e) && Resolved(env, s', e) && e.tokenPerSec[i] >= 0
      ensures var r := AddressOf(env, e).value;
              && s'.slots[r][i].token == s.slots[r][i].token
              && (e.tokenPerSec[i] > 0 ==> EmitsIffCovered(s', threshold, e, r, i))
              && (e.tokenPerSec[i] == 0 ==> RateOf(s', r, i) == RateOf(s, r, i))
    {
      assert Resolved(env, s, e) && Resolved(env, s', e) && Plannable(env, s, h, e);
      var r := AddressOf(env, e).value;
      assert IsSlot(s, r, i) && SlotPlannable(s, h, e, r, i);
      PauseDecision(s, threshold, e, r, i);
    }
    forall tx | tx in Plan(env, s, h, entries).value && tx.SetRewardRate? && tx.rate != 0
      ensures exists e :: && e in entries && Configures(env, e, tx.rewarder, tx.index)
                          && Resolved(env, s, e) && RateOf(s, tx.rewarder, tx.index) == 0
                          && tx.rate == e.tokenPerSec[tx.index] > 0
    {
      PlanWritesDesired(env, s, h, entries, tx);
      var e :| && e in entries && Configures(env, e, tx.rewarder, tx.index) && Resolved(env, s, e)
               && Writes(s, h, e, tx.rewarder, tx.index) && tx.rate == Desired(s, h, e, tx.rewarder, tx.index);
      assert Plannable(env, s, h, e) && SlotPlannable(s, h, e, tx.rewarder, tx.index);
      PauseDecision(s, threshold, e, tx.rewarder, tx.index);
    }
  }

  /**
   Emission convergence: the configured rates, slot for slot, if and only if entries for one rewarder
   list the same rates.
   */
  lemma EmissionsMatchConfig(
    env: Env, s: State, epochs: Option<int>, tokens: Option<seq<Token>>, entries: seq<RewarderConfig>, s': State)
    requires Solvent(s) && AllResolved(env, s, entries)
    requires Plan(env, s, UpdateEmissionsAndTopUp(epochs, tokens), entries).Ok?
    requires Run(s, Plan(env, s, UpdateEmissionsAndTopUp(epochs, tokens), entries).value) == Some(s')
    ensures (forall e, i: nat :: e in entries && i < |e.rewardTokens| ==>
               && Resolved(env, s, e) && IsSlot(s', AddressOf(env, e).value, i)
               && RateOf(s', AddressOf(env, e).value, i) == e.tokenPerSec[i])
            <==>
            (forall e, f :: e in entries && f in entries && AddressOf(env, e) == AddressOf(env, f) ==>
               && Resolved(env, s, e) && Resolved(env, s, f)
               && e.tokenPerSec[..|e.rewardTokens|] == f.tokenPerSec[..|f.rewardTokens|])
  {
    var h := UpdateEmissionsAndTopUp(epochs, tokens);
    PlanConverges(env, s, h, entries, s');
    EmissionsAgreeIff(env, s, epochs, tokens, entries);
    hide Plan, Run, TopUpDue, TopUpTotal, Supply, Agree, Targets;
  }

  /** For an emissions update, entries agree when those for one rewarder list the same rates. */
  lemma EmissionsAgreeIff(
    env: Env, s: State, epochs: Option<int>, tokens: Option<seq<Token>>, entries: seq<RewarderConfig>)
    requires AllResolved(env, s, entries)
    ensures Agree(env, s, UpdateEmissionsAndTopUp(epochs, tokens), entries) <==>
            forall e, f :: e in entries && f in entries && AddressOf(env, e) == AddressOf(env, f) ==>
              && Resolved(env, s, e) && Resolved(env, s, f)
              && e.tokenPerSec[..|e.rewardTokens|] == f.tokenPerSec[..|f.rewardTokens|]
  {
    var h := UpdateEmissionsAndTopUp(epochs, tokens);
    if Agree(env, s, h, entries) {
      forall e, f | e in entries && f in entries && AddressOf(env, e) == AddressOf(env, f)
        ensures Resolved(env, s, e) && Resolved(env, s, f)
        ensures e.tokenPerSec[..|e.rewardTokens|] == f.tokenPerSec[..|f.rewardTokens|]
      {
        assert Resolved(env, s, e) && Resolved(env, s, f);
        forall i | 0 <= i < |e.rewardTokens| ensures e.tokenPerSec[i] == f.tokenPerSec[i] {
          var r := AddressOf(env, e).value;
          assert Desired(s, h, e, r, i) == Desired(s, h, f, r, i);
        }
      }
    }
    if forall e, f :: e in entries && f in entries && AddressOf(env, e) == AddressOf(env, f) ==>
         && Resolved(env, s, e) && Resolved(env, s, f)
         && e.tokenPerSec[..|e.rewardTokens|] == f.tokenPerSec[..|f.rewardTokens|]
    {
      forall e, f, i: nat |
        e in entries && f in entries && AddressOf(env, e) == AddressOf(env, f) && i < |e.rewardTokens|
        ensures Resolved(env, s, e) && Resolved(env, s, f) && e.tokenPerSec[i] == f.tokenPerSec[i]
      {
        assert e.tokenPerSec[..|e.rewardTokens|][i] == f.tokenPerSec[..|f.rewardTokens|][i];
      }
      assert Agree(env, s, h, entries);
    }
  }

  /** One rate write per slot that differs, none for a slot that does not. */
  lemma {:induction false} OneWritePerDifferingSlot(
    env: Env, s: State, h: Handler, entries: seq<RewarderConfig>, e: RewarderConfig, i: nat)
    requires Solvent(s) && Plan(env, s, h, entries).Ok? && AllResolved(env, s, entries)
    requires forall a, b :: 0 <= a < b < |entries| ==> AddressOf(env, entries[a]) != AddressOf(env, entries[b])
    requires e in entries && i < |e.rewardTokens| && Resolved(env, s, e)
    ensures var r := AddressOf(env, e).value;
            WriteCount(Plan(env, s, h, entries).value, r, i) == if Writes(s, h, e, r, i) then 1 else 0
  {
    PlanContents(env, s, h, entries);
    DifferingOnce(env, s, h, entries, e, i);
  }

  lemma {:induction false} DifferingOnce(
    env: Env, s: State, h: Handler, entries: seq<RewarderConfig>, e: RewarderConfig, i: nat)
    requires AllResolved(env, s, entries) && Resolved(env, s, e) && i < |e.rewardTokens|
    requires forall a, b :: 0 <= a < b < |entries| ==> AddressOf(env, entries[a]) != AddressOf(env, entries[b])
    ensures var r := AddressOf(env, e).value;
            && (e in entries ==> Differing(env, s, h, entries, r, i) == if Writes(s, h, e, r, i) then 1 else 0)
            && (!Targets(env, entries, r) ==> Differing(env, s, h, entries, r, i) == 0)
  {
    if entries != [] {
      var r := AddressOf(env, e).value;
      assert entries[0] in entries && Resolved(env, s, entries[0]) && AllResolved(env, s, entries[1..]);
      assert forall x :: x in entries[1..] ==> x in entries;
      DifferingOnce(env, s, h, entries[1..], e, i);
      if entries[0] == e {
        assert !Targets(env, entries[1..], r) by {
          forall x | x in entries[1..] ensures AddressOf(env, x) != Ok(r) {
            var b :| 0 <= b < |entries[1..]| && entries[1..][b] == x;
            assert entries[b + 1] == x;
          }
        }
      } else if e in entries {
        var b :| 0 <= b < |entries| && entries[b] == e;
        assert AddressOf(env, entries[0]) != AddressOf(env, entries[b]);
      } else if !Targets(env, entries, r) {
        assert AddressOf(env, entries[0]) != Ok(r);
      }
    }
  }
}
