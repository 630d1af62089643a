/**
 `loopRewarder` with its two handlers, `updateEmissionsAndTopUp` and `pauseOrResumeRewardRate`:
 reconciling the reward rates on chain with the configured ones.
 */
module RewarderPlans {
  import opened Base
  import opened Emission
  import opened Rewarders

  type Token = nat

  /** What the planner looks up by name: deployments, and token addresses on the current network. */
  datatype Env = Env(deployments: map<string, Address>, tokens: map<Token, Address>)

  /** One entry of the emissions configuration; `name` is the key already turned into a deployment name. */
  datatype RewarderConfig = RewarderConfig(
    name: string, isV2: bool, address: Option<Address>, rewardTokens: seq<Token>, tokenPerSec: seq<int>)

  datatype Handler =
    | UpdateEmissionsAndTopUp(epochs: Option<int>, tokens: Option<seq<Token>>)
    | PauseOrResumeRewardRate(threshold: nat)

  function AddressOf(env: Env, e: RewarderConfig): Result<Address> {
    if e.isV2 then
      if e.address.Some? then Ok(e.address.value) else Err
    else if e.name in env.deployments then Ok(env.deployments[e.name])
    else Err
  }

  /** The configured token of every slot is the one on chain. */
  predicate TokensMatch(env: Env, e: RewarderConfig, slots: seq<Slot>) {
    && |slots| == |e.rewardTokens|
    && forall i :: 0 <= i < |slots| ==>
         e.rewardTokens[i] in env.tokens && env.tokens[e.rewardTokens[i]] == slots[i].token
  }

  predicate HasEnough(balance: int, expected: int, threshold: nat)
    requires expected > 0
  {
    TruncDiv(balance, expected) >= threshold
  }

  /** The call `setRewardRate` of a contract checks how many arguments it is given. */
  function SetRate(e: RewarderConfig, r: Address, i: nat, rate: int, start: Option<nat>): Result<seq<Tx>> {
    if e.isV2 == start.Some? then Ok([SetRewardRate(r, i, rate, start)]) else Err
  }

  /** What a handler proposes for one slot. */
  function PlanSlot(s: State, h: Handler, e: RewarderConfig, r: Address, i: nat): Result<seq<Tx>>
    requires IsSlot(s, r, i) && i < |e.rewardTokens|
  {
    if i >= |e.tokenPerSec| then Err else
      var expected := e.tokenPerSec[i];
      var actual := RateOf(s, r, i);
      var token := s.slots[r][i].token;
      match h
      case UpdateEmissionsAndTopUp(epochs, tokens) =>
        var write :- if expected == actual then Ok([])
                     else SetRate(e, r, i, expected, if e.isV2 then Some(0) else None);
        if epochs.Some? && epochs.value > 0 && tokens.Some? && e.rewardTokens[i] in tokens.value && expected > 0 then
          Ok(write + [Transfer(token, r, TokenPerSecToTokenPerEpoch(expected) * epochs.value)])
        else Ok(write)
      case PauseOrResumeRewardRate(threshold) =>
        if expected == 0 then Ok([])
        else if expected < 0 then Err
        else
          var enough := HasEnough(Balance(s, token, r), expected, threshold);
          if actual > 0 then
            if enough then Ok([]) else SetRate(e, r, i, 0, None)
          else
            if enough then SetRate(e, r, i, expected, None) else Ok([])
  }

  /** `concatAll` over the slots of one rewarder, from slot `i` on. */
  function PlanSlots(s: State, h: Handler, e: RewarderConfig, r: Address, i: nat): Result<seq<Tx>>
    requires r in s.slots && |s.slots[r]| == |e.rewardTokens| && i <= |s.slots[r]|
    decreases |e.rewardTokens| - i
  {
    if i == |e.rewardTokens| then Ok([]) else
      var first :- PlanSlot(s, h, e, r, i);
      var rest :- PlanSlots(s, h, e, r, i + 1);
      Ok(first + rest)
  }

  function PlanEntry(env: Env, s: State, h: Handler, e: RewarderConfig): Result<seq<Tx>> {
    var r :- AddressOf(env, e);
    if r !in s.slots || !TokensMatch(env, e, s.slots[r]) then Err
    else PlanSlots(s, h, e, r, 0)
  }

  /** `loopRewarder`: the plan of the whole configuration, from one snapshot of the chain. */
  function Plan(env: Env, s: State, h: Handler, entries: seq<RewarderConfig>): Result<seq<Tx>> {
    if entries == [] then Ok([]) else
      var first :- PlanEntry(env, s, h, entries[0]);
      var rest :- Plan(env, s, h, entries[1..]);
      Ok(first + rest)
  }

  function Prepend(txs: seq<Tx>, r: Result<seq<Tx>>): Result<seq<Tx>> {
    match r
    case Ok(rest) => Ok(txs + rest)
    case Err => Err
  }

  lemma PlanFrom(env: Env, s: State, h: Handler, entries: seq<RewarderConfig>, k: nat)
    requires k < |entries|
    ensures PlanEntry(env, s, h, entries[k]).Err? ==> Plan(env, s, h, entries[k..]).Err?
    ensures PlanEntry(env, s, h, entries[k]).Ok? ==>
              Plan(env, s, h, entries[k..])
              == Prepend(PlanEntry(env, s, h, entries[k]).value, Plan(env, s, h, entries[k + 1..]))
  {
    hide PlanEntry;
    assert entries[k..][0] == entries[k] && entries[k..][1..] == entries[k + 1..];
  }

  lemma PrependTwice(a: seq<Tx>, b: seq<Tx>, r: Result<seq<Tx>>)
    ensures Prepend(a, Prepend(b, r)) == Prepend(a + b, r) && Prepend([], r) == r
  {
    if r.Ok? {
      assert a + (b + r.value) == a + b + r.value && [] + r.value == r.value;
    }
  }

  lemma TokensMatchLength(env: Env)
    ensures forall e, slots :: TokensMatch(env, e, slots) ==> |slots| == |e.rewardTokens|
  {
  }

  /** The check that the configured token of every slot is the one on chain. */
  method CheckTokens(env: Env, e: RewarderConfig, rewardInfos: seq<Slot>) returns (ok: bool)
    requires |rewardInfos| == |e.rewardTokens|
    ensures ok <==> TokensMatch(env, e, rewardInfos)
  {
    for i := 0 to |rewardInfos|
      invariant forall j :: 0 <= j < i ==>
                  e.rewardTokens[j] in env.tokens && env.tokens[e.rewardTokens[j]] == rewardInfos[j].token
    {
      if e.rewardTokens[i] !in env.tokens || env.tokens[e.rewardTokens[i]] != rewardInfos[i].token {
        return false;
      }
    }
    return true;
  }

  method LoopRewarder(env: Env, chain: Chain, h: Handler, entries: seq<RewarderConfig>)
    returns (r: Result<seq<Tx>>)
    ensures r == Plan(env, chain.Snapshot(), h, entries)
  {
    var s := chain.Snapshot();
    var txns: seq<Tx> := [];
    var k := 0;
    assert entries[0..] == entries;
    PrependTwice([], [], Plan(env, s, h, entries));
    TokensMatchLength(env);
    hide PlanSlots, TokensMatch, AddressOf;
    while k < |entries|
      invariant k <= |entries|
      invariant Plan(env, s, h, entries) == Prepend(txns, Plan(env, s, h, entries[k..]))
    {
      var e := entries[k];
      PlanFrom(env, s, h, entries, k);
      hide Plan;
      var rewarder := AddressOf(env, e);
      if rewarder.Err? || rewarder.value !in s.slots {
        return Err;
      }
      var rewardInfos := s.slots[rewarder.value];
      if |rewardInfos| != |e.rewardTokens| {
        return Err;
      }
      var agree := CheckTokens(env, e, rewardInfos);
      if !agree {
        return Err;
      }
      var handled := PlanSlots(s, h, e, rewarder.value, 0);
      if handled.Err? {
        return Err;
      }
      PrependTwice(txns, handled.value, Plan(env, s, h, entries[k + 1..]));
      txns := txns + handled.value;
      k := k + 1;
    }
    assert txns + [] == txns;
    return Ok(txns);
  }

  // ---------------------------------------------------------------------------------------------
  // What a plan contains
  // ---------------------------------------------------------------------------------------------

  /** The rate a handler wants a slot to have, told apart from how it proposes it. */
  function Desired(s: State, h: Handler, e: RewarderConfig, r: Address, i: nat): int
    requires IsSlot(s, r, i) && i < |e.tokenPerSec|
  {
    var expected := e.tokenPerSec[i];
    match h
    case UpdateEmissionsAndTopUp(_, _) => expected
    case PauseOrResumeRewardRate(threshold) =>
      var actual := RateOf(s, r, i);
      if expected <= 0 then actual
      else if Balance(s, s.slots[r][i].token, r) < threshold * expected then 0
      else if actual > 0 then actual
      else expected
  }

  predicate Writes(s: State, h: Handler, e: RewarderConfig, r: Address, i: nat)
    requires IsSlot(s, r, i) && i < |e.tokenPerSec|
  {
    Desired(s, h, e, r, i) != RateOf(s, r, i)
  }

  predicate TopsUp(h: Handler, e: RewarderConfig, i: nat)
    requires i < |e.tokenPerSec| && i < |e.rewardTokens|
  {
    && h.UpdateEmissionsAndTopUp? && h.epochs.Some? && h.epochs.value > 0
    && h.tokens.Some? && e.rewardTokens[i] in h.tokens.value && e.tokenPerSec[i] > 0
  }

  /** What slot `i` is to be topped up with: its configured rate for the whole period. */
  function SlotTopUp(h: Handler, e: RewarderConfig, i: nat): int
    requires i < |e.tokenPerSec| && i < |e.rewardTokens|
  {
    if TopsUp(h, e, i) then e.tokenPerSec[i] * EPOCH_SECONDS * h.epochs.value else 0
  }

  /** Everything one entry is to receive of a token, over all its slots holding it, from slot `i` on. */
  function EntryTopUp(s: State, h: Handler, e: RewarderConfig, r: Address, token: Address, i: nat): int
    requires r in s.slots && |s.slots[r]| == |e.rewardTokens| <= |e.tokenPerSec| && i <= |s.slots[r]|
    decreases |e.rewardTokens| - i
  {
    if i == |e.rewardTokens| then 0 else
      (if s.slots[r][i].token == token then SlotTopUp(h, e, i) else 0) + EntryTopUp(s, h, e, r, token, i + 1)
  }

  /** The entry names a rewarder on chain and agrees with it slot by slot, with a rate for each. */
  predicate Resolved(env: Env, s: State, e: RewarderConfig) {
    && AddressOf(env, e).Ok?
    && AddressOf(env, e).value in s.slots
    && TokensMatch(env, e, s.slots[AddressOf(env, e).value])
    && |e.rewardTokens| <= |e.tokenPerSec|
  }

  predicate AllResolved(env: Env, s: State, entries: seq<RewarderConfig>) {
    forall e :: e in entries ==> Resolved(env, s, e)
  }

  /** `e` configures slot `i` of rewarder `r`. */
  predicate Configures(env: Env, e: RewarderConfig, r: Address, i: nat) {
    AddressOf(env, e) == Ok(r) && i < |e.rewardTokens|
  }

  /** What the whole configuration owes a rewarder of a token. */
  function TopUpDue(env: Env, s: State, h: Handler, entries: seq<RewarderConfig>, token: Address, r: Address): int
    requires AllResolved(env, s, entries)
  {
    if entries == [] then 0 else
      var e := entries[0];
      assert Resolved(env, s, e) && AllResolved(env, s, entries[1..]);
      (if AddressOf(env, e).value == r then EntryTopUp(s, h, e, r, token, 0) else 0)
      + TopUpDue(env, s, h, entries[1..], token, r)
  }

  /** What the whole configuration owes of a token. */
  function TopUpTotal(env: Env, s: State, h: Handler, entries: seq<RewarderConfig>, token: Address): int
    requires AllResolved(env, s, entries)
  {
    if entries == [] then 0 else
      var e := entries[0];
      assert Resolved(env, s, e) && AllResolved(env, s, entries[1..]);
      EntryTopUp(s, h, e, AddressOf(env, e).value, token, 0) + TopUpTotal(env, s, h, entries[1..], token)
  }

  lemma EnoughIffCovered(balance: int, expected: int, threshold: nat)
    requires expected > 0 && balance >= 0
    ensures HasEnough(balance, expected, threshold) <==> balance >= threshold * expected
  {
    DivAtLeast(balance, expected, threshold);
  }

  /** The rate writes of one slot, stated from what is desired. */
  function SlotWrites(s: State, h: Handler, e: RewarderConfig, r: Address, i: nat): seq<Tx>
    requires IsSlot(s, r, i) && i < |e.tokenPerSec|
  {
    if Writes(s, h, e, r, i)
    then [SetRewardRate(r, i, Desired(s, h, e, r, i), if e.isV2 then Some(0) else None)]
    else []
  }

  function SlotTransfers(s: State, h: Handler, e: RewarderConfig, r: Address, i: nat): seq<Tx>
    requires IsSlot(s, r, i) && i < |e.tokenPerSec| && i < |e.rewardTokens|
  {
    if TopsUp(h, e, i) then [Transfer(s.slots[r][i].token, r, SlotTopUp(h, e, i))] else []
  }

  /** When a handler fails on a slot, and otherwise exactly what it proposes. */
  lemma PlanSlotForm(s: State, h: Handler, e: RewarderConfig, r: Address, i: nat)
    requires IsSlot(s, r, i) && i < |e.rewardTokens| && Solvent(s)
    ensures PlanSlot(s, h, e, r, i).Ok? <==>
            && i < |e.tokenPerSec|
            && (h.PauseOrResumeRewardRate? ==> e.tokenPerSec[i] >= 0 && !(e.isV2 && Writes(s, h, e, r, i)))
    ensures PlanSlot(s, h, e, r, i).Ok? ==>
              PlanSlot(s, h, e, r, i).value == SlotWrites(s, h, e, r, i) + SlotTransfers(s, h, e, r, i)
  {
    if i < |e.tokenPerSec| && h.PauseOrResumeRewardRate? && e.tokenPerSec[i] > 0 {
      EnoughIffCovered(Balance(s, s.slots[r][i].token, r), e.tokenPerSec[i], h.threshold);
    }
  }

  /** The batch proposed for one slot: at most one write, of the desired rate, and the top-up. */
  lemma PlanSlotContents(s: State, h: Handler, e: RewarderConfig, r: Address, i: nat)
    requires IsSlot(s, r, i) && i < |e.rewardTokens| && i < |e.tokenPerSec|
    ensures var txs := SlotWrites(s, h, e, r, i) + SlotTransfers(s, h, e, r, i);
            var token := s.slots[r][i].token;
            && NoNewToken(txs)
            && (forall tx :: tx in txs ==> if tx.Transfer? then tx.to == r else tx.rewarder == r)
            && (forall r', j: nat, d :: RateAfter(txs, r', j, d) ==
                                   if r' == r && j == i && Writes(s, h, e, r, i) then Desired(s, h, e, r, i) else d)
            && (forall r', j: nat :: WriteCount(txs, r', j) ==
                                if r' == r && j == i && Writes(s, h, e, r, i) then 1 else 0)
            && (forall t, to :: SentTo(txs, t, to) == if to == r && t == token then SlotTopUp(h, e, i) else 0)
            && (forall t :: Sent(txs, t) == if t == token then SlotTopUp(h, e, i) else 0)
  {
    var writes, transfers := SlotWrites(s, h, e, r, i), SlotTransfers(s, h, e, r, i);
    assert writes != [] ==> writes[1..] == [];
    assert transfers != [] ==> transfers[1..] == [];
    ConcatMeasures(writes, transfers);
    assert forall r', j: nat, d :: RateAfter(transfers, r', j, d) == d;
  }

  /** The same for all the slots of one entry. */
  lemma {:induction false} PlanSlotsContents(s: State, h: Handler, e: RewarderConfig, r: Address, i: nat)
    requires r in s.slots && |s.slots[r]| == |e.rewardTokens| && i <= |s.slots[r]| && Solvent(s)
    requires |e.rewardTokens| <= |e.tokenPerSec|
    requires PlanSlots(s, h, e, r, i).Ok?
    ensures var txs := PlanSlots(s, h, e, r, i).value;
            && NoNewToken(txs)
            && (forall tx :: tx in txs ==> if tx.Transfer? then tx.to == r else tx.rewarder == r)
            && (forall r', j: nat, d :: RateAfter(txs, r', j, d) ==
                  if r' == r && i <= j < |e.rewardTokens| && Writes(s, h, e, r, j) then Desired(s, h, e, r, j) else d)
            && (forall r', j: nat :: WriteCount(txs, r', j) ==
                  if r' == r && i <= j < |e.rewardTokens| && Writes(s, h, e, r, j) then 1 else 0)
            && (forall t, to :: SentTo(txs, t, to) == if to == r then EntryTopUp(s, h, e, r, t, i) else 0)
            && (forall t :: Sent(txs, t) == EntryTopUp(s, h, e, r, t, i))
    decreases |e.rewardTokens| - i
  {
    if i < |e.rewardTokens| {
      PlanSlotForm(s, h, e, r, i);
      PlanSlotContents(s, h, e, r, i);
      PlanSlotsContents(s, h, e, r, i + 1);
      ConcatMeasures(PlanSlot(s, h, e, r, i).value, PlanSlots(s, h, e, r, i + 1).value);
    }
  }
}
