/**
 Whole runs of `pauseOrResumeRewardRate`: the chain is reconciled again and again while emissions accrue,
 are claimed whenever their owners like, and anybody may deposit. When is every claim covered?
 */
module FundingRun {
  import opened Base
  import opened Emission
  import opened Ledger
  import opened Rewarders
  import opened RewarderPlans
  import opened Convergence

  datatype Event =
    | Reconcile
    | Elapse(seconds: nat)
    | Claim(rewarder: Address, index: nat, amount: nat)
    | Deposit(token: Address, holder: Address, amount: nat)

  /** `owed` is what the slots have emitted and nobody has claimed; `elapsed` counts from the last reconciliation. */
  datatype RunState = RunState(chain: State, owed: map<(Address, nat), nat>, elapsed: nat)

  /** The job that is run: its configuration, the names it resolves, and the pause threshold. */
  datatype Keeper = Keeper(env: Env, threshold: nat, entries: seq<RewarderConfig>)
  {
    function Handler(): Handler {
      PauseOrResumeRewardRate(threshold)
    }

    function Propose(s: State): Result<seq<Tx>> {
      Plan(env, s, Handler(), entries)
    }
  }

  function Owed(rs: RunState, r: Address, i: nat): nat {
    if (r, i) in rs.owed then rs.owed[(r, i)] else 0
  }

  function SlotsOf(s: State): set<(Address, nat)> {
    set r, i: nat | r in s.slots && i < |s.slots[r]| :: (r, i)
  }

  /** Every slot goes on owing what it owed, and what it has emitted since. */
  function Accrued(rs: RunState, seconds: nat): map<(Address, nat), nat> {
    map p | p in SlotsOf(rs.chain) :: Owed(rs, p.0, p.1) + RateOf(rs.chain, p.0, p.1) * seconds
  }

  /**
   One event; None when it cannot happen. Reconciliations are at most `threshold` apart. A reconciliation
   cancels nothing that is owed. A claim takes any part of what is owed, and one that leaves a balance below
   zero is one that the rewarder cannot pay.
   */
  function Step(k: Keeper, rs: RunState, ev: Event): Option<RunState> {
    match ev
    case Reconcile =>
      (match k.Propose(rs.chain)
       case Err => None
       case Ok(plan) =>
         match Run(rs.chain, plan)
         case None => None
         case Some(chain) => Some(rs.(chain := chain, elapsed := 0)))
    case Elapse(seconds) =>
      if rs.elapsed + seconds <= k.threshold
      then Some(rs.(owed := Accrued(rs, seconds), elapsed := rs.elapsed + seconds))
      else None
    case Claim(r, i, amount) =>
      if Targets(k.env, k.entries, r) && IsSlot(rs.chain, r, i) && amount <= Owed(rs, r, i) then
        var token := rs.chain.slots[r][i].token;
        Some(rs.(chain := rs.chain.(ledger := Credit(rs.chain.ledger, token, r, 0 - amount)),
                 owed := rs.owed[(r, i) := Owed(rs, r, i) - amount]))
      else None
    case Deposit(token, holder, amount) =>
      Some(rs.(chain := rs.chain.(ledger := Credit(rs.chain.ledger, token, holder, amount))))
  }

  function Play(k: Keeper, rs: RunState, evs: seq<Event>): Option<RunState>
    decreases |evs|
  {
    if evs == [] then Some(rs) else
      match Step(k, rs, evs[0])
      case None => None
      case Some(rs1) => Play(k, rs1, evs[1..])
  }

  /** Before the first reconciliation. */
  function Begin(s: State): RunState {
    RunState(s, map[], 0)
  }

  /** What the keeper makes sure of before it reconciles. */
  datatype Discipline = Anytime | SurplusAgrees | NothingOwed

  /**
   The test of a slot looks at the whole balance. `SurplusAgrees`: every slot that passes it would pass it on
   what the balance holds beyond what the slot owes. `NothingOwed`: all that was emitted has been claimed.
   */
  ghost predicate Ready(k: Keeper, rs: RunState, d: Discipline) {
    forall e, i: nat :: e in k.entries && i < |e.rewardTokens| && Resolved(k.env, rs.chain, e) ==>
      ReadySlot(k, rs, e, i, d)
  }

  predicate ReadySlot(k: Keeper, rs: RunState, e: RewarderConfig, i: nat, d: Discipline)
    requires Resolved(k.env, rs.chain, e) && i < |e.rewardTokens|
  {
    match d
    case Anytime => true
    case SurplusAgrees => !Masked(k, rs, e, i)
    case NothingOwed => Owed(rs, AddressOf(k.env, e).value, i) == 0
  }

  /** The balance passes the test of the slot, and the surplus does not. */
  predicate Masked(k: Keeper, rs: RunState, e: RewarderConfig, i: nat)
    requires Resolved(k.env, rs.chain, e) && i < |e.rewardTokens|
  {
    var r := AddressOf(k.env, e).value;
    var balance := Balance(rs.chain, rs.chain.slots[r][i].token, r);
    && e.tokenPerSec[i] > 0
    && k.threshold * e.tokenPerSec[i] <= balance < Owed(rs, r, i) + k.threshold * e.tokenPerSec[i]
  }

  /** Every reconciliation of a run finds the state ready for it. */
  ghost predicate Disciplined(k: Keeper, rs: RunState, evs: seq<Event>, d: Discipline)
    decreases |evs|
  {
    evs == [] ||
    ((evs[0].Reconcile? ==> Ready(k, rs, d))
     && match Step(k, rs, evs[0]) case None => true case Some(rs1) => Disciplined(k, rs1, evs[1..], d))
  }

  /** Every run that starts from the rates of `s`, whatever the balances, keeps every balance at or above zero. */
  ghost predicate AlwaysSolvent(k: Keeper, s: State, d: Discipline) {
    forall l: Balances, evs: seq<Event> ::
      && Solvent(s.(ledger := l)) && Play(k, Begin(s.(ledger := l)), [Reconcile] + evs).Some?
      && Disciplined(k, Begin(s.(ledger := l)), [Reconcile] + evs, d) ==>
        Solvent(Play(k, Begin(s.(ledger := l)), [Reconcile] + evs).value.chain)
  }

  /** A configuration the contracts accept: non-V2 rewarders, each once, with rates within the limits. */
  ghost predicate Deployable(k: Keeper, s: State) {
    && AllResolved(k.env, s, k.entries)
    && !Targets(k.env, k.entries, s.multisig)
    && (forall a, b :: 0 <= a < b < |k.entries| ==> AddressOf(k.env, k.entries[a]) != AddressOf(k.env, k.entries[b]))
    && (forall e :: e in k.entries ==> !e.isV2)
    && (forall e, i :: e in k.entries && 0 <= i < |e.rewardTokens| ==>
          Resolved(k.env, s, e) && 0 <= e.tokenPerSec[i] <= MAX_RATE)
  }

  /** No slot emits faster than configured. */
  ghost predicate RatesBounded(k: Keeper, s: State)
    requires AllResolved(k.env, s, k.entries)
  {
    forall e, i: nat :: e in k.entries && i < |e.rewardTokens| ==>
      assert Resolved(k.env, s, e); RateOf(s, AddressOf(k.env, e).value, i) <= e.tokenPerSec[i]
  }

  /** No two emitting slots of a rewarder share a token. */
  ghost predicate TokensDistinct(k: Keeper, s: State)
    requires AllResolved(k.env, s, k.entries)
  {
    forall e, i: nat, j: nat :: e in k.entries && i < |e.rewardTokens| && j < |e.rewardTokens| && i != j ==>
      assert Resolved(k.env, s, e);
      e.tokenPerSec[i] > 0 && e.tokenPerSec[j] > 0 ==>
        s.slots[AddressOf(k.env, e).value][i].token != s.slots[AddressOf(k.env, e).value][j].token
  }

  /** No configured slot emits, nor is meant to. */
  ghost predicate Silent(k: Keeper, s: State)
    requires AllResolved(k.env, s, k.entries)
  {
    forall e, i: nat :: e in k.entries && i < |e.rewardTokens| ==>
      assert Resolved(k.env, s, e); RateOf(s, AddressOf(k.env, e).value, i) == 0 == e.tokenPerSec[i]
  }

  // ---------------------------------------------------------------------------------------------
  // One reconciliation
  // ---------------------------------------------------------------------------------------------

  /** What a reconciliation leaves behind, slot by slot. */
  lemma ReconcileEffect(k: Keeper, rs: RunState)
    requires Deployable(k, rs.chain) && Solvent(rs.chain)
    ensures Step(k, rs, Reconcile).Some?
    ensures var rs' := Step(k, rs, Reconcile).value;
            && rs'.owed == rs.owed && rs'.elapsed == 0
            && Deployable(k, rs'.chain) && Solvent(rs'.chain)
            && (forall t, a :: Balance(rs'.chain, t, a) == Balance(rs.chain, t, a))
            && SameTokens(rs.chain, rs'.chain)
            && Converged(k.env, rs.chain, k.Handler(), k.entries, rs'.chain)
  {
    var s, h := rs.chain, k.Handler();
    forall e | e in k.entries ensures Plannable(k.env, s, h, e) {
      assert Resolved(k.env, s, e) && !e.isV2;
    }
    PlanOkIff(k.env, s, h, k.entries);
    forall t, a ensures TopUpTotal(k.env, s, h, k.entries, t) == 0 && TopUpDue(k.env, s, h, k.entries, t, a) == 0 {
      NoTopUp(k.env, s, h, k.entries, t, a);
    }
    forall e, i: nat | e in k.entries && i < |e.rewardTokens|
      ensures Resolved(k.env, s, e)
      ensures var r := AddressOf(k.env, e).value;
              Writes(s, h, e, r, i) ==> 0 <= Desired(s, h, e, r, i) <= MAX_RATE
    {
      assert Resolved(k.env, s, e);
      PauseDecision(s, k.threshold, e, AddressOf(k.env, e).value, i);
    }
    forall t ensures TopUpTotal(k.env, s, h, k.entries, t) <= Balance(s, t, s.multisig) {
      NoTopUp(k.env, s, h, k.entries, t, t);
      assert Balance(s, t, s.multisig) >= 0;
    }
    PlanGoesThroughIff(k.env, s, h, k.entries);
    var plan := k.Propose(s).value;
    var s' := Run(s, plan).value;
    DistinctRewardersAgree(k.env, s, h, k.entries);
    PlanConverges(k.env, s, h, k.entries, s');
    PlanContents(k.env, s, h, k.entries);
    RunEffect(s, plan);
    assert forall e :: e in k.entries ==> Resolved(k.env, s', e);
  }

  ghost predicate SameTokens(s: State, s': State) {
    && s'.multisig == s.multisig
    && s'.slots.Keys == s.slots.Keys
    && (forall r :: r in s.slots ==> |s'.slots[r]| == |s.slots[r]|)
    && (forall r, i: nat :: IsSlot(s, r, i) ==> IsSlot(s', r, i) && s'.slots[r][i].token == s.slots[r][i].token)
  }

  // ---------------------------------------------------------------------------------------------
  // Safety
  // ---------------------------------------------------------------------------------------------

  /**
   The balance pays for what the slot owes and for what it will emit until the next reconciliation is due;
   a slot that is not meant to emit owes nothing.
   */
  predicate Covered(k: Keeper, rs: RunState, e: RewarderConfig, i: nat)
    requires Resolved(k.env, rs.chain, e) && i < |e.rewardTokens| && rs.elapsed <= k.threshold
  {
    var r := AddressOf(k.env, e).value;
    && Balance(rs.chain, rs.chain.slots[r][i].token, r) >=
       Owed(rs, r, i) + RateOf(rs.chain, r, i) * (k.threshold - rs.elapsed)
    && (e.tokenPerSec[i] == 0 ==> Owed(rs, r, i) == 0)
  }

  ghost predicate Inv(k: Keeper, rs: RunState) {
    && Solvent(rs.chain) && Deployable(k, rs.chain)
    && RatesBounded(k, rs.chain) && TokensDistinct(k, rs.chain)
    && rs.elapsed <= k.threshold
    && (forall e, i: nat :: e in k.entries && i < |e.rewardTokens| ==>
          Resolved(k.env, rs.chain, e) && Covered(k, rs, e, i))
  }

  /** A reconciliation of a slot whose surplus agrees leaves it covered for the whole interval. */
  lemma ReconcileCovers(k: Keeper, rs: RunState, rs': RunState, e: RewarderConfig, i: nat)
    requires e in k.entries && i < |e.rewardTokens|
    requires Resolved(k.env, rs.chain, e) && Resolved(k.env, rs'.chain, e) && 0 <= e.tokenPerSec[i]
    requires rs'.owed == rs.owed && rs'.elapsed == 0 && !Masked(k, rs, e, i)
    requires var r := AddressOf(k.env, e).value;
             && RateOf(rs.chain, r, i) <= e.tokenPerSec[i]
             && RateOf(rs'.chain, r, i) == Desired(rs.chain, k.Handler(), e, r, i)
             && rs'.chain.slots[r][i].token == rs.chain.slots[r][i].token
             && Balance(rs'.chain, rs.chain.slots[r][i].token, r) == Balance(rs.chain, rs.chain.slots[r][i].token, r)
             && Balance(rs.chain, rs.chain.slots[r][i].token, r) >= Owed(rs, r, i)
             && (e.tokenPerSec[i] == 0 ==> Owed(rs, r, i) == 0)
    ensures RateOf(rs'.chain, AddressOf(k.env, e).value, i) <= e.tokenPerSec[i]
    ensures Covered(k, rs', e, i)
  {
    var r := AddressOf(k.env, e).value;
    MulMono(RateOf(rs'.chain, r, i), e.tokenPerSec[i], k.threshold);
  }

  /** What every slot owes is there, before the first reconciliation as between any two. */
  ghost predicate OwedIsThere(k: Keeper, rs: RunState) {
    forall e, i: nat :: e in k.entries && i < |e.rewardTokens| && Resolved(k.env, rs.chain, e) ==>
      var r := AddressOf(k.env, e).value;
      && Balance(rs.chain, rs.chain.slots[r][i].token, r) >= Owed(rs, r, i)
      && (e.tokenPerSec[i] == 0 ==> Owed(rs, r, i) == 0)
  }

  lemma ReconcileKeepsInv(k: Keeper, rs: RunState)
    requires Deployable(k, rs.chain) && Solvent(rs.chain)
    requires RatesBounded(k, rs.chain) && TokensDistinct(k, rs.chain)
    requires OwedIsThere(k, rs) && Ready(k, rs, SurplusAgrees)
    ensures Step(k, rs, Reconcile).Some? && Inv(k, Step(k, rs, Reconcile).value)
  {
    ReconcileEffect(k, rs);
    var rs' := Step(k, rs, Reconcile).value;
    hide Step, Solvent, Masked, Covered, Desired;
    forall e, i: nat | e in k.entries && i < |e.rewardTokens|
      ensures Resolved(k.env, rs'.chain, e)
      ensures RateOf(rs'.chain, AddressOf(k.env, e).value, i) <= e.tokenPerSec[i]
      ensures Covered(k, rs', e, i)
    {
      assert Resolved(k.env, rs.chain, e) && Resolved(k.env, rs'.chain, e);
      assert IsSlot(rs.chain, AddressOf(k.env, e).value, i) && ReadySlot(k, rs, e, i, SurplusAgrees);
      ReconcileCovers(k, rs, rs', e, i);
    }
    SameTokensStayDistinct(k, rs.chain, rs'.chain);
  }

  lemma SameTokensStayDistinct(k: Keeper, s: State, s': State)
    requires AllResolved(k.env, s, k.entries) && AllResolved(k.env, s', k.entries)
    requires SameTokens(s, s') && TokensDistinct(k, s)
    ensures TokensDistinct(k, s')
  {
    forall e, i: nat, j: nat | e in k.entries && i < |e.rewardTokens| && j < |e.rewardTokens| && i != j
      ensures Resolved(k.env, s', e)
      ensures e.tokenPerSec[i] > 0 && e.tokenPerSec[j] > 0 ==>
        s'.slots[AddressOf(k.env, e).value][i].token != s'.slots[AddressOf(k.env, e).value][j].token
    {
      assert Resolved(k.env, s, e) && Resolved(k.env, s', e);
      var r := AddressOf(k.env, e).value;
      assert IsSlot(s, r, i) && IsSlot(s, r, j);
    }
  }

  /** None of the conditions on the configuration reads a balance. */
  lemma BalancesDoNotMatter(k: Keeper, s: State, l: Balances)
    requires Deployable(k, s)
    ensures Deployable(k, s.(ledger := l))
    ensures RatesBounded(k, s) ==> RatesBounded(k, s.(ledger := l))
    ensures TokensDistinct(k, s) ==> TokensDistinct(k, s.(ledger := l))
  {
    assert forall e :: e in k.entries ==> Resolved(k.env, s, e) && Resolved(k.env, s.(ledger := l), e);
  }

  lemma ElapseEffect(k: Keeper, rs: RunState, seconds: nat)
    requires rs.elapsed + seconds <= k.threshold
    ensures Step(k, rs, Elapse(seconds)).Some?
    ensures var rs' := Step(k, rs, Elapse(seconds)).value;
            && rs'.chain == rs.chain && rs'.elapsed == rs.elapsed + seconds
            && forall r: Address, i: nat :: IsSlot(rs.chain, r, i) ==>
                 Owed(rs', r, i) == Owed(rs, r, i) + RateOf(rs.chain, r, i) * seconds
  {
    assert forall r: Address, i: nat :: IsSlot(rs.chain, r, i) ==> (r, i) in SlotsOf(rs.chain);
  }

  lemma Distribute(a: int, b: int, c: int)
    ensures a * (b - c) + a * c == a * b
  {
  }

  lemma ElapseKeepsInv(k: Keeper, rs: RunState, seconds: nat)
    requires Inv(k, rs) && Step(k, rs, Elapse(seconds)).Some?
    ensures Inv(k, Step(k, rs, Elapse(seconds)).value)
  {
    ElapseEffect(k, rs, seconds);
    var rs' := Step(k, rs, Elapse(seconds)).value;
    hide Step, Solvent, Deployable, TokensDistinct;
    forall e, i: nat | e in k.entries && i < |e.rewardTokens|
      ensures Resolved(k.env, rs'.chain, e) && Covered(k, rs', e, i)
    {
      assert Resolved(k.env, rs.chain, e) && Covered(k, rs, e, i);
      assert IsSlot(rs.chain, AddressOf(k.env, e).value, i);
      Distribute(RateOf(rs.chain, AddressOf(k.env, e).value, i), k.threshold - rs.elapsed, seconds);
    }
  }

  /** A covered claim is paid. */
  lemma ClaimKeepsSolvent(k: Keeper, rs: RunState, r: Address, j: nat, amount: nat)
    requires Inv(k, rs) && Step(k, rs, Claim(r, j, amount)).Some?
    ensures Solvent(Step(k, rs, Claim(r, j, amount)).value.chain)
    ensures exists f :: && f in k.entries && AddressOf(k.env, f) == Ok(r) && j < |f.rewardTokens|
                        && Resolved(k.env, rs.chain, f)
                        && Balance(rs.chain, rs.chain.slots[r][j].token, r) >= Owed(rs, r, j)
                        && (f.tokenPerSec[j] == 0 ==> amount == 0)
  {
    var rs' := Step(k, rs, Claim(r, j, amount)).value;
    var f :| f in k.entries && AddressOf(k.env, f) == Ok(r);
    assert Resolved(k.env, rs.chain, f) && Covered(k, rs, f, j);
    MulMono(0, k.threshold - rs.elapsed, RateOf(rs.chain, r, j));
    forall t, a ensures Balance(rs'.chain, t, a) >= 0 {
      assert Balance(rs.chain, t, a) >= 0;
    }
  }

  lemma SameAddressSameEntry(k: Keeper, s: State, e: RewarderConfig, f: RewarderConfig)
    requires Deployable(k, s) && e in k.entries && f in k.entries && AddressOf(k.env, e) == AddressOf(k.env, f)
    ensures e == f
  {
    var a :| 0 <= a < |k.entries| && k.entries[a] == e;
    var b :| 0 <= b < |k.entries| && k.entries[b] == f;
  }

  /** A claim takes from the slot's balance what it takes off the slot's debt; other slots lose nothing they need. */
  lemma ClaimCovers(k: Keeper, rs: RunState, r: Address, j: nat, amount: nat, e: RewarderConfig, i: nat)
    requires Step(k, rs, Claim(r, j, amount)).Some? && rs.elapsed <= k.threshold
    requires i < |e.rewardTokens| && Resolved(k.env, rs.chain, e) && Covered(k, rs, e, i)
    requires var q, s' := AddressOf(k.env, e).value, Step(k, rs, Claim(r, j, amount)).value.chain;
             && RateOf(rs.chain, q, i) <= e.tokenPerSec[i]
             && Balance(s', rs.chain.slots[q][i].token, q) >= 0
             && (q == r && i != j && rs.chain.slots[r][i].token == rs.chain.slots[r][j].token ==>
                   e.tokenPerSec[i] == 0 || amount == 0)
    ensures Resolved(k.env, Step(k, rs, Claim(r, j, amount)).value.chain, e)
    ensures Covered(k, Step(k, rs, Claim(r, j, amount)).value, e, i)
  {
    var q, rs' := AddressOf(k.env, e).value, Step(k, rs, Claim(r, j, amount)).value;
    assert Owed(rs', q, i) == if q == r && i == j then Owed(rs, r, j) - amount else Owed(rs, q, i);
  }

  lemma ClaimKeepsCover(
    k: Keeper, rs: RunState, r: Address, j: nat, amount: nat, e: RewarderConfig, i: nat)
    requires Inv(k, rs) && Step(k, rs, Claim(r, j, amount)).Some?
    requires e in k.entries && i < |e.rewardTokens| && Resolved(k.env, rs.chain, e)
    ensures Resolved(k.env, Step(k, rs, Claim(r, j, amount)).value.chain, e)
    ensures Covered(k, Step(k, rs, Claim(r, j, amount)).value, e, i)
  {
    ClaimKeepsSolvent(k, rs, r, j, amount);
    hide Step, Covered;
    var q := AddressOf(k.env, e).value;
    assert Covered(k, rs, e, i) && IsSlot(rs.chain, q, i);
    if q == r && i != j && rs.chain.slots[r][i].token == rs.chain.slots[r][j].token {
      var f :| && f in k.entries && AddressOf(k.env, f) == Ok(r) && j < |f.rewardTokens|
               && Resolved(k.env, rs.chain, f)
               && Balance(rs.chain, rs.chain.slots[r][j].token, r) >= Owed(rs, r, j)
               && (f.tokenPerSec[j] == 0 ==> amount == 0);
      SameAddressSameEntry(k, rs.chain, e, f);
      assert e.tokenPerSec[i] <= 0 || e.tokenPerSec[j] <= 0;
    }
    ClaimCovers(k, rs, r, j, amount, e, i);
  }

  /** Between reconciliations what is owed is covered. */
  lemma InvOwedIsThere(k: Keeper, rs: RunState)
    requires Inv(k, rs)
    ensures OwedIsThere(k, rs)
  {
    hide Solvent, Deployable, RatesBounded, TokensDistinct;
    forall e, i: nat | e in k.entries && i < |e.rewardTokens| && Resolved(k.env, rs.chain, e)
      ensures var r := AddressOf(k.env, e).value;
              && Balance(rs.chain, rs.chain.slots[r][i].token, r) >= Owed(rs, r, i)
              && (e.tokenPerSec[i] == 0 ==> Owed(rs, r, i) == 0)
    {
      assert Covered(k, rs, e, i);
      MulMono(0, k.threshold - rs.elapsed, RateOf(rs.chain, AddressOf(k.env, e).value, i));
    }
  }

  lemma ClaimKeepsInv(k: Keeper, rs: RunState, r: Address, j: nat, amount: nat)
    requires Inv(k, rs) && Step(k, rs, Claim(r, j, amount)).Some?
    ensures Inv(k, Step(k, rs, Claim(r, j, amount)).value)
  {
    var rs' := Step(k, rs, Claim(r, j, amount)).value;
    ClaimKeepsSolvent(k, rs, r, j, amount);
    assert rs'.chain == rs.chain.(ledger := rs'.chain.ledger) && rs'.elapsed == rs.elapsed;
    BalancesDoNotMatter(k, rs.chain, rs'.chain.ledger);
    hide Step, Solvent, Deployable, RatesBounded, TokensDistinct, Covered;
    forall e, i: nat | e in k.entries && i < |e.rewardTokens|
      ensures Resolved(k.env, rs'.chain, e) && Covered(k, rs', e, i)
    {
      assert Resolved(k.env, rs.chain, e);
      ClaimKeepsCover(k, rs, r, j, amount, e, i);
    }
  }

  lemma DepositKeepsInv(k: Keeper, rs: RunState, token: Address, holder: Address, amount: nat)
    requires Inv(k, rs)
    ensures Inv(k, Step(k, rs, Deposit(token, holder, amount)).value)
  {
    var rs' := Step(k, rs, Deposit(token, holder, amount)).value;
    forall t, a ensures Balance(rs'.chain, t, a) >= Balance(rs.chain, t, a) >= 0 {
      assert Balance(rs.chain, t, a) >= 0;
    }
    BalancesDoNotMatter(k, rs.chain, rs'.chain.ledger);
    hide Deployable, RatesBounded, TokensDistinct;
    forall e, i: nat | e in k.entries && i < |e.rewardTokens|
      ensures Resolved(k.env, rs'.chain, e) && Covered(k, rs', e, i)
    {
      assert Resolved(k.env, rs.chain, e) && Covered(k, rs, e, i);
    }
  }

  lemma StepKeepsInv(k: Keeper, rs: RunState, ev: Event)
    requires Inv(k, rs) && Step(k, rs, ev).Some? && (ev.Reconcile? ==> Ready(k, rs, SurplusAgrees))
    ensures Inv(k, Step(k, rs, ev).value)
  {
    match ev
    case Reconcile =>
      InvOwedIsThere(k, rs);
      hide Step, OwedIsThere, Solvent, Deployable, RatesBounded, TokensDistinct, Ready;
      ReconcileKeepsInv(k, rs);
    case Elapse(seconds) => ElapseKeepsInv(k, rs, seconds);
    case Claim(r, j, amount) => ClaimKeepsInv(k, rs, r, j, amount);
    case Deposit(token, holder, amount) => DepositKeepsInv(k, rs, token, holder, amount);
  }

  /** When nothing is owed, the balance and the surplus are the same thing. */
  lemma DisciplineMeansSurplusAgrees(k: Keeper, rs: RunState, d: Discipline)
    requires Ready(k, rs, d) && !d.Anytime?
    ensures Ready(k, rs, SurplusAgrees)
  {
    forall e, i: nat | e in k.entries && i < |e.rewardTokens| && Resolved(k.env, rs.chain, e)
      ensures ReadySlot(k, rs, e, i, SurplusAgrees)
    {
      assert ReadySlot(k, rs, e, i, d);
    }
  }

  lemma {:induction false} PlayKeepsInv(k: Keeper, rs: RunState, evs: seq<Event>, d: Discipline)
    requires Inv(k, rs) && Play(k, rs, evs).Some? && Disciplined(k, rs, evs, d) && !d.Anytime?
    ensures Inv(k, Play(k, rs, evs).value)
    decreases |evs|
  {
    hide Inv, Step, Ready;
    if evs != [] {
      if evs[0].Reconcile? {
        DisciplineMeansSurplusAgrees(k, rs, d);
      }
      StepKeepsInv(k, rs, evs[0]);
      PlayKeepsInv(k, Step(k, rs, evs[0]).value, evs[1..], d);
    }
  }

  lemma BoundedRatesAreSafe(k: Keeper, s: State, d: Discipline)
    requires Deployable(k, s) && RatesBounded(k, s) && TokensDistinct(k, s) && !d.Anytime?
    ensures AlwaysSolvent(k, s, d)
  {
    forall l: Balances, evs: seq<Event> |
      && Solvent(s.(ledger := l)) && Play(k, Begin(s.(ledger := l)), [Reconcile] + evs).Some?
      && Disciplined(k, Begin(s.(ledger := l)), [Reconcile] + evs, d)
      ensures Solvent(Play(k, Begin(s.(ledger := l)), [Reconcile] + evs).value.chain)
    {
      var rs := Begin(s.(ledger := l));
      BalancesDoNotMatter(k, s, l);
      DisciplineMeansSurplusAgrees(k, rs, d);
      assert OwedIsThere(k, rs) by {
        forall e, i: nat | e in k.entries && i < |e.rewardTokens| && Resolved(k.env, rs.chain, e)
          ensures Balance(rs.chain, rs.chain.slots[AddressOf(k.env, e).value][i].token, AddressOf(k.env, e).value) >= 0
        {
        }
      }
      ReconcileKeepsInv(k, rs);
      assert ([Reconcile] + evs)[1..] == evs;
      PlayKeepsInv(k, Step(k, rs, Reconcile).value, evs, d);
    }
  }

  // ---------------------------------------------------------------------------------------------
  // Runs that overdraw a rewarder
  // ---------------------------------------------------------------------------------------------

  /** A run that ends with the rewarder of a slot at `balance`, every reconciliation being ready for. */
  ghost predicate Reaches(
    k: Keeper, rs: RunState, evs: seq<Event>, d: Discipline, token: Address, holder: Address, balance: int)
  {
    && Play(k, rs, evs).Some? && Disciplined(k, rs, evs, d)
    && Balance(Play(k, rs, evs).value.chain, token, holder) == balance
  }

  lemma ReachesCons(
    k: Keeper, rs: RunState, ev: Event, evs: seq<Event>, d: Discipline, token: Address, holder: Address, balance: int)
    requires Step(k, rs, ev).Some? && (ev.Reconcile? ==> Ready(k, rs, d))
    requires Reaches(k, Step(k, rs, ev).value, evs, d, token, holder, balance)
    ensures Reaches(k, rs, [ev] + evs, d, token, holder, balance)
  {
    hide Step, Ready;
    assert ([ev] + evs)[1..] == evs;
  }

  lemma Overdrawn(
    k: Keeper, s: State, l: Balances, evs: seq<Event>, d: Discipline, token: Address, holder: Address, balance: int)
    requires Solvent(s.(ledger := l)) && balance < 0
    requires Reaches(k, Begin(s.(ledger := l)), [Reconcile] + evs, d, token, holder, balance)
    ensures !AlwaysSolvent(k, s, d)
  {
  }

  /** The configured slot `i` of entry `e`, on a chain where nothing stops the keeper. */
  ghost predicate Configured(k: Keeper, rs: RunState, e: RewarderConfig, i: nat) {
    && Deployable(k, rs.chain) && Solvent(rs.chain)
    && e in k.entries && i < |e.rewardTokens| && Resolved(k.env, rs.chain, e)
  }

  function TokenOf(k: Keeper, rs: RunState, e: RewarderConfig, i: nat): Address
    requires Resolved(k.env, rs.chain, e) && i < |e.rewardTokens|
  {
    rs.chain.slots[AddressOf(k.env, e).value][i].token
  }

  function SlotRate(k: Keeper, rs: RunState, e: RewarderConfig, i: nat): nat
    requires Resolved(k.env, rs.chain, e) && i < |e.rewardTokens|
  {
    RateOf(rs.chain, AddressOf(k.env, e).value, i)
  }

  function SlotOwed(k: Keeper, rs: RunState, e: RewarderConfig, i: nat): nat
    requires Resolved(k.env, rs.chain, e)
  {
    Owed(rs, AddressOf(k.env, e).value, i)
  }

  function SlotBalance(k: Keeper, rs: RunState, e: RewarderConfig, i: nat): int
    requires Resolved(k.env, rs.chain, e) && i < |e.rewardTokens|
  {
    Balance(rs.chain, TokenOf(k, rs, e, i), AddressOf(k.env, e).value)
  }

  /** The effect of a reconciliation on one configured slot. */
  lemma ReconcileSlot(k: Keeper, rs: RunState, e: RewarderConfig, i: nat)
    requires Configured(k, rs, e, i)
    ensures Step(k, rs, Reconcile).Some?
    ensures var rs' := Step(k, rs, Reconcile).value;
            && rs'.owed == rs.owed && rs'.elapsed == 0 && Configured(k, rs', e, i)
            && SlotRate(k, rs', e, i) == Desired(rs.chain, k.Handler(), e, AddressOf(k.env, e).value, i)
            && TokenOf(k, rs', e, i) == TokenOf(k, rs, e, i) && SlotBalance(k, rs', e, i) == SlotBalance(k, rs, e, i)
            && SlotOwed(k, rs', e, i) == SlotOwed(k, rs, e, i)
  {
    ReconcileEffect(k, rs);
    assert Resolved(k.env, Step(k, rs, Reconcile).value.chain, e);
    assert IsSlot(rs.chain, AddressOf(k.env, e).value, i);
  }

  lemma DepositSlot(k: Keeper, rs: RunState, e: RewarderConfig, i: nat, amount: nat)
    requires Configured(k, rs, e, i)
    ensures Step(k, rs, Deposit(TokenOf(k, rs, e, i), AddressOf(k.env, e).value, amount)).Some?
    ensures var rs' := Step(k, rs, Deposit(TokenOf(k, rs, e, i), AddressOf(k.env, e).value, amount)).value;
            && rs'.owed == rs.owed && rs'.elapsed == rs.elapsed && rs'.chain.slots == rs.chain.slots
            && Configured(k, rs', e, i) && SlotBalance(k, rs', e, i) == SlotBalance(k, rs, e, i) + amount
  {
    var rs' := Step(k, rs, Deposit(TokenOf(k, rs, e, i), AddressOf(k.env, e).value, amount)).value;
    BalancesDoNotMatter(k, rs.chain, rs'.chain.ledger);
    forall t, h ensures Balance(rs'.chain, t, h) >= 0 {
      assert Balance(rs.chain, t, h) >= 0;
    }
  }

  lemma WaitSlot(k: Keeper, rs: RunState, e: RewarderConfig, i: nat)
    requires Configured(k, rs, e, i) && rs.elapsed == 0
    ensures Step(k, rs, Elapse(k.threshold)).Some?
    ensures var rs' := Step(k, rs, Elapse(k.threshold)).value;
            && rs'.chain == rs.chain && rs'.elapsed == k.threshold && Configured(k, rs', e, i)
            && SlotOwed(k, rs', e, i) == SlotOwed(k, rs, e, i) + SlotRate(k, rs, e, i) * k.threshold
  {
    ElapseEffect(k, rs, k.threshold);
    assert IsSlot(rs.chain, AddressOf(k.env, e).value, i);
  }

  /** Everything a slot owes may be claimed at once. */
  lemma ClaimSlot(k: Keeper, rs: RunState, e: RewarderConfig, i: nat)
    requires e in k.entries && i < |e.rewardTokens| && Resolved(k.env, rs.chain, e)
    ensures var r := AddressOf(k.env, e).value;
            var ev := Claim(r, i, SlotOwed(k, rs, e, i));
            && Step(k, rs, ev).Some?
            && Step(k, rs, ev).value.chain.slots == rs.chain.slots
            && Resolved(k.env, Step(k, rs, ev).value.chain, e)
            && (forall j: nat :: j != i ==> Owed(Step(k, rs, ev).value, r, j) == Owed(rs, r, j))
            && Balance(Step(k, rs, ev).value.chain, TokenOf(k, rs, e, i), r)
               == SlotBalance(k, rs, e, i) - SlotOwed(k, rs, e, i)
  {
  }

  /**
   Reconcile, wait as long as allowed, claim all: the balance loses what was owed already and what the slot
   has emitted at the rate the reconciliation gave it.
   */
  lemma ReconcileAndDrain(k: Keeper, rs: RunState, e: RewarderConfig, i: nat, d: Discipline) returns (evs: seq<Event>)
    requires Configured(k, rs, e, i) && Ready(k, rs, d)
    ensures var r := AddressOf(k.env, e).value;
            Reaches(k, rs, [Reconcile] + evs, d, TokenOf(k, rs, e, i), r,
                    SlotBalance(k, rs, e, i) - SlotOwed(k, rs, e, i)
                    - Desired(rs.chain, k.Handler(), e, r, i) * k.threshold)
  {
    hide Step, Ready, Configured, Desired;
    assert e in k.entries && i < |e.rewardTokens| && Resolved(k.env, rs.chain, e) by { UnfoldConfigured(k, rs, e, i); }
    var r, token := AddressOf(k.env, e).value, TokenOf(k, rs, e, i);
    ReconcileSlot(k, rs, e, i);
    var reconciled := Step(k, rs, Reconcile).value;
    WaitSlot(k, reconciled, e, i);
    var waited := Step(k, reconciled, Elapse(k.threshold)).value;
    UnfoldConfigured(k, waited, e, i);
    ClaimSlot(k, waited, e, i);
    var claim := Claim(r, i, SlotOwed(k, waited, e, i));
    var last := Balance(Step(k, waited, claim).value.chain, token, r);
    assert Reaches(k, Step(k, waited, claim).value, [], d, token, r, last);
    ReachesCons(k, waited, claim, [], d, token, r, last);
    ReachesCons(k, reconciled, Elapse(k.threshold), [claim] + [], d, token, r, last);
    evs := [Elapse(k.threshold)] + ([claim] + []);
    ReachesCons(k, rs, Reconcile, evs, d, token, r, last);
  }

  lemma UnfoldConfigured(k: Keeper, rs: RunState, e: RewarderConfig, i: nat)
    requires Configured(k, rs, e, i)
    ensures e in k.entries && i < |e.rewardTokens| && Resolved(k.env, rs.chain, e)
  {
  }

  /** At the start nothing is owed, so any discipline is kept. */
  lemma BeginConfigured(k: Keeper, s: State, l: Balances, e: RewarderConfig, i: nat)
    requires Deployable(k, s) && Solvent(s.(ledger := l)) && e in k.entries && i < |e.rewardTokens|
    ensures Configured(k, Begin(s.(ledger := l)), e, i)
    ensures forall d :: Ready(k, Begin(s.(ledger := l)), d)
  {
    BalancesDoNotMatter(k, s, l);
    assert Resolved(k.env, s, e);
  }

  /** Nothing owed, nothing masked. */
  lemma NothingOwedIsReady(k: Keeper, rs: RunState, d: Discipline)
    requires rs.owed == map[]
    ensures Ready(k, rs, d)
  {
  }

  /** A slot emitting faster than configured is left alone by a balance that only covers the configured rate. */
  lemma ExcessRateIsUnsafe(k: Keeper, s: State, e: RewarderConfig, i: nat, d: Discipline)
    requires Deployable(k, s) && k.threshold > 0
    requires e in k.entries && i < |e.rewardTokens| && Resolved(k.env, s, e)
    requires RateOf(s, AddressOf(k.env, e).value, i) > e.tokenPerSec[i]
    ensures !AlwaysSolvent(k, s, d)
  {
    var r := AddressOf(k.env, e).value;
    var token, expected, rate := s.slots[r][i].token, e.tokenPerSec[i], RateOf(s, r, i);
    var enough := k.threshold * expected;
    assert 0 <= enough < rate * k.threshold by {
      MulMono(expected + 1, rate, k.threshold);
    }
    var l := Credit(map[], token, r, enough);
    var rs := Begin(s.(ledger := l));
    BeginConfigured(k, s, l, e, i);
    var evs := ReconcileAndDrain(k, rs, e, i, d);
    Overdrawn(k, s, l, evs, d, token, r, enough - rate * k.threshold);
  }

  /**
   A slot that passes the test on its balance but not on its surplus, and that emits at the configured rate
   or is resumed, can be drained below zero before the next reconciliation; how far is told to the unit.
   */
  lemma MaskedSlotOverdraws(k: Keeper, rs: RunState, e: RewarderConfig, i: nat) returns (evs: seq<Event>)
    requires Configured(k, rs, e, i) && e.tokenPerSec[i] > 0
    requires SlotRate(k, rs, e, i) == 0 || SlotRate(k, rs, e, i) == e.tokenPerSec[i]
    requires SlotBalance(k, rs, e, i) >= k.threshold * e.tokenPerSec[i]
    ensures Reaches(k, rs, [Reconcile] + evs, Anytime, TokenOf(k, rs, e, i), AddressOf(k.env, e).value,
                    SlotBalance(k, rs, e, i) - SlotOwed(k, rs, e, i) - k.threshold * e.tokenPerSec[i])
    ensures Masked(k, rs, e, i) <==>
            SlotBalance(k, rs, e, i) - SlotOwed(k, rs, e, i) - k.threshold * e.tokenPerSec[i] < 0
  {
    hide Step, Configured;
    assert Ready(k, rs, Anytime);
    evs := ReconcileAndDrain(k, rs, e, i, Anytime);
  }

  /**
   Rewards left unclaimed over one reconciliation are counted twice: reconcile, wait, reconcile, wait, claim.
   A balance that covers the threshold once is short of the claim by what it covers.
   */
  lemma UnclaimedRewardsAreCountedTwice(k: Keeper, rs: RunState, e: RewarderConfig, i: nat)
    returns (evs: seq<Event>)
    requires Configured(k, rs, e, i) && e.tokenPerSec[i] > 0 && SlotOwed(k, rs, e, i) == 0
    requires SlotRate(k, rs, e, i) == 0 || SlotRate(k, rs, e, i) == e.tokenPerSec[i]
    requires SlotBalance(k, rs, e, i) >= k.threshold * e.tokenPerSec[i]
    ensures Reaches(k, rs, [Reconcile] + evs, Anytime, TokenOf(k, rs, e, i), AddressOf(k.env, e).value,
                    SlotBalance(k, rs, e, i) - 2 * (k.threshold * e.tokenPerSec[i]))
  {
    hide Step, Configured;
    assert e in k.entries && i < |e.rewardTokens| && Resolved(k.env, rs.chain, e) by { UnfoldConfigured(k, rs, e, i); }
    ReconcileSlot(k, rs, e, i);
    var reconciled := Step(k, rs, Reconcile).value;
    WaitSlot(k, reconciled, e, i);
    var waited := Step(k, reconciled, Elapse(k.threshold)).value;
    UnfoldConfigured(k, reconciled, e, i);
    UnfoldConfigured(k, waited, e, i);
    var rest := MaskedSlotOverdraws(k, waited, e, i);
    var r, token := AddressOf(k.env, e).value, TokenOf(k, rs, e, i);
    var last := SlotBalance(k, rs, e, i) - 2 * (k.threshold * e.tokenPerSec[i]);
    ReachesCons(k, reconciled, Elapse(k.threshold), [Reconcile] + rest, Anytime, token, r, last);
    evs := [Elapse(k.threshold)] + ([Reconcile] + rest);
    ReachesCons(k, rs, Reconcile, evs, Anytime, token, r, last);
  }

  /** Any slot that is meant to emit can be brought there: pause it, deposit the threshold once, resume it. */
  lemma EmittingSlotIsUnsafe(k: Keeper, s: State, e: RewarderConfig, i: nat)
    requires Deployable(k, s) && k.threshold > 0
    requires e in k.entries && i < |e.rewardTokens| && e.tokenPerSec[i] > 0
    ensures !AlwaysSolvent(k, s, Anytime)
  {
    hide Step, Configured, Deployable;
    var none: Balances := map[];
    assert Solvent(s.(ledger := none));
    var rs := Begin(s.(ledger := none));
    BeginConfigured(k, s, none, e, i);
    UnfoldConfigured(k, rs, e, i);
    var r, token, enough := AddressOf(k.env, e).value, TokenOf(k, rs, e, i), k.threshold * e.tokenPerSec[i];
    assert enough > 0;
    ReconcileSlot(k, rs, e, i);
    var paused := Step(k, rs, Reconcile).value;
    UnfoldConfigured(k, paused, e, i);
    DepositSlot(k, paused, e, i, enough);
    var deposit := Deposit(token, r, enough);
    var paid := Step(k, paused, deposit).value;
    UnfoldConfigured(k, paid, e, i);
    var rest := UnclaimedRewardsAreCountedTwice(k, paid, e, i);
    ReachesCons(k, paused, deposit, [Reconcile] + rest, Anytime, token, r, -enough);
    ReachesCons(k, rs, Reconcile, [deposit] + ([Reconcile] + rest), Anytime, token, r, -enough);
    Overdrawn(k, s, none, [deposit] + ([Reconcile] + rest), Anytime, token, r, -enough);
  }

  /** Two slots that share a token may both be drained in one interval. */
  lemma ReconcileAndDrainTwo(k: Keeper, rs: RunState, e: RewarderConfig, i: nat, j: nat, d: Discipline)
    returns (evs: seq<Event>)
    requires Configured(k, rs, e, i) && Configured(k, rs, e, j) && i != j && Ready(k, rs, d) && rs.owed == map[]
    requires TokenOf(k, rs, e, i) == TokenOf(k, rs, e, j)
    ensures var r := AddressOf(k.env, e).value;
            Reaches(k, rs, [Reconcile] + evs, d, TokenOf(k, rs, e, i), r,
                    SlotBalance(k, rs, e, i) - Desired(rs.chain, k.Handler(), e, r, i) * k.threshold
                    - Desired(rs.chain, k.Handler(), e, r, j) * k.threshold)
  {
    hide Step, Ready, Configured, Desired;
    assert e in k.entries && i < |e.rewardTokens| && Resolved(k.env, rs.chain, e) by { UnfoldConfigured(k, rs, e, i); }
    assert j < |e.rewardTokens| by { UnfoldConfigured(k, rs, e, j); }
    var r, token := AddressOf(k.env, e).value, TokenOf(k, rs, e, i);
    ReconcileSlot(k, rs, e, i);
    ReconcileSlot(k, rs, e, j);
    var reconciled := Step(k, rs, Reconcile).value;
    WaitSlot(k, reconciled, e, i);
    WaitSlot(k, reconciled, e, j);
    var waited := Step(k, reconciled, Elapse(k.threshold)).value;
    UnfoldConfigured(k, waited, e, i);
    ClaimSlot(k, waited, e, i);
    var first := Claim(r, i, SlotOwed(k, waited, e, i));
    var once := Step(k, waited, first).value;
    ClaimSlot(k, once, e, j);
    var second := Claim(r, j, SlotOwed(k, once, e, j));
    var last := Balance(Step(k, once, second).value.chain, token, r);
    assert Reaches(k, Step(k, once, second).value, [], d, token, r, last);
    ReachesCons(k, once, second, [], d, token, r, last);
    ReachesCons(k, waited, first, [second] + [], d, token, r, last);
    ReachesCons(k, reconciled, Elapse(k.threshold), [first] + ([second] + []), d, token, r, last);
    evs := [Elapse(k.threshold)] + ([first] + ([second] + []));
    ReachesCons(k, rs, Reconcile, evs, d, token, r, last);
  }

  /** Two slots that share a token both see the whole balance, and together emit more than it covers. */
  lemma SharedTokenIsUnsafe(k: Keeper, s: State, e: RewarderConfig, i: nat, j: nat, d: Discipline)
    requires Deployable(k, s) && k.threshold > 0
    requires e in k.entries && i < |e.rewardTokens| && j < |e.rewardTokens| && i != j && Resolved(k.env, s, e)
    requires e.tokenPerSec[i] > 0 && e.tokenPerSec[j] > 0
    requires var r := AddressOf(k.env, e).value; s.slots[r][i].token == s.slots[r][j].token
    ensures !AlwaysSolvent(k, s, d)
  {
    hide Step, Configured, Deployable;
    var none: Balances := map[];
    assert Solvent(s.(ledger := none));
    var rs := Begin(s.(ledger := none));
    BeginConfigured(k, s, none, e, i);
    BeginConfigured(k, s, none, e, j);
    var r, token := AddressOf(k.env, e).value, TokenOf(k, rs, e, i);
    var a, b := k.threshold * e.tokenPerSec[i], k.threshold * e.tokenPerSec[j];
    assert a > 0 && b > 0;
    var most: nat := if a < b then b else a;
    ReconcileSlot(k, rs, e, i);
    ReconcileSlot(k, rs, e, j);
    var paused := Step(k, rs, Reconcile).value;
    UnfoldConfigured(k, paused, e, i);
    DepositSlot(k, paused, e, i, most);
    DepositSlot(k, paused, e, j, most);
    var deposit := Deposit(token, r, most);
    var paid := Step(k, paused, deposit).value;
    UnfoldConfigured(k, paid, e, i);
    NothingOwedIsReady(k, rs, d);
    NothingOwedIsReady(k, paid, d);
    var rest := ReconcileAndDrainTwo(k, paid, e, i, j, d);
    ReachesCons(k, paused, deposit, [Reconcile] + rest, d, token, r, most - a - b);
    ReachesCons(k, rs, Reconcile, [deposit] + ([Reconcile] + rest), d, token, r, most - a - b);
    Overdrawn(k, s, none, [deposit] + ([Reconcile] + rest), d, token, r, most - a - b);
  }

  // ---------------------------------------------------------------------------------------------
  // Exactly when every claim is covered
  // ---------------------------------------------------------------------------------------------

  /**
   Funding safety with a disciplined keeper: for every balance, every deposit and every order of claims no
   balance goes below zero if and only if no slot starts above its configured rate and no two emitting slots
   of one rewarder pay in the same token.
   */
  lemma SafeIffBoundedAndDistinct(k: Keeper, s: State, d: Discipline)
    requires Deployable(k, s) && k.threshold > 0 && !d.Anytime?
    ensures AlwaysSolvent(k, s, d) <==> RatesBounded(k, s) && TokensDistinct(k, s)
  {
    if RatesBounded(k, s) && TokensDistinct(k, s) {
      BoundedRatesAreSafe(k, s, d);
    } else if !RatesBounded(k, s) {
      var e, i: nat :| e in k.entries && i < |e.rewardTokens| && Resolved(k.env, s, e)
                       && RateOf(s, AddressOf(k.env, e).value, i) > e.tokenPerSec[i];
      ExcessRateIsUnsafe(k, s, e, i, d);
    } else {
      var e, i: nat, j: nat :|
        && e in k.entries && i < |e.rewardTokens| && j < |e.rewardTokens| && i != j
        && Resolved(k.env, s, e) && e.tokenPerSec[i] > 0 && e.tokenPerSec[j] > 0
        && s.slots[AddressOf(k.env, e).value][i].token == s.slots[AddressOf(k.env, e).value][j].token;
      SharedTokenIsUnsafe(k, s, e, i, j, d);
    }
  }

  /** Where nothing is meant to emit no slot can be masked. */
  lemma {:induction false} SilentIsDisciplined(k: Keeper, rs: RunState, evs: seq<Event>)
    requires forall e, i: nat :: e in k.entries && i < |e.rewardTokens| && i < |e.tokenPerSec| ==> e.tokenPerSec[i] == 0
    ensures Disciplined(k, rs, evs, SurplusAgrees)
    decreases |evs|
  {
    hide Step;
    assert Ready(k, rs, SurplusAgrees);
    if evs != [] && Step(k, rs, evs[0]).Some? {
      SilentIsDisciplined(k, Step(k, rs, evs[0]).value, evs[1..]);
    }
  }

  /**
   Funding safety with a keeper that reconciles at any time: no balance ever goes below zero if and only if
   nothing emits and nothing is meant to. The pause threshold protects no emission at all.
   */
  lemma SafeAnytimeIffSilent(k: Keeper, s: State)
    requires Deployable(k, s) && k.threshold > 0
    ensures AlwaysSolvent(k, s, Anytime) <==> Silent(k, s)
  {
    if Silent(k, s) {
      forall e, i: nat | e in k.entries && i < |e.rewardTokens| && i < |e.tokenPerSec| ensures e.tokenPerSec[i] == 0 {
        assert Resolved(k.env, s, e);
      }
      assert RatesBounded(k, s) && TokensDistinct(k, s);
      BoundedRatesAreSafe(k, s, SurplusAgrees);
      forall l: Balances, evs: seq<Event>
        ensures Disciplined(k, Begin(s.(ledger := l)), [Reconcile] + evs, SurplusAgrees)
      {
        SilentIsDisciplined(k, Begin(s.(ledger := l)), [Reconcile] + evs);
      }
    } else {
      var e, i: nat :| e in k.entries && i < |e.rewardTokens| && Resolved(k.env, s, e)
                       && !(RateOf(s, AddressOf(k.env, e).value, i) == 0 == e.tokenPerSec[i]);
      if e.tokenPerSec[i] > 0 {
        EmittingSlotIsUnsafe(k, s, e, i);
      } else {
        ExcessRateIsUnsafe(k, s, e, i, Anytime);
      }
    }
  }
}
