/** `concatAll`: several plans made from one snapshot and joined into one batch. */
module Batches {
  import opened Base
  import opened Rewarders
  import opened RewarderPlans
  import opened Convergence

  /** One call of `updateEmissionsAndTopUp` or `pauseOrResumeRewardRate`. */
  datatype Job = Job(handler: Handler, entries: seq<RewarderConfig>)

  /** All the plans are made from `s`; if one fails, so does the whole. */
  function PlanAll(env: Env, s: State, jobs: seq<Job>): Result<seq<seq<Tx>>> {
    if jobs == [] then Ok([]) else
      var first :- Plan(env, s, jobs[0].handler, jobs[0].entries);
      var rest :- PlanAll(env, s, jobs[1..]);
      Ok([first] + rest)
  }

  function ConcatAll(env: Env, s: State, jobs: seq<Job>): Result<seq<Tx>> {
    var plans :- PlanAll(env, s, jobs);
    Ok(Flatten(plans))
  }

  /** Executing on `s` the batch that was planned on `snapshot`. */
  function RunBatch(env: Env, snapshot: State, s: State, jobs: seq<Job>): Option<State> {
    match ConcatAll(env, snapshot, jobs)
    case Err => None
    case Ok(txs) => Run(s, txs)
  }

  /** Planning and executing one job after the other. */
  function RunOneByOne(env: Env, s: State, jobs: seq<Job>): Option<State>
    decreases |jobs|
  {
    if jobs == [] then Some(s) else
      match Plan(env, s, jobs[0].handler, jobs[0].entries)
      case Err => None
      case Ok(txs) =>
        match Run(s, txs)
        case None => None
        case Some(s1) => RunOneByOne(env, s1, jobs[1..])
  }

  /** No rewarder belongs to two jobs. */
  ghost predicate Disjoint(env: Env, jobs: seq<Job>) {
    forall a, b, r :: 0 <= a < b < |jobs| && Targets(env, jobs[a].entries, r) ==> !Targets(env, jobs[b].entries, r)
  }

  /** Two states show the same thing at `r`: its slots and its balances. */
  ghost predicate SameAt(s: State, s': State, r: Address) {
    && (r in s.slots <==> r in s'.slots)
    && (r in s.slots ==> s.slots[r] == s'.slots[r])
    && (forall t :: Balance(s, t, r) == Balance(s', t, r))
  }

  lemma {:induction false} PlanSlotsReadsOnlyTarget(
    s: State, s': State, h: Handler, e: RewarderConfig, r: Address, i: nat)
    requires r in s.slots && |s.slots[r]| == |e.rewardTokens| && i <= |s.slots[r]| && SameAt(s, s', r)
    ensures PlanSlots(s, h, e, r, i) == PlanSlots(s', h, e, r, i)
    decreases |e.rewardTokens| - i
  {
    if i < |e.rewardTokens| {
      assert PlanSlot(s, h, e, r, i) == PlanSlot(s', h, e, r, i);
      PlanSlotsReadsOnlyTarget(s, s', h, e, r, i + 1);
    }
  }

  /** A plan depends on nothing but the rewarders it configures. */
  lemma {:induction false} PlanReadsOnlyTargets(env: Env, s: State, s': State, h: Handler, entries: seq<RewarderConfig>)
    requires forall r :: Targets(env, entries, r) ==> SameAt(s, s', r)
    ensures Plan(env, s, h, entries) == Plan(env, s', h, entries)
  {
    if entries != [] {
      var e := entries[0];
      assert e in entries && forall x :: x in entries[1..] ==> x in entries;
      if AddressOf(env, e).Ok? {
        var r := AddressOf(env, e).value;
        assert Targets(env, entries, r);
        if r in s.slots && |s.slots[r]| == |e.rewardTokens| {
          PlanSlotsReadsOnlyTarget(s, s', h, e, r, 0);
        }
      }
      forall r | Targets(env, entries[1..], r) ensures SameAt(s, s', r) {
        assert Targets(env, entries, r);
      }
      PlanReadsOnlyTargets(env, s, s', h, entries[1..]);
    }
  }

  lemma {:induction false} SentToOthers(txs: seq<Tx>, r: Address, t: Address)
    requires forall tx :: tx in txs ==> tx.Transfer? ==> tx.to != r
    ensures SentTo(txs, t, r) == 0
  {
    if txs != [] {
      assert txs[0] in txs;
      SentToOthers(txs[1..], r, t);
    }
  }

  /** A plan changes nothing at other rewarders. */
  lemma PlanWritesOnlyTargets(env: Env, s: State, h: Handler, entries: seq<RewarderConfig>, r: Address)
    requires Solvent(s) && Plan(env, s, h, entries).Ok? && Run(s, Plan(env, s, h, entries).value).Some?
    requires !Targets(env, entries, r) && r != s.multisig
    ensures SameAt(s, Run(s, Plan(env, s, h, entries).value).value, r)
  {
    var plan := Plan(env, s, h, entries).value;
    PlanContents(env, s, h, entries);
    RunEffect(s, plan);
    if r in s.slots {
      RunFrame(s, plan, r);
    }
    forall t ensures SentTo(plan, t, r) == 0 {
      SentToOthers(plan, r, t);
    }
  }

  lemma {:induction false} BatchFromSnapshot(env: Env, snapshot: State, s: State, jobs: seq<Job>)
    requires Solvent(s) && Disjoint(env, jobs)
    requires forall a :: 0 <= a < |jobs| ==> !Targets(env, jobs[a].entries, s.multisig)
    requires forall a, r :: 0 <= a < |jobs| && Targets(env, jobs[a].entries, r) ==> SameAt(snapshot, s, r)
    ensures RunBatch(env, snapshot, s, jobs) == RunOneByOne(env, s, jobs)
    decreases |jobs|
  {
    if jobs != [] {
      var h, entries, rest := jobs[0].handler, jobs[0].entries, jobs[1..];
      PlanReadsOnlyTargets(env, snapshot, s, h, entries);
      match Plan(env, s, h, entries) {
        case Err =>
        case Ok(txs) =>
          if PlanAll(env, snapshot, rest).Ok? {
            var plans := PlanAll(env, snapshot, rest).value;
            assert ([txs] + plans)[1..] == plans;
            RunConcat(s, txs, Flatten(plans));
          }
          match Run(s, txs) {
            case None =>
            case Some(s1) =>
              RunSolvent(s, txs);
              PlanContents(env, s, h, entries);
              RunEffect(s, txs);
              forall a, r | 0 <= a < |rest| && Targets(env, rest[a].entries, r) ensures SameAt(snapshot, s1, r) {
                assert Targets(env, jobs[a + 1].entries, r) && SameAt(snapshot, s, r);
                PlanWritesOnlyTargets(env, s, h, entries, r);
              }
              BatchFromSnapshot(env, snapshot, s1, rest);
          }
      }
    }
  }

  /**
   Plans made from one snapshot for disjoint sets of rewarders do not interfere: the joined batch does
   exactly what planning and executing them in turn would do, and fails exactly when that would.
   */
  lemma ConcatAllEqualsOneByOne(env: Env, s: State, jobs: seq<Job>)
    requires Solvent(s) && Disjoint(env, jobs)
    requires forall a :: 0 <= a < |jobs| ==> !Targets(env, jobs[a].entries, s.multisig)
    ensures RunBatch(env, s, s, jobs) == RunOneByOne(env, s, jobs)
  {
    BatchFromSnapshot(env, s, s, jobs);
  }
}
