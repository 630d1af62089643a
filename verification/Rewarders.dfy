/**
 The on-chain state that emission proposals act on, the transactions they are made of, and what a
 batch of them does: reward slots of the rewarders and bribes, and the ERC20 ledger.
 */
module Rewarders {
  import opened Base
  import opened Ledger

  /** `10000e18`, the cap enforced by `setRewardRate`. */
  const MAX_RATE: nat := 10000_000000000000000000
  const UINT96_MAX: nat := 0xFFFF_FFFF_FFFF_FFFF_FFFF_FFFF

  datatype Slot = Slot(token: Address, rate: nat)

  datatype State = State(multisig: Address, slots: map<Address, seq<Slot>>, ledger: Balances)

  datatype Tx =
    /** `start` is present for the three-argument function of the V2 contract. */
    | SetRewardRate(rewarder: Address, index: nat, rate: int, start: Option<nat>)
    | AddRewardToken(rewarder: Address, token: Address, rate: int)
    | Transfer(token: Address, to: Address, amount: int)

  predicate IsSlot(s: State, rewarder: Address, index: nat) {
    rewarder in s.slots && index < |s.slots[rewarder]|
  }

  function RateOf(s: State, rewarder: Address, index: nat): nat
    requires IsSlot(s, rewarder, index)
  {
    s.slots[rewarder][index].rate
  }

  function Balance(s: State, token: Address, holder: Address): int {
    BalanceOf(s.ledger, token, holder)
  }

  /** One transaction sent by the multisig, which owns the rewarders; None when it reverts. */
  function Exec(s: State, tx: Tx): Option<State> {
    match tx
    case SetRewardRate(r, i, rate, _) =>
      if IsSlot(s, r, i) && 0 <= rate <= MAX_RATE then
        Some(s.(slots := s.slots[r := s.slots[r][i := s.slots[r][i].(rate := rate)]]))
      else None
    case AddRewardToken(r, t, rate) =>
      if r in s.slots && 0 <= rate <= UINT96_MAX then
        Some(s.(slots := s.slots[r := s.slots[r] + [Slot(t, rate)]]))
      else None
    case Transfer(t, to, amount) =>
      match Move(s.ledger, t, s.multisig, to, amount)
      case None => None
      case Some(l) => Some(s.(ledger := l))
  }

  /** A whole batch, atomically. */
  function Run(s: State, txs: seq<Tx>): Option<State>
    decreases |txs|
  {
    if txs == [] then Some(s) else
      match Exec(s, txs[0])
      case None => None
      case Some(s1) => Run(s1, txs[1..])
  }

  lemma {:induction false} RunConcat(s: State, a: seq<Tx>, b: seq<Tx>)
    ensures Run(s, a + b) == (match Run(s, a) case None => None case Some(s1) => Run(s1, b))
    decreases |a|
  {
    if a == [] {
      assert a + b == b;
    } else {
      assert (a + b)[0] == a[0] && (a + b)[1..] == a[1..] + b;
      match Exec(s, a[0]) {
        case None =>
        case Some(s1) => RunConcat(s1, a[1..], b);
      }
    }
  }

  lemma RunOne(s: State, tx: Tx)
    ensures Run(s, [tx]) == Exec(s, tx)
  {
    assert [tx][1..] == [];
  }

  lemma RunTwo(s: State, a: Tx, b: Tx)
    ensures Run(s, [a, b]) == (match Exec(s, a) case None => None case Some(s1) => Exec(s1, b))
  {
    assert [a, b][1..] == [b];
    match Exec(s, a) {
      case None =>
      case Some(s1) => RunOne(s1, b);
    }
  }

  /** Planners that never list a new token produce batches of rate writes and transfers only. */
  predicate NoNewToken(txs: seq<Tx>) {
    forall tx :: tx in txs ==> !tx.AddRewardToken?
  }

  /** The rate the batch leaves in a slot that starts with rate `rate`. */
  function RateAfter(txs: seq<Tx>, rewarder: Address, index: nat, rate: int): int {
    if txs == [] then rate else
      var tx := txs[0];
      RateAfter(txs[1..], rewarder, index,
                if tx.SetRewardRate? && tx.rewarder == rewarder && tx.index == index then tx.rate else rate)
  }

  /** How many times the batch writes the rate of a slot. */
  function WriteCount(txs: seq<Tx>, rewarder: Address, index: nat): nat {
    if txs == [] then 0 else
      var tx := txs[0];
      (if tx.SetRewardRate? && tx.rewarder == rewarder && tx.index == index then 1 else 0)
      + WriteCount(txs[1..], rewarder, index)
  }

  /** What the batch sends to one holder. */
  function SentTo(txs: seq<Tx>, token: Address, to: Address): int {
    if txs == [] then 0 else
      var tx := txs[0];
      (if tx.Transfer? && tx.token == token && tx.to == to then tx.amount else 0) + SentTo(txs[1..], token, to)
  }

  /** What the batch sends to anybody. */
  function Sent(txs: seq<Tx>, token: Address): int {
    if txs == [] then 0 else
      var tx := txs[0];
      (if tx.Transfer? && tx.token == token then tx.amount else 0) + Sent(txs[1..], token)
  }

  lemma {:induction false} ConcatMeasures(a: seq<Tx>, b: seq<Tx>)
    ensures forall r, i, d :: RateAfter(a + b, r, i, d) == RateAfter(b, r, i, RateAfter(a, r, i, d))
    ensures forall r, i :: WriteCount(a + b, r, i) == WriteCount(a, r, i) + WriteCount(b, r, i)
    ensures forall t, h :: SentTo(a + b, t, h) == SentTo(a, t, h) + SentTo(b, t, h)
    ensures forall t :: Sent(a + b, t) == Sent(a, t) + Sent(b, t)
  {
    if a == [] {
      assert a + b == b;
    } else {
      assert (a + b)[0] == a[0] && (a + b)[1..] == a[1..] + b;
      ConcatMeasures(a[1..], b);
    }
  }

  /**
   The effect of a whole batch in closed form: slots keep their tokens and take their last written
   rate; balances move by what was sent; no supply changes.
   */
  ghost predicate Effect(s: State, txs: seq<Tx>, s': State) {
    && s'.multisig == s.multisig
    && s'.slots.Keys == s.slots.Keys
    && (forall r :: r in s.slots ==> |s'.slots[r]| == |s.slots[r]|)
    && (forall r, i: nat :: IsSlot(s, r, i) ==>
          && IsSlot(s', r, i)
          && s'.slots[r][i].token == s.slots[r][i].token
          && RateOf(s', r, i) == RateAfter(txs, r, i, RateOf(s, r, i)))
    && (forall t, h :: Balance(s', t, h) ==
                       Balance(s, t, h) + SentTo(txs, t, h) - (if h == s.multisig then Sent(txs, t) else 0))
    && (forall t :: Supply(s'.ledger, t) == Supply(s.ledger, t))
  }

  /** The effect of one transaction. */
  lemma ExecEffect(s: State, tx: Tx)
    requires !tx.AddRewardToken? && Exec(s, tx).Some?
    ensures Effect(s, [tx], Exec(s, tx).value)
  {
    var s' := Exec(s, tx).value;
    assert [tx][1..] == [];
    if tx.Transfer? {
      forall t ensures Supply(s'.ledger, t) == Supply(s.ledger, t) {
        MoveConserves(s.ledger, tx.token, s.multisig, tx.to, tx.amount, t);
      }
    }
  }

  lemma {:induction false} RunEffect(s: State, txs: seq<Tx>)
    requires NoNewToken(txs) && Run(s, txs).Some?
    ensures Effect(s, txs, Run(s, txs).value)
    decreases |txs|
  {
    if txs != [] {
      hide Exec, Supply, Balance;
      assert txs[0] in txs;
      ExecEffect(s, txs[0]);
      RunEffect(Exec(s, txs[0]).value, txs[1..]);
      ConcatMeasures([txs[0]], txs[1..]);
      assert [txs[0]] + txs[1..] == txs;
    }
  }

  /** Slots the batch never writes and never extends are left exactly as they were. */
  lemma {:induction false} RunFrame(s: State, txs: seq<Tx>, rewarder: Address)
    requires Run(s, txs).Some? && rewarder in s.slots
    requires forall tx :: tx in txs ==> tx.Transfer? || tx.rewarder != rewarder
    ensures rewarder in Run(s, txs).value.slots && Run(s, txs).value.slots[rewarder] == s.slots[rewarder]
    decreases |txs|
  {
    if txs != [] {
      var s1 := Exec(s, txs[0]).value;
      assert txs[0] in txs;
      RunFrame(s1, txs[1..], rewarder);
    }
  }

  /** Acceptable on its own: a known slot and a rate in range, or an amount that is not negative. */
  predicate Acceptable(s: State, tx: Tx) {
    match tx
    case SetRewardRate(r, i, rate, _) => IsSlot(s, r, i) && 0 <= rate <= MAX_RATE
    case AddRewardToken(_, _, _) => false
    case Transfer(_, _, amount) => amount >= 0
  }

  /** Rate writes, and transfers that leave the multisig. */
  predicate Outgoing(s: State, txs: seq<Tx>) {
    forall tx :: tx in txs ==> !tx.AddRewardToken? && (tx.Transfer? ==> tx.to != s.multisig)
  }

  lemma {:induction false} SentNonNegative(s: State, txs: seq<Tx>, token: Address)
    requires forall tx :: tx in txs ==> Acceptable(s, tx)
    ensures Sent(txs, token) >= 0
  {
    if txs != [] {
      assert txs[0] in txs;
      SentNonNegative(s, txs[1..], token);
    }
  }

  /** A batch goes through exactly when every transaction is acceptable and the multisig can pay the total. */
  lemma {:induction false} RunSucceedsIff(s: State, txs: seq<Tx>)
    requires Outgoing(s, txs)
    requires forall t :: Balance(s, t, s.multisig) >= 0
    ensures Run(s, txs).Some? <==>
            && (forall tx :: tx in txs ==> Acceptable(s, tx))
            && (forall t :: Sent(txs, t) <= Balance(s, t, s.multisig))
    decreases |txs|
  {
    if txs != [] {
      assert txs[0] in txs;
      assert forall tx :: tx in txs <==> tx == txs[0] || tx in txs[1..];
      match Exec(s, txs[0]) {
        case None =>
          if forall tx :: tx in txs ==> Acceptable(s, tx) {
            SentNonNegative(s, txs[1..], txs[0].token);
            assert Sent(txs, txs[0].token) > Balance(s, txs[0].token, s.multisig);
          }
        case Some(s1) =>
          assert forall tx: Tx :: Acceptable(s, tx) == Acceptable(s1, tx);
          forall t ensures Balance(s1, t, s1.multisig) >= 0 {
            assert Balance(s, t, s.multisig) >= 0;
          }
          RunSucceedsIff(s1, txs[1..]);
          assert forall t :: Balance(s1, t, s.multisig) - Sent(txs[1..], t)
                          == Balance(s, t, s.multisig) - Sent(txs, t);
      }
    }
  }

  /** Reward token balances on chain are never negative. */
  ghost predicate Solvent(s: State) {
    forall t, h :: Balance(s, t, h) >= 0
  }

  lemma {:induction false} RunSolvent(s: State, txs: seq<Tx>)
    requires Solvent(s) && Run(s, txs).Some?
    ensures Solvent(Run(s, txs).value)
    decreases |txs|
  {
    if txs != [] {
      var s1 := Exec(s, txs[0]).value;
      forall t, h ensures Balance(s1, t, h) >= 0 {
        assert Balance(s, t, h) >= 0;
      }
      RunSolvent(s1, txs[1..]);
    }
  }

  /**
   The chain as `simulate` drives it: transactions are sent one by one, and the first one that
   reverts throws, leaving the earlier ones in place.
   */
  class Chain {
    const multisig: Address
    var slots: map<Address, seq<Slot>>
    var ledger: Balances

    function Snapshot(): State
      reads this
    {
      State(multisig, slots, ledger)
    }

    constructor (s: State)
      ensures Snapshot() == s
    {
      multisig, slots, ledger := s.multisig, s.slots, s.ledger;
    }

    method Send(tx: Tx) returns (ok: bool)
      modifies this
      ensures ok == Exec(old(Snapshot()), tx).Some?
      ensures Snapshot() == if ok then Exec(old(Snapshot()), tx).value else old(Snapshot())
    {
      match Exec(Snapshot(), tx) {
        case None =>
          ok := false;
        case Some(s) =>
          slots, ledger := s.slots, s.ledger;
          ok := true;
      }
    }

    method Simulate(txs: seq<Tx>) returns (sent: nat)
      modifies this
      ensures sent <= |txs|
      ensures Run(old(Snapshot()), txs[..sent]) == Some(Snapshot())
      ensures sent < |txs| ==> Exec(Snapshot(), txs[sent]).None?
      ensures sent == |txs| <==> Run(old(Snapshot()), txs).Some?
    {
      sent := 0;
      while sent < |txs|
        invariant sent <= |txs|
        invariant Run(old(Snapshot()), txs[..sent]) == Some(Snapshot())
      {
        ghost var before := Snapshot();
        RunConcat(old(Snapshot()), txs[..sent], txs[sent..]);
        assert txs[..sent] + txs[sent..] == txs;
        var ok := Send(txs[sent]);
        if !ok {
          return;
        }
        RunConcat(old(Snapshot()), txs[..sent], [txs[sent]]);
        assert txs[..sent + 1] == txs[..sent] + [txs[sent]];
        assert Run(before, [txs[sent]]) == Some(Snapshot());
        sent := sent + 1;
      }
      assert txs[..sent] == txs;
    }
  }
}
