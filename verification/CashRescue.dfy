/** `addCash`: the multisig makes itself the pool of an asset for long enough to pay in and book some cash. */
module CashRescue {
  import opened Base
  import opened Ledger
  import opened Pools
  import Emission

  function Rescue(s: State, a: Address, token: Address, amount: int): seq<Tx>
    requires a in s.assets
  {
    [SetPool(a, s.multisig), Transfer(token, a, amount), AddCash(a, amount), SetPool(a, s.assets[a].pool)]
  }

  /** `toWad` */
  function Wad(x: int, decimals: nat): int {
    if decimals < 18 then x * Pow10(18 - decimals)
    else if decimals > 18 then x / Pow10(decimals - 18)
    else x
  }

  function Pow10(n: nat): (r: nat)
    ensures r >= 1 && (n > 0 ==> r >= 10)
  {
    if n == 0 then 1 else 10 * Pow10(n - 1)
  }

  /** What an asset holds beyond the cash it books: `underlyingTokenBalance().toWad(decimals) - cash`. */
  function Surplus(s: State, a: Address): int
    requires a in s.assets
  {
    Wad(BalanceOf(s.ledger, s.assets[a].token, a), s.assets[a].decimals) - s.assets[a].cash
  }

  lemma RescueRun(s: State, a: Address, token: Address, amount: int)
    requires a in s.assets
    ensures var pool, cash := s.assets[a].pool, s.assets[a].cash;
            Run(s, Rescue(s, a, token, amount)) ==
              if && s.multisig != ZERO_ADDRESS && pool != ZERO_ADDRESS
                 && 0 <= amount <= BalanceOf(s.ledger, token, s.multisig) && cash + amount <= UINT120_MAX
              then Some(s.(ledger := Move(s.ledger, token, s.multisig, a, amount).value,
                           assets := s.assets[a := s.assets[a].(cash := cash + amount)]))
              else None
  {
    hide Run, Move, BalanceOf;
    RunFour(s, SetPool(a, s.multisig), Transfer(token, a, amount), AddCash(a, amount), SetPool(a, s.assets[a].pool));
    MoveRevertsIff(s.ledger, token, s.multisig, a, amount);
    if amount >= 0 {
      var restored := s.assets[a].(cash := s.assets[a].cash + amount);
      assert s.assets[a := s.assets[a].(pool := s.multisig)][a := restored.(pool := s.multisig)][a := restored]
          == s.assets[a := restored];
    }
  }

  lemma MoveRevertsIff(l: Balances, token: Address, from: Address, to: Address, amount: int)
    ensures Move(l, token, from, to, amount).Some? <==> 0 <= amount <= BalanceOf(l, token, from)
  {
  }

  /**
   Authorisation along the batch: once its first transaction has run the multisig is the asset's pool, and may
   book cash; without that transaction the rest goes through only where the multisig was the pool already.
   */
  lemma CashNeedsThePool(s: State, a: Address, token: Address, amount: int)
    requires a in s.assets
    ensures var plan := Rescue(s, a, token, amount);
            && (forall k :: 1 <= k <= 2 && Run(s, plan[..k]).Some? ==>
                  var s1 := Run(s, plan[..k]).value;
                  a in s1.assets && s1.assets[a].pool == s1.multisig == s.multisig)
            && (Run(s, plan[1..]).Some? <==> Run(s, plan).Some? && s.assets[a].pool == s.multisig)
  {
    var plan, pool := Rescue(s, a, token, amount), s.assets[a].pool;
    var take, pay, book, give := plan[0], plan[1], plan[2], plan[3];
    RescueRun(s, a, token, amount);
    MoveRevertsIff(s.ledger, token, s.multisig, a, amount);
    hide Move, BalanceOf;
    assert plan[..1] == [take] + [] && plan[..2] == [take] + ([pay] + []);
    assert plan[1..] == [pay] + ([book] + ([give] + []));
    RunCons(s, take, []);
    RunCons(s, take, [pay] + []);
    RunCons(s, pay, [book] + ([give] + []));
    if Exec(s, pay).Some? {
      var paid := Exec(s, pay).value;
      RunCons(paid, book, [give] + []);
      if Exec(paid, book).Some? {
        RunCons(Exec(paid, book).value, give, []);
      }
    }
    if Exec(s, take).Some? {
      RunCons(Exec(s, take).value, pay, []);
    }
  }

  /**
   `addCash`: the batch goes through exactly when the multisig holds the amount and the books have room for
   it. Then the pool of the asset is what it was, no other asset is touched, and no token is minted.
   */
  lemma AddCashTheorem(s: State, a: Address, token: Address, amount: int)
    requires a in s.assets
    ensures var plan := Rescue(s, a, token, amount);
            && (Run(s, plan).Some? <==>
                  && s.multisig != ZERO_ADDRESS && s.assets[a].pool != ZERO_ADDRESS
                  && 0 <= amount <= BalanceOf(s.ledger, token, s.multisig)
                  && s.assets[a].cash + amount <= 0xFF_FFFF_FFFF_FFFF_FFFF_FFFF_FFFF_FFFF)
            && (Run(s, plan).Some? ==>
                  var s' := Run(s, plan).value;
                  && s'.multisig == s.multisig && s'.pools == s.pools && s'.assets.Keys == s.assets.Keys
                  && s'.assets[a] == s.assets[a].(cash := s.assets[a].cash + amount)
                  && (forall b :: b in s.assets && b != a ==> s'.assets[b] == s.assets[b])
                  && (forall t, h :: t != token || (h != a && h != s.multisig) ==>
                        BalanceOf(s'.ledger, t, h) == BalanceOf(s.ledger, t, h))
                  && (forall t :: Supply(s'.ledger, t) == Supply(s.ledger, t)))
  {
    RescueRun(s, a, token, amount);
    var plan := Rescue(s, a, token, amount);
    if Run(s, plan).Some? {
      var s' := Run(s, plan).value;
      forall t ensures Supply(s'.ledger, t) == Supply(s.ledger, t) {
        MoveConserves(s.ledger, token, s.multisig, a, amount, t);
      }
    }
  }

  /** What books and balance agree on is kept: the amount is paid in the asset's own token, at cash's own scale. */
  predicate KeepsSurplus(s: State, a: Address, token: Address, amount: int)
    requires a in s.assets
  {
    var decimals, balance := s.assets[a].decimals, BalanceOf(s.ledger, token, a);
    && a != s.multisig && token == s.assets[a].token
    && (decimals == 18 || (decimals > 18 && amount == 1 && (balance + 1) % Pow10(decimals - 18) == 0))
  }

  /**
   The surplus of the asset is what it was exactly when nothing was paid in or the token is the asset's own and
   has 18 decimals: the amount is sent in the token's units and booked unscaled. With more decimals a single
   unit may happen to carry.
   */
  lemma SurplusKeptIff(s: State, a: Address, token: Address, amount: int)
    requires a in s.assets && Run(s, Rescue(s, a, token, amount)).Some?
    ensures a in Run(s, Rescue(s, a, token, amount)).value.assets
    ensures Surplus(Run(s, Rescue(s, a, token, amount)).value, a) == Surplus(s, a) <==>
            amount == 0 || KeepsSurplus(s, a, token, amount)
  {
    RescueRun(s, a, token, amount);
    MoveRevertsIff(s.ledger, token, s.multisig, a, amount);
    var s' := Run(s, Rescue(s, a, token, amount)).value;
    var own, decimals := s.assets[a].token, s.assets[a].decimals;
    var before := BalanceOf(s.ledger, own, a);
    hide Run, Rescue, Pow10;
    if token != own || a == s.multisig {
      assert BalanceOf(s'.ledger, own, a) == before;
    } else {
      assert BalanceOf(s'.ledger, own, a) == before + amount;
      WadCarries(before, amount, decimals);
    }
  }

  lemma WadCarries(x: int, amount: nat, decimals: nat)
    ensures Wad(x + amount, decimals) == Wad(x, decimals) + amount <==>
            || amount == 0 || decimals == 18
            || (decimals > 18 && amount == 1 && (x + 1) % Pow10(decimals - 18) == 0)
  {
    if decimals < 18 {
      var scale := Pow10(18 - decimals);
      assert (x + amount) * scale == x * scale + amount * scale;
      if amount > 0 {
        Emission.MulMono(10, scale, amount);
      }
    } else if decimals > 18 {
      QuotientCarries(x, amount, Pow10(decimals - 18));
    }
  }

  lemma QuotientCarries(x: int, amount: nat, y: nat)
    requires y >= 2
    ensures (x + amount) / y == x / y + amount <==> amount == 0 || (amount == 1 && (x + 1) % y == 0)
  {
    var q, r := x / y, x % y;
    assert x == q * y + r;
    if amount == 1 {
      if r + 1 == y {
        assert x + 1 == (q + 1) * y;
        QuotientOf(x + 1, q + 1, 0, y);
      } else {
        QuotientOf(x + 1, q, r + 1, y);
      }
    } else if amount >= 2 {
      Emission.MulMono(2, amount, y - 1);
      assert amount * (y - 1) == amount * y - amount;
      assert (q + amount) * y == q * y + amount * y;
      QuotientBelow(x + amount, q + amount, y);
    }
  }

  lemma QuotientBelow(x: int, q: int, y: nat)
    requires y > 0 && x < q * y
    ensures x / y < q
  {
    if x / y >= q {
      Emission.MulMono(q, x / y, y);
    }
  }

  lemma QuotientOf(x: int, q: int, r: nat, y: nat)
    requires r < y && x == q * y + r
    ensures x / y == q && x % y == r
  {
    var q', r' := x / y, x % y;
    assert (q' - q) * y == r - r';
    if q' > q {
      Emission.MulMono(1, q' - q, y);
    } else if q' < q {
      Emission.MulMono(1, q - q', y);
    }
  }
}
