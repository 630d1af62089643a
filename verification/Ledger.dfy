/** ERC20 balances of every token: token, then holder, then amount. A missing entry is zero. */
module Ledger {
  import opened Base

  type Row = map<Address, int>
  type Balances = map<Address, Row>

  function RowOf(l: Balances, token: Address): Row {
    if token in l then l[token] else map[]
  }

  function BalanceOf(l: Balances, token: Address, holder: Address): int {
    var row := RowOf(l, token);
    if holder in row then row[holder] else 0
  }

  /** Move `holder`'s balance of `token` by `delta`. */
  function Credit(l: Balances, token: Address, holder: Address, delta: int): (l': Balances)
    ensures forall t, h :: BalanceOf(l', t, h) ==
                           BalanceOf(l, t, h) + (if t == token && h == holder then delta else 0)
  {
    l[token := RowOf(l, token)[holder := BalanceOf(l, token, holder) + delta]]
  }

  /** `ERC20.transfer(to, amount)` sent by `from`; None when it reverts. */
  function Move(l: Balances, token: Address, from: Address, to: Address, amount: int): Option<Balances> {
    if amount < 0 || BalanceOf(l, token, from) < amount then None
    else Some(Credit(Credit(l, token, from, -amount), token, to, amount))
  }

  ghost function RowSum(row: Row): int {
    if row == map[] then 0 else
      var k :| k in row;
      row[k] + RowSum(row - {k})
  }

  /** All the balances of one token added up. */
  ghost function Supply(l: Balances, token: Address): int {
    RowSum(RowOf(l, token))
  }

  lemma {:induction false} RowSumRemove(row: Row, k: Address)
    requires k in row
    ensures RowSum(row) == row[k] + RowSum(row - {k})
    decreases |row|
  {
    var p :| p in row && RowSum(row) == row[p] + RowSum(row - {p});
    if p != k {
      RowSumRemove(row - {p}, k);
      RowSumRemove(row - {k}, p);
      assert row - {p} - {k} == row - {k} - {p};
    }
  }

  lemma CreditSupply(l: Balances, token: Address, holder: Address, delta: int, t: Address)
    ensures Supply(Credit(l, token, holder, delta), t) == Supply(l, t) + (if t == token then delta else 0)
  {
    if t == token {
      var row := RowOf(l, token);
      var row' := row[holder := BalanceOf(l, token, holder) + delta];
      RowSumRemove(row', holder);
      assert row' - {holder} == row - {holder};
      if holder in row {
        RowSumRemove(row, holder);
      } else {
        assert row - {holder} == row;
      }
    }
  }

  /** A transfer moves the amount from one balance to the other and mints nothing. */
  lemma MoveConserves(l: Balances, token: Address, from: Address, to: Address, amount: int, t: Address)
    requires Move(l, token, from, to, amount).Some?
    ensures Supply(Move(l, token, from, to, amount).value, t) == Supply(l, t)
  {
    CreditSupply(l, token, from, -amount, t);
    CreditSupply(Credit(l, token, from, -amount), token, to, amount, t);
  }
}
