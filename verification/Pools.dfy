/**
 Pools, assets and the transactions that move assets between pools, with the checks the contracts make
 (`PoolV2.addAsset`, `removeAsset`, `pause`, `pauseAsset`; `Asset.setPool`, `addCash`).
 */
module Pools {
  import opened Base
  import opened Ledger

  const UINT120_MAX: nat := 0xFF_FFFF_FFFF_FFFF_FFFF_FFFF_FFFF_FFFF

  /** `keys` lists the tokens in the order `getTokens` returns them; `assets` is the lookup. */
  datatype Pool = Pool(keys: seq<Address>, assets: map<Address, Address>, paused: bool, pausedTokens: set<Address>)

  datatype Asset = Asset(pool: Address, token: Address, decimals: nat, cash: nat)

  datatype State = State(multisig: Address, pools: map<Address, Pool>, assets: map<Address, Asset>, ledger: Balances)

  datatype Tx =
    | Pause(pool: Address)
    | AddAsset(pool: Address, token: Address, asset: Address)
    | RemoveAsset(pool: Address, token: Address)
    | PauseAsset(pool: Address, token: Address)
    | SetPool(asset: Address, pool: Address)
    | AddCash(asset: Address, amount: int)
    | Transfer(token: Address, to: Address, amount: int)

  predicate Lists(s: State, pool: Address, token: Address) {
    pool in s.pools && token in s.pools[pool].assets
  }

  function IndexOf(keys: seq<Address>, token: Address): (i: nat)
    requires token in keys
    ensures i < |keys| && keys[i] == token
  {
    if keys[0] == token then 0 else 1 + IndexOf(keys[1..], token)
  }

  /** Overwrite the entry by the last one and shorten the list. */
  function SwapAndPop(keys: seq<Address>, i: nat): seq<Address>
    requires i < |keys|
  {
    keys[i := keys[|keys| - 1]][..|keys| - 1]
  }

  /** One transaction sent by the multisig, owner of the assets and owner and dev of the pools; None when it reverts. */
  function Exec(s: State, tx: Tx): Option<State> {
    match tx
    case Pause(p) =>
      if p in s.pools && !s.pools[p].paused then Some(s.(pools := s.pools[p := s.pools[p].(paused := true)])) else None
    case AddAsset(p, t, a) =>
      if p in s.pools && a != ZERO_ADDRESS && t != ZERO_ADDRESS && !Lists(s, p, t) then
        var pool := s.pools[p];
        Some(s.(pools := s.pools[p := pool.(keys := pool.keys + [t], assets := pool.assets[t := a])]))
      else None
    case RemoveAsset(p, t) =>
      if Lists(s, p, t) && t in s.pools[p].keys then
        var pool := s.pools[p];
        var keys := SwapAndPop(pool.keys, IndexOf(pool.keys, t));
        Some(s.(pools := s.pools[p := pool.(keys := keys, assets := pool.assets - {t})]))
      else None
    case PauseAsset(p, t) =>
      if Lists(s, p, t) && t !in s.pools[p].pausedTokens then
        var pool := s.pools[p];
        Some(s.(pools := s.pools[p := pool.(pausedTokens := pool.pausedTokens + {t})]))
      else None
    case SetPool(a, p) =>
      if a in s.assets && p != ZERO_ADDRESS then Some(s.(assets := s.assets[a := s.assets[a].(pool := p)])) else None
    case AddCash(a, amount) =>
      if a in s.assets && s.assets[a].pool == s.multisig && 0 <= amount && s.assets[a].cash + amount <= UINT120_MAX
      then Some(s.(assets := s.assets[a := s.assets[a].(cash := s.assets[a].cash + amount)]))
      else None
    case Transfer(t, to, amount) =>
      match Move(s.ledger, t, s.multisig, to, amount)
      case None => None
      case Some(l) => Some(s.(ledger := l))
  }

  function Run(s: State, txs: seq<Tx>): Option<State>
    decreases |txs|
  {
    if txs == [] then Some(s) else
      match Exec(s, txs[0])
      case None => None
      case Some(s1) => Run(s1, txs[1..])
  }

  lemma {:induction false} RunConcat(s: State, a: seq<Tx>, b: seq<Tx>)
    ensures Run(s, a + b) == (match Run(s, a) case None => None case Some(s1) => Run(s1, b))
    decreases |a|
  {
    if a == [] {
      assert a + b == b;
    } else {
      assert (a + b)[0] == a[0] && (a + b)[1..] == a[1..] + b;
      match Exec(s, a[0]) {
        case None =>
        case Some(s1) => RunConcat(s1, a[1..], b);
      }
    }
  }

  lemma RunCons(s: State, tx: Tx, txs: seq<Tx>)
    ensures Run(s, [tx] + txs) == (match Exec(s, tx) case None => None case Some(s1) => Run(s1, txs))
  {
    hide Exec;
    assert ([tx] + txs)[1..] == txs;
  }

  lemma RunFour(s: State, a: Tx, b: Tx, c: Tx, d: Tx)
    ensures Run(s, [a, b, c, d]) ==
            match Exec(s, a) case None => None case Some(s1) =>
              match Exec(s1, b) case None => None case Some(s2) =>
                match Exec(s2, c) case None => None case Some(s3) => Exec(s3, d)
  {
    hide Exec, Run;
    assert [a, b, c, d] == [a] + ([b] + ([c] + ([d] + [])));
    RunCons(s, a, [b] + ([c] + ([d] + [])));
    if Exec(s, a).Some? {
      var s1 := Exec(s, a).value;
      RunCons(s1, b, [c] + ([d] + []));
      if Exec(s1, b).Some? {
        var s2 := Exec(s1, b).value;
        RunCons(s2, c, [d] + []);
        if Exec(s2, c).Some? {
          RunCons(Exec(s2, c).value, d, []);
          RunNone(if Exec(Exec(s2, c).value, d).Some? then Exec(Exec(s2, c).value, d).value else s);
        }
      }
    }
  }

  lemma RunNone(s: State)
    ensures Run(s, []) == Some(s)
  {
  }

  /** The listing of a pool: no token twice, list and lookup in step, no zero addresses. */
  ghost predicate WellFormed(p: Pool) {
    && Distinct(p.keys)
    && (forall t :: t in p.keys <==> t in p.assets)
    && (forall t :: t in p.assets ==> t != ZERO_ADDRESS && p.assets[t] != ZERO_ADDRESS)
  }

  /** Pools list existing assets under the token they hold. */
  ghost predicate WellListed(s: State) {
    && ZERO_ADDRESS !in s.pools && ZERO_ADDRESS !in s.assets
    && (forall p :: p in s.pools ==> WellFormed(s.pools[p]))
    && (forall p, t :: Lists(s, p, t) ==>
          s.pools[p].assets[t] in s.assets && s.assets[s.pools[p].assets[t]].token == t)
  }

  /** Every asset listed by a pool in service points back to that pool. */
  ghost predicate Consistent(s: State) {
    && WellListed(s)
    && (forall p, t :: Lists(s, p, t) && !s.pools[p].paused ==> s.assets[s.pools[p].assets[t]].pool == p)
  }

  /** Removing by swap-and-pop puts the last token where that one was, and keeps the list free of duplicates. */
  lemma SwapAndPopRemoves(keys: seq<Address>, i: nat)
    requires i < |keys| && Distinct(keys)
    ensures Distinct(SwapAndPop(keys, i)) && |SwapAndPop(keys, i)| == |keys| - 1
    ensures forall j :: 0 <= j < |keys| - 1 ==> SwapAndPop(keys, i)[j] == keys[if j == i then |keys| - 1 else j]
    ensures forall t :: t in SwapAndPop(keys, i) <==> t in keys && t != keys[i]
  {
    var r, last := SwapAndPop(keys, i), |keys| - 1;
    forall t | t in keys && t != keys[i] ensures t in r {
      var j :| 0 <= j < |keys| && keys[j] == t;
      assert r[if j == last then i else j] == t;
    }
  }

  /** Replacing one pool by one whose listing is in order. */
  lemma ReplacePool(s: State, p: Address, pool: Pool)
    requires Consistent(s) && p in s.pools && WellFormed(pool)
    requires forall t :: t in pool.assets ==>
               && pool.assets[t] in s.assets && s.assets[pool.assets[t]].token == t
               && (!pool.paused ==> s.assets[pool.assets[t]].pool == p)
    ensures Consistent(s.(pools := s.pools[p := pool]))
  {
    var s' := s.(pools := s.pools[p := pool]);
    forall q | q in s'.pools ensures WellFormed(s'.pools[q]) {
      assert q != p ==> WellFormed(s.pools[q]);
    }
    forall q, t | Lists(s', q, t)
      ensures s'.pools[q].assets[t] in s'.assets && s'.assets[s'.pools[q].assets[t]].token == t
      ensures !s'.pools[q].paused ==> s'.assets[s'.pools[q].assets[t]].pool == q
    {
      assert q != p ==> Lists(s, q, t);
    }
  }

  /** What a transaction needs so as not to leave an asset listed by a pool it does not point to. */
  ghost predicate Harmless(s: State, tx: Tx) {
    match tx
    case AddAsset(p, t, a) => a in s.assets && s.assets[a].token == t && s.assets[a].pool == p
    case SetPool(a, p) => forall q, t :: Lists(s, q, t) && !s.pools[q].paused && s.pools[q].assets[t] == a ==> q == p
    case _ => true
  }

  lemma RelabelKeepsConsistent(s: State, a: Address, asset: Asset)
    requires Consistent(s) && a in s.assets && asset.token == s.assets[a].token
    requires forall q, t :: Lists(s, q, t) && !s.pools[q].paused && s.pools[q].assets[t] == a ==> q == asset.pool
    ensures Consistent(s.(assets := s.assets[a := asset]))
  {
    var s' := s.(assets := s.assets[a := asset]);
    forall q, t | Lists(s', q, t)
      ensures s'.pools[q].assets[t] in s'.assets && s'.assets[s'.pools[q].assets[t]].token == t
      ensures !s'.pools[q].paused ==> s'.assets[s'.pools[q].assets[t]].pool == q
    {
      assert Lists(s, q, t);
    }
  }

  lemma AddKeepsConsistent(s: State, p: Address, t: Address, a: Address)
    requires Consistent(s) && Exec(s, AddAsset(p, t, a)).Some? && Harmless(s, AddAsset(p, t, a))
    ensures Consistent(Exec(s, AddAsset(p, t, a)).value)
  {
    var pool := s.pools[p];
    var pool' := pool.(keys := pool.keys + [t], assets := pool.assets[t := a]);
    assert WellFormed(pool);
    assert WellFormed(pool') by {
      assert forall u :: u in pool'.keys <==> u in pool.keys || u == t;
    }
    assert forall u :: u in pool.assets ==> Lists(s, p, u);
    ReplacePool(s, p, pool');
  }

  lemma RemoveKeepsConsistent(s: State, p: Address, t: Address)
    requires Consistent(s) && Exec(s, RemoveAsset(p, t)).Some?
    ensures Consistent(Exec(s, RemoveAsset(p, t)).value)
  {
    var pool := s.pools[p];
    assert WellFormed(pool);
    SwapAndPopRemoves(pool.keys, IndexOf(pool.keys, t));
    assert forall u :: u in pool.assets ==> Lists(s, p, u);
    ReplacePool(s, p, pool.(keys := SwapAndPop(pool.keys, IndexOf(pool.keys, t)), assets := pool.assets - {t}));
  }

  lemma PauseKeepsConsistent(s: State, p: Address, paused: bool, pausedTokens: set<Address>)
    requires Consistent(s) && p in s.pools && (s.pools[p].paused ==> paused)
    ensures Consistent(s.(pools := s.pools[p := s.pools[p].(paused := paused, pausedTokens := pausedTokens)]))
  {
    assert WellFormed(s.pools[p]) && forall u :: u in s.pools[p].assets ==> Lists(s, p, u);
    ReplacePool(s, p, s.pools[p].(paused := paused, pausedTokens := pausedTokens));
  }

  lemma ExecKeepsConsistent(s: State, tx: Tx)
    requires Consistent(s) && Exec(s, tx).Some? && Harmless(s, tx)
    ensures Consistent(Exec(s, tx).value)
  {
    match tx
    case Pause(p) => PauseKeepsConsistent(s, p, true, s.pools[p].pausedTokens);
    case AddAsset(p, t, a) => AddKeepsConsistent(s, p, t, a);
    case RemoveAsset(p, t) => RemoveKeepsConsistent(s, p, t);
    case PauseAsset(p, t) => PauseKeepsConsistent(s, p, s.pools[p].paused, s.pools[p].pausedTokens + {t});
    case SetPool(a, p) => RelabelKeepsConsistent(s, a, s.assets[a].(pool := p));
    case AddCash(a, amount) => RelabelKeepsConsistent(s, a, s.assets[a].(cash := s.assets[a].cash + amount));
    case Transfer(_, _, _) =>
      var s' := Exec(s, tx).value;
      assert forall p, t :: Lists(s', p, t) == Lists(s, p, t);
  }

  /** Consistent now and after every transaction of the batch that goes through. */
  ghost predicate ConsistentThroughout(s: State, txs: seq<Tx>)
    decreases |txs|
  {
    && Consistent(s)
    && (txs == [] || match Exec(s, txs[0]) case None => true case Some(s1) => ConsistentThroughout(s1, txs[1..]))
  }

  lemma ThroughoutCons(s: State, tx: Tx, txs: seq<Tx>)
    requires Consistent(s) && Harmless(s, tx)
    requires Exec(s, tx).Some? && Consistent(Exec(s, tx).value) ==> ConsistentThroughout(Exec(s, tx).value, txs)
    ensures ConsistentThroughout(s, [tx] + txs)
  {
    assert ([tx] + txs)[1..] == txs;
    if Exec(s, tx).Some? {
      ExecKeepsConsistent(s, tx);
    }
  }

  lemma {:induction false} ThroughoutConcat(s: State, a: seq<Tx>, b: seq<Tx>)
    requires ConsistentThroughout(s, a)
    requires Run(s, a).Some? ==> ConsistentThroughout(Run(s, a).value, b)
    ensures ConsistentThroughout(s, a + b)
    decreases |a|
  {
    if a == [] {
      assert a + b == b;
    } else {
      assert (a + b)[0] == a[0] && (a + b)[1..] == a[1..] + b;
      match Exec(s, a[0]) {
        case None =>
        case Some(s1) => ThroughoutConcat(s1, a[1..], b);
      }
    }
  }

  /** The same in terms of prefixes. */
  lemma {:induction false} ThroughoutPrefix(s: State, txs: seq<Tx>, k: nat)
    requires ConsistentThroughout(s, txs) && k <= |txs| && Run(s, txs[..k]).Some?
    ensures Consistent(Run(s, txs[..k]).value)
    decreases k
  {
    if k > 0 {
      assert txs[..k][0] == txs[0] && txs[..k][1..] == txs[1..][..k - 1];
      ThroughoutPrefix(Exec(s, txs[0]).value, txs[1..], k - 1);
    }
  }

  lemma ThroughoutEnd(s: State, txs: seq<Tx>)
    requires ConsistentThroughout(s, txs) && Run(s, txs).Some?
    ensures Consistent(Run(s, txs).value)
  {
    assert txs[..|txs|] == txs;
    ThroughoutPrefix(s, txs, |txs|);
  }
}
