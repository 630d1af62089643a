/** `removeAssets`: move assets, one by one, from the pools they are in to another one. */
module PoolMoves {
  import opened Base
  import opened Ledger
  import opened Pools

  /** Deployment names known to the planner. */
  type Deployments = map<string, Address>

  /** `String.prototype.includes`. */
  predicate Includes(s: string, sub: string) {
    exists i :: 0 <= i <= |s| && sub <= s[i..]
  }

  /** The four transactions for one asset, with its token and pool as read from the snapshot. */
  function Removal(s: State, a: Address, target: Address): seq<Tx>
    requires a in s.assets
  {
    var token := s.assets[a].token;
    [RemoveAsset(s.assets[a].pool, token), SetPool(a, target), AddAsset(target, token, a), PauseAsset(target, token)]
  }

  function Removals(s: State, assets: seq<Address>, target: Address): seq<Tx>
    requires forall a :: a in assets ==> a in s.assets
  {
    if assets == [] then [] else Removal(s, assets[0], target) + Removals(s, assets[1..], target)
  }

  function Resolve(d: Deployments, names: seq<string>): Result<seq<Address>> {
    if names == [] then Ok([])
    else if names[0] !in d then Err
    else
      var rest :- Resolve(d, names[1..]);
      Ok([d[names[0]]] + rest)
  }

  function PlanRemoveAssets(d: Deployments, s: State, names: seq<string>, pool: string): Result<seq<Tx>> {
    if !Includes(pool, "Proxy") || pool !in d then Err else
      var assets :- Resolve(d, names);
      if forall a :: a in assets ==> a in s.assets then Ok(Removals(s, assets, d[pool])) else Err
  }

  // ---------------------------------------------------------------------------------------------
  // When there is a plan
  // ---------------------------------------------------------------------------------------------

  /** The name says that the deployment is a proxy. */
  ghost predicate NamesProxy(name: string) {
    exists a, b :: name == a + "Proxy" + b
  }

  lemma IncludesIff(s: string, sub: string)
    ensures Includes(s, sub) <==> exists a, b :: s == a + sub + b
  {
    if Includes(s, sub) {
      var i :| 0 <= i <= |s| && sub <= s[i..];
      assert s == s[..i] + sub + s[i + |sub|..];
    }
    if exists a, b :: s == a + sub + b {
      var a, b :| s == a + sub + b;
      assert s[|a|..] == sub + b;
    }
  }

  function Addresses(d: Deployments, names: seq<string>): (ps: seq<Address>)
    requires forall n :: n in names ==> n in d
    ensures |ps| == |names| && forall i :: 0 <= i < |names| ==> ps[i] == d[names[i]]
  {
    if names == [] then [] else [d[names[0]]] + Addresses(d, names[1..])
  }

  lemma {:induction false} ResolveOkIff(d: Deployments, names: seq<string>)
    ensures Resolve(d, names).Ok? <==> forall n :: n in names ==> n in d
    ensures Resolve(d, names).Ok? ==> Resolve(d, names).value == Addresses(d, names)
  {
    if names != [] {
      ResolveOkIff(d, names[1..]);
      assert forall n :: n in names <==> n == names[0] || n in names[1..];
    }
  }

  /** A removal is proposed exactly when the target is a deployed proxy and every name is that of an asset. */
  lemma RemovalPlanIff(d: Deployments, s: State, names: seq<string>, pool: string)
    ensures PlanRemoveAssets(d, s, names, pool).Ok? <==>
            NamesProxy(pool) && pool in d && forall n :: n in names ==> n in d && d[n] in s.assets
  {
    IncludesIff(pool, "Proxy");
    ResolveOkIff(d, names);
    hide Includes, Resolve, Removals;
    if forall n :: n in names ==> n in d {
      var assets := Addresses(d, names);
      forall n | n in names ensures d[n] in assets {
        var i :| 0 <= i < |names| && names[i] == n;
        assert assets[i] == d[n];
      }
      forall a | a in assets ensures exists n :: n in names && d[n] == a {
        var i :| 0 <= i < |assets| && assets[i] == a;
        assert names[i] in names;
      }
    }
  }

  /**
   What holds of an asset still to be moved, wherever the batch is: it points to the pool the snapshot
   showed, or it has been moved already and that pool no longer lists its token.
   */
  ghost predicate Pending(s0: State, s: State, a: Address, target: Address) {
    && a in s0.assets && a in s.assets && s.assets[a].token == s0.assets[a].token
    && (s.assets[a].pool == s0.assets[a].pool
        || (s.assets[a].pool == target && !Lists(s, s0.assets[a].pool, s0.assets[a].token)))
  }

  /** Inside the removal of one asset no unpaused pool ever lists an asset that points elsewhere. */
  lemma RemovalKeepsConsistent(s0: State, s: State, a: Address, target: Address)
    requires Consistent(s) && Pending(s0, s, a, target)
    ensures ConsistentThroughout(s, Removal(s0, a, target))
  {
    var token, from := s0.assets[a].token, s0.assets[a].pool;
    var remove, point := RemoveAsset(from, token), SetPool(a, target);
    var add, pause := AddAsset(target, token, a), PauseAsset(target, token);
    assert Removal(s0, a, target) == [remove] + ([point] + ([add] + ([pause] + [])));
    if Exec(s, remove).Some? && Consistent(Exec(s, remove).value) {
      var s1 := Exec(s, remove).value;
      forall q, t | Lists(s1, q, t) && !s1.pools[q].paused ensures s1.pools[q].assets[t] != a {
        assert Lists(s, q, t);
      }
      if Exec(s1, point).Some? && Consistent(Exec(s1, point).value) {
        var s2 := Exec(s1, point).value;
        if Exec(s2, add).Some? && Consistent(Exec(s2, add).value) {
          var s3 := Exec(s2, add).value;
          ThroughoutCons(s3, pause, []);
        }
        ThroughoutCons(s2, add, [pause] + []);
      }
      ThroughoutCons(s1, point, [add] + ([pause] + []));
    }
    ThroughoutCons(s, remove, [point] + ([add] + ([pause] + [])));
  }

  /** When the removal of one asset goes through. */
  predicate Removable(s0: State, s: State, a: Address, target: Address)
    requires a in s0.assets
  {
    var token, from := s0.assets[a].token, s0.assets[a].pool;
    && target in s.pools
    && Lists(s, from, token)
    && (from == target || !Lists(s, target, token))
    && token !in s.pools[target].pausedTokens
  }

  /** What the removal of one asset changes, and that it changes nothing else. */
  ghost predicate Moved(s0: State, s: State, a: Address, target: Address, s': State)
    requires a in s0.assets && a in s.assets && target in s.pools
  {
    var token, from := s0.assets[a].token, s0.assets[a].pool;
    && s'.multisig == s.multisig && s'.ledger == s.ledger
    && s'.assets == s.assets[a := s.assets[a].(pool := target)]
    && s'.pools.Keys == s.pools.Keys
    && Lists(s', target, token) && s'.pools[target].assets[token] == a
    && token in s'.pools[target].pausedTokens
    && (from != target ==> !Lists(s', from, token))
    && (forall p, t :: t != token || (p != from && p != target) ==>
          && Lists(s', p, t) == Lists(s, p, t)
          && (Lists(s, p, t) ==> s'.pools[p].assets[t] == s.pools[p].assets[t]))
    && (forall p, t :: p in s.pools && !(p == target && t == token) ==>
          (t in s'.pools[p].pausedTokens <==> t in s.pools[p].pausedTokens))
    && (forall p :: p in s.pools ==> s'.pools[p].paused == s.pools[p].paused)
  }

  lemma RemovalRunsIff(s0: State, s: State, a: Address, target: Address)
    requires Consistent(s) && Pending(s0, s, a, target)
    ensures Run(s, Removal(s0, a, target)).Some? <==> Removable(s0, s, a, target)
  {
    var token, from := s0.assets[a].token, s0.assets[a].pool;
    var remove, point := RemoveAsset(from, token), SetPool(a, target);
    var add, pause := AddAsset(target, token, a), PauseAsset(target, token);
    RunFour(s, remove, point, add, pause);
    if Lists(s, from, token) {
      assert WellFormed(s.pools[from]);
      var s1 := Exec(s, remove).value;
      assert Lists(s1, target, token) <==> from != target && Lists(s, target, token);
      if target in s.pools {
        var s2 := Exec(s1, point).value;
        assert s1.pools[target].pausedTokens == s.pools[target].pausedTokens;
      }
    }
  }

  /** `s'` lists the same assets as `s`, except for `token` in pool `p`. */
  ghost predicate SameBut(s: State, s': State, p: Address, token: Address) {
    && s'.multisig == s.multisig && s'.ledger == s.ledger && s'.pools.Keys == s.pools.Keys
    && (forall q, t :: q in s.pools && !(q == p && t == token) ==>
          && Lists(s', q, t) == Lists(s, q, t)
          && (Lists(s, q, t) ==> s'.pools[q].assets[t] == s.pools[q].assets[t])
          && (t in s'.pools[q].pausedTokens <==> t in s.pools[q].pausedTokens))
    && (forall q :: q in s.pools ==> s'.pools[q].paused == s.pools[q].paused)
  }

  lemma ListingTxEffect(s: State, tx: Tx)
    requires Exec(s, tx).Some? && (tx.AddAsset? || tx.RemoveAsset? || tx.PauseAsset?)
    ensures var s' := Exec(s, tx).value;
            && tx.pool in s.pools && s'.assets == s.assets && SameBut(s, s', tx.pool, tx.token)
            && (Lists(s', tx.pool, tx.token) <==> !tx.RemoveAsset?)
            && (tx.AddAsset? ==> s'.pools[tx.pool].assets[tx.token] == tx.asset)
            && (tx.PauseAsset? ==> s'.pools[tx.pool].assets[tx.token] == s.pools[tx.pool].assets[tx.token])
            && (tx.token in s'.pools[tx.pool].pausedTokens <==>
                  tx.PauseAsset? || tx.token in s.pools[tx.pool].pausedTokens)
  {
  }

  lemma MovedInSteps(s0: State, s: State, a: Address, target: Address, s1: State, s2: State, s3: State, s4: State)
    requires a in s0.assets && a in s.assets && target in s.pools && s0.assets[a].pool in s.pools
    requires var token, from := s0.assets[a].token, s0.assets[a].pool;
             && SameBut(s, s1, from, token) && !Lists(s1, from, token)
             && (from != target ==> !Lists(s1, target, token))
             && s2 == s1.(assets := s.assets[a := s.assets[a].(pool := target)])
             && SameBut(s2, s3, target, token) && Lists(s3, target, token) && s3.pools[target].assets[token] == a
             && SameBut(s3, s4, target, token) && Lists(s4, target, token) && s4.pools[target].assets[token] == a
             && (token in s1.pools[from].pausedTokens <==> token in s.pools[from].pausedTokens)
             && token in s4.pools[target].pausedTokens
             && s4.assets == s2.assets
    ensures Moved(s0, s, a, target, s4)
  {
  }

  lemma RemovalEffect(s0: State, s: State, a: Address, target: Address)
    requires Consistent(s) && Pending(s0, s, a, target) && Removable(s0, s, a, target)
    ensures Run(s, Removal(s0, a, target)).Some?
    ensures Moved(s0, s, a, target, Run(s, Removal(s0, a, target)).value)
  {
    hide SameBut, Moved, Consistent, WellListed;
    var token, from := s0.assets[a].token, s0.assets[a].pool;
    var remove, point := RemoveAsset(from, token), SetPool(a, target);
    var add, pause := AddAsset(target, token, a), PauseAsset(target, token);
    RemovalRunsIff(s0, s, a, target);
    RunFour(s, remove, point, add, pause);
    var s1 := Exec(s, remove).value;
    var s2 := Exec(s1, point).value;
    var s3 := Exec(s2, add).value;
    var s4 := Exec(s3, pause).value;
    ListingTxEffect(s, remove);
    ListingTxEffect(s2, add);
    ListingTxEffect(s3, pause);
    MovedInSteps(s0, s, a, target, s1, s2, s3, s4);
  }

  function TokensOf(s: State, assets: seq<Address>): seq<Address>
    requires forall a :: a in assets ==> a in s.assets
  {
    seq(|assets|, i requires 0 <= i < |assets| => assert assets[i] in assets; s.assets[assets[i]].token)
  }

  /** A removal leaves the assets still to be removed as it found them. */
  lemma MoveKeepsPending(s0: State, s: State, a: Address, target: Address, s': State, b: Address)
    requires Consistent(s) && Pending(s0, s, a, target) && Removable(s0, s, a, target) && Moved(s0, s, a, target, s')
    requires Pending(s0, s, b, target)
    ensures Pending(s0, s', b, target)
    ensures Removable(s0, s', b, target) <==> Removable(s0, s, b, target) && s0.assets[a].token != s0.assets[b].token
  {
  }

  lemma AfterOneRemoval(s0: State, s: State, a: Address, rest: seq<Address>, target: Address)
    requires Consistent(s) && Pending(s0, s, a, target)
    requires forall b :: b in rest ==> Pending(s0, s, b, target)
    requires Run(s, Removal(s0, a, target)).Some?
    ensures var s1 := Run(s, Removal(s0, a, target)).value;
            && a in s.assets && target in s.pools && Consistent(s1) && Moved(s0, s, a, target, s1)
            && (forall b :: b in rest ==>
                  && Pending(s0, s1, b, target)
                  && (Removable(s0, s1, b, target) <==>
                      Removable(s0, s, b, target) && s0.assets[a].token != s0.assets[b].token))
  {
    var s1 := Run(s, Removal(s0, a, target)).value;
    RemovalRunsIff(s0, s, a, target);
    RemovalEffect(s0, s, a, target);
    RemovalKeepsConsistent(s0, s, a, target);
    ThroughoutEnd(s, Removal(s0, a, target));
    forall b | b in rest
      ensures Pending(s0, s1, b, target)
      ensures Removable(s0, s1, b, target) <==> Removable(s0, s, b, target) && s0.assets[a].token != s0.assets[b].token
    {
      MoveKeepsPending(s0, s, a, target, s1, b);
    }
  }

  lemma {:induction false} RemovalsStayConsistent(s0: State, s: State, assets: seq<Address>, target: Address)
    requires forall a :: a in assets ==> a in s0.assets
    requires Consistent(s) && forall a :: a in assets ==> Pending(s0, s, a, target)
    ensures ConsistentThroughout(s, Removals(s0, assets, target))
    decreases |assets|
  {
    if assets != [] {
      var a, rest := assets[0], assets[1..];
      var first, tail := Removal(s0, a, target), Removals(s0, rest, target);
      RemovalKeepsConsistent(s0, s, a, target);
      if Run(s, first).Some? {
        AfterOneRemoval(s0, s, a, rest, target);
        RemovalsStayConsistent(s0, Run(s, first).value, rest, target);
      }
      ThroughoutConcat(s, first, tail);
    }
  }

  lemma {:induction false} RemovalsRunIff(s0: State, s: State, assets: seq<Address>, target: Address)
    requires forall a :: a in assets ==> a in s0.assets
    requires Consistent(s) && forall a :: a in assets ==> Pending(s0, s, a, target)
    ensures Run(s, Removals(s0, assets, target)).Some? <==>
            Distinct(TokensOf(s0, assets)) && forall a :: a in assets ==> Removable(s0, s, a, target)
    decreases |assets|
  {
    hide Consistent, Pending, Removable, Moved, Removal, AllMoved;
    if assets != [] {
      var a, rest := assets[0], assets[1..];
      assert a in assets && forall b :: b in assets <==> b == a || b in rest;
      var first, tail := Removal(s0, a, target), Removals(s0, rest, target);
      RemovalRunsIff(s0, s, a, target);
      RunConcat(s, first, tail);
      DistinctTokensCons(s0, a, rest);
      assert assets == [a] + rest;
      if Run(s, first).Some? {
        AfterOneRemoval(s0, s, a, rest, target);
        RemovalsRunIff(s0, Run(s, first).value, rest, target);
      }
    }
  }

  lemma DistinctTokensCons(s: State, a: Address, rest: seq<Address>)
    requires a in s.assets && forall b :: b in rest ==> b in s.assets
    ensures Distinct(TokensOf(s, [a] + rest)) <==>
            Distinct(TokensOf(s, rest)) && forall b :: b in rest ==> s.assets[a].token != s.assets[b].token
  {
    TokensOfCons(s, a, rest);
    DistinctCons(s.assets[a].token, TokensOf(s, rest));
  }

  /** What a whole batch of removals leads to. */
  ghost predicate AllMoved(s0: State, s: State, assets: seq<Address>, target: Address, s': State)
    requires forall a :: a in assets ==> a in s0.assets
  {
    && s'.multisig == s.multisig && s'.ledger == s.ledger
    && s'.pools.Keys == s.pools.Keys && s'.assets.Keys == s.assets.Keys
    && (forall a :: a in assets ==>
          && a in s'.assets && s'.assets[a].pool == target
          && Lists(s', target, s0.assets[a].token) && s'.pools[target].assets[s0.assets[a].token] == a
          && s0.assets[a].token in s'.pools[target].pausedTokens
          && (s0.assets[a].pool != target ==> !Lists(s', s0.assets[a].pool, s0.assets[a].token)))
    && (forall a :: a in s.assets && a !in assets ==> s'.assets[a] == s.assets[a])
    && (forall p, t :: t !in TokensOf(s0, assets) ==>
          && Lists(s', p, t) == Lists(s, p, t)
          && (Lists(s, p, t) ==> s'.pools[p].assets[t] == s.pools[p].assets[t])
          && (p in s.pools ==> (t in s'.pools[p].pausedTokens <==> t in s.pools[p].pausedTokens)))
    && (forall p :: p in s.pools ==> s'.pools[p].paused == s.pools[p].paused)
  }

  lemma {:induction false} RemovalsEffect(s0: State, s: State, assets: seq<Address>, target: Address)
    requires forall a :: a in assets ==> a in s0.assets
    requires Consistent(s) && forall a :: a in assets ==> Pending(s0, s, a, target)
    requires Run(s, Removals(s0, assets, target)).Some?
    ensures AllMoved(s0, s, assets, target, Run(s, Removals(s0, assets, target)).value)
    decreases |assets|
  {
    hide Consistent, Pending, Removable, Moved, AllMoved, Removal, Exec;
    if assets == [] {
      NothingMoved(s0, s, target);
    } else {
      var a, rest := assets[0], assets[1..];
      var first, tail := Removal(s0, a, target), Removals(s0, rest, target);
      RemovalsSplit(s0, s, assets, target);
      var s1 := Run(s, first).value;
      RemovalsEffect(s0, s1, rest, target);
      AllMovedCons(s0, s, a, rest, target, s1, Run(s1, tail).value);
      assert assets == [a] + rest;
    }
  }

  lemma NothingMoved(s0: State, s: State, target: Address)
    ensures AllMoved(s0, s, [], target, s)
  {
  }

  /** A batch that goes through is one removal that does, then the rest on a state the rest was planned for. */
  lemma RemovalsSplit(s0: State, s: State, assets: seq<Address>, target: Address)
    requires assets != [] && forall a :: a in assets ==> a in s0.assets
    requires Consistent(s) && forall a :: a in assets ==> Pending(s0, s, a, target)
    requires Run(s, Removals(s0, assets, target)).Some?
    ensures var a, rest := assets[0], assets[1..];
            && Run(s, Removal(s0, a, target)).Some?
            && var s1 := Run(s, Removal(s0, a, target)).value;
               && a in s.assets && target in s.pools && Consistent(s1) && Moved(s0, s, a, target, s1)
               && (forall b :: b in rest ==> Pending(s0, s1, b, target))
               && (forall b :: b in rest ==> b in s0.assets && s0.assets[a].token != s0.assets[b].token)
               && Run(s1, Removals(s0, rest, target)) == Run(s, Removals(s0, assets, target))
               && Run(s1, Removals(s0, rest, target)).Some?
  {
    hide Consistent, Pending, Removable, Moved, Removal, Exec;
    var a, rest := assets[0], assets[1..];
    RunConcat(s, Removal(s0, a, target), Removals(s0, rest, target));
    RemovalsRunIff(s0, s, assets, target);
    AfterOneRemoval(s0, s, a, rest, target);
    DistinctTokensCons(s0, a, rest);
    assert assets == [a] + rest;
  }

  lemma AllMovedCons(s0: State, s: State, a: Address, rest: seq<Address>, target: Address, s1: State, s': State)
    requires a in s0.assets && a in s.assets && target in s.pools && forall b :: b in rest ==> b in s0.assets
    requires Moved(s0, s, a, target, s1) && AllMoved(s0, s1, rest, target, s')
    requires forall b :: b in rest ==> s0.assets[a].token != s0.assets[b].token
    ensures AllMoved(s0, s, [a] + rest, target, s')
  {
    var token, all, tail := s0.assets[a].token, TokensOf(s0, [a] + rest), TokensOf(s0, rest);
    TokensOfCons(s0, a, rest);
    assert token !in tail;
    assert forall b :: b in [a] + rest <==> b == a || b in rest;
    assert forall t :: t in all <==> t == token || t in tail;
  }

  lemma TokensOfCons(s: State, a: Address, rest: seq<Address>)
    requires a in s.assets && forall b :: b in rest ==> b in s.assets
    ensures TokensOf(s, [a] + rest) == [s.assets[a].token] + TokensOf(s, rest)
    ensures forall t :: t in TokensOf(s, rest) ==> exists b :: b in rest && s.assets[b].token == t
    ensures forall b :: b in rest ==> s.assets[b].token in TokensOf(s, rest)
  {
    forall b | b in rest ensures s.assets[b].token in TokensOf(s, rest) {
      var i :| 0 <= i < |rest| && rest[i] == b;
      assert TokensOf(s, rest)[i] == s.assets[b].token;
    }
    forall t | t in TokensOf(s, rest) ensures exists b :: b in rest && s.assets[b].token == t {
      var i :| 0 <= i < |rest| && TokensOf(s, rest)[i] == t;
      assert rest[i] in rest;
    }
  }

  lemma {:induction false} ResolveLength(d: Deployments, names: seq<string>)
    ensures Resolve(d, names).Ok? ==> |Resolve(d, names).value| == |names|
  {
    if names != [] {
      ResolveLength(d, names[1..]);
    }
  }

  /**
   `removeAssets`: whatever prefix of the batch has been executed, no pool in service lists an asset that
   points elsewhere. The batch goes through exactly when the tokens are distinct and each is listed where
   its asset points, is not yet in the target (unless it comes from there) and is not paused there; and then
   every asset is listed, paused, in the target and nowhere it was before, with nothing else touched.
   */
  lemma RemoveAssetsTheorem(d: Deployments, s: State, names: seq<string>, pool: string)
    requires Consistent(s) && PlanRemoveAssets(d, s, names, pool).Ok?
    ensures var plan := PlanRemoveAssets(d, s, names, pool).value;
            && pool in d && (forall n :: n in names ==> n in d) && |plan| == 4 * |names|
            && var assets := Addresses(d, names);
               && (forall a :: a in assets ==> a in s.assets)
               && (forall k :: 0 <= k <= |plan| && Run(s, plan[..k]).Some? ==> Consistent(Run(s, plan[..k]).value))
               && (Run(s, plan).Some? <==>
                     Distinct(TokensOf(s, assets)) && forall a :: a in assets ==> Removable(s, s, a, d[pool]))
               && (Run(s, plan).Some? ==> AllMoved(s, s, assets, d[pool], Run(s, plan).value))
  {
    ResolveOkIff(d, names);
    var plan := PlanRemoveAssets(d, s, names, pool).value;
    var assets := Addresses(d, names);
    RemovalsStayConsistent(s, s, assets, d[pool]);
    RemovalsRunIff(s, s, assets, d[pool]);
    forall k | 0 <= k <= |plan| && Run(s, plan[..k]).Some? ensures Consistent(Run(s, plan[..k]).value) {
      ThroughoutPrefix(s, plan, k);
    }
    if Run(s, plan).Some? {
      RemovalsEffect(s, s, assets, d[pool]);
    }
    RemovalsLength(s, assets, d[pool]);
  }

  lemma {:induction false} RemovalsLength(s: State, assets: seq<Address>, target: Address)
    requires forall a :: a in assets ==> a in s.assets
    ensures |Removals(s, assets, target)| == 4 * |assets|
  {
    if assets != [] {
      RemovalsLength(s, assets[1..], target);
    }
  }
}
