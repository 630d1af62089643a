/** `mergePools`: pause every pool but the first and move all their assets into the first. */
module PoolMerges {
  import opened Base
  import opened Pools
  import opened PoolMoves

  /** A token of a pool and the asset it is listed under. */
  datatype Holding = Holding(token: Address, asset: Address)

  predicate Readable(s: State, p: Address) {
    p in s.pools && forall t :: t in s.pools[p].keys ==> t in s.pools[p].assets
  }

  /** `getTokens`, each with its `addressOfAsset`. */
  function Holdings(s: State, p: Address): seq<Holding>
    requires Readable(s, p)
  {
    var pool := s.pools[p];
    seq(|pool.keys|, i requires 0 <= i < |pool.keys| => Holding(pool.keys[i], pool.assets[pool.keys[i]]))
  }

  function Moves(base: Address, hs: seq<Holding>): seq<Tx> {
    if hs == [] then [] else
      [SetPool(hs[0].asset, base)] + ([AddAsset(base, hs[0].token, hs[0].asset)] + Moves(base, hs[1..]))
  }

  function MergeOne(s: State, base: Address, p: Address): seq<Tx>
    requires Readable(s, p)
  {
    [Pause(p)] + Moves(base, Holdings(s, p))
  }

  function Merge(s: State, base: Address, others: seq<Address>): seq<Tx>
    requires forall p :: p in others ==> Readable(s, p)
  {
    if others == [] then [] else MergeOne(s, base, others[0]) + Merge(s, base, others[1..])
  }

  function Tokens(hs: seq<Holding>): seq<Address> {
    seq(|hs|, i requires 0 <= i < |hs| => hs[i].token)
  }

  /** The tokens of all the pools to be merged, in order. */
  function AllTokens(s: State, others: seq<Address>): seq<Address>
    requires forall p :: p in others ==> Readable(s, p)
  {
    if others == [] then [] else Tokens(Holdings(s, others[0])) + AllTokens(s, others[1..])
  }

  function PlanMergePools(d: Deployments, s: State, names: seq<string>): Result<seq<Tx>> {
    if |names| <= 1 || exists n :: n in names && !Includes(n, "Proxy") then Err else
      var pools :- Resolve(d, names);
      ResolveLength(d, names);
      if forall p :: p in pools[1..] ==> Readable(s, p) then
        var txns := Merge(s, pools[0], pools[1..]);
        if |txns| >= 5 * |pools[1..]| then Ok(txns) else Err
      else Err
  }

  lemma {:induction false} MovesSnoc(base: Address, hs: seq<Holding>, h: Holding)
    ensures Moves(base, hs + [h]) == Moves(base, hs) + [SetPool(h.asset, base)] + [AddAsset(base, h.token, h.asset)]
  {
    if hs != [] {
      assert (hs + [h])[1..] == hs[1..] + [h];
      MovesSnoc(base, hs[1..], h);
    }
  }

  lemma {:induction false} MergeSnoc(s: State, base: Address, ps: seq<Address>, p: Address)
    requires Readable(s, p) && forall q :: q in ps ==> Readable(s, q)
    ensures Merge(s, base, ps + [p]) == Merge(s, base, ps) + MergeOne(s, base, p)
  {
    hide Readable, Holdings;
    if ps == [] {
      assert ps + [p] == [p];
    } else {
      assert (ps + [p])[0] == ps[0] && (ps + [p])[1..] == ps[1..] + [p];
      MergeSnoc(s, base, ps[1..], p);
    }
  }

  /** Pause one pool and move what it holds. */
  method EmptyPool(s: State, base: Address, pool: Address) returns (txns: seq<Tx>)
    requires Readable(s, pool)
    ensures txns == MergeOne(s, base, pool)
  {
    txns := [Pause(pool)];
    ghost var hs := Holdings(s, pool);
    var tokens := s.pools[pool].keys;
    for i := 0 to |tokens|
      invariant txns == [Pause(pool)] + Moves(base, hs[..i])
    {
      var asset := s.pools[pool].assets[tokens[i]];
      txns := txns + [SetPool(asset, base)];
      txns := txns + [AddAsset(base, tokens[i], asset)];
      MovesSnoc(base, hs[..i], hs[i]);
      assert hs[..i + 1] == hs[..i] + [hs[i]];
    }
    assert hs[..|tokens|] == hs;
  }

  method MergePools(d: Deployments, s: State, names: seq<string>) returns (r: Result<seq<Tx>>)
    ensures r == PlanMergePools(d, s, names)
  {
    if |names| <= 1 || exists n :: n in names && !Includes(n, "Proxy") {
      return Err;
    }
    var resolved := Resolve(d, names);
    if resolved.Err? {
      return Err;
    }
    ResolveLength(d, names);
    var base, others := resolved.value[0], resolved.value[1..];
    if exists p :: p in others && !Readable(s, p) {
      return Err;
    }
    hide Readable, Includes, Resolve, MergeOne;
    var txns: seq<Tx> := [];
    for k := 0 to |others|
      invariant txns == Merge(s, base, others[..k])
    {
      var pool := others[k];
      var more := EmptyPool(s, base, pool);
      txns := txns + more;
      MergeSnoc(s, base, others[..k], pool);
      assert others[..k + 1] == others[..k] + [pool];
    }
    assert others[..|others|] == others;
    if |txns| < 5 * |others| {
      return Err;
    }
    return Ok(txns);
  }

  // ---------------------------------------------------------------------------------------------
  // When there is a plan
  // ---------------------------------------------------------------------------------------------

  lemma {:induction false} MovesLength(base: Address, hs: seq<Holding>)
    ensures |Moves(base, hs)| == 2 * |hs|
  {
    if hs != [] {
      MovesLength(base, hs[1..]);
    }
  }

  /** One transaction for every pool, and two for every token of it. */
  lemma {:induction false} MergeLength(s: State, base: Address, others: seq<Address>)
    requires forall p :: p in others ==> Readable(s, p)
    ensures |Merge(s, base, others)| == |others| + 2 * |AllTokens(s, others)|
  {
    if others != [] {
      MovesLength(base, Holdings(s, others[0]));
      MergeLength(s, base, others[1..]);
    }
  }

  /**
   A merge is proposed exactly when there are two pools or more, all of them proxies that can be resolved and
   read, and the pools to merge hold at least two tokens each on average.
   */
  lemma MergePlanIff(d: Deployments, s: State, names: seq<string>)
    ensures PlanMergePools(d, s, names).Ok? <==>
            && |names| >= 2 && (forall n :: n in names ==> NamesProxy(n) && n in d)
            && (forall n :: n in names[1..] ==> Readable(s, d[n]))
            && var others := Addresses(d, names[1..]);
               |AllTokens(s, others)| >= 2 * |others|
  {
    ResolveOkIff(d, names);
    forall n | n in names ensures Includes(n, "Proxy") <==> NamesProxy(n) {
      IncludesIff(n, "Proxy");
    }
    hide NamesProxy, Readable, Includes, Resolve, AllTokens, Merge;
    if Resolve(d, names).Ok? && |names| >= 2 {
      var others := Addresses(d, names[1..]);
      assert Resolve(d, names).value[1..] == others;
      AllReadable(d, s, names[1..]);
      if forall p :: p in others ==> Readable(s, p) {
        MergeLength(s, d[names[0]], others);
      }
    }
  }

  lemma AllReadable(d: Deployments, s: State, names: seq<string>)
    requires forall n :: n in names ==> n in d
    ensures (forall p :: p in Addresses(d, names) ==> Readable(s, p)) <==> forall n :: n in names ==> Readable(s, d[n])
  {
    hide Readable;
    var ps := Addresses(d, names);
    forall n | n in names ensures d[n] in ps {
      var i :| 0 <= i < |names| && names[i] == n;
      assert ps[i] == d[n];
    }
    forall p | p in ps ensures exists n :: n in names && d[n] == p {
      var i :| 0 <= i < |ps| && ps[i] == p;
      assert names[i] in names;
    }
  }

  lemma {:induction false} FewTokens(s: State, others: seq<Address>)
    requires forall p :: p in others ==> Readable(s, p) && |s.pools[p].keys| <= 1
    ensures |AllTokens(s, others)| <= |others|
  {
    hide Readable;
    if others != [] {
      FewTokens(s, others[1..]);
      assert others[0] in others && |Tokens(Holdings(s, others[0]))| <= 1;
    }
  }

  /** Pools that hold one token each, or none, are never merged. */
  lemma OneAssetPoolsAreRefused(d: Deployments, s: State, names: seq<string>)
    requires forall i :: 1 <= i < |names| && names[i] in d && d[names[i]] in s.pools ==>
               |s.pools[d[names[i]]].keys| <= 1
    ensures PlanMergePools(d, s, names).Err?
  {
    MergePlanIff(d, s, names);
    if PlanMergePools(d, s, names).Ok? {
      forall n | n in names[1..] ensures |s.pools[d[n]].keys| <= 1 {
        var i :| 1 <= i < |names| && names[i] == n;
      }
      AllReadable(d, s, names[1..]);
      FewTokens(s, Addresses(d, names[1..]));
    }
  }

  // ---------------------------------------------------------------------------------------------
  // One pool
  // ---------------------------------------------------------------------------------------------

  /** An asset held under its own token, that points to `p` or has been moved to `base` already. */
  predicate Held(s: State, p: Address, base: Address, h: Holding) {
    && h.asset in s.assets && s.assets[h.asset].token == h.token && h.token != ZERO_ADDRESS
    && (s.assets[h.asset].pool == p || s.assets[h.asset].pool == base)
  }

  /** Moving one asset of a paused pool. */
  lemma OneMove(s: State, p: Address, base: Address, h: Holding)
    requires Consistent(s) && base in s.pools && p in s.pools && s.pools[p].paused && Held(s, p, base, h)
    ensures var point, add := SetPool(h.asset, base), AddAsset(base, h.token, h.asset);
            && Exec(s, point).Some? && Harmless(s, point)
            && var s1 := Exec(s, point).value;
               && Consistent(s1) && s1.pools == s.pools && Harmless(s1, add)
               && s1.assets == s.assets[h.asset := s.assets[h.asset].(pool := base)]
               && (Exec(s1, add).Some? <==> !Lists(s, base, h.token))
  {
    var point := SetPool(h.asset, base);
    forall q, t | Lists(s, q, t) && !s.pools[q].paused && s.pools[q].assets[t] == h.asset ensures q == base {}
    ExecKeepsConsistent(s, point);
  }

  lemma AfterOneMove(s: State, p: Address, base: Address, h: Holding, rest: seq<Holding>)
    requires Consistent(s) && base in s.pools && p in s.pools && s.pools[p].paused && Held(s, p, base, h)
    requires forall x :: x in rest ==> Held(s, p, base, x)
    requires !Lists(s, base, h.token)
    ensures var s1 := Exec(s, SetPool(h.asset, base)).value;
            && Exec(s1, AddAsset(base, h.token, h.asset)).Some?
            && var s2 := Exec(s1, AddAsset(base, h.token, h.asset)).value;
               && Consistent(s2) && base in s2.pools && p in s2.pools && s2.pools[p].paused
               && (forall x :: x in rest ==> Held(s2, p, base, x))
               && (forall t :: Lists(s2, base, t) <==> Lists(s, base, t) || t == h.token)
  {
    OneMove(s, p, base, h);
    var s1 := Exec(s, SetPool(h.asset, base)).value;
    ExecKeepsConsistent(s1, AddAsset(base, h.token, h.asset));
  }

  lemma {:induction false} MovesStayConsistent(s: State, p: Address, base: Address, hs: seq<Holding>)
    requires Consistent(s) && base in s.pools && p in s.pools && s.pools[p].paused
    requires forall h :: h in hs ==> Held(s, p, base, h)
    ensures ConsistentThroughout(s, Moves(base, hs))
    decreases |hs|
  {
    hide Consistent, Harmless, Held, Exec;
    if hs != [] {
      var h, rest := hs[0], hs[1..];
      OneMove(s, p, base, h);
      var point, add := SetPool(h.asset, base), AddAsset(base, h.token, h.asset);
      var s1 := Exec(s, point).value;
      if Exec(s1, add).Some? {
        AfterOneMove(s, p, base, h, rest);
        MovesStayConsistent(Exec(s1, add).value, p, base, rest);
      }
      ThroughoutCons(s1, add, Moves(base, rest));
      ThroughoutCons(s, point, [add] + Moves(base, rest));
    }
  }

  lemma {:induction false} MovesRunIff(s: State, p: Address, base: Address, hs: seq<Holding>)
    requires Consistent(s) && base in s.pools && p in s.pools && s.pools[p].paused
    requires forall h :: h in hs ==> Held(s, p, base, h)
    ensures Run(s, Moves(base, hs)).Some? <==>
            Distinct(Tokens(hs)) && forall h :: h in hs ==> !Lists(s, base, h.token)
    decreases |hs|
  {
    hide Consistent, Harmless, Held, Exec;
    if hs != [] {
      var h, rest := hs[0], hs[1..];
      assert hs == [h] + rest && forall x :: x in hs <==> x == h || x in rest;
      DistinctHoldingsCons(h, rest);
      OneMove(s, p, base, h);
      var point, add := SetPool(h.asset, base), AddAsset(base, h.token, h.asset);
      var s1 := Exec(s, point).value;
      if Exec(s1, add).Some? {
        AfterOneMove(s, p, base, h, rest);
        MovesRunIff(Exec(s1, add).value, p, base, rest);
      }
      RunCons(s, point, [add] + Moves(base, rest));
      RunCons(s1, add, Moves(base, rest));
    }
  }

  lemma DistinctHoldingsCons(h: Holding, rest: seq<Holding>)
    ensures Distinct(Tokens([h] + rest)) <==> Distinct(Tokens(rest)) && forall x :: x in rest ==> x.token != h.token
  {
    TokensCons(h, rest);
    DistinctCons(h.token, Tokens(rest));
  }

  /** Everything held has moved to `base`; nothing else has changed. */
  ghost predicate MovedAll(s: State, base: Address, hs: seq<Holding>, s': State) {
    s'.multisig == s.multisig && s'.ledger == s.ledger && AssetsMoved(s, base, hs, s') && ListingMoved(s, base, hs, s')
  }

  ghost predicate AssetsMoved(s: State, base: Address, hs: seq<Holding>, s': State) {
    && s'.assets.Keys == s.assets.Keys
    && (forall h :: h in hs ==> h.asset in s'.assets && s'.assets[h.asset].pool == base)
    && (forall a :: a in s.assets ==>
          || s'.assets[a] == s.assets[a]
          || (s'.assets[a] == s.assets[a].(pool := base) && exists h :: h in hs && h.asset == a))
  }

  ghost predicate ListingMoved(s: State, base: Address, hs: seq<Holding>, s': State) {
    && s'.pools.Keys == s.pools.Keys
    && (forall h :: h in hs ==> Lists(s', base, h.token) && s'.pools[base].assets[h.token] == h.asset)
    && (forall p :: p in s.pools && p != base ==> s'.pools[p] == s.pools[p])
    && (base in s.pools ==> s'.pools[base].paused == s.pools[base].paused
                            && s'.pools[base].pausedTokens == s.pools[base].pausedTokens
                            && s'.pools[base].keys == s.pools[base].keys + Tokens(hs))
    && (forall t :: Lists(s', base, t) <==> Lists(s, base, t) || t in Tokens(hs))
    && (forall t :: Lists(s, base, t) ==> s'.pools[base].assets[t] == s.pools[base].assets[t])
  }

  lemma TokensCons(h: Holding, rest: seq<Holding>)
    ensures Tokens([h] + rest) == [h.token] + Tokens(rest)
    ensures forall t :: t in Tokens(rest) <==> exists x :: x in rest && x.token == t
  {
    forall t | t in Tokens(rest) ensures exists x :: x in rest && x.token == t {
      var i :| 0 <= i < |rest| && Tokens(rest)[i] == t;
      assert rest[i] in rest;
    }
    forall x | x in rest ensures x.token in Tokens(rest) {
      var i :| 0 <= i < |rest| && rest[i] == x;
      assert Tokens(rest)[i] == x.token;
    }
  }

  /** The state after one asset has been moved. */
  function AfterMove(s: State, base: Address, h: Holding): State
    requires base in s.pools && h.asset in s.assets
  {
    var pool := s.pools[base];
    s.(assets := s.assets[h.asset := s.assets[h.asset].(pool := base)],
       pools := s.pools[base := pool.(keys := pool.keys + [h.token], assets := pool.assets[h.token := h.asset])])
  }

  lemma OneMoveEffect(s: State, base: Address, h: Holding, rest: seq<Tx>)
    requires base in s.pools && Run(s, [SetPool(h.asset, base)] + ([AddAsset(base, h.token, h.asset)] + rest)).Some?
    ensures h.asset in s.assets && !Lists(s, base, h.token) && base in AfterMove(s, base, h).pools
    ensures Run(s, [SetPool(h.asset, base)] + ([AddAsset(base, h.token, h.asset)] + rest))
            == Run(AfterMove(s, base, h), rest)
  {
    RunCons(s, SetPool(h.asset, base), [AddAsset(base, h.token, h.asset)] + rest);
    RunCons(Exec(s, SetPool(h.asset, base)).value, AddAsset(base, h.token, h.asset), rest);
  }

  lemma NothingMovedAll(s: State, base: Address)
    ensures MovedAll(s, base, [], s)
  {
  }

  lemma {:induction false} MovesEffect(s: State, base: Address, hs: seq<Holding>)
    requires base in s.pools && Run(s, Moves(base, hs)).Some?
    ensures MovedAll(s, base, hs, Run(s, Moves(base, hs)).value)
    decreases |hs|
  {
    hide Exec, MovedAll, AfterMove, Lists;
    if hs == [] {
      NothingMovedAll(s, base);
    } else {
      var h, rest := hs[0], hs[1..];
      OneMoveEffect(s, base, h, Moves(base, rest));
      var s2 := AfterMove(s, base, h);
      MovesEffect(s2, base, rest);
      MovedAllCons(s, base, h, rest, s2, Run(s2, Moves(base, rest)).value);
      assert hs == [h] + rest;
    }
  }

  lemma MovedAllCons(s: State, base: Address, h: Holding, rest: seq<Holding>, s2: State, s': State)
    requires base in s.pools && h.asset in s.assets && !Lists(s, base, h.token)
    requires s2 == AfterMove(s, base, h)
    requires MovedAll(s2, base, rest, s')
    ensures MovedAll(s, base, [h] + rest, s')
  {
    AssetsMovedCons(s, base, h, rest, s2, s');
    ListingMovedCons(s, base, h, rest, s2, s');
    hide AssetsMoved, ListingMoved;
  }

  lemma ListingMovedCons(s: State, base: Address, h: Holding, rest: seq<Holding>, s2: State, s': State)
    requires base in s.pools && h.asset in s.assets && !Lists(s, base, h.token)
    requires s2 == AfterMove(s, base, h) && ListingMoved(s2, base, rest, s')
    ensures ListingMoved(s, base, [h] + rest, s')
  {
    TokensCons(h, rest);
    assert forall x :: x in [h] + rest <==> x == h || x in rest;
    assert forall t :: Lists(s2, base, t) <==> Lists(s, base, t) || t == h.token;
  }

  lemma AssetsMovedCons(s: State, base: Address, h: Holding, rest: seq<Holding>, s2: State, s': State)
    requires base in s.pools && h.asset in s.assets
    requires s2 == AfterMove(s, base, h) && AssetsMoved(s2, base, rest, s')
    ensures AssetsMoved(s, base, [h] + rest, s')
  {
    var hs := [h] + rest;
    assert forall x :: x in hs <==> x == h || x in rest;
    forall a | a in s.assets
      ensures || s'.assets[a] == s.assets[a]
              || (s'.assets[a] == s.assets[a].(pool := base) && exists x :: x in hs && x.asset == a)
    {
      assert a in s2.assets;
      if a == h.asset {
        assert h in hs;
      } else if exists x :: x in rest && x.asset == a {
        var x :| x in rest && x.asset == a;
        assert x in hs;
      }
    }
  }

  // ---------------------------------------------------------------------------------------------
  // All pools
  // ---------------------------------------------------------------------------------------------

  /** What the snapshot `s0` showed of a pool still to be merged, as far as it holds on in `s`. */
  ghost predicate PoolPending(s0: State, s: State, base: Address, p: Address) {
    && p in s0.pools && p in s.pools && Readable(s0, p) && Distinct(s0.pools[p].keys)
    && (s0.pools[p].paused ==> s.pools[p].paused)
    && (!s0.pools[p].paused ==> forall h :: h in Holdings(s0, p) ==> Held(s, p, base, h))
  }

  lemma HoldingsTokens(s: State, p: Address)
    requires Readable(s, p)
    ensures Tokens(Holdings(s, p)) == s.pools[p].keys
  {
  }

  /** Pausing a pool that is in service leaves it ready to be emptied. */
  lemma AfterPause(s0: State, s: State, base: Address, p: Address)
    requires Consistent(s) && base in s.pools && PoolPending(s0, s, base, p) && !s.pools[p].paused
    ensures var s1 := s.(pools := s.pools[p := s.pools[p].(paused := true)]);
            && Exec(s, Pause(p)) == Some(s1)
            && Consistent(s1) && base in s1.pools
            && (forall h :: h in Holdings(s0, p) ==> Held(s1, p, base, h))
            && (forall t :: Lists(s1, base, t) <==> Lists(s, base, t))
  {
    ExecKeepsConsistent(s, Pause(p));
  }

  lemma MergeOneStaysConsistent(s0: State, s: State, base: Address, p: Address)
    requires Consistent(s) && base in s.pools && PoolPending(s0, s, base, p)
    ensures ConsistentThroughout(s, MergeOne(s0, base, p))
  {
    if !s.pools[p].paused {
      AfterPause(s0, s, base, p);
      MovesStayConsistent(Exec(s, Pause(p)).value, p, base, Holdings(s0, p));
    }
    ThroughoutCons(s, Pause(p), Moves(base, Holdings(s0, p)));
  }

  lemma MergeOneRunsIff(s0: State, s: State, base: Address, p: Address)
    requires Consistent(s) && base in s.pools && PoolPending(s0, s, base, p)
    ensures Run(s, MergeOne(s0, base, p)).Some? <==>
            !s.pools[p].paused && forall t :: t in Tokens(Holdings(s0, p)) ==> !Lists(s, base, t)
  {
    var hs := Holdings(s0, p);
    HoldingsTokens(s0, p);
    RunCons(s, Pause(p), Moves(base, hs));
    if !s.pools[p].paused {
      AfterPause(s0, s, base, p);
      MovesRunIff(Exec(s, Pause(p)).value, p, base, hs);
      TokensCons(Holding(0, 0), hs);
    }
  }

  /** The state after one pool has been merged. */
  ghost predicate MergedOne(s0: State, s: State, base: Address, p: Address, s': State)
    requires Readable(s0, p) && p in s.pools
  {
    MovedAll(s.(pools := s.pools[p := s.pools[p].(paused := true)]), base, Holdings(s0, p), s')
  }

  lemma MergeOneEffect(s0: State, s: State, base: Address, p: Address)
    requires Consistent(s) && base in s.pools && PoolPending(s0, s, base, p)
    requires Run(s, MergeOne(s0, base, p)).Some?
    ensures !s.pools[p].paused
    ensures var s1 := Run(s, MergeOne(s0, base, p)).value;
            MergedOne(s0, s, base, p, s1) && p in s1.pools && s1.pools[p].paused
  {
    RunCons(s, Pause(p), Moves(base, Holdings(s0, p)));
    MovesEffect(Exec(s, Pause(p)).value, base, Holdings(s0, p));
  }

  lemma MergeKeepsPending(s0: State, s: State, base: Address, p: Address, s': State, q: Address)
    requires base in s.pools && p in s.pools && Readable(s0, p) && MergedOne(s0, s, base, p, s')
    requires PoolPending(s0, s, base, q)
    ensures PoolPending(s0, s', base, q)
    ensures s'.pools[q].paused <==> s.pools[q].paused || q == p
  {
    if !s0.pools[q].paused {
      forall h | h in Holdings(s0, q) ensures Held(s', q, base, h) {
        assert Held(s, q, base, h);
      }
    }
  }

  lemma AfterOneMerge(s0: State, s: State, base: Address, p: Address, rest: seq<Address>)
    requires Consistent(s) && base in s.pools && PoolPending(s0, s, base, p)
    requires forall q :: q in rest ==> PoolPending(s0, s, base, q)
    requires Run(s, MergeOne(s0, base, p)).Some?
    ensures var s1 := Run(s, MergeOne(s0, base, p)).value;
            && Consistent(s1) && base in s1.pools && s1.pools.Keys == s.pools.Keys
            && (forall q :: q in rest ==>
                  PoolPending(s0, s1, base, q) && (s1.pools[q].paused <==> s.pools[q].paused || q == p))
            && (forall t :: Lists(s1, base, t) <==> Lists(s, base, t) || t in Tokens(Holdings(s0, p)))
  {
    var s1 := Run(s, MergeOne(s0, base, p)).value;
    MergeOneStaysConsistent(s0, s, base, p);
    ThroughoutEnd(s, MergeOne(s0, base, p));
    MergeOneEffect(s0, s, base, p);
    forall q | q in rest
      ensures PoolPending(s0, s1, base, q) && (s1.pools[q].paused <==> s.pools[q].paused || q == p)
    {
      MergeKeepsPending(s0, s, base, p, s1, q);
    }
  }

  lemma {:induction false} MergeStaysConsistent(s0: State, s: State, base: Address, others: seq<Address>)
    requires Consistent(s) && base in s.pools
    requires forall p :: p in others ==> PoolPending(s0, s, base, p) && Readable(s0, p)
    ensures ConsistentThroughout(s, Merge(s0, base, others))
    decreases |others|
  {
    hide Consistent, PoolPending, Exec, MergeOne;
    if others != [] {
      var p, rest := others[0], others[1..];
      MergeOneStaysConsistent(s0, s, base, p);
      if Run(s, MergeOne(s0, base, p)).Some? {
        AfterOneMerge(s0, s, base, p, rest);
        MergeStaysConsistent(s0, Run(s, MergeOne(s0, base, p)).value, base, rest);
      }
      ThroughoutConcat(s, MergeOne(s0, base, p), Merge(s0, base, rest));
      MergeSplit(s0, base, others);
    }
  }

  lemma MergeSplit(s0: State, base: Address, others: seq<Address>)
    requires others != [] && forall p :: p in others ==> Readable(s0, p)
    ensures Merge(s0, base, others) == MergeOne(s0, base, others[0]) + Merge(s0, base, others[1..])
  {
  }

  lemma DistinctConcat(a: seq<Address>, b: seq<Address>)
    ensures Distinct(a + b) <==> Distinct(a) && Distinct(b) && forall t :: t in a ==> t !in b
  {
    if Distinct(a + b) {
      forall i, j | 0 <= i < j < |a| ensures a[i] != a[j] {
        assert (a + b)[i] != (a + b)[j];
      }
      forall i, j | 0 <= i < j < |b| ensures b[i] != b[j] {
        assert (a + b)[|a| + i] != (a + b)[|a| + j];
      }
      forall t | t in a ensures t !in b {
        var i :| 0 <= i < |a| && a[i] == t;
        assert forall j :: 0 <= j < |b| ==> (a + b)[|a| + j] == b[j] && (a + b)[i] != (a + b)[|a| + j];
      }
    } else if Distinct(a) && Distinct(b) {
      var i, j :| 0 <= i < j < |a + b| && (a + b)[i] == (a + b)[j];
      assert i < |a| <= j;
      assert a[i] in a && b[j - |a|] in b;
    }
  }

  /** When the merge of all the pools goes through from `s`. */
  ghost predicate Mergeable(s0: State, s: State, base: Address, others: seq<Address>)
    requires forall p :: p in others ==> Readable(s0, p)
  {
    && Distinct(others) && Distinct(AllTokens(s0, others))
    && (forall p :: p in others ==> p in s.pools && !s.pools[p].paused)
    && (forall t :: t in AllTokens(s0, others) ==> !Lists(s, base, t))
  }

  lemma {:induction false} MergeRunsIff(s0: State, s: State, base: Address, others: seq<Address>)
    requires Consistent(s) && base in s.pools
    requires forall p :: p in others ==> Readable(s0, p) && p in s.pools
    requires forall p :: p in others ==> PoolPending(s0, s, base, p) && Distinct(Tokens(Holdings(s0, p)))
    ensures Run(s, Merge(s0, base, others)).Some? <==> Mergeable(s0, s, base, others)
    decreases |others|
  {
    hide Consistent, PoolPending, Exec, MergeOne, Lists, Holdings, Tokens;
    if others != [] {
      var p, rest := others[0], others[1..];
      assert p in others && forall q :: q in others <==> q == p || q in rest;
      MergeSplit(s0, base, others);
      MergeOneRunsIff(s0, s, base, p);
      RunConcat(s, MergeOne(s0, base, p), Merge(s0, base, rest));
      DistinctConcat(Tokens(Holdings(s0, p)), AllTokens(s0, rest));
      DistinctConcat([p], rest);
      assert others == [p] + rest;
      if Run(s, MergeOne(s0, base, p)).Some? {
        AfterOneMerge(s0, s, base, p, rest);
        MergeRunsIff(s0, Run(s, MergeOne(s0, base, p)).value, base, rest);
      }
    }
  }

  /** What a whole merge leads to: every pool paused, everything it held listed in `base`, */
  ghost predicate Merged(s0: State, s: State, base: Address, others: seq<Address>, s': State)
    requires forall p :: p in others ==> Readable(s0, p)
  {
    && (forall p :: p in others ==> p in s'.pools && s'.pools[p].paused)
    && (forall p, h :: p in others && h in Holdings(s0, p) ==>
          && h.asset in s'.assets && s'.assets[h.asset].pool == base
          && Lists(s', base, h.token) && s'.pools[base].assets[h.token] == h.asset)
  }

  /** and nothing else touched. */
  ghost predicate MergedFrame(s0: State, s: State, base: Address, others: seq<Address>, s': State)
    requires forall p :: p in others ==> Readable(s0, p)
  {
    && s'.multisig == s.multisig && s'.ledger == s.ledger
    && s'.pools.Keys == s.pools.Keys && s'.assets.Keys == s.assets.Keys
    && (base in s.pools ==> s'.pools[base].keys == s.pools[base].keys + AllTokens(s0, others))
    && (forall t :: Lists(s', base, t) <==> Lists(s, base, t) || t in AllTokens(s0, others))
    && (forall t :: Lists(s, base, t) ==> s'.pools[base].assets[t] == s.pools[base].assets[t])
    && (forall q :: q in s.pools && q !in others && q != base ==> s'.pools[q] == s.pools[q])
    && (forall a :: a in s.assets ==> s'.assets[a] == s.assets[a] || s'.assets[a] == s.assets[a].(pool := base))
  }

  lemma NothingMerged(s0: State, s: State, base: Address)
    ensures Merged(s0, s, base, [], s) && MergedFrame(s0, s, base, [], s)
  {
  }

  lemma MergedFrameCons(s0: State, s: State, base: Address, p: Address, rest: seq<Address>, s1: State, s': State)
    requires base in s.pools && p in s.pools && Readable(s0, p) && forall q :: q in rest ==> Readable(s0, q)
    requires MergedOne(s0, s, base, p, s1) && MergedFrame(s0, s1, base, rest, s')
    ensures MergedFrame(s0, s, base, [p] + rest, s')
  {
    hide Readable, Holdings;
    var others, paused := [p] + rest, s.(pools := s.pools[p := s.pools[p].(paused := true)]);
    assert others[0] == p && others[1..] == rest;
    assert forall q :: q in others <==> q == p || q in rest;
    assert forall t :: Lists(paused, base, t) <==> Lists(s, base, t);
    assert AllTokens(s0, others) == Tokens(Holdings(s0, p)) + AllTokens(s0, rest);
  }

  lemma MergedCons(s0: State, s: State, base: Address, p: Address, rest: seq<Address>, s1: State, s': State)
    requires base in s.pools && p in s.pools && Readable(s0, p) && forall q :: q in rest ==> Readable(s0, q)
    requires MergedOne(s0, s, base, p, s1) && Merged(s0, s1, base, rest, s') && MergedFrame(s0, s1, base, rest, s')
    requires p in s'.pools && s'.pools[p].paused
    ensures Merged(s0, s, base, [p] + rest, s')
  {
    hide Readable, Holdings, AllTokens, Tokens;
    assert forall q :: q in [p] + rest <==> q == p || q in rest;
    forall h | h in Holdings(s0, p)
      ensures h.asset in s'.assets && s'.assets[h.asset].pool == base
      ensures Lists(s', base, h.token) && s'.pools[base].assets[h.token] == h.asset
    {
      assert Lists(s1, base, h.token) && s1.assets[h.asset].pool == base;
    }
  }

  lemma {:induction false} StaysPaused(s: State, txs: seq<Tx>, p: Address)
    requires p in s.pools && s.pools[p].paused && Run(s, txs).Some?
    ensures p in Run(s, txs).value.pools && Run(s, txs).value.pools[p].paused
    decreases |txs|
  {
    if txs != [] {
      StaysPaused(Exec(s, txs[0]).value, txs[1..], p);
    }
  }

  lemma {:induction false} MergeEffect(s0: State, s: State, base: Address, others: seq<Address>)
    requires Consistent(s) && base in s.pools
    requires forall p :: p in others ==> PoolPending(s0, s, base, p) && Readable(s0, p) && p in s.pools
    requires Run(s, Merge(s0, base, others)).Some?
    ensures Merged(s0, s, base, others, Run(s, Merge(s0, base, others)).value)
    ensures MergedFrame(s0, s, base, others, Run(s, Merge(s0, base, others)).value)
    decreases |others|
  {
    hide Consistent, PoolPending, Exec, MergeOne, Merged, MergedFrame, MergedOne;
    if others == [] {
      NothingMerged(s0, s, base);
    } else {
      var p, rest := others[0], others[1..];
      MergeSplit(s0, base, others);
      RunConcat(s, MergeOne(s0, base, p), Merge(s0, base, rest));
      AfterOneMerge(s0, s, base, p, rest);
      MergeOneEffect(s0, s, base, p);
      var s1 := Run(s, MergeOne(s0, base, p)).value;
      MergeEffect(s0, s1, base, rest);
      var s' := Run(s1, Merge(s0, base, rest)).value;
      StaysPaused(s1, Merge(s0, base, rest), p);
      MergedFrameCons(s0, s, base, p, rest, s1, s');
      MergedCons(s0, s, base, p, rest, s1, s');
      assert others == [p] + rest;
    }
  }

  lemma SnapshotPending(s: State, base: Address, p: Address)
    requires Consistent(s) && p in s.pools
    ensures Readable(s, p) && PoolPending(s, s, base, p) && Distinct(Tokens(Holdings(s, p)))
  {
    assert WellFormed(s.pools[p]);
    HoldingsTokens(s, p);
    forall h | h in Holdings(s, p) && !s.pools[p].paused ensures Held(s, p, base, h) {
      assert Lists(s, p, h.token) && s.pools[p].assets[h.token] == h.asset;
    }
  }

  /** A base that is not a pool takes no asset: only pools that hold nothing are merged into it. */
  lemma {:induction false} MergeIntoNothing(s0: State, s: State, base: Address, others: seq<Address>)
    requires Consistent(s) && base !in s.pools
    requires forall p :: p in others ==> PoolPending(s0, s, base, p) && Readable(s0, p)
    ensures ConsistentThroughout(s, Merge(s0, base, others))
    ensures Run(s, Merge(s0, base, others)).Some? ==> |Merge(s0, base, others)| == |others|
    decreases |others|
  {
    hide Consistent, PoolPending, Held, Exec, Holdings, Readable;
    if others != [] {
      var p, rest, hs := others[0], others[1..], Holdings(s0, others[0]);
      var txs := Moves(base, hs) + Merge(s0, base, rest);
      assert Merge(s0, base, others) == [Pause(p)] + txs;
      RunCons(s, Pause(p), txs);
      if Exec(s, Pause(p)).Some? {
        var s1 := Exec(s, Pause(p)).value;
        AfterPauseWithoutBase(s0, s, base, p, others);
        if hs == [] {
          assert txs == Merge(s0, base, rest);
          MergeIntoNothing(s0, s1, base, rest);
        } else {
          var tail := Moves(base, hs[1..]) + Merge(s0, base, rest);
          assert txs == [SetPool(hs[0].asset, base)] + ([AddAsset(base, hs[0].token, hs[0].asset)] + tail);
          assert hs[0] in hs;
          AssetOfPausedPool(s1, p, base, hs[0], tail);
        }
      }
      ThroughoutCons(s, Pause(p), txs);
    }
  }

  lemma AfterPauseWithoutBase(s0: State, s: State, base: Address, p: Address, others: seq<Address>)
    requires Consistent(s) && base !in s.pools && p in others
    requires forall q :: q in others ==> PoolPending(s0, s, base, q)
    requires Exec(s, Pause(p)).Some?
    ensures var s1 := Exec(s, Pause(p)).value;
            && Consistent(s1) && base !in s1.pools && p in s1.pools && s1.pools[p].paused
            && (forall q :: q in others ==> PoolPending(s0, s1, base, q))
            && (forall h :: h in Holdings(s0, p) ==> Held(s1, p, base, h))
  {
    ExecKeepsConsistent(s, Pause(p));
    hide Consistent;
  }

  lemma AssetOfPausedPool(s: State, p: Address, base: Address, h: Holding, rest: seq<Tx>)
    requires Consistent(s) && base !in s.pools && p in s.pools && s.pools[p].paused && Held(s, p, base, h)
    ensures var txs := [SetPool(h.asset, base)] + ([AddAsset(base, h.token, h.asset)] + rest);
            ConsistentThroughout(s, txs) && Run(s, txs).None?
  {
    var point, add := SetPool(h.asset, base), AddAsset(base, h.token, h.asset);
    RunCons(s, point, [add] + rest);
    if Exec(s, point).Some? {
      var s1 := Exec(s, point).value;
      ExecKeepsConsistent(s, point);
      RunCons(s1, add, rest);
    }
    ThroughoutCons(s, point, [add] + rest);
  }

  /**
   `mergePools`: whatever prefix has been executed, no pool in service lists an asset that points elsewhere.
   The batch goes through exactly when the base is a pool, the pools to merge are distinct and in service
   and no token occurs twice among them and the base; and then they are all paused and everything they held is
   listed in, and points to, the base, next to what was there.
   */
  lemma MergePoolsTheorem(d: Deployments, s: State, names: seq<string>)
    requires Consistent(s) && PlanMergePools(d, s, names).Ok?
    ensures var plan := PlanMergePools(d, s, names).value;
            && |names| >= 2 && (forall n :: n in names ==> n in d)
            && var base, others := d[names[0]], Addresses(d, names[1..]);
            && (forall p :: p in others ==> Readable(s, p))
            && (forall k :: 0 <= k <= |plan| && Run(s, plan[..k]).Some? ==> Consistent(Run(s, plan[..k]).value))
            && (Run(s, plan).Some? <==> base in s.pools && Mergeable(s, s, base, others))
            && (Run(s, plan).Some? ==>
                  Merged(s, s, base, others, Run(s, plan).value) && MergedFrame(s, s, base, others, Run(s, plan).value))
  {
    ResolveOkIff(d, names);
    var plan := PlanMergePools(d, s, names).value;
    var base, others := d[names[0]], Addresses(d, names[1..]);
    assert Resolve(d, names).value[1..] == others;
    forall p | p in others
      ensures p in s.pools && PoolPending(s, s, base, p) && Distinct(Tokens(Holdings(s, p)))
    {
      SnapshotPending(s, base, p);
    }
    if base in s.pools {
      MergeStaysConsistent(s, s, base, others);
      MergeRunsIff(s, s, base, others);
      if Run(s, plan).Some? {
        MergeEffect(s, s, base, others);
      }
    } else {
      MergeIntoNothing(s, s, base, others);
    }
    forall k | 0 <= k <= |plan| && Run(s, plan[..k]).Some? ensures Consistent(Run(s, plan[..k]).value) {
      ThroughoutPrefix(s, plan, k);
    }
  }
}
