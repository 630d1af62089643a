/**
 `deployBoostedRewarderThroughFactory`: wire up the factory, whitelist the reward token, become the
 deployer of every asset, deploy, and take WOM off the whitelist again.
 */
module Factory {
  import opened Base

  const UINT96_MAX: nat := 0xFFFF_FFFF_FFFF_FFFF_FFFF_FFFF

  /**
   `factory` is the BribeRewarderFactory; `mwFactory` and `voterFactory` are what the master and the voter
   (None: not deployed) have registered. `listed` are the assets the master knows, `gauges` those the
   factory's voter has a gauge for (None: it has no voter), `boosted` the rewarders of those that have one.
   */
  datatype Rewarder = Rewarder(start: int, token: Address, rate: int)

  datatype State = State(
    multisig: Address, factory: Address, now: nat,
    mwFactory: Address, voterFactory: Option<Address>,
    whitelist: set<Address>, deployers: map<Address, Address>,
    listed: set<Address>, gauges: Option<set<Address>>, boosted: map<Address, Rewarder>)

  datatype Tx =
    | SetMasterFactory(factory: Address)
    | SetVoterFactory(factory: Address)
    | WhitelistToken(token: Address)
    | RevokeToken(token: Address)
    | SetRewarderDeployer(asset: Address, deployer: Address)
    | Deploy(asset: Address, start: int, token: Address, rate: int)

  function DeployerOf(s: State, a: Address): Address {
    if a in s.deployers then s.deployers[a] else ZERO_ADDRESS
  }

  /** What `deployRewarderContractAndSetRewarder` requires of the multisig's call. */
  predicate Authorised(s: State, tx: Tx)
    requires tx.Deploy?
  {
    DeployerOf(s, tx.asset) == s.multisig && tx.token in s.whitelist
  }

  /** What it requires besides. */
  predicate Deployable(s: State, a: Address, start: int, rate: int) {
    && a in s.listed && a !in s.boosted
    && (s.gauges.Some? ==> a in s.gauges.value)
    && s.mwFactory == s.factory && start >= s.now && 0 <= rate <= UINT96_MAX
  }

  /** One transaction sent by the multisig, owner of the factory, the master and the voter; None when it reverts. */
  function Exec(s: State, tx: Tx): Option<State> {
    match tx
    case SetMasterFactory(f) => Some(s.(mwFactory := f))
    case SetVoterFactory(f) => if s.voterFactory.Some? then Some(s.(voterFactory := Some(f))) else None
    case WhitelistToken(t) => if t in s.whitelist then None else Some(s.(whitelist := s.whitelist + {t}))
    case RevokeToken(t) => if t in s.whitelist then Some(s.(whitelist := s.whitelist - {t})) else None
    case SetRewarderDeployer(a, d) =>
      if DeployerOf(s, a) == d then None else Some(s.(deployers := s.deployers[a := d]))
    case Deploy(a, start, t, rate) =>
      if Authorised(s, tx) && Deployable(s, a, start, rate)
      then Some(s.(boosted := s.boosted[a := Rewarder(start, t, rate)]))
      else None
  }

  function Run(s: State, txs: seq<Tx>): Option<State>
    decreases |txs|
  {
    if txs == [] then Some(s) else
      match Exec(s, txs[0])
      case None => None
      case Some(s1) => Run(s1, txs[1..])
  }

  lemma {:induction false} RunConcat(s: State, a: seq<Tx>, b: seq<Tx>)
    ensures Run(s, a + b) == (match Run(s, a) case None => None case Some(s1) => Run(s1, b))
    decreases |a|
  {
    hide Exec;
    if a == [] {
      assert a + b == b;
    } else {
      assert (a + b)[0] == a[0] && (a + b)[1..] == a[1..] + b;
      match Exec(s, a[0]) {
        case None =>
        case Some(s1) => RunConcat(s1, a[1..], b);
      }
    }
  }

  // ---------------------------------------------------------------------------------------------
  // The plan
  // ---------------------------------------------------------------------------------------------

  function SetBribeRewarderFactory(s: State): seq<Tx> {
    (if s.mwFactory == ZERO_ADDRESS then [SetMasterFactory(s.factory)] else [])
    + (if s.voterFactory == Some(ZERO_ADDRESS) then [SetVoterFactory(s.factory)] else [])
  }

  /** `whitelistRewardTokenForBribeRewarderFactory` */
  method WhitelistRewardTokens(s: State, tokens: seq<Address>) returns (txns: seq<Tx>)
    ensures txns == Whitelisting(s, tokens)
  {
    txns := [];
    for i := 0 to |tokens|
      invariant txns == Whitelisting(s, tokens[..i])
    {
      assert tokens[..i + 1] == tokens[..i] + [tokens[i]];
      WhitelistingSnoc(s, tokens[..i], tokens[i]);
      if tokens[i] !in s.whitelist {
        txns := txns + [WhitelistToken(tokens[i])];
      }
    }
    assert tokens[..|tokens|] == tokens;
  }

  function Whitelisting(s: State, tokens: seq<Address>): seq<Tx> {
    if tokens == [] then [] else
      (if tokens[0] in s.whitelist then [] else [WhitelistToken(tokens[0])]) + Whitelisting(s, tokens[1..])
  }

  lemma {:induction false} WhitelistingSnoc(s: State, ts: seq<Address>, t: Address)
    ensures Whitelisting(s, ts + [t]) == Whitelisting(s, ts) + (if t in s.whitelist then [] else [WhitelistToken(t)])
  {
    if ts != [] {
      assert (ts + [t])[1..] == ts[1..] + [t];
      WhitelistingSnoc(s, ts[1..], t);
    }
  }

  /**
   Whitelisting goes through exactly when no token that was missing is named twice, and then adds them all.
   */
  lemma {:induction false} WhitelistingRun(s: State, s0: State, tokens: seq<Address>)
    requires s0.whitelist <= s.whitelist && s == s0.(whitelist := s.whitelist)
    ensures Run(s, Whitelisting(s0, tokens)).Some? <==>
            && (forall i, j :: 0 <= i < j < |tokens| && tokens[i] == tokens[j] ==> tokens[i] in s0.whitelist)
            && (forall i :: 0 <= i < |tokens| && tokens[i] in s.whitelist ==> tokens[i] in s0.whitelist)
    ensures Run(s, Whitelisting(s0, tokens)).Some? ==>
              Run(s, Whitelisting(s0, tokens)).value == s.(whitelist := s.whitelist + set t | t in tokens)
    decreases |tokens|
  {
    if tokens == [] {
      assert s.whitelist + (set t | t in tokens) == s.whitelist;
    } else {
      var t, rest := tokens[0], tokens[1..];
      assert tokens == [t] + rest;
      var s1 := s.(whitelist := s.whitelist + {t});
      assert s1.whitelist + (set x | x in rest) == s.whitelist + set x | x in tokens;
      if t in s0.whitelist {
        assert s1.whitelist == s.whitelist;
        WhitelistingRun(s, s0, rest);
        assert Whitelisting(s0, tokens) == Whitelisting(s0, rest);
      } else {
        assert Whitelisting(s0, tokens)[1..] == Whitelisting(s0, rest);
        if t !in s.whitelist {
          WhitelistingRun(s1, s0, rest);
        }
      }
    }
  }

  /** `revokeRewardTokenForBribeRewarderFactory` */
  function Revoking(tokens: seq<Address>): seq<Tx> {
    seq(|tokens|, i requires 0 <= i < |tokens| => RevokeToken(tokens[i]))
  }

  /** Revoking goes through exactly when the tokens are distinct and all on the whitelist, and takes them off it. */
  lemma {:induction false} RevokingRun(s: State, tokens: seq<Address>)
    ensures Run(s, Revoking(tokens)).Some? <==> Distinct(tokens) && forall t :: t in tokens ==> t in s.whitelist
    ensures Run(s, Revoking(tokens)).Some? ==>
              Run(s, Revoking(tokens)).value == s.(whitelist := s.whitelist - set t | t in tokens)
    decreases |tokens|
  {
    if tokens == [] {
      assert s.whitelist - (set t | t in tokens) == s.whitelist;
    } else {
      var t, rest := tokens[0], tokens[1..];
      assert tokens == [t] + rest && Revoking(tokens)[1..] == Revoking(rest);
      DistinctCons(t, rest);
      var s1 := s.(whitelist := s.whitelist - {t});
      assert s1.whitelist - (set x | x in rest) == s.whitelist - set x | x in tokens;
      if t in s.whitelist {
        RevokingRun(s1, rest);
      }
    }
  }

  function SetDeployers(assets: seq<Address>, deployer: Address): seq<Tx> {
    seq(|assets|, i requires 0 <= i < |assets| => SetRewarderDeployer(assets[i], deployer))
  }

  function Deploys(assets: seq<Address>, start: int, token: Address, rate: int): seq<Tx> {
    seq(|assets|, i requires 0 <= i < |assets| => Deploy(assets[i], start, token, rate))
  }

  function PlanDeployment(s: State, assets: seq<Address>, token: Address, isWom: bool, start: int, rate: int): seq<Tx> {
    SetBribeRewarderFactory(s) + Whitelisting(s, [token]) + SetDeployers(assets, s.multisig)
    + Deploys(assets, start, token, rate) + (if isWom then Revoking([token]) else [])
  }

  // ---------------------------------------------------------------------------------------------
  // Order
  // ---------------------------------------------------------------------------------------------

  /** Every deployment the batch gets to is authorised when it is reached. */
  ghost predicate AuthorisedThroughout(s: State, txs: seq<Tx>)
    decreases |txs|
  {
    txs == [] ||
    ((txs[0].Deploy? ==> Authorised(s, txs[0]))
     && match Exec(s, txs[0]) case None => true case Some(s1) => AuthorisedThroughout(s1, txs[1..]))
  }

  lemma {:induction false} AuthorisedConcat(s: State, a: seq<Tx>, b: seq<Tx>)
    requires AuthorisedThroughout(s, a)
    requires Run(s, a).Some? ==> AuthorisedThroughout(Run(s, a).value, b)
    ensures AuthorisedThroughout(s, a + b)
    decreases |a|
  {
    hide Exec, Authorised;
    if a == [] {
      assert a + b == b;
    } else {
      assert (a + b)[0] == a[0] && (a + b)[1..] == a[1..] + b;
      match Exec(s, a[0]) {
        case None =>
        case Some(s1) => AuthorisedConcat(s1, a[1..], b);
      }
    }
  }

  lemma {:induction false} AuthorisedAt(s: State, txs: seq<Tx>, k: nat)
    requires AuthorisedThroughout(s, txs) && k < |txs| && txs[k].Deploy? && Run(s, txs[..k]).Some?
    ensures Authorised(Run(s, txs[..k]).value, txs[k])
    decreases k
  {
    hide Exec, Authorised;
    if k > 0 {
      assert txs[..k][0] == txs[0] && txs[..k][1..] == txs[1..][..k - 1];
      AuthorisedAt(Exec(s, txs[0]).value, txs[1..], k - 1);
    }
  }

  lemma {:induction false} NoDeployIsAuthorised(s: State, txs: seq<Tx>)
    requires forall tx :: tx in txs ==> !tx.Deploy?
    ensures AuthorisedThroughout(s, txs)
    decreases |txs|
  {
    if txs != [] {
      assert txs[0] in txs;
      match Exec(s, txs[0]) {
        case None =>
        case Some(s1) => NoDeployIsAuthorised(s1, txs[1..]);
      }
    }
  }

  // ---------------------------------------------------------------------------------------------
  // The parts of the batch
  // ---------------------------------------------------------------------------------------------

  /** `s'` is `s` but for the deployers of the assets, all of which are the multisig. */
  ghost predicate DeployersSet(s: State, assets: seq<Address>, s': State) {
    && s' == s.(deployers := s'.deployers)
    && (forall a :: a in assets ==> DeployerOf(s', a) == s.multisig)
    && (forall a :: a !in assets ==> DeployerOf(s', a) == DeployerOf(s, a))
  }

  lemma {:induction false} SetDeployersRun(s: State, assets: seq<Address>)
    ensures var txs := SetDeployers(assets, s.multisig);
            && (Run(s, txs).Some? <==> Distinct(assets) && forall a :: a in assets ==> DeployerOf(s, a) != s.multisig)
            && (Run(s, txs).Some? ==> DeployersSet(s, assets, Run(s, txs).value))
    decreases |assets|
  {
    if assets != [] {
      var a, rest := assets[0], assets[1..];
      assert assets == [a] + rest && forall x :: x in assets <==> x == a || x in rest;
      assert SetDeployers(assets, s.multisig)[1..] == SetDeployers(rest, s.multisig);
      DistinctCons(a, rest);
      if DeployerOf(s, a) != s.multisig {
        var s1 := s.(deployers := s.deployers[a := s.multisig]);
        assert forall x :: DeployerOf(s1, x) == if x == a then s.multisig else DeployerOf(s, x);
        SetDeployersRun(s1, rest);
      }
    }
  }

  function WithRewarders(s: State, assets: seq<Address>, rewarder: Rewarder): map<Address, Rewarder> {
    s.boosted + map a | a in assets :: rewarder
  }

  lemma {:induction false} DeploysRun(s: State, assets: seq<Address>, start: int, token: Address, rate: int)
    requires Distinct(assets) && token in s.whitelist && forall a :: a in assets ==> DeployerOf(s, a) == s.multisig
    ensures var txs := Deploys(assets, start, token, rate);
            && AuthorisedThroughout(s, txs)
            && (Run(s, txs).Some? <==> forall a :: a in assets ==> Deployable(s, a, start, rate))
            && (Run(s, txs).Some? ==>
                  Run(s, txs).value == s.(boosted := WithRewarders(s, assets, Rewarder(start, token, rate))))
    decreases |assets|
  {
    hide WithRewarders, Exec;
    if assets != [] {
      var a, rest := assets[0], assets[1..];
      assert assets == [a] + rest && forall x :: x in assets <==> x == a || x in rest;
      DeployRuns(s, a, start, token, rate);
      assert Deploys(assets, start, token, rate)[1..] == Deploys(rest, start, token, rate);
      DistinctCons(a, rest);
      if Deployable(s, a, start, rate) {
        var rewarder := Rewarder(start, token, rate);
        var s1 := s.(boosted := s.boosted[a := rewarder]);
        DeploysRun(s1, rest, start, token, rate);
        assert forall x :: x in rest ==> (Deployable(s1, x, start, rate) <==> Deployable(s, x, start, rate));
        WithRewardersCons(s, a, rest, rewarder);
      }
    } else {
      WithRewardersNone(s, Rewarder(start, token, rate));
    }
  }

  lemma DeployRuns(s: State, a: Address, start: int, token: Address, rate: int)
    requires token in s.whitelist && DeployerOf(s, a) == s.multisig
    ensures Exec(s, Deploy(a, start, token, rate)) ==
            if Deployable(s, a, start, rate)
            then Some(s.(boosted := s.boosted[a := Rewarder(start, token, rate)])) else None
  {
  }

  lemma WithRewardersCons(s: State, a: Address, rest: seq<Address>, rewarder: Rewarder)
    ensures WithRewarders(s.(boosted := s.boosted[a := rewarder]), rest, rewarder)
            == WithRewarders(s, [a] + rest, rewarder)
  {
    assert forall x :: x in [a] + rest <==> x == a || x in rest;
  }

  lemma WithRewardersNone(s: State, rewarder: Rewarder)
    ensures WithRewarders(s, [], rewarder) == s.boosted
  {
  }

  /** After the factory is wired up and the token whitelisted. */
  function Prepared(s: State, token: Address): State {
    s.(mwFactory := if s.mwFactory == ZERO_ADDRESS then s.factory else s.mwFactory,
       voterFactory := if s.voterFactory == Some(ZERO_ADDRESS) then Some(s.factory) else s.voterFactory,
       whitelist := s.whitelist + {token})
  }

  lemma PreparationRun(s: State, token: Address)
    ensures Run(s, SetBribeRewarderFactory(s) + Whitelisting(s, [token])) == Some(Prepared(s, token))
    ensures forall tx :: tx in SetBribeRewarderFactory(s) + Whitelisting(s, [token]) ==> !tx.Deploy?
  {
    var master := if s.mwFactory == ZERO_ADDRESS then [SetMasterFactory(s.factory)] else [];
    var voter := if s.voterFactory == Some(ZERO_ADDRESS) then [SetVoterFactory(s.factory)] else [];
    var white := if token in s.whitelist then [] else [WhitelistToken(token)];
    assert Whitelisting(s, [token]) == white + Whitelisting(s, [token][1..]) && Whitelisting(s, [token][1..]) == [];
    assert SetBribeRewarderFactory(s) + Whitelisting(s, [token]) == master + voter + white;
    RunConcat(s, master + voter, white);
    RunConcat(s, master, voter);
    assert master != [] ==> master[1..] == [];
    assert voter != [] ==> voter[1..] == [];
    assert white != [] ==> white[1..] == [];
    assert token in s.whitelist ==> s.whitelist + {token} == s.whitelist;
  }

  /** After the deployers are set, everything else a deployment needs is as it was. */
  lemma DeploymentRuns(s: State, assets: seq<Address>, token: Address, isWom: bool, start: int, rate: int)
    ensures var s1 := Prepared(s, token);
            var deployers, deploys := SetDeployers(assets, s.multisig), Deploys(assets, start, token, rate);
            var tail := deployers + (deploys + if isWom then [RevokeToken(token)] else []);
            && AuthorisedThroughout(s1, tail)
            && (Run(s1, tail).Some? <==>
                  && Distinct(assets) && (forall a :: a in assets ==> DeployerOf(s, a) != s.multisig)
                  && (forall a :: a in assets ==> Deployable(s1, a, start, rate)))
            && (Run(s1, tail).Some? ==>
                  Deployed(s, assets, Rewarder(start, token, rate), isWom, Run(s1, tail).value))
  {
    hide Exec, Authorised, AuthorisedThroughout;
    var deployers, deploys := SetDeployers(assets, s.multisig), Deploys(assets, start, token, rate);
    var revoke := if isWom then [RevokeToken(token)] else [];
    var s1 := Prepared(s, token);
    SetDeployersRun(s1, assets);
    NoDeployIsAuthorised(s1, deployers);
    RunConcat(s1, deployers, deploys + revoke);
    if Run(s1, deployers).Some? {
      var s2 := Run(s1, deployers).value;
      DeploysRun(s2, assets, start, token, rate);
      assert forall a :: Deployable(s2, a, start, rate) == Deployable(s1, a, start, rate);
      RunConcat(s2, deploys, revoke);
      if Run(s2, deploys).Some? {
        RevokeRun(Run(s2, deploys).value, token);
        NoDeployIsAuthorised(Run(s2, deploys).value, revoke);
      }
      AuthorisedConcat(s2, deploys, revoke);
    }
    AuthorisedConcat(s1, deployers, deploys + revoke);
  }

  lemma RevokeRun(s: State, token: Address)
    requires token in s.whitelist
    ensures Run(s, [RevokeToken(token)]) == Some(s.(whitelist := s.whitelist - {token}))
  {
    assert [RevokeToken(token)][1..] == [];
  }

  /** Every asset has the rewarder asked for and the multisig for a deployer; WOM is not on the whitelist. */
  ghost predicate Deployed(s: State, assets: seq<Address>, rewarder: Rewarder, isWom: bool, s': State) {
    && s'.boosted.Keys == s.boosted.Keys + (set a | a in assets)
    && (forall a :: a in s'.boosted ==> s'.boosted[a] == if a in assets then rewarder else s.boosted[a])
    && (forall a: Address :: (if a in s'.deployers then s'.deployers[a] else 0) ==
                    if a in assets then s.multisig else if a in s.deployers then s.deployers[a] else 0)
    && s'.whitelist == (if isWom then s.whitelist - {rewarder.token} else s.whitelist + {rewarder.token})
  }

  /**
   Factory deployment: every deployment reached is authorised and its token whitelisted. The batch goes
   through exactly when the assets are distinct, none has the multisig as its deployer already (setting it
   again reverts), and each can take a rewarder from this factory, starting when it should and with a rate the
   contract can hold. At the end every asset has one with that token, start and rate, the multisig is their
   deployer, and WOM, even if it was there before, is not on the whitelist.
   */
  lemma DeploymentTheorem(s: State, assets: seq<Address>, token: Address, isWom: bool, start: int, rate: int)
    ensures var plan := PlanDeployment(s, assets, token, isWom, start, rate);
            && (forall k :: 0 <= k < |plan| && plan[k].Deploy? && Run(s, plan[..k]).Some? ==>
                  var s1 := Run(s, plan[..k]).value;
                  && plan[k].token == token && token in s1.whitelist
                  && (if plan[k].asset in s1.deployers then s1.deployers[plan[k].asset] else 0) == s1.multisig)
            && (Run(s, plan).Some? <==>
                  && Distinct(assets)
                  && (forall a :: a in assets ==> (if a in s.deployers then s.deployers[a] else 0) != s.multisig)
                  && (assets != [] ==>
                        s.mwFactory in {0, s.factory} && start >= s.now && 0 <= rate <= 0xFFFF_FFFF_FFFF_FFFF_FFFF_FFFF)
                  && (forall a :: a in assets ==>
                        a in s.listed && a !in s.boosted && (s.gauges.Some? ==> a in s.gauges.value)))
            && (Run(s, plan).Some? ==>
                  Deployed(s, assets, Rewarder(start, token, rate), isWom, Run(s, plan).value))
  {
    DeploymentOutcome(s, assets, token, isWom, start, rate);
    forall a | a in assets
      ensures Deployable(Prepared(s, token), a, start, rate) <==>
              && s.mwFactory in {0, s.factory} && start >= s.now && 0 <= rate <= 0xFFFF_FFFF_FFFF_FFFF_FFFF_FFFF
              && a in s.listed && a !in s.boosted && (s.gauges.Some? ==> a in s.gauges.value)
    {
      DeployableIff(s, token, a, start, rate);
    }
    assert assets != [] ==> assets[0] in assets;
    var plan := PlanDeployment(s, assets, token, isWom, start, rate);
    hide Exec, AuthorisedThroughout, Deployed, Deployable, Prepared, PlanDeployment, Run;
    forall k | 0 <= k < |plan| && plan[k].Deploy? && Run(s, plan[..k]).Some?
      ensures plan[k].token == token && Authorised(Run(s, plan[..k]).value, plan[k])
    {
      AuthorisedAt(s, plan, k);
      OnlyThisToken(s, assets, token, isWom, start, rate, k);
    }
  }

  lemma DeploymentOutcome(s: State, assets: seq<Address>, token: Address, isWom: bool, start: int, rate: int)
    ensures var plan := PlanDeployment(s, assets, token, isWom, start, rate);
            && AuthorisedThroughout(s, plan)
            && (Run(s, plan).Some? <==>
                  && Distinct(assets) && (forall a :: a in assets ==> DeployerOf(s, a) != s.multisig)
                  && (forall a :: a in assets ==> Deployable(Prepared(s, token), a, start, rate)))
            && (Run(s, plan).Some? ==>
                  Deployed(s, assets, Rewarder(start, token, rate), isWom, Run(s, plan).value))
  {
    hide Exec, Authorised, AuthorisedThroughout, Deployed, Deployable, Prepared;
    var plan := PlanDeployment(s, assets, token, isWom, start, rate);
    var prepare := SetBribeRewarderFactory(s) + Whitelisting(s, [token]);
    var tail := SetDeployers(assets, s.multisig)
                + (Deploys(assets, start, token, rate) + if isWom then [RevokeToken(token)] else []);
    assert Revoking([token]) == [RevokeToken(token)];
    assert plan == prepare + tail;
    PreparationRun(s, token);
    NoDeployIsAuthorised(s, prepare);
    RunConcat(s, prepare, tail);
    DeploymentRuns(s, assets, token, isWom, start, rate);
    AuthorisedConcat(s, prepare, tail);
  }

  lemma DeployableIff(s: State, token: Address, a: Address, start: int, rate: int)
    ensures Deployable(Prepared(s, token), a, start, rate) <==>
            && s.mwFactory in {0, s.factory} && start >= s.now && 0 <= rate <= 0xFFFF_FFFF_FFFF_FFFF_FFFF_FFFF
            && a in s.listed && a !in s.boosted && (s.gauges.Some? ==> a in s.gauges.value)
  {
  }

  lemma OnlyThisToken(s: State, assets: seq<Address>, token: Address, isWom: bool, start: int, rate: int, k: nat)
    requires k < |PlanDeployment(s, assets, token, isWom, start, rate)|
    requires PlanDeployment(s, assets, token, isWom, start, rate)[k].Deploy?
    ensures PlanDeployment(s, assets, token, isWom, start, rate)[k].token == token
  {
    PreparationRun(s, token);
    var prepare := SetBribeRewarderFactory(s) + Whitelisting(s, [token]);
    assert forall i :: 0 <= i < |prepare| ==> prepare[i] in prepare;
  }
}
