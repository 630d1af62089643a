/** The theorems of `syncCrossChainPool`: one network after it synchronises, and a group after all of it has. */
module MutualTrust {
  import opened Base
  import opened Adaptors

  // ---------------------------------------------------------------------------------------------
  // One network
  // ---------------------------------------------------------------------------------------------

  lemma {:induction false} RunIff(s0: AdaptorState, s: AdaptorState, targets: Option<seq<Network>>, vs: seq<Visit>)
    requires HandleAll(s0, targets, vs).Ok?
    ensures Run(s, HandleAll(s0, targets, vs).value).Some? <==>
            && (forall v :: v in vs && v.VisitAdaptor? && Selected(targets, v.network) ==>
                              Trusted(s0, v.chainId) == ZERO_ADDRESS ==> v.chainId <= UINT16_MAX)
            && Distinct(Approvals(s0, targets, vs))
            && (forall p :: p in Approvals(s0, targets, vs) ==> p !in s.valid)
    decreases |vs|
  {
    if vs != [] {
      var v, rest := vs[0], vs[1..];
      assert forall w :: w in vs <==> w == v || w in rest;
      var first := Handle(s0, targets, v).value;
      RunCons(s, first, HandleAll(s0, targets, rest).value);
      var tail := Approvals(s0, targets, rest);
      if first != [] && v.VisitToken? {
        DistinctCons((v.chainId, v.token), tail);
        assert Approvals(s0, targets, vs) == [(v.chainId, v.token)] + tail;
        assert (v.chainId, v.token) in [(v.chainId, v.token)] + tail;
      } else {
        assert Approvals(s0, targets, vs) == tail;
      }
      if first == [] {
        RunIff(s0, s, targets, rest);
      } else if Exec(s, first[0]).Some? {
        RunIff(s0, Exec(s, first[0]).value, targets, rest);
      }
    }
  }

  lemma {:induction false} ApprovalsAreNew(s: AdaptorState, targets: Option<seq<Network>>, vs: seq<Visit>)
    ensures forall p :: p in Approvals(s, targets, vs) ==>
              && p !in s.valid && p.0 != 0
              && exists v :: v in vs && v.VisitToken? && Selected(targets, v.network) && p == (v.chainId, v.token)
  {
    if vs != [] {
      ApprovalsAreNew(s, targets, vs[1..]);
      assert forall w :: w in vs <==> w == vs[0] || w in vs[1..];
    }
  }

  lemma {:induction false} NothingToDo(s: AdaptorState, targets: Option<seq<Network>>, vs: seq<Visit>)
    requires TrustsAdaptors(s, targets, vs) && AcceptsTokens(s, targets, vs)
    requires forall v :: v in vs && v.VisitAdaptor? ==> v.adaptor != ZERO_ADDRESS
    ensures HandleAll(s, targets, vs) == Ok([])
  {
    if vs != [] {
      assert vs[0] in vs && forall w :: w in vs[1..] ==> w in vs;
      NothingToDo(s, targets, vs[1..]);
      var none: seq<Tx> := [];
      assert none + none == none;
    }
  }

  /**
   One network: the plan exists exactly when no adaptor contradicts the table; it goes through exactly when
   chain ids fit the table and no token is to be approved twice; and then every token with a chain id is
   accepted and nothing else was, every adaptor is trusted if and only if no two adaptors claim one chain id
   with different addresses, and in that case planning again proposes nothing.
   */
  lemma SyncTheorem(c: Config, t: PoolType, n: Network, s: AdaptorState, targets: Option<seq<Network>>)
    requires Visits(c, t, n).Ok?
    ensures var vs := Visits(c, t, n).value;
            && (PlanSync(c, t, n, s, targets).Ok? <==>
                  forall v :: v in vs && v.VisitAdaptor? && Selected(targets, v.network) ==>
                    Trusted(s, v.chainId) == ZERO_ADDRESS || Trusted(s, v.chainId) == v.adaptor)
            && (PlanSync(c, t, n, s, targets).Ok? ==>
                  var plan := PlanSync(c, t, n, s, targets).value;
                  && (Run(s, plan).Some? <==>
                        && (forall v :: (v in vs && v.VisitAdaptor? && Selected(targets, v.network)
                                         && Trusted(s, v.chainId) == ZERO_ADDRESS) ==> v.chainId <= 0xFFFF)
                        && Distinct(Approvals(s, targets, vs)))
                  && (Run(s, plan).Some? ==> SyncedState(c, t, n, s, targets, vs, Run(s, plan).value)))
  {
    var vs := Visits(c, t, n).value;
    hide Visits, HandleAll, Run, Approvals, SyncedState;
    SyncOkIff(s, targets, vs);
    if PlanSync(c, t, n, s, targets).Ok? {
      RunIff(s, s, targets, vs);
      ApprovalsAreNew(s, targets, vs);
      if Run(s, PlanSync(c, t, n, s, targets).value).Some? {
        SyncLeaves(c, t, n, s, targets);
      }
    }
  }

  lemma SyncLeaves(c: Config, t: PoolType, n: Network, s: AdaptorState, targets: Option<seq<Network>>)
    requires Visits(c, t, n).Ok? && PlanSync(c, t, n, s, targets).Ok?
    requires Run(s, PlanSync(c, t, n, s, targets).value).Some?
    ensures SyncedState(c, t, n, s, targets, Visits(c, t, n).value, Run(s, PlanSync(c, t, n, s, targets).value).value)
  {
    var vs := Visits(c, t, n).value;
    hide Visits, HandleAll, Run, Approvals;
    SyncOkIff(s, targets, vs);
    ApprovalsAreNew(s, targets, vs);
    SyncEffect(s, s, targets, vs);
    var s' := Run(s, PlanSync(c, t, n, s, targets).value).value;
    hide AcceptsTokens;
    if TrustsAdaptors(s', targets, vs) && forall v :: v in vs && v.VisitAdaptor? ==> v.adaptor != ZERO_ADDRESS {
      NothingToDo(s', targets, vs);
    }
  }

  ghost predicate SyncedState(
    c: Config, t: PoolType, n: Network, s: AdaptorState, targets: Option<seq<Network>>, vs: seq<Visit>,
    s': AdaptorState)
  {
    && AcceptsTokens(s', targets, vs)
    && s.valid <= s'.valid
    && (forall p :: p in s'.valid - s.valid ==>
          p.0 != 0 && exists v :: v in vs && v.VisitToken? && Selected(targets, v.network) && p == (v.chainId, v.token))
    && (forall id :: Trusted(s, id) != ZERO_ADDRESS && Trusted(s', id) != Trusted(s, id) ==>
          exists v :: v in vs && v.VisitAdaptor? && Selected(targets, v.network) && v.chainId == id)
    && (TrustsAdaptors(s', targets, vs) <==> Compatible(targets, vs))
    && (Compatible(targets, vs) && (forall v :: v in vs && v.VisitAdaptor? ==> v.adaptor != ZERO_ADDRESS) ==>
          PlanSync(c, t, n, s', targets) == Ok([]))
  }

  /** Exactly which transactions are proposed: those the tables lack, of the networks asked for, and no others. */
  lemma SyncPlanIff(c: Config, t: PoolType, n: Network, s: AdaptorState, targets: Option<seq<Network>>)
    requires PlanSync(c, t, n, s, targets).Ok?
    ensures var vs, plan := Visits(c, t, n).value, PlanSync(c, t, n, s, targets).value;
            && (forall id: nat, a: Address :: SetAdaptorAddress(id, a) in plan <==>
                  && (id in s.trusted ==> s.trusted[id] == ZERO_ADDRESS)
                  && exists m :: VisitAdaptor(m, id, a) in vs && (targets.Some? ==> m in targets.value))
            && (forall id: nat, token: Address :: ApproveToken(id, token) in plan <==>
                  && id != 0 && (id, token) !in s.valid
                  && exists m :: VisitToken(m, id, token) in vs && (targets.Some? ==> m in targets.value))
  {
    var vs := Visits(c, t, n).value;
    forall id: nat, a: Address
      ensures SetAdaptorAddress(id, a) in HandleAll(s, targets, vs).value <==>
              && (id in s.trusted ==> s.trusted[id] == ZERO_ADDRESS)
              && exists m :: VisitAdaptor(m, id, a) in vs && (targets.Some? ==> m in targets.value)
    {
      SetAdaptorIff(s, targets, vs, id, a);
    }
    forall id: nat, token: Address
      ensures ApproveToken(id, token) in HandleAll(s, targets, vs).value <==>
              && id != 0 && (id, token) !in s.valid
              && exists m :: VisitToken(m, id, token) in vs && (targets.Some? ==> m in targets.value)
    {
      ApproveIff(s, targets, vs, id, token);
    }
  }

  lemma {:induction false} SetAdaptorIff(
    s: AdaptorState, targets: Option<seq<Network>>, vs: seq<Visit>, id: nat, a: Address)
    requires HandleAll(s, targets, vs).Ok?
    ensures SetAdaptorAddress(id, a) in HandleAll(s, targets, vs).value <==>
            && (id in s.trusted ==> s.trusted[id] == ZERO_ADDRESS)
            && exists m :: VisitAdaptor(m, id, a) in vs && (targets.Some? ==> m in targets.value)
  {
    if vs != [] {
      SetAdaptorIff(s, targets, vs[1..], id, a);
      assert forall v :: v in vs <==> v == vs[0] || v in vs[1..];
    }
  }

  lemma {:induction false} ApproveIff(
    s: AdaptorState, targets: Option<seq<Network>>, vs: seq<Visit>, id: nat, token: Address)
    requires HandleAll(s, targets, vs).Ok?
    ensures ApproveToken(id, token) in HandleAll(s, targets, vs).value <==>
            && id != 0 && (id, token) !in s.valid
            && exists m :: VisitToken(m, id, token) in vs && (targets.Some? ==> m in targets.value)
  {
    if vs != [] {
      ApproveIff(s, targets, vs[1..], id, token);
      assert forall v :: v in vs <==> v == vs[0] || v in vs[1..];
    }
  }

  // ---------------------------------------------------------------------------------------------
  // Whom the callbacks are called for
  // ---------------------------------------------------------------------------------------------

  /** `cfg` is the adaptor of another network in the group of `n`. */
  ghost predicate PeerConfig(c: Config, t: PoolType, n: Network, m: Network, cfg: AdaptorConfig) {
    m != n && SameGroup(c, n, m) && Configured(c, t, m, cfg)
  }

  lemma {:induction false} TokensOkIff(c: Config, m: Network, id: nat, tokens: seq<Token>)
    ensures VisitTokens(c, m, id, tokens).Ok? <==> forall token :: token in tokens ==> (token, m) in c.tokens
    ensures VisitTokens(c, m, id, tokens).Ok? ==>
              forall v :: v in VisitTokens(c, m, id, tokens).value <==>
                v.VisitToken? && v.network == m && v.chainId == id
                && exists token :: token in tokens && (token, m) in c.tokens && c.tokens[(token, m)] == v.token
  {
    if tokens != [] {
      TokensOkIff(c, m, id, tokens[1..]);
      assert forall token :: token in tokens <==> token == tokens[0] || token in tokens[1..];
    }
  }

  /** What a call for the adaptor `cfg` of network `m` looks like. */
  ghost predicate CallFor(c: Config, m: Network, cfg: AdaptorConfig, v: Visit) {
    && v.network == m && Registered(c, m, cfg, v.chainId)
    && match v
       case VisitAdaptor(_, _, adaptor) => cfg.adaptor == Some(adaptor)
       case VisitToken(_, _, address) =>
         exists token :: token in cfg.tokens && (token, m) in c.tokens && c.tokens[(token, m)] == address
  }

  /** The walk over one network can fail only at a name or a token it does not know. */
  ghost predicate Walkable(c: Config, m: Network, cfg: AdaptorConfig) {
    cfg.adaptor.Some?
    && ((exists id :: Registered(c, m, cfg, id)) ==> forall token :: token in cfg.tokens ==> (token, m) in c.tokens)
  }

  lemma VisitNetworkIff(c: Config, t: PoolType, m: Network, cfg: AdaptorConfig)
    requires ConfigOf(c, m, t) == Some(cfg)
    ensures VisitNetwork(c, t, m).Ok? <==> Walkable(c, m, cfg)
    ensures VisitNetwork(c, t, m).Ok? ==>
              forall v :: v in VisitNetwork(c, t, m).value <==> CallFor(c, m, cfg, v)
  {
    var id := ChainIdOf(c, m, cfg.messager);
    assert forall i: nat :: Registered(c, m, cfg, i) <==> id == Some(i);
    if id.Some? {
      TokensOkIff(c, m, id.value, cfg.tokens);
    }
  }

  lemma {:induction false} VisitAllIff(c: Config, t: PoolType, others: seq<Network>)
    ensures VisitAll(c, t, others).Ok? <==> forall m :: m in others ==> VisitNetwork(c, t, m).Ok?
    ensures VisitAll(c, t, others).Ok? ==>
              forall v :: v in VisitAll(c, t, others).value <==>
                exists m :: m in others && VisitNetwork(c, t, m).Ok? && v in VisitNetwork(c, t, m).value
  {
    hide VisitNetwork;
    if others != [] {
      VisitAllIff(c, t, others[1..]);
      assert forall m :: m in others <==> m == others[0] || m in others[1..];
    }
  }

  /**
   The walk over a group, told by the configuration: it succeeds exactly when every peer's adaptor has an address
   and, if its messager knows the peer's network, the peer's tokens have one too. An adaptor or a token is visited
   exactly when it is a peer's, under the chain id that the peer's messager has for the network.
   */
  lemma VisitsIff(c: Config, t: PoolType, n: Network)
    requires WellFormed(c)
    ensures Visits(c, t, n).Ok? <==> forall m, cfg :: PeerConfig(c, t, n, m, cfg) ==> Walkable(c, m, cfg)
    ensures Visits(c, t, n).Ok? ==>
              forall v :: v in Visits(c, t, n).value <==>
                exists cfg :: PeerConfig(c, t, n, v.network, cfg) && CallFor(c, v.network, cfg, v)
  {
    hide WellFormed, VisitNetwork, VisitAll, OthersFrom, Configured, SameGroup, Walkable, CallFor, ConfigOf;
    var others := OthersFrom(c, t, n, c.entries);
    VisitAllIff(c, t, others);
    forall m, cfg | PeerConfig(c, t, n, m, cfg)
      ensures m in others && (VisitNetwork(c, t, m).Ok? <==> Walkable(c, m, cfg))
      ensures VisitNetwork(c, t, m).Ok? ==> forall v :: v in VisitNetwork(c, t, m).value <==> CallFor(c, m, cfg, v)
    {
      OthersArePeers(c, t, n, m);
      ConfigIff(c, t, m, cfg);
      VisitNetworkIff(c, t, m, cfg);
    }
    forall m | m in others ensures exists cfg :: PeerConfig(c, t, n, m, cfg) {
      OthersArePeers(c, t, n, m);
      var cfg :| Configured(c, t, m, cfg);
      assert PeerConfig(c, t, n, m, cfg);
    }
    if Visits(c, t, n).Ok? {
      forall v | v in Visits(c, t, n).value
        ensures exists cfg :: PeerConfig(c, t, n, v.network, cfg) && CallFor(c, v.network, cfg, v)
      {
        var m :| m in others && VisitNetwork(c, t, m).Ok? && v in VisitNetwork(c, t, m).value;
        var cfg :| PeerConfig(c, t, n, m, cfg);
        CallNetwork(c, m, cfg, v);
      }
    }
  }

  lemma CallNetwork(c: Config, m: Network, cfg: AdaptorConfig, v: Visit)
    requires CallFor(c, m, cfg, v)
    ensures v.network == m
  {
  }

  // ---------------------------------------------------------------------------------------------
  // A whole group
  // ---------------------------------------------------------------------------------------------

  type World = map<Network, AdaptorState>

  /** One network plans from its own tables and executes. */
  function SyncOne(c: Config, t: PoolType, w: World, n: Network): Option<World> {
    if n !in w then None else
      match PlanSync(c, t, n, w[n], None)
      case Err => None
      case Ok(plan) =>
        match Run(w[n], plan)
        case None => None
        case Some(s) => Some(w[n := s])
  }

  /** The networks synchronise in turn, in any order, each as often as it likes. */
  function SyncAll(c: Config, t: PoolType, w: World, ns: seq<Network>): Option<World>
    decreases |ns|
  {
    if ns == [] then Some(w) else
      match SyncOne(c, t, w, ns[0])
      case None => None
      case Some(w1) => SyncAll(c, t, w1, ns[1..])
  }

  /** No two peers of `n` claim one chain id with different adaptors. */
  ghost predicate NoClash(c: Config, t: PoolType, n: Network) {
    forall m, k, a, b, id :: PeerConfig(c, t, n, m, a) && PeerConfig(c, t, n, k, b) ==>
      Registered(c, m, a, id) && Registered(c, k, b, id) ==> a.adaptor == b.adaptor
  }

  /** The tables `s` have the adaptor `cfg` of network `m` under `id`, and accept all its tokens. */
  ghost predicate Trusts(s: AdaptorState, c: Config, m: Network, cfg: AdaptorConfig, id: nat) {
    && cfg.adaptor == Some(if id in s.trusted then s.trusted[id] else ZERO_ADDRESS)
    && forall token :: token in cfg.tokens ==> (token, m) in c.tokens && (id, c.tokens[(token, m)]) in s.valid
  }

  lemma NoClashIsCompatible(c: Config, t: PoolType, n: Network)
    requires WellFormed(c) && Visits(c, t, n).Ok? && NoClash(c, t, n)
    ensures Compatible(None, Visits(c, t, n).value)
  {
    VisitsIff(c, t, n);
    hide Visits, PeerConfig, WellFormed;
    var vs := Visits(c, t, n).value;
    forall v, w | v in vs && w in vs && v.VisitAdaptor? && w.VisitAdaptor? && v.chainId == w.chainId
      ensures v.adaptor == w.adaptor
    {
      var a :| PeerConfig(c, t, n, v.network, a) && CallFor(c, v.network, a, v);
      var b :| PeerConfig(c, t, n, w.network, b) && CallFor(c, w.network, b, w);
      assert Registered(c, v.network, a, v.chainId) && Registered(c, w.network, b, v.chainId);
    }
  }

  /**
   Once a network has synchronised it trusts every peer that its messager has a chain id for, if and only if that
   is not zero or there was no token of the peer left to accept.
   */
  lemma SyncOneTrusts(c: Config, t: PoolType, w: World, n: Network, m: Network, cfg: AdaptorConfig, id: nat)
    requires WellFormed(c) && SyncOne(c, t, w, n).Some? && NoClash(c, t, n)
    requires PeerConfig(c, t, n, m, cfg) && Registered(c, m, cfg, id)
    ensures n in SyncOne(c, t, w, n).value
    ensures Trusts(SyncOne(c, t, w, n).value[n], c, m, cfg, id) <==>
            || id != 0
            || forall token :: token in cfg.tokens ==> (token, m) in c.tokens && (0, c.tokens[(token, m)]) in w[n].valid
  {
    SyncTheorem(c, t, n, w[n], None);
    NoClashIsCompatible(c, t, n);
    VisitsIff(c, t, n);
    hide Visits, PlanSync, Compatible, PeerConfig, NoClash, WellFormed, Run;
    var vs, s' := Visits(c, t, n).value, SyncOne(c, t, w, n).value[n];
    assert SyncedState(c, t, n, w[n], None, vs, s');
    assert CallFor(c, m, cfg, VisitAdaptor(m, id, cfg.adaptor.value));
    assert VisitAdaptor(m, id, cfg.adaptor.value) in vs;
    forall token | token in cfg.tokens
      ensures (token, m) in c.tokens && VisitToken(m, id, c.tokens[(token, m)]) in vs
    {
      assert CallFor(c, m, cfg, VisitToken(m, id, c.tokens[(token, m)]));
    }
  }

  lemma {:induction false} SyncAllFrame(c: Config, t: PoolType, w: World, ns: seq<Network>, n: Network)
    requires SyncAll(c, t, w, ns).Some? && n !in ns
    ensures n in w <==> n in SyncAll(c, t, w, ns).value
    ensures n in w ==> SyncAll(c, t, w, ns).value[n] == w[n]
    decreases |ns|
  {
    hide PlanSync, Run;
    if ns != [] {
      SyncAllFrame(c, t, SyncOne(c, t, w, ns[0]).value, ns[1..], n);
    }
  }

  lemma {:induction false} SyncAllTrusts(
    c: Config, t: PoolType, w: World, ns: seq<Network>, n: Network, m: Network, cfg: AdaptorConfig, id: nat)
    requires WellFormed(c) && SyncAll(c, t, w, ns).Some? && n in ns && NoClash(c, t, n)
    requires PeerConfig(c, t, n, m, cfg) && Registered(c, m, cfg, id) && id != 0
    ensures n in SyncAll(c, t, w, ns).value && Trusts(SyncAll(c, t, w, ns).value[n], c, m, cfg, id)
    decreases |ns|
  {
    hide PeerConfig, Registered, NoClash, WellFormed, SyncOne, Trusts;
    var w1 := SyncOne(c, t, w, ns[0]).value;
    if n in ns[1..] {
      SyncAllTrusts(c, t, w1, ns[1..], n, m, cfg, id);
    } else {
      SyncOneTrusts(c, t, w, n, m, cfg, id);
      SyncAllFrame(c, t, w1, ns[1..], n);
    }
  }

  /**
   Mutual trust: when every network of a group has synchronised, any two of them trust each other's adaptor
   and accept each other's tokens, under the chain ids that the messagers of their adaptors have for them, these
   being defined, not zero and unambiguous.
   */
  lemma EveryoneTrustsEveryone(
    c: Config, t: PoolType, w: World, ns: seq<Network>,
    n: Network, a: AdaptorConfig, i: nat, m: Network, b: AdaptorConfig, j: nat)
    requires WellFormed(c) && SyncAll(c, t, w, ns).Some?
    requires n in ns && m in ns && n != m && NoClash(c, t, n) && NoClash(c, t, m)
    requires n in c.groups <==> m in c.groups
    requires n in c.groups ==> c.groups[n] == c.groups[m]
    requires exists e :: e in c.entries && e.network == n && (t, a) in e.adaptors
    requires exists e :: e in c.entries && e.network == m && (t, b) in e.adaptors
    requires Registered(c, n, a, i) && i != 0 && Registered(c, m, b, j) && j != 0
    ensures var w' := SyncAll(c, t, w, ns).value;
            n in w' && m in w' && Trusts(w'[n], c, m, b, j) && Trusts(w'[m], c, n, a, i)
  {
    SyncAllTrusts(c, t, w, ns, n, m, b, j);
    SyncAllTrusts(c, t, w, ns, m, n, a, i);
  }

  /** Then there is nothing left to do for any of them: planning again proposes no transaction. */
  lemma {:induction false} GroupReplanIsEmpty(c: Config, t: PoolType, w: World, ns: seq<Network>, n: Network)
    requires WellFormed(c) && SyncAll(c, t, w, ns).Some? && n in ns && NoClash(c, t, n)
    requires forall m, cfg :: PeerConfig(c, t, n, m, cfg) ==> cfg.adaptor != Some(ZERO_ADDRESS)
    ensures n in SyncAll(c, t, w, ns).value
    ensures PlanSync(c, t, n, SyncAll(c, t, w, ns).value[n], None) == Ok([])
    decreases |ns|
  {
    hide NoClash, WellFormed, PeerConfig;
    var w1 := SyncOne(c, t, w, ns[0]).value;
    if n in ns[1..] {
      GroupReplanIsEmpty(c, t, w1, ns[1..], n);
    } else {
      SyncAllFrame(c, t, w1, ns[1..], n);
      SyncTheorem(c, t, n, w[n], None);
      NoClashIsCompatible(c, t, n);
      VisitsIff(c, t, n);
      var vs := Visits(c, t, n).value;
      forall v | v in vs && v.VisitAdaptor? ensures v.adaptor != ZERO_ADDRESS {
        var cfg :| PeerConfig(c, t, n, v.network, cfg) && CallFor(c, v.network, cfg, v);
      }
      hide PlanSync, Visits, Compatible, AcceptsTokens, TrustsAdaptors, Run;
      assert SyncedState(c, t, n, w[n], None, vs, w1[n]);
    }
  }

  /** On the development networks, whose chain id is zero, synchronising never approves a token. */
  lemma ChainIdZeroAcceptsNothing(
    c: Config, t: PoolType, n: Network, s: AdaptorState, targets: Option<seq<Network>>, token: Address)
    requires PlanSync(c, t, n, s, targets).Ok?
    ensures ApproveToken(0, token) !in PlanSync(c, t, n, s, targets).value
  {
    SyncPlanIff(c, t, n, s, targets);
  }
}
