/**
 Cross-chain adaptors: `getOtherAdaptorsInGroup`, `loopAdaptorInGroup` and `syncCrossChainPool`, on the
 trust tables that each network's adaptor keeps.
 */
module Adaptors {
  import opened Base

  type Network = nat
  type Token = nat
  type PoolType = nat

  datatype Messager = Wormhole | LayerZero

  /** `adaptor` is None when the name it is configured by cannot be resolved. */
  datatype AdaptorConfig = AdaptorConfig(adaptor: Option<Address>, tokens: seq<Token>, messager: Messager)

  datatype NetworkEntry = NetworkEntry(network: Network, adaptors: seq<(PoolType, AdaptorConfig)>)

  datatype Config = Config(
    entries: seq<NetworkEntry>,
    groups: map<Network, nat>,
    wormhole: map<Network, nat>,
    layerZero: map<Network, nat>,
    tokens: map<(Token, Network), Address>)

  /** Undefined for a network missing from the group map; two undefined groups compare equal. */
  function GroupOf(c: Config, n: Network): Option<nat> {
    if n in c.groups then Some(c.groups[n]) else None
  }

  /** An object literal: networks, and the pool types of a network, occur once. */
  ghost predicate WellFormed(c: Config) {
    && (forall i, j :: 0 <= i < j < |c.entries| ==> c.entries[i].network != c.entries[j].network)
    && (forall e :: e in c.entries ==> DistinctTypes(e.adaptors))
  }

  ghost predicate DistinctTypes(adaptors: seq<(PoolType, AdaptorConfig)>) {
    forall i, j :: 0 <= i < j < |adaptors| ==> adaptors[i].0 != adaptors[j].0
  }

  function FindAdaptor(adaptors: seq<(PoolType, AdaptorConfig)>, t: PoolType): Option<AdaptorConfig> {
    if adaptors == [] then None
    else if adaptors[0].0 == t then Some(adaptors[0].1)
    else FindAdaptor(adaptors[1..], t)
  }

  function FindNetwork(entries: seq<NetworkEntry>, n: Network): Option<NetworkEntry> {
    if entries == [] then None
    else if entries[0].network == n then Some(entries[0])
    else FindNetwork(entries[1..], n)
  }

  /** `ADAPTOR_CONFIG_MAP[n]?.[t]` */
  function ConfigOf(c: Config, n: Network, t: PoolType): Option<AdaptorConfig> {
    match FindNetwork(c.entries, n)
    case None => None
    case Some(e) => FindAdaptor(e.adaptors, t)
  }

  function ChainIdOf(c: Config, n: Network, m: Messager): Option<nat> {
    var ids := if m.Wormhole? then c.wormhole else c.layerZero;
    if n in ids then Some(ids[n]) else None
  }

  // ---------------------------------------------------------------------------------------------
  // The group of a network
  // ---------------------------------------------------------------------------------------------

  function Matching(adaptors: seq<(PoolType, AdaptorConfig)>, t: PoolType, other: Network): seq<Network> {
    if adaptors == [] then []
    else (if adaptors[0].0 == t then [other] else []) + Matching(adaptors[1..], t, other)
  }

  /** What one entry contributes to the group of `n`. */
  function OthersAt(c: Config, t: PoolType, n: Network, e: NetworkEntry): seq<Network> {
    if e.network == n || GroupOf(c, n) != GroupOf(c, e.network) then [] else Matching(e.adaptors, t, e.network)
  }

  function OthersFrom(c: Config, t: PoolType, n: Network, entries: seq<NetworkEntry>): seq<Network> {
    if entries == [] then [] else OthersAt(c, t, n, entries[0]) + OthersFrom(c, t, n, entries[1..])
  }

  lemma {:induction false} MatchingSnoc(
    xs: seq<(PoolType, AdaptorConfig)>, t: PoolType, other: Network, a: (PoolType, AdaptorConfig))
    ensures Matching(xs + [a], t, other) == Matching(xs, t, other) + (if a.0 == t then [other] else [])
  {
    if xs != [] {
      assert (xs + [a])[1..] == xs[1..] + [a];
      MatchingSnoc(xs[1..], t, other, a);
    }
  }

  lemma {:induction false} OthersSnoc(c: Config, t: PoolType, n: Network, es: seq<NetworkEntry>, e: NetworkEntry)
    ensures OthersFrom(c, t, n, es + [e]) == OthersFrom(c, t, n, es) + OthersAt(c, t, n, e)
  {
    if es != [] {
      assert (es + [e])[1..] == es[1..] + [e];
      OthersSnoc(c, t, n, es[1..], e);
    } else {
      assert (es + [e])[1..] == [];
    }
  }

  method GetOtherAdaptorsInGroup(c: Config, t: PoolType, n: Network) returns (result: seq<Network>)
    ensures result == OthersFrom(c, t, n, c.entries)
  {
    hide OthersFrom, GroupOf;
    result := [];
    assert OthersFrom(c, t, n, c.entries[..0]) == [] by { NoOthers(c, t, n); }
    for i := 0 to |c.entries|
      invariant result == OthersFrom(c, t, n, c.entries[..i])
    {
      var e := c.entries[i];
      OthersSnoc(c, t, n, c.entries[..i], e);
      assert c.entries[..i + 1] == c.entries[..i] + [e];
      if e.network == n {
        continue;
      }
      ghost var before := result;
      for j := 0 to |e.adaptors|
        invariant result == before + if GroupOf(c, n) == GroupOf(c, e.network)
                                     then Matching(e.adaptors[..j], t, e.network) else []
      {
        MatchingSnoc(e.adaptors[..j], t, e.network, e.adaptors[j]);
        assert e.adaptors[..j + 1] == e.adaptors[..j] + [e.adaptors[j]];
        if GroupOf(c, n) == GroupOf(c, e.network) && e.adaptors[j].0 == t {
          result := result + [e.network];
        }
      }
      assert e.adaptors[..|e.adaptors|] == e.adaptors;
    }
    assert c.entries[..|c.entries|] == c.entries;
  }

  lemma NoOthers(c: Config, t: PoolType, n: Network)
    ensures OthersFrom(c, t, n, c.entries[..0]) == []
  {
  }

  /** Both networks are in one group of the map, or both are missing from it. */
  predicate SameGroup(c: Config, n: Network, m: Network) {
    (n in c.groups <==> m in c.groups) && (n in c.groups ==> c.groups[n] == c.groups[m])
  }

  /** `cfg` stands in the configuration for network `m` and pool type `t`. */
  ghost predicate Configured(c: Config, t: PoolType, m: Network, cfg: AdaptorConfig) {
    exists e :: e in c.entries && e.network == m && (t, cfg) in e.adaptors
  }

  /** The messager of the adaptor knows network `m` as `id`. */
  predicate Registered(c: Config, m: Network, cfg: AdaptorConfig, id: nat) {
    match cfg.messager
    case Wormhole => m in c.wormhole && c.wormhole[m] == id
    case LayerZero => m in c.layerZero && c.layerZero[m] == id
  }

  /** Same group, another network, and an adaptor of the pool type. */
  ghost predicate Peer(c: Config, t: PoolType, n: Network, m: Network) {
    m != n && SameGroup(c, n, m) && exists cfg :: Configured(c, t, m, cfg)
  }

  lemma {:induction false} MatchingIff(
    adaptors: seq<(PoolType, AdaptorConfig)>, t: PoolType, other: Network, m: Network)
    ensures m in Matching(adaptors, t, other) <==> m == other && FindAdaptor(adaptors, t).Some?
  {
    if adaptors != [] {
      MatchingIff(adaptors[1..], t, other, m);
    }
  }

  lemma {:induction false} OthersIff(c: Config, t: PoolType, n: Network, entries: seq<NetworkEntry>, m: Network)
    requires forall i, j :: 0 <= i < j < |entries| ==> entries[i].network != entries[j].network
    ensures m in OthersFrom(c, t, n, entries) <==>
            && m != n && SameGroup(c, n, m)
            && FindNetwork(entries, m).Some? && FindAdaptor(FindNetwork(entries, m).value.adaptors, t).Some?
  {
    if entries != [] {
      MatchingIff(entries[0].adaptors, t, entries[0].network, m);
      OthersIff(c, t, n, entries[1..], m);
      if entries[0].network == m {
        NotFound(entries[1..], m);
      }
    }
  }

  lemma {:induction false} NotFound(entries: seq<NetworkEntry>, m: Network)
    requires forall e :: e in entries ==> e.network != m
    ensures FindNetwork(entries, m).None?
  {
    if entries != [] {
      assert entries[0] in entries;
      NotFound(entries[1..], m);
    }
  }

  lemma {:induction false} FindNetworkIff(entries: seq<NetworkEntry>, m: Network, e: NetworkEntry)
    requires forall i, j :: 0 <= i < j < |entries| ==> entries[i].network != entries[j].network
    ensures FindNetwork(entries, m) == Some(e) <==> e in entries && e.network == m
  {
    if entries != [] {
      FindNetworkIff(entries[1..], m, e);
      assert forall x :: x in entries <==> x == entries[0] || x in entries[1..];
    }
  }

  lemma {:induction false} FindAdaptorIff(adaptors: seq<(PoolType, AdaptorConfig)>, t: PoolType, cfg: AdaptorConfig)
    requires DistinctTypes(adaptors)
    ensures FindAdaptor(adaptors, t) == Some(cfg) <==> (t, cfg) in adaptors
  {
    if adaptors != [] {
      FindAdaptorIff(adaptors[1..], t, cfg);
      assert forall x :: x in adaptors <==> x == adaptors[0] || x in adaptors[1..];
    }
  }

  /** Looking up a network and a pool type finds what stands in the configuration for them. */
  lemma ConfigIff(c: Config, t: PoolType, m: Network, cfg: AdaptorConfig)
    requires WellFormed(c)
    ensures ConfigOf(c, m, t) == Some(cfg) <==> Configured(c, t, m, cfg)
  {
    if Configured(c, t, m, cfg) {
      var e :| e in c.entries && e.network == m && (t, cfg) in e.adaptors;
      FindNetworkIff(c.entries, m, e);
      FindAdaptorIff(e.adaptors, t, cfg);
    }
    if ConfigOf(c, m, t) == Some(cfg) {
      var e := FindNetwork(c.entries, m).value;
      FindNetworkIff(c.entries, m, e);
      FindAdaptorIff(e.adaptors, t, cfg);
      assert Configured(c, t, m, cfg);
    }
  }

  lemma OthersArePeers(c: Config, t: PoolType, n: Network, m: Network)
    requires WellFormed(c)
    ensures m in OthersFrom(c, t, n, c.entries) <==> Peer(c, t, n, m)
  {
    OthersIff(c, t, n, c.entries, m);
    if ConfigOf(c, m, t).Some? {
      ConfigIff(c, t, m, ConfigOf(c, m, t).value);
    }
    if exists cfg :: Configured(c, t, m, cfg) {
      var cfg :| Configured(c, t, m, cfg);
      ConfigIff(c, t, m, cfg);
    }
  }

  /**
   The group computed for a network is exactly its peers, so being in each other's group is mutual for networks
   that have an adaptor of the type.
   */
  lemma GroupIsSymmetric(c: Config, t: PoolType, n: Network, m: Network)
    requires WellFormed(c)
    ensures m in OthersFrom(c, t, n, c.entries) <==>
            m != n && SameGroup(c, n, m) && exists cfg :: Configured(c, t, m, cfg)
    ensures (exists cfg :: Configured(c, t, n, cfg)) && (exists cfg :: Configured(c, t, m, cfg)) ==>
              (m in OthersFrom(c, t, n, c.entries) <==> n in OthersFrom(c, t, m, c.entries))
  {
    OthersArePeers(c, t, n, m);
    OthersArePeers(c, t, m, n);
  }

  // ---------------------------------------------------------------------------------------------
  // Walking the group
  // ---------------------------------------------------------------------------------------------

  /** One call of one of the two callbacks. */
  datatype Visit =
    | VisitAdaptor(network: Network, chainId: nat, adaptor: Address)
    | VisitToken(network: Network, chainId: nat, token: Address)

  function VisitTokens(c: Config, m: Network, id: nat, tokens: seq<Token>): Result<seq<Visit>> {
    if tokens == [] then Ok([])
    else if (tokens[0], m) !in c.tokens then Err
    else
      var rest :- VisitTokens(c, m, id, tokens[1..]);
      Ok([VisitToken(m, id, c.tokens[(tokens[0], m)])] + rest)
  }

  function VisitNetwork(c: Config, t: PoolType, m: Network): Result<seq<Visit>> {
    match ConfigOf(c, m, t)
    case None => Ok([])
    case Some(cfg) =>
      if cfg.adaptor.None? then Err else
        match ChainIdOf(c, m, cfg.messager)
        case None => Ok([])
        case Some(id) =>
          var rest :- VisitTokens(c, m, id, cfg.tokens);
          Ok([VisitAdaptor(m, id, cfg.adaptor.value)] + rest)
  }

  function VisitAll(c: Config, t: PoolType, others: seq<Network>): Result<seq<Visit>> {
    if others == [] then Ok([]) else
      var first :- VisitNetwork(c, t, others[0]);
      var rest :- VisitAll(c, t, others[1..]);
      Ok(first + rest)
  }

  function Visits(c: Config, t: PoolType, n: Network): Result<seq<Visit>> {
    VisitAll(c, t, OthersFrom(c, t, n, c.entries))
  }

  function Prepend(vs: seq<Visit>, r: Result<seq<Visit>>): Result<seq<Visit>> {
    match r
    case Ok(rest) => Ok(vs + rest)
    case Err => Err
  }

  lemma {:induction false} VisitTokensConcat(c: Config, m: Network, id: nat, a: seq<Token>, b: seq<Token>)
    ensures VisitTokens(c, m, id, a + b) ==
            (match VisitTokens(c, m, id, a) case Err => Err case Ok(vs) => Prepend(vs, VisitTokens(c, m, id, b)))
  {
    if a == [] {
      assert a + b == b && forall q: seq<Visit> :: [] + q == q;
    } else {
      assert (a + b)[1..] == a[1..] + b;
      VisitTokensConcat(c, m, id, a[1..], b);
      if (a[0], m) in c.tokens && VisitTokens(c, m, id, a[1..]).Ok? {
        var first, rest := [VisitToken(m, id, c.tokens[(a[0], m)])], VisitTokens(c, m, id, a[1..]).value;
        assert forall q :: first + (rest + q) == first + rest + q;
      }
    }
  }

  lemma {:induction false} VisitAllConcat(c: Config, t: PoolType, a: seq<Network>, b: seq<Network>)
    ensures VisitAll(c, t, a + b) ==
            (match VisitAll(c, t, a) case Err => Err case Ok(vs) => Prepend(vs, VisitAll(c, t, b)))
  {
    hide VisitNetwork;
    if a == [] {
      assert a + b == b && forall q: seq<Visit> :: [] + q == q;
    } else {
      assert (a + b)[1..] == a[1..] + b;
      VisitAllConcat(c, t, a[1..], b);
      if VisitNetwork(c, t, a[0]).Ok? && VisitAll(c, t, a[1..]).Ok? {
        var first, rest := VisitNetwork(c, t, a[0]).value, VisitAll(c, t, a[1..]).value;
        assert forall q :: first + (rest + q) == first + rest + q;
      }
    }
  }

  /** Appending one network's calls, and stopping at a network whose calls fail. */
  lemma VisitAllStep(c: Config, t: PoolType, others: seq<Network>, i: nat)
    requires i < |others| && VisitAll(c, t, others[..i]).Ok?
    ensures VisitAll(c, t, others[..i + 1]) == Prepend(VisitAll(c, t, others[..i]).value, VisitNetwork(c, t, others[i]))
    ensures VisitNetwork(c, t, others[i]).Err? ==> VisitAll(c, t, others).Err?
  {
    hide VisitNetwork;
    var m := others[i];
    assert others[..i + 1] == others[..i] + [m] && others == others[..i] + others[i..];
    assert others[i..][0] == m && [m][1..] == [];
    VisitAllConcat(c, t, others[..i], [m]);
    VisitAllConcat(c, t, others[..i], others[i..]);
    if VisitNetwork(c, t, m).Ok? {
      assert VisitNetwork(c, t, m).value + [] == VisitNetwork(c, t, m).value;
    }
  }

  lemma VisitTokensStep(c: Config, m: Network, id: nat, tokens: seq<Token>, j: nat)
    requires j < |tokens| && VisitTokens(c, m, id, tokens[..j]).Ok?
    ensures (tokens[j], m) in c.tokens ==>
              VisitTokens(c, m, id, tokens[..j + 1])
              == Ok(VisitTokens(c, m, id, tokens[..j]).value + [VisitToken(m, id, c.tokens[(tokens[j], m)])])
    ensures (tokens[j], m) !in c.tokens ==> VisitTokens(c, m, id, tokens).Err?
  {
    assert tokens[..j + 1] == tokens[..j] + [tokens[j]] && tokens == tokens[..j] + tokens[j..];
    assert [tokens[j]][1..] == [];
    VisitTokensConcat(c, m, id, tokens[..j], [tokens[j]]);
    VisitTokensConcat(c, m, id, tokens[..j], tokens[j..]);
    if (tokens[j], m) in c.tokens {
      var call := [VisitToken(m, id, c.tokens[(tokens[j], m)])];
      assert call + [] == call;
    }
  }

  method LoopTokens(c: Config, m: Network, id: nat, tokens: seq<Token>) returns (r: Result<seq<Visit>>)
    ensures r == VisitTokens(c, m, id, tokens)
  {
    var calls: seq<Visit> := [];
    for j := 0 to |tokens|
      invariant VisitTokens(c, m, id, tokens[..j]) == Ok(calls)
    {
      VisitTokensStep(c, m, id, tokens, j);
      if (tokens[j], m) !in c.tokens {
        return Err;
      }
      calls := calls + [VisitToken(m, id, c.tokens[(tokens[j], m)])];
    }
    assert tokens[..|tokens|] == tokens;
    return Ok(calls);
  }

  /** The callbacks in the order `loopAdaptorInGroup` makes them. */
  method LoopAdaptorInGroup(c: Config, t: PoolType, n: Network) returns (r: Result<seq<Visit>>)
    ensures r == Visits(c, t, n)
  {
    var others := GetOtherAdaptorsInGroup(c, t, n);
    var calls: seq<Visit> := [];
    for i := 0 to |others|
      invariant VisitAll(c, t, others[..i]) == Ok(calls)
    {
      var m := others[i];
      VisitAllStep(c, t, others, i);
      hide VisitAll, VisitTokens;
      ghost var before := calls;
      var otherConfig := ConfigOf(c, m, t);
      if otherConfig.Some? {
        if otherConfig.value.adaptor.None? {
          return Err;
        }
        var chainId := ChainIdOf(c, m, otherConfig.value.messager);
        if chainId.Some? {
          calls := calls + [VisitAdaptor(m, chainId.value, otherConfig.value.adaptor.value)];
          var tokenCalls := LoopTokens(c, m, chainId.value, otherConfig.value.tokens);
          if tokenCalls.Err? {
            return Err;
          }
          calls := calls + tokenCalls.value;
        }
      }
      assert VisitNetwork(c, t, m).Ok? && calls == before + VisitNetwork(c, t, m).value;
    }
    assert others[..|others|] == others;
    return Ok(calls);
  }

  // ---------------------------------------------------------------------------------------------
  // Synchronising one network
  // ---------------------------------------------------------------------------------------------

  /** The trust tables of one network's adaptor; a missing entry is the zero address. */
  datatype AdaptorState = AdaptorState(trusted: map<nat, Address>, valid: set<(nat, Address)>)

  datatype Tx = SetAdaptorAddress(chainId: nat, adaptor: Address) | ApproveToken(chainId: nat, token: Address)

  const UINT16_MAX: nat := 0xFFFF

  function Trusted(s: AdaptorState, id: nat): Address {
    if id in s.trusted then s.trusted[id] else ZERO_ADDRESS
  }

  /** The adaptor address table is keyed by `uint16`; a token is approved once. */
  function Exec(s: AdaptorState, tx: Tx): Option<AdaptorState> {
    match tx
    case SetAdaptorAddress(id, a) => if id <= UINT16_MAX then Some(s.(trusted := s.trusted[id := a])) else None
    case ApproveToken(id, t) => if (id, t) in s.valid then None else Some(s.(valid := s.valid + {(id, t)}))
  }

  function Run(s: AdaptorState, txs: seq<Tx>): Option<AdaptorState>
    decreases |txs|
  {
    if txs == [] then Some(s) else
      match Exec(s, txs[0])
      case None => None
      case Some(s1) => Run(s1, txs[1..])
  }

  predicate Selected(targets: Option<seq<Network>>, m: Network) {
    targets.None? || m in targets.value
  }

  /** What the callbacks of `syncCrossChainPool` do with one call. */
  function Handle(s: AdaptorState, targets: Option<seq<Network>>, v: Visit): Result<seq<Tx>> {
    if !Selected(targets, v.network) then Ok([]) else
      match v
      case VisitAdaptor(_, id, a) =>
        if Trusted(s, id) == ZERO_ADDRESS then Ok([SetAdaptorAddress(id, a)])
        else if Trusted(s, id) != a then Err
        else Ok([])
      case VisitToken(_, id, t) =>
        if (id, t) !in s.valid && id != 0 then Ok([ApproveToken(id, t)]) else Ok([])
  }

  function HandleAll(s: AdaptorState, targets: Option<seq<Network>>, vs: seq<Visit>): Result<seq<Tx>> {
    if vs == [] then Ok([]) else
      var first :- Handle(s, targets, vs[0]);
      var rest :- HandleAll(s, targets, vs[1..]);
      Ok(first + rest)
  }

  function PlanSync(c: Config, t: PoolType, n: Network, s: AdaptorState, targets: Option<seq<Network>>):
    Result<seq<Tx>>
  {
    var vs :- Visits(c, t, n);
    HandleAll(s, targets, vs)
  }

  method SyncCrossChainPool(c: Config, t: PoolType, n: Network, s: AdaptorState, targets: Option<seq<Network>>)
    returns (r: Result<seq<Tx>>)
    ensures r == PlanSync(c, t, n, s, targets)
  {
    hide Handle, Visits;
    var visits := LoopAdaptorInGroup(c, t, n);
    if visits.Err? {
      return Err;
    }
    var vs := visits.value;
    var txns: seq<Tx> := [];
    for i := 0 to |vs|
      invariant HandleAll(s, targets, vs[..i]) == Ok(txns)
    {
      HandleStep(s, targets, vs, i);
      var more := Handle(s, targets, vs[i]);
      if more.Err? {
        return Err;
      }
      txns := txns + more.value;
    }
    assert vs[..|vs|] == vs;
    return Ok(txns);
  }

  lemma {:induction false} HandleConcat(s: AdaptorState, targets: Option<seq<Network>>, a: seq<Visit>, b: seq<Visit>)
    ensures HandleAll(s, targets, a + b).Ok? <==> HandleAll(s, targets, a).Ok? && HandleAll(s, targets, b).Ok?
    ensures HandleAll(s, targets, a + b).Ok? ==>
              HandleAll(s, targets, a + b).value == HandleAll(s, targets, a).value + HandleAll(s, targets, b).value
  {
    hide Handle;
    if a == [] {
      assert a + b == b;
    } else {
      assert (a + b)[1..] == a[1..] + b;
      HandleConcat(s, targets, a[1..], b);
    }
  }

  lemma HandleStep(s: AdaptorState, targets: Option<seq<Network>>, vs: seq<Visit>, i: nat)
    requires i < |vs| && HandleAll(s, targets, vs[..i]).Ok?
    ensures Handle(s, targets, vs[i]).Ok? ==>
              HandleAll(s, targets, vs[..i + 1])
              == Ok(HandleAll(s, targets, vs[..i]).value + Handle(s, targets, vs[i]).value)
    ensures Handle(s, targets, vs[i]).Err? ==> HandleAll(s, targets, vs).Err?
  {
    hide Handle;
    assert vs[..i + 1] == vs[..i] + [vs[i]] && vs == vs[..i] + vs[i..] && vs[i..][0] == vs[i] && [vs[i]][1..] == [];
    HandleConcat(s, targets, vs[..i], [vs[i]]);
    HandleConcat(s, targets, vs[..i], vs[i..]);
    if Handle(s, targets, vs[i]).Ok? {
      assert Handle(s, targets, vs[i]).value + [] == Handle(s, targets, vs[i]).value;
    }
  }

  // ---------------------------------------------------------------------------------------------
  // What a synchronisation achieves
  // ---------------------------------------------------------------------------------------------

  /** The table has the right address for every adaptor to be trusted, and every token with a chain id is accepted. */
  ghost predicate TrustsAdaptors(s: AdaptorState, targets: Option<seq<Network>>, vs: seq<Visit>) {
    forall v :: v in vs && v.VisitAdaptor? && Selected(targets, v.network) ==> Trusted(s, v.chainId) == v.adaptor
  }

  ghost predicate AcceptsTokens(s: AdaptorState, targets: Option<seq<Network>>, vs: seq<Visit>) {
    forall v :: v in vs && v.VisitToken? && Selected(targets, v.network) && v.chainId != 0 ==>
                  (v.chainId, v.token) in s.valid
  }

  /** Adaptors that share a chain id share their address too, as when chain ids are distinct. */
  ghost predicate Compatible(targets: Option<seq<Network>>, vs: seq<Visit>) {
    forall v, w :: && v in vs && w in vs && v.VisitAdaptor? && w.VisitAdaptor?
                   && Selected(targets, v.network) && Selected(targets, w.network) && v.chainId == w.chainId
                   ==> v.adaptor == w.adaptor
  }

  /** The tokens to be approved, in order. */
  function Approvals(s: AdaptorState, targets: Option<seq<Network>>, vs: seq<Visit>): seq<(nat, Address)> {
    if vs == [] then [] else
      var v := vs[0];
      (if v.VisitToken? && Selected(targets, v.network) && v.chainId != 0 && (v.chainId, v.token) !in s.valid
       then [(v.chainId, v.token)] else [])
      + Approvals(s, targets, vs[1..])
  }

  lemma {:induction false} SyncOkIff(s: AdaptorState, targets: Option<seq<Network>>, vs: seq<Visit>)
    ensures HandleAll(s, targets, vs).Ok? <==>
            forall v :: v in vs && v.VisitAdaptor? && Selected(targets, v.network) ==>
              Trusted(s, v.chainId) == ZERO_ADDRESS || Trusted(s, v.chainId) == v.adaptor
  {
    if vs != [] {
      assert forall v :: v in vs <==> v == vs[0] || v in vs[1..];
      SyncOkIff(s, targets, vs[1..]);
    }
  }

  lemma RunCons(s: AdaptorState, first: seq<Tx>, rest: seq<Tx>)
    requires |first| <= 1
    ensures Run(s, first + rest) ==
            if first == [] then Run(s, rest)
            else match Exec(s, first[0]) case None => None case Some(s1) => Run(s1, rest)
  {
    if first == [] {
      assert first + rest == rest;
    } else {
      assert (first + rest)[1..] == rest;
    }
  }

  /** Executing on `s` the plan made on `s0`, adaptor by adaptor and token by token. */
  lemma {:induction false} SyncEffect(s0: AdaptorState, s: AdaptorState, targets: Option<seq<Network>>, vs: seq<Visit>)
    requires HandleAll(s0, targets, vs).Ok? && Run(s, HandleAll(s0, targets, vs).value).Some?
    requires s0.valid <= s.valid
    requires forall v :: v in vs && v.VisitAdaptor? && Selected(targets, v.network) ==>
               Trusted(s0, v.chainId) == ZERO_ADDRESS || Trusted(s, v.chainId) == v.adaptor
    ensures var s' := Run(s, HandleAll(s0, targets, vs).value).value;
            && AcceptsTokens(s', targets, vs)
            && s.valid <= s'.valid
            && (forall p :: p in s'.valid ==> p in s.valid || p in Approvals(s0, targets, vs))
            && (forall id :: Trusted(s', id) == Trusted(s, id)
                             || exists v :: v in vs && v.VisitAdaptor? && Selected(targets, v.network)
                                            && v.chainId == id && Trusted(s', id) == v.adaptor)
            && (Compatible(targets, vs) ==> TrustsAdaptors(s', targets, vs))
    decreases |vs|
  {
    if vs != [] {
      var v, rest := vs[0], vs[1..];
      assert forall w :: w in vs <==> w == v || w in rest;
      var first := Handle(s0, targets, v).value;
      RunCons(s, first, HandleAll(s0, targets, rest).value);
      var s1 := if first == [] then s else Exec(s, first[0]).value;
      SyncEffect(s0, s1, targets, rest);
    }
  }
}
