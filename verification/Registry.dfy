/**
 The token registry: `getTokenDeploymentOrAddress` writes the requested network into the shared entry it
 returns, and `getAddress` reads it from there.
 */
module Registry {
  import opened Base

  type Token = nat
  type Network = string

  /** `isAddress` tells whether the literal is an address at all. */
  datatype Kind = Deployment(name: string) | Literal(address: string, isAddress: bool) | Unknown

  /** An entry as it is at one moment. */
  datatype EntryState = EntryState(kind: Kind, network: Option<Network>)

  type Snapshot = map<(Token, Network), EntryState>

  /** One lookup: the network asked for, if any, and the current network at the time. */
  datatype Query = Query(token: Token, network: Option<Network>, current: Network)

  const HARDHAT: Network := "hardhat"
  const LOCALHOST: Network := "localhost"

  /** What `getAddress` then looks up: an address as it stands, or a deployment by name. */
  datatype Resolved = Address(address: string) | Named(deployment: string)

  function Key(q: Query): (Token, Network) {
    (q.token, if q.network.Some? then q.network.value else q.current)
  }

  /** `getTokenDeploymentOrAddress`: the entry as returned, after it has been stamped with the network asked for. */
  function Stamped(e: EntryState, q: Query): EntryState {
    if q.network.Some? && e.kind.Deployment? then e.(network := q.network) else e
  }

  /** What a lookup leaves in the registry. */
  function Look(reg: Snapshot, q: Query): Snapshot {
    if Key(q) in reg then reg[Key(q) := Stamped(reg[Key(q)], q)] else reg
  }

  function LookAll(reg: Snapshot, history: seq<Query>): Snapshot {
    if history == [] then reg else LookAll(Look(reg, history[0]), history[1..])
  }

  function PathJoin(network: Network, name: string): string {
    network + "/" + name
  }

  /** `getAddress`, up to reading the deployment. */
  function GetAddress(e: EntryState, current: Network): Result<Resolved> {
    match e.kind
    case Literal(address, isAddress) => if isAddress then Ok(Address(address)) else Err
    case Deployment(name) =>
      var network := if e.network.Some? then e.network.value else current;
      Ok(Named(if network in {HARDHAT, LOCALHOST} || network == current then name else PathJoin(network, name)))
    case Unknown => Err
  }

  /** Looking a token up and resolving what comes back. */
  function Resolve(reg: Snapshot, q: Query): Result<Resolved> {
    if Key(q) in reg then GetAddress(Stamped(reg[Key(q)], q), q.current) else Err
  }

  /** The entries stored in the registry, shared by everyone who has looked them up. */
  class Entry {
    const kind: Kind
    var network: Option<Network>

    constructor (kind: Kind, network: Option<Network>)
      ensures this.kind == kind && this.network == network
    {
      this.kind, this.network := kind, network;
    }

    function State(): EntryState
      reads this
    {
      EntryState(kind, network)
    }
  }

  class TokenRegistry {
    const entries: map<(Token, Network), Entry>

    /** No entry is stored under two keys. */
    ghost predicate Valid() {
      forall k, l :: k in entries && l in entries && k != l ==> entries[k] != entries[l]
    }

    ghost function View(): (reg: Snapshot)
      reads entries.Values
    {
      map k | k in entries :: entries[k].State()
    }

    constructor (entries: map<(Token, Network), Entry>)
      ensures this.entries == entries
    {
      this.entries := entries;
    }

    method GetTokenDeploymentOrAddress(q: Query) returns (r: Result<Entry>)
      requires Valid()
      modifies entries.Values
      ensures View() == Look(old(View()), q)
      ensures r.Ok? <==> Key(q) in entries
      ensures r.Ok? ==> r.value == entries[Key(q)] && r.value.State() == Stamped(old(r.value.State()), q)
    {
      var key := Key(q);
      if key !in entries {
        return Err;
      }
      var deploymentOrAddress := entries[key];
      if q.network.Some? && deploymentOrAddress.kind.Deployment? {
        deploymentOrAddress.network := q.network;
      }
      forall k | k in entries ensures View()[k] == Look(old(View()), q)[k] {}
      return Ok(deploymentOrAddress);
    }

    method GetTokenAddress(q: Query) returns (r: Result<Resolved>)
      requires Valid()
      modifies entries.Values
      ensures r == Resolve(old(View()), q) && View() == Look(old(View()), q)
    {
      var found := GetTokenDeploymentOrAddress(q);
      if found.Err? {
        return Err;
      }
      return GetAddress(found.value.State(), q.current);
    }
  }

  // ---------------------------------------------------------------------------------------------
  // History independence
  // ---------------------------------------------------------------------------------------------

  /** An entry's network is unset, its own key, or a development network, which resolves without a prefix. */
  predicate Unmarked(reg: Snapshot, k: (Token, Network))
    requires k in reg
  {
    reg[k].kind.Deployment? ==> reg[k].network in {None, Some(k.1), Some(HARDHAT), Some(LOCALHOST)}
  }

  ghost predicate AllUnmarked(reg: Snapshot) {
    forall k :: k in reg ==> Unmarked(reg, k)
  }

  /** Whatever has been looked up before, a lookup resolves to the same thing. */
  ghost predicate HistoryFree(reg: Snapshot) {
    forall history, q :: Resolve(LookAll(reg, history), q) == Resolve(reg, q)
  }

  /** The name as a function of what is asked for, with no registry state in it. */
  function NameFor(kind: Kind, q: Query): Result<Resolved> {
    match kind
    case Literal(address, isAddress) => if isAddress then Ok(Address(address)) else Err
    case Deployment(name) =>
      var network := if q.network.Some? then q.network.value else q.current;
      Ok(Named(if network in {"hardhat", "localhost", q.current} then name else network + "/" + name))
    case Unknown => Err
  }

  /** Lookups change no kind, lose no entry and leave every network as it was or equal to the entry's own key. */
  lemma {:induction false} LookAllEffect(reg: Snapshot, history: seq<Query>)
    ensures var reg' := LookAll(reg, history);
            && reg'.Keys == reg.Keys
            && forall k :: k in reg ==>
                 reg'[k].kind == reg[k].kind && (reg'[k].network == reg[k].network || reg'[k].network == Some(k.1))
    decreases |history|
  {
    if history != [] {
      LookAllEffect(Look(reg, history[0]), history[1..]);
    }
  }

  lemma UnmarkedResolves(reg: Snapshot, q: Query)
    requires AllUnmarked(reg) && Key(q) in reg
    ensures Resolve(reg, q) == NameFor(reg[Key(q)].kind, q)
  {
    assert Unmarked(reg, Key(q));
  }

  lemma LookAllKeepsUnmarked(reg: Snapshot, history: seq<Query>)
    requires AllUnmarked(reg)
    ensures AllUnmarked(LookAll(reg, history))
  {
    LookAllEffect(reg, history);
    var reg' := LookAll(reg, history);
    forall k | k in reg' ensures Unmarked(reg', k) {
      assert Unmarked(reg, k);
    }
  }

  /** A foreign network in an entry shows until the first lookup that names the entry's own. */
  lemma MarkedDependsOnHistory(reg: Snapshot, k: (Token, Network))
    requires k in reg && !Unmarked(reg, k)
    ensures !HistoryFree(reg)
  {
    var naming, plain := Query(k.0, Some(k.1), k.1), Query(k.0, None, k.1);
    var name, foreign := reg[k].kind.name, reg[k].network.value;
    assert LookAll(reg, [naming]) == Look(reg, naming) by {
      assert [naming][1..] == [];
    }
    assert Resolve(reg, plain) == Ok(Named(PathJoin(foreign, name)));
    assert Resolve(LookAll(reg, [naming]), plain) == Ok(Named(name));
    assert |PathJoin(foreign, name)| > |name|;
  }

  /**
   Registry history independence: resolution never depends on earlier lookups exactly when every deployment
   entry's network is initially unset, its own key or a development network; then the name is a function of
   the entry's kind, the network asked for and the current network.
   */
  lemma HistoryFreeIff(reg: Snapshot)
    ensures HistoryFree(reg) <==> AllUnmarked(reg)
    ensures AllUnmarked(reg) ==>
              forall history, q: Query ::
                var k := (q.token, if q.network.Some? then q.network.value else q.current);
                Resolve(LookAll(reg, history), q) == if k in reg then NameFor(reg[k].kind, q) else Err
  {
    if AllUnmarked(reg) {
      forall history, q
        ensures Resolve(LookAll(reg, history), q) == Resolve(reg, q)
        ensures Resolve(LookAll(reg, history), q) == if Key(q) in reg then NameFor(reg[Key(q)].kind, q) else Err
      {
        LookAllEffect(reg, history);
        LookAllKeepsUnmarked(reg, history);
        if Key(q) in reg {
          UnmarkedResolves(reg, q);
          UnmarkedResolves(LookAll(reg, history), q);
        }
      }
    } else {
      var k :| k in reg && !Unmarked(reg, k);
      MarkedDependsOnHistory(reg, k);
    }
  }
}
