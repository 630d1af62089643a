/**
 From a plan to the chain and back: the transactions of a rewarder plan as `Safe` calls, encoded for the
 timelock, and decoded again.
 */
module Replay {
  import opened Base
  import opened Text
  import opened Codec
  import opened Timelock
  import opened Rewarders

  // ---------------------------------------------------------------------------------------------
  // Numbers
  // ---------------------------------------------------------------------------------------------

  const DIGITS: string := "0123456789"

  function Decimal(n: nat): (s: string)
    ensures s != "" && s[0] != '-' && ',' !in s
  {
    if n < 10 then [DIGITS[n]] else Decimal(n / 10) + [DIGITS[n % 10]]
  }

  /** `BigNumber.toString()` */
  function Print(n: int): string {
    if n < 0 then "-" + Decimal(-n) else Decimal(n)
  }

  function ReadDigits(s: string): nat {
    if s == "" then 0 else
      var last := s[|s| - 1];
      ReadDigits(s[..|s| - 1]) * 10 + (if '0' <= last <= '9' then (last - '0') as nat else 0)
  }

  function Read(s: string): int {
    if s != "" && s[0] == '-' then 0 - ReadDigits(s[1..]) else ReadDigits(s)
  }

  lemma {:induction false} ReadDecimal(n: nat)
    ensures ReadDigits(Decimal(n)) == n
  {
    assert forall d :: 0 <= d < 10 ==> '0' <= DIGITS[d] <= '9' && (DIGITS[d] - '0') as nat == d;
    if n < 10 {
      assert Decimal(n)[..0] == "";
    } else {
      ReadDecimal(n / 10);
      assert Decimal(n)[..|Decimal(n)| - 1] == Decimal(n / 10);
    }
  }

  lemma ReadPrint(n: int)
    ensures Read(Print(n)) == n
  {
    hide Decimal, ReadDigits;
    if n < 0 {
      ReadDecimal(-n);
      assert Print(n)[1..] == Decimal(-n);
    } else {
      ReadDecimal(n);
    }
  }

  // ---------------------------------------------------------------------------------------------
  // Transactions as calls
  // ---------------------------------------------------------------------------------------------

  const RATE: seq<Param> := [Param("_tokenId", "uint256", "uint256"), Param("_tokenPerSec", "uint96", "uint96")]
  const SET_RATE: Method := Method("setRewardRate(uint256,uint96)", RATE)
  const SET_RATE_V2: Method := Method(
    "setRewardRate(uint256,uint96,uint40)", RATE + [Param("_startTimestampToOverride", "uint40", "uint40")])
  const ADD_TOKEN: Method := Method(
    "addRewardToken(address,uint96)",
    [Param("_rewardToken", "address", "address"), Param("_tokenPerSec", "uint96", "uint96")])
  const TRANSFER: Method := Method(
    "transfer(address,uint256)", [Param("to", "address", "address"), Param("amount", "uint256", "uint256")])

  /** How addresses are written, and read back. */
  datatype Addresses = Addresses(show: Address -> string, read: string -> Option<Address>)
  {
    ghost predicate Faithful() {
      forall a: Address :: read(show(a)) == Some(a) && ',' !in show(a)
    }
  }

  function Target(names: Addresses, tx: Tx): string {
    match tx
    case SetRewardRate(r, _, _, _) => names.show(r)
    case AddRewardToken(r, _, _) => names.show(r)
    case Transfer(t, _, _) => names.show(t)
  }

  function MethodOf(tx: Tx): Method {
    match tx
    case SetRewardRate(_, _, _, start) => if start.Some? then SET_RATE_V2 else SET_RATE
    case AddRewardToken(_, _, _) => ADD_TOKEN
    case Transfer(_, _, _) => TRANSFER
  }

  function Texts(names: Addresses, tx: Tx): seq<string> {
    match tx
    case SetRewardRate(_, i, rate, start) =>
      [Print(i), Print(rate)] + (if start.Some? then [Print(start.value)] else [])
    case AddRewardToken(_, token, rate) => [names.show(token), Print(rate)]
    case Transfer(_, to, amount) => [names.show(to), Print(amount)]
  }

  function Plain(xs: seq<string>): seq<Value> {
    seq(|xs|, i requires 0 <= i < |xs| => Scalar(xs[i]))
  }

  /** `Safe(contract).method(...)` */
  function ToBatchTransaction(names: Addresses, tx: Tx): Result<BatchTransaction> {
    CreateTransaction(Target(names, tx), MethodOf(tx), Plain(Texts(names, tx)))
  }

  function ToBatch(names: Addresses, plan: seq<Tx>): Result<seq<BatchTransaction>> {
    if plan == [] then Ok([]) else
      var first :- ToBatchTransaction(names, plan[0]);
      var rest :- ToBatch(names, plan[1..]);
      Ok([first] + rest)
  }

  /** What a call to an address means. */
  function Interpret(names: Addresses, to: string, call: Call): Option<Tx> {
    var args := call.args;
    if names.read(to).None? || exists a :: a in args && a.Many? then None else
      var target := names.read(to).value;
      if call.name == SET_RATE.name && |args| == 2 && Read(args[0].text) >= 0 then
        Some(SetRewardRate(target, Read(args[0].text), Read(args[1].text), None))
      else if call.name == SET_RATE_V2.name && |args| == 3 && Read(args[0].text) >= 0 && Read(args[2].text) >= 0 then
        Some(SetRewardRate(target, Read(args[0].text), Read(args[1].text), Some(Read(args[2].text))))
      else if call.name == ADD_TOKEN.name && |args| == 2 && names.read(args[0].text).Some? then
        Some(AddRewardToken(target, names.read(args[0].text).value, Read(args[1].text)))
      else if call.name == TRANSFER.name && |args| == 2 && names.read(args[0].text).Some? then
        Some(Transfer(target, names.read(args[0].text).value, Read(args[1].text)))
      else None
  }

  predicate PlainMethod(m: Method) {
    forall p :: p in m.inputs ==> Supported(p) && p.baseType != "array"
  }

  lemma PlainMethods(tx: Tx)
    ensures DistinctNames(MethodOf(tx)) && PlainMethod(MethodOf(tx))
  {
    assert !IsArrayType("uint256") && !IsArrayType("uint96") && !IsArrayType("uint40") && !IsArrayType("address");
    assert |"_tokenId"| == 8 && |"_tokenPerSec"| == 12 && |"_startTimestampToOverride"| == 25;
    assert "_rewardToken"[1] == 'r' && "_tokenPerSec"[1] == 't' && |"to"| == 2 && |"amount"| == 6;
  }

  lemma MethodNamesDiffer()
    ensures SET_RATE.name != SET_RATE_V2.name && SET_RATE.name != ADD_TOKEN.name && SET_RATE.name != TRANSFER.name
    ensures SET_RATE_V2.name != ADD_TOKEN.name && SET_RATE_V2.name != TRANSFER.name && ADD_TOKEN.name != TRANSFER.name
  {
    assert |SET_RATE.name| == 29 && |SET_RATE_V2.name| == 36 && |ADD_TOKEN.name| == 30 && |TRANSFER.name| == 25;
  }

  function Ones(xs: seq<string>): seq<Decoded> {
    seq(|xs|, i requires 0 <= i < |xs| => One(xs[i]))
  }

  /** What a transaction is printed as: to which contract, which function of it, and with which arguments. */
  lemma PrintedCall(names: Addresses, tx: Tx)
    ensures ToBatchTransaction(names, tx).Ok? && EncodeData(ToBatchTransaction(names, tx).value).Ok?
    ensures var txn := ToBatchTransaction(names, tx).value;
            var call := EncodeData(txn).value;
            && txn.value == "0"
            && match tx
               case SetRewardRate(r, i, rate, None) =>
                 && txn.to == names.show(r) && call.name == "setRewardRate(uint256,uint96)"
                 && call.args == [One(Print(i)), One(Print(rate))]
               case SetRewardRate(r, i, rate, Some(start)) =>
                 && txn.to == names.show(r) && call.name == "setRewardRate(uint256,uint96,uint40)"
                 && call.args == [One(Print(i)), One(Print(rate)), One(Print(start))]
               case AddRewardToken(r, token, rate) =>
                 && txn.to == names.show(r) && call.name == "addRewardToken(address,uint96)"
                 && call.args == [One(names.show(token)), One(Print(rate))]
               case Transfer(token, to, amount) =>
                 && txn.to == names.show(token) && call.name == "transfer(address,uint256)"
                 && call.args == [One(names.show(to)), One(Print(amount))]
  {
    CallOf(names, tx);
    hide ToBatchTransaction, EncodeData, Print;
    var args := Ones(Texts(names, tx));
    match tx
    case SetRewardRate(r, i, rate, None) => assert args == [One(Print(i)), One(Print(rate))];
    case SetRewardRate(r, i, rate, Some(start)) =>
      assert args == [One(Print(i)), One(Print(rate)), One(Print(start))];
    case AddRewardToken(r, token, rate) => assert args == [One(names.show(token)), One(Print(rate))];
    case Transfer(token, to, amount) => assert args == [One(names.show(to)), One(Print(amount))];
  }

  lemma CallOf(names: Addresses, tx: Tx)
    ensures ToBatchTransaction(names, tx).Ok?
    ensures var txn := ToBatchTransaction(names, tx).value;
            && txn.to == Target(names, tx) && txn.value == "0"
            && EncodeData(txn) == Ok(Call(MethodOf(tx).name, Ones(Texts(names, tx))))
  {
    var m, texts := MethodOf(tx), Texts(names, tx);
    PlainMethods(tx);
    hide DistinctNames, EncodeData, Supported;
    assert |texts| == |m.inputs|;
    DistinctNamesRoundTrip(Target(names, tx), m, Plain(texts));
    assert AllIntended(Plain(texts)) == Ones(texts);
  }

  lemma InterpretCall(names: Addresses, tx: Tx)
    requires names.Faithful()
    ensures Interpret(names, Target(names, tx), Call(MethodOf(tx).name, Ones(Texts(names, tx)))) == Some(tx)
  {
    hide Print, Read;
    MethodNamesDiffer();
    var args := Ones(Texts(names, tx));
    assert forall a :: a in args ==> a.One?;
    match tx
    case SetRewardRate(r, i, rate, start) =>
      ReadPrint(i);
      ReadPrint(rate);
      if start.Some? {
        ReadPrint(start.value);
      }
    case AddRewardToken(r, token, rate) => ReadPrint(rate);
    case Transfer(t, to, amount) => ReadPrint(amount);
  }

  // ---------------------------------------------------------------------------------------------
  // Through the timelock
  // ---------------------------------------------------------------------------------------------

  /** The ABI encoder: hex, hence without commas, and decodable. */
  ghost predicate Encodes(abi: Call -> string, unabi: string -> Option<Call>) {
    forall call :: unabi(abi(call)) == Some(call) && ',' !in abi(call)
  }

  /** The transactions a timelock call carries; None when its arguments do not describe any. */
  function Unpack(names: Addresses, unabi: string -> Option<Call>, targets: seq<string>, payloads: seq<string>):
    Option<seq<Tx>>
  {
    if |targets| != |payloads| then None
    else if targets == [] then Some([])
    else
      match unabi(payloads[0])
      case None => None
      case Some(call) =>
        match (Interpret(names, targets[0], call), Unpack(names, unabi, targets[1..], payloads[1..]))
        case (Some(tx), Some(rest)) => Some([tx] + rest)
        case _ => None
  }

  lemma {:induction false} BatchContents(
    names: Addresses, abi: Call -> string, unabi: string -> Option<Call>, plan: seq<Tx>)
    requires names.Faithful() && Encodes(abi, unabi)
    ensures ToBatch(names, plan).Ok? && |ToBatch(names, plan).value| == |plan|
    ensures var txns := ToBatch(names, plan).value;
            && CommaFree(Targets(txns)) && CommaFree(CallValues(txns))
            && (forall txn :: txn in txns ==> EncodeData(txn).Ok?)
            && Payloads(abi, txns).Ok?
            && Unpack(names, unabi, Targets(txns), Payloads(abi, txns).value) == Some(plan)
  {
    hide EncodeData, ToBatchTransaction, Interpret, Target;
    if plan != [] {
      var tx := plan[0];
      BatchContents(names, abi, unabi, plan[1..]);
      CallOf(names, tx);
      InterpretCall(names, tx);
      TargetCommaFree(names, tx);
      var first, rest := ToBatchTransaction(names, tx).value, ToBatch(names, plan[1..]).value;
      var txns := ToBatch(names, plan).value;
      assert txns == [first] + rest && txns[0] == first && txns[1..] == rest;
      assert Targets(txns) == [first.to] + Targets(rest);
      assert CallValues(txns) == ["0"] + CallValues(rest);
      PayloadsIff(abi, txns);
      var call := Call(MethodOf(tx).name, Ones(Texts(names, tx)));
      assert Payloads(abi, txns).value == [abi(call)] + Payloads(abi, rest).value;
      UnpackCons(names, unabi, first.to, abi(call), Targets(rest), Payloads(abi, rest).value, tx, plan[1..]);
      assert plan == [tx] + plan[1..];
    }
  }

  lemma UnpackCons(
    names: Addresses, unabi: string -> Option<Call>, to: string, payload: string,
    targets: seq<string>, payloads: seq<string>, tx: Tx, rest: seq<Tx>)
    requires unabi(payload).Some? && Interpret(names, to, unabi(payload).value) == Some(tx)
    requires Unpack(names, unabi, targets, payloads) == Some(rest)
    ensures Unpack(names, unabi, [to] + targets, [payload] + payloads) == Some([tx] + rest)
  {
    hide Interpret;
    assert ([to] + targets)[1..] == targets && ([payload] + payloads)[1..] == payloads;
  }

  lemma TargetCommaFree(names: Addresses, tx: Tx)
    requires names.Faithful()
    ensures ',' !in Target(names, tx)
  {
  }

  /**
   Replay: any non-empty rewarder plan, turned into `Safe` calls and wrapped for the timelock, is read back
   from either transaction to the timelock controller, transaction for transaction, so what is executed is what
   was planned.
   */
  lemma TimelockReplaysPlan(
    names: Addresses, abi: Call -> string, unabi: string -> Option<Call>,
    controller: string, salt: string, delay: string, plan: seq<Tx>)
    requires names.Faithful() && Encodes(abi, unabi) && plan != []
    ensures ToBatch(names, plan).Ok?
    ensures var txns := ToBatch(names, plan).value;
            && ScheduleTimelock(abi, controller, txns, salt, delay).Ok?
            && ExecuteTimelock(abi, controller, txns, salt).Ok?
            && var schedule := ScheduleTimelock(abi, controller, txns, salt, delay).value;
               var execute := ExecuteTimelock(abi, controller, txns, salt).value;
               && schedule.to == execute.to == controller && schedule.value == execute.value == "0"
               && EncodeData(schedule).Ok? && EncodeData(execute).Ok?
               && var scheduled, executed := EncodeData(schedule).value, EncodeData(execute).value;
                  && scheduled.name == "scheduleBatch(address[],uint256[],bytes[],bytes32,bytes32,uint256)"
                  && executed.name == "executeBatch(address[],uint256[],bytes[],bytes32,bytes32)"
                  && |executed.args| == 5 && |scheduled.args| == 6 && executed.args == scheduled.args[..5]
                  && executed.args[0].Many? && executed.args[2].Many?
                  && Unpack(names, unabi, executed.args[0].items, executed.args[2].items) == Some(plan)
  {
    BatchContents(names, abi, unabi, plan);
    hide EncodeData, ToBatchTransaction, Interpret, Target, CreateTransaction, CarriesBatch, Payloads;
    hide ScheduleTimelock, ExecuteTimelock;
    var txns := ToBatch(names, plan).value;
    NoCommas(txns);
    TimelockAgreement(abi, controller, txns, salt, delay);
    var args := EncodeData(ExecuteTimelock(abi, controller, txns, salt).value).value.args;
    CarriedItems(abi, txns, args);
  }

  lemma NoCommas(txns: seq<BatchTransaction>)
    requires CommaFree(Targets(txns)) && CommaFree(CallValues(txns))
    ensures forall txn :: txn in txns ==> ',' !in txn.to && ',' !in txn.value
  {
    forall i | 0 <= i < |txns| ensures ',' !in txns[i].to && ',' !in txns[i].value {
      assert Targets(txns)[i] in Targets(txns) && CallValues(txns)[i] in CallValues(txns);
    }
  }

  lemma CarriedItems(abi: Call -> string, txns: seq<BatchTransaction>, args: seq<Decoded>)
    requires |args| >= 3 && CarriesBatch(abi, txns, args) && Payloads(abi, txns).Ok?
    ensures args[0] == Many(Targets(txns)) && args[2] == Many(Payloads(abi, txns).value)
  {
    PayloadsIff(abi, txns);
    hide EncodeData;
    assert args[0].items == Targets(txns) && args[2].items == Payloads(abi, txns).value;
  }
}
