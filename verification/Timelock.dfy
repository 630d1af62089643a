/** `scheduleTimelock` and `executeTimelock`: one batch wrapped, call by call, into two timelock transactions. */
module Timelock {
  import opened Base
  import opened Text
  import opened Codec

  /** `ethers.constants.HashZero` */
  const HASH_ZERO: string := "0x0000000000000000000000000000000000000000000000000000000000000000"

  const ARRAYS: seq<Param> := [
    Param("targets", "address[]", "array"), Param("values", "uint256[]", "array"),
    Param("payloads", "bytes[]", "array")]
  const IDS: seq<Param> := [Param("predecessor", "bytes32", "bytes32"), Param("salt", "bytes32", "bytes32")]

  const EXECUTE: Method := Method("executeBatch(address[],uint256[],bytes[],bytes32,bytes32)", ARRAYS + IDS)
  const SCHEDULE: Method := Method(
    "scheduleBatch(address[],uint256[],bytes[],bytes32,bytes32,uint256)", ARRAYS + IDS + [DELAY])

  function Targets(txns: seq<BatchTransaction>): seq<string> {
    seq(|txns|, i requires 0 <= i < |txns| => txns[i].to)
  }

  function CallValues(txns: seq<BatchTransaction>): seq<string> {
    seq(|txns|, i requires 0 <= i < |txns| => txns[i].value)
  }

  /** `encodeData` of every transaction; `abi` is the ABI encoding of a call, as a hex string. */
  function Payloads(abi: Call -> string, txns: seq<BatchTransaction>): Result<seq<string>> {
    if txns == [] then Ok([]) else
      var first :- EncodeData(txns[0]);
      var rest :- Payloads(abi, txns[1..]);
      Ok([abi(first)] + rest)
  }

  function Scalars(xs: seq<string>): Value {
    Array(seq(|xs|, i requires 0 <= i < |xs| => Scalar(xs[i])))
  }

  /** The arguments both timelock calls start with. */
  function BatchArgs(txns: seq<BatchTransaction>, payloads: seq<string>, salt: string): seq<Value> {
    [Scalars(Targets(txns)), Scalars(CallValues(txns)), Scalars(payloads), Scalar(HASH_ZERO), Scalar(salt)]
  }

  function ExecuteTimelock(abi: Call -> string, controller: string, txns: seq<BatchTransaction>, salt: string):
    Result<BatchTransaction>
  {
    var payloads :- Payloads(abi, txns);
    CreateTransaction(controller, EXECUTE, BatchArgs(txns, payloads, salt))
  }

  function ScheduleTimelock(
    abi: Call -> string, controller: string, txns: seq<BatchTransaction>, salt: string, delay: string):
    Result<BatchTransaction>
  {
    var payloads :- Payloads(abi, txns);
    CreateTransaction(controller, SCHEDULE, BatchArgs(txns, payloads, salt) + [Scalar(delay)])
  }

  lemma {:induction false} PayloadsIff(abi: Call -> string, txns: seq<BatchTransaction>)
    ensures Payloads(abi, txns).Ok? <==> forall txn :: txn in txns ==> EncodeData(txn).Ok?
    ensures Payloads(abi, txns).Ok? ==>
              && |Payloads(abi, txns).value| == |txns|
              && forall i :: 0 <= i < |txns| ==>
                   EncodeData(txns[i]).Ok? && Payloads(abi, txns).value[i] == abi(EncodeData(txns[i]).value)
  {
    hide EncodeData;
    if txns != [] {
      assert forall txn :: txn in txns <==> txn == txns[0] || txn in txns[1..];
      PayloadsIff(abi, txns[1..]);
    }
  }

  lemma StringsOfScalars(xs: seq<string>)
    ensures Strings(Scalars(xs).items) == xs
  {
  }

  /** How an array parameter reads back. */
  function ReadArray(xs: seq<string>): Decoded {
    Many(Split(',', Join(',', xs)))
  }

  lemma ArrayParam(typ: string, xs: seq<string>)
    requires IsArrayType(typ)
    ensures EncodeParam("array", Scalars(xs)).Ok?
    ensures DecodeParam(typ, EncodeParam("array", Scalars(xs)).value) == Ok(ReadArray(xs))
    ensures CommaFree(xs) ==> (ReadArray(xs) == Many(xs) <==> xs != [])
  {
    StringsOfScalars(xs);
    InnerOfBrackets(Join(',', xs));
    if CommaFree(xs) {
      ParsePrint(xs, typ);
    }
  }

  lemma ScalarParam(p: Param, text: string)
    requires Supported(p) && p.baseType != "array"
    ensures EncodeParam(p.baseType, Scalar(text)) == Ok(text) && DecodeParam(p.typ, text) == Ok(One(text))
  {
  }

  /** Argument `v`, printed for parameter `p`, reads back as `d`. */
  predicate ReadsAs(p: Param, v: Value, d: Decoded) {
    EncodeParam(p.baseType, v).Ok? && DecodeParam(p.typ, EncodeParam(p.baseType, v).value) == Ok(d)
  }

  /** A call reads back argument by argument. */
  lemma ReadsBack(to: string, m: Method, args: seq<Value>, decoded: seq<Decoded>)
    requires |args| == |m.inputs| == |decoded| > 0
    requires forall i :: 0 <= i < |args| ==> ReadsAs(m.inputs[i], args[i], decoded[i])
    requires DistinctNames(m) && forall p :: p in m.inputs ==> Supported(p)
    ensures CreateTransaction(to, m, args).Ok?
    ensures CreateTransaction(to, m, args).value.to == to && CreateTransaction(to, m, args).value.value == "0"
    ensures EncodeData(CreateTransaction(to, m, args).value) == Ok(Call(m.name, decoded))
  {
    CreatedFor(to, m, args);
    hide EncodeParam, DecodeParam, Supported, EncodeData, CreateTransaction;
    assert forall i :: 0 <= i < |args| ==> EncodeParam(m.inputs[i].baseType, args[i]).Ok? by {
      forall i | 0 <= i < |args| ensures EncodeParam(m.inputs[i].baseType, args[i]).Ok? {
        assert ReadsAs(m.inputs[i], args[i], decoded[i]);
      }
    }
    var _ := DecodedAt(to, m, args, 0);
    var call := EncodeData(CreateTransaction(to, m, args).value).value;
    forall i | 0 <= i < |args| ensures call.args[i] == decoded[i] {
      assert ReadsAs(m.inputs[i], args[i], decoded[i]);
      var j := DecodedAt(to, m, args, i);
      assert j == i;
    }
    assert call.args == decoded;
  }

  /** The five arguments, read back from either call. */
  function Decode(txns: seq<BatchTransaction>, payloads: seq<string>, salt: string): seq<Decoded> {
    [ReadArray(Targets(txns)), ReadArray(CallValues(txns)), ReadArray(payloads), One(HASH_ZERO), One(salt)]
  }

  const DELAY: Param := Param("delay", "uint256", "uint256")

  lemma TimelockMethods()
    ensures EXECUTE.inputs == [ARRAYS[0], ARRAYS[1], ARRAYS[2], IDS[0], IDS[1]]
    ensures SCHEDULE.inputs == [ARRAYS[0], ARRAYS[1], ARRAYS[2], IDS[0], IDS[1], DELAY]
    ensures DistinctNames(EXECUTE) && DistinctNames(SCHEDULE)
    ensures forall p :: p in ARRAYS ==> Supported(p) && IsArrayType(p.typ) && p.baseType == "array"
    ensures forall p :: p in IDS + [DELAY] ==> Supported(p) && p.baseType != "array"
  {
    assert |"targets"| == 7 && |"values"| == 6 && |"payloads"| == 8;
    assert |"predecessor"| == 11 && |"salt"| == 4 && |"delay"| == 5;
    assert SCHEDULE.inputs == EXECUTE.inputs + [DELAY];
    assert IsArrayType("address[]") && IsArrayType("uint256[]") && IsArrayType("bytes[]");
    assert !IsArrayType("bytes32") && !IsArrayType("uint256");
  }

  lemma BatchReadsAs(txns: seq<BatchTransaction>, payloads: seq<string>, salt: string)
    ensures var args, decoded := BatchArgs(txns, payloads, salt), Decode(txns, payloads, salt);
            forall i :: 0 <= i < 5 ==> ReadsAs(EXECUTE.inputs[i], args[i], decoded[i])
  {
    hide EncodeParam, DecodeParam, Supported, IsArrayType, ReadArray, DistinctNames;
    TimelockMethods();
    var ps := EXECUTE.inputs;
    assert ps[0] in ARRAYS && ps[1] in ARRAYS && ps[2] in ARRAYS && ps[3] in IDS + [DELAY] && ps[4] in IDS + [DELAY];
    ArrayParam(ps[0].typ, Targets(txns));
    ArrayParam(ps[1].typ, CallValues(txns));
    ArrayParam(ps[2].typ, payloads);
    ScalarParam(ps[3], HASH_ZERO);
    ScalarParam(ps[4], salt);
  }

  lemma ExecuteReadsBack(controller: string, txns: seq<BatchTransaction>, payloads: seq<string>, salt: string)
    ensures var txn := CreateTransaction(controller, EXECUTE, BatchArgs(txns, payloads, salt));
            && txn.Ok? && txn.value.to == controller && txn.value.value == "0"
            && EncodeData(txn.value) == Ok(Call(EXECUTE.name, Decode(txns, payloads, salt)))
  {
    hide Supported, ReadsAs, EncodeData, CreateTransaction, DistinctNames;
    TimelockMethods();
    BatchReadsAs(txns, payloads, salt);
    assert forall p :: p in EXECUTE.inputs ==> p in ARRAYS || p in IDS + [DELAY];
    ReadsBack(controller, EXECUTE, BatchArgs(txns, payloads, salt), Decode(txns, payloads, salt));
  }

  lemma ScheduleReadsBack(
    controller: string, txns: seq<BatchTransaction>, payloads: seq<string>, salt: string, delay: string)
    ensures var txn := CreateTransaction(controller, SCHEDULE, BatchArgs(txns, payloads, salt) + [Scalar(delay)]);
            && txn.Ok? && txn.value.to == controller && txn.value.value == "0"
            && EncodeData(txn.value) == Ok(Call(SCHEDULE.name, Decode(txns, payloads, salt) + [One(delay)]))
  {
    hide Supported, ReadsAs, EncodeData, CreateTransaction, DistinctNames;
    TimelockMethods();
    BatchReadsAs(txns, payloads, salt);
    DelayReadsAs(delay);
    assert forall p :: p in SCHEDULE.inputs ==> p in ARRAYS || p in IDS + [DELAY];
    var args, decoded := BatchArgs(txns, payloads, salt), Decode(txns, payloads, salt);
    forall i | 0 <= i < 6
      ensures ReadsAs(SCHEDULE.inputs[i], (args + [Scalar(delay)])[i], (decoded + [One(delay)])[i])
    {
      if i < 5 {
        assert SCHEDULE.inputs[i] == EXECUTE.inputs[i];
      }
    }
    ReadsBack(controller, SCHEDULE, args + [Scalar(delay)], decoded + [One(delay)]);
  }

  lemma DelayReadsAs(delay: string)
    ensures ReadsAs(DELAY, Scalar(delay), One(delay))
  {
    TimelockMethods();
    ScalarParam(DELAY, delay);
  }

  lemma TimelockNames()
    ensures |SCHEDULE.inputs| == 6 && |EXECUTE.inputs| == 5
    ensures var names := ["targets", "values", "payloads", "predecessor", "salt", "delay"];
            && (forall i :: 0 <= i < 6 ==> SCHEDULE.inputs[i].name == names[i])
            && (forall i :: 0 <= i < 5 ==> EXECUTE.inputs[i].name == names[i])
  {
    TimelockMethods();
    hide DistinctNames, Supported, IsArrayType;
  }

  /** How the arguments of either call are printed. */
  function Shown(txns: seq<BatchTransaction>, payloads: seq<string>, salt: string, delay: string): seq<string> {
    [PrintList(Targets(txns)), PrintList(CallValues(txns)), PrintList(payloads), HASH_ZERO, salt, delay]
  }

  lemma PrintsAs(txns: seq<BatchTransaction>, payloads: seq<string>, salt: string, delay: string, i: nat)
    requires i < 6
    ensures |SCHEDULE.inputs| == 6
    ensures var args, shown := BatchArgs(txns, payloads, salt) + [Scalar(delay)], Shown(txns, payloads, salt, delay);
            EncodeParam(SCHEDULE.inputs[i].baseType, args[i]) == Ok(shown[i])
  {
    TimelockMethods();
    hide DistinctNames, IsArrayType;
    StringsOfScalars(Targets(txns));
    StringsOfScalars(CallValues(txns));
    StringsOfScalars(payloads);
    assert SCHEDULE.inputs[i] in if i < 3 then ARRAYS else IDS + [DELAY];
    hide Targets, CallValues, Strings;
    PrintedAs(SCHEDULE.inputs[i].baseType, (BatchArgs(txns, payloads, salt) + [Scalar(delay)])[i]);
  }

  /** What those who sign are shown: the arguments, printed, under the names the controller gives its parameters. */
  lemma TimelockShows(
    abi: Call -> string, controller: string, txns: seq<BatchTransaction>, salt: string, delay: string, i: nat)
    requires Payloads(abi, txns).Ok? && i < 6
    ensures var name := ["targets", "values", "payloads", "predecessor", "salt", "delay"][i];
            var shown := Shown(txns, Payloads(abi, txns).value, salt, delay)[i];
            var schedule := ScheduleTimelock(abi, controller, txns, salt, delay);
            var execute := ExecuteTimelock(abi, controller, txns, salt);
            && schedule.Ok? && schedule.value.contractInputsValues.Some?
            && execute.Ok? && execute.value.contractInputsValues.Some?
            && name in schedule.value.contractInputsValues.value
            && schedule.value.contractInputsValues.value[name] == shown
            && (i < 5 ==>
                  && name in execute.value.contractInputsValues.value
                  && execute.value.contractInputsValues.value[name] == shown)
  {
    var payloads := Payloads(abi, txns).value;
    var args := BatchArgs(txns, payloads, salt);
    TimelockMethods();
    TimelockNames();
    forall j | 0 <= j < 6 ensures EncodeParam(SCHEDULE.inputs[j].baseType, (args + [Scalar(delay)])[j]).Ok? {
      PrintsAs(txns, payloads, salt, delay, j);
    }
    PrintsAs(txns, payloads, salt, delay, i);
    assert forall j :: 0 <= j < 5 ==> SCHEDULE.inputs[j] == EXECUTE.inputs[j];
    hide EncodeParam, DistinctNames, BatchArgs, Shown, Supported, IsArrayType;
    RecordedUnderName(controller, SCHEDULE, args + [Scalar(delay)], i);
    RecordedUnderName(controller, EXECUTE, args, if i < 5 then i else 0);
  }

  /** Every decoded entry is that of its transaction. */
  ghost predicate CarriesBatch(abi: Call -> string, txns: seq<BatchTransaction>, args: seq<Decoded>)
    requires |args| >= 3
  {
    && args[0].Many? && args[1].Many? && args[2].Many?
    && |args[0].items| == |args[1].items| == |args[2].items| == |txns|
    && forall i :: 0 <= i < |txns| ==>
         && args[0].items[i] == txns[i].to && args[1].items[i] == txns[i].value
         && EncodeData(txns[i]).Ok? && args[2].items[i] == abi(EncodeData(txns[i]).value)
  }

  /**
   Timelock agreement: what is scheduled is what is executed. Either transaction can be built exactly when
   every transaction of the batch can be encoded. Both are then sent to the controller, with no value: one calls
   the function that schedules a batch, the other the one that executes it, and the targets, values, payloads,
   predecessor and salt read from the two are the same. For targets and values without commas and an encoder
   that emits none, the targets, values and payloads are those of the batch, entry by entry, exactly when the
   batch is not empty.
   */
  lemma TimelockAgreement(
    abi: Call -> string, controller: string, txns: seq<BatchTransaction>, salt: string, delay: string)
    ensures ScheduleTimelock(abi, controller, txns, salt, delay).Ok? <==>
            forall txn :: txn in txns ==> EncodeData(txn).Ok?
    ensures ExecuteTimelock(abi, controller, txns, salt).Ok? <==> forall txn :: txn in txns ==> EncodeData(txn).Ok?
    ensures ScheduleTimelock(abi, controller, txns, salt, delay).Ok? ==>
              var schedule := ScheduleTimelock(abi, controller, txns, salt, delay).value;
              var execute := ExecuteTimelock(abi, controller, txns, salt).value;
              && schedule.to == execute.to == controller && schedule.value == execute.value == "0"
              && EncodeData(schedule).Ok? && EncodeData(execute).Ok?
              && var scheduled, executed := EncodeData(schedule).value, EncodeData(execute).value;
                 && scheduled.name == "scheduleBatch(address[],uint256[],bytes[],bytes32,bytes32,uint256)"
                 && executed.name == "executeBatch(address[],uint256[],bytes[],bytes32,bytes32)"
                 && |executed.args| == 5 && scheduled.args == executed.args + [One(delay)]
                 && executed.args[3] == One("0x0000000000000000000000000000000000000000000000000000000000000000")
                 && executed.args[4] == One(salt)
                 && ((forall txn :: txn in txns ==> ',' !in txn.to && ',' !in txn.value)
                     && (forall call :: ',' !in abi(call)) ==>
                       (CarriesBatch(abi, txns, executed.args) <==> txns != []))
  {
    PayloadsIff(abi, txns);
    hide EncodeData, CreateTransaction, ReadArray;
    if Payloads(abi, txns).Ok? {
      var payloads := Payloads(abi, txns).value;
      ExecuteReadsBack(controller, txns, payloads, salt);
      ScheduleReadsBack(controller, txns, payloads, salt, delay);
      var decoded := Decode(txns, payloads, salt);
      if && (forall txn :: txn in txns ==> ',' !in txn.to && ',' !in txn.value)
         && forall call :: ',' !in abi(call)
      {
        CommaFreeBatch(txns);
        ReadArrayIff(Targets(txns));
        ReadArrayIff(CallValues(txns));
        ReadArrayIff(payloads);
        EmptyBatch(abi, txns, payloads, decoded);
      }
    }
  }

  lemma CommaFreeBatch(txns: seq<BatchTransaction>)
    requires forall txn :: txn in txns ==> ',' !in txn.to && ',' !in txn.value
    ensures CommaFree(Targets(txns)) && CommaFree(CallValues(txns))
  {
  }

  /** An empty batch reads back as a batch of one entry, an empty string. */
  lemma EmptyBatch(abi: Call -> string, txns: seq<BatchTransaction>, payloads: seq<string>, args: seq<Decoded>)
    requires Payloads(abi, txns) == Ok(payloads) && |args| >= 3
    requires args[0] == ReadArray(Targets(txns)) && args[1] == ReadArray(CallValues(txns))
    requires args[2] == ReadArray(payloads)
    requires txns != [] ==>
               args[0] == Many(Targets(txns)) && args[1] == Many(CallValues(txns)) && args[2] == Many(payloads)
    ensures CarriesBatch(abi, txns, args) <==> txns != []
  {
    PayloadsIff(abi, txns);
    hide EncodeData;
  }

  lemma ReadArrayIff(xs: seq<string>)
    requires CommaFree(xs)
    ensures ReadArray(xs) == Many(xs) <==> xs != []
  {
    if xs != [] {
      SplitJoin(',', xs);
    }
  }
}
