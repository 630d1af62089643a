/**
 Batch transactions: `createTransaction` prints a call's arguments into a map from parameter names to
 strings, and `encodeData` reads them back.
 */
module Codec {
  import opened Base
  import opened Text

  /** A JavaScript argument: anything but an array is known by its `toString()`. */
  datatype Value = Scalar(text: string) | Array(items: seq<Value>)

  /** What is handed on to the ABI encoder. */
  datatype Decoded = One(text: string) | Many(items: seq<string>)

  datatype Param = Param(name: string, typ: string, baseType: string)

  datatype Method = Method(name: string, inputs: seq<Param>)

  datatype BatchTransaction = BatchTransaction(
    to: string, value: string, contractMethod: Option<Method>, contractInputsValues: Option<map<string, string>>)

  /** A call as the ABI encoder gets it. */
  datatype Call = Call(name: string, args: seq<Decoded>)

  // ---------------------------------------------------------------------------------------------
  // Parameters
  // ---------------------------------------------------------------------------------------------

  /** `toString()`; arrays join their elements' with commas. */
  function ToString(v: Value): string {
    match v
    case Scalar(text) => text
    case Array(items) => Join(',', Strings(items))
  }

  function Strings(items: seq<Value>): (texts: seq<string>)
    ensures |texts| == |items| && forall i :: 0 <= i < |items| ==> texts[i] == ToString(items[i])
  {
    if items == [] then [] else [ToString(items[0])] + Strings(items[1..])
  }

  function EncodeParam(baseType: string, v: Value): Result<string> {
    if baseType == "array" then
      if v.Scalar? || (v.items != [] && v.items[0].Array?) then Err
      else Ok("[" + Join(',', Strings(v.items)) + "]")
    else if baseType == "tuple" then Err
    else Ok(ToString(v))
  }

  /** `slice(1, -1)` */
  function Inner(s: string): string {
    if |s| <= 2 then "" else s[1..|s| - 1]
  }

  predicate IsArrayType(typ: string) {
    |typ| >= 2 && typ[|typ| - 2..] == "[]"
  }

  function DecodeParam(typ: string, s: string): Result<Decoded> {
    if IsArrayType(typ) then Ok(Many(Split(',', Inner(s))))
    else if typ == "tuple" then Err
    else Ok(One(s))
  }

  /** The printed form of a list of plain values. */
  function PrintList(xs: seq<string>): string {
    "[" + Join(',', xs) + "]"
  }

  predicate CommaFree(xs: seq<string>) {
    forall x :: x in xs ==> ',' !in x
  }

  lemma InnerOfBrackets(s: string)
    ensures Inner("[" + s + "]") == s
  {
    assert ("[" + s + "]")[1..|s| + 1] == s;
  }

  /** Printing after parsing is the identity on every bracketed string. */
  lemma PrintParse(s: string, typ: string)
    requires |s| >= 2 && s[0] == '[' && s[|s| - 1] == ']' && IsArrayType(typ)
    ensures DecodeParam(typ, s).Ok? && DecodeParam(typ, s).value.Many?
    ensures PrintList(DecodeParam(typ, s).value.items) == s
  {
    JoinSplit(',', Inner(s));
    assert s == "[" + Inner(s) + "]";
  }

  /** Parsing after printing is the identity on a comma-free list exactly when it is not empty. */
  lemma ParsePrint(xs: seq<string>, typ: string)
    requires CommaFree(xs) && IsArrayType(typ)
    ensures DecodeParam(typ, PrintList(xs)) == Ok(Many(xs)) <==> xs != []
  {
    InnerOfBrackets(Join(',', xs));
    if xs != [] {
      SplitJoin(',', xs);
    }
  }

  /** The only comma-free lists printed alike are the empty list and the list of one empty string. */
  lemma PrintCollisions(xs: seq<string>, ys: seq<string>)
    requires CommaFree(xs) && CommaFree(ys)
    ensures PrintList(xs) == PrintList(ys) <==> xs == ys || (xs in {[], [""]} && ys in {[], [""]})
  {
    InnerOfBrackets(Join(',', xs));
    InnerOfBrackets(Join(',', ys));
    if xs != [] {
      SplitJoin(',', xs);
    }
    if ys != [] {
      SplitJoin(',', ys);
    }
  }

  /** Which arguments can be printed, and as what. */
  lemma PrintedAs(baseType: string, v: Value)
    ensures EncodeParam(baseType, v).Ok? <==>
            if baseType == "array" then v.Array? && (v.items == [] || v.items[0].Scalar?) else baseType != "tuple"
    ensures baseType == "array" && EncodeParam(baseType, v).Ok? ==>
              var printed := EncodeParam(baseType, v).value;
              && printed == PrintList(Strings(v.items))
              && |printed| >= 2 && printed[0] == '[' && printed[|printed| - 1] == ']'
    ensures baseType !in {"array", "tuple"} && v.Scalar? ==> EncodeParam(baseType, v) == Ok(v.text)
    ensures baseType !in {"array", "tuple"} && v.Array? ==>
              EncodeParam(baseType, v).Ok? && "[" + EncodeParam(baseType, v).value + "]" == PrintList(Strings(v.items))
  {
  }

  /** Which strings can be read back: all of them, but for tuples; arrays are told by the end of their type. */
  lemma ReadAs(typ: string, s: string)
    ensures DecodeParam(typ, s).Ok? <==> typ != "tuple"
    ensures (exists t :: typ == t + "[]") <==> DecodeParam(typ, s).Ok? && DecodeParam(typ, s).value.Many?
    ensures typ != "tuple" && !(exists t :: typ == t + "[]") ==> DecodeParam(typ, s) == Ok(One(s))
  {
    if |typ| >= 2 && typ[|typ| - 2..] == "[]" {
      assert typ == typ[..|typ| - 2] + "[]";
      assert typ[|typ| - 1] == ']' && "tuple"[4] == 'e';
    }
    if exists t :: typ == t + "[]" {
      var t :| typ == t + "[]";
      assert typ[|typ| - 2..] == "[]";
    }
  }

  // ---------------------------------------------------------------------------------------------
  // Calls
  // ---------------------------------------------------------------------------------------------

  /** The values recorded for the first `n` parameters; a later parameter of the same name overwrites. */
  function Record(inputs: seq<Param>, args: seq<Value>, n: nat): Result<map<string, string>>
    requires n <= |inputs| && n <= |args|
  {
    if n == 0 then Ok(map[]) else
      var acc :- Record(inputs, args, n - 1);
      var printed :- EncodeParam(inputs[n - 1].baseType, args[n - 1]);
      Ok(acc[inputs[n - 1].name := printed])
  }

  function CreateTransaction(to: string, m: Method, args: seq<Value>): Result<BatchTransaction> {
    if |m.inputs| != |args| then Err else
      var values :- Record(m.inputs, args, |args|);
      Ok(BatchTransaction(to, "0", Some(m), Some(values)))
  }

  /** A transaction is addressed to the contract it was made for, and carries no value. */
  lemma CreatedFor(to: string, m: Method, args: seq<Value>)
    ensures CreateTransaction(to, m, args).Ok? ==>
              var txn := CreateTransaction(to, m, args).value;
              && txn.to == to && txn.value == "0" && txn.contractMethod == Some(m)
              && txn.contractInputsValues.Some?
  {
  }

  function ReadBack(inputs: seq<Param>, values: map<string, string>): Result<seq<Decoded>> {
    if inputs == [] then Ok([])
    else if inputs[0].name !in values then Err
    else
      var first :- DecodeParam(inputs[0].typ, values[inputs[0].name]);
      var rest :- ReadBack(inputs[1..], values);
      Ok([first] + rest)
  }

  /** `encodeData`, up to the ABI encoding of the call. */
  function EncodeData(txn: BatchTransaction): Result<Call> {
    if txn.contractMethod.None? || txn.contractInputsValues.None? then Err else
      var args :- ReadBack(txn.contractMethod.value.inputs, txn.contractInputsValues.value);
      Ok(Call(txn.contractMethod.value.name, args))
  }

  /**
   A transaction can be encoded exactly when it names a method, has a value for each of its parameters, and none
   is a tuple. Each argument is then what its parameter's value reads back as.
   */
  lemma EncodeDataIff(txn: BatchTransaction)
    ensures EncodeData(txn).Ok? <==>
            && txn.contractMethod.Some? && txn.contractInputsValues.Some?
            && forall p :: p in txn.contractMethod.value.inputs ==>
                 p.name in txn.contractInputsValues.value && p.typ != "tuple"
    ensures EncodeData(txn).Ok? ==>
              var m, values, call := txn.contractMethod.value, txn.contractInputsValues.value, EncodeData(txn).value;
              && call.name == m.name && |call.args| == |m.inputs|
              && forall i :: 0 <= i < |m.inputs| ==>
                   m.inputs[i] in m.inputs && DecodeParam(m.inputs[i].typ, values[m.inputs[i].name]) == Ok(call.args[i])
  {
    if txn.contractMethod.Some? && txn.contractInputsValues.Some? {
      ReadBackIff(txn.contractMethod.value.inputs, txn.contractInputsValues.value);
    }
  }

  lemma {:induction false} ReadBackIff(inputs: seq<Param>, values: map<string, string>)
    ensures ReadBack(inputs, values).Ok? <==> forall p :: p in inputs ==> p.name in values && p.typ != "tuple"
    ensures ReadBack(inputs, values).Ok? ==>
              && |ReadBack(inputs, values).value| == |inputs|
              && forall i :: 0 <= i < |inputs| ==>
                   && inputs[i] in inputs
                   && DecodeParam(inputs[i].typ, values[inputs[i].name]) == Ok(ReadBack(inputs, values).value[i])
  {
    if inputs != [] {
      ReadBackIff(inputs[1..], values);
      assert forall p :: p in inputs <==> p == inputs[0] || p in inputs[1..];
      if inputs[0].name in values {
        ReadAs(inputs[0].typ, values[inputs[0].name]);
      }
    }
  }

  /** A type the codec supports: a one-dimensional dynamic array, or neither array nor tuple. */
  predicate Supported(p: Param) {
    if p.baseType == "array" then IsArrayType(p.typ)
    else p.baseType != "tuple" && !IsArrayType(p.typ) && p.typ != "tuple"
  }

  /** An argument of that type: a non-empty list of comma-free elements, or a single value. */
  predicate Fits(p: Param, v: Value) {
    if p.baseType == "array" then
      v.Array? && v.items != [] && forall x :: x in v.items ==> x.Scalar? && ',' !in x.text
    else v.Scalar?
  }

  /** The argument as it should reach the ABI encoder. */
  function Intended(v: Value): Decoded {
    match v
    case Scalar(text) => One(text)
    case Array(items) => Many(Strings(items))
  }

  function AllIntended(args: seq<Value>): seq<Decoded> {
    seq(|args|, i requires 0 <= i < |args| => Intended(args[i]))
  }

  ghost predicate AllFit(m: Method, args: seq<Value>) {
    |args| == |m.inputs| && forall i :: 0 <= i < |args| ==> Fits(m.inputs[i], args[i])
  }

  /** Every argument can be printed for its parameter. */
  ghost predicate Printable(m: Method, args: seq<Value>) {
    |args| == |m.inputs| && forall i :: 0 <= i < |args| ==> EncodeParam(m.inputs[i].baseType, args[i]).Ok?
  }

  ghost predicate DistinctNames(m: Method) {
    forall i, j :: 0 <= i < j < |m.inputs| ==> m.inputs[i].name != m.inputs[j].name
  }

  /** `encodeData` recovers the arguments given to `createTransaction`. */
  predicate RoundTrips(to: string, m: Method, args: seq<Value>) {
    && CreateTransaction(to, m, args).Ok?
    && EncodeData(CreateTransaction(to, m, args).value) == Ok(Call(m.name, AllIntended(args)))
  }

  lemma ParamRoundTrip(p: Param, v: Value)
    requires Supported(p) && Fits(p, v)
    ensures EncodeParam(p.baseType, v).Ok?
    ensures DecodeParam(p.typ, EncodeParam(p.baseType, v).value) == Ok(Intended(v))
  {
    if p.baseType == "array" {
      var xs := Strings(v.items);
      assert CommaFree(xs) by {
        forall x | x in xs ensures ',' !in x {
          var i :| 0 <= i < |xs| && xs[i] == x;
          assert v.items[i] in v.items;
        }
      }
      ParsePrint(xs, p.typ);
    }
  }

  /** The last of the first `n` parameters to have this name. */
  function LastNamed(inputs: seq<Param>, n: nat, name: string): (r: Option<nat>)
    requires n <= |inputs|
    ensures r.Some? ==> r.value < n && inputs[r.value].name == name
    ensures forall i :: (if r.Some? then r.value + 1 else 0) <= i < n ==> inputs[i].name != name
  {
    if n == 0 then None
    else if inputs[n - 1].name == name then Some(n - 1)
    else LastNamed(inputs, n - 1, name)
  }

  /** What is recorded under a name is the argument of the last parameter that has it. */
  lemma {:induction false} RecordAt(m: Method, args: seq<Value>, n: nat, name: string)
    requires Printable(m, args) && n <= |args|
    ensures Record(m.inputs, args, n).Ok?
    ensures var last, values := LastNamed(m.inputs, n, name), Record(m.inputs, args, n).value;
            && (name in values <==> last.Some?)
            && (last.Some? ==>
                  EncodeParam(m.inputs[last.value].baseType, args[last.value]) == Ok(values[name]))
  {
    hide EncodeParam;
    if n > 0 {
      RecordAt(m, args, n - 1, name);
    }
  }

  /** With distinct names every argument is recorded under its parameter's name. */
  lemma RecordedUnderName(to: string, m: Method, args: seq<Value>, i: nat)
    requires Printable(m, args) && DistinctNames(m) && i < |args|
    ensures CreateTransaction(to, m, args).Ok?
    ensures var values := CreateTransaction(to, m, args).value.contractInputsValues;
            && values.Some? && m.inputs[i].name in values.value
            && EncodeParam(m.inputs[i].baseType, args[i]) == Ok(values.value[m.inputs[i].name])
  {
    hide EncodeParam;
    RecordAt(m, args, |args|, m.inputs[i].name);
    assert LastNamed(m.inputs, |args|, m.inputs[i].name) == Some(i);
  }

  lemma {:induction false} ReadBackAt(inputs: seq<Param>, values: map<string, string>)
    requires forall p :: p in inputs ==> Supported(p) && p.name in values
    ensures ReadBack(inputs, values).Ok? && |ReadBack(inputs, values).value| == |inputs|
    ensures forall i :: 0 <= i < |inputs| ==>
              DecodeParam(inputs[i].typ, values[inputs[i].name]) == Ok(ReadBack(inputs, values).value[i])
  {
    if inputs != [] {
      assert inputs[0] in inputs && Supported(inputs[0]);
      ReadBackAt(inputs[1..], values);
    }
  }

  lemma FitIsPrintable(m: Method, args: seq<Value>)
    requires AllFit(m, args) && forall p :: p in m.inputs ==> Supported(p)
    ensures Printable(m, args)
  {
    forall i | 0 <= i < |args| ensures EncodeParam(m.inputs[i].baseType, args[i]).Ok? {
      assert m.inputs[i] in m.inputs;
      ParamRoundTrip(m.inputs[i], args[i]);
    }
  }

  /** Every parameter reads back what the last parameter of its name was given. */
  lemma DecodedAt(to: string, m: Method, args: seq<Value>, i: nat) returns (j: nat)
    requires Printable(m, args) && i < |args| && forall p :: p in m.inputs ==> Supported(p)
    ensures i <= j < |args| && LastNamed(m.inputs, |args|, m.inputs[i].name) == Some(j)
    ensures EncodeParam(m.inputs[j].baseType, args[j]).Ok?
    ensures CreateTransaction(to, m, args).Ok? && EncodeData(CreateTransaction(to, m, args).value).Ok?
    ensures var call := EncodeData(CreateTransaction(to, m, args).value).value;
            && call.name == m.name && |call.args| == |args|
            && DecodeParam(m.inputs[i].typ, EncodeParam(m.inputs[j].baseType, args[j]).value) == Ok(call.args[i])
  {
    hide EncodeParam, DecodeParam, Supported, Fits;
    forall p | p in m.inputs
      ensures Record(m.inputs, args, |args|).Ok? && p.name in Record(m.inputs, args, |args|).value
    {
      var k :| 0 <= k < |m.inputs| && m.inputs[k] == p;
      RecordAt(m, args, |args|, p.name);
    }
    RecordAt(m, args, |args|, m.inputs[i].name);
    ReadBackAt(m.inputs, Record(m.inputs, args, |args|).value);
    j := LastNamed(m.inputs, |args|, m.inputs[i].name).value;
  }

  lemma DistinctNamesRoundTrip(to: string, m: Method, args: seq<Value>)
    requires AllFit(m, args) && DistinctNames(m) && forall p :: p in m.inputs ==> Supported(p)
    ensures RoundTrips(to, m, args)
  {
    FitIsPrintable(m, args);
    hide EncodeParam, DecodeParam, Supported, Fits;
    if |args| == 0 {
      assert AllIntended(args) == [];
    } else {
      var _ := DecodedAt(to, m, args, 0);
      var decoded := EncodeData(CreateTransaction(to, m, args).value).value.args;
      forall i | 0 <= i < |args| ensures decoded[i] == AllIntended(args)[i] {
        var j := DecodedAt(to, m, args, i);
        assert j == i && m.inputs[i] in m.inputs;
        ParamRoundTrip(m.inputs[i], args[i]);
      }
      assert decoded == AllIntended(args);
    }
  }

  /** An argument that fits a parameter and prints recognisably. */
  function Marker(p: Param, text: string): Value {
    if p.baseType == "array" then Array([Scalar(text)]) else Scalar(text)
  }

  function Markers(m: Method, i: nat): seq<Value> {
    seq(|m.inputs|, k requires 0 <= k < |m.inputs| => Marker(m.inputs[k], if k == i then "y" else "x"))
  }

  lemma MarkersFit(m: Method, i: nat)
    ensures AllFit(m, Markers(m, i))
  {
  }

  /** What one parameter prints as "x" no parameter reads back as "y". */
  lemma MarkersDiffer(p: Param, q: Param)
    requires Supported(p) && Supported(q)
    ensures EncodeParam(q.baseType, Marker(q, "x")).Ok?
    ensures DecodeParam(p.typ, EncodeParam(q.baseType, Marker(q, "x")).value) != Ok(Intended(Marker(p, "y")))
  {
    assert Strings([Scalar("x")]) == ["x"] && Strings([Scalar("y")]) == ["y"];
    assert EncodeParam(q.baseType, Marker(q, "x")).value == if q.baseType == "array" then "[x]" else "x";
    assert Inner("[x]") == "x" && Inner("x") == "";
    assert Split(',', "") == [""];
    SplitFirst(',', "x", "");
  }

  lemma DuplicateNamesLoseArguments(to: string, m: Method, i: nat, j: nat)
    requires i < j < |m.inputs| && m.inputs[i].name == m.inputs[j].name
    requires forall p :: p in m.inputs ==> Supported(p)
    ensures AllFit(m, Markers(m, i)) && !RoundTrips(to, m, Markers(m, i))
  {
    hide EncodeParam, DecodeParam, Supported, Fits, Marker, AllFit;
    var args := Markers(m, i);
    MarkersFit(m, i);
    FitIsPrintable(m, args);
    var k := DecodedAt(to, m, args, i);
    assert k != i && m.inputs[i] in m.inputs && m.inputs[k] in m.inputs;
    MarkersDiffer(m.inputs[i], m.inputs[k]);
    assert AllIntended(args)[i] == Intended(Marker(m.inputs[i], "y"));
  }

  /**
   Codec round trip: every call of a method with supported parameter types comes back argument for argument,
   in order and with its arrays intact, if and only if the parameter names are pairwise distinct.
   */
  lemma RoundTripIffDistinctNames(to: string, m: Method)
    requires forall p :: p in m.inputs ==> Supported(p)
    ensures (forall args :: AllFit(m, args) ==> RoundTrips(to, m, args)) <==> DistinctNames(m)
  {
    if DistinctNames(m) {
      forall args | AllFit(m, args) ensures RoundTrips(to, m, args) {
        DistinctNamesRoundTrip(to, m, args);
      }
    } else {
      var i, j :| 0 <= i < j < |m.inputs| && m.inputs[i].name == m.inputs[j].name;
      DuplicateNamesLoseArguments(to, m, i, j);
    }
  }

  // ---------------------------------------------------------------------------------------------
  // Safe
  // ---------------------------------------------------------------------------------------------

  /** `name.split('(')[0]` */
  function ShortName(signature: string): string {
    Split('(', signature)[0]
  }

  /** The short name is what stands before the first parenthesis. */
  lemma ShortNameIs(name: string, rest: string)
    requires '(' !in name
    ensures ShortName(name + "(" + rest) == name
  {
    SplitFirst('(', name, rest);
  }

  /** Names a fresh `safe` object answers to already: its own, and those every object inherits. */
  const RESERVED: set<string> := {
    "connect", "constructor", "hasOwnProperty", "isPrototypeOf", "propertyIsEnumerable", "toLocaleString", "toString",
    "valueOf", "__proto__", "__defineGetter__", "__defineSetter__", "__lookupGetter__", "__lookupSetter__"}

  /** The functions of a contract can be put on a `Safe`: no two share a short name, and none is reserved. */
  ghost predicate NoOverloads(signatures: seq<string>) {
    && (forall i, j :: 0 <= i < j < |signatures| ==> ShortName(signatures[i]) != ShortName(signatures[j]))
    && (forall s :: s in signatures ==> ShortName(s) !in RESERVED)
  }

  /** `Safe`: one entry per function of the contract, except that overloads are refused. */
  method Safe(signatures: seq<string>) returns (safe: Result<map<string, string>>)
    ensures safe.Ok? <==> NoOverloads(signatures)
    ensures safe.Ok? ==> "connect" !in safe.value
    ensures safe.Ok? ==> safe.value.Keys == set s | s in signatures :: ShortName(s)
    ensures safe.Ok? ==> forall s :: s in signatures ==> ShortName(s) in safe.value && safe.value[ShortName(s)] == s
  {
    var functions: map<string, string> := map[];
    for i := 0 to |signatures|
      invariant functions.Keys == set s | s in signatures[..i] :: ShortName(s)
      invariant forall s :: s in signatures[..i] ==> ShortName(s) in functions && functions[ShortName(s)] == s
      invariant NoOverloads(signatures[..i])
    {
      var name := ShortName(signatures[i]);
      assert signatures[..i + 1] == signatures[..i] + [signatures[i]];
      if name in RESERVED || name in functions {
        if name in functions {
          var s :| s in signatures[..i] && ShortName(s) == name;
          var j :| 0 <= j < i && signatures[j] == s;
          assert ShortName(signatures[j]) == ShortName(signatures[i]);
        } else {
          assert signatures[i] in signatures;
        }
        return Err;
      }
      functions := functions[name := signatures[i]];
    }
    assert signatures[..|signatures|] == signatures;
    return Ok(functions);
  }
}
