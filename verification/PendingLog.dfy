/** The pending-transaction log: batches appended as lines of JSON, and read back as one list of transactions. */
module PendingLog {
  import opened Base
  import opened Text

  /** What is assumed of JSON: batches print without line breaks, never as nothing, and parse back. */
  ghost predicate Faithful<T(!new)>(serialize: seq<T> -> string, parse: string -> Option<seq<T>>) {
    forall batch :: serialize(batch) != "" && '\n' !in serialize(batch) && parse(serialize(batch)) == Some(batch)
  }

  /** The log after the batches have been appended to it, one line each. */
  function Lines<T>(serialize: seq<T> -> string, batches: seq<seq<T>>): string {
    if batches == [] then "" else serialize(batches[0]) + ['\n'] + Lines(serialize, batches[1..])
  }

  /** `lines.filter(line => line.length > 0).flatMap(JSON.parse)`; a line that does not parse throws. */
  function ParseLines<T>(parse: string -> Option<seq<T>>, lines: seq<string>): Result<seq<T>> {
    if lines == [] then Ok([])
    else if lines[0] == "" then ParseLines(parse, lines[1..])
    else if parse(lines[0]).None? then Err
    else
      var rest :- ParseLines(parse, lines[1..]);
      Ok(parse(lines[0]).value + rest)
  }

  function ReadPendingTransactions<T>(parse: string -> Option<seq<T>>, content: string): Result<seq<T>> {
    ParseLines(parse, Split('\n', content))
  }

  /** A log can be read exactly when every line that is not empty parses. */
  lemma ReadsIff<T>(parse: string -> Option<seq<T>>, content: string)
    ensures ReadPendingTransactions(parse, content).Ok? <==>
            forall line :: line in Split('\n', content) && line != "" ==> parse(line).Some?
  {
    ParseLinesIff(parse, Split('\n', content));
  }

  lemma {:induction false} ParseLinesIff<T>(parse: string -> Option<seq<T>>, lines: seq<string>)
    ensures ParseLines(parse, lines).Ok? <==> forall line :: line in lines && line != "" ==> parse(line).Some?
  {
    if lines != [] {
      ParseLinesIff(parse, lines[1..]);
      assert forall line :: line in lines <==> line == lines[0] || line in lines[1..];
    }
  }

  lemma {:induction false} LinesSnoc<T>(serialize: seq<T> -> string, batches: seq<seq<T>>, batch: seq<T>)
    ensures Lines(serialize, batches + [batch]) == Lines(serialize, batches) + serialize(batch) + ['\n']
  {
    if batches == [] {
      assert (batches + [batch])[1..] == [];
    } else {
      assert (batches + [batch])[1..] == batches[1..] + [batch];
      LinesSnoc(serialize, batches[1..], batch);
    }
  }

  /** Reading a log gives back every transaction ever appended, in order. */
  lemma {:induction false} ReadsWhatWasAppended<T(!new)>(
    serialize: seq<T> -> string, parse: string -> Option<seq<T>>, batches: seq<seq<T>>)
    requires Faithful(serialize, parse)
    ensures ReadPendingTransactions(parse, Lines(serialize, batches)) == Ok(Flatten(batches))
  {
    if batches == [] {
      assert Split('\n', "") == [""];
      assert ParseLines(parse, [""]) == ParseLines(parse, [""][1..]);
    } else {
      var line, rest := serialize(batches[0]), Lines(serialize, batches[1..]);
      SplitFirst('\n', line, rest);
      ReadsWhatWasAppended(serialize, parse, batches[1..]);
      assert ([line] + Split('\n', rest))[1..] == Split('\n', rest);
    }
  }

  /** The log file. */
  class LogFile<T(!new)> {
    var content: string
    ghost var batches: seq<seq<T>>
    const serialize: seq<T> -> string
    const parse: string -> Option<seq<T>>

    ghost predicate Valid()
      reads this
    {
      Faithful(serialize, parse) && content == Lines(serialize, batches)
    }

    constructor (serialize: seq<T> -> string, parse: string -> Option<seq<T>>)
      requires Faithful(serialize, parse)
      ensures Valid() && batches == []
    {
      this.serialize, this.parse := serialize, parse;
      content, batches := "", [];
    }

    method AppendBatchTransactions(transactions: seq<T>)
      requires Valid()
      modifies this
      ensures Valid() && batches == old(batches) + [transactions]
    {
      LinesSnoc(serialize, batches, transactions);
      content := content + (serialize(transactions) + "\n");
      batches := batches + [transactions];
    }

    method Read() returns (r: Result<seq<T>>)
      requires Valid()
      ensures r == Ok(Flatten(batches))
    {
      ReadsWhatWasAppended(serialize, parse, batches);
      r := ReadPendingTransactions(parse, content);
    }
  }
}
