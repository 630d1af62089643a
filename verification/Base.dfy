/** Vocabulary shared by every module: chain addresses and the two failure-carrying datatypes. */
module Base {
  /** A chain address. Two spellings of one address are the same number. */
  type Address = nat

  const ZERO_ADDRESS: Address := 0

  datatype Option<+T> = None | Some(value: T)

  /** The outcome of code that may throw; which assertion threw is not recorded. */
  datatype Result<+T> = Ok(value: T) | Err
  {
    predicate IsFailure() {
      Err?
    }

    function PropagateFailure<U>(): Result<U>
      requires Err?
    {
      Err
    }

    function Extract(): T
      requires Ok?
    {
      value
    }
  }

  /** `Array.prototype.flat` on a list of lists. */
  function Flatten<T>(xss: seq<seq<T>>): seq<T> {
    if xss == [] then [] else xss[0] + Flatten(xss[1..])
  }

  ghost predicate Distinct<T>(xs: seq<T>) {
    forall i, j :: 0 <= i < j < |xs| ==> xs[i] != xs[j]
  }

  lemma DistinctCons<T>(x: T, rest: seq<T>)
    ensures Distinct([x] + rest) <==> Distinct(rest) && x !in rest
  {
    var all := [x] + rest;
    if Distinct(all) {
      forall i, j | 0 <= i < j < |rest| ensures rest[i] != rest[j] {
        assert all[i + 1] != all[j + 1];
      }
      forall j | 0 <= j < |rest| ensures rest[j] != x {
        assert all[0] != all[j + 1];
      }
    }
  }
}
