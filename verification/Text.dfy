/** `Array.prototype.join` and `String.prototype.split` on one-character separators. */
module Text {
  function Join(sep: char, xs: seq<string>): string {
    if xs == [] then ""
    else if |xs| == 1 then xs[0]
    else xs[0] + [sep] + Join(sep, xs[1..])
  }

  /** Never empty: the empty string splits into one empty string. */
  function Split(sep: char, s: string): (parts: seq<string>)
    ensures parts != []
  {
    if s == "" then [""]
    else if s[0] == sep then [""] + Split(sep, s[1..])
    else
      var rest := Split(sep, s[1..]);
      [[s[0]] + rest[0]] + rest[1..]
  }

  /** Joining what was split gives the string back, whatever it is. */
  lemma {:induction false} JoinSplit(sep: char, s: string)
    ensures Join(sep, Split(sep, s)) == s
  {
    if s != "" {
      JoinSplit(sep, s[1..]);
      var rest := Split(sep, s[1..]);
      if s[0] != sep && |rest| > 1 {
        assert Split(sep, s)[1..] == rest[1..];
      } else if s[0] == sep {
        assert Split(sep, s)[1..] == rest;
      }
    }
  }

  lemma {:induction false} SplitFirst(sep: char, a: string, b: string)
    requires sep !in a
    ensures Split(sep, a) == [a]
    ensures Split(sep, a + [sep] + b) == [a] + Split(sep, b)
  {
    if a == "" {
      assert a + [sep] + b == [sep] + b && ([sep] + b)[1..] == b;
    } else {
      assert a == [a[0]] + a[1..];
      SplitFirst(sep, a[1..], b);
      assert (a + [sep] + b)[1..] == a[1..] + [sep] + b;
      var rest := Split(sep, a[1..] + [sep] + b);
      assert rest[0] == a[1..] && rest[1..] == Split(sep, b);
    }
  }

  /** Splitting what was joined gives the list back if it is not empty and no element holds the separator. */
  lemma {:induction false} SplitJoin(sep: char, xs: seq<string>)
    requires xs != [] && forall x :: x in xs ==> sep !in x
    ensures Split(sep, Join(sep, xs)) == xs
  {
    assert xs[0] in xs;
    if |xs| == 1 {
      SplitFirst(sep, xs[0], "");
    } else {
      SplitJoin(sep, xs[1..]);
      SplitFirst(sep, xs[0], Join(sep, xs[1..]));
    }
  }
}
