/** The display rule for an operand (`formatOperand` in src/App.js). */
module Display {
  import opened Options

  /** Glues pieces back together with `sep` between consecutive pieces. */
  function Join(parts: seq<string>, sep: char): string
    requires |parts| >= 1
    decreases |parts|
  {
    if |parts| == 1 then parts[0] else parts[0] + [sep] + Join(parts[1..], sep)
  }

  /** JavaScript's `String.prototype.split` with a one-character separator:
      at least one piece, none of them holding the separator. `SplitJoin`
      shows that joining them gives the text back, `SplitCount` that there is
      one piece more than there are separators. */
  function Split(s: string, sep: char): (parts: seq<string>)
    ensures |parts| >= 1
    ensures forall i :: 0 <= i < |parts| ==> sep !in parts[i]
    decreases |s|
  {
    if s == [] then [[]]
    else
      var rest := Split(s[1..], sep);
      assert s == [s[0]] + s[1..];
      if s[0] == sep then
        [[]] + rest
      else
        var parts := [[s[0]] + rest[0]] + rest[1..];
        assert forall i :: 1 <= i < |parts| ==> parts[i] == rest[i];
        parts
  }

  /** Joining the pieces of a split with the separator restores the text. */
  lemma {:induction false} SplitJoin(s: string, sep: char)
    ensures Join(Split(s, sep), sep) == s
    decreases |s|
  {
    if s != [] {
      var rest := Split(s[1..], sep);
      SplitJoin(s[1..], sep);
      assert Join(rest, sep) == s[1..];
      if s[0] == sep {
        var parts := [[]] + rest;
        assert Split(s, sep) == parts;
        assert parts[1..] == rest;
        calc {
          Join(parts, sep);
          [] + [sep] + Join(rest, sep);
          [s[0]] + s[1..];
        }
      } else {
        var parts := [[s[0]] + rest[0]] + rest[1..];
        assert Split(s, sep) == parts;
        if |rest| == 1 {
          calc {
            Join(parts, sep);
            [s[0]] + rest[0];
            [s[0]] + Join(rest, sep);
          }
        } else {
          assert parts[1..] == rest[1..];
          calc {
            Join(parts, sep);
            ([s[0]] + rest[0]) + [sep] + Join(rest[1..], sep);
            [s[0]] + (rest[0] + [sep] + Join(rest[1..], sep));
            [s[0]] + Join(rest, sep);
          }
        }
      }
      assert [s[0]] + s[1..] == s;
    }
  }

  /** One piece more than there are separators. */
  lemma {:induction false} SplitCount(s: string, sep: char)
    ensures |Split(s, sep)| == multiset(s)[sep] + 1
    decreases |s|
  {
    if s != [] {
      SplitCount(s[1..], sep);
      assert s == [s[0]] + s[1..];
      assert multiset(s)[sep] == multiset([s[0]])[sep] + multiset(s[1..])[sep];
    }
  }

  /** `formatOperand(operand)`: `group` stands for Intl.NumberFormat("en-us",
      { maximumFractionDigits: 0 }).format, applied only to an operand in
      which no decimal point has been typed. */
  function FormatOperand(group: string -> string, operand: Option<string>): (shown: Option<string>)
    ensures operand.None? <==> shown.None?
    ensures operand == Some("-") ==> shown == Some("-")
    ensures operand.Some? && '.' in operand.value ==> shown == operand
    ensures operand.Some? && operand.value != "-" && '.' !in operand.value ==>
              shown == Some(group(operand.value))
  {
    match operand
    case None => None
    case Some(text) =>
      if text == "-" then Some("-")
      else
        var parts := Split(text, '.');
        SplitJoin(text, '.');
        if |parts| < 2 then Some(group(parts[0])) else Some(text)
  }
}
