/** The two pieces of Python string handling the driver relies on:
    `str.split(';')` on the PATH variable and `str.splitlines()[0]` on the
    output of the executable's version query. */
module Text {
  import opened SvcmBase

  /** `s.split(sep)`: the pieces between occurrences of `sep`, in order;
      the empty string splits into one empty piece. */
  function Split(s: string, sep: char): (r: seq<string>)
    ensures |r| >= 1
    ensures forall i :: 0 <= i < |r| ==> sep !in r[i]
  {
    if |s| == 0 then [""]
    else if s[0] == sep then [""] + Split(s[1..], sep)
    else
      var rest := Split(s[1..], sep);
      [[s[0]] + rest[0]] + rest[1..]
  }

  /** `sep.join(parts)`. */
  function Join(parts: seq<string>, sep: char): string
  {
    if |parts| == 0 then ""
    else if |parts| == 1 then parts[0]
    else parts[0] + [sep] + Join(parts[1..], sep)
  }

  /** Splitting loses nothing: joining the pieces back gives the input. */
  lemma {:induction false} JoinSplit(s: string, sep: char)
    ensures Join(Split(s, sep), sep) == s
  {
    if |s| == 0 {
    } else if s[0] == sep {
      var rest := Split(s[1..], sep);
      JoinSplit(s[1..], sep);
      assert ([""] + rest)[1..] == rest;
      assert s == [sep] + s[1..];
    } else {
      var rest := Split(s[1..], sep);
      JoinSplit(s[1..], sep);
      var parts := [[s[0]] + rest[0]] + rest[1..];
      if |rest| == 1 {
        assert s == [s[0]] + s[1..];
      } else {
        assert parts[1..] == rest[1..];
        assert s == [s[0]] + s[1..];
      }
    }
  }

  lemma {:induction false} SplitAfterPlain(a: string, rest: string, sep: char)
    requires sep !in a
    ensures Split(a + rest, sep) == [a + Split(rest, sep)[0]] + Split(rest, sep)[1..]
  {
    if |a| > 0 {
      SplitAfterPlain(a[1..], rest, sep);
      assert (a + rest)[1..] == a[1..] + rest;
      assert [a[0]] + (a[1..] + Split(rest, sep)[0]) == a + Split(rest, sep)[0];
    } else {
      var r := Split(rest, sep);
      assert a + rest == rest;
      assert a + r[0] == r[0];
      assert [r[0]] + r[1..] == r;
    }
  }

  /** Joining separator-free pieces and splitting again gives the pieces. */
  lemma {:induction false} SplitJoin(parts: seq<string>, sep: char)
    requires |parts| >= 1
    requires forall i :: 0 <= i < |parts| ==> sep !in parts[i]
    ensures Split(Join(parts, sep), sep) == parts
  {
    if |parts| == 1 {
      SplitAfterPlain(parts[0], "", sep);
      assert parts[0] + "" == parts[0];
    } else {
      var tail := Join(parts[1..], sep);
      SplitJoin(parts[1..], sep);
      SplitAfterPlain(parts[0], [sep] + tail, sep);
      assert Join(parts, sep) == parts[0] + ([sep] + tail);
      assert ([sep] + tail)[0] == sep;
      assert ([sep] + tail)[1..] == tail;
      assert Split([sep] + tail, sep) == [""] + parts[1..];
      assert parts[0] + "" == parts[0];
      assert parts == [parts[0]] + parts[1..];
    }
  }

  /** The line boundaries of `str.splitlines`: \n, \r, \v, \f, \x1c, \x1d,
      \x1e, \x85, U+2028 and U+2029 (\r\n ends a line at its \r). */
  predicate IsLineBoundary(c: char)
  {
    var n := c as int;
    n == 0x0A || n == 0x0B || n == 0x0C || n == 0x0D || n == 0x1C || n == 0x1D
    || n == 0x1E || n == 0x85 || n == 0x2028 || n == 0x2029
  }

  /** The text before the first line boundary. */
  function LineHead(s: string): (r: string)
    ensures |r| <= |s| && r == s[..|r|]
    ensures forall i :: 0 <= i < |r| ==> !IsLineBoundary(r[i])
    ensures |r| < |s| ==> IsLineBoundary(s[|r|])
  {
    if |s| == 0 || IsLineBoundary(s[0]) then "" else [s[0]] + LineHead(s[1..])
  }

  /** `s.splitlines()[0]`, or None where that raises IndexError (exactly
      when `s` is empty: any other string has at least one line). */
  function FirstLine(s: string): (r: Option<string>)
    ensures r.None? <==> s == ""
    ensures r.Some? ==> |r.value| <= |s| && r.value == s[..|r.value|]
    ensures r.Some? ==> forall i :: 0 <= i < |r.value| ==> !IsLineBoundary(r.value[i])
    ensures r.Some? && |r.value| < |s| ==> IsLineBoundary(s[|r.value|])
  {
    if s == "" then None else Some(LineHead(s))
  }

  predicate StartsWith(s: string, prefix: string)
  {
    |prefix| <= |s| && s[..|prefix|] == prefix
  }
}
