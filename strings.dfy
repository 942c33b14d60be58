/** Character searches and the line structure of generated text. */
module Strings {

  /** Index of the first `c` in `s`, or -1 (JavaScript `indexOf`). */
  function IndexOf(s: string, c: char): (i: int)
    ensures -1 <= i < |s|
    ensures i < 0 <==> c !in s
    ensures 0 <= i ==> s[i] == c && c !in s[..i]
  {
    if s == [] then -1
    else if s[0] == c then 0
    else
      var j := IndexOf(s[1..], c);
      assert s[1..][..if j < 0 then 0 else j] == s[1..1 + if j < 0 then 0 else j];
      if j < 0 then -1 else j + 1
  }

  /** Index of the last `c` in `s`, or -1 (JavaScript `lastIndexOf`). */
  function LastIndexOf(s: string, c: char): (i: int)
    ensures -1 <= i < |s|
    ensures i < 0 <==> c !in s
    ensures 0 <= i ==> s[i] == c && c !in s[i + 1..]
  {
    if s == [] then -1
    else if s[|s| - 1] == c then |s| - 1
    else
      var j := LastIndexOf(s[..|s| - 1], c);
      assert j >= 0 ==> s[j + 1..] == s[..|s| - 1][j + 1..] + [s[|s| - 1]];
      assert j < 0 ==> s == s[..|s| - 1] + [s[|s| - 1]];
      j
  }

  /** The lines of `s`: the pieces between newline characters, as
      JavaScript's `s.split('\n')` gives them. */
  function Lines(s: string): (ls: seq<string>)
    ensures |ls| >= 1
    decreases |s|
  {
    var i := IndexOf(s, '\n');
    if i < 0 then [s] else [s[..i]] + Lines(s[i + 1..])
  }

  /** The lines `ls` joined with newline separators, as a template literal
      spread over several source lines reads. */
  function JoinLines(ls: seq<string>): string
  {
    if ls == [] then ""
    else if |ls| == 1 then ls[0]
    else ls[0] + "\n" + JoinLines(ls[1..])
  }

  predicate NoNewline(s: string)
  {
    '\n' !in s
  }

  /** A character that `a` does not contain, placed right after `a`, is the
      first occurrence. */
  lemma IndexOfAfter(a: string, c: char, b: string)
    requires c !in a
    ensures IndexOf(a + [c] + b, c) == |a|
  {
    assert (a + [c] + b)[|a|] == c;
  }

  /** Splitting the joined lines gives back the lines: a template built with
      `JoinLines` can be read line by line. */
  lemma {:induction false} LinesOfJoin(ls: seq<string>)
    requires |ls| >= 1
    requires forall i | 0 <= i < |ls| :: NoNewline(ls[i])
    ensures Lines(JoinLines(ls)) == ls
  {
    if |ls| > 1 {
      assert NoNewline(ls[0]);
      LinesOfCons(ls[0], JoinLines(ls[1..]));
      assert forall i | 0 <= i < |ls[1..]| :: NoNewline(ls[1..][i]) by {
        forall i | 0 <= i < |ls[1..]| ensures NoNewline(ls[1..][i]) { assert ls[1..][i] == ls[i + 1]; }
      }
      LinesOfJoin(ls[1..]);
      assert ls == [ls[0]] + ls[1..];
    } else {
      assert NoNewline(ls[0]);
    }
  }

  /** A character that `b` does not contain, placed right before `b`, is the
      last occurrence. */
  lemma LastIndexOfBefore(a: string, c: char, b: string)
    requires c !in b
    ensures LastIndexOf(a + [c] + b, c) == |a|
  {
    var s := a + [c] + b;
    assert s[|a|] == c;
    assert s[|a| + 1..] == b;
  }

  /** Appending to the same prefix is injective. */
  lemma AppendCancel(a: string, x: string, y: string)
    requires a + x == a + y
    ensures x == y
  {
    assert (a + x)[|a|..] == x;
    assert (a + y)[|a|..] == y;
  }

  /** Moving a prefix out of a left-nested concatenation, so that a path
      built piece by piece can be compared with one built around a fixed
      prefix. */
  lemma ShiftPrefix(p: string, q: string, a: string, b: string, c: string, d: string)
    ensures p + q + a + b + c + d == p + (q + a + b + c + d)
  {
  }

  lemma LinesOfCons(first: string, rest: string)
    requires NoNewline(first)
    ensures Lines(first + "\n" + rest) == [first] + Lines(rest)
  {
    var s := first + "\n" + rest;
    IndexOfAfter(first, '\n', rest);
    assert s[..|first|] == first;
    assert s[|first| + 1..] == rest;
  }
}
