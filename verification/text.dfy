/** The .NET string operations the client relies on: lower-casing,
    case-insensitive search, substring replacement and joining. Case
    folding covers the ASCII letters, which is all the client's own keys,
    tags and type names use. */
module Text {

  /** `char.ToLower` on an ASCII letter; every other character is kept. */
  function LowerChar(c: char): char
  {
    if 'A' <= c <= 'Z' then (c as int + 32) as char else c
  }

  /** `string.ToLower`. */
  function Lower(s: string): (r: string)
    ensures |r| == |s|
    ensures forall i | 0 <= i < |s| :: r[i] == LowerChar(s[i])
  {
    seq(|s|, i requires 0 <= i < |s| => LowerChar(s[i]))
  }

  /** Lower-casing a string twice is the same as lower-casing it once. */
  lemma LowerIdempotent(s: string)
    ensures Lower(Lower(s)) == Lower(s)
  {
    assert forall i | 0 <= i < |s| :: LowerChar(LowerChar(s[i])) == LowerChar(s[i]);
  }

  /** Lower-casing distributes over concatenation. */
  lemma LowerAppend(a: string, b: string)
    ensures Lower(a + b) == Lower(a) + Lower(b)
  {
    assert forall i | 0 <= i < |a + b| :: Lower(a + b)[i] == (Lower(a) + Lower(b))[i];
  }

  /** Ordinal comparison ignoring case. */
  predicate EqualsIgnoreCase(a: string, b: string)
  {
    Lower(a) == Lower(b)
  }

  /** `pattern` occurs at position `i` of `s`, ignoring case. */
  predicate MatchAt(s: string, pattern: string, i: int)
  {
    0 <= i && i + |pattern| <= |s| && EqualsIgnoreCase(s[i..i + |pattern|], pattern)
  }

  /** `s.IndexOf(pattern, from, StringComparison.OrdinalIgnoreCase)`: the
      first position at or after `from` where `pattern` occurs, or -1. */
  function IndexOf(s: string, pattern: string, from: nat): (r: int)
    requires from <= |s|
    ensures r == -1 || from <= r
    ensures r != -1 ==> MatchAt(s, pattern, r)
    ensures forall i | from <= i && (r == -1 || i < r) :: !MatchAt(s, pattern, i)
    decreases |s| - from
  {
    if from + |pattern| > |s| then -1
    else if EqualsIgnoreCase(s[from..from + |pattern|], pattern) then from
    else IndexOf(s, pattern, from + 1)
  }

  /** `s.Contains(pattern)`: `pattern` occurs in `s`, letter case
      significant. */
  predicate Contains(s: string, pattern: string)
  {
    exists i | 0 <= i <= |s| - |pattern| :: OccursAt(s, pattern, i)
  }

  /** `pattern` occurs at position `i` of `s`, letter case significant. */
  predicate OccursAt(s: string, pattern: string, i: int)
  {
    0 <= i && i + |pattern| <= |s| && s[i..i + |pattern|] == pattern
  }

  /** `s` starts with `prefix`. */
  predicate StartsWith(s: string, prefix: string)
  {
    |prefix| <= |s| && s[..|prefix|] == prefix
  }

  /** `s.Replace(target, "")` for a non-empty `target`: every occurrence of `target`,
      scanning left to right, is removed. */
  function RemoveAll(s: string, target: string): (r: string)
    requires target != []
    ensures |r| <= |s|
    decreases |s|
  {
    if |s| < |target| then s
    else if StartsWith(s, target) then RemoveAll(s[|target|..], target)
    else [s[0]] + RemoveAll(s[1..], target)
  }

  /** A string in which `target` does not occur is left as it is. */
  lemma {:induction false} RemoveAllAbsent(s: string, target: string)
    requires target != []
    requires forall i | 0 <= i < |s| :: !StartsWith(s[i..], target)
    ensures RemoveAll(s, target) == s
    decreases |s|
  {
    if |s| >= |target| {
      assert s[0..] == s;
      forall i | 0 <= i < |s[1..]| ensures !StartsWith(s[1..][i..], target) {
        assert s[1..][i..] == s[i + 1..];
      }
      RemoveAllAbsent(s[1..], target);
      assert [s[0]] + s[1..] == s;
    }
  }

  /** Removing `target` from `s + target` (with `target` absent from `s`, and no
      occurrence straddling the two) gives back `s`. */
  lemma {:induction false} RemoveAllSuffix(s: string, target: string)
    requires target != []
    requires forall i | 0 <= i < |s| :: !StartsWith((s + target)[i..], target)
    ensures RemoveAll(s + target, target) == s
    decreases |s|
  {
    if s == [] {
      assert StartsWith(s + target, target);
      assert (s + target)[|target|..] == [];
    } else {
      assert (s + target)[0..] == s + target;
      assert (s + target)[1..] == s[1..] + target;
      forall i | 0 <= i < |s[1..]| ensures !StartsWith((s[1..] + target)[i..], target) {
        assert (s[1..] + target)[i..] == (s + target)[i + 1..];
      }
      RemoveAllSuffix(s[1..], target);
      assert [s[0]] + s[1..] == s;
    }
  }

  /** `string.Join(separator, parts)`. */
  function Join(separator: string, parts: seq<string>): (r: string)
    ensures parts == [] ==> r == []
    ensures |parts| == 1 ==> r == parts[0]
  {
    if parts == [] then []
    else if |parts| == 1 then parts[0]
    else parts[0] + separator + Join(separator, parts[1..])
  }

  /** Joining `parts + [last]` appends the separator and `last`. */
  lemma {:induction false} JoinSnoc(separator: string, parts: seq<string>, last: string)
    requires parts != []
    ensures Join(separator, parts + [last]) == Join(separator, parts) + separator + last
  {
    if |parts| == 1 {
      assert (parts + [last])[1..] == [last];
    } else {
      assert (parts + [last])[1..] == parts[1..] + [last];
      JoinSnoc(separator, parts[1..], last);
    }
  }

  // ---------------------------------------------------------------------
  // White space and trimming

  /** `char.IsWhiteSpace`: the Unicode white-space characters. */
  predicate IsWhiteSpace(c: char)
  {
    '\U{9}' <= c <= '\U{D}' || c == ' ' || c == '\U{85}' || c == '\U{A0}' || c == '\U{1680}' ||
    '\U{2000}' <= c <= '\U{200A}' || c == '\U{2028}' || c == '\U{2029}' || c == '\U{202F}' || c == '\U{205F}' ||
    c == '\U{3000}'
  }

  /** `s` without the characters at its start that `drop` holds for. */
  function TrimStart(s: string, drop: char -> bool): (r: string)
    ensures |r| <= |s| && r == s[|s| - |r|..]
    ensures r == [] || !drop(r[0])
    ensures forall i | 0 <= i < |s| - |r| :: drop(s[i])
  {
    if s == [] || !drop(s[0]) then s
    else
      var rest := TrimStart(s[1..], drop);
      assert forall i | 1 <= i < |s| - |rest| :: s[i] == s[1..][i - 1];
      rest
  }

  /** `s` without the characters at its end that `drop` holds for. */
  function TrimEnd(s: string, drop: char -> bool): (r: string)
    ensures |r| <= |s| && r == s[..|r|]
    ensures r == [] || !drop(r[|r| - 1])
    ensures forall i | |r| <= i < |s| :: drop(s[i])
  {
    if s == [] || !drop(s[|s| - 1]) then s
    else TrimEnd(s[..|s| - 1], drop)
  }

  /** Trimming a padding that `drop` holds for throughout, in front of a
      string that does not start with a dropped character, gives the
      string back. */
  lemma {:induction false} TrimStartPad(pad: string, s: string, drop: char -> bool)
    requires forall i | 0 <= i < |pad| :: drop(pad[i])
    requires s == [] || !drop(s[0])
    ensures TrimStart(pad + s, drop) == s
  {
    if pad != [] {
      assert (pad + s)[1..] == pad[1..] + s;
      TrimStartPad(pad[1..], s, drop);
    }
  }

  /** The same at the end of the string. */
  lemma {:induction false} TrimEndPad(s: string, pad: string, drop: char -> bool)
    requires forall i | 0 <= i < |pad| :: drop(pad[i])
    requires s == [] || !drop(s[|s| - 1])
    ensures TrimEnd(s + pad, drop) == s
  {
    if pad != [] {
      var n := |pad| - 1;
      assert (s + pad)[..|s + pad| - 1] == s + pad[..n];
      TrimEndPad(s, pad[..n], drop);
    }
  }

  /** Trimming both ends of a padded string whose own ends are kept gives
      the string back. */
  lemma TrimBothPad(front: string, s: string, back: string, drop: char -> bool)
    requires s != [] && !drop(s[0]) && !drop(s[|s| - 1])
    requires forall i | 0 <= i < |front| :: drop(front[i])
    requires forall i | 0 <= i < |back| :: drop(back[i])
    ensures TrimEnd(TrimStart(front + s + back, drop), drop) == s
  {
    var rest := s + back;
    assert rest[0] == s[0];
    assert front + s + back == front + rest;
    TrimStartPad(front, rest, drop);
    assert TrimStart(front + s + back, drop) == rest;
    TrimEndPad(s, back, drop);
  }
}
