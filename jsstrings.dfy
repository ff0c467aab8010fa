/** The few JavaScript string operations the two source files rely on:
    `split('.')`, `indexOf`, `toUpperCase` on ASCII, the `^_` replacement and the
    `^169\.254\.` prefix test. */
module JsStrings {

  /** `s.split('.')`: the pieces between the dots, in order. As in JavaScript,
      the empty string gives one empty piece and two adjacent dots give an
      empty piece between them. */
  function Split(s: string): (parts: seq<string>)
    ensures |parts| >= 1
    ensures forall i :: 0 <= i < |parts| ==> '.' !in parts[i]
    decreases |s|
  {
    if s == [] then [[]]
    else
      var rest := Split(s[1..]);
      if s[0] == '.' then [[]] + rest
      else [[s[0]] + rest[0]] + rest[1..]
  }

  /** `parts.join('.')`. */
  function Join(parts: seq<string>): (s: string)
    requires |parts| >= 1
  {
    if |parts| == 1 then parts[0] else parts[0] + "." + Join(parts[1..])
  }

  lemma {:induction false} JoinSplit(s: string)
    ensures Join(Split(s)) == s
    decreases |s|
  {
    if s != [] {
      var rest := Split(s[1..]);
      JoinSplit(s[1..]);
      if s[0] == '.' {
        assert ([[]] + rest)[1..] == rest;
      } else {
        var parts := [[s[0]] + rest[0]] + rest[1..];
        if |rest| > 1 {
          assert parts[1..] == rest[1..];
          assert Join(rest) == rest[0] + "." + Join(rest[1..]);
        }
      }
    }
  }

  lemma {:induction false} SplitJoin(parts: seq<string>)
    requires |parts| >= 1
    requires forall i :: 0 <= i < |parts| ==> '.' !in parts[i]
    ensures Split(Join(parts)) == parts
    decreases |parts|, |parts[0]|
  {
    if |parts| == 1 {
      SplitNoDot(parts[0]);
    } else if parts[0] == [] {
      var tail := Join(parts[1..]);
      assert Join(parts) == "." + tail;
      SplitJoin(parts[1..]);
      assert ("." + tail)[1..] == tail;
    } else {
      var p0 := parts[0];
      var shorter := [p0[1..]] + parts[1..];
      assert shorter[1..] == parts[1..];
      assert Join(shorter) == p0[1..] + "." + Join(parts[1..]);
      SplitJoin(shorter);
      assert Join(parts)[1..] == Join(shorter);
      assert Join(parts)[0] == p0[0] && p0[0] != '.';
      assert [p0[0]] + p0[1..] == p0;
    }
  }

  lemma {:induction false} SplitNoDot(s: string)
    requires '.' !in s
    ensures Split(s) == [s]
    decreases |s|
  {
    if s != [] {
      SplitNoDot(s[1..]);
      assert [s[0]] + s[1..] == s;
    }
  }

  predicate MatchAt(s: string, sub: string, k: int) {
    0 <= k && k + |sub| <= |s| && s[k..k + |sub|] == sub
  }

  /** `s.indexOf(sub, from)`: the first position at or after `from` where `sub`
      occurs, or -1. */
  function IndexOfFrom(s: string, sub: string, from: nat): (r: int)
    ensures r == -1 || (from <= r && MatchAt(s, sub, r))
    ensures r >= 0 ==> forall j :: from <= j < r ==> !MatchAt(s, sub, j)
    ensures r == -1 <==> forall j :: from <= j ==> !MatchAt(s, sub, j)
    decreases |s| - from
  {
    if from + |sub| > |s| then -1
    else if s[from..from + |sub|] == sub then from
    else IndexOfFrom(s, sub, from + 1)
  }

  /** `s.indexOf(sub)`: the first position where `sub` occurs, or -1 when it
      occurs nowhere. */
  function IndexOf(s: string, sub: string): (r: int)
    ensures r == -1 || MatchAt(s, sub, r)
    ensures r >= 0 ==> forall j :: 0 <= j < r ==> !MatchAt(s, sub, j)
    ensures r == -1 <==> forall j :: 0 <= j ==> !MatchAt(s, sub, j)
  {
    IndexOfFrom(s, sub, 0)
  }

  /** `s.indexOf(sub) >= 0` holds exactly when `sub` is a substring of `s`. */
  lemma IndexOfFindsSubstring(s: string, sub: string)
    ensures IndexOf(s, sub) >= 0 <==> exists k :: MatchAt(s, sub, k)
  {
  }

  function UpperChar(c: char): char {
    if 'a' <= c <= 'z' then (c as int - 32) as char else c
  }

  /** `toUpperCase()` for the ASCII strings the `type` option may hold: no
      lower-case letter is left, upper-case letters, digits and `*` are kept,
      and each lower-case letter becomes its upper-case partner. */
  function ToUpperAscii(s: string): (r: string)
    ensures |r| == |s|
    ensures forall i :: 0 <= i < |r| ==> !('a' <= r[i] <= 'z')
    ensures forall i :: 0 <= i < |s| && !('a' <= s[i] <= 'z') ==> r[i] == s[i]
    ensures forall i :: 0 <= i < |s| && 'a' <= s[i] <= 'z' ==> r[i] as int == s[i] as int - 32 && 'A' <= r[i] <= 'Z'
  {
    seq(|s|, i requires 0 <= i < |s| => UpperChar(s[i]))
  }

  /** `s.replace(/^_/, '')`: drops one leading underscore, if there is one. */
  function StripUnderscore(s: string): (r: string)
    ensures |s| > 0 && s[0] == '_' ==> s == ['_'] + r
    ensures (|s| == 0 || s[0] != '_') ==> r == s
  {
    if |s| > 0 && s[0] == '_' then s[1..] else s
  }

  predicate StartsWith(s: string, prefix: string) {
    |prefix| <= |s| && s[..|prefix|] == prefix
  }
}
