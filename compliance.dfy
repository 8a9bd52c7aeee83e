/** The compliance rule `isAllowed` of src/store/drones.js. */
module Compliance {

  /** Index of the first `c` in `s`, or `|s|` when there is none. */
  function IndexOf(s: string, c: char): (i: nat)
    ensures i <= |s|
    ensures i < |s| ==> s[i] == c
    ensures forall j :: 0 <= j < i ==> s[j] != c
  {
    if |s| == 0 then 0 else if s[0] == c then 0 else 1 + IndexOf(s[1..], c)
  }

  /** `s.split(sep)` for a one-character separator: "a-b-" gives ["a", "b", ""], "" gives [""]. */
  function Split(s: string, sep: char): (parts: seq<string>)
    ensures |parts| >= 1
    decreases |s|
  {
    var i := IndexOf(s, sep);
    if i == |s| then [s] else [s[..i]] + Split(s[i + 1..], sep)
  }

  /** `parts.join(sep)`, the inverse of `Split`. */
  function Join(parts: seq<string>, sep: char): string {
    if |parts| == 0 then "" else if |parts| == 1 then parts[0] else parts[0] + [sep] + Join(parts[1..], sep)
  }

  /** Splitting loses nothing: joining the parts back gives the code, and no part holds the separator. */
  lemma {:induction false} SplitJoin(s: string, sep: char)
    ensures Join(Split(s, sep), sep) == s
    ensures forall k :: 0 <= k < |Split(s, sep)| ==> sep !in Split(s, sep)[k]
    decreases |s|
  {
    var i := IndexOf(s, sep);
    if i < |s| {
      var rest := s[i + 1..];
      SplitJoin(rest, sep);
      assert s == s[..i] + [sep] + rest;
      var parts := Split(s, sep);
      assert parts == [s[..i]] + Split(rest, sep);
      assert parts[1..] == Split(rest, sep);
      forall k | 0 <= k < |parts| ensures sep !in parts[k] {
        if k > 0 {
          assert parts[k] == Split(rest, sep)[k - 1];
        }
      }
    }
  }

  /** There is more than one part exactly when the separator occurs; the first two parts are the text around it. */
  lemma SplitParts(s: string, sep: char)
    ensures var parts := Split(s, sep);
      && (|parts| > 1 <==> sep in s)
      && parts[0] == s[..IndexOf(s, sep)]
      && (sep in s ==> parts[1] == Split(s[IndexOf(s, sep) + 1..], sep)[0])
  {
  }

  /** The part `isAllowed` inspects: the second part when there is more than one, else the only one. */
  function JudgedPart(registration: string): string {
    var parts := Split(registration, '-');
    if |parts| > 1 then parts[1] else parts[0]
  }

  /** The inspected part starts with 'B' exactly when the character after the first '-' (or, without '-', the first character) is 'B'. */
  lemma JudgedPartHead(s: string)
    ensures (|JudgedPart(s)| > 0 && JudgedPart(s)[0] == 'B') <==>
      if '-' in s then IndexOf(s, '-') + 1 < |s| && s[IndexOf(s, '-') + 1] == 'B'
      else |s| > 0 && s[0] == 'B'
  {
    SplitParts(s, '-');
    if '-' in s {
      SplitParts(s[IndexOf(s, '-') + 1..], '-');
    }
  }

  /**
   * A registration is compliant when it is non-empty and the part it is judged by starts
   * with 'B': the second '-'-separated part when there is more than one, the whole code otherwise.
   */
  function IsAllowed(registration: string): (allowed: bool)
    ensures allowed <==>
      if '-' in registration then
        var i := IndexOf(registration, '-');
        i + 1 < |registration| && registration[i + 1] == 'B'
      else
        |registration| > 0 && registration[0] == 'B'
  {
    JudgedPartHead(registration);
    if registration == "" then false
    else
      var part := JudgedPart(registration);
      |part| > 0 && part[0] == 'B'
  }

  /** The worked examples of the rule. */
  lemma IsAllowedExamples()
    ensures IsAllowed("SG-BA")
    ensures !IsAllowed("SD-CA")
    ensures IsAllowed("B123")
    ensures !IsAllowed("")
    ensures !IsAllowed("X-Y")
  {
    assert "SG-BA"[2] == '-';
    assert "SD-CA"[2] == '-';
    assert "X-Y"[1] == '-';
  }
}
