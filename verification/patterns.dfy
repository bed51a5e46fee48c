/**
 The two regular-expression deletions of stage 1, `re.sub(pattern, '', s)` with
   `\s*\(Phase\s*\d+\)`   applied to the language model's reply before it is saved, and
   `Subtask \d+\.\d+:`    applied to a subtask title before it becomes a Jira summary.
 Neither pattern can match the empty string, and in both every greedy run is followed by a
 character the run cannot contain (`(` after `\s*`, `)`, `.` or `:` after `\d+`), so a match at
 a position, when there is one, has exactly one length and no backtracking is needed.
 `re.sub` scans left to right, deletes a match and resumes after it, and otherwise keeps one
 character and moves on.
 */
module Patterns {
  import opened Text

  datatype Pattern = PhaseMarker | SubtaskLabel

  const PhaseWord := "(Phase"
  const LabelWord := "Subtask "

  /** Length of the leading whitespace run: how far a greedy `\s*` reaches. */
  function SpaceRun(s: string): (n: nat)
    ensures n <= |s|
    ensures AllSpace(s[..n])
    ensures n < |s| ==> !IsSpace(s[n])
    decreases |s|
  {
    if s != [] && IsSpace(s[0]) then
      var k := SpaceRun(s[1..]);
      assert s[..1 + k] == [s[0]] + s[1..][..k];
      1 + k
    else 0
  }

  /** `\d+` followed by the character `close`, at the start of `s`: the length consumed, or 0. */
  function DigitsThen(s: string, close: char): (n: nat)
    ensures n <= |s|
    ensures n > 0 ==> n >= 2 && AllDigits(s[..n - 1]) && s[n - 1] == close
  {
    var d := DigitRun(s);
    if d > 0 && d < |s| && s[d] == close then d + 1 else 0
  }

  /** Length of the match of `p` at the very start of `s`, 0 when there is none. */
  function MatchLen(p: Pattern, s: string): (n: nat)
    ensures n <= |s|
    ensures n > 0 ==> n >= 2
  {
    match p
    case PhaseMarker => PhaseLen(s)
    case SubtaskLabel => LabelLen(s)
  }

  /** `\s*\(Phase\s*\d+\)` at the start of `s`. */
  function PhaseLen(s: string): (n: nat)
    ensures n <= |s|
    ensures n > 0 ==> n >= 2
  {
    var w := SpaceRun(s);
    var t := s[w..];
    if !StartsWith(t, PhaseWord) then 0
    else
      var u := t[|PhaseWord|..];
      var w2 := SpaceRun(u);
      var d := DigitsThen(u[w2..], ')');
      if d == 0 then 0 else w + |PhaseWord| + w2 + d
  }

  /** `Subtask \d+\.\d+:` at the start of `s`. */
  function LabelLen(s: string): (n: nat)
    ensures n <= |s|
    ensures n > 0 ==> n >= 2
  {
    if !StartsWith(s, LabelWord) then 0
    else
      var t := s[|LabelWord|..];
      var d1 := DigitsThen(t, '.');
      if d1 == 0 then 0
      else
        var d2 := DigitsThen(t[d1..], ':');
        if d2 == 0 then 0 else |LabelWord| + d1 + d2
  }

  /** No match of `p` starts anywhere in `s`. */
  predicate MatchFree(p: Pattern, s: string) {
    forall i :: 0 <= i < |s| ==> MatchLen(p, s[i..]) == 0
  }

  /** `re.sub(p, '', s)`. */
  function RemoveMatches(p: Pattern, s: string): (r: string)
    ensures |r| <= |s|
    decreases |s|
  {
    if s == [] then []
    else
      var n := MatchLen(p, s);
      if n > 0 then RemoveMatches(p, s[n..]) else [s[0]] + RemoveMatches(p, s[1..])
  }

  /** A deletion changes the text exactly when the pattern occurs in it somewhere. */
  lemma {:induction false} RemoveMatchesUnchanged(p: Pattern, s: string)
    ensures RemoveMatches(p, s) == s <==> MatchFree(p, s)
    decreases |s|
  {
    if s != [] {
      if MatchLen(p, s) > 0 {
        MatchAtStart(p, s);
      } else {
        RemoveMatchesUnchanged(p, s[1..]);
        MatchFreeCons(p, s);
        KeepFirst(p, s);
      }
    }
  }

  lemma MatchAtStart(p: Pattern, s: string)
    requires s != [] && MatchLen(p, s) > 0
    ensures RemoveMatches(p, s) != s && !MatchFree(p, s)
  {
    var n := MatchLen(p, s);
    assert RemoveMatches(p, s) == RemoveMatches(p, s[n..]);
    assert s[0..] == s;
  }

  lemma KeepFirst(p: Pattern, s: string)
    requires s != [] && MatchLen(p, s) == 0
    ensures RemoveMatches(p, s) == s <==> RemoveMatches(p, s[1..]) == s[1..]
  {
    var r1 := RemoveMatches(p, s[1..]);
    assert RemoveMatches(p, s) == [s[0]] + r1;
    assert ([s[0]] + r1)[1..] == r1;
    assert s == [s[0]] + s[1..];
  }

  /** Past a position with no match, match-freedom is decided by the rest. */
  lemma MatchFreeCons(p: Pattern, s: string)
    requires s != [] && MatchLen(p, s) == 0
    ensures MatchFree(p, s) <==> MatchFree(p, s[1..])
  {
    if MatchFree(p, s[1..]) {
      forall i | 0 <= i < |s|
        ensures MatchLen(p, s[i..]) == 0
      {
        if i > 0 {
          assert s[i..] == s[1..][i - 1..];
        } else {
          assert s[i..] == s;
        }
      }
    }
    if MatchFree(p, s) {
      forall j | 0 <= j < |s[1..]|
        ensures MatchLen(p, s[1..][j..]) == 0
      {
        assert s[1..][j..] == s[j + 1..];
      }
    }
  }

  /** The cleaner applied to the model's reply: markers deleted, then `strip()`. */
  function CleanReply(content: string): (r: string)
    ensures r == [] || Trimmed(r)
    ensures |r| <= |content|
  {
    Strip(RemoveMatches(PhaseMarker, content))
  }

  /** A reply without markers is only stripped. */
  lemma CleanReplyWithoutMarkers(content: string)
    requires MatchFree(PhaseMarker, content)
    ensures CleanReply(content) == Strip(content)
  {
    RemoveMatchesUnchanged(PhaseMarker, content);
  }

  /** The Jira summary of a subtask: labels deleted, then `strip()`. */
  function SubtaskSummary(title: string): (r: string)
    ensures r == [] || Trimmed(r)
    ensures |r| <= |title|
  {
    Strip(RemoveMatches(SubtaskLabel, title))
  }

  /** A title without labels is only stripped; one already trimmed is kept as it is. */
  lemma SubtaskSummaryWithoutLabels(title: string)
    requires MatchFree(SubtaskLabel, title)
    ensures SubtaskSummary(title) == Strip(title)
    ensures Trimmed(title) ==> SubtaskSummary(title) == title
  {
    RemoveMatchesUnchanged(SubtaskLabel, title);
    if Trimmed(title) {
      StripTrimmed(title);
    }
  }

  /** A whole marker, `(Phase` + whitespace + digits + `)`. */
  function Marker(ws: string, ds: string): string {
    PhaseWord + ws + ds + ")"
  }

  /** A marker with its opening parenthesis missing. */
  function Headless(ws: string, ds: string): string {
    "Phase" + ws + ds + ")"
  }

  /** One pass does not remove every marker: deleting the inner marker of a text shaped like
      `((Phase 1)Phase 2)` joins its two halves into a new marker, `(Phase 2)`. */
  lemma PhaseMarkerSurvivesOnePass(ws1: string, d1: string, ws2: string, d2: string)
    requires AllSpace(ws1) && d1 != [] && AllDigits(d1)
    requires AllSpace(ws2) && d2 != [] && AllDigits(d2)
    ensures RemoveMatches(PhaseMarker, "(" + (Marker(ws1, d1) + Headless(ws2, d2))) == Marker(ws2, d2)
    ensures !MatchFree(PhaseMarker, Marker(ws2, d2))
  {
    InnerMarkerDeleted(ws1, d1, ws2, d2);
    ParenCompletesMarker(ws2, d2);
    WholeMarker(ws2, d2);
  }

  lemma InnerMarkerDeleted(ws1: string, d1: string, ws2: string, d2: string)
    requires AllSpace(ws1) && d1 != [] && AllDigits(d1)
    requires AllSpace(ws2) && AllDigits(d2)
    ensures RemoveMatches(PhaseMarker, "(" + (Marker(ws1, d1) + Headless(ws2, d2))) == "(" + Headless(ws2, d2)
  {
    ParenKept(Marker(ws1, d1) + Headless(ws2, d2));
    SkipMarker(ws1, d1, Headless(ws2, d2));
    TailUnchanged(ws2, d2);
  }

  lemma ParenCompletesMarker(ws: string, ds: string)
    ensures "(" + Headless(ws, ds) == Marker(ws, ds)
  {
  }

  lemma ParenKept(t: string)
    requires t != [] && t[0] == '('
    ensures RemoveMatches(PhaseMarker, "(" + t) == "(" + RemoveMatches(PhaseMarker, t)
  {
    var s := "(" + t;
    NoMarkerBeforeParen(t);
    assert s[1..] == t;
    KeepUnmatched(PhaseMarker, s);
  }

  lemma SkipMarker(ws: string, ds: string, tail: string)
    requires AllSpace(ws) && ds != [] && AllDigits(ds)
    ensures RemoveMatches(PhaseMarker, Marker(ws, ds) + tail) == RemoveMatches(PhaseMarker, tail)
  {
    var t := Marker(ws, ds) + tail;
    MarkerAt(ws, ds, tail);
    assert t[|PhaseWord| + |ws| + |ds| + 1..] == tail;
    SkipMatch(PhaseMarker, t);
  }

  lemma WholeMarker(ws: string, ds: string)
    requires AllSpace(ws) && ds != [] && AllDigits(ds)
    ensures !MatchFree(PhaseMarker, Marker(ws, ds))
  {
    var m := Marker(ws, ds);
    MarkerAt(ws, ds, "");
    assert m + "" == m && m[0..] == m;
  }

  /** `re.sub` keeps a character where no match starts... */
  lemma KeepUnmatched(p: Pattern, s: string)
    requires s != [] && MatchLen(p, s) == 0
    ensures RemoveMatches(p, s) == [s[0]] + RemoveMatches(p, s[1..])
  {
  }

  /** ...and resumes right after a match it deletes. */
  lemma SkipMatch(p: Pattern, s: string)
    requires s != [] && MatchLen(p, s) > 0
    ensures RemoveMatches(p, s) == RemoveMatches(p, s[MatchLen(p, s)..])
  {
  }

  lemma TailUnchanged(ws: string, ds: string)
    requires AllSpace(ws) && AllDigits(ds)
    ensures RemoveMatches(PhaseMarker, Headless(ws, ds)) == Headless(ws, ds)
  {
    TailHasNoParen(ws, ds);
    PhaseFreeWithoutParen(Headless(ws, ds));
    RemoveMatchesUnchanged(PhaseMarker, Headless(ws, ds));
  }

  lemma TailHasNoParen(ws: string, ds: string)
    requires AllSpace(ws) && AllDigits(ds)
    ensures '(' !in Headless(ws, ds)
  {
    var tail := Headless(ws, ds);
    forall i | 0 <= i < |tail|
      ensures tail[i] != '('
    {
      if 5 <= i < 5 + |ws| {
        assert tail[i] == ws[i - 5];
      } else if 5 + |ws| <= i < 5 + |ws| + |ds| {
        assert tail[i] == ds[i - 5 - |ws|];
      }
    }
  }

  /** A `(` directly followed by another `(` starts no marker. */
  lemma NoMarkerBeforeParen(t: string)
    requires t != [] && t[0] == '('
    ensures PhaseLen(['('] + t) == 0
  {
    var s := ['('] + t;
    assert SpaceRun(s) == 0 && s[0..] == s;
    assert |s| >= 6 ==> s[..6][1] == '(' && PhaseWord[1] == 'P';
  }

  /** Where a whole marker starts, the match covers it exactly. */
  lemma MarkerAt(ws: string, ds: string, rest: string)
    requires AllSpace(ws) && ds != [] && AllDigits(ds)
    ensures PhaseLen(Marker(ws, ds) + rest) == |PhaseWord| + |ws| + |ds| + 1
  {
    var s := Marker(ws, ds) + rest;
    assert SpaceRun(s) == 0;
    assert s[0..] == s && s[..|PhaseWord|] == PhaseWord;
    var u := s[|PhaseWord|..];
    assert u == ws + (ds + ")" + rest);
    SpaceRunOf(ws, ds + ")" + rest);
    assert u[|ws|..] == ds + (")" + rest);
    DigitRunOfDigits(ds, ")" + rest);
    assert (ds + (")" + rest))[|ds|] == ')';
  }

  lemma {:induction false} SpaceRunOf(ws: string, rest: string)
    requires AllSpace(ws) && (rest == [] || !IsSpace(rest[0]))
    ensures SpaceRun(ws + rest) == |ws|
    decreases |ws|
  {
    if ws == [] {
      assert ws + rest == rest;
    } else {
      assert (ws + rest)[1..] == ws[1..] + rest;
      SpaceRunOf(ws[1..], rest);
    }
  }

  /** A marker needs a `(`. */
  lemma PhaseFreeWithoutParen(s: string)
    requires '(' !in s
    ensures MatchFree(PhaseMarker, s)
  {
    forall i | 0 <= i < |s|
      ensures MatchLen(PhaseMarker, s[i..]) == 0
    {
      var t := s[i..];
      var w := SpaceRun(t);
      assert !StartsWith(t[w..], PhaseWord) by {
        if w < |t| {
          assert t[w..][0] == s[i + w];
        }
      }
    }
  }
}
