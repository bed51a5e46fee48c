/**
 String primitives the pipeline relies on, modelled after the Python built-ins they stand for:
 `str.strip`, `str.split('\n')`, `sep.join`, `str.startswith`, `in` on strings, `int()` and
 `str()` on decimal numerals, and the ASCII part of `str.lower`.
 */
module Text {

  /** The characters Python's `str.isspace` accepts; the regular-expression class `\s` on
      `str` patterns matches the same set. */
  predicate IsSpace(c: char) {
    || c == ' '
    || ('\t' <= c <= '\r')
    || ('\U{1C}' <= c <= '\U{1F}')
    || c == '\U{85}' || c == '\U{A0}' || c == '\U{1680}'
    || ('\U{2000}' <= c <= '\U{200A}')
    || c == '\U{2028}' || c == '\U{2029}' || c == '\U{202F}' || c == '\U{205F}' || c == '\U{3000}'
  }

  /** ASCII decimal digit, the model's reading of `\d`. */
  predicate IsDigit(c: char) {
    '0' <= c <= '9'
  }

  predicate IsAsciiUpper(c: char) {
    'A' <= c <= 'Z'
  }

  predicate IsAsciiLower(c: char) {
    'a' <= c <= 'z'
  }

  predicate AllSpace(s: string) {
    forall i :: 0 <= i < |s| ==> IsSpace(s[i])
  }

  predicate AllDigits(s: string) {
    forall i :: 0 <= i < |s| ==> IsDigit(s[i])
  }

  /** A non-empty string that neither starts nor ends with whitespace: `strip` leaves it alone. */
  predicate Trimmed(s: string) {
    s != [] && !IsSpace(s[0]) && !IsSpace(s[|s| - 1])
  }

  predicate StartsWith(s: string, prefix: string) {
    |prefix| <= |s| && s[..|prefix|] == prefix
  }

  // ---------------------------------------------------------------------------
  // strip

  function TrimStart(s: string): (r: string)
    ensures |r| <= |s| && r == s[|s| - |r|..]
    ensures AllSpace(s[..|s| - |r|])
    ensures r == [] || !IsSpace(r[0])
    decreases |s|
  {
    if s != [] && IsSpace(s[0]) then
      var r := TrimStart(s[1..]);
      var dropped := s[..|s| - |r|];
      assert AllSpace(dropped) by {
        forall j | 0 <= j < |dropped|
          ensures IsSpace(dropped[j])
        {
          if j > 0 {
            assert dropped[j] == s[1..][..|s[1..]| - |r|][j - 1];
          }
        }
      }
      r
    else s
  }

  function TrimEnd(s: string): (r: string)
    ensures |r| <= |s| && r == s[..|r|]
    ensures AllSpace(s[|r|..])
    ensures r == [] || !IsSpace(r[|r| - 1])
    decreases |s|
  {
    if s != [] && IsSpace(s[|s| - 1]) then
      var r := TrimEnd(s[..|s| - 1]);
      var dropped := s[|r|..];
      assert AllSpace(dropped) by {
        forall j | 0 <= j < |dropped|
          ensures IsSpace(dropped[j])
        {
          if j < |dropped| - 1 {
            assert dropped[j] == s[..|s| - 1][|r|..][j];
          }
        }
      }
      r
    else s
  }

  /** Python's `str.strip()`: drops leading and trailing whitespace. */
  function Strip(s: string): (r: string)
    ensures r == [] || Trimmed(r)
    ensures |r| <= |s|
    ensures r == [] <==> AllSpace(s)
  {
    TrimBothEmpty(s);
    var t := TrimStart(s);
    var r := TrimEnd(t);
    assert r != [] ==> r[0] == t[0];
    r
  }

  /** Trimming both ends leaves nothing exactly when the string is all whitespace. */
  lemma TrimBothEmpty(s: string)
    ensures TrimEnd(TrimStart(s)) == [] <==> AllSpace(s)
  {
    TrimStartEmpty(s);
    TrimEndEmpty(TrimStart(s));
  }

  lemma {:induction false} TrimStartEmpty(s: string)
    ensures TrimStart(s) == [] <==> AllSpace(s)
    decreases |s|
  {
    if s != [] && IsSpace(s[0]) {
      TrimStartEmpty(s[1..]);
      assert AllSpace(s) <==> AllSpace(s[1..]) by {
        assert forall i :: 0 < i < |s| ==> s[i] == s[1..][i - 1];
      }
    }
  }

  lemma {:induction false} TrimEndEmpty(s: string)
    ensures TrimEnd(s) == [] <==> AllSpace(s)
    decreases |s|
  {
    if s != [] && IsSpace(s[|s| - 1]) {
      TrimEndEmpty(s[..|s| - 1]);
      assert AllSpace(s) <==> AllSpace(s[..|s| - 1]) by {
        assert forall i :: 0 <= i < |s| - 1 ==> s[i] == s[..|s| - 1][i];
      }
    }
  }

  lemma {:induction false} TrimStartPastSpace(a: string, m: string)
    requires AllSpace(a)
    requires m == [] || !IsSpace(m[0])
    ensures TrimStart(a + m) == m
    decreases |a|
  {
    if a != [] {
      assert (a + m)[1..] == a[1..] + m;
      TrimStartPastSpace(a[1..], m);
    } else {
      assert a + m == m;
    }
  }

  lemma {:induction false} TrimEndPastSpace(m: string, b: string)
    requires AllSpace(b)
    requires m == [] || !IsSpace(m[|m| - 1])
    ensures TrimEnd(m + b) == m
    decreases |b|
  {
    if b != [] {
      assert (m + b)[..|m + b| - 1] == m + b[..|b| - 1];
      TrimEndPastSpace(m, b[..|b| - 1]);
    } else {
      assert m + b == m;
    }
  }

  /** `strip` of whitespace + `m` + whitespace is exactly `m` whenever `m` is itself trimmed:
      the characterisation of `strip` independent of how it scans. */
  lemma StripExact(a: string, m: string, b: string)
    requires AllSpace(a) && AllSpace(b) && Trimmed(m)
    ensures Strip(a + m + b) == m
  {
    assert a + m + b == a + (m + b);
    TrimStartPastSpace(a, m + b);
    TrimEndPastSpace(m, b);
  }

  lemma StripTrimmed(m: string)
    requires Trimmed(m)
    ensures Strip(m) == m
  {
    assert [] + m + [] == m;
    StripExact([], m, []);
  }

  // ---------------------------------------------------------------------------
  // split and join

  /** Position of the first `c` in `s`, or `|s|` when there is none. */
  function IndexOf(s: string, c: char): (i: nat)
    ensures i <= |s|
    ensures c !in s[..i]
    ensures i < |s| ==> s[i] == c
    ensures i == |s| <==> c !in s
    decreases |s|
  {
    if s == [] then 0
    else if s[0] == c then 0
    else
      var j := IndexOf(s[1..], c);
      assert s[..1 + j] == [s[0]] + s[1..][..j];
      assert j == |s[1..]| ==> s == [s[0]] + s[1..];
      1 + j
  }

  lemma {:induction false} IndexOfAfterPrefix(a: string, c: char, b: string)
    requires c !in a
    ensures IndexOf(a + [c] + b, c) == |a|
    decreases |a|
  {
    if a != [] {
      assert (a + [c] + b)[1..] == a[1..] + [c] + b;
      IndexOfAfterPrefix(a[1..], c, b);
    }
  }

  /** Python's `sep.join(parts)`. */
  function Join(parts: seq<string>, sep: string): string
    decreases |parts|
  {
    if |parts| == 0 then ""
    else if |parts| == 1 then parts[0]
    else parts[0] + sep + Join(parts[1..], sep)
  }

  /** Python's `s.split(sep)` for a one-character separator: always at least one piece, the
      pieces hold no separator, and joining them back with it gives `s` again. */
  function Split(s: string, sep: char): (r: seq<string>)
    ensures |r| >= 1
    ensures forall i :: 0 <= i < |r| ==> sep !in r[i]
    ensures Join(r, [sep]) == s
    decreases |s|
  {
    var i := IndexOf(s, sep);
    if i == |s| then [s]
    else
      var rest := Split(s[i + 1..], sep);
      var r := [s[..i]] + rest;
      assert r[1..] == rest;
      assert s == s[..i] + [sep] + s[i + 1..];
      r
  }

  /** The other half of the round trip: splitting a join of separator-free pieces gives the pieces back. */
  lemma {:induction false} SplitJoin(parts: seq<string>, sep: char)
    requires |parts| >= 1
    requires forall i :: 0 <= i < |parts| ==> sep !in parts[i]
    ensures Split(Join(parts, [sep]), sep) == parts
    decreases |parts|
  {
    if |parts| == 1 {
      assert sep !in parts[0];
    } else {
      var tail := Join(parts[1..], [sep]);
      assert Join(parts, [sep]) == parts[0] + [sep] + tail;
      assert Split(parts[0] + [sep] + tail, sep) == [parts[0]] + Split(tail, sep) by {
        SplitFirst(parts[0], sep, tail);
      }
      assert forall i :: 0 <= i < |parts[1..]| ==> sep !in parts[1..][i] by {
        forall i | 0 <= i < |parts[1..]| ensures sep !in parts[1..][i] {
          assert parts[1..][i] == parts[i + 1];
        }
      }
      SplitJoin(parts[1..], sep);
      assert parts == [parts[0]] + parts[1..];
    }
  }

  /** A separator-free first piece comes off as the first part of the split. */
  lemma SplitFirst(a: string, sep: char, b: string)
    requires sep !in a
    ensures Split(a + [sep] + b, sep) == [a] + Split(b, sep)
  {
    IndexOfAfterPrefix(a, sep, b);
    var s := a + [sep] + b;
    assert s[..|a|] == a;
    assert s[|a| + 1..] == b;
  }

  /** Everything before the first line break: what a regular-expression `.+` or `.*` at the
      end of a pattern captures. */
  function TakeLine(s: string): (r: string)
    ensures '\n' !in r
    ensures StartsWith(s, r)
    ensures '\n' !in s ==> r == s
  {
    s[..IndexOf(s, '\n')]
  }

  function Concat(parts: seq<string>): string
    decreases |parts|
  {
    if parts == [] then "" else parts[0] + Concat(parts[1..])
  }

  lemma {:induction false} ConcatAppend(a: seq<string>, b: seq<string>)
    ensures Concat(a + b) == Concat(a) + Concat(b)
    decreases |a|
  {
    if a == [] {
      assert a + b == b;
    } else {
      assert (a + b)[1..] == a[1..] + b;
      ConcatAppend(a[1..], b);
    }
  }

  /** Python's `s[:n]`: the first `n` characters, or all of `s` when it is shorter. */
  function Take(s: string, n: nat): (r: string)
    ensures |r| == if |s| <= n then |s| else n
    ensures StartsWith(s, r)
    ensures r == s <==> |s| <= n
  {
    if |s| <= n then s else s[..n]
  }

  /** Each item as a Markdown bullet, `f"- {item}"`. */
  function Bullets(items: seq<string>): (r: seq<string>)
    ensures |r| == |items|
    ensures forall i :: 0 <= i < |items| ==> r[i] == "- " + items[i]
  {
    seq(|items|, i requires 0 <= i < |items| => "- " + items[i])
  }

  /** Joining two non-empty lists of pieces puts one separator between them. */
  lemma {:induction false} JoinAppend(a: seq<string>, b: seq<string>, sep: string)
    requires a != [] && b != []
    ensures Join(a + b, sep) == Join(a, sep) + sep + Join(b, sep)
    decreases |a|
  {
    if |a| == 1 {
      assert (a + b)[1..] == b;
    } else {
      assert (a + b)[1..] == a[1..] + b;
      JoinAppend(a[1..], b, sep);
    }
  }

  // ---------------------------------------------------------------------------
  // line-by-line rendering

  /** Each line followed by a line break: what a run of `f"...\n"` appends builds. */
  function Unlines(lines: seq<string>): string
    decreases |lines|
  {
    if lines == [] then "" else lines[0] + "\n" + Unlines(lines[1..])
  }

  lemma {:induction false} UnlinesAppend(a: seq<string>, b: seq<string>)
    ensures Unlines(a + b) == Unlines(a) + Unlines(b)
    decreases |a|
  {
    if a == [] {
      assert a + b == b;
    } else {
      assert (a + b)[1..] == a[1..] + b;
      UnlinesAppend(a[1..], b);
    }
  }

  /** `"\n".join(lines) + "\n"`, the form the Python code writes lists in, is `Unlines`. */
  lemma {:induction false} JoinUnlines(lines: seq<string>)
    requires lines != []
    ensures Join(lines, "\n") + "\n" == Unlines(lines)
    decreases |lines|
  {
    if |lines| > 1 {
      JoinUnlines(lines[1..]);
    }
  }

  /** Reading rendered lines back with `split('\n')` gives the lines and one empty piece after
      the final line break. */
  lemma SplitUnlines(lines: seq<string>)
    requires forall i :: 0 <= i < |lines| ==> '\n' !in lines[i]
    ensures Split(Unlines(lines), '\n') == lines + [""]
  {
    if lines == [] {
      assert Split("", '\n') == [""];
    } else {
      JoinUnlines(lines);
      JoinSnoc(lines, "\n");
      SplitJoin(lines + [""], '\n');
    }
  }

  lemma {:induction false} JoinSnoc(parts: seq<string>, sep: string)
    requires parts != []
    ensures Join(parts + [""], sep) == Join(parts, sep) + sep
    decreases |parts|
  {
    if |parts| == 1 {
      assert parts + [""] == [parts[0], ""];
    } else {
      assert (parts + [""])[1..] == parts[1..] + [""];
      JoinSnoc(parts[1..], sep);
    }
  }

  /** The lines of several blocks, one block after another. */
  function Flatten(blocks: seq<seq<string>>): seq<string>
    decreases |blocks|
  {
    if blocks == [] then [] else blocks[0] + Flatten(blocks[1..])
  }

  lemma {:induction false} FlattenAppend(a: seq<seq<string>>, b: seq<seq<string>>)
    ensures Flatten(a + b) == Flatten(a) + Flatten(b)
    decreases |a|
  {
    if a == [] {
      assert a + b == b;
    } else {
      assert (a + b)[1..] == a[1..] + b;
      FlattenAppend(a[1..], b);
    }
  }

  /** Each block rendered on its own, the renderings concatenated: the `+=` loop that builds a
      document block by block. */
  function RenderBlocks(blocks: seq<seq<string>>): string
    decreases |blocks|
  {
    if blocks == [] then "" else Unlines(blocks[0]) + RenderBlocks(blocks[1..])
  }

  /** Rendering the flattened lines at once gives the same text as appending block by block. */
  lemma {:induction false} UnlinesFlatten(blocks: seq<seq<string>>)
    ensures Unlines(Flatten(blocks)) == RenderBlocks(blocks)
    decreases |blocks|
  {
    if blocks != [] {
      UnlinesAppend(blocks[0], Flatten(blocks[1..]));
      UnlinesFlatten(blocks[1..]);
    }
  }

  /** The line at which block `i` starts once the blocks are flattened. */
  function Offset(blocks: seq<seq<string>>, i: nat): nat
    requires i <= |blocks|
  {
    |Flatten(blocks[..i])|
  }

  /** Line `j` of block `i` is line `Offset(blocks, i) + j` of the flattened blocks. */
  lemma FlattenAt(blocks: seq<seq<string>>, i: nat, j: nat)
    requires i < |blocks| && j < |blocks[i]|
    ensures Offset(blocks, i) + j < |Flatten(blocks)|
    ensures Flatten(blocks)[Offset(blocks, i) + j] == blocks[i][j]
  {
    assert blocks == blocks[..i] + blocks[i..];
    FlattenAppend(blocks[..i], blocks[i..]);
    assert blocks[i..][1..] == blocks[i + 1..];
  }

  /** Under a heading line that follows `pre`, block `j` starts at its offset past the heading. */
  lemma SectionAt(pre: seq<string>, heading: string, blocks: seq<seq<string>>, j: nat, k: nat)
    requires j < |blocks| && k < |blocks[j]|
    ensures |pre| + 1 + Offset(blocks, j) + k < |pre + [heading] + Flatten(blocks)|
    ensures (pre + [heading] + Flatten(blocks))[|pre| + 1 + Offset(blocks, j) + k] == blocks[j][k]
  {
    FlattenAt(blocks, j, k);
  }

  /** Blocks start one after another, each past the whole of the previous one. */
  lemma OffsetNext(blocks: seq<seq<string>>, i: nat)
    requires i < |blocks|
    ensures Offset(blocks, i + 1) == Offset(blocks, i) + |blocks[i]|
  {
    assert blocks[..i + 1] == blocks[..i] + [blocks[i]];
    FlattenAppend(blocks[..i], [blocks[i]]);
    assert Flatten([blocks[i]]) == blocks[i] + Flatten([]);
  }

  lemma OffsetAll(blocks: seq<seq<string>>)
    ensures Offset(blocks, |blocks|) == |Flatten(blocks)|
  {
    assert blocks[..|blocks|] == blocks;
  }

  /** A rendering starts with the rendering of any prefix of its lines. */
  lemma UnlinesPrefix(lines: seq<string>, n: nat)
    requires n <= |lines|
    ensures StartsWith(Unlines(lines), Unlines(lines[..n]))
  {
    assert lines == lines[..n] + lines[n..];
    UnlinesAppend(lines[..n], lines[n..]);
  }

  lemma StartsWithTrans(s: string, t: string, u: string)
    requires StartsWith(s, t) && StartsWith(t, u)
    ensures StartsWith(s, u)
  {
    assert s[..|u|] == s[..|t|][..|u|];
  }

  // ---------------------------------------------------------------------------
  // substring search

  /** Python's `needle in s`. */
  predicate Contains(s: string, needle: string)
    decreases |s|
  {
    StartsWith(s, needle) || (s != [] && Contains(s[1..], needle))
  }

  /** `needle` occurs in `s` starting at position `i`. */
  predicate OccursAt(s: string, needle: string, i: nat) {
    i + |needle| <= |s| && s[i..i + |needle|] == needle
  }

  /** `Contains` holds exactly when the needle occurs at some position. */
  lemma {:induction false} ContainsAt(s: string, needle: string)
    ensures Contains(s, needle) <==> exists i: nat :: OccursAt(s, needle, i)
    decreases |s|
  {
    if s != [] {
      ContainsAt(s[1..], needle);
      if StartsWith(s, needle) {
        assert OccursAt(s, needle, 0);
      }
      if Contains(s[1..], needle) {
        var i: nat :| OccursAt(s[1..], needle, i);
        assert s[1..][i..i + |needle|] == s[i + 1..i + 1 + |needle|];
        assert OccursAt(s, needle, i + 1);
      }
      if exists i: nat :: OccursAt(s, needle, i) {
        var i: nat :| OccursAt(s, needle, i);
        if i > 0 {
          assert s[1..][i - 1..i - 1 + |needle|] == s[i..i + |needle|];
          assert OccursAt(s[1..], needle, i - 1);
        } else {
          assert StartsWith(s, needle);
        }
      }
    } else {
      if Contains(s, needle) {
        assert OccursAt(s, needle, 0);
      }
      if exists i: nat :: OccursAt(s, needle, i) {
        var i: nat :| OccursAt(s, needle, i);
        assert StartsWith(s, needle);
      }
    }
  }

  // ---------------------------------------------------------------------------
  // decimal numerals

  /** Number of leading ASCII digits: how far a greedy `\d+` reaches. */
  function DigitRun(s: string): (n: nat)
    ensures n <= |s|
    ensures AllDigits(s[..n])
    ensures n < |s| ==> !IsDigit(s[n])
    decreases |s|
  {
    if s != [] && IsDigit(s[0]) then
      var k := DigitRun(s[1..]);
      assert s[..1 + k] == [s[0]] + s[1..][..k];
      1 + k
    else 0
  }

  lemma {:induction false} DigitRunOfDigits(ds: string, rest: string)
    requires AllDigits(ds)
    requires rest == [] || !IsDigit(rest[0])
    ensures DigitRun(ds + rest) == |ds|
    decreases |ds|
  {
    if ds != [] {
      assert (ds + rest)[1..] == ds[1..] + rest;
      DigitRunOfDigits(ds[1..], rest);
    } else {
      assert ds + rest == rest;
    }
  }

  function DigitValue(c: char): nat
    requires IsDigit(c)
  {
    (c as int) - ('0' as int)
  }

  function DigitChar(d: nat): (c: char)
    requires d < 10
    ensures IsDigit(c) && DigitValue(c) == d
  {
    (('0' as int) + d) as char
  }

  /** Python's `int()` on a string of ASCII digits. */
  function DigitsValue(ds: string): nat
    requires AllDigits(ds)
    decreases |ds|
  {
    if ds == [] then 0 else 10 * DigitsValue(ds[..|ds| - 1]) + DigitValue(ds[|ds| - 1])
  }

  /** Python's `str()` on a natural number; reading it back with `int()` gives the number. */
  function NatToString(n: nat): (r: string)
    ensures |r| >= 1 && AllDigits(r)
    ensures DigitsValue(r) == n
    ensures r[0] == '0' ==> n == 0
    decreases n
  {
    if n < 10 then [DigitChar(n)]
    else
      var r := NatToString(n / 10) + [DigitChar(n % 10)];
      assert r[..|r| - 1] == NatToString(n / 10);
      assert r[0] == NatToString(n / 10)[0];
      r
  }

  // ---------------------------------------------------------------------------
  // case

  function LowerChar(c: char): (d: char)
    ensures !IsAsciiUpper(d)
    ensures IsAsciiLower(c) || IsAsciiUpper(c) <==> IsAsciiLower(d)
    ensures !IsAsciiUpper(c) ==> d == c
  {
    if IsAsciiUpper(c) then (c as int + 32) as char else c
  }

  /** `str.lower()` restricted to ASCII letters; every other character is kept. */
  function AsciiLower(s: string): (r: string)
    ensures |r| == |s|
    ensures forall i :: 0 <= i < |s| ==> r[i] == LowerChar(s[i])
  {
    seq(|s|, i requires 0 <= i < |s| => LowerChar(s[i]))
  }
}
