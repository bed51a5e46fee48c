/**
 The feature branch stage 2 creates for each rebuilt task, and that stage 3 commits the task's
 test cases to: `feature/<key>-<slug>` cut to its first 50 characters. The slug keeps only the
 characters of the task summary that are ASCII letters, digits, whitespace or `-`, lowercases
 them, and turns each space (only the space character itself) into `-`.
 */
module Branches {
  import opened Text
  import opened Hierarchy
  import opened Wrappers
  import Readme

  const BranchPrefix := "feature/"
  const BranchLimit: nat := 50

  /** What the class `[a-zA-Z0-9\s-]` accepts. */
  predicate SlugChar(c: char) {
    IsAsciiUpper(c) || IsAsciiLower(c) || IsDigit(c) || IsSpace(c) || c == '-'
  }

  /** A character a slug can end up with: accepted, lower case, not a space. */
  predicate SlugOutputChar(c: char) {
    SlugChar(c) && !IsAsciiUpper(c) && c != ' '
  }

  /** `re.sub(r'[^a-zA-Z0-9\s-]', '', s)`: the accepted characters of `s`, in order. */
  function KeepSlugChars(s: string): (r: string)
    ensures |r| <= |s|
    decreases |s|
  {
    if s == [] then []
    else (if SlugChar(s[0]) then [s[0]] else []) + KeepSlugChars(s[1..])
  }

  /** The filter keeps only accepted characters, and leaves a string alone exactly when every
      character of it is accepted. */
  lemma {:induction false} KeepSlugCharsKeeps(s: string)
    ensures forall i :: 0 <= i < |KeepSlugChars(s)| ==> SlugChar(KeepSlugChars(s)[i])
    ensures KeepSlugChars(s) == s <==> forall i :: 0 <= i < |s| ==> SlugChar(s[i])
    decreases |s|
  {
    if s != [] {
      var rest := KeepSlugChars(s[1..]);
      KeepSlugCharsKeeps(s[1..]);
      var r := KeepSlugChars(s);
      if SlugChar(s[0]) {
        assert r == [s[0]] + rest;
        assert forall i :: 1 <= i < |r| ==> r[i] == rest[i - 1];
        assert forall i :: 1 <= i < |s| ==> s[i] == s[1..][i - 1];
      } else {
        assert r == rest;
      }
    }
  }

  /** The filter works character by character: it distributes over concatenation. */
  lemma {:induction false} KeepSlugCharsAppend(a: string, b: string)
    ensures KeepSlugChars(a + b) == KeepSlugChars(a) + KeepSlugChars(b)
    decreases |a|
  {
    if a == [] {
      assert a + b == b;
    } else {
      var first := if SlugChar(a[0]) then [a[0]] else [];
      assert (a + b)[0] == a[0] && (a + b)[1..] == a[1..] + b;
      KeepSlugCharsAppend(a[1..], b);
      calc {
        KeepSlugChars(a + b);
        first + KeepSlugChars(a[1..] + b);
        first + (KeepSlugChars(a[1..]) + KeepSlugChars(b));
        (first + KeepSlugChars(a[1..])) + KeepSlugChars(b);
        KeepSlugChars(a) + KeepSlugChars(b);
      }
    }
  }

  /** `.replace(' ', '-')`. */
  function Hyphenate(s: string): (r: string)
    ensures |r| == |s|
    ensures forall i :: 0 <= i < |s| ==> r[i] != ' '
    ensures forall i :: 0 <= i < |s| && s[i] != ' ' ==> r[i] == s[i]
  {
    seq(|s|, i requires 0 <= i < |s| => if s[i] == ' ' then '-' else s[i])
  }

  /** `sanitized_summary`. The `.lower()` is exact here: the only letters left are ASCII ones. */
  function Slug(summary: string): (r: string)
    ensures |r| <= |summary|
    ensures forall i :: 0 <= i < |r| ==> SlugOutputChar(r[i])
  {
    var kept := KeepSlugChars(summary);
    KeepSlugCharsKeeps(summary);
    var lowered := AsciiLower(kept);
    assert forall i :: 0 <= i < |lowered| ==> SlugChar(lowered[i]) by {
      forall i | 0 <= i < |lowered|
        ensures SlugChar(lowered[i])
      {
        assert SlugChar(kept[i]);
      }
    }
    Hyphenate(lowered)
  }

  /** The slugs are exactly the strings made of slug output characters: those and only those
      come out of `Slug` unchanged. */
  lemma SlugFixedPoint(s: string)
    ensures Slug(s) == s <==> forall i :: 0 <= i < |s| ==> SlugOutputChar(s[i])
  {
    KeepSlugCharsKeeps(s);
    if forall i :: 0 <= i < |s| ==> SlugOutputChar(s[i]) {
      assert KeepSlugChars(s) == s;
      assert AsciiLower(s) == s;
      assert Hyphenate(s) == s;
    }
  }

  /** Sanitising a slug again changes nothing. */
  lemma SlugIdempotent(s: string)
    ensures Slug(Slug(s)) == Slug(s)
  {
    SlugFixedPoint(Slug(s));
  }

  /** `branch_name`. */
  function BranchName(key: string, summary: string): (r: string)
    // The first 50 characters of `feature/<key>-<slug>`, or all of it when shorter.
    ensures StartsWith(BranchPrefix + key + "-" + Slug(summary), r)
    ensures |r| == if |BranchPrefix + key + "-" + Slug(summary)| <= BranchLimit
                   then |BranchPrefix + key + "-" + Slug(summary)| else BranchLimit
    ensures StartsWith(r, BranchPrefix)
    // The key is kept whole unless it is too long to fit before the cut.
    ensures |BranchPrefix + key + "-"| <= BranchLimit ==> StartsWith(r, BranchPrefix + key + "-")
    // What follows the key is a prefix of the slug.
    ensures |BranchPrefix + key + "-"| <= BranchLimit ==> StartsWith(Slug(summary), r[|BranchPrefix + key + "-"|..])
  {
    var head := BranchPrefix + key + "-";
    var full := head + Slug(summary);
    var r := Take(full, BranchLimit);
    assert StartsWith(full, BranchPrefix) by {
      assert full[..|BranchPrefix|] == BranchPrefix;
    }
    StartsWithTrans(full, r, BranchPrefix);
    assert |head| <= BranchLimit ==> StartsWith(r, head) && StartsWith(Slug(summary), r[|head|..]) by {
      if |head| <= BranchLimit {
        assert full[..|head|] == head;
        assert r[..|head|] == full[..|head|];
        assert r[|head|..] == Slug(summary)[..|r| - |head|];
      }
    }
    r
  }

  /** The branches `create_branches` creates: one per rebuilt task, in map order, none for
      subtasks. */
  function BranchNames(tasks: seq<(string, TaskInfo)>): (r: seq<string>)
    ensures |r| == |tasks|
  {
    seq(|tasks|, i requires 0 <= i < |tasks| => BranchName(tasks[i].0, tasks[i].1.summary))
  }

  // ---------------------------------------------------------------------------
  // The branch loop and its single exception handler

  /** What one pass of the loop leaves in the repository for a task: its branch, and the README
      written on it (`None` when the branch was created but the README write raised). */
  datatype BranchWrite = BranchWrite(branch: string, readme: Option<string>)

  /** The branch of a task, with its README when the write returned. */
  function Written(key: string, t: TaskInfo, withReadme: bool): (w: BranchWrite)
    ensures w.branch == BranchName(key, t.summary)
    ensures w.readme.Some? <==> withReadme
    ensures w.readme.Some? ==> w.readme.value == Readme.BranchReadme(key, t)
  {
    BranchWrite(BranchName(key, t.summary), if withReadme then Some(Readme.BranchReadme(key, t)) else None)
  }

  /** The first task from `k` on whose branch or README write raises, or `n` when none does
      before `n`. */
  function FirstFailure(branchOk: nat -> bool, readmeOk: nat -> bool, n: nat, k: nat): (j: nat)
    requires k <= n
    ensures k <= j <= n
    ensures forall i :: k <= i < j ==> branchOk(i) && readmeOk(i)
    ensures j < n ==> !(branchOk(j) && readmeOk(j))
    decreases n - k
  {
    if k == n then n else if !(branchOk(k) && readmeOk(k)) then k else FirstFailure(branchOk, readmeOk, n, k + 1)
  }

  /** `create_branches` after the rebuild. One `try` surrounds the whole loop, so the first
      exception ends it: `branchOk(i)` says whether `get_branch`/`create_git_ref` return for task
      i, `readmeOk(i)` whether its README write returns (`update_file`, or `create_file` after
      the bare `except`). Tasks before the first failure get their branch and README; at a failed
      README write the branch stays without one; later tasks get nothing. */
  function CreateBranches(tasks: seq<(string, TaskInfo)>, branchOk: nat -> bool, readmeOk: nat -> bool)
    : (r: seq<BranchWrite>)
    ensures |r| <= |tasks|
    ensures forall i :: 0 <= i < |r| ==> branchOk(i) && r[i] == Written(tasks[i].0, tasks[i].1, readmeOk(i))
    ensures forall i :: 0 <= i < |r| - 1 ==> readmeOk(i)
    ensures forall j :: 0 <= j < |tasks| && !(branchOk(j) && readmeOk(j)) ==> |r| <= j + 1
    ensures |r| < |tasks| ==> !branchOk(|r|) || (r != [] && r[|r| - 1].readme.None?)
  {
    var n := FirstFailure(branchOk, readmeOk, |tasks|, 0);
    var m := if n < |tasks| && branchOk(n) then n + 1 else n;
    seq(m, i requires 0 <= i < m => Written(tasks[i].0, tasks[i].1, i < n))
  }

  /** When every GitHub call returns, each rebuilt task gets its branch, named as `BranchNames`
      gives, and its README. */
  lemma CreateBranchesAllSucceed(tasks: seq<(string, TaskInfo)>, branchOk: nat -> bool, readmeOk: nat -> bool)
    requires forall i :: 0 <= i < |tasks| ==> branchOk(i) && readmeOk(i)
    ensures var r := CreateBranches(tasks, branchOk, readmeOk);
      && |r| == |tasks|
      && (forall i :: 0 <= i < |r| ==> r[i].branch == BranchNames(tasks)[i])
      && (forall i :: 0 <= i < |r| ==> r[i].readme == Some(Readme.BranchReadme(tasks[i].0, tasks[i].1)))
  {
  }
}
