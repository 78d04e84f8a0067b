/**
 * The text passes of src/postProcess.cc that run on the rewritten and
 * reformatted buffer: comment removal, operator spacing, and line joining.
 */
module PostProcess {
  import opened Common

  // ---------------------------------------------------------------------
  // Substring search (std::string::find)
  // ---------------------------------------------------------------------

  /** `pat` occurs in `s` at position k. */
  predicate At(s: string, pat: string, k: nat)
  {
    k + |pat| <= |s| && s[k..k + |pat|] == pat
  }

  /** `s.find(pat, from)`: the first occurrence at or after `from`; None is npos. */
  function Find(s: string, pat: string, from: nat): (r: Option<nat>)
    requires |pat| > 0
    ensures r.Some? ==> from <= r.value && At(s, pat, r.value)
    ensures r.Some? ==> forall j :: from <= j < r.value ==> !At(s, pat, j)
    ensures r.None? ==> forall j :: from <= j ==> !At(s, pat, j)
    decreases |s| - from
  {
    if from + |pat| > |s| then None
    else if At(s, pat, from) then Some(from)
    else Find(s, pat, from + 1)
  }

  // ---------------------------------------------------------------------
  // removeComments (src/postProcess.cc:21-37)
  // ---------------------------------------------------------------------

  /**
   * The block-comment loop from search offset n. The closing "*" "/" is
   * searched from the opening position, so "/" "*" "/" closes itself, and
   * the next search resumes at the old offset of the closer, which the
   * deletion has moved past text that was never examined.
   */
  function BlockPass(s: string, n: nat): (r: Result<string>)
    ensures r.Exit? ==> r.status == 2
    decreases |s|
  {
    match Find(s, "/*", n)
    case None => Ok(s)
    case Some(m) =>
      match Find(s, "*/", m)
      case None => Exit(2)
      case Some(k) => BlockPass(s[..m] + s[k + 2..], k)
  }

  /**
   * The line-comment loop from search offset n: everything from "//" up to,
   * not including, the next newline is deleted; a line comment with no
   * newline after it is a fatal error.
   */
  function LinePass(s: string, n: nat): (r: Result<string>)
    ensures r.Exit? ==> r.status == 2
    decreases |s|
  {
    match Find(s, "//", n)
    case None => Ok(s)
    case Some(m) =>
      match Find(s, "\n", m)
      case None => Exit(2)
      case Some(k) =>
        assert s[m..m + 2] == "//" && k != m && k != m + 1 by {
          assert s[m] == s[m..m + 2][0] && s[m + 1] == s[m..m + 2][1];
          assert s[k..k + 1][0] == s[k];
        }
        LinePass(s[..m] + s[k..], k)
  }

  /** removeComments: both loops from offset 0; exit status 2 on an unterminated comment. */
  function RemoveCommentsSpec(s: string): Result<string>
  {
    match BlockPass(s, 0)
    case Exit(st) => Exit(st)
    case Ok(t) => LinePass(t, 0)
  }

  /** The number of positions a mask marks. */
  function Count(mask: seq<bool>): nat
    decreases |mask|
  {
    if mask == [] then 0 else (if mask[0] then 1 else 0) + Count(mask[1..])
  }

  /** The characters of `s` at the positions `mask` marks, in their order. */
  function Keep(s: string, mask: seq<bool>): (t: string)
    requires |mask| == |s|
    ensures |t| == Count(mask) && |t| <= |s|
    decreases |s|
  {
    if s == [] then [] else (if mask[0] then [s[0]] else []) + Keep(s[1..], mask[1..])
  }

  /** `t` is `s` with some characters deleted and the others left in order. */
  ghost predicate Subsequence(t: string, s: string)
  {
    exists mask: seq<bool> :: |mask| == |s| && Keep(s, mask) == t
  }

  /** n positions, all marked `b`. */
  function Marks(n: nat, b: bool): (m: seq<bool>)
    ensures |m| == n
  {
    if n == 0 then [] else [b] + Marks(n - 1, b)
  }

  lemma {:induction false} KeepAppend(a: string, b: string, ma: seq<bool>, mb: seq<bool>)
    requires |ma| == |a| && |mb| == |b|
    ensures Keep(a + b, ma + mb) == Keep(a, ma) + Keep(b, mb)
    decreases |a|
  {
    if a == [] {
      assert a + b == b && ma + mb == mb;
    } else {
      assert (a + b)[1..] == a[1..] + b && (ma + mb)[1..] == ma[1..] + mb;
      KeepAppend(a[1..], b, ma[1..], mb);
    }
  }

  lemma {:induction false} KeepMarks(s: string, b: bool)
    ensures Keep(s, Marks(|s|, b)) == if b then s else []
    decreases |s|
  {
    if s != [] {
      assert Marks(|s|, b)[1..] == Marks(|s[1..]|, b);
      KeepMarks(s[1..], b);
    }
  }

  /** Marks the positions of `s` that the second selection keeps from the first. */
  function Compose(m1: seq<bool>, m2: seq<bool>): (m: seq<bool>)
    requires |m2| == Count(m1)
    ensures |m| == |m1|
    decreases |m1|
  {
    if m1 == [] then []
    else if m1[0] then [m2[0]] + Compose(m1[1..], m2[1..])
    else [false] + Compose(m1[1..], m2)
  }

  lemma {:induction false} KeepCompose(s: string, m1: seq<bool>, m2: seq<bool>)
    requires |m1| == |s| && |m2| == Count(m1)
    ensures Keep(Keep(s, m1), m2) == Keep(s, Compose(m1, m2))
    decreases |s|
  {
    if s != [] {
      var rest := Keep(s[1..], m1[1..]);
      if m1[0] {
        KeepCompose(s[1..], m1[1..], m2[1..]);
        assert Keep(s, m1) == [s[0]] + rest;
        assert ([s[0]] + rest)[1..] == rest;
      } else {
        KeepCompose(s[1..], m1[1..], m2);
        assert Keep(s, m1) == rest;
      }
    }
  }

  lemma SubsequenceRefl(s: string)
    ensures Subsequence(s, s)
  {
    KeepMarks(s, true);
  }

  lemma SubsequenceTrans(u: string, t: string, s: string)
    requires Subsequence(u, t) && Subsequence(t, s)
    ensures Subsequence(u, s)
  {
    var m1: seq<bool> :| |m1| == |s| && Keep(s, m1) == t;
    var m2: seq<bool> :| |m2| == |t| && Keep(t, m2) == u;
    KeepCompose(s, m1, m2);
  }

  lemma {:induction false} KeepSubMultiset(s: string, mask: seq<bool>)
    requires |mask| == |s|
    ensures multiset(Keep(s, mask)) <= multiset(s)
    decreases |s|
  {
    if s != [] {
      KeepSubMultiset(s[1..], mask[1..]);
      assert s == [s[0]] + s[1..];
    }
  }

  /** A subsequence is no longer and uses no character more often. */
  lemma SubsequenceShrinks(t: string, s: string)
    requires Subsequence(t, s)
    ensures |t| <= |s| && multiset(t) <= multiset(s)
  {
    var mask: seq<bool> :| |mask| == |s| && Keep(s, mask) == t;
    KeepSubMultiset(s, mask);
  }

  /** Unlike a sub-multiset, a subsequence keeps the order: "ba" is not one of "ab". */
  lemma SubsequenceKeepsOrder()
    ensures !Subsequence("ba", "ab")
  {
    forall mask: seq<bool> | |mask| == 2
      ensures Keep("ab", mask) != "ba"
    {
      var t := Keep("ab", mask);
      assert "ab"[1..] == "b" && "ab"[1..][1..] == [];
      if |t| == 2 {
        assert mask[0] && t[0] == 'a';
      }
    }
  }

  /** Cutting out s[m..k] leaves a subsequence of s. */
  lemma DeleteSubsequence(s: string, m: nat, k: nat)
    requires m <= k <= |s|
    ensures Subsequence(s[..m] + s[k..], s)
  {
    assert s == s[..m] + s[m..k] + s[k..];
    DeleteMiddle(s[..m], s[m..k], s[k..]);
  }

  lemma DeleteMiddle(a: string, b: string, c: string)
    ensures Subsequence(a + c, a + b + c)
  {
    var ma, mb, mc := Marks(|a|, true), Marks(|b|, false), Marks(|c|, true);
    KeepMarks(a, true);
    KeepMarks(b, false);
    KeepMarks(c, true);
    KeepAppend(a, b, ma, mb);
    assert Keep(a + b, ma + mb) == a + [] == a;
    KeepAppend(a + b, c, ma + mb, mc);
    Witness(a + c, a + b + c, ma + mb + mc);
  }

  lemma Witness(t: string, s: string, mask: seq<bool>)
    requires |mask| == |s| && Keep(s, mask) == t
    ensures Subsequence(t, s)
  {
  }

  lemma BlockPassShrinks(s: string, n: nat)
    requires BlockPass(s, n).Ok?
    ensures |BlockPass(s, n).value| <= |s| && multiset(BlockPass(s, n).value) <= multiset(s)
    ensures Subsequence(BlockPass(s, n).value, s)
  {
    BlockPassSubsequence(s, n);
    SubsequenceShrinks(BlockPass(s, n).value, s);
  }

  lemma {:induction false} BlockPassSubsequence(s: string, n: nat)
    requires BlockPass(s, n).Ok?
    ensures Subsequence(BlockPass(s, n).value, s)
    decreases |s|
  {
    var m := Find(s, "/*", n);
    if m.Some? {
      var k := Find(s, "*/", m.value).value;
      var t := s[..m.value] + s[k + 2..];
      assert BlockPass(s, n) == BlockPass(t, k);
      DeleteSubsequence(s, m.value, k + 2);
      BlockPassSubsequence(t, k);
      SubsequenceTrans(BlockPass(s, n).value, t, s);
    } else {
      SubsequenceRefl(s);
    }
  }

  lemma LinePassShrinks(s: string, n: nat)
    requires LinePass(s, n).Ok?
    ensures |LinePass(s, n).value| <= |s| && multiset(LinePass(s, n).value) <= multiset(s)
    ensures Subsequence(LinePass(s, n).value, s)
  {
    LinePassSubsequence(s, n);
    SubsequenceShrinks(LinePass(s, n).value, s);
  }

  lemma {:induction false} LinePassSubsequence(s: string, n: nat)
    requires LinePass(s, n).Ok?
    ensures Subsequence(LinePass(s, n).value, s)
    decreases |s|
  {
    var m := Find(s, "//", n);
    if m.Some? {
      var k := Find(s, "\n", m.value).value;
      assert s[m.value] == s[m.value..m.value + 2][0] && s[k..k + 1][0] == s[k];
      var t := s[..m.value] + s[k..];
      assert LinePass(s, n) == LinePass(t, k);
      DeleteSubsequence(s, m.value, k);
      LinePassSubsequence(t, k);
      SubsequenceTrans(LinePass(s, n).value, t, s);
    } else {
      SubsequenceRefl(s);
    }
  }

  /** removeComments only deletes: the result is the input with characters cut out, the rest in order. */
  lemma RemoveCommentsShrinks(s: string)
    requires RemoveCommentsSpec(s).Ok?
    ensures |RemoveCommentsSpec(s).value| <= |s|
    ensures multiset(RemoveCommentsSpec(s).value) <= multiset(s)
    ensures Subsequence(RemoveCommentsSpec(s).value, s)
  {
    BlockPassShrinks(s, 0);
    LinePassShrinks(BlockPass(s, 0).value, 0);
    SubsequenceTrans(RemoveCommentsSpec(s).value, BlockPass(s, 0).value, s);
  }

  /** `pat` does not occur at k because the i-th characters differ. */
  lemma Mismatch(s: string, pat: string, k: nat, i: nat)
    requires i < |pat| && (k + |pat| <= |s| ==> s[k + i] != pat[i])
    ensures !At(s, pat, k)
  {
    if k + |pat| <= |s| {
      assert s[k..k + |pat|][i] == s[k + i];
    }
  }

  /** Text without comment openers passes through unchanged. */
  lemma RemoveCommentsNoComments(s: string)
    requires forall j :: !At(s, "/*", j) && !At(s, "//", j)
    ensures RemoveCommentsSpec(s) == Ok(s)
  {
    assert Find(s, "/*", 0).None?;
    assert Find(s, "//", 0).None?;
  }

  /** An opener that closes itself: the shortest block comment is three characters. */
  lemma SelfClosingComment()
    ensures RemoveCommentsSpec("/*/") == Ok("")
  {
    assert At("/*/", "/*", 0);
    Mismatch("/*/", "*/", 0, 0);
    assert At("/*/", "*/", 1);
  }

  /** An unterminated block comment is fatal (status 2). */
  lemma UnterminatedBlockComment()
    ensures RemoveCommentsSpec("/* x") == Exit(2)
  {
    var s := "/* x";
    assert At(s, "/*", 0);
    Mismatch(s, "*/", 0, 0);
    Mismatch(s, "*/", 1, 1);
    Mismatch(s, "*/", 2, 0);
  }

  /** A line comment on the last line, with no newline after it, is fatal (status 2). */
  lemma LineCommentAtEnd()
    ensures RemoveCommentsSpec("x//") == Exit(2)
  {
    var s := "x//";
    Mismatch(s, "/*", 0, 0);
    Mismatch(s, "/*", 1, 1);
    Mismatch(s, "//", 0, 0);
    assert At(s, "//", 1);
    Mismatch(s, "\n", 1, 0);
    Mismatch(s, "\n", 2, 0);
  }

  /**
   * The stale search offset lets a comment through: after the first comment
   * goes, the search resumes past the start of the second.
   */
  lemma CommentSkipped()
    ensures RemoveCommentsSpec("/**/x/**/") == Ok("x/**/")
  {
    var s := "/**/x/**/";
    var t := "x/**/";
    assert At(s, "/*", 0);
    Mismatch(s, "*/", 0, 0);
    Mismatch(s, "*/", 1, 1);
    assert At(s, "*/", 2);
    assert s[..0] + s[4..] == t;
    assert BlockPass(s, 0) == BlockPass(t, 2);
    Mismatch(t, "/*", 2, 0);
    Mismatch(t, "/*", 3, 0);
    assert Find(t, "/*", 2) == None;
    assert BlockPass(s, 0) == Ok(t);
    Mismatch(t, "//", 0, 0);
    Mismatch(t, "//", 1, 1);
    Mismatch(t, "//", 2, 0);
    Mismatch(t, "//", 3, 0);
    assert Find(t, "//", 0) == None;
  }

  /** So removeComments is not idempotent: a second run removes what the first left. */
  lemma RemoveCommentsNotIdempotent()
    ensures RemoveCommentsSpec("/**/x/**/") == Ok("x/**/")
    ensures RemoveCommentsSpec("x/**/") == Ok("x")
  {
    CommentSkipped();
    SecondRun();
  }

  lemma SecondRun()
    ensures RemoveCommentsSpec("x/**/") == Ok("x")
  {
    var t := "x/**/";
    Mismatch(t, "/*", 0, 0);
    assert At(t, "/*", 1);
    Mismatch(t, "*/", 1, 0);
    Mismatch(t, "*/", 2, 1);
    assert At(t, "*/", 3);
    assert Find(t, "/*", 0) == Some(1) && Find(t, "*/", 1) == Some(3);
    assert t[..1] + t[5..] == "x";
    assert BlockPass(t, 0) == BlockPass("x", 3);
    assert Find("x", "/*", 3) == None;
    assert Find("x", "//", 0) == None;
  }

  /**
   * removeComments as the source writes it: two search-and-delete loops
   * over the buffer, with `n` carried from one deletion to the next search.
   */
  method RemoveComments(input: string) returns (r: Result<string>)
    ensures r == RemoveCommentsSpec(input)
  {
    var blocks := RemoveBlockComments(input);
    if blocks.Exit? {
      return blocks;
    }
    r := RemoveLineComments(blocks.value);
  }

  /** The first loop of removeComments: block comments. */
  method RemoveBlockComments(input: string) returns (r: Result<string>)
    ensures r == BlockPass(input, 0)
  {
    var s := input;
    var n := 0;
    while true
      invariant BlockPass(s, n) == BlockPass(input, 0)
      decreases |s|
    {
      var m := Find(s, "/*", n);
      if m.None? {
        break;
      }
      var k := Find(s, "*/", m.value);
      if k.None? {
        return Exit(2);
      }
      BlockStep(s, n, m.value, k.value);
      s, n := s[..m.value] + s[k.value + 2..], k.value;
    }
    r := Ok(s);
  }

  /** The second loop of removeComments: line comments. */
  method RemoveLineComments(input: string) returns (r: Result<string>)
    ensures r == LinePass(input, 0)
  {
    var s := input;
    var n := 0;
    while true
      invariant LinePass(s, n) == LinePass(input, 0)
      decreases |s|
    {
      var m := Find(s, "//", n);
      if m.None? {
        break;
      }
      var k := Find(s, "\n", m.value);
      if k.None? {
        return Exit(2);
      }
      LineStep(s, n, m.value, k.value);
      s, n := s[..m.value] + s[k.value..], k.value;
    }
    r := Ok(s);
  }

  /** One round of the block-comment loop: the comment goes, the search resumes at k. */
  lemma BlockStep(s: string, n: nat, m: nat, k: nat)
    requires Find(s, "/*", n) == Some(m) && Find(s, "*/", m) == Some(k)
    ensures m <= k && k + 2 <= |s| && |s[..m] + s[k + 2..]| < |s|
    ensures BlockPass(s, n) == BlockPass(s[..m] + s[k + 2..], k)
  {
    BlockPassUnfold(s, n, m, k, s[..m] + s[k + 2..]);
  }

  /** BlockPass after a found comment: the next round runs on `t` from k. */
  lemma BlockPassUnfold(s: string, n: nat, m: nat, k: nat, t: string)
    requires Find(s, "/*", n) == Some(m) && Find(s, "*/", m) == Some(k) && t == s[..m] + s[k + 2..]
    ensures BlockPass(s, n) == BlockPass(t, k)
  {
  }

  /** One round of the line-comment loop: the comment goes, the newline stays. */
  lemma LineStep(s: string, n: nat, m: nat, k: nat)
    requires Find(s, "//", n) == Some(m) && Find(s, "\n", m) == Some(k)
    ensures m < k <= |s| && |s[..m] + s[k..]| < |s|
    ensures LinePass(s, n) == LinePass(s[..m] + s[k..], k)
  {
    assert s[m] == s[m..m + 2][0] && s[k..k + 1][0] == s[k];
  }

  // ---------------------------------------------------------------------
  // minifyOps (src/postProcess.cc:8-19,39-54)
  // ---------------------------------------------------------------------

  /**
   * The operators, in the order they are processed. Each regex of the
   * escaped list matches exactly the literal operator at the same index,
   * so the pattern " *OP *" is modelled with the literal.
   */
  const Ops: seq<string> := [
    "+", "-", "*", "/", "%", "++", "--", "+=", "-=", "*=", "/=",
    "%=", "=", "==", "!=", "&&", "||", "!", "&", "|", "^", "<<",
    ">>", "<", ">", "<=", ">=", "<<=", ">>=", "&=", "|=", "^=", ",",
    "(", ")", "{", "}", ";", "else", ":", "::", "?"]

  /** An operator the space pattern can be built around: nonempty, not starting with a space. */
  predicate ValidOp(op: string)
  {
    |op| > 0 && op[0] != ' '
  }

  lemma OpsValid()
    ensures |Ops| == 42
    ensures forall i :: 0 <= i < |Ops| ==> ValidOp(Ops[i])
  {
  }

  /** The number of spaces `s` starts with. */
  function LeadingSpaces(s: string): (n: nat)
    ensures n <= |s|
    ensures n < |s| ==> s[n] != ' '
    decreases |s|
  {
    if s != [] && s[0] == ' ' then 1 + LeadingSpaces(s[1..]) else 0
  }

  /** The characters LeadingSpaces counts are spaces. */
  lemma {:induction false} LeadingSpacesAreSpaces(s: string)
    ensures forall i :: 0 <= i < LeadingSpaces(s) ==> s[i] == ' '
    decreases |s|
  {
    if s != [] && s[0] == ' ' {
      LeadingSpacesAreSpaces(s[1..]);
      assert forall i :: 1 <= i < LeadingSpaces(s) ==> s[i] == s[1..][i - 1];
    }
  }

  /**
   * `regex_replace(s, regex(" *OP *"), OP)`: scanning left to right, a run
   * of spaces, the operator and the run of spaces after it become the bare
   * operator; any other character is copied. Matching at a space that is
   * not followed by the operator fails, so that space is copied.
   */
  function Collapse(s: string, op: string): string
    requires ValidOp(op)
    decreases |s|
  {
    if s == [] then []
    else if At(s, op, LeadingSpaces(s)) then op + Collapse(AfterMatch(s, op), op)
    else [s[0]] + Collapse(s[1..], op)
  }

  /** The text after a match: past the leading spaces, the operator and the spaces after it. */
  function AfterMatch(s: string, op: string): (r: string)
    requires |op| > 0 && At(s, op, LeadingSpaces(s))
    ensures |r| < |s|
  {
    var rest := s[LeadingSpaces(s) + |op|..];
    rest[LeadingSpaces(rest)..]
  }

  /** `s` with every occurrence of `c` deleted. */
  function Drop(c: char, s: string): string
    decreases |s|
  {
    if s == [] then [] else (if s[0] == c then [] else [s[0]]) + Drop(c, s[1..])
  }

  lemma {:induction false} DropAppend(c: char, a: string, b: string)
    ensures Drop(c, a + b) == Drop(c, a) + Drop(c, b)
    decreases |a|
  {
    if a == [] {
      assert a + b == b;
    } else {
      assert (a + b)[0] == a[0] && (a + b)[1..] == a[1..] + b;
      DropAppend(c, a[1..], b);
    }
  }

  lemma {:induction false} DropLeading(c: char, s: string, n: nat)
    requires n <= |s| && forall i :: 0 <= i < n ==> s[i] == c
    ensures Drop(c, s) == Drop(c, s[n..])
    decreases n
  {
    if n > 0 {
      DropLeading(c, s[1..], n - 1);
      assert s[1..][n - 1..] == s[n..];
    }
  }

  /** Collapsing around an operator deletes spaces and nothing else. */
  lemma {:induction false} CollapseKeepsText(s: string, op: string)
    requires ValidOp(op)
    ensures Drop(' ', Collapse(s, op)) == Drop(' ', s)
    decreases |s|
  {
    if s != [] {
      var j := LeadingSpaces(s);
      if At(s, op, j) {
        var rest := s[j + |op|..];
        var t := LeadingSpaces(rest);
        assert s[j..] == op + rest;
        LeadingSpacesAreSpaces(s);
        LeadingSpacesAreSpaces(rest);
        CollapseKeepsText(AfterMatch(s, op), op);
        DropMatch(' ', s, j, op, rest, t, Collapse(AfterMatch(s, op), op));
      } else {
        CollapseKeepsText(s[1..], op);
        DropCopy(' ', s, Collapse(s[1..], op));
      }
    }
  }

  /** The matched case of CollapseKeepsText: spaces, the operator, spaces, the rest. */
  lemma DropMatch(c: char, s: string, j: nat, op: string, rest: string, t: nat, col: string)
    requires j <= |s| && (forall i :: 0 <= i < j ==> s[i] == c) && s[j..] == op + rest
    requires t <= |rest| && (forall i :: 0 <= i < t ==> rest[i] == c)
    requires Drop(c, col) == Drop(c, rest[t..])
    ensures Drop(c, op + col) == Drop(c, s)
  {
    DropLeading(c, s, j);
    DropAppend(c, op, rest);
    DropLeading(c, rest, t);
    DropAppend(c, op, col);
  }

  /** The copied case: the first character, then the rest. */
  lemma DropCopy(c: char, s: string, col: string)
    requires s != [] && Drop(c, col) == Drop(c, s[1..])
    ensures Drop(c, [s[0]] + col) == Drop(c, s)
  {
    assert s == [s[0]] + s[1..];
    DropAppend(c, [s[0]], s[1..]);
    DropAppend(c, [s[0]], col);
  }

  /** Text without spaces is left as it is. */
  lemma {:induction false} CollapseNoSpaces(s: string, op: string)
    requires ValidOp(op) && ' ' !in s
    ensures Collapse(s, op) == s
    decreases |s|
  {
    if s != [] {
      assert s[0] != ' ';
      if At(s, op, 0) {
        var rest := s[|op|..];
        assert rest != [] ==> rest[0] in s;
        CollapseNoSpaces(rest, op);
        assert s == op + rest;
      } else {
        CollapseNoSpaces(s[1..], op);
        assert s == [s[0]] + s[1..];
      }
    }
  }

  /** The spaces around an assignment go. */
  lemma CollapseAssignment()
    ensures Collapse("x = 1", "=") == "x=1"
  {
    assert LeadingSpaces("x = 1") == 0;
    Mismatch("x = 1", "=", 0, 0);
    assert " = 1"[1..] == "= 1";
    assert LeadingSpaces(" = 1") == 1;
    assert At(" = 1", "=", 1);
    assert " = 1"[2..] == " 1";
    assert LeadingSpaces(" 1") == 1;
    assert " 1"[1..] == "1";
    Mismatch("1", "=", 0, 0);
    assert Collapse("1", "=") == "1";
  }

  /**
   * The keyword `else` is one of the operators, so the space between it and
   * the statement after it goes too; only `else if` is put back.
   */
  lemma CollapseElse()
    ensures Collapse("else x", "else") == "elsex"
  {
    assert LeadingSpaces("else x") == 0;
    assert At("else x", "else", 0);
    assert "else x"[4..] == " x";
    assert LeadingSpaces(" x") == 1;
    assert " x"[1..] == "x";
    Mismatch("x", "else", 0, 0);
    assert Collapse("x", "else") == "x";
  }

  /** `regex_replace(s, regex("elseif"), "else if")`. */
  function FixElseIf(s: string): string
    decreases |s|
  {
    if At(s, "elseif", 0) then "else if" + FixElseIf(s[6..])
    else if s == [] then []
    else [s[0]] + FixElseIf(s[1..])
  }

  /** The fix only inserts spaces. */
  lemma {:induction false} FixElseIfKeepsText(s: string)
    ensures Drop(' ', FixElseIf(s)) == Drop(' ', s)
    decreases |s|
  {
    if At(s, "elseif", 0) {
      var fixed := FixElseIf(s[6..]);
      assert FixElseIf(s) == "else if" + fixed;
      FixElseIfKeepsText(s[6..]);
      DropElseIf(s, fixed);
    } else if s != [] {
      var fixed := FixElseIf(s[1..]);
      assert FixElseIf(s) == [s[0]] + fixed;
      FixElseIfKeepsText(s[1..]);
      DropCopy(' ', s, fixed);
    }
  }

  /** The rewritten case: "else if" and "elseif" differ by one space. */
  lemma DropElseIf(s: string, fixed: string)
    requires At(s, "elseif", 0) && Drop(' ', fixed) == Drop(' ', s[6..])
    ensures Drop(' ', "else if" + fixed) == Drop(' ', s)
  {
    var rest := s[6..];
    assert s[..6] == "elseif";
    assert s == "else" + "if" + rest;
    assert "else if" + fixed == "else" + [' '] + "if" + fixed;
    DropSpaceBetween("else", "if", fixed, rest);
  }

  /** A space put between e and f goes again under Drop. */
  lemma DropSpaceBetween(e: string, f: string, x: string, y: string)
    requires Drop(' ', x) == Drop(' ', y)
    ensures Drop(' ', e + [' '] + f + x) == Drop(' ', e + f + y)
  {
    var sp: string := [' '];
    assert Drop(' ', sp) == [];
    DropAppend(' ', e, sp);
    DropAppend(' ', e + sp, f);
    DropAppend(' ', e + sp + f, x);
    DropAppend(' ', e, f);
    DropAppend(' ', e + f, y);
  }

  lemma {:induction false} FixElseIfNone(s: string)
    requires forall j :: !At(s, "elseif", j)
    ensures FixElseIf(s) == s
    decreases |s|
  {
    if s != [] {
      assert !At(s, "elseif", 0);
      forall j: nat | true
        ensures !At(s[1..], "elseif", j)
      {
        AtTail(s, "elseif", j);
      }
      FixElseIfNone(s[1..]);
      assert s == [s[0]] + s[1..];
    }
  }

  /** An occurrence in the tail is an occurrence one further on. */
  lemma AtTail(s: string, pat: string, j: nat)
    requires s != []
    ensures At(s[1..], pat, j) <==> At(s, pat, j + 1)
  {
    if j + 1 + |pat| <= |s| {
      assert s[1..][j..j + |pat|] == s[j + 1..j + 1 + |pat|];
    }
  }

  /** Up to the first occurrence the fix copies. */
  lemma {:induction false} FixElseIfAtFirst(t: string, i: nat)
    requires At(t, "elseif", i)
    requires forall k :: 0 <= k < i ==> !At(t, "elseif", k)
    ensures FixElseIf(t) == t[..i] + "else if" + FixElseIf(t[i + 6..])
    decreases i
  {
    if i > 0 {
      assert !At(t, "elseif", 0);
      AtTail(t, "elseif", i - 1);
      forall k | 0 <= k < i - 1
        ensures !At(t[1..], "elseif", k)
      {
        AtTail(t, "elseif", k);
      }
      var u := t[1..];
      assert FixElseIf(t) == [t[0]] + FixElseIf(u);
      FixElseIfAtFirst(u, i - 1);
      assert u[i - 1 + 6..] == t[i + 6..];
      assert t[..i] == [t[0]] + u[..i - 1];
      ConsConcat(t[0], u[..i - 1], "else if", FixElseIf(t[i + 6..]));
    }
  }

  lemma ConsConcat(x: char, a: string, b: string, c: string)
    ensures [x] + (a + b + c) == ([x] + a) + b + c
  {
  }

  /** Without an occurrence below k, the fix keeps the first k characters. */
  lemma {:induction false} FixElseIfPrefix(t: string, k: nat)
    requires k <= |t|
    requires forall i :: 0 <= i < k ==> !At(t, "elseif", i)
    ensures |FixElseIf(t)| >= k && FixElseIf(t)[..k] == t[..k]
    decreases k
  {
    if k > 0 {
      assert !At(t, "elseif", 0);
      forall i | 0 <= i < k - 1
        ensures !At(t[1..], "elseif", i)
      {
        AtTail(t, "elseif", i);
      }
      assert FixElseIf(t) == [t[0]] + FixElseIf(t[1..]);
      FixElseIfPrefix(t[1..], k - 1);
      assert t[..k] == [t[0]] + t[1..][..k - 1];
    }
  }

  /** A string shorter than the pattern is not changed. */
  lemma FixElseIfShort(t: string)
    requires |t| < 6
    ensures FixElseIf(t) == t
  {
    FixElseIfNone(t);
  }

  /** The output of the fix contains no "elseif". */
  lemma {:induction false} FixElseIfComplete(s: string)
    ensures forall j :: !At(FixElseIf(s), "elseif", j)
    decreases |s|
  {
    var out := FixElseIf(s);
    if At(s, "elseif", 0) {
      var r := FixElseIf(s[6..]);
      FixElseIfComplete(s[6..]);
      forall j: nat | true
        ensures !At(out, "elseif", j)
      {
        if j >= 7 {
          if At(out, "elseif", j) {
            assert out[j..j + 6] == r[j - 7..j - 7 + 6];
            assert At(r, "elseif", j - 7);
          }
        } else if j == 0 || j == 3 {
          Mismatch(out, "elseif", j, 4 - j);
        } else {
          Mismatch(out, "elseif", j, 0);
        }
      }
    } else if s != [] {
      var t := s[1..];
      var r := FixElseIf(t);
      FixElseIfComplete(t);
      forall j: nat | true
        ensures !At(out, "elseif", j)
      {
        if j >= 1 {
          if At(out, "elseif", j) {
            assert out[j..j + 6] == r[j - 1..j - 1 + 6];
            assert At(r, "elseif", j - 1);
          }
        } else {
          FixElseIfHead(s, t, out);
        }
      }
    }
  }

  /** The case of FixElseIfComplete where the output starts with a copied character. */
  lemma FixElseIfHead(s: string, t: string, out: string)
    requires s != [] && !At(s, "elseif", 0) && t == s[1..] && out == [s[0]] + FixElseIf(t)
    ensures !At(out, "elseif", 0)
  {
    if |t| < 5 {
      FixElseIfShort(t);
    } else {
      var f := Find(t, "elseif", 0);
      if f.Some? && f.value < 5 {
        var i := f.value;
        FixElseIfAtFirst(t, i);
        HeadBeforeElse(s[0], t[..i], FixElseIf(t[i + 6..]), out);
      } else {
        FixElseIfPrefix(t, 5);
        HeadCopied(s, FixElseIf(t), out);
      }
    }
  }

  /** An "else if" written within the first six characters spoils the match at 0. */
  lemma HeadBeforeElse(x: char, p: string, r: string, out: string)
    requires |p| < 5 && out == [x] + (p + "else if" + r)
    ensures !At(out, "elseif", 0)
  {
    var i := |p|;
    assert out[i + 1..i + 5] == "else";
    if i == 2 {
      Mismatch(out, "elseif", 0, 4);
    } else {
      Mismatch(out, "elseif", 0, i + 1);
    }
  }

  /** With its first five characters copied, the output starts as the input does. */
  lemma HeadCopied(s: string, u: string, out: string)
    requires |s| >= 6 && !At(s, "elseif", 0) && |u| >= 5 && u[..5] == s[1..][..5] && out == [s[0]] + u
    ensures !At(out, "elseif", 0)
  {
    assert out[..6] == s[..6];
  }

  /** One operator's step: the space collapse, then the `else if` fix. */
  function OpStep(s: string, op: string): string
    requires ValidOp(op)
  {
    FixElseIf(Collapse(s, op))
  }

  /** The steps for `ops`, in order. */
  function Steps(s: string, ops: seq<string>): string
    requires forall i :: 0 <= i < |ops| ==> ValidOp(ops[i])
    decreases |ops|
  {
    if ops == [] then s else Steps(OpStep(s, ops[0]), ops[1..])
  }

  function MinifyOpsSpec(s: string): string
  {
    OpsValid();
    Steps(s, Ops)
  }

  lemma {:induction false} StepsKeepText(s: string, ops: seq<string>)
    requires forall i :: 0 <= i < |ops| ==> ValidOp(ops[i])
    ensures Drop(' ', Steps(s, ops)) == Drop(' ', s)
    decreases |ops|
  {
    if ops != [] {
      CollapseKeepsText(s, ops[0]);
      FixElseIfKeepsText(Collapse(s, ops[0]));
      StepsKeepText(OpStep(s, ops[0]), ops[1..]);
    }
  }

  lemma {:induction false} StepsNoElseIf(s: string, ops: seq<string>)
    requires ops != [] && forall i :: 0 <= i < |ops| ==> ValidOp(ops[i])
    ensures forall j :: !At(Steps(s, ops), "elseif", j)
    decreases |ops|
  {
    if |ops| == 1 {
      FixElseIfComplete(Collapse(s, ops[0]));
    } else {
      StepsNoElseIf(OpStep(s, ops[0]), ops[1..]);
    }
  }

  lemma {:induction false} StepsIdentity(s: string, ops: seq<string>)
    requires forall i :: 0 <= i < |ops| ==> ValidOp(ops[i])
    requires ' ' !in s && forall j :: !At(s, "elseif", j)
    ensures Steps(s, ops) == s
    decreases |ops|
  {
    if ops != [] {
      CollapseNoSpaces(s, ops[0]);
      FixElseIfNone(s);
      StepsIdentity(s, ops[1..]);
    }
  }

  /** minifyOps deletes spaces and inserts them (the `else if` fix), and changes nothing else. */
  lemma MinifyOpsKeepsText(s: string)
    ensures Drop(' ', MinifyOpsSpec(s)) == Drop(' ', s)
  {
    OpsValid();
    StepsKeepText(s, Ops);
  }

  /** After minifyOps no "elseif" is left, whatever the input held. */
  lemma MinifyOpsNoElseIf(s: string)
    ensures forall j :: !At(MinifyOpsSpec(s), "elseif", j)
  {
    OpsValid();
    StepsNoElseIf(s, Ops);
  }

  /** Text with no space and no "elseif" is a fixed point. */
  lemma MinifyOpsIdentity(s: string)
    requires ' ' !in s && forall j :: !At(s, "elseif", j)
    ensures MinifyOpsSpec(s) == s
  {
    OpsValid();
    StepsIdentity(s, Ops);
  }

  /** minifyOps as written: one replace and one fix per operator, in order. */
  method MinifyOps(input: string) returns (s: string)
    ensures s == MinifyOpsSpec(input)
  {
    OpsValid();
    s := RunSteps(input, Ops);
  }

  /** The loop of minifyOps over the operator list `ops`. */
  method RunSteps(input: string, ops: seq<string>) returns (s: string)
    requires forall i :: 0 <= i < |ops| ==> ValidOp(ops[i])
    ensures s == Steps(input, ops)
  {
    s := input;
    for i := 0 to |ops|
      invariant Steps(s, ops[i..]) == Steps(input, ops)
    {
      assert ops[i..][1..] == ops[i + 1..];
      s := Collapse(s, ops[i]);
      s := FixElseIf(s);
    }
    assert ops[|ops|..] == [];
  }

  // ---------------------------------------------------------------------
  // stripNewLine (src/postProcess.cc:56-95)
  // ---------------------------------------------------------------------

  /** Length of the first line: the position of the first newline, or |s|. */
  function LineEnd(s: string): (k: nat)
    ensures k <= |s| && '\n' !in s[..k]
    ensures k < |s| ==> s[k] == '\n'
    decreases |s|
  {
    if s == [] || s[0] == '\n' then 0
    else
      var k := LineEnd(s[1..]);
      assert s[..k + 1] == [s[0]] + s[1..][..k];
      k + 1
  }

  /**
   * The lines `std::getline` reads: split at each newline; a final line
   * without a newline is read too, and a trailing newline gives no empty
   * last line.
   */
  function Lines(s: string): (ls: seq<string>)
    ensures forall i :: 0 <= i < |ls| ==> '\n' !in ls[i]
    decreases |s|
  {
    if s == [] then []
    else
      var k := LineEnd(s);
      [s[..k]] + (if k == |s| then [] else Lines(s[k + 1..]))
  }

  /** The lines put back together without their separators. */
  function Concat(ls: seq<string>): string
    decreases |ls|
  {
    if ls == [] then [] else ls[0] + Concat(ls[1..])
  }

  /** Text without `c` is its own Drop. */
  lemma {:induction false} DropAbsent(c: char, s: string)
    requires c !in s
    ensures Drop(c, s) == s
    decreases |s|
  {
    if s != [] {
      assert s[0] != c;
      DropAbsent(c, s[1..]);
      assert s == [s[0]] + s[1..];
    }
  }

  /** Reading the lines loses exactly the newlines. */
  lemma {:induction false} LinesJoin(s: string)
    ensures Concat(Lines(s)) == Drop('\n', s)
    decreases |s|
  {
    if s != [] {
      var k := LineEnd(s);
      if k == |s| {
        assert s[..k] == s;
        assert Lines(s) == [s[..k]] + [];
        DropAbsent('\n', s);
        assert Concat([s]) == s + Concat([]);
      } else {
        var more := Lines(s[k + 1..]);
        assert Lines(s) == [s[..k]] + more;
        assert Concat(Lines(s)) == s[..k] + Concat(more);
        LinesJoin(s[k + 1..]);
        DropSplit('\n', s, k);
      }
    }
  }

  /** Dropping around the first occurrence of `c`. */
  lemma DropSplit(c: char, s: string, k: nat)
    requires k < |s| && s[k] == c && c !in s[..k]
    ensures Drop(c, s) == s[..k] + Drop(c, s[k + 1..])
  {
    var a, rest := s[..k], s[k..];
    assert s == a + rest;
    DropAppend(c, a, rest);
    DropAbsent(c, a);
    DropHead(c, rest);
    assert rest[1..] == s[k + 1..];
  }

  /** A leading `c` is dropped. */
  lemma DropHead(c: char, s: string)
    requires s != [] && s[0] == c
    ensures Drop(c, s) == Drop(c, s[1..])
  {
  }

  predicate EndsWithBackslash(l: string)
  {
    l != [] && l[|l| - 1] == '\\'
  }

  /**
   * The flag after one line: a continuation line sets it when it is a
   * directive (unless it is already set), a directive line leaves it, and
   * any other nonempty line clears it.
   */
  function NextMacro(l: string, macro: bool): bool
  {
    if l == [] then macro
    else if EndsWithBackslash(l) then macro || (|l| >= 2 && l[0] == '#')
    else if l[0] == '#' then macro
    else false
  }

  /**
   * What one line adds to the result: nothing for an empty line, the line
   * without its backslash for a continuation, the line and a newline for a
   * directive or the last line of a macro, and the bare line otherwise.
   */
  function Piece(l: string, macro: bool): string
  {
    if l == [] then []
    else if EndsWithBackslash(l) then l[..|l| - 1]
    else if l[0] == '#' || macro then l + "\n"
    else l
  }

  /**
   * The loop is defined on these lines: a line that is a lone backslash
   * while no macro is open would have `front()` read from an empty string.
   */
  predicate Defined(lines: seq<string>, macro: bool)
    decreases |lines|
  {
    lines == [] ||
    ((EndsWithBackslash(lines[0]) && !macro ==> |lines[0]| >= 2) &&
     Defined(lines[1..], NextMacro(lines[0], macro)))
  }

  /** The result of the loop from the given flag. */
  function Strip(lines: seq<string>, macro: bool): string
    requires Defined(lines, macro)
    decreases |lines|
  {
    if lines == [] then []
    else Piece(lines[0], macro) + Strip(lines[1..], NextMacro(lines[0], macro))
  }

  /** A line as it is kept, without its continuation backslash. */
  function Body(l: string): string
  {
    if EndsWithBackslash(l) then l[..|l| - 1] else l
  }

  function Bodies(lines: seq<string>): (bs: seq<string>)
    ensures |bs| == |lines|
    decreases |lines|
  {
    if lines == [] then [] else [Body(lines[0])] + Bodies(lines[1..])
  }

  /** Joining drops only newlines and continuation backslashes. */
  lemma {:induction false} StripKeepsText(lines: seq<string>, macro: bool)
    requires Defined(lines, macro)
    ensures Drop('\n', Strip(lines, macro)) == Drop('\n', Concat(Bodies(lines)))
    decreases |lines|
  {
    if lines != [] {
      var l := lines[0];
      var rest := Strip(lines[1..], NextMacro(l, macro));
      assert Strip(lines, macro) == Piece(l, macro) + rest;
      assert Concat(Bodies(lines)) == Body(l) + Concat(Bodies(lines[1..]));
      StripKeepsText(lines[1..], NextMacro(l, macro));
      DropAppend('\n', Piece(l, macro), rest);
      DropAppend('\n', Body(l), Concat(Bodies(lines[1..])));
      PieceKeepsText(l, macro);
    }
  }

  /** A line's piece differs from its body at most by a newline. */
  lemma PieceKeepsText(l: string, macro: bool)
    ensures Drop('\n', Piece(l, macro)) == Drop('\n', Body(l))
  {
    if Piece(l, macro) != Body(l) {
      assert Piece(l, macro) == l + "\n" && Body(l) == l;
      DropAppend('\n', l, "\n");
      assert Drop('\n', "\n") == [];
    }
  }

  /** A line that is neither a directive nor continued. */
  predicate Plain(l: string)
  {
    !EndsWithBackslash(l) && (l == [] || l[0] != '#')
  }

  /** Outside a macro, plain lines are joined with nothing between them. */
  lemma {:induction false} StripPlain(lines: seq<string>)
    requires forall i :: 0 <= i < |lines| ==> Plain(lines[i])
    ensures Defined(lines, false) && Strip(lines, false) == Concat(lines)
    decreases |lines|
  {
    if lines != [] {
      StripPlain(lines[1..]);
    }
  }

  /** stripNewLine: the lines of the buffer through the loop, from a cleared flag. */
  function StripNewLineSpec(s: string): string
    requires Defined(Lines(s), false)
  {
    Strip(Lines(s), false)
  }

  /** A buffer without directives or continuations loses its newlines and nothing else. */
  lemma StripNewLinePlain(s: string)
    requires forall i :: 0 <= i < |Lines(s)| ==> Plain(Lines(s)[i])
    ensures Defined(Lines(s), false) && StripNewLineSpec(s) == Drop('\n', s)
  {
    StripPlain(Lines(s));
    LinesJoin(s);
  }

  /** A directive keeps its line break and the next plain line is joined to it. */
  lemma DirectiveKeepsNewline()
    ensures Defined(["#include <a>", "int x;", "int y;"], false)
    ensures Strip(["#include <a>", "int x;", "int y;"], false) == "#include <a>\nint x;int y;"
  {
    var ls := ["#include <a>", "int x;", "int y;"];
    assert ls[1..] == ["int x;", "int y;"] && ls[1..][1..] == ["int y;"];
    assert Piece(ls[0], false) == "#include <a>\n";
  }

  /** A continued macro is joined into one line, which keeps its break. */
  lemma MacroContinuation()
    ensures Defined(["#define A 1 \\", "+ 2", "int x;"], false)
    ensures Strip(["#define A 1 \\", "+ 2", "int x;"], false) == "#define A 1 + 2\nint x;"
  {
    var ls := ["#define A 1 \\", "+ 2", "int x;"];
    assert ls[1..] == ["+ 2", "int x;"] && ls[1..][1..] == ["int x;"];
    assert EndsWithBackslash(ls[0]) && NextMacro(ls[0], false);
    assert Piece(ls[0], false) == "#define A 1 ";
    assert Piece("+ 2", true) == "+ 2\n" && !NextMacro("+ 2", true);
  }

  /** A lone backslash outside a macro is where the source reads an empty line's first character. */
  lemma LoneBackslashUndefined()
    ensures !Defined(["\\"], false)
    ensures Defined(["#define A \\", "\\", "B"], false)
  {
    var ls := ["#define A \\", "\\", "B"];
    assert ls[1..] == ["\\", "B"] && ls[1..][1..] == ["B"];
    assert NextMacro(ls[0], false);
  }

  /** stripNewLine as written: the getline loop with the macro flag. */
  method StripNewLine(input: string) returns (out: string)
    requires Defined(Lines(input), false)
    ensures out == StripNewLineSpec(input)
  {
    var lines := Lines(input);
    var result := "";
    var macro := false;
    for i := 0 to |lines|
      invariant Defined(lines[i..], macro)
      invariant result + Strip(lines[i..], macro) == Strip(lines, false)
    {
      StripUnfold(lines[i..], macro);
      assert lines[i..][1..] == lines[i + 1..];
      var piece, macro' := JoinLine(lines[i], macro);
      Regroup(result, piece, Strip(lines[i + 1..], macro'));
      result, macro := result + piece, macro';
    }
    assert lines[|lines|..] == [];
    out := result;
  }

  lemma StripUnfold(lines: seq<string>, macro: bool)
    requires lines != [] && Defined(lines, macro)
    ensures (EndsWithBackslash(lines[0]) && !macro ==> |lines[0]| >= 2)
    ensures Defined(lines[1..], NextMacro(lines[0], macro))
    ensures Strip(lines, macro) == Piece(lines[0], macro) + Strip(lines[1..], NextMacro(lines[0], macro))
  {
  }

  lemma Regroup(a: string, b: string, c: string)
    ensures a + (b + c) == (a + b) + c
  {
  }

  /** The body of the getline loop for one line: what it appends and the new flag. */
  method JoinLine(input: string, macro: bool) returns (piece: string, macro': bool)
    requires EndsWithBackslash(input) && !macro ==> |input| >= 2
    ensures piece == Piece(input, macro) && macro' == NextMacro(input, macro)
  {
    var line := input;
    piece, macro' := [], macro;
    if line == [] {
      return;
    }
    if line[|line| - 1] == '\\' {
      line := line[..|line| - 1];
      piece := line;
      if !macro {
        macro' := line[0] == '#';
      }
      return;
    }
    if line[0] == '#' {
      piece := line + "\n";
      return;
    }
    if macro {
      piece := line + "\n";
      macro' := false;
      return;
    }
    piece := line;
  }

  // ---------------------------------------------------------------------
  // postProcess (src/postProcess.cc:97-101)
  // ---------------------------------------------------------------------

  /** The three passes are defined on `code`: the joining loop never reads an empty line's front. */
  predicate PostDefined(code: string)
  {
    RemoveCommentsSpec(code).Ok? ==> Defined(Lines(MinifyOpsSpec(RemoveCommentsSpec(code).value)), false)
  }

  /** removeComments, then minifyOps, then stripNewLine; a comment error ends the process. */
  function PostProcessSpec(code: string): Result<string>
    requires PostDefined(code)
  {
    match RemoveCommentsSpec(code)
    case Exit(st) => Exit(st)
    case Ok(t) => Ok(StripNewLineSpec(MinifyOpsSpec(t)))
  }

  method PostProcess(code: string) returns (r: Result<string>)
    requires PostDefined(code)
    ensures r == PostProcessSpec(code)
  {
    var t := RemoveComments(code);
    if t.Exit? {
      return Exit(t.status);
    }
    var m := MinifyOps(t.value);
    var out := StripNewLine(m);
    r := Ok(out);
  }

  /** Dropping `c` keeps every other character. */
  lemma {:induction false} DropKeeps(c: char, s: string, x: char)
    requires x != c
    ensures x in Drop(c, s) <==> x in s
    decreases |s|
  {
    if s != [] {
      DropKeeps(c, s[1..], x);
      assert s == [s[0]] + s[1..];
      assert x in s <==> x == s[0] || x in s[1..];
    }
  }

  lemma {:induction false} DropGone(c: char, s: string)
    ensures c !in Drop(c, s)
    decreases |s|
  {
    if s != [] {
      DropGone(c, s[1..]);
    }
  }

  lemma {:induction false} DropCommute(a: char, b: char, s: string)
    ensures Drop(a, Drop(b, s)) == Drop(b, Drop(a, s))
    decreases |s|
  {
    if s != [] {
      DropCommute(a, b, s[1..]);
      var h := [s[0]];
      DropAppend(a, if s[0] == b then [] else h, Drop(b, s[1..]));
      DropAppend(b, if s[0] == a then [] else h, Drop(a, s[1..]));
    }
  }

  /** A character absent from the buffer is absent from every line. */
  lemma {:induction false} LinesWithout(s: string, x: char)
    requires x !in s
    ensures forall i :: 0 <= i < |Lines(s)| ==> x !in Lines(s)[i]
    decreases |s|
  {
    if s != [] {
      var k := LineEnd(s);
      assert forall y :: y in s[..k] ==> y in s;
      if k < |s| {
        assert forall y :: y in s[k + 1..] ==> y in s;
        LinesWithout(s[k + 1..], x);
        assert Lines(s) == [s[..k]] + Lines(s[k + 1..]);
      } else {
        assert Lines(s) == [s[..k]] + [];
      }
    }
  }

  lemma {:induction false} BodiesPlain(lines: seq<string>)
    requires forall i :: 0 <= i < |lines| ==> '\\' !in lines[i]
    ensures Bodies(lines) == lines
    decreases |lines|
  {
    if lines != [] {
      var l := lines[0];
      assert l != [] ==> l[|l| - 1] in l;
      BodiesPlain(lines[1..]);
    }
  }

  /**
   * Without continuation backslashes in the input, postProcess changes only
   * spaces and line breaks of the comment-free text: blanks around
   * operators go, `else if` gets its space back, and lines are joined.
   */
  lemma PostProcessKeepsText(code: string)
    requires PostDefined(code) && PostProcessSpec(code).Ok? && '\\' !in code
    ensures Drop(' ', Drop('\n', PostProcessSpec(code).value)) ==
      Drop(' ', Drop('\n', RemoveCommentsSpec(code).value))
  {
    var t := RemoveCommentsSpec(code).value;
    var m := MinifyOpsSpec(t);
    NoBackslashAfterMinify(code);
    StripNewLineKeepsText(m);
    MinifyOpsKeepsText(t);
    DropCommute(' ', '\n', m);
    DropCommute(' ', '\n', t);
  }

  /** The first two passes bring in no backslash. */
  lemma NoBackslashAfterMinify(code: string)
    requires RemoveCommentsSpec(code).Ok? && '\\' !in code
    ensures '\\' !in MinifyOpsSpec(RemoveCommentsSpec(code).value)
  {
    var t := RemoveCommentsSpec(code).value;
    RemoveCommentsShrinks(code);
    assert '\\' !in multiset(code);
    assert multiset(t)['\\'] <= multiset(code)['\\'] == 0;
    assert '\\' !in t;
    var m := MinifyOpsSpec(t);
    MinifyOpsKeepsText(t);
    DropKeeps(' ', m, '\\');
    DropKeeps(' ', t, '\\');
  }

  /** Without continuations, stripNewLine deletes line breaks and nothing else. */
  lemma StripNewLineKeepsText(m: string)
    requires Defined(Lines(m), false) && '\\' !in m
    ensures Drop('\n', StripNewLineSpec(m)) == Drop('\n', m)
  {
    var lines := Lines(m);
    LinesWithout(m, '\\');
    BodiesPlain(lines);
    StripKeepsText(lines, false);
    LinesJoin(m);
    DropGone('\n', m);
    DropAbsent('\n', Drop('\n', m));
  }
}
