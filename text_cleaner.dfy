/** The resume text normaliser of backend/app/utils/text_cleaner.py: a fixed
    chain of regular-expression substitutions, character deletions and a
    final strip. */
module TextCleaner {
  import opened Strings

  /** The two run-collapsing substitutions: `[ \t]+` becomes one space and
      `\n+` becomes one newline. */
  datatype RunClass = Blanks | Newlines

  predicate InRun(cls: RunClass, c: char) {
    match cls
    case Blanks => c == ' ' || c == '\t'
    case Newlines => c == '\n'
  }

  function Replacement(cls: RunClass): char {
    match cls
    case Blanks => ' '
    case Newlines => '\n'
  }

  /** The length of the run of `cls` characters at the start of `s`. */
  function RunLength(s: string, cls: RunClass): (n: nat)
    ensures n <= |s|
    ensures n > 0 <==> |s| > 0 && InRun(cls, s[0])
    decreases |s|
  {
    if |s| > 0 && InRun(cls, s[0]) then 1 + RunLength(s[1..], cls) else 0
  }

  /** `re.sub(pattern, replacement, s)` for the pattern of `cls`: every maximal
      run of `cls` characters becomes the single replacement character. */
  function Collapse(s: string, cls: RunClass): (r: string)
    ensures |r| <= |s|
    decreases |s|
  {
    if s == [] then []
    else
      var n := RunLength(s, cls);
      if n > 0 then [Replacement(cls)] + Collapse(s[n..], cls)
      else [s[0]] + Collapse(s[1..], cls)
  }

  /** `s` with every character satisfying `cls` erased. */
  function EraseRun(s: string, cls: RunClass): string
    decreases |s|
  {
    if s == [] then []
    else (if InRun(cls, s[0]) then [] else [s[0]]) + EraseRun(s[1..], cls)
  }

  lemma {:induction false} EraseRunAppend(a: string, b: string, cls: RunClass)
    ensures EraseRun(a + b, cls) == EraseRun(a, cls) + EraseRun(b, cls)
    decreases |a|
  {
    if a == [] {
      assert a + b == b;
    } else {
      var head := if InRun(cls, a[0]) then [] else [a[0]];
      assert (a + b)[0] == a[0] && (a + b)[1..] == a[1..] + b;
      calc {
        EraseRun(a + b, cls);
        head + EraseRun(a[1..] + b, cls);
        { EraseRunAppend(a[1..], b, cls); }
        head + (EraseRun(a[1..], cls) + EraseRun(b, cls));
        EraseRun(a, cls) + EraseRun(b, cls);
      }
    }
  }

  lemma {:induction false} EraseLeadingRun(s: string, cls: RunClass)
    ensures EraseRun(s, cls) == EraseRun(s[RunLength(s, cls)..], cls)
    decreases |s|
  {
    if RunLength(s, cls) > 0 {
      EraseLeadingRun(s[1..], cls);
      assert s[1..][RunLength(s[1..], cls)..] == s[RunLength(s, cls)..];
    }
  }

  /** Collapsing keeps every character outside the runs, in order: the two
      strings agree once the run characters are erased. */
  lemma {:induction false} CollapseKeepsContent(s: string, cls: RunClass)
    ensures EraseRun(Collapse(s, cls), cls) == EraseRun(s, cls)
    decreases |s|
  {
    if s != [] {
      var n := RunLength(s, cls);
      if n > 0 {
        CollapseKeepsContent(s[n..], cls);
        EraseRunAppend([Replacement(cls)], Collapse(s[n..], cls), cls);
        EraseLeadingRun(s, cls);
      } else {
        CollapseKeepsContent(s[1..], cls);
        EraseRunAppend([s[0]], Collapse(s[1..], cls), cls);
      }
    }
  }

  /** After collapsing, every run character is the replacement and no two run
      characters are adjacent. That no run vanishes follows from CollapseUnits
      and CollapseAppend, which fix the output run by run. */
  lemma CollapseRunsAreSingle(s: string, cls: RunClass)
    ensures var r := Collapse(s, cls);
      (forall i :: 0 <= i < |r| && InRun(cls, r[i]) ==> r[i] == Replacement(cls))
      && (forall i :: 0 <= i < |r| - 1 ==> !(InRun(cls, r[i]) && InRun(cls, r[i + 1])))
      && (r != [] && InRun(cls, r[0]) <==> s != [] && InRun(cls, s[0]))
  {
    CollapseReplaces(s, cls);
    CollapseSeparates(s, cls);
  }

  /** The collapsed text starts with a run character exactly when the text does. */
  lemma CollapseStart(s: string, cls: RunClass)
    ensures var r := Collapse(s, cls);
      r != [] && InRun(cls, r[0]) <==> s != [] && InRun(cls, s[0])
  {
  }

  /** Every run character of `r` is the replacement. */
  predicate RunCharsReplaced(r: string, cls: RunClass) {
    forall i :: 0 <= i < |r| && InRun(cls, r[i]) ==> r[i] == Replacement(cls)
  }

  /** No two run characters of `r` are adjacent. */
  predicate RunCharsApart(r: string, cls: RunClass) {
    forall i :: 0 <= i < |r| - 1 ==> !(InRun(cls, r[i]) && InRun(cls, r[i + 1]))
  }

  /** Every run character left after collapsing is the replacement. */
  lemma {:induction false} CollapseReplaces(s: string, cls: RunClass)
    ensures RunCharsReplaced(Collapse(s, cls), cls)
    decreases |s|
  {
    if s != [] {
      var n := RunLength(s, cls);
      var r := Collapse(s, cls);
      var m := if n > 0 then n else 1;
      var rest := Collapse(s[m..], cls);
      CollapseReplaces(s[m..], cls);
      var head := if n > 0 then Replacement(cls) else s[0];
      assert r == [head] + rest;
      forall i | 0 < i < |r| && InRun(cls, r[i])
        ensures r[i] == Replacement(cls)
      {
        assert r[i] == rest[i - 1];
      }
    }
  }

  /** No two run characters are adjacent after collapsing. */
  lemma {:induction false} CollapseSeparates(s: string, cls: RunClass)
    ensures RunCharsApart(Collapse(s, cls), cls)
    decreases |s|
  {
    if s != [] {
      var n := RunLength(s, cls);
      var r := Collapse(s, cls);
      var m := if n > 0 then n else 1;
      var rest := Collapse(s[m..], cls);
      CollapseSeparates(s[m..], cls);
      assert r == [r[0]] + rest;
      if n > 0 {
        CollapseStart(s[n..], cls);
        assert n == |s| || !InRun(cls, s[n]) by { RunStops(s, cls); }
      }
      forall i | 0 <= i < |r| - 1
        ensures !(InRun(cls, r[i]) && InRun(cls, r[i + 1]))
      {
        assert r[i + 1] == rest[i];
        if i > 0 {
          assert r[i] == rest[i - 1];
        }
      }
    }
  }

  lemma {:induction false} RunStops(s: string, cls: RunClass)
    ensures var n := RunLength(s, cls); n == |s| || !InRun(cls, s[n])
    decreases |s|
  {
    if |s| > 0 && InRun(cls, s[0]) {
      RunStops(s[1..], cls);
    }
  }

  /** Every character of a collapsed string comes from the input or is the
      replacement character. */
  lemma {:induction false} CollapseChars(s: string, cls: RunClass)
    ensures forall c :: c in Collapse(s, cls) ==> c in s || c == Replacement(cls)
    decreases |s|
  {
    if s != [] {
      var n := RunLength(s, cls);
      if n > 0 {
        CollapseChars(s[n..], cls);
        assert forall c :: c in s[n..] ==> c in s;
      } else {
        CollapseChars(s[1..], cls);
      }
    }
  }

  /** Every character of the leading run is a run character. */
  lemma {:induction false} RunIsRun(s: string, cls: RunClass)
    ensures forall k :: 0 <= k < RunLength(s, cls) ==> InRun(cls, s[k])
    decreases |s|
  {
    if RunLength(s, cls) > 0 {
      RunIsRun(s[1..], cls);
      forall k | 0 < k < RunLength(s, cls) ensures InRun(cls, s[k]) {
        assert s[k] == s[1..][k - 1];
      }
    }
  }

  /** The leading run of `a + b` is that of `a`, continued into `b` only when
      the whole of `a` is a run. */
  lemma {:induction false} RunLengthAppend(a: string, b: string, cls: RunClass)
    ensures RunLength(a + b, cls) ==
      if RunLength(a, cls) < |a| then RunLength(a, cls) else |a| + RunLength(b, cls)
    decreases |a|
  {
    if a == [] {
      assert a + b == b;
    } else {
      assert (a + b)[0] == a[0] && (a + b)[1..] == a[1..] + b;
      if InRun(cls, a[0]) {
        RunLengthAppend(a[1..], b, cls);
      }
    }
  }

  /** Collapsing distributes over a cut that does not fall inside a run:
      the text is rewritten run by run. */
  lemma {:induction false} CollapseAppend(a: string, b: string, cls: RunClass)
    requires a == [] || b == [] || !InRun(cls, a[|a| - 1]) || !InRun(cls, b[0])
    ensures Collapse(a + b, cls) == Collapse(a, cls) + Collapse(b, cls)
    decreases |a|, 1
  {
    if a == [] || b == [] {
      CollapseAppendEmpty(a, b, cls);
    } else {
      CollapseAppendCons(a, b, cls);
    }
  }

  lemma {:induction false} CollapseAppendCons(a: string, b: string, cls: RunClass)
    requires a != [] && b != [] && (!InRun(cls, a[|a| - 1]) || !InRun(cls, b[0]))
    ensures Collapse(a + b, cls) == Collapse(a, cls) + Collapse(b, cls)
    decreases |a|, 0
  {
    var n := RunLength(a, cls);
    var m := if n > 0 then n else 1;
    var head := if n > 0 then [Replacement(cls)] else [a[0]];
    var rest := a[m..];
    calc {
      Collapse(a + b, cls);
      { CollapseAppendHead(a, b, cls); }
      head + Collapse(rest + b, cls);
      { assert rest == [] || rest[|rest| - 1] == a[|a| - 1];
        CollapseAppend(rest, b, cls); }
      head + (Collapse(rest, cls) + Collapse(b, cls));
      (head + Collapse(rest, cls)) + Collapse(b, cls);
      Collapse(a, cls) + Collapse(b, cls);
    }
  }

  lemma CollapseAppendEmpty(a: string, b: string, cls: RunClass)
    requires a == [] || b == []
    ensures Collapse(a + b, cls) == Collapse(a, cls) + Collapse(b, cls)
  {
    if a == [] {
      assert a + b == b;
      assert Collapse(a, cls) == [];
    } else {
      assert a + b == a;
      assert Collapse(b, cls) == [];
    }
  }

  /** The first step of collapsing `a + b` is the first step of collapsing `a`
      when the cut is not inside a run. */
  lemma CollapseAppendHead(a: string, b: string, cls: RunClass)
    requires a != [] && b != [] && (!InRun(cls, a[|a| - 1]) || !InRun(cls, b[0]))
    ensures var n := RunLength(a, cls);
      var m := if n > 0 then n else 1;
      Collapse(a + b, cls) == [if n > 0 then Replacement(cls) else a[0]] + Collapse(a[m..] + b, cls)
  {
    var n := RunLength(a, cls);
    var m := if n > 0 then n else 1;
    RunLengthAppend(a, b, cls);
    if n == |a| {
      RunIsRun(a, cls);
      assert InRun(cls, a[|a| - 1]);
    }
    assert RunLength(a + b, cls) == n;
    assert (a + b)[0] == a[0];
    assert (a + b)[m..] == a[m..] + b;
  }

  lemma {:induction false} RunLengthAll(s: string, cls: RunClass)
    requires forall k :: 0 <= k < |s| ==> InRun(cls, s[k])
    ensures RunLength(s, cls) == |s|
    decreases |s|
  {
    if s != [] {
      assert forall k :: 0 <= k < |s[1..]| ==> s[1..][k] == s[k + 1];
      RunLengthAll(s[1..], cls);
    }
  }

  /** The two units of the rewrite: a non-empty run becomes the single
      replacement character, and a character outside the class stays. */
  lemma CollapseUnits(s: string, cls: RunClass)
    requires s != []
    ensures (forall k :: 0 <= k < |s| ==> InRun(cls, s[k])) ==> Collapse(s, cls) == [Replacement(cls)]
    ensures |s| == 1 && !InRun(cls, s[0]) ==> Collapse(s, cls) == s
  {
    if forall k :: 0 <= k < |s| ==> InRun(cls, s[k]) {
      RunLengthAll(s, cls);
      assert s[|s|..] == [];
    }
  }

  /** The `Page\s+\d+` pattern (case-insensitive) at the start of `s`: the
      length of the match, or 0 when there is none. `\s` is Python's Unicode
      whitespace; `\d` is taken as the ASCII digits. */
  function PageNumberMatch(s: string): (m: nat)
    ensures m <= |s|
  {
    if |s| >= 4 && AsciiLower(s[..4]) == "page" then
      var w := LeadingCount(s[4..], Python);
      var d := DigitRun(s[4 + w..]);
      if w > 0 && d > 0 then 4 + w + d else 0
    else 0
  }

  function DigitRun(s: string): (n: nat)
    ensures n <= |s|
    decreases |s|
  {
    if |s| > 0 && IsDigit(s[0]) then 1 + DigitRun(s[1..]) else 0
  }

  /** Scanning left to right, deletes each match `f` reports at the current
      position (its length, 0 when there is none) and moves on past it. */
  function DeleteMatches(s: string, f: string -> nat): (r: string)
    requires forall x :: f(x) <= |x|
    ensures |r| <= |s|
    decreases |s|
  {
    if s == [] then []
    else
      var m := f(s);
      if m > 0 then DeleteMatches(s[m..], f) else [s[0]] + DeleteMatches(s[1..], f)
  }

  /** `re.sub(r'Page\s+\d+', '', s, flags=re.IGNORECASE)`: scanning left to
      right, each non-overlapping match is deleted. */
  function RemovePageNumbers(s: string): (r: string)
    ensures |r| <= |s|
  {
    DeleteMatches(s, PageNumberMatch)
  }

  /** Text before the first match is kept as it is: when no match starts
      inside `a`, deletion goes on with `b`. */
  lemma {:induction false} DeleteMatchesPrefix(a: string, b: string, f: string -> nat)
    requires forall x :: f(x) <= |x|
    requires forall i :: 0 <= i < |a| ==> f(a[i..] + b) == 0
    ensures DeleteMatches(a + b, f) == a + DeleteMatches(b, f)
    decreases |a|
  {
    if a == [] {
      assert a + b == b;
    } else {
      assert f(a + b) == 0 by {
        assert a[0..] == a;
      }
      forall i | 0 <= i < |a[1..]| ensures f(a[1..][i..] + b) == 0 {
        assert a[1..][i..] == a[i + 1..];
      }
      calc {
        DeleteMatches(a + b, f);
        { assert (a + b)[0] == a[0] && (a + b)[1..] == a[1..] + b; }
        [a[0]] + DeleteMatches(a[1..] + b, f);
        { DeleteMatchesPrefix(a[1..], b, f); }
        [a[0]] + (a[1..] + DeleteMatches(b, f));
        { assert [a[0]] + a[1..] == a; }
        a + DeleteMatches(b, f);
      }
    }
  }

  /** `r` is `s` with some characters taken out, the rest kept in order. */
  predicate Subsequence(r: string, s: string)
    decreases |s|
  {
    if r == [] then true
    else if s == [] then false
    else (r[0] == s[0] && Subsequence(r[1..], s[1..])) || Subsequence(r, s[1..])
  }

  lemma {:induction false} SubsequenceDrop(r: string, s: string, k: nat)
    requires k <= |s| && Subsequence(r, s[k..])
    ensures Subsequence(r, s)
    decreases k
  {
    if k > 0 {
      assert s[k - 1..][1..] == s[k..];
      SubsequenceDrop(r, s, k - 1);
    }
  }

  lemma {:induction false} SubsequenceChars(r: string, s: string)
    requires Subsequence(r, s)
    ensures forall c :: c in r ==> c in s
    decreases |s|
  {
    if r != [] {
      if r[0] == s[0] && Subsequence(r[1..], s[1..]) {
        SubsequenceChars(r[1..], s[1..]);
        assert r == [r[0]] + r[1..];
      } else {
        SubsequenceChars(r, s[1..]);
      }
    }
  }

  /** Deleting matches only deletes characters. */
  lemma {:induction false} DeleteMatchesKeeps(s: string, f: string -> nat)
    requires forall x :: f(x) <= |x|
    ensures Subsequence(DeleteMatches(s, f), s)
    decreases |s|
  {
    if s != [] {
      var m := f(s);
      if m > 0 {
        DeleteMatchesKeeps(s[m..], f);
        SubsequenceDrop(DeleteMatches(s[m..], f), s, m);
      } else {
        DeleteMatchesKeeps(s[1..], f);
        var r := DeleteMatches(s, f);
        assert r[0] == s[0] && r[1..] == DeleteMatches(s[1..], f);
      }
    }
  }

  /** Text with no page-number match anywhere is left unchanged. */
  lemma RemovePageNumbersIdentity(s: string)
    requires forall i :: 0 <= i < |s| ==> PageNumberMatch(s[i..]) == 0
    ensures RemovePageNumbers(s) == s
  {
    assert s + [] == s;
    forall i | 0 <= i < |s| ensures PageNumberMatch(s[i..] + []) == 0 {
      assert s[i..] + [] == s[i..];
    }
    DeleteMatchesPrefix(s, [], PageNumberMatch);
  }

  /** Removing page numbers only deletes characters: what is left is the
      input with some characters taken out, the rest in the input's order. */
  lemma RemovePageNumbersKeeps(s: string)
    ensures Subsequence(RemovePageNumbers(s), s)
    ensures forall c :: c in RemovePageNumbers(s) ==> c in s
  {
    DeleteMatchesKeeps(s, PageNumberMatch);
    SubsequenceChars(RemovePageNumbers(s), s);
  }

  /** Text before the first match is kept as it is: when no match starts
      inside `a`, removal goes on with `b`. */
  lemma RemovePageNumbersPrefix(a: string, b: string)
    requires forall i :: 0 <= i < |a| ==> PageNumberMatch(a[i..] + b) == 0
    ensures RemovePageNumbers(a + b) == a + RemovePageNumbers(b)
  {
    DeleteMatchesPrefix(a, b, PageNumberMatch);
  }

  lemma {:induction false} DigitRunPrefix(digits: string, t: string)
    requires forall k :: 0 <= k < |digits| ==> IsDigit(digits[k])
    requires t == [] || !IsDigit(t[0])
    ensures DigitRun(digits + t) == |digits|
    decreases |digits|
  {
    if digits == [] {
      assert digits + t == t;
    } else {
      assert (digits + t)[1..] == digits[1..] + t;
      DigitRunPrefix(digits[1..], t);
    }
  }

  /** A page number at the front, in any letter case and with any Python
      whitespace before its digits, is matched up to its last digit. */
  lemma PageNumberMatchFront(word: string, gap: string, digits: string, t: string)
    requires |word| == 4 && AsciiLower(word) == "page"
    requires gap != [] && AllSatisfy(gap, Python)
    requires digits != [] && forall k :: 0 <= k < |digits| ==> IsDigit(digits[k])
    requires t == [] || !IsDigit(t[0])
    ensures PageNumberMatch(word + gap + digits + t) == |word| + |gap| + |digits|
  {
    var s := word + gap + digits + t;
    assert s[..4] == word;
    assert s[4..] == gap + (digits + t);
    LeadingCountPrefix(gap, digits + t, Python);
    assert s[4 + |gap|..] == digits + t;
    DigitRunPrefix(digits, t);
  }

  /** Such a page number is removed whole, and removal goes on after it. */
  lemma PageNumberDropped(word: string, gap: string, digits: string, t: string)
    requires |word| == 4 && AsciiLower(word) == "page"
    requires gap != [] && AllSatisfy(gap, Python)
    requires digits != [] && forall k :: 0 <= k < |digits| ==> IsDigit(digits[k])
    requires t == [] || !IsDigit(t[0])
    ensures RemovePageNumbers(word + gap + digits + t) == RemovePageNumbers(t)
  {
    var s := word + gap + digits + t;
    PageNumberMatchFront(word, gap, digits, t);
    assert s[|word| + |gap| + |digits|..] == t;
  }

  /** `s.replace(c, "")`. */
  function RemoveChar(s: string, c: char): (r: string)
    ensures |r| <= |s|
    decreases |s|
  {
    if s == [] then [] else (if s[0] == c then [] else [s[0]]) + RemoveChar(s[1..], c)
  }

  /** The removed character is gone, and every remaining character was there. */
  lemma {:induction false} RemoveCharSpec(s: string, c: char)
    ensures c !in RemoveChar(s, c)
    ensures forall x :: x in RemoveChar(s, c) ==> x in s
    decreases |s|
  {
    if s != [] {
      RemoveCharSpec(s[1..], c);
    }
  }

  /** Deleting a character works character by character: it distributes
      over `+`, and one character is dropped exactly when it is `c`. */
  lemma {:induction false} RemoveCharAppend(a: string, b: string, c: char)
    ensures RemoveChar(a + b, c) == RemoveChar(a, c) + RemoveChar(b, c)
    decreases |a|
  {
    if a == [] {
      assert a + b == b;
    } else {
      var head := if a[0] == c then [] else [a[0]];
      assert (a + b)[0] == a[0] && (a + b)[1..] == a[1..] + b;
      calc {
        RemoveChar(a + b, c);
        head + RemoveChar(a[1..] + b, c);
        { RemoveCharAppend(a[1..], b, c); }
        head + (RemoveChar(a[1..], c) + RemoveChar(b, c));
        RemoveChar(a, c) + RemoveChar(b, c);
      }
    }
  }

  lemma RemoveCharSingle(x: char, c: char)
    ensures RemoveChar([x], c) == if x == c then [] else [x]
  {
    assert [x][1..] == [];
  }

  /** The three bullet symbols the cleaner deletes. */
  const Bullet: char := '\U{2022}'
  const EnDash: char := '\U{2013}'
  const BlackCircle: char := '\U{25CF}'

  /** `clean_resume_text(text)`. */
  function CleanResumeText(text: string): (r: string)
    ensures text == [] ==> r == []
  {
    if text == [] then ""
    else
      var spaced := Collapse(text, Blanks);
      var lined := Collapse(spaced, Newlines);
      var unpaged := RemovePageNumbers(lined);
      var unbulleted := RemoveChar(RemoveChar(RemoveChar(unpaged, Bullet), EnDash), BlackCircle);
      PyStrip(unbulleted)
  }

  lemma StripChars(s: string)
    ensures forall c :: c in PyStrip(s) ==> c in s
  {
    var i, j := LeadingCount(s, Python), |s| - TrailingCount(s, Python);
    if i < j {
      assert forall c :: c in s[i..j] ==> c in s;
    }
  }

  /** A character the cleaner may delete: Python whitespace or one of the
      three bullets. */
  predicate Erasable(c: char) {
    PyIsSpace(c) || c == Bullet || c == EnDash || c == BlackCircle
  }

  /** The characters of `s` the cleaner must keep, in order. */
  function Visible(s: string): string
    decreases |s|
  {
    if s == [] then [] else (if Erasable(s[0]) then [] else [s[0]]) + Visible(s[1..])
  }

  lemma {:induction false} VisibleAppend(a: string, b: string)
    ensures Visible(a + b) == Visible(a) + Visible(b)
    decreases |a|
  {
    if a == [] {
      assert a + b == b;
    } else {
      var head := if Erasable(a[0]) then [] else [a[0]];
      assert (a + b)[0] == a[0] && (a + b)[1..] == a[1..] + b;
      calc {
        Visible(a + b);
        head + Visible(a[1..] + b);
        { VisibleAppend(a[1..], b); }
        head + (Visible(a[1..]) + Visible(b));
        Visible(a) + Visible(b);
      }
    }
  }

  lemma {:induction false} VisibleBlank(s: string)
    requires AllSatisfy(s, Python)
    ensures Visible(s) == []
    decreases |s|
  {
    if s != [] {
      assert PyIsSpace(s[0]);
      VisibleBlank(s[1..]);
    }
  }

  /** Run characters are whitespace, so collapsing a run changes nothing
      visible. */
  lemma {:induction false} VisibleCollapse(s: string, cls: RunClass)
    ensures Visible(Collapse(s, cls)) == Visible(s)
    decreases |s|
  {
    if s != [] {
      var n := RunLength(s, cls);
      if n > 0 {
        VisibleCollapse(s[n..], cls);
        VisibleAppend([Replacement(cls)], Collapse(s[n..], cls));
        RunIsRun(s, cls);
        assert s == s[..n] + s[n..];
        VisibleAppend(s[..n], s[n..]);
        VisibleBlank(s[..n]);
      } else {
        VisibleCollapse(s[1..], cls);
        VisibleAppend([s[0]], Collapse(s[1..], cls));
      }
    }
  }

  lemma {:induction false} VisibleRemoveChar(s: string, c: char)
    requires Erasable(c)
    ensures Visible(RemoveChar(s, c)) == Visible(s)
    decreases |s|
  {
    if s != [] {
      VisibleRemoveChar(s[1..], c);
      VisibleAppend(if s[0] == c then [] else [s[0]], RemoveChar(s[1..], c));
    }
  }

  lemma VisibleStrip(s: string)
    ensures Visible(PyStrip(s)) == Visible(s)
  {
    LeadingRun(s, Python);
    TrailingRun(s, Python);
    var i, j := LeadingCount(s, Python), |s| - TrailingCount(s, Python);
    if i < j {
      assert s == s[..i] + s[i..j] + s[j..];
      VisibleAppend(s[..i] + s[i..j], s[j..]);
      VisibleAppend(s[..i], s[i..j]);
      VisibleBlank(s[..i]);
      VisibleBlank(s[j..]);
    } else {
      StripEmpty(s, Python);
      VisibleBlank(s);
    }
  }

  /** What the cleaned text is: no longer than the input, free of tabs and of
      the three bullet symbols, and without leading or trailing whitespace;
      its other characters are those left by page-number removal, in order,
      and so those of the input when the collapsed text holds no page number. */
  lemma CleanResumeTextSpec(text: string)
    ensures var r := CleanResumeText(text);
      |r| <= |text|
      && '\t' !in r && Bullet !in r && EnDash !in r && BlackCircle !in r
      && (r == [] || (!PyIsSpace(r[0]) && !PyIsSpace(r[|r| - 1])))
    ensures var lined := Collapse(Collapse(text, Blanks), Newlines);
      Visible(CleanResumeText(text)) == Visible(RemovePageNumbers(lined))
      && ((forall i :: 0 <= i < |lined| ==> PageNumberMatch(lined[i..]) == 0) ==>
            Visible(CleanResumeText(text)) == Visible(text))
  {
    if text != [] {
      var spaced := Collapse(text, Blanks);
      var lined := Collapse(spaced, Newlines);
      var unpaged := RemovePageNumbers(lined);
      var b1 := RemoveChar(unpaged, Bullet);
      var b2 := RemoveChar(b1, EnDash);
      var b3 := RemoveChar(b2, BlackCircle);
      CollapseRunsAreSingle(text, Blanks);
      assert '\t' !in spaced by {
        forall i | 0 <= i < |spaced| ensures spaced[i] != '\t' {
          assert InRun(Blanks, spaced[i]) ==> spaced[i] == Replacement(Blanks);
        }
      }
      CollapseChars(spaced, Newlines);
      RemovePageNumbersKeeps(lined);
      RemoveCharSpec(unpaged, Bullet);
      RemoveCharSpec(b1, EnDash);
      RemoveCharSpec(b2, BlackCircle);
      StripChars(b3);
      StripEnds(b3, Python);
      VisibleStrip(b3);
      VisibleRemoveChar(b2, BlackCircle);
      VisibleRemoveChar(b1, EnDash);
      VisibleRemoveChar(unpaged, Bullet);
      VisibleCollapse(text, Blanks);
      VisibleCollapse(spaced, Newlines);
      if forall i :: 0 <= i < |lined| ==> PageNumberMatch(lined[i..]) == 0 {
        RemovePageNumbersIdentity(lined);
      }
    }
  }

  /** A worked example: the whole of "pAGE \t 12" is one match, in any
      letter case. */
  lemma PageNumberExample()
    ensures RemovePageNumbers("pAGE \t 12") == ""
  {
    var s := "pAGE \t 12";
    assert AsciiLower(s[..4]) == "page";
    assert LeadingCount(s[7..], Python) == 0;
    assert s[4..][1..] == s[5..] && s[5..][1..] == s[6..] && s[6..][1..] == s[7..];
    assert PyIsSpace(s[4]) && PyIsSpace(s[5]) && PyIsSpace(s[6]);
    assert LeadingCount(s[6..], Python) == 1;
    assert LeadingCount(s[5..], Python) == 2;
    assert LeadingCount(s[4..], Python) == 3;
    assert s[7..][1..] == s[8..] && s[8..][1..] == s[9..];
    assert DigitRun(s[7..]) == 2;
    assert s[9..] == [];
  }
}
