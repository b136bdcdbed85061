/** White space, words and lines of a text, as Python's string methods see them. */
module Text {

  /** Python's `str.isspace` for one character. */
  predicate IsSpace(c: char) {
    var n := c as int;
    0x09 <= n <= 0x0d || 0x1c <= n <= 0x20 || n == 0x85 || n == 0xa0 || n == 0x1680 || 0x2000 <= n <= 0x200a
    || n == 0x2028 || n == 0x2029 || n == 0x202f || n == 0x205f || n == 0x3000
  }

  /** The characters at which `splitlines` ends a line. */
  predicate IsBreak(c: char) {
    var n := c as int;
    0x0a <= n <= 0x0d || 0x1c <= n <= 0x1e || n == 0x85 || n == 0x2028 || n == 0x2029
  }

  /** The length of the longest prefix whose characters all fail `stop`. */
  function Until(s: string, stop: char -> bool): (n: nat)
    ensures n <= |s| && (n < |s| ==> stop(s[n]))
    ensures forall i :: 0 <= i < n ==> !stop(s[i])
  {
    if s == [] || stop(s[0]) then 0
    else
      var n := Until(s[1..], stop);
      assert forall i :: 0 < i <= n ==> s[i] == s[1..][i - 1];
      n + 1
  }

  lemma UntilUnique(s: string, stop: char -> bool, n: nat)
    requires n <= |s| && (n < |s| ==> stop(s[n]))
    requires forall i :: 0 <= i < n ==> !stop(s[i])
    ensures Until(s, stop) == n
  {
  }

  /** Python's `split()`: the maximal runs of characters that are not white space. */
  function Words(s: string): seq<string>
    decreases |s|
  {
    if s == [] then []
    else if IsSpace(s[0]) then Words(s[1..])
    else
      var n := Until(s, IsSpace);
      [s[..n]] + Words(s[n..])
  }

  function Strip(s: string): string
    decreases |s|
  {
    if s == [] then s
    else if IsSpace(s[0]) then Strip(s[1..])
    else if IsSpace(s[|s| - 1]) then Strip(s[..|s| - 1])
    else s
  }

  /** White space between two texts separates their words. */
  lemma {:induction false} WordsApart(a: string, gap: char, b: string)
    requires IsSpace(gap)
    ensures Words(a + [gap] + b) == Words(a) + Words(b)
    decreases |a|
  {
    var s := a + [gap] + b;
    if a == [] {
      assert s[0] == gap && s[1..] == b;
    } else if IsSpace(a[0]) {
      assert s[1..] == a[1..] + [gap] + b;
      WordsApart(a[1..], gap, b);
    } else {
      var n := Until(a, IsSpace);
      assert n < |a| ==> s[n] == a[n];
      UntilUnique(s, IsSpace, n);
      assert s[..n] == a[..n] && s[n..] == a[n..] + [gap] + b;
      WordsApart(a[n..], gap, b);
    }
  }

  lemma {:induction false} WordsStrip(s: string)
    ensures Words(Strip(s)) == Words(s)
    decreases |s|
  {
    if s == [] {
    } else if IsSpace(s[0]) {
      WordsStrip(s[1..]);
    } else if IsSpace(s[|s| - 1]) {
      var init := s[..|s| - 1];
      assert s == init + [s[|s| - 1]] + [];
      WordsApart(init, s[|s| - 1], []);
      WordsStrip(init);
    }
  }

  predicate IsBlank(c: char) { c == ' ' || c == '\t' }

  /** Every run of spaces and tabs becomes one space. */
  function Squash(s: string): string
    decreases |s|
  {
    if s == [] then []
    else if IsBlank(s[0]) then
      var n := Until(s[1..], c => !IsBlank(c));
      [' '] + Squash(s[1..][n..])
    else [s[0]] + Squash(s[1..])
  }

  /** The characters other than spaces and tabs. */
  function Solid(s: string): string {
    if s == [] then [] else (if IsBlank(s[0]) then [] else [s[0]]) + Solid(s[1..])
  }

  lemma {:induction false} SolidAfter(s: string, n: nat)
    requires n <= |s| && forall i :: 0 <= i < n ==> IsBlank(s[i])
    ensures Solid(s) == Solid(s[n..])
  {
    if n == 0 {
      assert s[0..] == s;
    } else {
      SolidAfter(s[1..], n - 1);
      assert s[1..][n - 1..] == s[n..];
    }
  }

  /** Squeezing keeps every other character, leaves no tab, and no two spaces together. */
  lemma {:induction false} SquashMeaning(s: string)
    ensures Solid(Squash(s)) == Solid(s) && '\t' !in Squash(s)
    ensures Squash(s) != [] ==> s != [] && (IsBlank(Squash(s)[0]) <==> IsBlank(s[0]))
    ensures forall i :: 0 < i < |Squash(s)| ==> Squash(s)[i - 1] != ' ' || Squash(s)[i] != ' '
    decreases |s|
  {
    if s != [] {
      var rest := s[1..];
      var n := Until(rest, c => !IsBlank(c));
      var next := if IsBlank(s[0]) then rest[n..] else rest;
      SquashMeaning(next);
      if IsBlank(s[0]) {
        SolidAfter(rest, n);
        assert next != [] ==> next[0] == rest[n];
      }
      assert Squash(s)[1..] == Squash(next);
    }
  }

  /** The first character of a text can be taken before or after cutting at `n`. */
  lemma Regroup(s: string, n: nat, tail: string)
    requires 1 <= n <= |s|
    ensures [s[0]] + (s[1..][..n - 1] + tail) == s[..n] + tail
  {
    assert [s[0]] + s[1..][..n - 1] == s[..n];
  }

  lemma {:induction false} SquashToken(s: string, n: nat)
    requires n <= |s| && forall i :: 0 <= i < n ==> !IsSpace(s[i])
    ensures Squash(s) == s[..n] + Squash(s[n..])
  {
    if n == 0 {
      assert s[0..] == s;
    } else {
      var rest := s[1..];
      assert forall i :: 0 <= i < n - 1 ==> rest[i] == s[i + 1];
      SquashToken(rest, n - 1);
      assert rest[n - 1..] == s[n..];
      Regroup(s, n, Squash(s[n..]));
    }
  }

  lemma {:induction false} WordsSkip(s: string, n: nat)
    requires n <= |s| && forall i :: 0 <= i < n ==> IsSpace(s[i])
    ensures Words(s) == Words(s[n..])
  {
    if n == 0 {
      assert s[0..] == s;
    } else {
      assert forall i :: 0 <= i < n - 1 ==> s[1..][i] == s[i + 1];
      WordsSkip(s[1..], n - 1);
      assert s[1..][n - 1..] == s[n..];
    }
  }

  lemma {:induction false} WordsSquash(s: string)
    ensures Words(Squash(s)) == Words(s)
    decreases |s|
  {
    if s == [] {
    } else if IsBlank(s[0]) {
      var n := Until(s[1..], c => !IsBlank(c));
      var rest := s[1..][n..];
      WordsSkip(s[1..], n);
      WordsSquash(rest);
      assert ([' '] + Squash(rest))[1..] == Squash(rest);
    } else if IsSpace(s[0]) {
      WordsSquash(s[1..]);
      assert ([s[0]] + Squash(s[1..]))[1..] == Squash(s[1..]);
    } else {
      var n := Until(s, IsSpace);
      SquashToken(s, n);
      var t, rest := Squash(s), Squash(s[n..]);
      assert n < |s| ==> IsSpace(rest[0]);
      assert n == |s| ==> rest == [];
      assert n < |t| ==> t[n] == rest[0];
      UntilUnique(t, IsSpace, n);
      assert t[..n] == s[..n] && t[n..] == rest;
      WordsSquash(s[n..]);
    }
  }

  /** Python's `splitlines()`. */
  function SplitLines(s: string): seq<string>
    decreases |s|
  {
    if s == [] then []
    else
      var n := Until(s, IsBreak);
      if n == |s| then [s]
      else [s[..n]] + SplitLines(s[AfterBreak(s, n)..])
  }

  function WordsOf(lines: seq<string>): seq<string> {
    if lines == [] then [] else WordsOf(lines[..|lines| - 1]) + Words(lines[|lines| - 1])
  }

  lemma {:induction false} WordsOfConcat(a: seq<string>, b: seq<string>)
    ensures WordsOf(a + b) == WordsOf(a) + WordsOf(b)
  {
    if b == [] {
      assert a + b == a;
    } else {
      assert (a + b)[..|a + b| - 1] == a + b[..|b| - 1];
      WordsOfConcat(a, b[..|b| - 1]);
    }
  }

  lemma WordsOfOne(line: string)
    ensures WordsOf([line]) == Words(line)
  {
    assert WordsOf([line][..0]) == [];
  }

  /** Where the next line starts after the break at `n`. */
  function AfterBreak(s: string, n: nat): (next: nat)
    requires n < |s|
    ensures n < next <= |s|
  {
    if s[n] == '\r' && n + 1 < |s| && s[n + 1] == '\n' then n + 2 else n + 1
  }

  lemma WordsAroundBreak(s: string, n: nat)
    requires n < |s| && IsBreak(s[n])
    ensures Words(s) == Words(s[..n]) + Words(s[AfterBreak(s, n)..])
  {
    hide Words;
    var next := AfterBreak(s, n);
    assert s == s[..n] + [s[n]] + s[n + 1..];
    WordsApart(s[..n], s[n], s[n + 1..]);
    WordsSkip(s[n + 1..], next - n - 1);
    assert s[n + 1..][next - n - 1..] == s[next..];
  }

  /** Line breaks are white space, so the words of a text are those of its lines. */
  lemma {:induction false} WordsOfLines(s: string)
    ensures WordsOf(SplitLines(s)) == Words(s)
    decreases |s|
  {
    if s != [] {
      var n := Until(s, IsBreak);
      if n == |s| {
        WordsOfOne(s);
      } else {
        var rest := s[AfterBreak(s, n)..];
        WordsAroundBreak(s, n);
        WordsOfLines(rest);
        assert SplitLines(s) == [s[..n]] + SplitLines(rest);
        hide Words, WordsOf, SplitLines, Until;
        WordsOfOne(s[..n]);
        WordsOfConcat([s[..n]], SplitLines(rest));
      }
    }
  }

  /** `"\n".join(lines)`. */
  function Join(lines: seq<string>, gap: char): string {
    if lines == [] then []
    else if |lines| == 1 then lines[0]
    else Join(lines[..|lines| - 1], gap) + [gap] + lines[|lines| - 1]
  }

  lemma {:induction false} WordsOfJoin(lines: seq<string>, gap: char)
    requires IsSpace(gap)
    ensures Words(Join(lines, gap)) == WordsOf(lines)
  {
    if |lines| == 1 {
      assert lines == [lines[0]];
      WordsOfOne(lines[0]);
    } else if lines != [] {
      WordsOfJoin(lines[..|lines| - 1], gap);
      WordsApart(Join(lines[..|lines| - 1], gap), gap, lines[|lines| - 1]);
    }
  }

  /** A word is not empty and holds no white space. */
  predicate IsWord(w: string) { w != [] && forall i :: 0 <= i < |w| ==> !IsSpace(w[i]) }

  lemma {:induction false} WordsAreWords(s: string)
    ensures forall w :: w in Words(s) ==> IsWord(w)
    decreases |s|
  {
    if s != [] {
      if IsSpace(s[0]) {
        WordsAreWords(s[1..]);
      } else {
        WordsAreWords(s[Until(s, IsSpace)..]);
      }
    }
  }

  lemma WordOfWord(w: string)
    requires IsWord(w)
    ensures Words(w) == [w]
  {
    UntilUnique(w, IsSpace, |w|);
    assert w[..|w|] == w && w[|w|..] == [];
  }

  lemma {:induction false} WordsOfWords(words: seq<string>)
    requires forall i :: 0 <= i < |words| ==> IsWord(words[i])
    ensures WordsOf(words) == words
  {
    if words != [] {
      WordsOfWords(words[..|words| - 1]);
      WordOfWord(words[|words| - 1]);
    }
  }
}
