/** Overlapping-window chunking of Markdown: normalization, sections under headings, and windows of tokens. */
module Chunking {
  import opened Basics
  import opened Text

  // --- Normalization ----------------------------------------------------------------------

  /** Both `"\r\n"` and `"\r"` become `"\n"`. */
  function ToLf(s: string): string
    decreases |s|
  {
    if s == [] then []
    else if s[0] == '\r' then ['\n'] + ToLf(if |s| > 1 && s[1] == '\n' then s[2..] else s[1..])
    else [s[0]] + ToLf(s[1..])
  }

  function Cleaned(lines: seq<string>): seq<string> {
    if lines == [] then [] else Cleaned(lines[..|lines| - 1]) + [Strip(Squash(lines[|lines| - 1]))]
  }

  /** A blank line is kept only after a line that is not blank. */
  function Collapse(lines: seq<string>): seq<string> {
    if lines == [] then []
    else
      var result := Collapse(lines[..|lines| - 1]);
      var line := lines[|lines| - 1];
      if line != "" || (result != [] && result[|result| - 1] != "") then result + [line] else result
  }

  /** `nfkc` stands for Unicode compatibility normalization. */
  function Normalize(nfkc: string -> string, value: string): string {
    Strip(Join(Collapse(Cleaned(SplitLines(ToLf(nfkc(value))))), '\n'))
  }

  method NormalizeSource(nfkc: string -> string, value: string) returns (normalized: string)
    ensures normalized == Normalize(nfkc, value)
  {
    var lines := Cleaned(SplitLines(ToLf(nfkc(value))));
    var result: seq<string> := [];
    for i := 0 to |lines|
      invariant result == Collapse(lines[..i])
    {
      assert lines[..i + 1][..i] == lines[..i];
      if lines[i] != "" || (result != [] && result[|result| - 1] != "") {
        result := result + [lines[i]];
      }
    }
    assert lines[..|lines|] == lines;
    normalized := Strip(Join(result, '\n'));
  }

  lemma {:induction false} ToLfToken(s: string, n: nat)
    requires n <= |s| && forall i :: 0 <= i < n ==> !IsSpace(s[i])
    ensures ToLf(s) == s[..n] + ToLf(s[n..])
  {
    if n == 0 {
      assert s[0..] == s;
    } else {
      var rest := s[1..];
      assert !IsSpace(s[0]) && s[0] != '\r';
      assert forall i :: 0 <= i < n - 1 ==> rest[i] == s[i + 1];
      ToLfToken(rest, n - 1);
      assert rest[n - 1..] == s[n..];
      Regroup(s, n, ToLf(s[n..]));
    }
  }

  lemma {:induction false} WordsToLf(s: string)
    ensures Words(ToLf(s)) == Words(s)
    decreases |s|
  {
    if s == [] {
    } else if s[0] == '\r' {
      var rest := if |s| > 1 && s[1] == '\n' then s[2..] else s[1..];
      WordsToLf(rest);
      assert (['\n'] + ToLf(rest))[1..] == ToLf(rest);
      assert |s| > 1 && s[1] == '\n' ==> s[1..][1..] == s[2..];
    } else if IsSpace(s[0]) {
      WordsToLf(s[1..]);
      assert ([s[0]] + ToLf(s[1..]))[1..] == ToLf(s[1..]);
    } else {
      var n := Until(s, IsSpace);
      ToLfToken(s, n);
      var t, rest := ToLf(s), ToLf(s[n..]);
      assert n < |s| ==> IsSpace(rest[0]);
      assert n == |s| ==> rest == [];
      assert n < |t| ==> t[n] == rest[0];
      UntilUnique(t, IsSpace, n);
      assert t[..n] == s[..n] && t[n..] == rest;
      WordsToLf(s[n..]);
    }
  }

  lemma {:induction false} WordsOfCleaned(lines: seq<string>)
    ensures WordsOf(Cleaned(lines)) == WordsOf(lines)
  {
    if lines != [] {
      var init, last := lines[..|lines| - 1], lines[|lines| - 1];
      WordsOfCleaned(init);
      WordsSquash(last);
      WordsStrip(Squash(last));
      assert Cleaned(lines)[..|Cleaned(init)|] == Cleaned(init);
    }
  }

  lemma {:induction false} WordsOfCollapse(lines: seq<string>)
    ensures WordsOf(Collapse(lines)) == WordsOf(lines)
  {
    if lines != [] {
      var init, last := lines[..|lines| - 1], lines[|lines| - 1];
      WordsOfCollapse(init);
      assert (Collapse(init) + [last])[..|Collapse(init)|] == Collapse(init);
    }
  }

  /** Normalization drops no word, adds none and keeps their order. */
  lemma NormalizeKeepsWords(nfkc: string -> string, value: string)
    ensures Words(Normalize(nfkc, value)) == Words(nfkc(value))
  {
    var text := ToLf(nfkc(value));
    WordsToLf(nfkc(value));
    WordsOfLines(text);
    WordsOfCleaned(SplitLines(text));
    WordsOfCollapse(Cleaned(SplitLines(text)));
    WordsOfJoin(Collapse(Cleaned(SplitLines(text))), '\n');
    WordsStrip(Join(Collapse(Cleaned(SplitLines(text))), '\n'));
  }

  /** The lines that are not blank, in order. */
  function Filled(lines: seq<string>): seq<string> {
    if lines == [] then []
    else Filled(lines[..|lines| - 1]) + if lines[|lines| - 1] != "" then [lines[|lines| - 1]] else []
  }

  /** Collapsing keeps every line with text, in order, starts with one, and leaves no two blank lines together. */
  lemma {:induction false} CollapseMeaning(lines: seq<string>)
    ensures var r := Collapse(lines);
            && Filled(r) == Filled(lines) && (r != [] ==> r[0] != "")
            && forall i :: 0 < i < |r| ==> r[i - 1] != "" || r[i] != ""
  {
    if lines != [] {
      var init, last := lines[..|lines| - 1], lines[|lines| - 1];
      CollapseMeaning(init);
      assert (Collapse(init) + [last])[..|Collapse(init)|] == Collapse(init);
    }
  }

  /** A blank line is dropped exactly when the source has it first or right after another blank line. */
  lemma BlankKeptIff(lines: seq<string>, line: string)
    ensures Collapse(lines + [line]) ==
            Collapse(lines) + if line != "" || (lines != [] && lines[|lines| - 1] != "") then [line] else []
  {
    var all := lines + [line];
    assert all[..|all| - 1] == lines && all[|all| - 1] == line;
    LastBlank(lines);
    CollapseLast(all);
    hide Collapse;
  }

  lemma CollapseLast(lines: seq<string>)
    requires lines != []
    ensures var result, line := Collapse(lines[..|lines| - 1]), lines[|lines| - 1];
            Collapse(lines) ==
              result + if line != "" || (result != [] && result[|result| - 1] != "") then [line] else []
  {
  }

  lemma {:induction false} LastBlank(lines: seq<string>)
    ensures var r := Collapse(lines);
            (r != [] && r[|r| - 1] != "") <==> (lines != [] && lines[|lines| - 1] != "")
  {
    if lines != [] {
      LastBlank(lines[..|lines| - 1]);
    }
  }

  /** A text is normalized to nothing exactly when it has no word. */
  lemma EmptyIff(nfkc: string -> string, value: string)
    ensures Normalize(nfkc, value) == "" <==> Words(nfkc(value)) == []
  {
    NormalizeKeepsWords(nfkc, value);
    var joined := Join(Collapse(Cleaned(SplitLines(ToLf(nfkc(value))))), '\n');
    WordsStrip(joined);
    StrippedWords(joined);
  }

  lemma {:induction false} StrippedWords(s: string)
    ensures Strip(s) != "" ==> Words(Strip(s)) != []
    decreases |s|
  {
    if s != [] {
      if IsSpace(s[0]) {
        StrippedWords(s[1..]);
      } else if IsSpace(s[|s| - 1]) {
        StrippedWords(s[..|s| - 1]);
      }
    }
  }

  // --- Sections ---------------------------------------------------------------------------

  function StripRight(s: string): string {
    if s != [] && IsSpace(s[|s| - 1]) then StripRight(s[..|s| - 1]) else s
  }

  /**
    The title of a heading: one to six marks, white space, and something up to trailing white space.
    When nothing but white space follows the marks, the last of at least two characters is the title.
  */
  function HeadingTitle(line: string): Option<string> {
    var marks := Until(line, c => c != '#');
    var rest := line[marks..];
    var gap := Until(rest, c => !IsSpace(c));
    if !(1 <= marks <= 6) || gap == 0 then None
    else if gap < |rest| then Some(StripRight(rest[gap..]))
    else if gap >= 2 then Some([rest[gap - 1]])
    else None
  }

  /** The line is one to six marks, white space, this title, and nothing but white space after it. */
  ghost predicate ReadsAs(line: string, marks: nat, gap: nat, title: string) {
    && 1 <= marks <= 6 && 1 <= gap && title != [] && marks + gap + |title| <= |line|
    && (forall i :: 0 <= i < marks ==> line[i] == '#')
    && (forall i :: marks <= i < marks + gap ==> IsSpace(line[i]))
    && line[marks + gap..marks + gap + |title|] == title
    && (forall i :: marks + gap + |title| <= i < |line| ==> IsSpace(line[i]))
  }

  predicate Trimmed(title: string) { title != [] && !IsSpace(title[0]) && !IsSpace(title[|title| - 1]) }

  lemma {:induction false} StrippedRight(s: string)
    ensures StripRight(s) <= s && forall i :: |StripRight(s)| <= i < |s| ==> IsSpace(s[i])
    ensures StripRight(s) != [] ==> !IsSpace(StripRight(s)[|StripRight(s)| - 1])
  {
    if s != [] && IsSpace(s[|s| - 1]) {
      StrippedRight(s[..|s| - 1]);
    }
  }

  lemma ReadBy(line: string, marks: nat, gap: nat, rest: string, title: string)
    requires 1 <= marks <= 6 && marks <= |line| && rest == line[marks..] && 1 <= gap <= |rest|
    requires forall i :: 0 <= i < marks ==> line[i] == '#'
    requires forall i :: 0 <= i < gap ==> IsSpace(rest[i])
    requires title != [] && title <= rest[gap..] && forall i :: gap + |title| <= i < |rest| ==> IsSpace(rest[i])
    ensures ReadsAs(line, marks, gap, title)
  {
    hide IsSpace;
    assert forall i :: marks <= i < |line| ==> line[i] == rest[i - marks];
    assert line[marks + gap..marks + gap + |title|] == rest[gap..][..|title|] == title;
  }

  lemma TitleInside(line: string, marks: nat, gap: nat, rest: string)
    requires 1 <= marks <= 6 && marks <= |line| && rest == line[marks..] && 1 <= gap < |rest|
    requires forall i :: 0 <= i < marks ==> line[i] == '#'
    requires forall i :: 0 <= i < gap ==> IsSpace(rest[i])
    requires !IsSpace(rest[gap])
    ensures ReadsAs(line, marks, gap, StripRight(rest[gap..])) && Trimmed(StripRight(rest[gap..]))
  {
    hide ReadsAs, IsSpace, StripRight;
    var tail := rest[gap..];
    StrippedRight(tail);
    assert tail[0] == rest[gap];
    assert forall i :: gap <= i < |rest| ==> rest[i] == tail[i - gap];
    ReadBy(line, marks, gap, rest, StripRight(tail));
  }

  lemma TitleBlank(line: string, marks: nat, gap: nat, rest: string)
    requires 1 <= marks <= 6 && marks <= |line| && rest == line[marks..] && 2 <= gap == |rest|
    requires forall i :: 0 <= i < marks ==> line[i] == '#'
    requires forall i :: 0 <= i < gap ==> IsSpace(rest[i])
    ensures ReadsAs(line, marks, gap - 1, [rest[gap - 1]]) && rest[gap - 1] == line[|line| - 1]
  {
    hide ReadsAs, IsSpace;
    assert rest[gap - 1..] == [rest[gap - 1]];
    ReadBy(line, marks, gap - 1, rest, [rest[gap - 1]]);
  }

  lemma TitleRead(line: string)
    requires HeadingTitle(line).Some?
    ensures exists marks: nat, gap: nat :: ReadsAs(line, marks, gap, HeadingTitle(line).value)
    ensures Trimmed(HeadingTitle(line).value) || HeadingTitle(line) == Some([line[|line| - 1]])
  {
    var marks := Until(line, c => c != '#');
    var rest := line[marks..];
    var gap := Until(rest, c => !IsSpace(c));
    hide ReadsAs, IsSpace, StripRight, Until, Trimmed;
    if gap < |rest| {
      TitleInside(line, marks, gap, rest);
    } else {
      TitleBlank(line, marks, gap, rest);
    }
  }

  lemma ReadTitle(line: string, marks: nat, gap: nat, title: string)
    requires ReadsAs(line, marks, gap, title)
    ensures HeadingTitle(line).Some? && (Trimmed(title) ==> HeadingTitle(line) == Some(title))
  {
    UntilUnique(line, c => c != '#', marks);
    var rest := line[marks..];
    var n := Until(rest, c => !IsSpace(c));
    assert forall i :: 0 <= i < gap ==> IsSpace(rest[i]) && rest[i] == line[marks + i];
    assert gap <= n;
    if Trimmed(title) {
      assert rest[gap] == title[0];
      UntilUnique(rest, c => !IsSpace(c), gap);
      var tail := rest[gap..];
      assert tail[..|title|] == title;
      assert forall i :: |title| <= i < |tail| ==> tail[i] == line[marks + gap + i];
      RightUnique(tail, title);
    }
  }

  lemma {:induction false} RightUnique(s: string, title: string)
    requires title <= s && Trimmed(title) && forall i :: |title| <= i < |s| ==> IsSpace(s[i])
    ensures StripRight(s) == title
  {
    if |s| > |title| {
      RightUnique(s[..|s| - 1], title);
    } else {
      assert s == title;
    }
  }

  /**
    A line is a heading exactly when it can be read as marks, white space and a title. The title is the
    one reading without white space around it, or, when only white space follows the marks, its last character.
  */
  lemma HeadingMeaning(line: string)
    ensures HeadingTitle(line).Some? <==>
            exists marks: nat, gap: nat, title: string :: ReadsAs(line, marks, gap, title)
    ensures forall marks: nat, gap: nat, title: string :: ReadsAs(line, marks, gap, title) && Trimmed(title) ==>
              HeadingTitle(line) == Some(title)
    ensures HeadingTitle(line).Some? ==>
              var title := HeadingTitle(line).value;
              && (exists marks: nat, gap: nat :: ReadsAs(line, marks, gap, title))
              && (Trimmed(title) || title == [line[|line| - 1]])
  {
    if HeadingTitle(line).Some? {
      TitleRead(line);
    }
    hide HeadingTitle, ReadsAs;
    forall marks: nat, gap: nat, title: string | ReadsAs(line, marks, gap, title)
      ensures HeadingTitle(line).Some? && (Trimmed(title) ==> HeadingTitle(line) == Some(title))
    {
      ReadTitle(line, marks, gap, title);
    }
  }

  datatype Section = Section(heading: Option<string>, body: seq<string>)

  datatype Scanned = Scanned(done: seq<Section>, heading: Option<string>, body: seq<string>)

  function Flush(s: Scanned): seq<Section> {
    if s.body != [] then s.done + [Section(s.heading, s.body)] else s.done
  }

  function ScanLines(lines: seq<string>): Scanned {
    if lines == [] then Scanned([], None, [])
    else
      var s := ScanLines(lines[..|lines| - 1]);
      var line := lines[|lines| - 1];
      if HeadingTitle(line).Some? then Scanned(Flush(s), HeadingTitle(line), [])
      else if line != "" then s.(body := s.body + [line])
      else s
  }

  function SectionsOf(lines: seq<string>): seq<Section> { Flush(ScanLines(lines)) }

  method Sections(source: string) returns (sections: seq<Section>)
    ensures sections == SectionsOf(SplitLines(source))
  {
    var lines := SplitLines(source);
    var heading: Option<string> := None;
    var body: seq<string> := [];
    sections := [];
    for i := 0 to |lines|
      invariant Scanned(sections, heading, body) == ScanLines(lines[..i])
    {
      assert lines[..i + 1][..i] == lines[..i];
      var title := HeadingTitle(lines[i]);
      if title.Some? {
        if body != [] {
          sections := sections + [Section(heading, body)];
        }
        heading, body := title, [];
      } else if lines[i] != "" {
        body := body + [lines[i]];
      }
    }
    assert lines[..|lines|] == lines;
    if body != [] {
      sections := sections + [Section(heading, body)];
    }
  }

  predicate IsBody(line: string) { HeadingTitle(line).None? && line != "" }

  /** The title of the last heading, if there is one. */
  function Nearest(lines: seq<string>): Option<string> {
    if lines == [] then None
    else if HeadingTitle(lines[|lines| - 1]).Some? then HeadingTitle(lines[|lines| - 1])
    else Nearest(lines[..|lines| - 1])
  }

  /** Every line that is neither a heading nor empty, in order, with the nearest heading above it. */
  function Tagged(lines: seq<string>): seq<(Option<string>, string)> {
    if lines == [] then []
    else
      var init, line := lines[..|lines| - 1], lines[|lines| - 1];
      Tagged(init) + if IsBody(line) then [(Nearest(init), line)] else []
  }

  function Under(heading: Option<string>, body: seq<string>): seq<(Option<string>, string)> {
    seq(|body|, i requires 0 <= i < |body| => (heading, body[i]))
  }

  function Flat(sections: seq<Section>): seq<(Option<string>, string)> {
    if sections == [] then []
    else Flat(sections[..|sections| - 1]) + Under(sections[|sections| - 1].heading, sections[|sections| - 1].body)
  }

  lemma FlatFlush(s: Scanned)
    ensures Flat(Flush(s)) == Flat(s.done) + Under(s.heading, s.body)
  {
    if s.body != [] {
      assert Flush(s)[..|s.done|] == s.done;
    }
  }

  lemma {:induction false} ScanMeaning(lines: seq<string>)
    ensures var s := ScanLines(lines);
            Flat(s.done) + Under(s.heading, s.body) == Tagged(lines) && s.heading == Nearest(lines)
  {
    if lines != [] {
      var init, line := lines[..|lines| - 1], lines[|lines| - 1];
      ScanMeaning(init);
      hide HeadingTitle;
      var s, t := ScanLines(init), ScanLines(lines);
      if HeadingTitle(line).Some? {
        FlatFlush(s);
        assert Under(t.heading, t.body) == [];
      } else if line != "" {
        assert Under(t.heading, t.body) == Under(s.heading, s.body) + [(s.heading, line)];
      }
    }
  }

  /** Sections hold exactly the lines that are not headings, in order, each under its nearest heading. */
  lemma SectionsMeaning(lines: seq<string>)
    ensures Flat(SectionsOf(lines)) == Tagged(lines)
    ensures forall k :: 0 <= k < |SectionsOf(lines)| ==> SectionsOf(lines)[k].body != []
  {
    ScanMeaning(lines);
    FlatFlush(ScanLines(lines));
    BodiesNotEmpty(lines);
  }

  lemma {:induction false} BodiesNotEmpty(lines: seq<string>)
    ensures forall k :: 0 <= k < |ScanLines(lines).done| ==> ScanLines(lines).done[k].body != []
  {
    if lines != [] {
      hide HeadingTitle;
      BodiesNotEmpty(lines[..|lines| - 1]);
    }
  }

  function BodyLines(lines: seq<string>): seq<string> {
    if lines == [] then []
    else BodyLines(lines[..|lines| - 1]) + if IsBody(lines[|lines| - 1]) then [lines[|lines| - 1]] else []
  }

  /** A heading closes the section before it; the lines up to the next heading are one section under it. */
  lemma {:induction false} SectionsBreakAtHeadings(before: seq<string>, heading: string, after: seq<string>)
    requires HeadingTitle(heading).Some?
    requires forall i :: 0 <= i < |after| ==> HeadingTitle(after[i]).None?
    ensures SectionsOf(before + [heading] + after) ==
              SectionsOf(before) +
              if BodyLines(after) != [] then [Section(HeadingTitle(heading), BodyLines(after))] else []
  {
    ScanAfterHeading(before, heading, after);
  }

  lemma {:induction false} ScanAfterHeading(before: seq<string>, heading: string, after: seq<string>)
    requires HeadingTitle(heading).Some?
    requires forall i :: 0 <= i < |after| ==> HeadingTitle(after[i]).None?
    ensures ScanLines(before + [heading] + after) ==
            Scanned(SectionsOf(before), HeadingTitle(heading), BodyLines(after))
  {
    hide HeadingTitle;
    var all := before + [heading] + after;
    if after == [] {
      assert all == before + [heading];
      assert all[..|all| - 1] == before;
    } else {
      assert all[..|all| - 1] == before + [heading] + after[..|after| - 1];
      ScanAfterHeading(before, heading, after[..|after| - 1]);
    }
  }

  // --- Windows ----------------------------------------------------------------------------

  datatype RawChunker = Chunker(maxTokens: int, overlapTokens: int)
  {
    predicate Valid() { 50 <= maxTokens <= 1000 && 0 <= overlapTokens < maxTokens / 2 }
  }

  type Chunker = c: RawChunker | c.Valid() witness Chunker(500, 50)

  function Windows(c: Chunker, tokens: seq<string>): seq<seq<string>>
    decreases |tokens|
  {
    if |tokens| <= c.maxTokens then [tokens]
    else [tokens[..c.maxTokens]] + Windows(c, tokens[c.maxTokens - c.overlapTokens..])
  }

  /** The tokens after the overlap of every window. */
  function Fresh(c: Chunker, windows: seq<seq<string>>): seq<string> {
    if windows == [] then []
    else (if |windows[0]| >= c.overlapTokens then windows[0][c.overlapTokens..] else []) + Fresh(c, windows[1..])
  }

  /** The first window, then every later window without its overlap. */
  function Rebuild(c: Chunker, windows: seq<seq<string>>): seq<string> {
    if windows == [] then [] else windows[0] + Fresh(c, windows[1..])
  }

  lemma FirstWindow(c: Chunker, tokens: seq<string>)
    requires tokens != []
    ensures var ws := Windows(c, tokens); ws != [] && ws[0] == tokens[..Min(|tokens|, c.maxTokens)]
  {
  }

  /** The window that follows starts with the end of the one before, and goes beyond it. */
  ghost predicate Continues(c: Chunker, window: seq<string>, next: seq<string>) {
    && |window| == c.maxTokens && |next| > c.overlapTokens
    && next[..c.overlapTokens] == window[c.maxTokens - c.overlapTokens..]
  }

  /**
    Windows lose nothing: the first one and the later ones without their overlaps rebuild the tokens.
  */
  lemma {:induction false} WindowsRebuild(c: Chunker, tokens: seq<string>)
    requires tokens != []
    ensures Rebuild(c, Windows(c, tokens)) == tokens
    decreases |tokens|
  {
    if |tokens| > c.maxTokens {
      var rest := tokens[c.maxTokens - c.overlapTokens..];
      var first, later := tokens[..c.maxTokens], Windows(c, rest);
      WindowsRebuild(c, rest);
      FirstWindow(c, rest);
      assert Windows(c, tokens) == [first] + later;
      hide Windows;
      OneMoreWindow(c, first, later);
      assert rest[c.overlapTokens..] == tokens[c.maxTokens..];
    } else {
      assert Windows(c, tokens)[1..] == [];
    }
  }

  /** Putting a window in front adds it, and takes the overlap off the one that was first. */
  lemma OneMoreWindow(c: Chunker, first: seq<string>, later: seq<seq<string>>)
    requires later != [] && c.overlapTokens <= |later[0]|
    ensures |Rebuild(c, later)| >= c.overlapTokens
    ensures Rebuild(c, [first] + later) == first + Rebuild(c, later)[c.overlapTokens..]
  {
    assert ([first] + later)[1..] == later;
    var w, more := later[0], Fresh(c, later[1..]);
    assert w[c.overlapTokens..] + more == (w + more)[c.overlapTokens..];
  }

  /** Each window is within the limit, and each later one repeats the overlap and adds a token. */
  lemma {:induction false} WindowsShape(c: Chunker, tokens: seq<string>)
    requires tokens != []
    ensures var ws := Windows(c, tokens);
            && (forall k :: 0 <= k < |ws| ==> 1 <= |ws[k]| <= c.maxTokens)
            && (forall k :: 0 <= k < |ws| - 1 ==> Continues(c, ws[k], ws[k + 1]))
    decreases |tokens|
  {
    if |tokens| > c.maxTokens {
      var rest := tokens[c.maxTokens - c.overlapTokens..];
      var ws, later := Windows(c, tokens), Windows(c, rest);
      WindowsShape(c, rest);
      FirstWindow(c, rest);
      assert Continues(c, ws[0], later[0]);
      hide Continues;
      assert ws == [ws[0]] + later;
    }
  }

  // --- Chunks -----------------------------------------------------------------------------

  datatype Chunk = Chunk(ordinal: nat, text: string, tokenCount: nat, heading: Option<string>)

  function ChunkText(heading: Option<string>, window: seq<string>): string {
    Strip((if heading.Some? then heading.value + ['\n'] else "") + Join(window, ' '))
  }

  function Draft(ordinal: nat, heading: Option<string>, window: seq<string>): Chunk {
    Chunk(ordinal, ChunkText(heading, window), |window|, heading)
  }

  function Drafts(first: nat, heading: Option<string>, windows: seq<seq<string>>): seq<Chunk> {
    seq(|windows|, k requires 0 <= k < |windows| => Draft(first + k, heading, windows[k]))
  }

  function SectionTokens(s: Section): seq<string> { Words(Join(s.body, '\n')) }

  function SectionChunks(c: Chunker, s: Section, first: nat): seq<Chunk> {
    if SectionTokens(s) == [] then [] else Drafts(first, s.heading, Windows(c, SectionTokens(s)))
  }

  function AllChunks(c: Chunker, sections: seq<Section>): seq<Chunk> {
    if sections == [] then []
    else
      var before := AllChunks(c, sections[..|sections| - 1]);
      before + SectionChunks(c, sections[|sections| - 1], |before|)
  }

  datatype ChunkError = EmptySource | NoContent

  function Markdown(c: Chunker, nfkc: string -> string, source: string): Result<seq<Chunk>, ChunkError> {
    var normalized := Normalize(nfkc, source);
    var chunks := AllChunks(c, SectionsOf(SplitLines(normalized)));
    if normalized == "" then Err(EmptySource) else if chunks == [] then Err(NoContent) else Ok(chunks)
  }

  method ChunkMarkdown(c: Chunker, nfkc: string -> string, source: string) returns (r: Result<seq<Chunk>, ChunkError>)
    ensures r == Markdown(c, nfkc, source)
  {
    var normalized := NormalizeSource(nfkc, source);
    if normalized == "" {
      return Err(EmptySource);
    }
    var sections := Sections(normalized);
    var chunks: seq<Chunk> := [];
    for i := 0 to |sections|
      invariant chunks == AllChunks(c, sections[..i])
    {
      assert sections[..i + 1][..i] == sections[..i];
      chunks := AddSection(c, sections[i], chunks);
    }
    assert sections[..|sections|] == sections;
    if chunks == [] {
      return Err(NoContent);
    }
    return Ok(chunks);
  }

  lemma DraftsStep(first: nat, heading: Option<string>, window: seq<string>, later: seq<seq<string>>)
    ensures Drafts(first, heading, [window] + later) ==
            [Draft(first, heading, window)] + Drafts(first + 1, heading, later)
  {
    hide ChunkText;
  }

  /** Taking one window and starting the next one before its end leaves the chunks to come. */
  lemma SlideStep(c: Chunker, tokens: seq<string>, start: nat, first: nat, heading: Option<string>)
    requires start < |tokens|
    ensures var window := tokens[start..Min(start + c.maxTokens, |tokens|)];
            var next := start + (c.maxTokens - c.overlapTokens);
            Drafts(first, heading, Windows(c, tokens[start..])) ==
              [Draft(first, heading, window)]
              + if start + c.maxTokens >= |tokens| then [] else Drafts(first + 1, heading, Windows(c, tokens[next..]))
  {
    var rest := tokens[start..];
    var window := tokens[start..Min(start + c.maxTokens, |tokens|)];
    assert window == rest[..Min(|rest|, c.maxTokens)];
    if start + c.maxTokens >= |tokens| {
      assert window == rest;
      assert Windows(c, rest) == [window] + [];
      hide Windows, Drafts, Draft;
      DraftsStep(first, heading, window, []);
      NoDrafts(first + 1, heading);
    } else {
      var next := start + (c.maxTokens - c.overlapTokens);
      assert rest[c.maxTokens - c.overlapTokens..] == tokens[next..];
      assert Windows(c, rest) == [window] + Windows(c, tokens[next..]);
      hide Windows, Drafts, Draft;
      DraftsStep(first, heading, window, Windows(c, tokens[next..]));
    }
  }

  /** With the chunks of the windows from `start` on, the chunks so far make up all of them. */
  ghost predicate Sliding(c: Chunker, tokens: seq<string>, start: nat, heading: Option<string>, chunks: seq<Chunk>,
                          all: seq<Chunk>) {
    start < |tokens| && chunks + Drafts(|chunks|, heading, Windows(c, tokens[start..])) == all
  }

  lemma SlideOn(c: Chunker, tokens: seq<string>, start: nat, heading: Option<string>, chunks: seq<Chunk>,
                all: seq<Chunk>)
    requires Sliding(c, tokens, start, heading, chunks, all)
    ensures var window := tokens[start..Min(start + c.maxTokens, |tokens|)];
            var more := chunks + [Draft(|chunks|, heading, window)];
            if start + c.maxTokens >= |tokens| then more == all
            else Sliding(c, tokens, start + (c.maxTokens - c.overlapTokens), heading, more, all)
  {
    hide Drafts, Draft, Windows;
    SlideStep(c, tokens, start, |chunks|, heading);
    var chunk := Draft(|chunks|, heading, tokens[start..Min(start + c.maxTokens, |tokens|)]);
    if start + c.maxTokens < |tokens| {
      var later := Drafts(|chunks| + 1, heading, Windows(c, tokens[start + (c.maxTokens - c.overlapTokens)..]));
      assert chunks + ([chunk] + later) == chunks + [chunk] + later;
    }
  }

  /** The inner loop: slide the window over the tokens of one section. */
  method AddSection(c: Chunker, section: Section, before: seq<Chunk>) returns (chunks: seq<Chunk>)
    ensures chunks == before + SectionChunks(c, section, |before|)
  {
    var tokens := Words(Join(section.body, '\n'));
    chunks := before;
    if tokens == [] {
      return;
    }
    var start := 0;
    ghost var all := before + SectionChunks(c, section, |before|);
    assert tokens[0..] == tokens;
    assert Sliding(c, tokens, 0, section.heading, chunks, all);
    hide *;
    while start < |tokens|
      invariant 0 <= start < |tokens|
      invariant Sliding(c, tokens, start, section.heading, chunks, all)
      decreases |tokens| - start
    {
      SlideOn(c, tokens, start, section.heading, chunks, all);
      var window := tokens[start..Min(start + c.maxTokens, |tokens|)];
      chunks := chunks + [Draft(|chunks|, section.heading, window)];
      if start + c.maxTokens >= |tokens| {
        return;
      }
      start := start + (c.maxTokens - c.overlapTokens);
    }
  }

  lemma NoDrafts(first: nat, heading: Option<string>)
    ensures Drafts(first, heading, []) == []
  {
  }

  // --- Nothing is lost --------------------------------------------------------------------

  function HeadingWords(heading: Option<string>): seq<string> {
    match heading case Some(title) => Words(title) case None => []
  }

  /** The window of a chunk, read back from its text. */
  function Window(chunk: Chunk): seq<string> {
    var words := Words(chunk.text);
    var skip := |HeadingWords(chunk.heading)|;
    if skip <= |words| then words[skip..] else []
  }

  function WindowsOf(chunks: seq<Chunk>): seq<seq<string>> {
    seq(|chunks|, k requires 0 <= k < |chunks| => Window(chunks[k]))
  }

  /** A chunk's text is its heading's words followed by its window. */
  lemma WindowBack(ordinal: nat, heading: Option<string>, window: seq<string>)
    requires forall i :: 0 <= i < |window| ==> IsWord(window[i])
    ensures Words(ChunkText(heading, window)) == HeadingWords(heading) + window
    ensures Window(Draft(ordinal, heading, window)) == window
  {
    var joined := Join(window, ' ');
    WordsOfJoin(window, ' ');
    WordsOfWords(window);
    if heading.Some? {
      WordsApart(heading.value, '\n', joined);
      WordsStrip(heading.value + ['\n'] + joined);
    } else {
      assert "" + joined == joined;
      WordsStrip(joined);
    }
    assert (HeadingWords(heading) + window)[|HeadingWords(heading)|..] == window;
  }

  /** Every window is made of words. */
  lemma {:induction false} WindowsOfWords(c: Chunker, tokens: seq<string>)
    requires forall i :: 0 <= i < |tokens| ==> IsWord(tokens[i])
    ensures forall k, i :: 0 <= k < |Windows(c, tokens)| && 0 <= i < |Windows(c, tokens)[k]| ==>
            IsWord(Windows(c, tokens)[k][i])
    decreases |tokens|
  {
    if |tokens| > c.maxTokens {
      WindowsOfWords(c, tokens[c.maxTokens - c.overlapTokens..]);
    }
  }

  lemma DraftsRestored(c: Chunker, heading: Option<string>, windows: seq<seq<string>>, first: nat)
    requires forall k, i :: 0 <= k < |windows| && 0 <= i < |windows[k]| ==> IsWord(windows[k][i])
    ensures WindowsOf(Drafts(first, heading, windows)) == windows
  {
    hide Window, ChunkText;
    forall k | 0 <= k < |windows| ensures Window(Draft(first + k, heading, windows[k])) == windows[k] {
      WindowBack(first + k, heading, windows[k]);
    }
  }

  lemma SectionRestored(c: Chunker, s: Section, first: nat)
    ensures Rebuild(c, WindowsOf(SectionChunks(c, s, first))) == SectionTokens(s)
  {
    var tokens := SectionTokens(s);
    if tokens != [] {
      WordsAreWords(Join(s.body, '\n'));
      assert forall i :: 0 <= i < |tokens| ==> tokens[i] in tokens;
      WindowsOfWords(c, tokens);
      WindowsRebuild(c, tokens);
      hide Windows, Rebuild, WindowsOf, Drafts, IsWord, SectionTokens;
      DraftsRestored(c, s.heading, Windows(c, tokens), first);
    }
  }

  ghost predicate InOrder(c: Chunker, chunks: seq<Chunk>, first: nat) {
    forall k :: 0 <= k < |chunks| ==> chunks[k].ordinal == first + k && 1 <= chunks[k].tokenCount <= c.maxTokens
  }

  lemma SectionInOrder(c: Chunker, s: Section, first: nat)
    ensures InOrder(c, SectionChunks(c, s, first), first)
    ensures SectionChunks(c, s, first) == [] <==> SectionTokens(s) == []
  {
    var tokens := SectionTokens(s);
    if tokens != [] {
      WindowsShape(c, tokens);
      FirstWindow(c, tokens);
      hide Windows, ChunkText, Continues, SectionTokens;
    }
  }

  /** Read the tokens of all sections back from the chunks, section by section. */
  function Restored(c: Chunker, sections: seq<Section>, chunks: seq<Chunk>): seq<string> {
    if sections == [] then []
    else
      var n := |AllChunks(c, sections[..|sections| - 1])|;
      if n <= |chunks| then
        Restored(c, sections[..|sections| - 1], chunks[..n]) + Rebuild(c, WindowsOf(chunks[n..]))
      else []
  }

  function TokensOf(sections: seq<Section>): seq<string> {
    if sections == [] then [] else TokensOf(sections[..|sections| - 1]) + SectionTokens(sections[|sections| - 1])
  }

  lemma InOrderAppend(c: Chunker, a: seq<Chunk>, b: seq<Chunk>)
    requires InOrder(c, a, 0) && InOrder(c, b, |a|)
    ensures InOrder(c, a + b, 0)
  {
  }

  lemma {:induction false} AllRestored(c: Chunker, sections: seq<Section>)
    ensures var chunks := AllChunks(c, sections);
            && Restored(c, sections, chunks) == TokensOf(sections)
            && (chunks == [] <==> TokensOf(sections) == [])
            && InOrder(c, chunks, 0)
  {
    if sections != [] {
      var init, last := sections[..|sections| - 1], sections[|sections| - 1];
      AllRestored(c, init);
      var before := AllChunks(c, init);
      var added := SectionChunks(c, last, |before|);
      SectionRestored(c, last, |before|);
      SectionInOrder(c, last, |before|);
      var chunks := AllChunks(c, sections);
      assert chunks == before + added;
      assert TokensOf(sections) == TokensOf(init) + SectionTokens(last);
      assert chunks[..|before|] == before && chunks[|before|..] == added;
      InOrderAppend(c, before, added);
      hide InOrder, AllChunks, TokensOf, SectionChunks, Rebuild, WindowsOf, SectionTokens;
    }
  }

  lemma {:induction false} TokensOfFlush(s: Scanned)
    ensures TokensOf(Flush(s)) == TokensOf(s.done) + WordsOf(s.body)
  {
    if s.body != [] {
      assert Flush(s)[..|s.done|] == s.done;
      WordsOfJoin(s.body, '\n');
    }
  }

  /** The words of everything scanned so far. */
  function ScannedWords(s: Scanned): seq<string> { TokensOf(s.done) + WordsOf(s.body) }

  lemma BodyLineWords(s: Scanned, line: string)
    ensures ScannedWords(s.(body := s.body + [line])) == ScannedWords(s) + Words(line)
  {
    hide TokensOf, Words, WordsOf, HeadingTitle;
    WordsOfConcat(s.body, [line]);
    WordsOfOne(line);
    assert TokensOf(s.done) + (WordsOf(s.body) + Words(line)) == TokensOf(s.done) + WordsOf(s.body) + Words(line);
  }

  lemma {:induction false} SectionTokensMeaning(lines: seq<string>)
    ensures ScannedWords(ScanLines(lines)) == WordsOf(BodyLines(lines))
  {
    if lines != [] {
      var init, line := lines[..|lines| - 1], lines[|lines| - 1];
      SectionTokensMeaning(init);
      var s := ScanLines(init);
      TokensOfFlush(s);
      if IsBody(line) {
        BodyLineWords(s, line);
        hide HeadingTitle, Words, TokensOf, ScannedWords, Flush;
        WordsOfConcat(BodyLines(init), [line]);
        WordsOfOne(line);
      } else {
        hide HeadingTitle, Words, TokensOf, Flush;
        assert BodyLines(lines) == BodyLines(init);
      }
    }
  }

  /**
    Chunking loses nothing: reading the chunks back gives, in order, every word of every line of the
    normalized source that is not a heading. Ordinals count from zero without gaps and every chunk
    holds at least one token and at most the limit. It is refused exactly when there is no such word.
  */
  lemma MarkdownLosesNothing(c: Chunker, nfkc: string -> string, source: string)
    ensures var lines := SplitLines(Normalize(nfkc, source));
            var words := WordsOf(BodyLines(lines));
            && (Markdown(c, nfkc, source).Ok? <==> words != [])
            && (Markdown(c, nfkc, source) == Err(EmptySource) <==> Words(nfkc(source)) == [])
            && (Markdown(c, nfkc, source).Ok? ==>
                  var chunks := Markdown(c, nfkc, source).value;
                  && Restored(c, SectionsOf(lines), chunks) == words
                  && InOrder(c, chunks, 0))
  {
    var lines := SplitLines(Normalize(nfkc, source));
    EmptyIff(nfkc, source);
    SectionTokensMeaning(lines);
    TokensOfFlush(ScanLines(lines));
    AllRestored(c, SectionsOf(lines));
    hide HeadingTitle, Restored, AllChunks;
    assert Normalize(nfkc, source) == "" ==> lines == [];
  }
}
