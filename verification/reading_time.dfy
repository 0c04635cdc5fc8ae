/** The reading-time estimate of a post. The body is stripped of code,
    import and export statements, markup, comments and frontmatter by a
    fixed sequence of regular-expression replacements; the words left are
    counted, and the count becomes whole minutes at 238 words per minute,
    never less than one. Each replacement is written out as a scan from the
    left, which is how a global replacement consumes its input. */
module ReadingTime {

  import opened Wrappers
  import opened Strings
  import opened Sequences

  /** Average reading speed in words per minute. */
  const WordsPerMinute: nat := 238

  /* -------------------------------------------------------------- passes */

  /** `s.replace(/open[\s\S]*?close/g, '')`: scanning from the left, an
      `open` that is followed somewhere by `close` is removed together with
      everything up to the end of the first such `close`; every other
      character is kept. */
  function RemoveSpans(s: string, open: string, close: string): (r: string)
    requires |open| > 0
    ensures |r| <= |s|
    ensures forall c :: c in r ==> c in s
    decreases |s|
  {
    if |s| == 0 then ""
    else if StartsWith(s, open) && IndexOf(s[|open|..], close).Some? then
      var end := |open| + IndexOf(s[|open|..], close).value + |close|;
      RemoveSpans(s[end..], open, close)
    else [s[0]] + RemoveSpans(s[1..], open, close)
  }

  /** `s.replace(/o[^c]+c/g, '')` for single characters `o` and `c`: an `o`
      whose next `c` comes after at least one other character is removed
      together with everything up to and including that `c`. */
  function RemoveBracketed(s: string, open: char, close: char): (r: string)
    ensures |r| <= |s|
    ensures forall c :: c in r ==> c in s
  {
    if |s| == 0 then ""
    else if s[0] == open && close in s[1..] && FirstIndex(s[1..], close) >= 1 then
      RemoveBracketed(s[FirstIndex(s[1..], close) + 2..], open, close)
    else [s[0]] + RemoveBracketed(s[1..], open, close)
  }

  /** The length of the run of whitespace that starts `s`. */
  function LeadingWhitespace(s: string): (n: nat)
    ensures n <= |s|
    ensures forall i :: 0 <= i < n ==> IsWhitespace(s[i])
    ensures n < |s| ==> !IsWhitespace(s[n])
  {
    if |s| > 0 && IsWhitespace(s[0]) then 1 + LeadingWhitespace(s[1..]) else 0
  }

  /** The length of the rest of the line: the characters `.` matches. */
  function LineLength(s: string): (n: nat)
    ensures n <= |s|
    ensures forall i :: 0 <= i < n ==> !IsLineTerminator(s[i])
    ensures n < |s| ==> IsLineTerminator(s[n])
  {
    if |s| > 0 && !IsLineTerminator(s[0]) then 1 + LineLength(s[1..]) else 0
  }

  /** The length of the match of `keyword\s+.*$` at the start of `s`, or 0
      when there is none. The greedy `\s+` may run over line ends; `.*` then
      takes the rest of the line it stopped in, after which `$` matches. */
  function StatementLength(s: string, keyword: string): (n: nat)
    ensures n <= |s|
    ensures n > 0 ==> n > |keyword| && StartsWith(s, keyword) && IsWhitespace(s[|keyword|])
    ensures n == 0 <==> !StartsWith(s, keyword) || |s| == |keyword| || !IsWhitespace(s[|keyword|])
  {
    if StartsWith(s, keyword) then
      var w := LeadingWhitespace(s[|keyword|..]);
      if w == 0 then 0 else |keyword| + w + LineLength(s[|keyword| + w..])
    else 0
  }

  /** `s.replace(/^keyword\s+.*$/gm, '')`. `atLineStart` says whether `^`
      matches in front of `s`: it does at the start of the text and after a
      line terminator. */
  function RemoveStatements(s: string, keyword: string, atLineStart: bool): (r: string)
    ensures |r| <= |s|
    ensures forall c :: c in r ==> c in s
    decreases |s|
  {
    if |s| == 0 then ""
    else if atLineStart && StatementLength(s, keyword) > 0 then
      var n := StatementLength(s, keyword);
      RemoveStatements(s[n..], keyword, IsLineTerminator(s[n - 1]))
    else [s[0]] + RemoveStatements(s[1..], keyword, IsLineTerminator(s[0]))
  }

  /** `s.replace(/^---[\s\S]*?---/m, '')`: without the global flag only the
      leftmost match is removed. */
  function RemoveFrontmatter(s: string, atLineStart: bool): (r: string)
    ensures |r| <= |s|
    ensures forall c :: c in r ==> c in s
    decreases |s|
  {
    if |s| == 0 then ""
    else if atLineStart && StartsWith(s, "---") && IndexOf(s[3..], "---").Some? then
      s[3 + IndexOf(s[3..], "---").value + 3..]
    else [s[0]] + RemoveFrontmatter(s[1..], IsLineTerminator(s[0]))
  }

  /** `stripMdxAndCodeBlocks`: the passes in the order the source applies
      them. Stripping only removes text. */
  function StripMdxAndCodeBlocks(content: string): (r: string)
    ensures |r| <= |content|
    ensures forall c :: c in r ==> c in content
  {
    var noFences := RemoveSpans(content, "```", "```");
    var noInlineCode := RemoveBracketed(noFences, '`', '`');
    var noImports := RemoveStatements(noInlineCode, "import", true);
    var noExports := RemoveStatements(noImports, "export", true);
    var noTags := RemoveBracketed(noExports, '<', '>');
    var noComments := RemoveSpans(noTags, "<!--", "-->");
    RemoveFrontmatter(noComments, true)
  }

  /* --------------------------------------------------------------- words */

  /** `s.split(/\s+/)`: the pieces between maximal runs of whitespace, with
      an empty first or last piece for a leading or trailing run. */
  function SplitOnWhitespace(s: string): (parts: seq<string>)
    ensures |parts| >= 1
    ensures |parts[0]| > 0 <==> |s| > 0 && !IsWhitespace(s[0])
    decreases |s|
  {
    if |s| == 0 then [""]
    else if IsWhitespace(s[0]) then [""] + SplitOnWhitespace(s[LeadingWhitespace(s)..])
    else
      var rest := SplitOnWhitespace(s[1..]);
      [[s[0]] + rest[0]] + rest[1..]
  }

  predicate NonEmpty(word: string) {
    |word| > 0
  }

  /** The number of words counted directly: the positions holding a
      non-whitespace character right after whitespace or, when
      `afterSpace` holds, at the start of `s`. */
  function WordStarts(s: string, afterSpace: bool): nat {
    if |s| == 0 then 0
    else (if afterSpace && !IsWhitespace(s[0]) then 1 else 0) + WordStarts(s[1..], IsWhitespace(s[0]))
  }

  lemma {:induction false} SkipBlank(s: string, w: nat, afterSpace: bool)
    requires 1 <= w <= |s|
    requires forall i :: 0 <= i < w ==> IsWhitespace(s[i])
    ensures WordStarts(s, afterSpace) == WordStarts(s[w..], true)
  {
    if w > 1 {
      SkipBlank(s[1..], w - 1, true);
      assert s[1..][w - 1..] == s[w..];
    }
  }

  /** Splitting and dropping the empty pieces leaves one piece per word. */
  lemma {:induction false} NonEmptyPieces(s: string)
    ensures |Filter(SplitOnWhitespace(s), NonEmpty)| == WordStarts(s, true)
    decreases |s|
  {
    if |s| > 0 {
      if IsWhitespace(s[0]) {
        var w := LeadingWhitespace(s);
        NonEmptyPieces(s[w..]);
        SkipBlank(s, w, true);
        assert ([""] + SplitOnWhitespace(s[w..]))[1..] == SplitOnWhitespace(s[w..]);
      } else {
        var rest := SplitOnWhitespace(s[1..]);
        NonEmptyPieces(s[1..]);
        var parts := [[s[0]] + rest[0]] + rest[1..];
        assert parts[1..] == rest[1..];
        assert |Filter(parts, NonEmpty)| == 1 + |Filter(rest[1..], NonEmpty)|;
        assert rest == [rest[0]] + rest[1..];
        assert |Filter(rest, NonEmpty)| == (if NonEmpty(rest[0]) then 1 else 0) + |Filter(rest[1..], NonEmpty)|;
      }
    }
  }

  lemma {:induction false} TrimStartWords(s: string)
    ensures WordStarts(TrimStart(s), true) == WordStarts(s, true)
  {
    if |s| > 0 && IsWhitespace(s[0]) {
      TrimStartWords(s[1..]);
    }
  }

  lemma {:induction false} DropTrailingSpace(s: string, afterSpace: bool)
    requires |s| > 0 && IsWhitespace(s[|s| - 1])
    ensures WordStarts(s, afterSpace) == WordStarts(s[..|s| - 1], afterSpace)
  {
    if |s| > 1 {
      DropTrailingSpace(s[1..], IsWhitespace(s[0]));
      assert s[..|s| - 1][1..] == s[1..][..|s| - 2];
    }
  }

  lemma {:induction false} TrimEndWords(s: string)
    ensures WordStarts(TrimEnd(s), true) == WordStarts(s, true)
  {
    if |s| > 0 && IsWhitespace(s[|s| - 1]) {
      TrimEndWords(s[..|s| - 1]);
      DropTrailingSpace(s, true);
    }
  }

  lemma {:induction false} BlankHasNoWords(s: string)
    ensures WordStarts(s, true) == 0 <==> IsBlank(s)
  {
    if |s| > 0 {
      BlankHasNoWords(s[1..]);
      if IsWhitespace(s[0]) {
        assert IsBlank(s) <==> IsBlank(s[1..]);
      }
    }
  }

  /** `countWords`: trim, split on whitespace runs, drop empty pieces. The
      result is the number of maximal runs of non-whitespace characters,
      which is 0 exactly for empty or whitespace-only text. */
  function CountWords(text: string): (n: nat)
    ensures n == WordStarts(text, true)
    ensures n == 0 <==> IsBlank(text)
  {
    NonEmptyPieces(Trim(text));
    TrimStartWords(text);
    TrimEndWords(TrimStart(text));
    BlankHasNoWords(text);
    |Filter(SplitOnWhitespace(Trim(text)), NonEmpty)|
  }

  /* ------------------------------------------------------------- minutes */

  /** `Math.max(1, Math.ceil(words / 238))`: the fewest whole minutes in
      which the words can be read, and at least one. */
  function MinutesFor(words: nat): (m: nat)
    ensures m >= 1
    ensures words > 0 ==> (m - 1) * WordsPerMinute < words <= m * WordsPerMinute
    ensures words <= WordsPerMinute ==> m == 1
  {
    var minutes := (words + WordsPerMinute - 1) / WordsPerMinute;
    if minutes < 1 then 1 else minutes
  }

  /** `calculateReadingTime`. */
  function CalculateReadingTime(content: string): (m: nat)
    ensures m >= 1
    ensures m == MinutesFor(WordStarts(StripMdxAndCodeBlocks(content), true))
  {
    MinutesFor(CountWords(StripMdxAndCodeBlocks(content)))
  }

  /* ---------------------------------------------------------- properties */

  /** No occurrence of `d` starts inside `a`, not even one that runs on into
      a `d` written after it: the first `d` of `a + d` is the one appended. */
  predicate NoneBefore(a: string, d: string) {
    IndexOf(a + d, d) == Some(|a|)
  }

  /** Whatever follows a text that starts with `d`, the characters from an
      index inside `a` onwards match `d` exactly when they do in `a + d`. */
  lemma IsAtBeforeSuffix(a: string, t: string, d: string, j: nat)
    requires StartsWith(t, d) && j < |a|
    ensures IsAt(a + t, j, d) <==> IsAt(a + d, j, d)
  {
    var u, v := a + t, a + d;
    assert |u| >= |v|;
    forall k | j <= k < |v| ensures u[k] == v[k] {
      if k >= |a| {
        assert u[k] == t[k - |a|] && v[k] == d[k - |a|];
      }
    }
    if j + |d| <= |v| {
      assert u[j..j + |d|] == v[j..j + |d|];
    }
  }

  /** A text in which no span opens passes through the span pass. */
  lemma {:induction false} RemoveSpansPrefix(a: string, t: string, open: string, close: string)
    requires |open| > 0 && StartsWith(t, open)
    requires forall j: nat :: j < |a| ==> !IsAt(a + open, j, open)
    ensures RemoveSpans(a + t, open, close) == a + RemoveSpans(t, open, close)
  {
    if |a| == 0 {
      assert a + t == t;
    } else {
      NoneBeforeTail(a, open);
      RemoveSpansPrefix(a[1..], t, open, close);
      IsAtBeforeSuffix(a, t, open, 0);
      RemoveSpansCons(a, t, open, close);
      ConsJoin(a, RemoveSpans(t, open, close));
    }
  }

  /** Where no span opens at the front of `a + t`, the first character of
      `a` is kept and the scan goes on in `a[1..] + t`. */
  lemma RemoveSpansCons(a: string, t: string, open: string, close: string)
    requires |open| > 0 && |a| > 0 && !IsAt(a + t, 0, open)
    ensures RemoveSpans(a + t, open, close) == [a[0]] + RemoveSpans(a[1..] + t, open, close)
  {
    assert !StartsWith(a + t, open);
    assert (a + t)[1..] == a[1..] + t;
  }

  lemma ConsJoin(a: string, r: string)
    requires |a| > 0
    ensures [a[0]] + (a[1..] + r) == a + r
  {
  }

  lemma NoneBeforeTail(a: string, open: string)
    requires |a| > 0
    requires forall j: nat :: j < |a| ==> !IsAt(a + open, j, open)
    ensures forall j: nat :: j < |a[1..]| ==> !IsAt(a[1..] + open, j, open)
  {
    forall j: nat | j < |a[1..]| ensures !IsAt(a[1..] + open, j, open) {
      assert !IsAt(a + open, j + 1, open);
      assert a[1..] + open == (a + open)[1..];
      assert (a[1..] + open)[j..j + |open|] == (a + open)[j + 1..j + 1 + |open|];
    }
  }

  /** In `a + delimiter + b`, the first delimiter is the one after `a` when
      none starts before it. */
  lemma DelimiterAfter(a: string, b: string, delimiter: string)
    requires |delimiter| > 0 && NoneBefore(a, delimiter)
    ensures IndexOf(a + delimiter + b, delimiter) == Some(|a|)
  {
    var u := a + delimiter + b;
    assert u[|a|..|a| + |delimiter|] == delimiter;
    assert IsAt(u, |a|, delimiter);
    assert Contains(u, delimiter);
    forall j: nat | j < |a| ensures !IsAt(u, j, delimiter) {
      assert u == a + (delimiter + b);
      IsAtBeforeSuffix(a, delimiter + b, delimiter, j);
    }
  }

  /** A fenced block, opening fence to closing fence, is removed whole and
      contributes nothing; the text before it is kept. The block may hold
      backticks, as code does, as long as no fence starts inside it. */
  lemma FencedBlockRemoved(a: string, body: string, b: string)
    requires NoneBefore(a, "```") && NoneBefore(body, "```")
    ensures RemoveSpans(a + "```" + body + "```" + b, "```", "```")
            == a + RemoveSpans(b, "```", "```")
  {
    var t := "```" + body + "```" + b;
    assert a + "```" + body + "```" + b == a + t;
    assert forall j: nat :: j < |a| ==> !IsAt(a + "```", j, "```");
    RemoveSpansPrefix(a, t, "```", "```");
    FenceAtStart(body, b);
  }

  lemma FenceAtStart(body: string, b: string)
    requires NoneBefore(body, "```")
    ensures RemoveSpans("```" + body + "```" + b, "```", "```") == RemoveSpans(b, "```", "```")
  {
    var t := "```" + body + "```" + b;
    assert StartsWith(t, "```");
    assert t[3..] == body + "```" + b;
    DelimiterAfter(body, b, "```");
    assert t[3 + |body| + 3..] == b;
  }

  lemma StatementLengthOfLine(keyword: string, line: string, rest: string)
    requires |line| > 0 && !IsWhitespace(line[0])
    requires forall i :: 0 <= i < |line| ==> !IsLineTerminator(line[i])
    ensures StatementLength(keyword + " " + line + "\n" + rest, keyword) == |keyword| + 1 + |line|
  {
    var s := keyword + " " + line + "\n" + rest;
    assert StartsWith(s, keyword);
    var after := s[|keyword|..];
    assert after == " " + line + "\n" + rest;
    var w := LeadingWhitespace(after);
    assert after[1] == line[0];
    assert w == 1;
    var tail := s[|keyword| + 1..];
    assert tail == line + "\n" + rest;
    var n := LineLength(tail);
    forall i | 0 <= i < |line| ensures tail[i] == line[i] && !IsLineTerminator(tail[i]) { }
    assert tail[|line|] == '\n';
    assert n == |line|;
  }

  /** A line that starts with the keyword, whitespace and a word is removed
      up to its line end, and the following lines are scanned afresh. */
  lemma StatementLineRemoved(keyword: string, line: string, rest: string)
    requires |line| > 0 && !IsWhitespace(line[0])
    requires forall i :: 0 <= i < |line| ==> !IsLineTerminator(line[i])
    ensures RemoveStatements(keyword + " " + line + "\n" + rest, keyword, true)
            == "\n" + RemoveStatements(rest, keyword, true)
  {
    var s := keyword + " " + line + "\n" + rest;
    StatementLengthOfLine(keyword, line, rest);
    var n := |keyword| + 1 + |line|;
    assert s[n - 1] == line[|line| - 1];
    assert s[n..] == "\n" + rest;
    assert ("\n" + rest)[1..] == rest;
  }

  /** Only the first frontmatter span goes: whatever follows it, a second
      `---…---` included, is kept as it is. The frontmatter may hold dashes,
      in dates and lists, as long as no `---` starts inside it. */
  lemma FirstFrontmatterOnly(a: string, b: string)
    requires NoneBefore(a, "---")
    ensures RemoveFrontmatter("---" + a + "---" + b, true) == b
  {
    var s := "---" + a + "---" + b;
    assert s[3..] == a + "---" + b;
    DelimiterAfter(a, b, "---");
    assert s[3 + |a| + 3..] == b;
  }

  /** After the tag pass, a `<` that is not directly followed by `>` has no
      `>` anywhere after it. */
  predicate NoTagLeft(t: string) {
    forall i :: 0 <= i < |t| - 1 && t[i] == '<' && t[i + 1] != '>' ==> '>' !in t[i + 1..]
  }

  lemma {:induction false} TagPassLeavesNoTag(s: string)
    ensures NoTagLeft(RemoveBracketed(s, '<', '>'))
  {
    if |s| > 0 {
      if s[0] == '<' && '>' in s[1..] && FirstIndex(s[1..], '>') >= 1 {
        TagPassLeavesNoTag(s[FirstIndex(s[1..], '>') + 2..]);
      } else {
        TagPassLeavesNoTag(s[1..]);
        var rest := RemoveBracketed(s[1..], '<', '>');
        var t := [s[0]] + rest;
        forall i | 0 <= i < |t| - 1 && t[i] == '<' && t[i + 1] != '>'
          ensures '>' !in t[i + 1..]
        {
          if i == 0 {
            assert t[1..] == rest;
            GtKeptFirst(s);
          } else {
            assert t[i + 1..] == rest[i..];
            assert rest[i - 1] == '<' && rest[i] != '>';
          }
        }
      }
    }
  }

  /** A `>` right after the first character survives the tag pass as the
      first character of what follows. */
  lemma GtKeptFirst(s: string)
    requires |s| > 1
    ensures '>' in s[1..] && FirstIndex(s[1..], '>') == 0 ==>
              |RemoveBracketed(s[1..], '<', '>')| > 0 && RemoveBracketed(s[1..], '<', '>')[0] == '>'
  {
    if '>' in s[1..] && FirstIndex(s[1..], '>') == 0 {
      assert s[1..][0] == '>';
    }
  }

  lemma CommentCloseHasGt(t: string, j: nat)
    requires |t| >= 4
    ensures IsAt(t[4..], j, "-->") ==> '>' in t[1..]
  {
    if IsAt(t[4..], j, "-->") {
      assert t[4..][j + 2] == '>';
      assert t[1..][j + 5] == '>';
    }
  }

  /** The comment pass finds nothing the tag pass has left. */
  lemma {:induction false} CommentPassIdle(t: string)
    requires NoTagLeft(t)
    ensures RemoveSpans(t, "<!--", "-->") == t
  {
    if |t| > 0 {
      if StartsWith(t, "<!--") {
        assert t[0] == '<' && t[1] == '!';
        forall j: nat | j <= |t[4..]| ensures !IsAt(t[4..], j, "-->") {
          CommentCloseHasGt(t, j);
        }
        assert IndexOf(t[4..], "-->").None?;
      }
      assert NoTagLeft(t[1..]) by {
        forall i | 0 <= i < |t[1..]| - 1 && t[1..][i] == '<' && t[1..][i + 1] != '>'
          ensures '>' !in t[1..][i + 1..]
        {
          assert t[1..][i + 1..] == t[i + 2..];
        }
      }
      CommentPassIdle(t[1..]);
      assert t == [t[0]] + t[1..];
    }
  }

  /** HTML comments are already gone when the comment pass runs: `<[^>]+>`
      takes `<!-- ... -->` up to its first `>`, so removing tags before
      comments makes the comment pass change nothing. */
  lemma TagsBeforeComments(s: string)
    ensures RemoveSpans(RemoveBracketed(s, '<', '>'), "<!--", "-->") == RemoveBracketed(s, '<', '>')
  {
    TagPassLeavesNoTag(s);
    CommentPassIdle(RemoveBracketed(s, '<', '>'));
  }
}
