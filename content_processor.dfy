/** Ingestion of one AsciiDoc file once its text has been read: the title,
    the heading-delimited sections and the keyword metadata
    (`ContentProcessor` in backend/content_processor.py). */
module ContentProcessor {
  import opened Text

  /** a heading-delimited chunk of a file, as `split_into_sections` emits it */
  datatype Section = Section(heading: string, content: string, wordCount: nat)

  datatype Metadata = Metadata(platform: string, difficulty: string, topics: seq<string>, examples: seq<string>)

  /** the record `process_markdown_file` returns for one file */
  datatype Document = Document(title: string, filePath: string, sections: seq<Section>, metadata: Metadata, fullContent: string)

  // ================================================================ scanning helpers

  /** first index at or after `i` that does not hold `c` */
  function SkipChar(s: string, i: nat, c: char): (j: nat)
    requires i <= |s|
    ensures i <= j <= |s|
    ensures forall k :: i <= k < j ==> s[k] == c
    ensures j == |s| || s[j] != c
    decreases |s| - i
  {
    if i < |s| && s[i] == c then SkipChar(s, i + 1, c) else i
  }

  /** the longest prefix of `s` without a newline: what `.*` matches */
  function UpToNewline(s: string): (r: string)
    ensures |r| <= |s| && r == s[..|r|] && '\n' !in r
    ensures |r| == |s| || s[|r|] == '\n'
  {
    if s == [] || s[0] == '\n' then [] else [s[0]] + UpToNewline(s[1..])
  }

  // ================================================================ heading lines

  /** `re.match(r'^\s*(==+)\s+(.*)', line)`: None when it fails, otherwise its group 2 */
  function HeadingMatch(line: string): Option<string> {
    var a := SkipSpace(line, 0);
    var b := SkipChar(line, a, '=');
    if b - a < 2 || b == |line| || !IsSpace(line[b]) then None
    else Some(UpToNewline(line[SkipSpace(line, b)..]))
  }

  /** `line` opens with optional whitespace `line[..a]`, then the run of at
      least two `=` in `line[a..b]`, then a whitespace character */
  ghost predicate HeadingPrefix(line: string, a: nat, b: nat) {
    && a + 2 <= b < |line|
    && AllSpace(line[..a])
    && (forall k :: a <= k < b ==> line[k] == '=')
    && IsSpace(line[b])
  }

  /** A line is a heading exactly when it starts with optional whitespace,
      two or more `=`, then whitespace. */
  lemma HeadingMatchIff(line: string)
    ensures HeadingMatch(line).Some? <==> exists a: nat, b: nat :: HeadingPrefix(line, a, b)
  {
    var a := SkipSpace(line, 0);
    var b := SkipChar(line, a, '=');
    if HeadingMatch(line).Some? {
      assert HeadingPrefix(line, a, b);
    }
    if a' : nat, b' : nat :| HeadingPrefix(line, a', b') {
      assert line[a'] == '=';
      assert a == a';
      assert b == b';
    }
  }

  /** The captured heading text of `lead + marks + gap + text` is `text`. */
  lemma HeadingText(lead: string, marks: string, gap: string, text: string)
    requires AllSpace(lead) && gap != [] && AllSpace(gap)
    requires |marks| >= 2 && forall k :: 0 <= k < |marks| ==> marks[k] == '='
    requires text == [] || !IsSpace(text[0])
    requires '\n' !in text
    ensures HeadingMatch(lead + marks + gap + text) == Some(text)
  {
    var line := lead + marks + gap + text;
    var a, b, c := |lead|, |lead| + |marks|, |lead| + |marks| + |gap|;
    assert forall k :: 0 <= k < a ==> line[k] == lead[k];
    assert forall k :: a <= k < b ==> line[k] == marks[k - a];
    assert forall k :: b <= k < c ==> line[k] == gap[k - b];
    assert line[c..] == text;
    assert c == |line| || line[c] == text[0];
    assert !IsSpace(line[a]);
    var j := SkipSpace(line, 0);
    assert j == a;
    var e := SkipChar(line, a, '=');
    assert line[b] != '=' by { assert IsSpace(gap[0]); }
    assert e == b;
    assert SkipSpace(line, b) == c;
    assert UpToNewline(text) == text;
  }

  /** A single `=`, or `==` with nothing after it, is ordinary body text. */
  lemma ShortMarksAreNotHeadings()
    ensures HeadingMatch("= Title").None?
    ensures HeadingMatch("==").None?
    ensures HeadingMatch("==Title").None?
  {
    assert SkipChar("= Title", 0, '=') == 1;
    assert SkipChar("==Title", 0, '=') == 2;
  }

  // ================================================================ sections

  /** a line of the file, classified: a heading line with its stripped text, or body text */
  datatype Line = HeadingLine(text: string) | TextLine(text: string)

  function Classify(line: string): Line {
    match HeadingMatch(line)
    case Some(g) => HeadingLine(Strip(g))
    case None => TextLine(line)
  }

  function ClassifyAll(lines: seq<string>): (r: seq<Line>)
    ensures |r| == |lines| && forall i :: 0 <= i < |lines| ==> r[i] == Classify(lines[i])
  {
    seq(|lines|, i requires 0 <= i < |lines| => Classify(lines[i]))
  }

  /** One heading line of the file: its index among the lines, its stripped
      text and the text of the lines below it up to the next heading line. */
  datatype Block = Block(line: nat, heading: string, body: string)

  /** the lines before the first heading line, and one block per heading line */
  datatype Parsed = Parsed(preamble: string, blocks: seq<Block>)

  /** the texts of `lines`, each one followed by a newline */
  function JoinLines(lines: seq<Line>): string {
    if lines == [] then "" else lines[0].text + "\n" + JoinLines(lines[1..])
  }

  /** Reference reading of `lines[k..]`, from the last line back: each heading
      line opens a block that holds the lines below it, up to the next one. */
  function Parse(lines: seq<Line>, k: nat): Parsed
    decreases |lines| - k
  {
    if k >= |lines| then Parsed("", [])
    else
      var rest := Parse(lines, k + 1);
      match lines[k]
      case HeadingLine(h) => Parsed("", [Block(k, h, rest.preamble)] + rest.blocks)
      case TextLine(t) => Parsed(t + "\n" + rest.preamble, rest.blocks)
  }

  /** a block becomes a section when its heading text and its body are not blank */
  function Keep(b: Block): seq<Section> {
    if b.heading != "" && Strip(b.body) != "" then [Section(b.heading, Strip(b.body), |Words(b.body)|)] else []
  }

  /** A block is dropped exactly when its heading text is empty or its body is blank. */
  lemma KeepIff(b: Block)
    ensures Keep(b) != [] <==> b.heading != "" && !AllSpace(b.body)
  {
  }

  /** the sections the kept blocks become, in block order */
  function Emit(blocks: seq<Block>): (r: seq<Section>)
    ensures |r| <= |blocks|
  {
    if blocks == [] then [] else Emit(blocks[..|blocks| - 1]) + Keep(blocks[|blocks| - 1])
  }

  /** the sections `split_into_sections` returns for `content` */
  function SectionsOf(content: string): seq<Section> {
    Emit(Parse(ClassifyAll(Split(content, '\n')), 0).blocks)
  }

  /** how reading one more line at the end extends a parse */
  function Extend(p: Parsed, at: nat, l: Line): Parsed {
    match l
    case HeadingLine(h) => Parsed(p.preamble, p.blocks + [Block(at, h, "")])
    case TextLine(t) =>
      if p.blocks == [] then Parsed(p.preamble + t + "\n", [])
      else
        var last := p.blocks[|p.blocks| - 1];
        Parsed(p.preamble, p.blocks[..|p.blocks| - 1] + [last.(body := last.body + t + "\n")])
  }

  lemma {:induction false} ParseSnoc(xs: seq<Line>, l: Line, k: nat)
    requires k <= |xs|
    ensures Parse(xs + [l], k) == Extend(Parse(xs, k), |xs|, l)
    decreases |xs| - k
  {
    var ys := xs + [l];
    if k == |xs| {
      assert ys[k] == l;
      assert Parse(ys, k + 1) == Parsed("", []);
    } else {
      assert ys[k] == xs[k];
      ParseSnoc(xs, l, k + 1);
      var rest := Parse(xs, k + 1);
      if xs[k].HeadingLine? && l.TextLine? {
        var b := Block(k, xs[k].text, rest.preamble);
        if rest.blocks != [] {
          assert ([b] + rest.blocks)[..|rest.blocks|] == [b] + rest.blocks[..|rest.blocks| - 1];
        }
      }
    }
  }

  /** the loop state of `split_into_sections` after the lines read so far,
      whose parse is `p`: before the first heading line nothing is emitted;
      after it, the current heading and text are the last block's, and the
      blocks before it have been emitted */
  ghost predicate Tracks(p: Parsed, sections: seq<Section>, currentSection: string, currentHeading: Option<string>) {
    && (currentHeading.None? ==> p.blocks == [] && sections == [] && currentSection == p.preamble)
    && (currentHeading.Some? ==>
          && p.blocks != []
          && p.blocks[|p.blocks| - 1].heading == currentHeading.value
          && p.blocks[|p.blocks| - 1].body == currentSection
          && sections == Emit(p.blocks[..|p.blocks| - 1]))
  }

  /** the section the current heading and text make, if it is kept */
  function Flush(currentSection: string, currentHeading: Option<string>): seq<Section> {
    if currentSection != "" && currentHeading.Some? && currentHeading.value != "" && Strip(currentSection) != ""
    then [Section(currentHeading.value, Strip(currentSection), |Words(currentSection)|)]
    else []
  }

  /** a heading line flushes the current section and starts a new one */
  lemma TracksHeading(p: Parsed, at: nat, h: string, sections: seq<Section>,
                      currentSection: string, currentHeading: Option<string>)
    requires Tracks(p, sections, currentSection, currentHeading)
    ensures Tracks(Extend(p, at, HeadingLine(h)), sections + Flush(currentSection, currentHeading), "", Some(h))
  {
    var q := Extend(p, at, HeadingLine(h));
    assert q.blocks[..|q.blocks| - 1] == p.blocks;
    if currentHeading.Some? {
      var last := p.blocks[|p.blocks| - 1];
      FlushIsKeep(currentSection, currentHeading.value, last);
      assert Emit(p.blocks) == Emit(p.blocks[..|p.blocks| - 1]) + Keep(last);
    }
  }

  /** a text line joins the current section */
  lemma TracksText(p: Parsed, at: nat, t: string, sections: seq<Section>,
                   currentSection: string, currentHeading: Option<string>)
    requires Tracks(p, sections, currentSection, currentHeading)
    ensures Tracks(Extend(p, at, TextLine(t)), sections, currentSection + t + "\n", currentHeading)
  {
    var q := Extend(p, at, TextLine(t));
    if currentHeading.Some? {
      assert q.blocks[..|q.blocks| - 1] == p.blocks[..|p.blocks| - 1];
    }
  }

  /** at the end, the last section is flushed */
  lemma TracksEnd(p: Parsed, sections: seq<Section>, currentSection: string, currentHeading: Option<string>)
    requires Tracks(p, sections, currentSection, currentHeading)
    ensures sections + Flush(currentSection, currentHeading) == Emit(p.blocks)
  {
    if currentHeading.Some? {
      var last := p.blocks[|p.blocks| - 1];
      FlushIsKeep(currentSection, currentHeading.value, last);
      assert Emit(p.blocks) == Emit(p.blocks[..|p.blocks| - 1]) + Keep(last);
    }
  }

  /** flushing the current heading and text keeps the block they make */
  lemma FlushIsKeep(currentSection: string, heading: string, b: Block)
    requires b.heading == heading && b.body == currentSection
    ensures Flush(currentSection, Some(heading)) == Keep(b)
  {
    if currentSection == "" {
      assert AllSpace(currentSection);
    }
  }

  /** one iteration of the loop of `split_into_sections`, after the lines `xs` */
  lemma TracksLine(xs: seq<Line>, ys: seq<Line>, line: string, sections: seq<Section>,
                   currentSection: string, currentHeading: Option<string>)
    requires ys == xs + [Classify(line)]
    requires Tracks(Parse(xs, 0), sections, currentSection, currentHeading)
    ensures HeadingMatch(line).Some? ==>
              Tracks(Parse(ys, 0), sections + Flush(currentSection, currentHeading),
                     "", Some(Strip(HeadingMatch(line).value)))
    ensures HeadingMatch(line).None? ==>
              Tracks(Parse(ys, 0), sections, currentSection + line + "\n", currentHeading)
  {
    var p := Parse(xs, 0);
    var l := Classify(line);
    ParseSnoc(xs, l, 0);
    match HeadingMatch(line)
    case Some(g) =>
      assert l == HeadingLine(Strip(g));
      TracksHeading(p, |xs|, Strip(g), sections, currentSection, currentHeading);
    case None =>
      assert l == TextLine(line);
      TracksText(p, |xs|, line, sections, currentSection, currentHeading);
  }

  /** `split_into_sections` (backend/content_processor.py): a loop over the
      lines that keeps the current heading and the text gathered under it. */
  method SplitIntoSections(content: string) returns (sections: seq<Section>)
    ensures sections == SectionsOf(content)
  {
    sections := [];
    var currentSection := "";
    var currentHeading: Option<string> := None;
    var lines := Split(content, '\n');
    ghost var classified := ClassifyAll(lines);
    for i := 0 to |lines|
      invariant Tracks(Parse(classified[..i], 0), sections, currentSection, currentHeading)
    {
      var line := lines[i];
      assert classified[..i + 1] == classified[..i] + [classified[i]];
      TracksLine(classified[..i], classified[..i + 1], line, sections, currentSection, currentHeading);
      var headingMatch := HeadingMatch(line);
      if headingMatch.Some? {
        var heading := Strip(headingMatch.value);
        ghost var flushed := sections + Flush(currentSection, currentHeading);
        if currentSection != "" && currentHeading.Some? && currentHeading.value != "" {
          var body := Strip(currentSection);
          if body != "" {
            sections := sections + [Section(currentHeading.value, body, |Words(currentSection)|)];
          }
        }
        assert sections == flushed;
        currentHeading := Some(heading);
        currentSection := "";
      } else {
        currentSection := currentSection + line + "\n";
      }
    }
    TracksEnd(Parse(classified[..|lines|], 0), sections, currentSection, currentHeading);
    assert classified[..|lines|] == classified;
    ghost var flushed := sections + Flush(currentSection, currentHeading);
    if currentSection != "" && currentHeading.Some? && currentHeading.value != "" {
      var body := Strip(currentSection);
      if body != "" {
        sections := sections + [Section(currentHeading.value, body, |Words(currentSection)|)];
      }
    }
    assert sections == flushed;
  }

  // ---------------------------------------------------------------- what the parse is

  /** no heading line among `lines[a..b]` */
  ghost predicate NoHeadingIn(lines: seq<Line>, a: nat, b: nat)
    requires a <= b <= |lines|
  {
    forall i :: a <= i < b ==> lines[i].TextLine?
  }

  /** the line where block `j` ends: the next block's heading line, or the end */
  function BlockEnd(blocks: seq<Block>, j: nat, end: nat): nat
    requires j < |blocks|
  {
    if j + 1 < |blocks| then blocks[j + 1].line else end
  }

  /** where the first block starts, or the end */
  function FirstLine(blocks: seq<Block>, end: nat): nat {
    if blocks == [] then end else blocks[0].line
  }

  /** The preamble of the parse of `lines[k..]` is the text of the lines
      before the first heading line, and there is no heading line among them. */
  lemma {:induction false} ParsePreamble(lines: seq<Line>, k: nat)
    requires k <= |lines|
    ensures var p := Parse(lines, k);
      && k <= FirstLine(p.blocks, |lines|) <= |lines|
      && NoHeadingIn(lines, k, FirstLine(p.blocks, |lines|))
      && p.preamble == JoinLines(lines[k..FirstLine(p.blocks, |lines|)])
    decreases |lines| - k
  {
    if k < |lines| {
      ParsePreamble(lines, k + 1);
      if lines[k].HeadingLine? {
        assert lines[k..k] == [];
      } else {
        var f := FirstLine(Parse(lines, k + 1).blocks, |lines|);
        assert lines[k..f][1..] == lines[k + 1..f];
      }
    }
  }

  /** block `j` of `blocks` sits at a heading line of `lines[k..]` with that
      line's heading text, and its body is the text of the lines strictly
      between that line and the next block's, none of them a heading line */
  ghost predicate BlockInPlace(lines: seq<Line>, blocks: seq<Block>, j: nat, k: nat)
    requires j < |blocks|
  {
    var b := blocks[j];
    var end := BlockEnd(blocks, j, |lines|);
    && k <= b.line < end <= |lines|
    && lines[b.line] == HeadingLine(b.heading)
    && NoHeadingIn(lines, b.line + 1, end)
    && b.body == JoinLines(lines[b.line + 1..end])
  }

  /** The blocks of the parse of `lines[k..]` are the heading lines, in
      order, each with its heading text; the body of each is the text of the
      lines strictly between it and the next heading line. So text above the
      first heading line belongs to no block, and heading lines belong to no
      body. */
  lemma {:induction false} ParseBlocks(lines: seq<Line>, k: nat)
    requires k <= |lines|
    ensures forall j :: 0 <= j < |Parse(lines, k).blocks| ==> BlockInPlace(lines, Parse(lines, k).blocks, j, k)
    decreases |lines| - k
  {
    if k < |lines| {
      ParseBlocks(lines, k + 1);
      var rest := Parse(lines, k + 1);
      var p := Parse(lines, k);
      if lines[k].HeadingLine? {
        ParsePreamble(lines, k + 1);
        assert p.blocks == [Block(k, lines[k].text, rest.preamble)] + rest.blocks;
        forall j | 0 <= j < |p.blocks| ensures BlockInPlace(lines, p.blocks, j, k) {
          if j > 0 {
            assert p.blocks[j] == rest.blocks[j - 1];
            assert BlockEnd(p.blocks, j, |lines|) == BlockEnd(rest.blocks, j - 1, |lines|);
            assert BlockInPlace(lines, rest.blocks, j - 1, k + 1);
          } else {
            assert BlockEnd(p.blocks, 0, |lines|) == FirstLine(rest.blocks, |lines|);
          }
        }
      } else {
        assert p.blocks == rest.blocks;
        forall j | 0 <= j < |p.blocks| ensures BlockInPlace(lines, p.blocks, j, k) {
          assert BlockInPlace(lines, rest.blocks, j, k + 1);
        }
      }
    }
  }

  /** the number of heading lines among `lines[k..]` */
  function CountHeadings(lines: seq<Line>, k: nat): nat
    decreases |lines| - k
  {
    if k >= |lines| then 0 else (if lines[k].HeadingLine? then 1 else 0) + CountHeadings(lines, k + 1)
  }

  /** one block per heading line */
  lemma {:induction false} BlocksPerHeading(lines: seq<Line>, k: nat)
    ensures |Parse(lines, k).blocks| == CountHeadings(lines, k)
    decreases |lines| - k
  {
    if k < |lines| { BlocksPerHeading(lines, k + 1); }
  }

  /** a section as the parser promises it: a heading text, and a content that
      is stripped, not empty, and has at least one word */
  predicate NonBlank(s: Section) {
    && s.heading != ""
    && s.content != "" && !IsSpace(s.content[0]) && !IsSpace(s.content[|s.content| - 1])
    && s.wordCount >= 1
  }

  /** a kept block makes a non-blank section */
  lemma KeptSectionIsNonBlank(b: Block)
    ensures forall s :: s in Keep(b) ==> NonBlank(s)
  {
    var c := Strip(b.body);
    if b.heading != "" && c != "" {
      var n := |Words(b.body)|;
      HasWords(b.body);
      assert Keep(b) == [Section(b.heading, c, n)];
      assert NonBlank(Section(b.heading, c, n));
    }
  }

  /** a text whose strip is not empty has a word */
  lemma HasWords(body: string)
    requires Strip(body) != ""
    ensures |Words(body)| >= 1
  {
    WordsEmptyIff(body);
  }

  /** every section in `Emit(blocks)` is non-blank */
  lemma {:induction false} EmittedSectionsAreNonBlank(blocks: seq<Block>)
    ensures forall s :: s in Emit(blocks) ==> NonBlank(s)
    decreases |blocks|
  {
    if blocks != [] {
      EmittedSectionsAreNonBlank(blocks[..|blocks| - 1]);
      KeptSectionIsNonBlank(blocks[|blocks| - 1]);
    }
  }

  /** Sections of a file: non-blank heading text and content (the content is
      stripped), at least one word each, and at most one per heading line. */
  lemma SectionsAreNonBlank(content: string)
    ensures |SectionsOf(content)| <= CountHeadings(ClassifyAll(Split(content, '\n')), 0)
    ensures forall s :: s in SectionsOf(content) ==> NonBlank(s)
  {
    var lines := ClassifyAll(Split(content, '\n'));
    BlocksPerHeading(lines, 0);
    EmittedSectionsAreNonBlank(Parse(lines, 0).blocks);
  }

  /** A file without any heading line has no sections. */
  lemma NoHeadingNoSections(content: string)
    requires forall l :: l in Split(content, '\n') ==> HeadingMatch(l).None?
    ensures SectionsOf(content) == []
  {
    var lines := ClassifyAll(Split(content, '\n'));
    BlocksPerHeading(lines, 0);
    NoHeadingsCounted(lines, 0);
  }

  lemma {:induction false} NoHeadingsCounted(lines: seq<Line>, k: nat)
    requires forall i :: k <= i < |lines| ==> lines[i].TextLine?
    ensures CountHeadings(lines, k) == 0
    decreases |lines| - k
  {
    if k < |lines| { NoHeadingsCounted(lines, k + 1); }
  }

  // ================================================================ title

  /** group 1 of `^#\s+(.+)$` in multi-line mode when the match starts at
      position `p` of `content` (that is, `p` starts a line and holds `#`).
      `\s+` may run over newlines; when the whitespace after `#` runs to the end
      of the text, backtracking leaves `.+` the last whitespace character that
      is not a newline, if there is one. */
  function TitleAt(content: string, p: nat): Option<string>
    requires p < |content|
  {
    if !(p == 0 || content[p - 1] == '\n') || content[p] != '#' then None
    else
      var q := SkipSpace(content, p + 1);
      if q == p + 1 then None
      else if q < |content| then Some(UpToNewline(content[q..]))
      else
        match LastNonNewline(content, p + 2, q)
        case Some(e) => Some([content[e]])
        case None => None
  }

  /** the last index in `[lo, hi)` whose character is not a newline */
  function LastNonNewline(s: string, lo: nat, hi: nat): (r: Option<nat>)
    requires hi <= |s|
    ensures r.Some? ==> lo <= r.value < hi && s[r.value] != '\n'
    ensures r.Some? ==> forall k :: r.value < k < hi ==> s[k] == '\n'
    ensures r.None? ==> forall k :: lo <= k < hi ==> s[k] == '\n'
    decreases hi
  {
    if hi <= lo then None
    else if s[hi - 1] != '\n' then Some(hi - 1)
    else LastNonNewline(s, lo, hi - 1)
  }

  /** `re.search` with the title pattern: the first position at or after `p`
      where the pattern matches */
  function TitlePosition(content: string, p: nat): (r: Option<nat>)
    ensures r.Some? ==> p <= r.value < |content| && TitleAt(content, r.value).Some?
    ensures r.Some? ==> forall i :: p <= i < r.value ==> TitleAt(content, i).None?
    ensures r.None? ==> forall i :: p <= i < |content| ==> TitleAt(content, i).None?
    decreases |content| - p
  {
    if p >= |content| then None
    else if TitleAt(content, p).Some? then Some(p)
    else TitlePosition(content, p + 1)
  }

  /** the title of a file: the first match of the title pattern, else the file-name stem */
  function ExtractTitle(content: string, filePath: string): string {
    match TitlePosition(content, 0)
    case Some(p) => TitleAt(content, p).value
    case None => Stem(filePath)
  }

  /** In a file whose first `#` opens a line `# <text>`, the title is `<text>`. */
  lemma TitleFromHashLine(pre: string, gap: string, text: string, rest: string, filePath: string)
    requires pre == [] || pre[|pre| - 1] == '\n'
    requires '#' !in pre
    requires gap != [] && AllSpace(gap)
    requires text != [] && !IsSpace(text[0]) && '\n' !in text
    requires rest == [] || rest[0] == '\n'
    ensures ExtractTitle(pre + "#" + gap + text + rest, filePath) == text
  {
    var content := pre + "#" + gap + text + rest;
    var p := |pre|;
    forall i | 0 <= i < p ensures TitleAt(content, i).None? {
      assert content[i] == pre[i];
    }
    TitleAtHashLine(pre, gap, text, rest);
    assert TitlePosition(content, 0) == Some(p);
  }

  lemma TitleAtHashLine(pre: string, gap: string, text: string, rest: string)
    requires pre == [] || pre[|pre| - 1] == '\n'
    requires gap != [] && AllSpace(gap)
    requires text != [] && !IsSpace(text[0]) && '\n' !in text
    requires rest == [] || rest[0] == '\n'
    ensures |pre| < |pre + "#" + gap + text + rest|
    ensures TitleAt(pre + "#" + gap + text + rest, |pre|) == Some(text)
  {
    var content := pre + "#" + gap + text + rest;
    var p := |pre|;
    var q := p + 1 + |gap|;
    assert content[p] == '#';
    assert p == 0 || content[p - 1] == pre[p - 1];
    assert forall k :: p + 1 <= k < q ==> content[k] == gap[k - p - 1];
    assert content[q] == text[0];
    var j := SkipSpace(content, p + 1);
    assert j == q;
    assert content == (pre + "#" + gap) + (text + rest);
    assert content[q..] == text + rest;
    UpToNewlineStops(text, rest);
  }

  lemma {:induction false} UpToNewlineStops(text: string, rest: string)
    requires '\n' !in text
    requires rest == [] || rest[0] == '\n'
    ensures UpToNewline(text + rest) == text
    decreases |text|
  {
    if text != [] {
      assert (text + rest)[1..] == text[1..] + rest;
      UpToNewlineStops(text[1..], rest);
    } else {
      assert text + rest == rest;
    }
  }

  /** A file with no `#` at all takes its title from its file name. */
  lemma TitleFallsBackToStem(content: string, filePath: string)
    requires '#' !in content
    ensures ExtractTitle(content, filePath) == Stem(filePath)
  {
  }

  /** The whitespace after `#` may span a line break. */
  lemma TitleAfterLineBreak()
    ensures ExtractTitle("#\nIntro", "intro.adoc") == "Intro"
  {
    var s := "#\nIntro";
    assert IsSpace(s[1]) && !IsSpace(s[2]);
    assert SkipSpace(s, 2) == 2;
    assert SkipSpace(s, 1) == 2;
    assert s[2..] == "Intro" + "";
    UpToNewlineStops("Intro", "");
    assert TitleAt("#\nIntro", 0) == Some("Intro");
  }

  /** the title pattern `^#\s+(.+)$` in multi-line mode can match at `p`: a line
      start holding `#`, then one or more whitespace characters, then a character
      that is not a newline (`$` then holds at the end of that character's line) */
  ghost predicate TitleCanMatch(c: string, p: nat) {
    && p < |c| && (p == 0 || c[p - 1] == '\n') && c[p] == '#'
    && exists e: nat :: TitleStartsAt(c, p, e)
  }

  /** after the `#` at `p`, `\s+` can stop before `e` and `.+` begin there */
  predicate TitleStartsAt(c: string, p: nat, e: nat) {
    p + 2 <= e < |c| && AllSpace(c[p + 1..e]) && c[e] != '\n'
  }

  /** `TitleAt` matches exactly where the pattern can match, and its group 1 is
      a non-empty part of one line. */
  lemma TitleAtIff(c: string, p: nat)
    requires p < |c|
    ensures TitleAt(c, p).Some? <==> TitleCanMatch(c, p)
    ensures TitleAt(c, p).Some? ==> TitleAt(c, p).value != [] && '\n' !in TitleAt(c, p).value
  {
    if (p == 0 || c[p - 1] == '\n') && c[p] == '#' {
      var q := SkipSpace(c, p + 1);
      if q == p + 1 {
        forall e: nat ensures !TitleStartsAt(c, p, e) {
          if p + 2 <= e < |c| {
            assert c[p + 1..e][0] == c[p + 1];
          }
        }
      } else if q < |c| {
        assert TitleStartsAt(c, p, q);
        assert c[q..][0] == c[q];
      } else {
        match LastNonNewline(c, p + 2, q)
        case Some(e) =>
          assert TitleStartsAt(c, p, e);
        case None =>
          forall e: nat ensures !TitleStartsAt(c, p, e) {
          }
      }
    }
  }

  /** The title is group 1 at the first line where the pattern can match. */
  lemma TitleIsFirstMatch(c: string, filePath: string, p: nat)
    requires TitleCanMatch(c, p)
    requires forall i :: 0 <= i < p ==> !TitleCanMatch(c, i)
    ensures TitleAt(c, p).Some? && ExtractTitle(c, filePath) == TitleAt(c, p).value
  {
    forall i | 0 <= i < p ensures TitleAt(c, i).None? {
      TitleAtIff(c, i);
    }
    TitleAtIff(c, p);
    assert TitlePosition(c, 0) == Some(p);
  }

  /** A file where the pattern can match nowhere takes its title from its file
      name, even when it holds `#` characters. */
  lemma TitleFallsBackWithoutTitleLine(c: string, filePath: string)
    requires forall p :: 0 <= p < |c| ==> !TitleCanMatch(c, p)
    ensures ExtractTitle(c, filePath) == Stem(filePath)
  {
    forall p | 0 <= p < |c| ensures TitleAt(c, p).None? {
      TitleAtIff(c, p);
    }
    assert TitlePosition(c, 0).None?;
  }

  /** the final component of a POSIX path, as `pathlib`'s `name`: empty and
      `.` components are skipped */
  function BaseName(path: string): (r: string)
    ensures '/' !in r
  {
    LastComponent(Split(path, '/'))
  }

  function LastComponent(parts: seq<string>): (r: string)
    requires forall p :: p in parts ==> '/' !in p
    ensures '/' !in r
  {
    if parts == [] then ""
    else
      var last := parts[|parts| - 1];
      if last == "" || last == "." then LastComponent(parts[..|parts| - 1]) else last
  }

  /** `Path(filePath).stem`: the file name without its last suffix */
  function Stem(filePath: string): (r: string)
    ensures '/' !in r
  {
    NameStem(BaseName(filePath))
  }

  /** the stem of a file name: cut at the last dot unless that dot is first or last */
  function NameStem(name: string): (r: string)
    ensures |r| <= |name| && r == name[..|r|]
  {
    match LastDot(name, |name|)
    case Some(i) => if 0 < i < |name| - 1 then name[..i] else name
    case None => name
  }

  /** `name.rfind('.')` over `name[..hi]` */
  function LastDot(name: string, hi: nat): (r: Option<nat>)
    requires hi <= |name|
    ensures r.Some? ==> r.value < hi && name[r.value] == '.'
    ensures r.Some? ==> forall k :: r.value < k < hi ==> name[k] != '.'
    ensures r.None? ==> forall k :: 0 <= k < hi ==> name[k] != '.'
  {
    if hi == 0 then None
    else if name[hi - 1] == '.' then Some(hi - 1)
    else LastDot(name, hi - 1)
  }

  /** The stem is the whole name when its last dot, if any, is its first or its
      last character; otherwise it is the name cut at that last dot. */
  lemma StemCutsAtLastDot(name: string)
    ensures var r := NameStem(name);
      if forall k :: 0 < k < |name| - 1 && name[k] == '.' ==> '.' in name[k + 1..] then r == name
      else 0 < |r| < |name| - 1 && r == name[..|r|] && name[|r|] == '.' && '.' !in name[|r| + 1..]
  {
    match LastDot(name, |name|)
    case Some(i) =>
      if 0 < i < |name| - 1 {
        assert '.' !in name[i + 1..];
        assert !('.' in name[i + 1..]);
      } else if i == |name| - 1 {
        forall k | 0 < k < |name| - 1 && name[k] == '.' ensures '.' in name[k + 1..] {
          assert name[k + 1..][|name| - 2 - k] == '.';
        }
      }
    case None =>
  }

  lemma {:induction false} SplitWithoutSeparator(s: string, sep: char)
    requires sep !in s
    ensures Split(s, sep) == [s]
    decreases |s|
  {
    if s != [] { SplitWithoutSeparator(s[1..], sep); }
  }

  lemma {:induction false} SplitAfterSeparator(a: string, sep: char, b: string)
    ensures Split(a + [sep] + b, sep) == Split(a, sep) + Split(b, sep)
    decreases |a|
  {
    if a == [] {
      assert (a + [sep] + b)[1..] == b;
    } else {
      assert (a + [sep] + b)[1..] == a[1..] + [sep] + b;
      SplitAfterSeparator(a[1..], sep, b);
    }
  }

  /** The final component of `<dir>/<file>` is `<file>`. */
  lemma BaseNameAfterSlash(dir: string, file: string)
    requires '/' !in file && file != "" && file != "."
    ensures BaseName(dir + "/" + file) == file
  {
    SplitWithoutSeparator(file, '/');
    assert dir + "/" + file == dir + ['/'] + file;
    SplitAfterSeparator(dir, '/', file);
    var parts := Split(dir, '/') + [file];
    assert Split(dir + "/" + file, '/') == parts;
    assert parts[|parts| - 1] == file;
  }

  /** The last dot of `<name>.adoc` is the one right after `name`. */
  lemma LastDotOfAdoc(name: string)
    ensures LastDot(name + ".adoc", |name| + 5) == Some(|name|)
  {
    var file := name + ".adoc";
    var n := |name|;
    assert file[n..] == ".adoc";
    assert file[n] == '.';
    assert LastDot(file, n + 1) == Some(n);
    assert LastDot(file, n + 2) == Some(n);
    assert LastDot(file, n + 3) == Some(n);
    assert LastDot(file, n + 4) == Some(n);
  }

  /** The stem of `<dir>/<name>.adoc` is `<name>`. */
  lemma StemOfAdocFile(dir: string, name: string)
    requires name != "" && '/' !in name
    ensures Stem(dir + "/" + name + ".adoc") == name
  {
    var file := name + ".adoc";
    assert '/' !in file by {
      assert forall k :: 0 <= k < |name| ==> file[k] == name[k];
      assert file[|name|..] == ".adoc";
    }
    assert file[|file| - 1] == 'c';
    assert dir + "/" + name + ".adoc" == dir + "/" + file;
    BaseNameAfterSlash(dir, file);
    LastDotOfAdoc(name);
    assert file[..|name|] == name;
  }

  // ================================================================ metadata

  /** the topic table of `extract_metadata`, in the order it is scanned */
  const TopicKeywords: seq<(string, seq<string>)> := [
    ("web_security", ["sql injection", "xss", "csrf", "web", "http", "cookie"]),
    ("cryptography", ["encryption", "cipher", "crypto", "hash", "rsa", "aes"]),
    ("reverse_engineering", ["assembly", "disassembly", "binary", "executable"]),
    ("forensics", ["steganography", "file analysis", "metadata", "recovery"]),
    ("pwn", ["buffer overflow", "stack", "heap", "memory", "exploit"]),
    ("networking", ["tcp", "udp", "packet", "wireshark", "network"])
  ]

  /** `any(keyword in text for keyword in keywords)` */
  predicate AnyKeyword(keywords: seq<string>, text: string) {
    exists k :: 0 <= k < |keywords| && Contains(text, keywords[k])
  }

  /** the names of the table entries with a keyword in `text`, in table order */
  function MatchedTopics(table: seq<(string, seq<string>)>, text: string): seq<string> {
    if table == [] then []
    else MatchedTopics(table[..|table| - 1], text)
         + (if AnyKeyword(table[|table| - 1].1, text) then [table[|table| - 1].0] else [])
  }

  /** A topic is listed exactly when it has some keyword in the text. */
  lemma {:induction false} MatchedTopicsIff(table: seq<(string, seq<string>)>, text: string, t: string)
    ensures t in MatchedTopics(table, text) <==> exists k :: 0 <= k < |table| && table[k].0 == t && AnyKeyword(table[k].1, text)
    decreases |table|
  {
    if table != [] {
      var init := table[..|table| - 1];
      MatchedTopicsIff(init, text, t);
      if exists k :: 0 <= k < |table| && table[k].0 == t && AnyKeyword(table[k].1, text) {
        var k :| 0 <= k < |table| && table[k].0 == t && AnyKeyword(table[k].1, text);
        if k < |init| { assert init[k] == table[k]; }
      }
      if exists k :: 0 <= k < |init| && init[k].0 == t && AnyKeyword(init[k].1, text) {
        var k :| 0 <= k < |init| && init[k].0 == t && AnyKeyword(init[k].1, text);
        assert table[k] == init[k];
      }
    }
  }

  /** `xs` is `ys` with some elements left out, order kept */
  predicate IsSubsequence<T(==)>(xs: seq<T>, ys: seq<T>) {
    if xs == [] then true
    else if ys == [] then false
    else if xs[|xs| - 1] == ys[|ys| - 1] then IsSubsequence(xs[..|xs| - 1], ys[..|ys| - 1])
    else IsSubsequence(xs, ys[..|ys| - 1])
  }

  function Names(table: seq<(string, seq<string>)>): (r: seq<string>)
    ensures |r| == |table| && forall k :: 0 <= k < |table| ==> r[k] == table[k].0
  {
    if table == [] then [] else Names(table[..|table| - 1]) + [table[|table| - 1].0]
  }

  lemma {:induction false} SubsequenceOfLonger<T>(xs: seq<T>, ys: seq<T>, y: T)
    requires IsSubsequence(xs, ys)
    ensures IsSubsequence(xs, ys + [y])
    decreases |xs| + |ys|, 1
  {
    if xs != [] {
      assert (ys + [y])[..|ys|] == ys;
      if xs[|xs| - 1] == y && |xs| > 1 {
        SubsequenceOfShorter(xs, ys);
      }
    }
  }

  lemma {:induction false} SubsequenceOfShorter<T>(xs: seq<T>, ys: seq<T>)
    requires xs != [] && IsSubsequence(xs, ys)
    ensures IsSubsequence(xs[..|xs| - 1], ys)
    decreases |xs| + |ys|, 0
  {
    var init := xs[..|xs| - 1];
    var front := ys[..|ys| - 1];
    assert front + [ys[|ys| - 1]] == ys;
    if xs[|xs| - 1] == ys[|ys| - 1] {
      SubsequenceOfLonger(init, front, ys[|ys| - 1]);
    } else {
      SubsequenceOfShorter(xs, front);
      SubsequenceOfLonger(init, front, ys[|ys| - 1]);
    }
  }

  /** The topics come in table order: they are the table's names with the
      unmatched ones left out. */
  lemma {:induction false} MatchedTopicsInTableOrder(table: seq<(string, seq<string>)>, text: string)
    ensures IsSubsequence(MatchedTopics(table, text), Names(table))
    decreases |table|
  {
    if table != [] {
      var init := table[..|table| - 1];
      var last := table[|table| - 1];
      MatchedTopicsInTableOrder(init, text);
      assert Names(table) == Names(init) + [last.0];
      assert Names(table)[..|Names(table)| - 1] == Names(init);
      if !AnyKeyword(last.1, text) {
        assert MatchedTopics(table, text) == MatchedTopics(init, text);
        SubsequenceOfLonger(MatchedTopics(init, text), Names(init), last.0);
      } else {
        var m := MatchedTopics(table, text);
        assert m == MatchedTopics(init, text) + [last.0];
        assert m[..|m| - 1] == MatchedTopics(init, text);
      }
    }
  }

  /** `xs` holds no element twice */
  predicate Distinct<T(==)>(xs: seq<T>) {
    forall i, j :: 0 <= i < j < |xs| ==> xs[i] != xs[j]
  }

  /** No topic is listed twice. */
  lemma TopicsListedOnce(text: string)
    ensures Distinct(MatchedTopics(TopicKeywords, text))
  {
    assert Names(TopicKeywords) == ["web_security", "cryptography", "reverse_engineering", "forensics", "pwn", "networking"];
    MatchedTopicsDistinct(TopicKeywords, text);
  }

  /** A table whose names are distinct lists each matched topic once. */
  lemma {:induction false} MatchedTopicsDistinct(table: seq<(string, seq<string>)>, text: string)
    requires Distinct(Names(table))
    ensures Distinct(MatchedTopics(table, text))
    decreases |table|
  {
    if table != [] {
      var init := table[..|table| - 1];
      var last := table[|table| - 1];
      assert Names(init) == Names(table)[..|table| - 1];
      MatchedTopicsDistinct(init, text);
      if AnyKeyword(last.1, text) {
        assert last.0 !in Names(init) by {
          forall k | 0 <= k < |init| ensures Names(init)[k] != last.0 {
            assert Names(init)[k] == Names(table)[k];
          }
        }
        MatchedAreNames(init, text);
        assert MatchedTopics(table, text) == MatchedTopics(init, text) + [last.0];
      }
    }
  }

  /** every listed topic is a name of the table */
  lemma MatchedAreNames(table: seq<(string, seq<string>)>, text: string)
    ensures forall t :: t in MatchedTopics(table, text) ==> t in Names(table)
  {
    forall t | t in MatchedTopics(table, text) ensures t in Names(table) {
      MatchedTopicsIff(table, text, t);
      var k :| 0 <= k < |table| && table[k].0 == t && AnyKeyword(table[k].1, text);
      assert Names(table)[k] == t;
    }
  }

  // ---------------------------------------------------------------- fenced examples

  const Fence: string := "```"

  /** no opening fence starts in `s[a..b]` */
  ghost predicate NoFenceIn(s: string, a: nat, b: nat) {
    forall m :: a <= m < b ==> !OccursAt(Fence, s, m)
  }

  /** no two non-overlapping fences start at or after `a` */
  ghost predicate NoPairFrom(s: string, a: nat) {
    forall m1, m2 :: a <= m1 && m1 + 3 <= m2 && OccursAt(Fence, s, m1) ==> !OccursAt(Fence, s, m2)
  }

  /** `span` is the lazy match found by a search starting at `lo`: it opens at
      the first fence at or after `lo` and closes at the first fence after it */
  ghost predicate LazyMatch(s: string, lo: nat, span: (nat, nat)) {
    && lo <= span.0 && span.0 + 6 <= span.1 <= |s|
    && OccursAt(Fence, s, span.0) && OccursAt(Fence, s, span.1 - 3)
    && NoFenceIn(s, lo, span.0)
    && NoFenceIn(s, span.0 + 3, span.1 - 3)
  }

  /** `spans` is what `re.findall` finds from `from` on: successive lazy
      matches, each search starting where the previous match ended, until no
      further match exists */
  ghost predicate IsScan(s: string, from: nat, spans: seq<(nat, nat)>)
    decreases |spans|
  {
    if spans == [] then NoPairFrom(s, from)
    else LazyMatch(s, from, spans[0]) && IsScan(s, spans[0].1, spans[1..])
  }

  /** `re.findall(r'```[\s\S]*?```', s)` from position `from`, as spans `[start, end)` */
  function FenceSpans(s: string, from: nat): (spans: seq<(nat, nat)>)
    ensures IsScan(s, from, spans)
    decreases |s| - from
  {
    match Find(s, Fence, from)
    case None => []
    case Some(i) =>
      match Find(s, Fence, i + 3)
      case None => []
      case Some(j) =>
        var rest := FenceSpans(s, j + 3);
        var spans := [(i, j + 3)] + rest;
        assert spans[1..] == rest;
        spans
  }

  /** every span of a scan lies inside the text and is a fenced block */
  lemma {:induction false} ScanSpansAreBlocks(s: string, from: nat, spans: seq<(nat, nat)>, k: nat)
    requires IsScan(s, from, spans) && k < |spans|
    ensures spans[k].0 + 6 <= spans[k].1 <= |s|
    ensures OccursAt(Fence, s, spans[k].0) && OccursAt(Fence, s, spans[k].1 - 3)
    decreases k
  {
    if k > 0 {
      ScanSpansAreBlocks(s, spans[0].1, spans[1..], k - 1);
    }
  }

  /** a lazy match is a pair of fences, so a search that finds none rules it out */
  lemma LazyMatchIsPair(s: string, lo: nat, span: (nat, nat))
    requires LazyMatch(s, lo, span)
    ensures !NoPairFrom(s, lo)
  {
    assert OccursAt(Fence, s, span.0) && OccursAt(Fence, s, span.1 - 3);
  }

  /** the scan is determined by the text: there is only one */
  lemma {:induction false} ScanUnique(s: string, from: nat, a: seq<(nat, nat)>, b: seq<(nat, nat)>)
    requires IsScan(s, from, a) && IsScan(s, from, b)
    ensures a == b
    decreases |a|
  {
    if a != [] { LazyMatchIsPair(s, from, a[0]); }
    if b != [] { LazyMatchIsPair(s, from, b[0]); }
    if a != [] && b != [] {
      var x, y := a[0], b[0];
      assert x.0 == y.0;
      assert x.1 == y.1;
      ScanUnique(s, x.1, a[1..], b[1..]);
      assert a == [x] + a[1..] && b == [y] + b[1..];
    }
  }

  /** `e` opens and closes with a fence (and the two do not overlap) */
  predicate Fenced(e: string) {
    |e| >= 6 && e[..3] == Fence && e[|e| - 3..] == Fence
  }

  /** the first three fenced blocks of `content`, as `extract_metadata` keeps them */
  function Examples(content: string): (r: seq<string>)
    ensures |r| <= 3
    ensures forall k :: 0 <= k < |r| ==> Fenced(r[k])
  {
    var spans := FenceSpans(content, 0);
    var n := Min(|spans|, 3);
    var r := seq(n, k requires 0 <= k < n => ExampleAt(content, spans, k));
    assert forall k :: 0 <= k < n ==> r[k] == ExampleAt(content, spans, k);
    r
  }

  /** the examples are the texts of the first three matches of the fence scan */
  lemma ExamplesAreFirstMatches(content: string, spans: seq<(nat, nat)>)
    requires IsScan(content, 0, spans)
    ensures |Examples(content)| == Min(|spans|, 3)
    ensures forall k :: 0 <= k < |Examples(content)| ==>
              spans[k].0 <= spans[k].1 <= |content| && Examples(content)[k] == content[spans[k].0..spans[k].1]
  {
    forall k | 0 <= k < |spans| ensures spans[k].0 <= spans[k].1 <= |content| {
      ScanSpansAreBlocks(content, 0, spans, k);
    }
    ScanUnique(content, 0, spans, FenceSpans(content, 0));
  }

  /** the text of the `k`-th span of a scan of `content` */
  function ExampleAt(content: string, spans: seq<(nat, nat)>, k: nat): (e: string)
    requires IsScan(content, 0, spans) && k < |spans|
    ensures Fenced(e)
  {
    ScanSpansAreBlocks(content, 0, spans, k);
    var e := content[spans[k].0..spans[k].1];
    assert e[..3] == content[spans[k].0..spans[k].0 + 3];
    assert e[|e| - 3..] == content[spans[k].1 - 3..spans[k].1];
    e
  }

  /** `extract_metadata` (backend/content_processor.py); the file path it is
      given plays no part. */
  method ExtractMetadata(content: string, filePath: string) returns (metadata: Metadata)
    ensures metadata.platform == "picoCTF" && metadata.difficulty == "beginner"
    ensures metadata.topics == MatchedTopics(TopicKeywords, Lower(content))
    ensures metadata.examples == Examples(content)
  {
    var topicsFound: seq<string> := [];
    var contentLower := Lower(content);
    for k := 0 to |TopicKeywords|
      invariant topicsFound == MatchedTopics(TopicKeywords[..k], contentLower)
    {
      var (topic, keywords) := TopicKeywords[k];
      assert TopicKeywords[..k + 1][..k] == TopicKeywords[..k];
      if AnyKeyword(keywords, contentLower) {
        topicsFound := topicsFound + [topic];
      }
    }
    assert TopicKeywords[..|TopicKeywords|] == TopicKeywords;
    metadata := Metadata("picoCTF", "beginner", topicsFound, Examples(content));
  }

  /** `process_markdown_file` (backend/content_processor.py) on the text
      already read from `filePath` */
  method ProcessMarkdownFile(content: string, filePath: string) returns (doc: Document)
    ensures doc.title == ExtractTitle(content, filePath) && doc.filePath == filePath
    ensures doc.sections == SectionsOf(content)
    ensures doc.metadata.topics == MatchedTopics(TopicKeywords, Lower(content))
    ensures doc.metadata.examples == Examples(content)
    ensures doc.metadata.platform == "picoCTF" && doc.metadata.difficulty == "beginner"
    ensures doc.fullContent == content
  {
    var title := ExtractTitle(content, filePath);
    var sections := SplitIntoSections(content);
    var metadata := ExtractMetadata(content, filePath);
    doc := Document(title, filePath, sections, metadata, content);
  }
}
