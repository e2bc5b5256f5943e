/**
 * Extraction of the level records from one answers page (parser.py,
 * parse_level_page). The page arrives already parsed: a sequence of sibling
 * blocks, where a paragraph is a sequence of child nodes. The HTTP request and
 * BeautifulSoup are not modelled; their navigation (next sibling paragraph,
 * first <strong>, first bonus span) is written out over these values.
 */
module LevelPage {
  import opened Common
  import opened Text
  import opened Numerals

  /** A child of an answers paragraph. */
  datatype Node =
    | TextNode(s: string)                        // a bare string
    | BrNode                                     // <br>
    | StrongNode                                 // <strong>
    | SpanNode(isMeta: bool, texts: seq<string>) // <span>; isMeta: its class list holds uk-text-meta; texts: its strings
    | OtherNode                                  // any other element

  /** A block of the page body, siblings in document order. */
  datatype Block =
    | Heading(ukH3: bool, title: string)  // <h2>; ukH3: its class list holds uk-h3; title: its text, stripped
    | Paragraph(nodes: seq<Node>)         // <p>
    | OtherBlock

  type Page = seq<Block>

  /** One row of results: (level_num, main_words, bonus_words). */
  datatype LevelEntry = LevelEntry(level: int, mainWords: seq<string>, bonusWords: seq<string>)

  /** The exception parse_level_page raises: a paragraph it reads has no <strong> (at the heading's index). */
  datatype ParseError = MissingStrong(heading: nat)

  const LevelMarker := "Уровень"

  /**
   * The level number a heading title announces: it starts with the marker and
   * its second whitespace token is an int. The token holds no whitespace, so
   * `int()` reads it as it is (TitleLevelReadsInt).
   */
  function TitleLevel(title: string): Option<int>
  {
    if !StartsWith(title, LevelMarker) then None
    else
      var tokens := SplitWhitespace(title);
      if |tokens| < 2 then None else ParseDecimal(tokens[1])
  }

  /** TitleLevel is `int(title.split()[1])` after the marker check. */
  lemma TitleLevelReadsInt(title: string)
    requires StartsWith(title, LevelMarker) && |SplitWhitespace(title)| >= 2
    ensures TitleLevel(title) == ParsePythonInt(SplitWhitespace(title)[1])
  {
    var tokens := SplitWhitespace(title);
    SplitWhitespaceTokens(title);
    assert tokens[1] in tokens;
    ParsePythonIntOfToken(tokens[1]);
  }

  /** `find_next_sibling("p")`: the first paragraph after block `i`. */
  function NextParagraph(page: Page, i: nat): (r: Option<nat>)
    ensures r.Some? ==> i < r.value < |page| && page[r.value].Paragraph?
    ensures r.Some? ==> forall j | i < j < r.value :: !page[j].Paragraph?
    ensures r.None? ==> forall j | i < j < |page| :: !page[j].Paragraph?
    decreases |page| - i
  {
    if i + 1 >= |page| then None
    else if page[i + 1].Paragraph? then Some(i + 1)
    else NextParagraph(page, i + 1)
  }

  /** `p.find("strong")`: the first <strong> child. */
  function FirstStrong(nodes: seq<Node>): (r: Option<nat>)
    ensures r.Some? ==> r.value < |nodes| && nodes[r.value].StrongNode?
    ensures r.Some? ==> forall j | 0 <= j < r.value :: !nodes[j].StrongNode?
    ensures r.None? ==> forall j | 0 <= j < |nodes| :: !nodes[j].StrongNode?
  {
    if nodes == [] then None
    else if nodes[0].StrongNode? then Some(0)
    else match FirstStrong(nodes[1..])
      case None => None
      case Some(k) => Some(k + 1)
  }

  /** `p.find("span", class_="uk-text-meta")`: the first bonus span child. */
  function FirstMetaSpan(nodes: seq<Node>): (r: Option<nat>)
    ensures r.Some? ==> r.value < |nodes| && nodes[r.value].SpanNode? && nodes[r.value].isMeta
    ensures r.Some? ==> forall j | 0 <= j < r.value :: !(nodes[j].SpanNode? && nodes[j].isMeta)
    ensures r.None? ==> forall j | 0 <= j < |nodes| :: !(nodes[j].SpanNode? && nodes[j].isMeta)
  {
    if nodes == [] then None
    else if nodes[0].SpanNode? && nodes[0].isMeta then Some(0)
    else match FirstMetaSpan(nodes[1..])
      case None => None
      case Some(k) => Some(k + 1)
  }

  /** A heading that is read at all: an h2.uk-h3 whose title names a level and that has a later paragraph. */
  predicate IsLevelHeading(page: Page, i: nat)
  {
    && i < |page| && page[i].Heading? && page[i].ukH3
    && TitleLevel(page[i].title).Some?
    && NextParagraph(page, i).Some?
  }

  /** The stripped strings among the siblings after <strong>; br, span and other elements give nothing. */
  function TextNodes(siblings: seq<Node>): seq<string>
  {
    if siblings == [] then []
    else (if siblings[0].TextNode? then [Strip(siblings[0].s)] else []) + TextNodes(siblings[1..])
  }

  /** Collects the text after <strong>, node by node, as the loop of parse_level_page does. */
  method CollectTextNodes(siblings: seq<Node>) returns (texts: seq<string>)
    ensures texts == TextNodes(siblings)
  {
    texts := [];
    var i := 0;
    while i < |siblings|
      invariant 0 <= i <= |siblings|
      invariant texts == TextNodes(siblings[..i])
    {
      var elem := siblings[i];
      TextNodesAppend(siblings[..i], [elem]);
      assert siblings[..i + 1] == siblings[..i] + [elem];
      if elem.BrNode? {
        assert TextNodes([elem]) == [];
      } else if elem.TextNode? {
        assert TextNodes([elem]) == [Strip(elem.s)];
        texts := texts + [Strip(elem.s)];
      } else {
        assert TextNodes([elem]) == [];
      }
      i := i + 1;
    }
    assert siblings[..i] == siblings;
  }

  /** One word of the comprehension below: its upper-cased strip, or nothing when it strips to nothing. */
  function NormalizeWord(w: string): seq<string>
  {
    var s := Strip(w);
    if s == [] then [] else [Upper(s)]
  }

  /** `[w.strip().upper() for w in ws if w.strip()]`. */
  function Normalize(ws: seq<string>): seq<string>
  {
    if ws == [] then [] else NormalizeWord(ws[0]) + Normalize(ws[1..])
  }

  /** The upper-cased strip of a word that is not all space is non-empty, upper-case and stripped. */
  lemma NormalizedWordShape(v: string)
    requires Strip(v) != []
    ensures var w := Upper(Strip(v)); w != [] && IsUpperCase(w) && Strip(w) == w
  {
    var s := Strip(v);
    StripEnds(v);
    UpperProperties(s);
    StripUnpadded(Upper(s));
  }

  /** Each normalized word is non-empty, upper-case and stripped, and is the upper-cased strip of an input word. */
  lemma {:induction false} NormalizeWords(ws: seq<string>)
    ensures forall w | w in Normalize(ws) :: w != [] && IsUpperCase(w) && Strip(w) == w
    ensures forall w | w in Normalize(ws) :: exists v | v in ws :: Strip(v) != [] && w == Upper(Strip(v))
  {
    if ws != [] {
      NormalizeWords(ws[1..]);
      var s := Strip(ws[0]);
      var rest := Normalize(ws[1..]);
      if s != [] {
        NormalizedWordShape(ws[0]);
        assert Normalize(ws) == [Upper(s)] + rest;
      } else {
        assert Normalize(ws) == rest;
      }
      forall w | w in Normalize(ws)
        ensures w != [] && IsUpperCase(w) && Strip(w) == w
        ensures exists v | v in ws :: Strip(v) != [] && w == Upper(Strip(v))
      {
        if w in rest {
          var v :| v in ws[1..] && Strip(v) != [] && w == Upper(Strip(v));
          assert v in ws;
        } else {
          assert w == Upper(s) && ws[0] in ws;
        }
      }
    }
  }

  /** Normalizing works word by word: the words of two lists come out in the same order, those of the first list first. */
  lemma {:induction false} NormalizeConcat(a: seq<string>, b: seq<string>)
    ensures Normalize(a + b) == Normalize(a) + Normalize(b)
    decreases |a|
  {
    if a == [] {
      assert a + b == b;
    } else {
      assert (a + b)[0] == a[0];
      assert (a + b)[1..] == a[1..] + b;
      NormalizeConcat(a[1..], b);
    }
  }

  /** Words that are all space are dropped. */
  lemma {:induction false} NormalizeDropsBlanks(ws: seq<string>)
    requires forall w | w in ws :: Strip(w) == []
    ensures Normalize(ws) == []
    decreases |ws|
  {
    if ws != [] {
      assert ws[0] in ws;
      assert forall w | w in ws[1..] :: w in ws;
      NormalizeDropsBlanks(ws[1..]);
    }
  }

  /** Words that are already non-empty, upper-case and stripped are kept, each once and in order. */
  lemma {:induction false} NormalizeKeepsWords(ws: seq<string>)
    requires forall w | w in ws :: w != [] && IsUpperCase(w) && Strip(w) == w
    ensures Normalize(ws) == ws
    decreases |ws|
  {
    if ws != [] {
      var w, rest := ws[0], ws[1..];
      assert w in ws;
      assert Strip(w) == w && Upper(w) == w;
      assert Normalize(ws) == [w] + Normalize(rest);
      assert forall v | v in rest :: v in ws;
      NormalizeKeepsWords(rest);
      assert ws == [w] + rest;
    }
  }

  /** The main words of a paragraph from the text after <strong>. */
  function MainWords(texts: seq<string>): seq<string>
  {
    var joined := ReplaceChar(ReplaceChar(Join(texts, ' '), '\n', ' '), ',', ' ');
    Normalize(SplitWhitespace(joined))
  }

  /** The bonus words from the strings of the bonus span, read with "," between them. */
  function BonusWords(spanTexts: seq<string>): seq<string>
  {
    var joined := ReplaceChar(Join(spanTexts, ','), '\n', ' ');
    Normalize(Split(joined, ','))
  }

  /** The bonus words of a paragraph: none when it has no bonus span. */
  function ParagraphBonus(nodes: seq<Node>): seq<string>
  {
    match FirstMetaSpan(nodes)
    case None => []
    case Some(j) => BonusWords(nodes[j].texts)
  }

  /** What block `i` contributes to the result. */
  datatype Step = Skip | Emit(entry: LevelEntry) | Raise

  function HeadingStep(page: Page, i: nat): Step
  {
    if !IsLevelHeading(page, i) then Skip
    else ParagraphStep(TitleLevel(page[i].title).value, page[NextParagraph(page, i).value].nodes)
  }

  /** The record a level heading builds from its paragraph, or Raise when the paragraph has no <strong>. */
  function ParagraphStep(level: int, nodes: seq<Node>): Step
  {
    match FirstStrong(nodes)
    case None => Raise
    case Some(k) => Emit(LevelEntry(level, MainWords(TextNodes(nodes[k + 1..])), ParagraphBonus(nodes)))
  }

  /** The step of every block of the page, in document order. */
  function Steps(page: Page): (steps: seq<Step>)
    ensures |steps| == |page|
    ensures forall i | 0 <= i < |page| :: steps[i] == HeadingStep(page, i)
  {
    seq(|page|, i requires 0 <= i < |page| => HeadingStep(page, i))
  }

  /** The records of steps `i..`, or the error of the first step that raises. */
  function Run(steps: seq<Step>, i: nat): Result<seq<LevelEntry>, ParseError>
    decreases |steps| - i
  {
    if i >= |steps| then Success([])
    else match steps[i]
      case Skip => Run(steps, i + 1)
      case Raise => Failure(MissingStrong(i))
      case Emit(e) => Prepend([e], Run(steps, i + 1))
  }

  /** The records of blocks `i..`, or the error of the first heading that raises. */
  function ExtractFrom(page: Page, i: nat): Result<seq<LevelEntry>, ParseError>
  {
    Run(Steps(page), i)
  }

  function Prepend(es: seq<LevelEntry>, r: Result<seq<LevelEntry>, ParseError>): Result<seq<LevelEntry>, ParseError>
  {
    match r
    case Success(rest) => Success(es + rest)
    case Failure(e) => Failure(e)
  }

  function ExtractLevels(page: Page): Result<seq<LevelEntry>, ParseError>
  {
    ExtractFrom(page, 0)
  }

  /** The body of parse_level_page's loop for block `i`: skip it, build its record, or raise. */
  method ReadHeading(page: Page, i: nat) returns (step: Step)
    requires i < |page|
    ensures step == HeadingStep(page, i)
  {
    var level := if page[i].Heading? && page[i].ukH3 then TitleLevel(page[i].title) else None;
    var p := NextParagraph(page, i);
    if level.None? || p.None? {
      assert !IsLevelHeading(page, i);
      return Skip;
    }
    assert IsLevelHeading(page, i);
    step := ReadParagraph(level.value, page[p.value].nodes);
  }

  /** The record of one level heading from its paragraph: the text after <strong>, and the bonus span. */
  method ReadParagraph(level: int, nodes: seq<Node>) returns (step: Step)
    ensures step == ParagraphStep(level, nodes)
  {
    var strong := FirstStrong(nodes);
    if strong.None? {
      return Raise;
    }
    var texts := CollectTextNodes(nodes[strong.value + 1..]);
    step := Emit(LevelEntry(level, MainWords(texts), ParagraphBonus(nodes)));
  }

  /** parse_level_page after the fetch: walks the headings and appends one record per level heading. */
  method ParseLevelPage(page: Page) returns (r: Result<seq<LevelEntry>, ParseError>)
    ensures r == ExtractLevels(page)
  {
    var results: seq<LevelEntry> := [];
    var i := 0;
    PrependNothing(ExtractFrom(page, 0));
    while i < |page|
      invariant 0 <= i <= |page|
      invariant ExtractLevels(page) == Prepend(results, ExtractFrom(page, i))
    {
      var step := ReadHeading(page, i);
      if step.Raise? {
        return Failure(MissingStrong(i));
      } else if step.Emit? {
        PrependTwice(results, [step.entry], ExtractFrom(page, i + 1));
        results := results + [step.entry];
      }
      i := i + 1;
    }
    assert results + [] == results;
    return Success(results);
  }

  lemma PrependNothing(r: Result<seq<LevelEntry>, ParseError>)
    ensures Prepend([], r) == r
  {
    if r.Success? {
      assert [] + r.value == r.value;
    }
  }

  lemma PrependTwice(xs: seq<LevelEntry>, ys: seq<LevelEntry>, r: Result<seq<LevelEntry>, ParseError>)
    ensures Prepend(xs, Prepend(ys, r)) == Prepend(xs + ys, r)
  {
    if r.Success? {
      assert xs + (ys + r.value) == (xs + ys) + r.value;
    }
  }

  // ---------------------------------------------------------------------------
  // Which headings give records

  /** The positions from `from` on whose flag is set, in increasing order. */
  ghost function Where(flags: seq<bool>, from: nat): (idx: seq<nat>)
    ensures forall k | 0 <= k < |idx| :: from <= idx[k] < |flags| && flags[idx[k]]
    decreases |flags| - from
  {
    if from >= |flags| then []
    else if flags[from] then [from] + Where(flags, from + 1)
    else Where(flags, from + 1)
  }

  lemma {:induction false} WhereIncreasing(flags: seq<bool>, from: nat)
    ensures forall k, l | 0 <= k < l < |Where(flags, from)| :: Where(flags, from)[k] < Where(flags, from)[l]
    decreases |flags| - from
  {
    if from < |flags| {
      WhereIncreasing(flags, from + 1);
      var rest := Where(flags, from + 1);
      if flags[from] {
        var idx := [from] + rest;
        assert Where(flags, from) == idx;
        forall k, l | 0 <= k < l < |idx| ensures idx[k] < idx[l] {
          assert idx[l] == rest[l - 1];
          if k > 0 {
            assert idx[k] == rest[k - 1];
          }
        }
      } else {
        assert Where(flags, from) == rest;
      }
    }
  }

  lemma {:induction false} WhereComplete(flags: seq<bool>, from: nat)
    ensures forall i | from <= i < |flags| && flags[i] :: i in Where(flags, from)
    decreases |flags| - from
  {
    if from < |flags| {
      WhereComplete(flags, from + 1);
    }
  }

  /** Which blocks are level headings. */
  ghost function HeadingFlags(page: Page): (flags: seq<bool>)
    ensures |flags| == |page|
    ensures forall i | 0 <= i < |page| :: flags[i] == IsLevelHeading(page, i)
  {
    seq(|page|, i requires 0 <= i < |page| => IsLevelHeading(page, i))
  }

  /** The headings that are read at all, from block `from` on, in document order. */
  ghost function LevelHeadings(page: Page, from: nat): (idx: seq<nat>)
    ensures forall k | 0 <= k < |idx| :: from <= idx[k] < |page|
  {
    Where(HeadingFlags(page), from)
  }

  /** LevelHeadings lists every level heading of the page, each once, in increasing block order. */
  lemma LevelHeadingsExactly(page: Page)
    ensures forall k, l | 0 <= k < l < |LevelHeadings(page, 0)| :: LevelHeadings(page, 0)[k] < LevelHeadings(page, 0)[l]
    ensures forall i | 0 <= i < |page| && IsLevelHeading(page, i) :: i in LevelHeadings(page, 0)
    ensures forall k | 0 <= k < |LevelHeadings(page, 0)| :: IsLevelHeading(page, LevelHeadings(page, 0)[k])
  {
    var flags := HeadingFlags(page);
    WhereIncreasing(flags, 0);
    WhereComplete(flags, 0);
    forall i | 0 <= i < |page| && IsLevelHeading(page, i) ensures i in LevelHeadings(page, 0) {
      assert flags[i];
    }
  }

  /** A heading that is read but whose paragraph has no <strong>. */
  predicate LacksStrong(page: Page, i: nat)
  {
    IsLevelHeading(page, i) && FirstStrong(page[NextParagraph(page, i).value].nodes).None?
  }

  lemma StepRaisesIff(page: Page, i: nat)
    ensures HeadingStep(page, i).Raise? <==> LacksStrong(page, i)
  {
  }

  /** The steps that read a heading: every step but Skip. */
  function ReadFlags(steps: seq<Step>): (flags: seq<bool>)
    ensures |flags| == |steps|
    ensures forall i | 0 <= i < |steps| :: flags[i] == !steps[i].Skip?
  {
    seq(|steps|, i requires 0 <= i < |steps| => !steps[i].Skip?)
  }

  /** Running steps fails exactly when one of them raises, and the error names such a step. */
  lemma {:induction false} RunFails(steps: seq<Step>, from: nat)
    ensures Run(steps, from).Failure? <==> exists i | from <= i < |steps| :: steps[i].Raise?
    ensures Run(steps, from).Failure? ==>
      from <= Run(steps, from).error.heading < |steps| && steps[Run(steps, from).error.heading].Raise?
    decreases |steps| - from
  {
    if from < |steps| {
      RunFails(steps, from + 1);
    }
  }

  /** A successful run has one record per step that reads a heading, in order: the one that step emits. */
  lemma {:induction false} RunFollows(steps: seq<Step>, from: nat)
    requires Run(steps, from).Success?
    ensures |Run(steps, from).value| == |Where(ReadFlags(steps), from)|
    ensures forall k | 0 <= k < |Where(ReadFlags(steps), from)| ::
      steps[Where(ReadFlags(steps), from)[k]] == Emit(Run(steps, from).value[k])
    decreases |steps| - from
  {
    if from < |steps| {
      var flags := ReadFlags(steps);
      if steps[from].Skip? {
        RunFollows(steps, from + 1);
        assert Where(flags, from) == Where(flags, from + 1);
      } else if steps[from].Emit? {
        RunFollows(steps, from + 1);
        var es, rest := Run(steps, from).value, Run(steps, from + 1).value;
        var idx, tail := Where(flags, from), Where(flags, from + 1);
        assert idx == [from] + tail;
        assert es == [steps[from].entry] + rest;
        forall k | 0 <= k < |idx| ensures steps[idx[k]] == Emit(es[k]) {
          if k > 0 {
            assert idx[k] == tail[k - 1] && es[k] == rest[k - 1];
          }
        }
      } else {
        assert false;
      }
    }
  }

  /** Extraction fails exactly when some level heading's paragraph has no <strong>, and it names such a heading. */
  lemma ExtractFailsIffStrongMissing(page: Page)
    ensures ExtractLevels(page).Failure? <==> exists i | 0 <= i < |page| :: LacksStrong(page, i)
    ensures ExtractLevels(page).Failure? ==> LacksStrong(page, ExtractLevels(page).error.heading)
  {
    var steps := Steps(page);
    RunFails(steps, 0);
    forall i | 0 <= i < |page| ensures steps[i].Raise? <==> LacksStrong(page, i) {
      StepRaisesIff(page, i);
    }
  }

  /** The blocks that read a heading are the level headings. */
  lemma FlagsOfSteps(page: Page)
    ensures HeadingFlags(page) == ReadFlags(Steps(page))
  {
    var flags, read := HeadingFlags(page), ReadFlags(Steps(page));
    forall i | 0 <= i < |page| ensures flags[i] == read[i] {
      assert Steps(page)[i] == HeadingStep(page, i);
    }
  }

  /**
   * A successful extraction has one record per level heading, in heading order:
   * the k-th record is the one the k-th level heading builds, with that heading's
   * level number; every other block contributes nothing.
   */
  lemma EntriesFollowHeadings(page: Page)
    requires ExtractLevels(page).Success?
    ensures |ExtractLevels(page).value| == |LevelHeadings(page, 0)|
    ensures forall k | 0 <= k < |LevelHeadings(page, 0)| ::
      && HeadingStep(page, LevelHeadings(page, 0)[k]) == Emit(ExtractLevels(page).value[k])
      && ExtractLevels(page).value[k].level == TitleLevel(page[LevelHeadings(page, 0)[k]].title).value
  {
    var steps := Steps(page);
    RunFollows(steps, 0);
    FlagsOfSteps(page);
    var idx, es := LevelHeadings(page, 0), ExtractLevels(page).value;
    forall k | 0 <= k < |idx|
      ensures HeadingStep(page, idx[k]) == Emit(es[k]) && es[k].level == TitleLevel(page[idx[k]].title).value
    {
      assert steps[idx[k]] == HeadingStep(page, idx[k]);
    }
  }

  // ---------------------------------------------------------------------------
  // The shape of the words

  /** A main word: non-empty, upper-case, without spaces or commas. */
  predicate IsMainWord(w: string)
  {
    w != [] && IsUpperCase(w) && forall i | 0 <= i < |w| :: !IsSpace(w[i]) && w[i] != ','
  }

  /** A bonus word: non-empty, upper-case, stripped, without commas or newlines. */
  predicate IsBonusWord(w: string)
  {
    w != [] && IsUpperCase(w) && Strip(w) == w && forall i | 0 <= i < |w| :: w[i] != ',' && w[i] != '\n'
  }

  lemma MainWordsWellFormed(texts: seq<string>)
    ensures forall w | w in MainWords(texts) :: IsMainWord(w)
  {
    var joined := ReplaceChar(ReplaceChar(Join(texts, ' '), '\n', ' '), ',', ' ');
    var tokens := SplitWhitespace(joined);
    SplitWhitespaceTokens(joined);
    NormalizeWords(tokens);
    assert ',' !in joined;
    forall w | w in MainWords(texts) ensures IsMainWord(w) {
      var v :| v in tokens && Strip(v) != [] && w == Upper(Strip(v));
      var t := Strip(v);
      StripChars(v);
      UpperProperties(t);
      forall i | 0 <= i < |w| ensures !IsSpace(w[i]) && w[i] != ',' {
        assert t[i] in t;
      }
    }
  }

  lemma BonusWordsWellFormed(spanTexts: seq<string>)
    ensures forall w | w in BonusWords(spanTexts) :: IsBonusWord(w)
  {
    var joined := ReplaceChar(Join(spanTexts, ','), '\n', ' ');
    var fields := Split(joined, ',');
    SplitFields(joined, ',');
    NormalizeWords(fields);
    assert '\n' !in joined;
    forall w | w in BonusWords(spanTexts) ensures IsBonusWord(w) {
      var v :| v in fields && Strip(v) != [] && w == Upper(Strip(v));
      var t := Strip(v);
      StripChars(v);
      UpperProperties(t);
      forall i | 0 <= i < |w| ensures w[i] != ',' && w[i] != '\n' {
        assert t[i] in t;
      }
    }
  }

  /** Main words written into one text node with single spaces between them are read back exactly. */
  lemma MainWordsOfWords(ws: seq<string>)
    requires forall w | w in ws :: IsMainWord(w)
    ensures MainWords([Join(ws, ' ')]) == ws
  {
    var text := Join(ws, ' ');
    assert Join([text], ' ') == text;
    assert IsSpace('\n');
    JoinAvoids(ws, ' ', '\n');
    JoinAvoids(ws, ' ', ',');
    ReplaceAbsent(text, '\n', ' ');
    ReplaceAbsent(text, ',', ' ');
    SpacedWordsReadBack(ws);
  }

  /** Main words separated by single commas in one text node are read back exactly: "," counts as a space. */
  lemma MainWordsOfCommaWords(ws: seq<string>)
    requires forall w | w in ws :: IsMainWord(w)
    ensures MainWords([Join(ws, ',')]) == ws
  {
    var text := Join(ws, ',');
    assert Join([text], ' ') == text;
    JoinAvoids(ws, ',', '\n');
    ReplaceAbsent(text, '\n', ' ');
    JoinReplaceSep(ws, ',', ' ');
    SpacedWordsReadBack(ws);
  }

  /** Normalizing the whitespace split of space-joined main words gives them back. */
  lemma SpacedWordsReadBack(ws: seq<string>)
    requires forall w | w in ws :: IsMainWord(w)
    ensures Normalize(SplitWhitespace(Join(ws, ' '))) == ws
  {
    SplitWhitespaceJoin(ws);
    forall w | w in ws ensures Strip(w) == w {
      StripUnpadded(w);
    }
    NormalizeKeepsWords(ws);
  }

  /**
   * The main words of several text nodes are those of each node in turn: the
   * nodes are joined with a space, so no word runs across two nodes and none is lost.
   */
  lemma MainWordsConcat(a: seq<string>, b: seq<string>)
    ensures MainWords(a + b) == MainWords(a) + MainWords(b)
  {
    assert ReplaceChar("", '\n', ' ') == "" && ReplaceChar("", ',', ' ') == "";
    if a == [] {
      assert a + b == b;
    } else if b == [] {
      assert a + b == a;
    } else {
      var x, y := Join(a, ' '), Join(b, ' ');
      JoinConcat(a, b, ' ');
      ReplaceConcat(x + [' '], y, '\n', ' ');
      ReplaceConcat(x, [' '], '\n', ' ');
      assert ReplaceChar([' '], '\n', ' ') == [' '];
      var x1, y1 := ReplaceChar(x, '\n', ' '), ReplaceChar(y, '\n', ' ');
      ReplaceConcat(x1 + [' '], y1, ',', ' ');
      ReplaceConcat(x1, [' '], ',', ' ');
      assert ReplaceChar([' '], ',', ' ') == [' '];
      var x2, y2 := ReplaceChar(x1, ',', ' '), ReplaceChar(y1, ',', ' ');
      assert IsSpace(' ');
      SplitWhitespaceAtSpace(x2, ' ', y2);
      NormalizeConcat(SplitWhitespace(x2), SplitWhitespace(y2));
    }
  }

  /** Bonus words written into the span as comma-separated text are read back exactly; no text gives no words. */
  lemma BonusWordsOfWords(ws: seq<string>)
    requires forall w | w in ws :: IsBonusWord(w)
    ensures BonusWords([Join(ws, ',')]) == ws
  {
    var text := Join(ws, ',');
    assert Join([text], ',') == text;
    JoinAvoids(ws, ',', '\n');
    ReplaceAbsent(text, '\n', ' ');
    if ws == [] {
      assert Split(text, ',') == [""];
      assert Strip("") == [];
      NormalizeDropsBlanks([""]);
    } else {
      SplitJoin(ws, ',');
      NormalizeKeepsWords(ws);
    }
  }

  /**
   * The bonus words of several span strings are those of each string in turn:
   * the strings are joined with ",", which ends a word like any other comma.
   */
  lemma BonusWordsConcat(a: seq<string>, b: seq<string>)
    ensures BonusWords(a + b) == BonusWords(a) + BonusWords(b)
  {
    assert ReplaceChar("", '\n', ' ') == "";
    assert Split("", ',') == [""];
    assert Strip("") == [];
    NormalizeDropsBlanks([""]);
    if a == [] {
      assert a + b == b;
    } else if b == [] {
      assert a + b == a;
    } else {
      var x, y := Join(a, ','), Join(b, ',');
      JoinConcat(a, b, ',');
      ReplaceConcat(x + [','], y, '\n', ' ');
      ReplaceConcat(x, [','], '\n', ' ');
      assert ReplaceChar([','], '\n', ' ') == [','];
      var x1, y1 := ReplaceChar(x, '\n', ' '), ReplaceChar(y, '\n', ' ');
      SplitConcat(x1, ',', y1);
      NormalizeConcat(Split(x1, ','), Split(y1, ','));
    }
  }

  /** The words of the record read under one level heading have the shape above. */
  lemma HeadingWordsWellFormed(page: Page, i: nat)
    requires HeadingStep(page, i).Emit?
    ensures forall w | w in HeadingStep(page, i).entry.mainWords :: IsMainWord(w)
    ensures forall w | w in HeadingStep(page, i).entry.bonusWords :: IsBonusWord(w)
  {
    ParagraphWordsWellFormed(TitleLevel(page[i].title).value, page[NextParagraph(page, i).value].nodes);
  }

  /** The words of the record built from one paragraph have the shape above. */
  lemma ParagraphWordsWellFormed(level: int, nodes: seq<Node>)
    requires ParagraphStep(level, nodes).Emit?
    ensures forall w | w in ParagraphStep(level, nodes).entry.mainWords :: IsMainWord(w)
    ensures forall w | w in ParagraphStep(level, nodes).entry.bonusWords :: IsBonusWord(w)
  {
    var strong := FirstStrong(nodes).value;
    MainWordsWellFormed(TextNodes(nodes[strong + 1..]));
    match FirstMetaSpan(nodes)
    case None =>
    case Some(j) =>
      BonusWordsWellFormed(nodes[j].texts);
  }

  /** Every word of every record of a successful extraction has the shape above. */
  lemma ExtractedWordsWellFormed(page: Page)
    requires ExtractLevels(page).Success?
    ensures forall e | e in ExtractLevels(page).value ::
      && (forall w | w in e.mainWords :: IsMainWord(w))
      && (forall w | w in e.bonusWords :: IsBonusWord(w))
  {
    var es := ExtractLevels(page).value;
    EntriesFollowHeadings(page);
    var idx := LevelHeadings(page, 0);
    forall e | e in es
      ensures (forall w | w in e.mainWords :: IsMainWord(w)) && (forall w | w in e.bonusWords :: IsBonusWord(w))
    {
      var k :| 0 <= k < |es| && es[k] == e;
      HeadingWordsWellFormed(page, idx[k]);
    }
  }

  // ---------------------------------------------------------------------------
  // Which nodes feed the main words

  lemma {:induction false} TextNodesAppend(a: seq<Node>, b: seq<Node>)
    ensures TextNodes(a + b) == TextNodes(a) + TextNodes(b)
    decreases |a|
  {
    if a == [] {
      assert a + b == b;
    } else {
      assert (a + b)[0] == a[0];
      assert (a + b)[1..] == a[1..] + b;
      TextNodesAppend(a[1..], b);
    }
  }

  /** A <br>, <span>, <strong> or other element after <strong> adds nothing to the main words. */
  lemma NonTextNodesIgnored(a: seq<Node>, x: Node, b: seq<Node>)
    requires !x.TextNode?
    ensures TextNodes(a + [x] + b) == TextNodes(a + b)
    ensures MainWords(TextNodes(a + [x] + b)) == MainWords(TextNodes(a + b))
  {
    TextNodesAppend(a + [x], b);
    TextNodesAppend(a, [x]);
    TextNodesAppend(a, b);
    assert TextNodes([x]) == [];
  }
}
