/** The line formatter of index.js (`formatOutput`): the generated text is split
    into lines, each line is styled by the first rule that matches it, and the
    styled lines are joined again. The terminal-colouring library is a
    parameter `paint`: it is handed one of the five styles the formatter uses
    and the text to colour, and its escape codes are not modelled. */
module Formatter {
  import opened Strings

  /** The five colour chains the formatter applies (bold cyan, gray, green,
      yellow, white). */
  datatype Style = BoldCyan | Gray | Green | Yellow | White

  /** The rule that matched a line and the text it styles. `KeyValue` keeps the
      first two pieces of the line split at ':' and nothing else. */
  datatype StyledLine =
    | Heading(text: string)
    | Fence(text: string)
    | Item(text: string)
    | KeyValue(key: string, value: string)
    | Plain(text: string)

  const HeadingMarker: string := "## "
  const FenceMarker: string := "```"
  const ItemMarker: string := "- "

  /** A colouring that adds no line breaks to text that has none. */
  ghost predicate NewlineFree(paint: (Style, string) -> string)
  {
    forall style, text :: '\n' !in text ==> '\n' !in paint(style, text)
  }

  /** The colouring with colours switched off: the text unchanged. */
  function NoColor(style: Style, text: string): string
  {
    text
  }

  /** The one line shape that loses text: a key/value line (no earlier rule
      matches) with a second ':' in it. */
  predicate DropsText(line: string)
  {
    && !StartsWith(line, HeadingMarker)
    && !StartsWith(line, FenceMarker)
    && !StartsWith(line, ItemMarker)
    && multiset(line)[':'] >= 2
  }

  /** The key and value a key/value line is cut into: the text before the
      first ':' and the text between it and the next ':' (or the end). */
  lemma KeyValuePieces(line: string)
    requires ':' in line
    ensures var pieces := Split(line, ':');
      && |pieces| >= 2
      && ':' !in pieces[0] && ':' !in pieces[1]
      && pieces[0] + ":" + pieces[1] <= line
      && (pieces[0] + ":" + pieces[1] == line <==> multiset(line)[':'] == 1)
      && (multiset(line)[':'] >= 2 ==> line[|pieces[0]| + 1 + |pieces[1]|] == ':')
  {
    var pieces := Split(line, ':');
    SplitCount(line, ':');
    JoinSplit(line, ':');
    JoinFirstTwo(pieces, ':');
    var head := pieces[0] + ":" + pieces[1];
    if |pieces| > 2 {
      var tail := [':'] + Join(pieces[2..], ':');
      assert line == head + tail;
      assert line[|head|] == ':';
      assert |line| > |head|;
    } else {
      assert line == head + "";
    }
  }

  /** The style of one line: the first of heading, fence, list item,
      key/value and plain that matches. Every rule but key/value keeps the line
      whole; key/value keeps the text before the first ':' and the text up to
      the second ':', and drops the rest. */
  function ClassifyLine(line: string): (r: StyledLine)
    ensures !r.KeyValue? ==> r.text == line
    ensures r.KeyValue? ==> ':' !in r.key && ':' !in r.value
    ensures r.KeyValue? ==> r.key + ":" + r.value <= line
    ensures r.KeyValue? ==> (r.key + ":" + r.value == line <==> multiset(line)[':'] == 1)
    ensures r.KeyValue? && multiset(line)[':'] >= 2 ==> line[|r.key| + 1 + |r.value|] == ':'
  {
    if StartsWith(line, HeadingMarker) then Heading(line)
    else if StartsWith(line, FenceMarker) then Fence(line)
    else if StartsWith(line, ItemMarker) then Item(line)
    else if ':' in line then
      var pieces := Split(line, ':');
      KeyValuePieces(line);
      KeyValue(pieces[0], pieces[1])
    else Plain(line)
  }

  /** What one styled line prints: the whole line in its rule's colour, or the
      key in yellow, a plain ':' and the value in white. */
  function RenderLine(styled: StyledLine, paint: (Style, string) -> string): string
  {
    match styled
    case Heading(text) => paint(BoldCyan, text)
    case Fence(text) => paint(Gray, text)
    case Item(text) => paint(Green, text)
    case KeyValue(key, value) => paint(Yellow, key) + ":" + paint(White, value)
    case Plain(text) => paint(White, text)
  }

  /** The style of every line of `output`, in order. */
  function Classify(output: string): (styled: seq<StyledLine>)
    ensures |styled| == multiset(output)['\n'] + 1
  {
    var lines := Split(output, '\n');
    SplitCount(output, '\n');
    seq(|lines|, i requires 0 <= i < |lines| => ClassifyLine(lines[i]))
  }

  /** The formatted lines before they are joined. */
  function FormattedLines(output: string, paint: (Style, string) -> string): seq<string>
  {
    var styled := Classify(output);
    seq(|styled|, i requires 0 <= i < |styled| => RenderLine(styled[i], paint))
  }

  /** `formatOutput(output)`: every line styled, joined again with "\n". */
  function FormatOutput(output: string, paint: (Style, string) -> string): string
  {
    Join(FormattedLines(output, paint), '\n')
  }

  /** The three prefix rules never compete: no line starts with two of the
      markers, so the order among them does not matter; only the key/value
      rule is shadowed by them. */
  lemma RulePriority(line: string)
    ensures ClassifyLine(line).Heading? <==> StartsWith(line, HeadingMarker)
    ensures ClassifyLine(line).Fence? <==> StartsWith(line, FenceMarker)
    ensures ClassifyLine(line).Item? <==> StartsWith(line, ItemMarker)
    ensures ClassifyLine(line).KeyValue? <==>
      && !StartsWith(line, HeadingMarker)
      && !StartsWith(line, FenceMarker)
      && !StartsWith(line, ItemMarker)
      && ':' in line
    ensures ClassifyLine(line).Plain? <==>
      && !StartsWith(line, HeadingMarker)
      && !StartsWith(line, FenceMarker)
      && !StartsWith(line, ItemMarker)
      && ':' !in line
  {
    if StartsWith(line, FenceMarker) || StartsWith(line, ItemMarker) {
      assert line[0] == FenceMarker[0] || line[0] == ItemMarker[0];
      assert !StartsWith(line, HeadingMarker);
    }
    if StartsWith(line, ItemMarker) {
      assert line[0] == ItemMarker[0];
      assert !StartsWith(line, FenceMarker);
    }
  }

  /** A heading that holds a ':' stays a heading, and so does a list item. */
  lemma PriorityExamples()
    ensures ClassifyLine("## a:b") == Heading("## a:b")
    ensures ClassifyLine("- k: v") == Item("- k: v")
  {
    assert "- k: v"[0] != HeadingMarker[0] && "- k: v"[0] != FenceMarker[0];
  }

  /** The converse of the key/value contract of ClassifyLine: a line that no
      prefix rule takes, cut as key ':' value followed by nothing or by a
      second ':', is styled as that key and that value, and whatever follows
      the second ':' is lost. */
  lemma KeyValueCut(key: string, value: string, rest: string)
    requires ':' !in key && ':' !in value
    requires rest == [] || rest[0] == ':'
    requires !StartsWith(key + ":" + value + rest, HeadingMarker)
    requires !StartsWith(key + ":" + value + rest, FenceMarker)
    requires !StartsWith(key + ":" + value + rest, ItemMarker)
    ensures ClassifyLine(key + ":" + value + rest) == KeyValue(key, value)
    ensures RenderLine(ClassifyLine(key + ":" + value + rest), NoColor) == key + ":" + value
  {
    var line := key + ":" + value + rest;
    assert line[|key|] == ':';
    SplitFirstTwo(key, value, rest, ':');
  }

  /** A ':' right after the key keeps every marker (none holds a ':') from
      reaching past the key: the line starts with a marker exactly when the key
      does. */
  lemma MarkerBeforeColon(key: string, rest: string, marker: string)
    requires ':' !in marker
    ensures StartsWith(key + ":" + rest, marker) <==> StartsWith(key, marker)
  {
    var line := key + ":" + rest;
    if |key| < |marker| {
      assert line[|key|] == ':';
    } else {
      assert line[..|marker|] == key[..|marker|];
    }
  }

  /** Without colours a line prints as a prefix of itself, and as the whole
      line exactly when it does not lose text after a second ':'. */
  lemma VisibleLine(line: string)
    ensures RenderLine(ClassifyLine(line), NoColor) <= line
    ensures RenderLine(ClassifyLine(line), NoColor) == line <==> !DropsText(line)
  {
    var r := ClassifyLine(line);
    if r.KeyValue? {
      assert ':' in line;
      assert multiset(line)[':'] >= 1;
    }
  }

  /** A rendered line has no line break when the line and the colouring have
      none. */
  lemma RenderedLineNewlineFree(line: string, paint: (Style, string) -> string)
    requires NewlineFree(paint)
    requires '\n' !in line
    ensures '\n' !in RenderLine(ClassifyLine(line), paint)
  {
    var r := ClassifyLine(line);
    if r.KeyValue? {
      var head := r.key + ":" + r.value;
      assert head <= line;
      assert '\n' !in r.key by {
        forall k | 0 <= k < |r.key| ensures r.key[k] != '\n' {
          assert r.key[k] == head[k] == line[k];
        }
      }
      assert '\n' !in r.value by {
        forall k | 0 <= k < |r.value| ensures r.value[k] != '\n' {
          assert r.value[k] == head[|r.key| + 1 + k] == line[|r.key| + 1 + k];
        }
      }
    }
  }

  /** The output has exactly one line per input line, in the same order, and
      line i of the output is line i of the input, styled. */
  lemma FormatOutputLines(output: string, paint: (Style, string) -> string)
    requires NewlineFree(paint)
    ensures var lines := Split(output, '\n');
      var printed := Split(FormatOutput(output, paint), '\n');
      && |printed| == |lines|
      && forall i :: 0 <= i < |lines| ==> printed[i] == RenderLine(ClassifyLine(lines[i]), paint)
  {
    var lines := Split(output, '\n');
    var formatted := FormattedLines(output, paint);
    forall i | 0 <= i < |formatted| ensures '\n' !in formatted[i] {
      RenderedLineNewlineFree(lines[i], paint);
    }
    SplitJoin(formatted, '\n');
  }

  /** With colours switched off, the output is the input exactly when no line
      loses text after a second ':'. */
  lemma UncoloredRoundTrip(output: string)
    ensures FormatOutput(output, NoColor) == output <==>
      forall i :: 0 <= i < |Split(output, '\n')| ==> !DropsText(Split(output, '\n')[i])
  {
    var lines := Split(output, '\n');
    var formatted := FormattedLines(output, NoColor);
    assert NewlineFree(NoColor);
    FormatOutputLines(output, NoColor);
    if forall i :: 0 <= i < |lines| ==> !DropsText(lines[i]) {
      forall i | 0 <= i < |lines| ensures formatted[i] == lines[i] {
        VisibleLine(lines[i]);
      }
      assert formatted == lines;
      JoinSplit(output, '\n');
    }
    if FormatOutput(output, NoColor) == output {
      forall i | 0 <= i < |lines| ensures !DropsText(lines[i]) {
        VisibleLine(lines[i]);
      }
    }
  }

  /** Each line is styled on its own: styling two texts joined by a line break
      is styling each of them and joining the results. */
  lemma ClassifyConcat(a: string, b: string)
    ensures Classify(a + "\n" + b) == Classify(a) + Classify(b)
  {
    SplitAppend(a, b, '\n');
  }

  /** The same locality for the printed text. */
  lemma FormatOutputConcat(a: string, b: string, paint: (Style, string) -> string)
    ensures FormatOutput(a + "\n" + b, paint) == FormatOutput(a, paint) + "\n" + FormatOutput(b, paint)
  {
    ClassifyConcat(a, b);
    var sa, sb := Classify(a), Classify(b);
    var fa, fb := FormattedLines(a, paint), FormattedLines(b, paint);
    var fab := FormattedLines(a + "\n" + b, paint);
    assert |fab| == |fa| + |fb|;
    forall i | 0 <= i < |fab| ensures fab[i] == (fa + fb)[i] {
      if i < |fa| {
        assert Classify(a + "\n" + b)[i] == sa[i];
      } else {
        assert Classify(a + "\n" + b)[i] == sb[i - |fa|];
      }
    }
    assert fab == fa + fb;
    JoinAppend(fa, fb, '\n');
  }

  /** A line is styled as a code fence exactly when it starts with the fence
      marker itself: nothing is carried from one line to the next, so the
      lines between two fences are styled by their own text. */
  lemma FenceOnlyByMarker(output: string, i: nat)
    requires i < |Split(output, '\n')|
    ensures Classify(output)[i].Fence? <==> StartsWith(Split(output, '\n')[i], FenceMarker)
  {
    RulePriority(Split(output, '\n')[i]);
  }

  /** A line that starts with none of the markers and holds no ':'. */
  predicate PlainText(line: string)
  {
    !StartsWith(line, HeadingMarker) && !StartsWith(line, FenceMarker) &&
    !StartsWith(line, ItemMarker) && ':' !in line
  }

  /** A line with a single ':' whose key starts with no marker is cut into
      that key and that value, and keeps all of its text. */
  lemma KeyValueLine(key: string, value: string)
    requires PlainText(key) && ':' !in value
    ensures ClassifyLine(key + ":" + value) == KeyValue(key, value)
    ensures RenderLine(ClassifyLine(key + ":" + value), NoColor) == key + ":" + value
  {
    MarkerBeforeColon(key, value, HeadingMarker);
    MarkerBeforeColon(key, value, FenceMarker);
    MarkerBeforeColon(key, value, ItemMarker);
    assert key + ":" + value + "" == key + ":" + value;
    KeyValueCut(key, value, "");
  }

  /** Seven lines are styled one by one. */
  lemma ClassifySeven(a: string, b: string, c: string, d: string, e: string, f: string, g: string)
    requires '\n' !in a && '\n' !in b && '\n' !in c && '\n' !in d
    requires '\n' !in e && '\n' !in f && '\n' !in g
    ensures Classify(a + "\n" + b + "\n" + c + "\n" + d + "\n" + e + "\n" + f + "\n" + g) ==
      [ClassifyLine(a), ClassifyLine(b), ClassifyLine(c), ClassifyLine(d), ClassifyLine(e),
       ClassifyLine(f), ClassifyLine(g)]
  {
    SplitSeven(a, b, c, d, e, f, g, '\n');
    ClassifyLinesOf(a + "\n" + b + "\n" + c + "\n" + d + "\n" + e + "\n" + f + "\n" + g,
                    a, b, c, d, e, f, g);
  }

  /** A text whose lines are the seven given ones is styled line by line. */
  lemma ClassifyLinesOf(doc: string, a: string, b: string, c: string, d: string, e: string,
                        f: string, g: string)
    requires Split(doc, '\n') == [a, b, c, d, e, f, g]
    ensures Classify(doc) ==
      [ClassifyLine(a), ClassifyLine(b), ClassifyLine(c), ClassifyLine(d), ClassifyLine(e),
       ClassifyLine(f), ClassifyLine(g)]
  {
  }

  /** A document with a heading, a list item, a key/value line, a fenced block
      and a plain line: each line is styled by its own rule. In particular the
      line inside the fenced block is plain, because no fence state is carried
      from line to line. */
  lemma SampleDocument(heading: string, item: string, key: string, value: string,
                       open: string, code: string, close: string, plain: string)
    requires '\n' !in heading && '\n' !in item && '\n' !in key && '\n' !in value
    requires '\n' !in open && '\n' !in code && '\n' !in close && '\n' !in plain
    requires StartsWith(heading, HeadingMarker)
    requires StartsWith(item, ItemMarker)
    requires PlainText(key) && ':' !in value
    requires StartsWith(open, FenceMarker) && StartsWith(close, FenceMarker)
    requires PlainText(code) && PlainText(plain)
    ensures Classify(heading + "\n" + item + "\n" + (key + ":" + value) + "\n" + open + "\n" +
                     code + "\n" + close + "\n" + plain) ==
      [Heading(heading), Item(item), KeyValue(key, value), Fence(open), Plain(code),
       Fence(close), Plain(plain)]
  {
    var keyValue := key + ":" + value;
    assert '\n' !in keyValue;
    ClassifySeven(heading, item, keyValue, open, code, close, plain);
    assert ClassifyLine(item) == Item(item) by { RulePriority(item); }
    assert ClassifyLine(open) == Fence(open) by { RulePriority(open); }
    assert ClassifyLine(close) == Fence(close) by { RulePriority(close); }
    assert ClassifyLine(code) == Plain(code) by { RulePriority(code); }
    assert ClassifyLine(plain) == Plain(plain) by { RulePriority(plain); }
    assert ClassifyLine(keyValue) == KeyValue(key, value) by { KeyValueLine(key, value); }
  }
}
