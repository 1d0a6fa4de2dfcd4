/** The answer record that the setup wizard of index.js collects, and the
    instruction text it builds from that record for the text-generation
    service. The terminal questions themselves are not modelled: what the user
    picks is a parameter. */
module Prompt {
  import opened Strings

  datatype Option<T> = None | Some(value: T)

  /** The record `group`: the chosen plugins, the two yes/no answers and the
      two lists asked for only after a yes (`undefined` is `None`). */
  datatype Answers = Answers(
    plugin: seq<string>,
    treesitter: bool,
    tsServers: Option<seq<string>>,
    colorschema: bool,
    themes: Option<seq<string>>)

  /** A follow-up list is present exactly when its yes/no answer was yes. */
  predicate Gated(a: Answers)
  {
    && (a.tsServers.Some? <==> a.treesitter)
    && (a.themes.Some? <==> a.colorschema)
  }

  /** The record the wizard produces from the user's choices. The server and
      theme pickers run only after a yes; after a no the field is left
      `undefined`, whatever the picker would have returned. */
  function CollectAnswers(plugin: seq<string>, treesitter: bool, serverPick: seq<string>,
                          colorschema: bool, themePick: seq<string>): (a: Answers)
    ensures Gated(a)
    ensures a.plugin == plugin && a.treesitter == treesitter && a.colorschema == colorschema
    ensures treesitter ==> a.tsServers == Some(serverPick)
    ensures colorschema ==> a.themes == Some(themePick)
  {
    Answers(
      plugin,
      treesitter,
      if treesitter then Some(serverPick) else None,
      colorschema,
      if colorschema then Some(themePick) else None)
  }

  /** How a template literal prints an array of strings or `undefined`: the
      array's `toString`, which joins with ",". */
  function Interpolate(v: Option<seq<string>>): string
  {
    match v
    case None => "undefined"
    case Some(items) => Join(items, ',')
  }

  /** The fixed text before the plugin list. */
  const Preamble: string :=
    "You are a master at crafting Neovim configurations. \n" +
    "      Create a Neovim setup from scratch using the following requirements:\n" +
    "      - Folder structure:\n" +
    "        1. init.lua (only require files like config.lazy and config.keymap)\n" +
    "        2. lua/config/ (directory for configuration files)\n" +
    "           - keymap.lua (key mappings)\n" +
    "           - lazy.lua (Bootstrap lazy.nvim and Setup lazy.nvim)\n" +
    "        3. plugin/init.lua (return all of the plugins)\n" +
    "      - Use Lazy.nvim as the plugin manager. Plugins: "

  /** The fixed text after the theme segment. */
  const Closing: string :=
    " \n" +
    "        - Do not reference or rely on any previous context or history. Generate a fresh configuration.\n" +
    "      - Format the output in Markdown-like styling for better readability.\n" +
    "    "

  const TreesitterLabel: string := "Treesitter servers: "
  const ColorschemaLabel: string := "Colorschema: "

  /** The segment between the first and second "; ": the server list after a
      yes, the empty string after a no. */
  function TreesitterSegment(a: Answers): string
  {
    if a.treesitter then TreesitterLabel + Interpolate(a.tsServers) else ""
  }

  /** The segment after the second "; ": the theme list after a yes, the empty
      string after a no. */
  function ColorschemaSegment(a: Answers): string
  {
    if a.colorschema then ColorschemaLabel + Interpolate(a.themes) else ""
  }

  /** The template literal passed to `sendRequest`. Both "; " separators stay
      whether or not their segment is empty. */
  function BuildPrompt(a: Answers): string
  {
    Preamble + Fields(a) + Closing
  }

  /** The interpolated part of the template: the plugin list, "; ", the server
      segment, "; ", the theme segment. */
  function Fields(a: Answers): string
  {
    Join(a.plugin, ',') + "; " + TreesitterSegment(a) + "; " + ColorschemaSegment(a)
  }

  /** What a prompt says about the answers: the plugin text, and the server
      and theme texts when their segment is there. */
  datatype PromptView = PromptView(plugins: string, tsServers: Option<string>, themes: Option<string>)

  /** What BuildPrompt is meant to carry over from the record. */
  function View(a: Answers): PromptView
  {
    PromptView(
      Join(a.plugin, ','),
      if a.treesitter then Some(Interpolate(a.tsServers)) else None,
      if a.colorschema then Some(Interpolate(a.themes)) else None)
  }

  /** Reads one segment back: " " alone is an empty segment, " " followed by
      the tag is a present one. */
  function ReadSegment(field: string, tag: string): Option<Option<string>>
  {
    if field == " " then Some(None)
    else if StartsWith(field, " " + tag) then Some(Some(field[|tag| + 1..]))
    else None
  }

  /** The text between the fixed preamble and the fixed closing, if the
      prompt has them. */
  function Unframe(prompt: string): Option<string>
  {
    if |prompt| < |Preamble| + |Closing| || !StartsWith(prompt, Preamble)
       || prompt[|prompt| - |Closing|..] != Closing
    then None
    else Some(prompt[|Preamble|..|prompt| - |Closing|])
  }

  /** Reads the variable part of a prompt: the plugin text, then the server
      and theme segments, separated by ';'. */
  function ReadFields(middle: string): Option<PromptView>
  {
    var fields := Split(middle, ';');
    if |fields| != 3 then None
    else
      match (ReadSegment(fields[1], TreesitterLabel), ReadSegment(fields[2], ColorschemaLabel))
      case (Some(servers), Some(themes)) => Some(PromptView(fields[0], servers, themes))
      case _ => None
  }

  /** Reads a prompt back into what it says, or None if it does not have the
      template's shape. */
  function ReadPrompt(prompt: string): Option<PromptView>
  {
    match Unframe(prompt)
    case None => None
    case Some(middle) => ReadFields(middle)
  }

  /** No entry of a list holds a ';'. */
  predicate NoSemicolon(items: seq<string>)
  {
    forall i :: 0 <= i < |items| ==> ';' !in items[i]
  }

  /** The answers' lists hold no ';' (the wizard's catalogs do not). */
  predicate Readable(a: Answers)
  {
    && NoSemicolon(a.plugin)
    && (a.tsServers.Some? ==> NoSemicolon(a.tsServers.value))
    && (a.themes.Some? ==> NoSemicolon(a.themes.value))
  }

  /** A printed list holds no ';' when none of its entries does. */
  lemma InterpolateNoSemicolon(v: Option<seq<string>>)
    requires v.Some? ==> NoSemicolon(v.value)
    ensures ';' !in Interpolate(v)
  {
    if v.Some? {
      JoinAvoids(v.value, ',', ';');
    }
  }

  /** The fixed preamble and closing are stripped off again exactly. */
  lemma UnframeFrame(middle: string)
    ensures Unframe(Preamble + middle + Closing) == Some(middle)
  {
    var prompt := Preamble + middle + Closing;
    assert prompt[..|Preamble|] == Preamble;
    assert prompt[|prompt| - |Closing|..] == Closing;
    assert prompt[|Preamble|..|prompt| - |Closing|] == middle;
  }

  /** The interpolated part reads back as the View of the answers. */
  lemma ReadFieldsOf(a: Answers)
    requires Readable(a)
    ensures ReadFields(Fields(a)) == Some(View(a))
  {
    var servers, themes := TreesitterSegment(a), ColorschemaSegment(a);
    FieldsSplit(a);
    ReadSegmentOf(a.treesitter, TreesitterLabel, a.tsServers);
    ReadSegmentOf(a.colorschema, ColorschemaLabel, a.themes);
  }

  /** The interpolated part splits at ';' into the plugin text and the two
      segments, each after its " ". */
  lemma FieldsSplit(a: Answers)
    requires Readable(a)
    ensures Split(Fields(a), ';') ==
      [Join(a.plugin, ','), " " + TreesitterSegment(a), " " + ColorschemaSegment(a)]
  {
    JoinAvoids(a.plugin, ',', ';');
    SegmentNoSemicolon(a.treesitter, TreesitterLabel, a.tsServers);
    SegmentNoSemicolon(a.colorschema, ColorschemaLabel, a.themes);
    SplitSemicolonList(Join(a.plugin, ','), TreesitterSegment(a), ColorschemaSegment(a));
  }

  /** Three texts free of ';' joined by "; " split at ';' into the first
      and the other two, each after its " ". */
  lemma SplitSemicolonList(first: string, second: string, third: string)
    requires ';' !in first && ';' !in second && ';' !in third
    ensures Split(first + "; " + second + "; " + third, ';') == [first, " " + second, " " + third]
  {
    var b, c := " " + second, " " + third;
    assert "; " == [';'] + " ";
    assert first + "; " + second == first + [';'] + b;
    assert first + "; " + second + "; " + third == first + [';'] + b + [';'] + c;
    SplitThree(first, b, c, ';');
  }

  /** A segment holds no ';' when its tag and its list hold none. */
  lemma SegmentNoSemicolon(gate: bool, tag: string, v: Option<seq<string>>)
    requires ';' !in tag
    requires v.Some? ==> NoSemicolon(v.value)
    ensures ';' !in (if gate then tag + Interpolate(v) else "")
  {
    InterpolateNoSemicolon(v);
  }

  /** A segment reads back as its list's text after a yes and as absent
      after a no. */
  lemma ReadSegmentOf(gate: bool, tag: string, v: Option<seq<string>>)
    requires |tag| > 0
    ensures ReadSegment(" " + (if gate then tag + Interpolate(v) else ""), tag) ==
      Some(if gate then Some(Interpolate(v)) else None)
  {
    var field := " " + (if gate then tag + Interpolate(v) else "");
    if gate {
      assert field == " " + tag + Interpolate(v);
      assert field[..|tag| + 1] == " " + tag;
      assert field[|tag| + 1..] == Interpolate(v);
    } else {
      assert field == " ";
    }
  }

  /** The prompt carries exactly the plugin text and, for each yes/no answer,
      its list's text after a yes and nothing after a no: reading it back gives
      the View of the answers. */
  lemma ReadBuildPrompt(a: Answers)
    requires Readable(a)
    ensures ReadPrompt(BuildPrompt(a)) == Some(View(a))
  {
    UnframeFrame(Fields(a));
    ReadFieldsOf(a);
  }

  /** For a record the wizard produced, the server segment is there exactly
      when the yes/no answer was yes, and then it lists the chosen servers;
      likewise for the themes. The text "undefined" never reaches the prompt. */
  lemma SegmentsFollowGates(a: Answers)
    requires Gated(a) && Readable(a)
    ensures var view := ReadPrompt(BuildPrompt(a));
      && view.Some?
      && (view.value.tsServers.Some? <==> a.treesitter)
      && (view.value.themes.Some? <==> a.colorschema)
      && (a.treesitter ==> view.value.tsServers.value == Join(a.tsServers.value, ','))
      && (a.colorschema ==> view.value.themes.value == Join(a.themes.value, ','))
  {
    ReadBuildPrompt(a);
  }

  /** After a no, the prompt does not depend on the list that was not asked
      for. */
  lemma UnaskedListsIgnored(a: Answers, servers: Option<seq<string>>, themes: Option<seq<string>>)
    ensures !a.treesitter ==> BuildPrompt(a.(tsServers := servers)) == BuildPrompt(a)
    ensures !a.colorschema ==> BuildPrompt(a.(themes := themes)) == BuildPrompt(a)
  {
  }
}
