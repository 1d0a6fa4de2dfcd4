# Neovim config generator: line formatter and prompt builder

The repository is a command-line wizard. It asks which Neovim plugins,
Treesitter servers and colour schemes the user wants. It builds an
instruction text from the answers and sends it to a text-generation service.
It then prints the reply with terminal colours chosen line by line.

This Dafny project models the two pure parts of `index.js`:

- **The line formatter** (`formatOutput`, module `Formatter`). The reply is
  split at line breaks. Each line gets the style of the first rule that
  matches it: a line starting with `## ` is a heading, one starting with three
  backticks is a code fence, one starting with `- ` is a list item, one
  holding a `:` is a key/value line, and any other line is plain. The styled
  lines are joined with line breaks again. The colouring library is a
  parameter `paint` that receives one of the five colour chains the formatter
  uses and the text to colour. `NoColor` is that library with colours
  switched off, which returns the text unchanged.
- **The key/value rule as written.** `const [key, value] = line.split(":")`
  keeps only the first two pieces. With two or more colons, the value ends at
  the second colon and everything from that colon on is dropped from the
  output (`"Time: 12:30"` prints as `"Time: 12"`). The model reproduces this
  and proves exactly when it happens: the uncoloured output equals the input
  iff no key/value line has a second colon.
- **The prompt builder** (module `Prompt`). The answer record holds the
  plugin list, the Treesitter yes/no answer and its server list, and the
  colour-scheme yes/no answer and its theme list. A list is `undefined`
  (`None`) unless its answer was yes. The template literal prints arrays with
  `Array.prototype.toString`, which joins with `,`. After a no, the segment is
  the empty string and both `"; "` separators remain. `ReadPrompt` reads a
  prompt back. `ReadBuildPrompt` proves that it recovers the plugin text and
  exactly those segments whose answer was yes.
- **JavaScript string built-ins** (module `Strings`): `split` and `join` on
  one character, and `startsWith`, with their round-trip laws.

A description of the key/value rule as "split at the first colon, the rest is
the value" disagrees with the code, which drops the text after the second
colon; the model follows the code.

## Model

| member | source | states |
|---|---|---|
| Strings.Split | index.js:7 | `split` on one character gives at least one piece, and no piece holds the separator |
| Strings.JoinSplit | index.js:30 | joining the pieces of a split with the same separator gives the text back |
| Strings.SplitJoin | index.js:7 | splitting a join of separator-free parts gives the parts back |
| Strings.SplitCount | index.js:7 | a text splits into one more piece than it has separators |
| Strings.SplitAppend | index.js:7 | splitting `a + sep + b` gives the pieces of `a` followed by the pieces of `b` |
| Strings.JoinAppend | index.js:30 | joining two non-empty lists is joining each with one separator between |
| Strings.SplitFirstTwo | index.js:23 | the first two pieces of `a:b` or `a:b:…` are `a` and `b` when neither holds a colon |
| Formatter.ClassifyLine | index.js:9-28 | only key/value lines change text; key and value hold no colon; `key:value` is a prefix of the line, equal to it iff the line has one colon, and followed by the second colon otherwise |
| Formatter.KeyValuePieces | index.js:22-24 | a line with a colon splits into at least two pieces; the first two are the text before the first colon and the text up to the next colon or the end |
| Formatter.RulePriority | index.js:10-27 | heading, fence and item are decided by their prefixes alone (no line has two of them); key/value iff no prefix and a colon; plain iff neither |
| Formatter.PriorityExamples | index.js:10-20 | `## a:b` is a heading and `- k: v` a list item, not key/value lines |
| Formatter.KeyValueCut | index.js:22-24 | a line `key:value` followed by nothing or by a second colon is styled as that key and that value, and prints without what follows the second colon |
| Formatter.KeyValueLine | index.js:22-24 | a line with one colon and no marker prefix splits into key and value and keeps all its text |
| Formatter.MarkerBeforeColon | index.js:10-22 | a key/value line starts with a marker exactly when its key does |
| Formatter.VisibleLine | index.js:9-28 | uncoloured, a line prints as a prefix of itself, and as the whole line iff it is not a key/value line with two colons |
| Formatter.Classify | index.js:7-9 | a text has one styled line per line break plus one |
| Formatter.FormatOutputLines | index.js:6-31 | for a colouring that adds no line breaks, the output has as many lines as the input, in the same order, line i being input line i styled |
| Formatter.UncoloredRoundTrip | index.js:6-31 | uncoloured output equals the input iff no line is a key/value line with a second colon |
| Formatter.ClassifyConcat | index.js:7-28 | styling two texts joined by a line break styles each and concatenates: no state passes between lines |
| Formatter.FormatOutputConcat | index.js:6-31 | formatting two texts joined by a line break is formatting each and joining with a line break |
| Formatter.FenceOnlyByMarker | index.js:14-16 | a line is a fence iff it starts with three backticks, so lines between two fences are styled by their own text |
| Formatter.SampleDocument | index.js:9-28 | heading, item, key/value, fence, code, fence, plain lines are styled in that order as those rules, the code line as plain |
| Prompt.CollectAnswers | index.js:130-170 | the server list is present iff Treesitter was answered yes and the theme list iff colour scheme was yes, holding the picks |
| Prompt.UnframeFrame | index.js:182-195 | the fixed template text around the interpolations can be stripped off exactly |
| Prompt.FieldsSplit | index.js:190-192 | the interpolated part is the plugin text, then each segment after `"; "`, both separators kept |
| Prompt.ReadBuildPrompt | index.js:181-195 | reading the prompt back gives the plugin list joined with `,` and, per yes/no answer, its list's text after yes and no segment after no |
| Prompt.SegmentsFollowGates | index.js:134-192 | for a wizard record the server segment is there iff Treesitter was yes and the theme segment iff colour scheme was yes, each listing the chosen entries |
| Prompt.UnaskedListsIgnored | index.js:190-192 | after a no, the prompt does not depend on the list that was not asked for |

## Left out

- The terminal colour codes: colouring is the parameter `paint`. Its escape codes and its handling of line breaks inside a coloured text are not modelled; `FormatOutputLines` assumes a colouring that adds no line breaks.
- The wizard's terminal questions (`p.group`, `p.multiselect`, `p.confirm`, intro and outro): what the user picks is a parameter of `CollectAnswers`. A multiselect that requires at least one choice is not modelled, so every list may be empty.
- Cancelling the wizard (`p.cancel` and `process.exit(0)`): process control.
- `sendRequest`: the spinner, the call to the text-generation service with its fixed model name, the `try`/`catch` and `console.log` are network and terminal I/O.
- Loading the API key from the environment (`dotenv`).
- The option catalogs (plugin, server and theme values and labels): static data. `ReadBuildPrompt` needs list entries without `;`, which every catalog value meets.
- Strings are sequences of `char`; JavaScript's UTF-16 code units are not distinguished from characters.
