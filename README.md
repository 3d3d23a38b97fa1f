# Z-Image Power Nodes: prompt styles and image metadata

This project models the core of the ComfyUI-ZImagePowerNodes extension:
- the style registries that turn a user prompt into a styled prompt;
- the nodes that apply those styles;
- the code that walks a ComfyUI prompt graph to recover the generation parameters and writes CivitAI-compatible metadata nodes into it;
- the progress bar that forwards the sampler's progress;
- the front-end script that remembers the chosen style per category;
- the registration of the node classes.

**Style templates and registries.** A style is a template. The template holds a prompt placeholder and, optionally, a "spicy" placeholder. The prompt placeholder is replaced by the user's prompt. The spicy placeholder is filled with a fixed text only when the booster is on. Afterwards each double space becomes a single space, in one left-to-right pass (`StyleTemplate`).

Styles are read from a configuration text: a `>>>` line opens a style, and `{#`, `>::` and a leading `#!` line open other sections (`StyleConfig`). There are three generations of registry, and all three are modelled:
- the case-insensitive `StyleGroup` of `nodes/lib` (`LibStyleGroup`);
- the case-sensitive `StyleGroup` of `nodes/styles` (`StylesStyleGroup`);
- `Styles` of `nodes/styles/base.py` (`StylesBase`).

The last two share a table model (`OrderedStyles`). The registries are classes whose methods update their fields; each method is proved against a function on the registry's value. That function keeps the registry's invariant, and lemmas state its properties: round trips, lookups after updates, and the order of names.

**Nodes.**
- The style prompt encoder and the style string injector pick a style by category and name, or take a custom style when that is enabled. They then apply it (`StylePromptEncoder`, `StyleStringInjector`).
- The photo and illustration encoders apply one of their own styles (`PhotoStylePromptEncoder`, `IllustrationStylePromptEncoder`). The two nodes are the same code over different style tables, so the illustration node reuses the photo module's operations.
- The server lists style names by category (`Server`).

**Image metadata.** The image saver does the following (`SaveImage`, `SaveImageNodes`):
- finds the first sampler of the graph and follows its wires to the prompts (`NodeHelpers`);
- collects parameters from the user's parameter nodes;
- merges everything with the values found on the sampler;
- appends a fixed block of CivitAI-style nodes under fresh numeric ids;
- fills in the new nodes' inputs.

**Progress, selector and registration.**
- `ProgressBar` models a bar that scales its position into a parent range, and `ProgressPreview`, the same mapping for a latent-preview callback.
- `StyleCategorySelector` models the front-end widget logic.
- `Register` models how each node class gets its category, id and title.

**Conventions.**
- Python exceptions are `Err(...)` values of `Wrappers.Result`.
- Prompt-graph values are the `Json` datatype.
- A Python `dict` with insertion order is `PyDict.Dict`.

The node reading a class name uses the `class` entry of a node, as `nodes/core/node_helpers.py:24-28` does. Prompt graphs elsewhere name this entry `class_type`. The model follows the code (see `NodeHelpers.GetClassType`).

## Model

| member | source | states |
|---|---|---|
| Quoting.Unquote | nodes/lib/style_group.py:150-152 | a name wrapped in one pair of matching quotes loses exactly the two quote characters (a lone quote gives the empty name); any other name is returned unchanged |
| Quoting.UnquoteQuoted | nodes/styles/style_group.py:113-115 | a name wrapped in `'` or `"` unquotes back to the name itself |
| Quoting.Mark | nodes/lib/style_group.py:193-197 | names are quoted only with a non-empty mark: `quoted=False` and `quoted=""` both return bare names |
| Quoting.QuoteAll | nodes/styles/style_group.py:143-147 | the quoted names keep the number and order of the names, each wrapped in the mark |
| Json.Get | nodes/core/node_helpers.py:48-50 | reading an input from something that is not a dict gives `None` |
| Json.NodeAt | nodes/save_image.py:287-288 | a node id absent from the graph gives `None` |
| Text.ReplaceAllIsJoinSplit | nodes/lib/style_group.py:134-136 | `str.replace` of all occurrences equals splitting at the pattern and joining with the replacement |
| Text.SplitLinesIsSplit | nodes/lib/style_group.py:84 | `splitlines` of a text whose only line breaks are `\n`, and that does not end with one, is splitting at `\n` |
| Text.IReplaceLiteral | nodes/core/helpers.py:32-33 | the case-insensitive replacement of a pattern without letters is the plain replacement of all occurrences |
| Text.NatToStringRoundTrip | nodes/core/helpers.py:91-96 | the decimal digits of `str(n)` read back as `n` |
| Text.ParseIntRoundTrip | nodes/core/node_helpers.py:51-55 | `int(str(i))` is `i` for every integer, negative ones included |
| Text.ParseFloatOfInt | nodes/core/node_helpers.py:79-83 | `float(str(i))` is `i` as a real |
| Text.Trunc | nodes/lib/progress_bar.py:122-123 | `int(x)` truncates toward zero: the result has the sign of `x` and is less than one away from it |
| StyleTemplate.ApplyBySplitJoin | nodes/lib/style_group.py:129-137 | the three substitutions are split/join passes: spicy placeholder, then prompt placeholder, then double spaces |
| StyleTemplate.PromptNotReexpanded | nodes/styles/style_group.py:31-37 | the prompt is inserted after the spicy pass, so a template that is only the prompt placeholder yields the prompt with its double spaces halved, and no placeholder inside the prompt is expanded |
| StyleTemplate.SpicyInPromptSurvives | nodes/styles/base.py:18-24 | a prompt holding the spicy placeholder keeps it, even with the booster on |
| StyleTemplate.BoosterIrrelevantWithoutPlaceholder | nodes/lib/style_group.py:129-135 | without the spicy placeholder in the template, the booster does not change the result |
| StyleTemplate.PlainTemplateUnchanged | nodes/lib/style_group.py:129-137 | a template with no placeholder and no double space comes back unchanged |
| StyleTemplate.DoubleSpaceSinglePass | nodes/lib/style_group.py:136-137 | the double-space fix is one pass: three spaces become two |
| StyleTemplate.NestedSpicySurvives | nodes/lib/style_group.py:133-134 | a spicy placeholder nested in another survives its removal with the booster off |
| StyleTemplate.Apply | nodes/lib/style_group.py:112-137 | the three substitutions of `apply_style_template`, in source order; `ApplyBySplitJoin`, `PromptNotReexpanded`, `SpicyInPromptSurvives`, `DoubleSpaceSinglePass` and `NestedSpicySurvives` state what they do to a prompt |
| StyleConfig.Pending | nodes/lib/style_group.py:95-97 | closing the pending action emits at most one style, and one exactly when that action is a `>>>` line |
| StyleConfig.ScanLines | nodes/lib/style_group.py:84-102 | the parser is still on its first line exactly when no line has been read |
| StyleConfig.ScanBlocks | nodes/lib/style_group.py:79-109 | the parser loop returns exactly the styles that the specification function `Blocks` defines for the text |
| StyleConfig.Preamble | nodes/lib/style_group.py:85-102 | lines before the first marker emit nothing and leave no action pending |
| StyleConfig.Chunk | nodes/lib/style_group.py:86-102 | a marker followed by body lines closes the previous action and collects the body, right-stripped and newline-terminated |
| StyleConfig.SingleStyle | nodes/styles/base.py:57-77 | a text that declares one style emits nothing before the final flush, and with the flush it emits that style with its name and template stripped |
| StyleConfig.LastStyleNeedsFlush | nodes/lib/style_group.py:104-107 | the last style of a text is emitted only by the final flush |
| StyleConfig.NonStyleBodyDiscarded | nodes/lib/style_group.py:89-100 | the body of a `{#`, `>::` or `#!` section is discarded when the next marker closes it |
| StyleConfig.ScanNames | nodes/lib/style_group.py:86-107 | every `>>>` line yields one style, in order: the emitted names plus the pending one are the declared names |
| StyleConfig.FlushedNames | nodes/styles/style_group.py:82-105 | with the final flush, the styles defined are exactly the `>>>` lines, in order |
| StyleConfig.UnflushedNames | nodes/styles/base.py:57-77 | without the final flush, the last declared style is lost exactly when the last marker is a `>>>` line |
| StyleConfig.UnflushedBeforeLast | nodes/styles/base.py:57-77 | without the flush, a text ending in a style defines only the styles declared before it |
| StyleConfig.IsMarker | nodes/lib/style_group.py:85-93 | a line closes the pending action when it is a `#!` first line or, right-stripped, starts with `{#`, `>::` or `>>>`; `NonStyleBodyDiscarded` and `Chunk` state the consequence |
| StyleConfig.Step | nodes/lib/style_group.py:84-102 | one iteration of the parser loop; `Chunk`, `Preamble` and `Pending` state what a marker and a body line do to the pending state |
| StyleConfig.Blocks | nodes/lib/style_group.py:79-107 | the styles a configuration text defines, with or without the final flush; `ScanBlocks` ties the loop to it, and `FlushedNames` and `UnflushedNames` state which `>>>` names it yields |
| Text.RemoveFirst | nodes/lib/style_group.py:178 | `list.remove` of a present value shortens the list by one, and a list without the value is returned as it is |
| Text.RemoveFirstSplits | nodes/styles/style_group.py:130 | `list.remove` cuts out exactly the first occurrence of the value; the elements before and after it stay, in their order |
| LibStyleGroup.EmptyConsistent | nodes/lib/style_group.py:41-43 | the empty group satisfies the registry invariant (names distinct up to case, maps keyed by the lower-cased names) |
| LibStyleGroup.LenIsCount | nodes/lib/style_group.py:220-222 | `len(group)` equals the number of names `get_names()` returns |
| LibStyleGroup.AddConsistent | nodes/lib/style_group.py:157-167 | `add_style` keeps the registry invariant |
| LibStyleGroup.SpellingInOrder | nodes/lib/style_group.py:174-178 | a stored key has a recorded spelling, and that spelling is in the name order, so `remove_style` finds it |
| LibStyleGroup.RemoveSpec | nodes/lib/style_group.py:170-178 | `remove_style` keeps the invariant, removes the key and every name equal to it up to case, keeps the other names in order, and changes nothing for an absent name |
| LibStyleGroup.RemoveKeepsConsistent | nodes/lib/style_group.py:170-178 | `remove_style` keeps the registry invariant |
| LibStyleGroup.AddSpec | nodes/lib/style_group.py:157-167 | after `add_style` the key maps to the new template; an existing name keeps its spelling and position, a new one is appended; `len` grows only for a new name |
| LibStyleGroup.AddRemoveRoundTrip | nodes/lib/style_group.py:157-178 | adding a new style and removing it again gives back the same group |
| LibStyleGroup.QuotedNamesResolve | nodes/lib/style_group.py:146-154 | every name returned by `get_names` with quotes resolves back through `get_style_template` to its own template |
| LibStyleGroup.ContainsIgnoresQuotes | nodes/lib/style_group.py:141-154 | `contains` does not unquote: `group['"X"']` raises `KeyError("Style '<name>' not found.")` while `get_style_template('"X"')` finds the template |
| LibStyleGroup.UpdateLosesPaddedName | nodes/lib/style_group.py:181-184 | `update` copies a name with surrounding white space with an empty template, because the lookup trims the name |
| LibStyleGroup.UpdateCopies | nodes/lib/style_group.py:181-184 | names that the lookup finds unchanged are copied by `update` with their templates |
| LibStyleGroup.AddLookup | nodes/lib/style_group.py:146-167 | after `add_style`, a lookup finds the new template under the added key and the old answer under any other key |
| LibStyleGroup.AddBlocksOrder | nodes/lib/style_group.py:99-107 | parsed styles with distinct names keep the invariant and become the group's names in declaration order |
| LibStyleGroup.AddBlocksKeys | nodes/lib/style_group.py:95-107 | after adding parsed styles, every key was already there or is the key of one of the styles |
| LibStyleGroup.StyleGroup.constructor | nodes/lib/style_group.py:32-58 | the new group holds the listed styles (all the dict's keys when no order is given), satisfies the invariant, and records category and version |
| LibStyleGroup.StyleGroup.AddAll | nodes/lib/style_group.py:56-58 | the constructor loop adds each listed name that the dict holds, in order |
| LibStyleGroup.StyleGroup.AddStyle | nodes/lib/style_group.py:157-167 | the new registry value is `Add` of the old one, with the invariant kept |
| LibStyleGroup.StyleGroup.SetItem | nodes/lib/style_group.py:208-210 | `group[name] = t` is `add_style` |
| LibStyleGroup.StyleGroup.RemoveStyle | nodes/lib/style_group.py:170-178 | the new registry value is `Remove` of the old one, with the invariant kept |
| LibStyleGroup.StyleGroup.DelItem | nodes/lib/style_group.py:213-217 | `del group[name]` raises `KeyError("Style '<name>' not found.")` and leaves the group unchanged when the name is absent, and otherwise removes it |
| LibStyleGroup.StyleGroup.Update | nodes/lib/style_group.py:181-184 | the group gains each of the other group's names, with the template that its lookup returns |
| LibStyleGroup.StyleGroup.FromString | nodes/lib/style_group.py:62-109 | the group holds the parsed styles, the final one included, added in order |
| LibStyleGroup.ContainsName | nodes/lib/style_group.py:141-143 | `contains` lower-cases the name but neither trims nor unquotes it; `ContainsIgnoresQuotes` states the difference from the template lookup |
| LibStyleGroup.GetStyleTemplate | nodes/lib/style_group.py:146-154 | the name is trimmed, unquoted and lower-cased before the lookup, with the default on a miss; `QuotedNamesResolve` and `AddLookup` state what it finds |
| LibStyleGroup.GetNames | nodes/lib/style_group.py:187-198 | the ordered names, quoted when a mark is given; `QuotedNamesResolve` states that each quoted name leads back to its template |
| LibStyleGroup.Len | nodes/lib/style_group.py:220-222 | `len` is the size of the template map; `LenIsCount` states that it equals the number of ordered names |
| LibStyleGroup.GetItem | nodes/lib/style_group.py:201-205 | `KeyError("Style '<name>' not found.")` unless `contains` holds, then the template lookup; `ContainsIgnoresQuotes` states a name this lookup rejects although `get_style_template` finds it |
| LibStyleGroup.Add | nodes/lib/style_group.py:157-167 | `add_style` on the registry value; `AddSpec`, `AddConsistent` and `AddLookup` state the kept spelling and position, the appended new name, and the invariant |
| LibStyleGroup.Remove | nodes/lib/style_group.py:170-178 | `remove_style` on the registry value; `RemoveSpec`, `RemoveKeepsConsistent` and `AddRemoveRoundTrip` state what leaves, what stays, and the round trip with `Add` |
| LibStyleGroup.Build | nodes/lib/style_group.py:32-58 | the constructor's registry; `StyleGroup.constructor` and `StyleGroup.AddAll` tie the class to it, and `AddListed` keeps the ordered names found in the dict |
| OrderedStyles.DelItem | nodes/styles/style_group.py:162-167 | `del obj[key]` never succeeds |
| OrderedStyles.EmptyConsistent | nodes/styles/style_group.py:54-57 | the empty table keeps the invariant (ordered keys distinct and equal to the dict's keys) |
| OrderedStyles.ConstructCopies | nodes/styles/style_group.py:58-62 | building from a dict alone gives a consistent table with the dict's entries in the dict's order |
| OrderedStyles.ConstructBothNeverCreates | nodes/styles/style_group.py:63-68 | given both `styles` and `ordered_names`, the constructor never produces a usable table: it raises `AttributeError` exactly when an ordered name is among the styles |
| OrderedStyles.PutConsistent | nodes/styles/style_group.py:119-123 | `add_style` keeps the invariant |
| OrderedStyles.DeleteSpec | nodes/styles/style_group.py:126-130 | `remove_style` keeps the invariant and removes the name from both the dict and the order, the other names keeping their order (the order `get_names` lists); an absent name changes nothing |
| OrderedStyles.LenIsCount | nodes/styles/style_group.py:170-172 | `len` is the number of ordered names |
| OrderedStyles.PutSpec | nodes/styles/base.py:80-84 | after `add_style` the name maps to the value, other names are untouched, and the order grows only for a new name |
| OrderedStyles.PutDeleteRoundTrip | nodes/styles/base.py:80-91 | adding a new name and removing it gives back the same table |
| OrderedStyles.DelItemNeverRemoves | nodes/styles/base.py:116-121 | `del obj[key]` fails with `RecursionError` for a present key and with `KeyError("Style '<name>' not found.")` for a missing one, and the table is never changed |
| OrderedStyles.PutBlocksDistinct | nodes/styles/style_group.py:92-105 | parsed styles with distinct names give a table with exactly those names, in parse order, each with its own template |
| OrderedStyles.PutBlocksKeys | nodes/styles/base.py:66-70 | every name the table lists was listed before or is the name of a parsed style |
| OrderedStyles.Put | nodes/styles/style_group.py:119-123 | `add_style` on the table value; `PutSpec` and `PutConsistent` state the appended first add, the kept position and the invariant |
| OrderedStyles.Delete | nodes/styles/style_group.py:126-130 | `remove_style` on the table value; `DeleteSpec` and `PutDeleteRoundTrip` state the removal from both the dict and the order |
| OrderedStyles.Lookup | nodes/styles/base.py:99-101 | the exact, case-sensitive dict lookup under `get` and `get_style`; `StylesBase.Get` and `StylesStyleGroup.StyleOfCaseSensitive` state it |
| OrderedStyles.Construct | nodes/styles/style_group.py:44-68 | the outcome of the constructor; `ConstructCopies` and `ConstructBothNeverCreates` state the copy and the `AttributeError` |
| StylesStyleGroup.StyleOfQuoted | nodes/styles/style_group.py:110-116 | a quoted name finds the template of the bare name |
| StylesStyleGroup.QuotedNamesResolve | nodes/styles/style_group.py:133-147 | every name returned by `get_names` with quotes leads `get_style` back to its template |
| StylesStyleGroup.StyleOfCaseSensitive | nodes/styles/style_group.py:110-116 | the lookup does not fold case: `"a"` misses a style added as `"A"` |
| StylesStyleGroup.StyleGroup.Create | nodes/styles/style_group.py:44-68 | without `styles` the group is empty, whatever `ordered_names` holds; with `styles` alone it copies the dict in its order; with both it raises `AttributeError` as soon as an ordered name is among the styles, and otherwise returns an object that has no `_styles` |
| StylesStyleGroup.StyleGroup.FromString | nodes/styles/style_group.py:72-107 | the group holds the parsed styles, the final one included |
| StylesStyleGroup.StyleGroup.AddStyle | nodes/styles/style_group.py:119-123 | the new table is `Put` of the old one, with the invariant kept |
| StylesStyleGroup.StyleGroup.RemoveStyle | nodes/styles/style_group.py:126-130 | the new table is `Delete` of the old one, with the invariant kept |
| StylesStyleGroup.StyleGroup.GetNames | nodes/styles/style_group.py:133-147 | the ordered names, each wrapped in the quote mark when one is asked for |
| StylesStyleGroup.StyleGroup.DelItem | nodes/styles/style_group.py:162-167 | `del obj[key]` returns an error and never changes the table |
| StylesStyleGroup.StyleOf | nodes/styles/style_group.py:110-116 | `get_style` unquotes one pair and looks the name up exactly; `StyleOfQuoted`, `QuotedNamesResolve` and `StyleOfCaseSensitive` state it |
| StylesBase.Get | nodes/styles/base.py:99-101 | `get` finds the template of a present name and returns the default otherwise |
| StylesBase.GetKeepsQuotes | nodes/styles/base.py:99-101 | `get` does not unquote: a quoted name is a different key |
| StylesBase.FromConfigNames | nodes/styles/base.py:50-77 | `from_config` defines the declared styles except a last one that is still open at the end of the text |
| StylesBase.Styles.Create | nodes/styles/base.py:31-47 | without `styles` the registry is empty, whatever `ordered_names` holds; with `styles` alone it copies the dict in its order; with both it raises `AttributeError` as soon as an ordered name is among the styles, and otherwise returns an object that has no `_styles` |
| StylesBase.Styles.FromConfig | nodes/styles/base.py:50-77 | the registry holds the styles closed by a later marker, without the final flush |
| StylesBase.Styles.AddStyle | nodes/styles/base.py:80-84 | the new table is `Put` of the old one, with the invariant kept |
| StylesBase.Styles.RemoveStyle | nodes/styles/base.py:87-91 | the new table is `Delete` of the old one, with the invariant kept |
| StylesBase.Styles.DelItem | nodes/styles/base.py:116-121 | `del obj[key]` returns an error and never changes the table |
| Helpers.InsertAll | nodes/core/helpers.py:32-33 | replacing an empty pattern lengthens the text by one copy of the replacement per replaced match: all `len(s) + 1` positions without a count, the first `count` ones with it |
| Helpers.InsertAllAt | nodes/core/helpers.py:32-33 | before each of the first replaced positions the replacement sits, followed by the original character of that position |
| Helpers.InsertAllEnd | nodes/core/helpers.py:32-33 | when every position is replaced, the replacement also ends the result |
| Helpers.InsertAllRest | nodes/core/helpers.py:32-33 | when the count stops at `n` positions, the text from position `n` on follows untouched |
| Helpers.IReplacePatternCase | nodes/core/helpers.py:32-33 | the case of the pattern does not matter to `ireplace` |
| Helpers.ExpandDateAndVars | nodes/core/helpers.py:112-132 | the token loop computes exactly `Expand` of the text, the clock and the variables |
| Helpers.StepText | nodes/core/helpers.py:127-130 | a token read as text is appended as is and makes the next token a candidate variable |
| Helpers.StepVariable | nodes/core/helpers.py:119-126 | a candidate variable without spaces that has a value is replaced by it, and the next token is text |
| Helpers.StepLiteral | nodes/core/helpers.py:119-130 | a candidate variable with a space or without a value is put back after a `%`, and the next token is again a candidate |
| Helpers.ThreeTokens | nodes/core/helpers.py:112-132 | `a%t%b` expands as the three-token chain: `a`, then `t` as a variable or literal, then `b` |
| Helpers.NoPercentUnchanged | nodes/core/helpers.py:112-132 | a text without `%` is returned unchanged |
| Helpers.PercentEscape | nodes/core/helpers.py:88-89 | `%%` between plain texts expands to one `%` |
| Helpers.VariableReplaced | nodes/core/helpers.py:119-126 | `%name%` with a known name is replaced by its value |
| Helpers.LiteralKept | nodes/core/helpers.py:119-130 | `%t%` where `t` has a space or no value is kept with both `%` signs |
| Helpers.ClosingPercentConsumed | nodes/core/helpers.py:112-132 | after an unknown `%t`, the next `%` opens a variable: `a%t%name` gives `a%t` followed by the value of `name` |
| Helpers.VarsIgnored | nodes/core/helpers.py:108-110 | the user variables never change the expansion: a name found in them still yields no value |
| Helpers.NamesFoldCase | nodes/core/helpers.py:86-96 | variable names other than date formats are matched case-insensitively |
| Helpers.PaddedTwoDigits | nodes/core/helpers.py:92-96 | a field from 0 to 99 renders as exactly two digits |
| Helpers.DateVariables | nodes/core/helpers.py:88-93 | `year`, `month` and `day`, in any case, give the year and the zero-padded month and day; the empty name gives `%` |
| Helpers.TimeVariables | nodes/core/helpers.py:94-96 | `hour`, `minute` and `second` give the zero-padded fields |
| Helpers.DateYear | nodes/core/helpers.py:100-101 | the format `yyyy` gives the full year, not disturbed by the later `yy` pass |
| Helpers.DateMonth | nodes/core/helpers.py:102 | the format `MM` gives the padded month and no later pass touches it |
| Helpers.DateDay | nodes/core/helpers.py:103 | the format `DD` gives the padded day, because the day pass ignores case |
| Helpers.DateMinute | nodes/core/helpers.py:105 | the format `mm` gives the padded minute, case-sensitively distinct from the month |
| Helpers.IReplace | nodes/core/helpers.py:18-33 | case-insensitive literal replacement; `IReplacePatternCase` states that the case of the pattern does not matter, `InsertAll` the empty pattern, and `Text.IReplaceLiteral` a letterless pattern |
| Helpers.DateFormat | nodes/core/helpers.py:98-107 | the `date:` format passes; `DateYear`, `DateMonth`, `DateDay` and `DateMinute` state their order and case rules |
| Helpers.VarValue | nodes/core/helpers.py:84-110 | `get_var_value`; `VarsIgnored`, `NamesFoldCase`, `DateVariables` and `TimeVariables` state what each name gives |
| Helpers.Expand | nodes/core/helpers.py:112-132 | the `%` token chain; `ExpandDateAndVars` ties the loop to it, and `NoPercentUnchanged`, `PercentEscape`, `VariableReplaced`, `LiteralKept` and `ClosingPercentConsumed` state its results |
| NodeHelpers.GetClassType | nodes/core/node_helpers.py:24-28 | for a string `class`, the result is the text before its first ` //` (a prefix that does not contain ` //` and is followed by it), or the whole text when there is none; a missing `class` or a node that is not a dict gives `""`; a `class` that is not a string raises `AttributeError` from `partition` |
| NodeHelpers.GetInputNode | nodes/core/node_helpers.py:112-129 | the result is always a dict, and a non-empty one is a node of the graph |
| NodeHelpers.FirstText | nodes/core/node_helpers.py:168-172 | the text found is the first non-empty string value among the searched inputs, in their order, and it is empty exactly when every one of them is empty |
| NodeHelpers.FindPrompt | nodes/core/node_helpers.py:132-174 | `ValueError` exactly for a non-empty starting node with a type other than positive or negative; depth 8 or more gives the empty text |
| NodeHelpers.FindPromptSource | nodes/core/node_helpers.py:149-174 | a prompt found is a text input of the starting node or of one of the graph's nodes |
| NodeHelpers.ConnectionGivesDefault | nodes/core/node_helpers.py:48-56 | a wired input is not a value: the integer, float and string getters return their defaults |
| NodeHelpers.IntegerInputAgrees | nodes/core/node_helpers.py:48-56 | an integer input reads as itself, as the same real, and as text that parses back to it |
| NodeHelpers.TextInputParsed | nodes/core/node_helpers.py:53-55 | an integer written as text is read back as that integer by the integer and float getters |
| NodeHelpers.SamplerToEncoder | nodes/core/node_helpers.py:149-172 | a sampler whose `positive` wire leads to a text encoder yields that encoder's text |
| NodeHelpers.GetInputInt | nodes/core/node_helpers.py:31-56 | a number truncated, a parsed string, else the default or 0; `ConnectionGivesDefault`, `IntegerInputAgrees` and `TextInputParsed` state it |
| NodeHelpers.GetInputFloat | nodes/core/node_helpers.py:59-84 | a number, a parsed string, else the default or 0.0; `ConnectionGivesDefault`, `IntegerInputAgrees` and `TextInputParsed` state it |
| NodeHelpers.GetInputString | nodes/core/node_helpers.py:87-109 | a number as text, a string as is, else the default; `ConnectionGivesDefault` and `IntegerInputAgrees` state it |
| SaveImage.IsEmptyLatentNode | nodes/save_image.py:505-514 | a node is an empty-latent generator exactly when its class is `EmptyLatentImage`, `EmptySD3LatentImage` or begins with `EmptyZImageLatentImage` (so every accepted class begins with `Empty`); any other string class is rejected; a class entry that is not a string (`None`, a number, a list) raises |
| SaveImage.SamplerStep | nodes/save_image.py:410-438 | a node without a class is skipped; a node yields parameters only when it is a `KSampler` or turbo sampler, and those parameters include the positive prompt; a non-text class raises |
| SaveImage.FirstSamplerIsFirst | nodes/save_image.py:410-438 | the sampler found is the first node, in prompt order, whose step yields parameters, and no node before it does |
| SaveImage.FirstSamplerNone | nodes/save_image.py:406-438 | when no parameters are found, the sampler is the empty dict and no node of the prompt is an initial sampler |
| SaveImage.Filter | nodes/save_image.py:441-447 | the kept parameters are found ones with their values; kept texts are non-empty, seed and cfg not negative, steps at least one; every in-range parameter is kept |
| SaveImage.FindInitialSampler | nodes/save_image.py:387-448 | the loop returns exactly the first initial sampler and its filtered parameters, as `InitialSampler` defines them |
| SaveImage.DropOutOfRange | nodes/save_image.py:441-447 | the seven removals, done one after the other, leave exactly `Filter` of the parameters |
| SaveImage.DropEmptyTexts | nodes/save_image.py:441-444 | the first four removals drop exactly the empty prompts, sampler name and scheduler |
| SaveImage.DropNegativeNumbers | nodes/save_image.py:445-447 | the last three removals drop exactly a negative seed, fewer than one step and a negative cfg |
| SaveImage.TaggedValue | nodes/save_image.py:470-494 | what a tagged node sets under a key is always in range for that key |
| SaveImage.NodeParams | nodes/save_image.py:456-494 | a node that is not a dict, has no string title, or whose title lacks the tag contributes nothing |
| SaveImage.NodeParamsEntry | nodes/save_image.py:468-494 | each contributed value is the one the node's tagged title gives for that key |
| SaveImage.NodeParamsTexts | nodes/save_image.py:470-473 | a node's text goes under the positive or the negative key, never both, as its title selects |
| SaveImage.NodeParamsInRange | nodes/save_image.py:475-494 | every value a node contributes is in range: positive steps, width and height, non-negative seed and cfg, non-empty texts |
| SaveImage.Contributions | nodes/save_image.py:456-499 | one contribution per node, in prompt order, each the node's own parameters |
| SaveImage.Scan | nodes/save_image.py:496-501 | the contribution count is at most the number of nodes, and zero exactly when no node contributes |
| SaveImage.ScanStep | nodes/save_image.py:496-499 | one more node adds one to the count when it contributes, and its parameters override the earlier ones |
| SaveImage.ScanKeys | nodes/save_image.py:499 | a key is found exactly when some node contributes it |
| SaveImage.FindUserParams | nodes/save_image.py:452-501 | the loop returns exactly the count and merged parameters that `Scan` defines |
| SaveImage.ScanLastWins | nodes/save_image.py:499 | the value found for a key is that of the last node contributing it |
| SaveImage.MergeParams | nodes/save_image.py:99-109 | the merged keys are those of either source; the user's value wins, and the sampler's is kept otherwise |
| SaveImage.ParamOr | nodes/save_image.py:116-124 | `params.get(key, default)`: the value when present, the default otherwise |
| SaveImage.TemplateLatentIsEmpty | nodes/save_image.py:208 | the injected template's latent node is itself an empty-latent generator |
| SaveImage.TurboFixedSettings | nodes/save_image.py:428-438 | a turbo sampler always reports cfg 1.0 and `euler`, and never a negative prompt or scheduler |
| SaveImage.InitialParamsInRange | nodes/save_image.py:440-447 | every parameter kept from the sampler is in range |
| SaveImage.UserParamsOverride | nodes/save_image.py:103-109 | a parameter of a tagged node overrides the sampler's value for the same key |
| SaveImage.NothingFoundKeepsPrompt | nodes/save_image.py:113-125 | without a positive prompt or a seed among the parameters, the prompt is saved unchanged |
| SaveImage.UserPositiveReachesTemplate | nodes/save_image.py:107-125 | the positive prompt of a tagged node is the text of the injected first text encoder |
| SaveImage.KSamplerParams | nodes/save_image.py:418-425 | the seven values read from a `KSampler`; `SamplerStep` and `Filter` state which of them survive |
| SaveImage.TurboParams | nodes/save_image.py:432-437 | the values read from a turbo sampler; `TurboFixedSettings` states the fixed cfg and sampler and the missing negative prompt and scheduler |
| SaveImage.InitialSampler | nodes/save_image.py:387-448 | the first sampler fed by an empty latent and its filtered values; `FindInitialSampler` ties the loop to it, and `FirstSamplerIsFirst`, `FirstSamplerNone` and `InitialParamsInRange` state its result |
| SaveImage.UserScan | nodes/save_image.py:452-501 | the tagged nodes' contributions scanned in order; `FindUserParams` ties the loop to it, and `ScanKeys` and `ScanLastWins` state the keys and the last-wins rule |
| SaveImage.GenerationOf | nodes/save_image.py:110-120 | the arguments given to the injection, with `execute`'s defaults; `UserPositiveReachesTemplate` follows the positive prompt into the template |
| SaveImage.MetadataPrompt | nodes/save_image.py:99-125 | the prompt written into the image; `NothingFoundKeepsPrompt`, `UserParamsOverride` and `UserPositiveReachesTemplate` state when and what it injects |
| SaveImageNodes.MaxPartIndex | nodes/save_image.py:532-539 | the result bounds every all-digit part and is 0 or the value of one of them |
| SaveImageNodes.MaxIndexFromIdentifier | nodes/save_image.py:517-540 | a number gives its integer part, a string the largest all-digit part of its `:`-separated pieces, anything else 0 |
| SaveImageNodes.DigitsIdIndex | nodes/save_image.py:535-538 | an all-digits id's index is its own value |
| SaveImageNodes.MaxIdIndex | nodes/save_image.py:346-349 | the largest index bounds the index of every node id |
| SaveImageNodes.TemplateIds | nodes/save_image.py:353-356 | the renumbered template ids are `str(base + i)` for `$1` to `$6`, in order |
| SaveImageNodes.TemplateNodes | nodes/save_image.py:182-247 | the template holds six nodes, `$1` to `$6` |
| SaveImageNodes.TextTemplate | nodes/save_image.py:184-200 | `$1` and `$2` are `CLIPTextEncode` dicts with an `inputs` dict |
| SaveImageNodes.LatentTemplate | nodes/save_image.py:202-210 | `$3` is an `EmptySD3LatentImage` dict with an `inputs` dict |
| SaveImageNodes.SamplerTemplate | nodes/save_image.py:212-227 | `$4` is a `KSampler` dict with an `inputs` dict |
| SaveImageNodes.LoaderTemplate | nodes/save_image.py:230-236 | `$5` is a `CheckpointLoaderSimple` dict with an `inputs` dict |
| SaveImageNodes.GuidanceTemplate | nodes/save_image.py:238-245 | `$6` is a `FluxGuidance` dict with an `inputs` dict |
| SaveImageNodes.TemplateMap | nodes/save_image.py:353-357 | the template parsed after renumbering: keyed by exactly the six ids, each holding its template node |
| SaveImageNodes.TemplateIdsDistinct | nodes/save_image.py:353-356 | the six ids are distinct and `$i` has index `base + i` |
| SaveImageNodes.InputOr | nodes/save_image.py:281 | `node.get('inputs', {}).get(key, default)`: fails exactly when `inputs` is not a dict, otherwise gives the input or the default |
| SaveImageNodes.BaseAt | nodes/save_image.py:266-297 | one search step yields a non-zero base exactly when the id marks an injection, and that base is the id minus 5 |
| SaveImageNodes.FindFrom | nodes/save_image.py:266-299 | a non-zero result marks an injection at some id; zero means no later id marks one |
| SaveImageNodes.Merge | nodes/save_image.py:362 | `{**nodes, **extra}`: the extra entries override, and fresh ids are appended to the order |
| SaveImageNodes.NewIds | nodes/save_image.py:362 | the ids appended by a merge are the extra ids that were not yet keys, without repetition |
| SaveImageNodes.SetInputs | nodes/save_image.py:366-367 | writing inputs fails exactly when the node or its `inputs` is not a dict; otherwise only that node changes, with the values merged in |
| SaveImageNodes.AssignAll | nodes/save_image.py:366-381 | a sequence of writes succeeds exactly when every target is writable, keeps the keys, and leaves untargeted nodes unchanged |
| SaveImageNodes.AssignAllEffect | nodes/save_image.py:366-381 | with distinct targets, each target ends with its own values merged into its inputs |
| SaveImageNodes.Writes | nodes/save_image.py:366-381 | the writes go to `$1` to `$4`, in that order |
| SaveImageNodes.Configure | nodes/save_image.py:366-381 | configuring succeeds exactly when `$1` to `$4` are writable, keeps the keys, and changes no node outside `$1` to `$4` |
| SaveImageNodes.ConfigureEffect | nodes/save_image.py:366-381 | after configuring, `$1` to `$4` hold the prompts, size and sampler settings, with their fallbacks |
| SaveImageNodes.Place | nodes/save_image.py:339-362 | an injection found is reused as is; otherwise the template goes under the fresh base |
| SaveImageNodes.FreshBaseOf | nodes/save_image.py:346-351 | the loop computes the fresh base: the largest index among the ids plus 100 |
| SaveImageNodes.InjectCivitaiNodes | nodes/save_image.py:303-383 | the method computes exactly `Inject` of the prompt and the generation parameters |
| SaveImageNodes.NoCollision | nodes/save_image.py:346-357 | every fresh template id has a larger index than any existing id, so none is already a key |
| SaveImageNodes.PlaceFresh | nodes/save_image.py:346-362 | a fresh placement appends the six ids and keeps every existing entry |
| SaveImageNodes.MergedTemplate | nodes/save_image.py:362 | the merged map holds the six template nodes and, outside them, the entries it had |
| SaveImageNodes.InjectFresh | nodes/save_image.py:339-381 | injecting into a prompt without an earlier injection succeeds, appends the six ids and keeps every old node |
| SaveImageNodes.InjectAgain | nodes/save_image.py:339-381 | injecting where an injection is found adds no id or key and changes no node outside `$1` to `$4` |
| SaveImageNodes.InjectWrites | nodes/save_image.py:366-381 | a successful injection writes the generation values into `$1` to `$4`, keeping their other inputs |
| SaveImageNodes.InjectedPositive | nodes/save_image.py:366-367 | the first text encoder of the injected template holds the positive prompt |
| SaveImageNodes.ConfiguredOutside | nodes/save_image.py:366-381 | configuring changes no entry outside `$1` to `$4`, and leaves `$5` and `$6` as they were |
| SaveImageNodes.ConfiguredKeepsClasses | nodes/save_image.py:366-381 | configuring keeps `$1` to `$4` dicts with the same class types |
| SaveImageNodes.ConfiguredTemplate | nodes/save_image.py:366-381 | configuring a map that holds the template keeps it recognisable and changes nothing outside it |
| SaveImageNodes.InjectFreshNodes | nodes/save_image.py:346-381 | a fresh injection's nodes are the prompt merged with the template and then configured |
| SaveImageNodes.ConfiguredMerge | nodes/save_image.py:362-381 | configuring a map merged with the template never fails, keeps the template recognisable and the other entries as they were |
| SaveImageNodes.OldIdUnchanged | nodes/save_image.py:346-362 | after a fresh injection, every entry that an old id's search step reads is unchanged |
| SaveImageNodes.OtherClassStep | nodes/save_image.py:277-279 | a dict node of a class other than the checkpoint loader is passed over by the search |
| SaveImageNodes.MarkStep | nodes/save_image.py:266-297 | a checkpoint loader at `str(n)` with the injected model name, a guidance node in band after it and a text encoder at `str(n - 4)` marks base `n - 5` |
| SaveImageNodes.TemplateSteps | nodes/save_image.py:266-297 | in a map holding the template, `$1` to `$4` are passed over and `$5` marks the injection with its base |
| SaveImageNodes.FoundAfterAppend | nodes/save_image.py:266-299 | after appending a template to a prompt without injection, the search finds the template's base |
| SaveImageNodes.InjectedIsFound | nodes/save_image.py:249-362 | after a fresh injection, the search finds the nodes just injected, under the fresh base |
| SaveImageNodes.InjectTwice | nodes/save_image.py:339-383 | injecting into an injected prompt succeeds and adds no node: the same ids and keys |
| SaveImageNodes.FindCivitaiNodes | nodes/save_image.py:249-299 | the first id marking an injection, or 0; `FindFrom`, `BaseAt` and `InjectedIsFound` state what marks one and that an injection is found again |
| SaveImageNodes.Inject | nodes/save_image.py:303-381 | `inject_civitai_nodes` on prompt values; `InjectFresh`, `InjectAgain`, `InjectTwice`, `InjectWrites` and `ConfiguredOutside` state the added ids, the rewritten fields and what stays |
| StylePromptEncoder.CategoryNames | nodes/style_prompt_encoder.py:113-115 | one category per group, in group order |
| StylePromptEncoder.StyleNames | nodes/style_prompt_encoder.py:120-127 | `none` followed by every group's quoted names, in group order |
| StylePromptEncoder.DefaultCategory | nodes/style_prompt_encoder.py:132-133 | the default category exists exactly when there is a group, and it is one of the categories |
| StylePromptEncoder.DefaultStyle | nodes/style_prompt_encoder.py:138-139 | the default style exists exactly when the first group has a style |
| StylePromptEncoder.Execute | nodes/style_prompt_encoder.py:73-98 | as written, the node raises `AttributeError` exactly when a string style other than `none` has no custom template and there is a predefined group; otherwise it raises `RuntimeError` exactly when no text encoder is connected; it succeeds exactly when a text encoder is connected and the lookup is not reached, and a prompt it returns is the intended styled prompt |
| StylePromptEncoder.PredefinedLookup | nodes/style_prompt_encoder.py:143-149 | as written, the predefined lookup raises `AttributeError` for `get_style_template` as soon as there is a group, and gives the empty template only when there is none |
| StylePromptEncoder.AsWrittenMatchesIntended | nodes/style_prompt_encoder.py:80-93 | the styled prompt fails exactly when the predefined lookup is reached with a group, and only with that `AttributeError`; a prompt it does give is the one the intended search gives |
| StylePromptEncoder.PredefinedLookupRaises | nodes/style_prompt_encoder.py:85-90 | a name the first predefined group knows raises `AttributeError`, where the intended search applies that group's template |
| StylePromptEncoder.ValidateInputs | nodes/style_prompt_encoder.py:102-105 | a missing category raises `KeyError`; a registered one is accepted; any other is rejected with the message naming it |
| StylePromptEncoder.QuotedNameAt | nodes/style_prompt_encoder.py:120-127 | the i-th name of group k sits, quoted, after the names of the groups before it |
| StylePromptEncoder.DefaultStyleListedFirst | nodes/style_prompt_encoder.py:138-139 | the default style is the first name listed after `none` |
| StylePromptEncoder.DefaultCategoryValidates | nodes/style_prompt_encoder.py:102-105 | the default category passes validation |
| StylePromptEncoder.FirstMatchWins | nodes/style_prompt_encoder.py:143-149 | in the intended search, the template comes from the first group in which the name has a non-empty template |
| StylePromptEncoder.NotFoundAnywhere | nodes/style_prompt_encoder.py:143-149 | in the intended search, the empty template is returned exactly when no group has a non-empty template for the name |
| StylePromptEncoder.ListedNameFound | nodes/style_prompt_encoder.py:143-149 | in the intended search, a listed quoted name finds its own template when no earlier group has a template for it |
| StylePromptEncoder.NoneKeepsPrompt | nodes/style_prompt_encoder.py:80-93 | no style, or `none`, leaves the prompt unchanged and raises nothing |
| StylePromptEncoder.CustomFirst | nodes/style_prompt_encoder.py:82-90 | a style the customization text defines takes precedence over the predefined ones, so the predefined lookup is never reached |
| StylePromptEncoder.PredefinedOtherwise | nodes/style_prompt_encoder.py:82-93 | with the intended search, a style the customization lacks is looked up among the predefined groups, and the prompt is kept when none has it |
| StylePromptEncoder.DeclaredCustomStyleApplied | nodes/style_prompt_encoder.py:82-93 | a style declared in the customization text is applied to the prompt, with the booster off |
| StylePromptEncoder.PredefinedTemplate | nodes/style_prompt_encoder.py:143-149 | the search the lookup is meant to run over groups that have `get_style_template`; `FirstMatchWins`, `NotFoundAnywhere` and `ListedNameFound` state it |
| StylePromptEncoder.SelectTemplate | nodes/style_prompt_encoder.py:84-90 | the custom template first, then the predefined lookup, for a string style other than `none`; `CustomFirst`, `NoneKeepsPrompt` and `AsWrittenMatchesIntended` state it |
| StylePromptEncoder.StyledPrompt | nodes/style_prompt_encoder.py:84-93 | the selected template applied with the booster off, or the prompt itself; `AsWrittenMatchesIntended`, `PredefinedLookupRaises` and `DeclaredCustomStyleApplied` state it |
| StyleStringInjector.Execute | nodes/style_string_injector.py:58-73 | as written, every string style other than `none` raises `AttributeError` when there is a predefined group; otherwise the text is returned unchanged |
| StyleStringInjector.IntendedExecute | nodes/style_string_injector.py:113-119 | with the intended search, no style, or `none`, returns the text unchanged |
| StyleStringInjector.IntendedFirstMatch | nodes/style_string_injector.py:66-70 | with the intended search, a style other than `none` applies the first non-empty predefined template, booster off, and keeps the string when there is none |
| StyleStringInjector.InjectorLookupRaises | nodes/style_string_injector.py:66-70 | a name the first predefined group knows raises `AttributeError`, where the intended search applies that group's template |
| StyleStringInjector.ValidateInputs | nodes/style_string_injector.py:77-81 | a missing category raises `KeyError`; a registered one is accepted; an unknown category raises `KeyError('style_type')`, and the message is returned only if a `style_type` argument is passed |
| StyleStringInjector.SameAsEncoderWithoutCustomization | nodes/style_string_injector.py:63-73 | the injector gives the encoder's result with an empty customization, both as written and with the intended search |
| StyleStringInjector.UnknownCategoryRaises | nodes/style_string_injector.py:77-81 | with the node's own arguments (`category`, `style`, `string`), an unknown category raises `KeyError('style_type')`, where the encoder returns the message naming the category |
| Server.StyleNamesByCategory | nodes/server.py:25-38 | the loop computes exactly `ByCategory` of the groups |
| Server.StyleNamesByCategoryByVersion | nodes/server.py:42-46 | the by-version listing is empty |
| Server.KeysAreFirstAppearances | nodes/server.py:33-36 | the keys are the categories in order of first appearance, and each key has a list |
| Server.ListsConcatenate | nodes/server.py:33-36 | a category's list concatenates the names of all its groups in group order; an unlisted category has no names |
| Server.QuotedLists | nodes/server.py:35-36 | the quoted lists are the plain lists with each name in double quotes |
| Server.TotalIsNameCount | nodes/server.py:33-38 | the lists hold as many names as the groups together |
| Server.ByCategory | nodes/server.py:25-38 | the listing after the given groups; `StyleNamesByCategory` ties the loop to it, and `KeysAreFirstAppearances`, `ListsConcatenate` and `TotalIsNameCount` state its keys and lists |
| PhotoStylePromptEncoder.Execute | nodes/photo_style_prompt_encoder.py:56-65 | the node raises `RuntimeError` exactly when no text encoder is connected |
| PhotoStylePromptEncoder.StyleNames | nodes/photo_style_prompt_encoder.py:68-70 | `none` followed by one entry per style |
| PhotoStylePromptEncoder.AppliedIffKey | nodes/photo_style_prompt_encoder.py:58-60 | a name that is a key applies its template; any other name keeps the prompt |
| PhotoStylePromptEncoder.OfferedNamesApply | nodes/photo_style_prompt_encoder.py:58-70 | every offered name other than `none` applies its own template |
| PhotoStylePromptEncoder.LastStyleNeverOffered | nodes/styles/base.py:57-77 | a style declared last in a configuration text, and not earlier, is not among the offered names |
| PhotoStylePromptEncoder.PopPhotoNeverOffered | nodes/styles/photo_styles.py:143-152 | `Pop Photo`, the last photo style, is not among the offered names |
| PhotoStylePromptEncoder.StyledPrompt | nodes/photo_style_prompt_encoder.py:58-60 | an exact key applies its template with the booster off, any other name keeps the text; `AppliedIffKey` and `OfferedNamesApply` state it |
| IllustrationStylePromptEncoder.PixelArtNeverOffered | nodes/styles/illustration_styles.py:151-160 | `LowRes Pixel Art`, the last illustration style, is not among the offered names |
| ProgressBar.Level | nodes/lib/progress_bar.py:74-76 | the completed fraction lies between 0 and 1 for an in-range position, and is 1 for a total of 0 or less |
| ProgressBar.Capped | nodes/lib/progress_bar.py:69-71 | the position is never above the total or the value, and is one of the two |
| ProgressBar.ParentValueInRange | nodes/lib/progress_bar.py:74-76 | a fraction from 0 to 1 maps into the parent's range |
| ProgressBar.ParentValueEnds | nodes/lib/progress_bar.py:74-76 | fraction 0 maps to the range start and fraction 1 to the range end |
| ProgressBar.ForwardedInRange | nodes/lib/progress_bar.py:69-76 | every value forwarded to the parent lies in its range |
| ProgressBar.TruncatedInRange | nodes/lib/progress_bar.py:122-123 | truncating a value of the range stays in the range |
| ProgressBar.ComfyRangeForwardsPosition | nodes/lib/progress_bar.py:46-53 | a bar over ComfyUI's range from 0 to the steps forwards its capped position unchanged |
| ProgressBar.Bar.constructor | nodes/lib/progress_bar.py:34-42 | the bar starts at 0 with the given total, parent and range, and has sent nothing |
| ProgressBar.Bar.FromComfyUI | nodes/lib/progress_bar.py:46-53 | the bar has a parent and the range from 0 to the steps |
| ProgressBar.Bar.UpdateAbsolute | nodes/lib/progress_bar.py:56-76 | a non-zero total replaces the total; the position becomes the value capped at the total; a parent receives the scaled position, which lies in its range |
| ProgressBar.Bar.Update | nodes/lib/progress_bar.py:79-85 | the position advances by the value, capped at the total, and the parent receives the scaled position |
| ProgressBar.Preview.constructor | nodes/lib/progress_bar.py:92-99 | the preview bar has the given total, parent and range, and has sent nothing |
| ProgressBar.Preview.Call | nodes/lib/progress_bar.py:108-123 | the position becomes the step capped at the total, and the parent receives the truncated scaled position, which lies in its range |
| StyleCategorySelector.Options | web/js/style_category_selector.js:64-84 | the options are `none` followed by the category's styles, or only `none` for an unknown category |
| StyleCategorySelector.Change | web/js/style_category_selector.js:92-107 | the category being left gets its style remembered |
| StyleCategorySelector.FirstVisitSelectsDefault | web/js/style_category_selector.js:97-106 | a category not visited before selects its first style, or `none` when it has none |
| StyleCategorySelector.SwitchBackRestores | web/js/style_category_selector.js:92-107 | leaving a category and coming back restores the style chosen there |
| StyleCategorySelector.SameCategoryKeepsStyle | web/js/style_category_selector.js:92-107 | re-selecting the current category keeps the style |
| StyleCategorySelector.RememberedOnLeave | web/js/style_category_selector.js:92-96 | the style shown when leaving a category is remembered for it, and the other remembered styles are kept |
| StyleCategorySelector.Selector.Init | web/js/style_category_selector.js:34-52 | the selector starts with no remembered styles, the given category and style, and that category's options |
| StyleCategorySelector.Selector.FillStyleWidget | web/js/style_category_selector.js:64-84 | the options become the category's and the default style is returned; nothing else changes |
| StyleCategorySelector.Selector.OnCategoryChange | web/js/style_category_selector.js:92-107 | the selector's state becomes `Change` of the old state |
| StyleCategorySelector.Selector.CategoryCallback | web/js/style_category_selector.js:46-51 | the change is applied, then the original callback, when there is one, receives the value and the style |
| Register.RegisterNode | __init__.py:58-89 | the node gets its category, id, deprecation flag and decorated title, and is appended to the list |
| Register.SubcategoryNormalised | __init__.py:72-77 | normalising a subcategory twice changes nothing, and the category always begins with the project's menu |
| Register.TitleNotIdempotent | __init__.py:80-85 | the title always grows, and registering twice adds the project emoji twice |
| Register.ClassTypeOfNodeId | __init__.py:78 | the class name that the node helpers read back from a registered id is the class name itself |
| Register.Subcategory | __init__.py:72-73 | the subcategory is empty exactly when it was given empty, otherwise begins with `/`, and one that already does is kept |
| Register.Title | __init__.py:80-83 | the decorated title; `TitleNotIdempotent` states that it always grows and is not idempotent |

## Findings

| source | as written | input that shows it | evidently intended | confidence | as-written member | corrected member |
|---|---|---|---|---|---|---|
| nodes/style_prompt_encoder.py:143-149 | calls `get_style_template` on the predefined groups, which are `StyleGroup`s of `nodes/styles/style_group.py` (nodes/styles/predefined_styles_v090.py:13) and have only `get_style`; `execute` raises `AttributeError` | a non-empty group list, style `Phone Photo`, customization `""` | return the first non-empty predefined template for the name, or `""` | high; not executed | StylePromptEncoder.PredefinedLookupRaises | StylePromptEncoder.PredefinedOtherwise |
| nodes/style_string_injector.py:113-119 | the same call; `execute` raises `AttributeError` for every style other than `none` | a non-empty group list, style `Phone Photo` | style the string with the first non-empty predefined template for the name | high; not executed | StyleStringInjector.InjectorLookupRaises | StyleStringInjector.IntendedFirstMatch |
| nodes/styles/base.py:116-121, nodes/styles/style_group.py:162-167 | `__delitem__` runs `del self[key]` on itself, which calls `__delitem__` again without end; `del` raises `RecursionError` and never removes anything | any registry holding `Photo`, `del registry['Photo']` | remove the style from the registry, as `remove_style` does | high; not executed | OrderedStyles.DelItemNeverRemoves | OrderedStyles.DeleteSpec |
| nodes/style_string_injector.py:77-81 | `validate_inputs` formats its message with `kwargs['style_type']`, an argument the injector does not declare; an unknown category raises `KeyError('style_type')` instead of returning the message | `category='Retired'`, `style='none'`, `string='x'` | return the message naming the invalid `category`, as the encoder's `validate_inputs` does (nodes/style_prompt_encoder.py:102-105) | medium; not executed | StyleStringInjector.UnknownCategoryRaises | StylePromptEncoder.ValidateInputs |

## Left out

- Text.Lower: folds ASCII letters only, whereas Python's `str.lower` folds all of Unicode.
- SaveImageNodes.TextArg: a list or dict argument falls back to the default, whereas `str(x)` would give its repr; the parameters collected from the prompt are only strings and numbers.
- Text.ParseInt and Text.ParseFloat: accept plain decimal literals only. They take no underscores, exponents, `inf` or `nan`.
- Text.IsDigits: accepts the ASCII digits only, whereas Python's `str.isdigit` (nodes/save_image.py:266, 536) also accepts other Unicode digits.
- Helpers.IReplace: inserts the replacement literally, whereas `re.sub` would process backslash escapes in it. Every caller passes a replacement made of digits. Its case-insensitive matching also folds ASCII letters only, whereas `re.IGNORECASE` matches the Unicode case variants too (`ſ` with `s`, the Kelvin sign with `k`).
- LibStyleGroup.StyleGroup.Update: requires the other group to be a different object, whereas the Python method also accepts the group itself. No caller updates a group with itself.
- Text.FloatToString: renders the exact value with up to 17 fraction digits, not Python's shortest round-trip `repr` of a binary double. Floats are modelled as exact reals throughout, so rounding is not modelled.
- Registries take string names and string templates only. Other Python values in those positions are not modelled.
- SaveImageNodes.InjectCivitaiNodes: works on prompt values. The aliasing of the nested dicts shared between the template and the prompt, and any partial mutation before an exception, are not captured.
- The CivitAI template is a constant of the model. It is not parsed from its JSON text.
- File and image I/O are not modelled: PIL, numpy, PNG writing, `folder_paths`, `json.dumps` of the metadata, and logging.
- CLIP tokenisation and encoding are not modelled. The nodes take a flag saying whether a text encoder is connected, and return the prompt they would encode.
- The host's node schema (`define_schema`), the aiohttp routes, `PromptServer` and `functools.cache` are host wiring, not logic.
- The front end's style fetch, `registerExtension` and `nodeCreated` hooks are not modelled. Neither are properties inherited through JavaScript prototypes.
- StyleCategorySelector.Selector.CategoryCallback: records that the original callback was called. It does not run or await it.
- The style data files are not modelled as a whole. The registries are parameters of the nodes. Only the last block of the photo and illustration tables is stated, because the missing final flush concerns it.
- The sampler nodes are not part of this model, and neither is the sigma interpolation.
- `normalize_images` is not part of this model.
- Helpers.ExpandDateAndVars: the local time is a `Clock` parameter instead of `time.localtime()`.
- ProgressBar.Bar: a parent bar is a recorder of the values forwarded to it. A chain of nested bars is not followed beyond that first parent.
- ProgressBar.Preview.constructor: leaves the position unconstrained. The Python object has no position attribute until its first call. The preview's own `from_comfyui` builds its parent from `latent_preview`, which is not part of this model.
- Node list assembly and the extension entry point are not part of this model. Neither is the logger of `nodes/lib/system.py`.
- The predefined style groups hold their styles as a `LibStyleGroup` registry. The group files build them with the `StyleGroup` of `nodes/styles`, whose names and quoted names are the same. Only the names, the categories and whether a group exists matter as written, because that class has no `get_style_template`; the registry is what the intended search reads.
- PhotoStylePromptEncoder.Execute: its contract states only the missing-encoder error. `AppliedIffKey` states the prompt it returns.
- StyleStringInjector: uses the encoder's registry queries, which the two modules implement identically.
- `Styles.from_config` does not flush the style still open at the end of the text. The model keeps this behaviour as written: `StyleConfig.UnflushedNames` and `PhotoStylePromptEncoder.LastStyleNeverOffered` state its consequence.
