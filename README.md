# Claude setup manager — a Dafny model

This project models the logic core of `claude_manager.py`, the terminal UI for configuring a project's
`.claude/CLAUDE.md`. The user picks agents, commands, output styles and MCP servers from a catalog
and sees a running token estimate. The program then writes a CLAUDE.md that lists the selection and
keeps timestamped backups of the previous file under `.claude/history`.

The model has these modules:

- **Project.** The selection state is `class ProjectConfig` with four `set<string>` fields. It is
  specified by the value `Selections`, whose `With` is the effect of one `add`/`discard`.
  - `TotalTokens` is a loop over the selected servers, proved equal to the ghost `Cost`. `Cost` adds the
    declared `token_usage` of each known server, with 0 for servers without a configuration, plus 200,
    150 or 100 per agent, command or output style.
  - The per-server `config.json` lookup is a parameter `tokenUsage: map<string, int>`.
  - The colour band of the token display is a pure function over exact reals, restated in whole tokens.
  - `ParseExistingConfig` and `DetectProject` are the importer that seeds the agents from an existing
    CLAUDE.md.
- **WidgetIds.** Builds checkbox ids (`title_clean + "_" + name_clean`, `"mcp_" + name_clean`) and
  decodes them: split at the first `_`, then map every `_` to `-`. Lemmas say exactly when a name
  survives the round trip. For the "Output Styles" selector it does not survive: the decoded key is
  `"styles-" + name`. This is modelled as the code does it.
- **Selectors.** The two checklist widgets are classes. Each holds a reference to the shared
  `ProjectConfig` and the category whose set it updates in place, which models the aliasing of the
  Python sets between the widgets and the configuration.
- **Generator.** `generate_claude_md` appends lines in a fixed section order. Each selection set is
  given as the sequence in which it is iterated, because a Python set's order is unspecified. The
  formatted estimate and percentage are opaque strings.
- **Backups.** Backup names are `CLAUDE_<timestamp>.md`. Backups are ordered by code-point string
  order. Retention is stated declaratively: a backup survives exactly when fewer than 10 backup names
  are greater than it. It is proved equal to deleting the first `len - 10` names of the sorted list.
- **Workspace.** `class ClaudeDir` holds the optional CLAUDE.md text and the `history` directory as a
  map from file name to content. `CreateBackup` and `ActionGenerate` change it in place.
- **Strings.** Supporting string operations: replace, ASCII lower-casing, substring, join, split and
  lexicographic order.
- **Catalog.** The catalog records.
- **Wrappers.** `Option`.

## Model

| member | source | states |
|---|---|---|
| Project.Selections.With | claude_manager.py:117-120 | `add`/`discard` of `name` on category `c`: that set gains or loses exactly `name`; the other three sets are unchanged |
| Catalog.Component | claude_manager.py:24-31 | a text component record: name, category, description and token usage |
| Catalog.McpServer | claude_manager.py:38-46 | an MCP server record: name, description, token usage, tool count, category, use cases and load hints |
| Project.ProjectConfig.constructor | claude_manager.py:54-62 | a new configuration keeps its path and existing-file fields and starts with four empty selections |
| Project.ProjectConfig.TotalTokens | claude_manager.py:64-81 | the loop's total is the declared usage summed over the selected servers, plus 200 per agent, 150 per command and 100 per output style |
| Project.ProjectConfig.Add | claude_manager.py:118 | `add` changes the configuration's selection exactly as `With(c, name, true)` |
| Project.ProjectConfig.Discard | claude_manager.py:120 | `discard` changes the configuration's selection exactly as `With(c, name, false)` |
| Project.Usage | claude_manager.py:71-74 | a server's contribution is the `token_usage` its configuration declares, and 0 when it has no configuration or no such key |
| Project.McpTokens | claude_manager.py:70-74 | the MCP part of the estimate: the contributions summed over the selected server names |
| Project.Cost | claude_manager.py:64-81 | the estimate of a selection: the MCP part plus 200 per agent, 150 per command and 100 per output style |
| Project.McpTokensRemove | claude_manager.py:70-74 | the server sum does not depend on visiting order: any selected server can be counted first |
| Project.McpTokensKnownOnly | claude_manager.py:72-74 | servers without a configuration contribute nothing: the sum equals the sum over the known servers only |
| Project.UnknownServersCostNothing | claude_manager.py:72-74 | a selection of servers none of which has a configuration adds 0 tokens |
| Project.CheckAddsUnitCost | claude_manager.py:64-81 | checking an unselected name raises the estimate by exactly that name's unit cost (200/150/100 or its declared usage) |
| Project.UncheckRemovesUnitCost | claude_manager.py:64-81 | unchecking a selected name lowers the estimate by exactly that name's unit cost |
| Project.CheckUncheckRestores | claude_manager.py:117-120 | checking then unchecking a name that was not selected restores the selection and the estimate, and no other category changes on the way |
| Project.SingleAgentCost | claude_manager.py:77 | one agent and nothing else is estimated at 200 tokens |
| Project.ServerAgentsCommandCost | claude_manager.py:70-79 | a 5000-token server, two agents and one command are estimated at 5550 tokens |
| Project.TokenColor | claude_manager.py:177-180 | the display colour from the estimate's percentage of a 200000-token window: green below 5%, yellow below 10%, red otherwise |
| Project.TokenColorBands | claude_manager.py:177-180 | green exactly below 10000 tokens, yellow exactly from 10000 to below 20000, red exactly from 20000 on |
| Project.TokenColorMonotonic | claude_manager.py:177-180 | a larger estimate never shows a milder colour |
| Project.ImportedAgents | claude_manager.py:320-323 | the imported agents are a subset of {code-reviewer, test-runner}, each present exactly when its name occurs as a substring of the text |
| Project.ParseExistingConfig | claude_manager.py:311-324 | with no existing CLAUDE.md nothing changes; otherwise the agents gain exactly the imported names, nothing is removed, and the other three sets are unchanged |
| Project.DetectProject | claude_manager.py:293-309 | the configuration records the path and whether `.claude/CLAUDE.md` exists; its selection is empty apart from the agents imported from that file |
| WidgetIds.TitleClean | claude_manager.py:99 | the cleaned title has the title's length, each character lower-cased and space or `-` mapped to `_` |
| WidgetIds.NameClean | claude_manager.py:100 | the cleaned name has the name's length, with each space or `-` mapped to `_` |
| WidgetIds.ComponentId | claude_manager.py:98-104 | a component id contains no space and no `-`, and is one character longer than title and name together |
| WidgetIds.McpId | claude_manager.py:141-145 | a server id contains no space and no `-`, and is 4 characters longer than the name |
| WidgetIds.AfterFirstUnderscore | claude_manager.py:112 | `split("_", 1)` has a second part exactly when the id holds a `_`, and that part is what follows the first `_` |
| WidgetIds.DecodeId | claude_manager.py:112-116 | the decoded name holds no `_`; an id without `_` decodes to itself; one with `_` decodes to something shorter |
| WidgetIds.Key | claude_manager.py:114 | the key of a name maps each `-`, space and `_` to `-` and keeps every other character |
| WidgetIds.KeyIsName | claude_manager.py:114 | a name is its own key exactly when it holds no space and no `_` |
| WidgetIds.AfterFirstUnderscoreOf | claude_manager.py:112 | splitting `p + "_" + q` with `_`-free `p` yields `q` |
| WidgetIds.TitleCleanUnderscore | claude_manager.py:99 | the cleaned title holds a `_` exactly when the title holds a space, `-` or `_` |
| WidgetIds.AfterFirstUnderscoreOfJoined | claude_manager.py:104-112 | when the cleaned title already holds a `_`, the split keeps the rest of the title, then `_`, then the name |
| WidgetIds.DecodeJoined | claude_manager.py:112-116 | decoding `t + "_" + n` gives `n` with `_` mapped to `-`, prefixed by the rest of `t` when `t` holds a `_` |
| WidgetIds.DecodeComponentId | claude_manager.py:98-116 | a component id decodes to the name's key, prefixed by the part of the cleaned title after its first `_` when there is one |
| WidgetIds.ComponentRoundTrip | claude_manager.py:98-116 | a component's name is recovered from its id exactly when the title has no space, `-` or `_` and the name has no space or `_` |
| WidgetIds.McpRoundTrip | claude_manager.py:141-157 | a server id decodes to the name's key, so the name is recovered exactly when it has no space and no `_` |
| WidgetIds.TitleCleanIs | claude_manager.py:99 | a string agreeing character by character with the cleaning rule is the cleaned title |
| WidgetIds.NameCleanIs | claude_manager.py:100 | a string agreeing character by character with the cleaning rule is the cleaned name |
| WidgetIds.AfterFirstUnderscoreIs | claude_manager.py:112 | the split at the first `_`, at position `k`, yields the rest after `k` |
| WidgetIds.AgentsTitlePlain | claude_manager.py:380 | the cleaned "Agents" title holds no `_` |
| WidgetIds.CommandsTitlePlain | claude_manager.py:385 | the cleaned "Commands" title holds no `_` |
| WidgetIds.AgentsAndCommandsRoundTrip | claude_manager.py:379-388 | in the Agents and Commands selectors, a name without space or `_` is recovered exactly from its id |
| WidgetIds.OutputStylesClean | claude_manager.py:393 | the cleaned "Output Styles" title is `output_styles` |
| WidgetIds.OutputStylesTitle | claude_manager.py:393 | the cleaned "Output Styles" title splits to `styles` after its first `_` |
| WidgetIds.TailKey | claude_manager.py:104-114 | a title whose cleaned form splits to `tail` makes every id decode to `tail + "-" + ` the name's key |
| WidgetIds.OutputStylesKey | claude_manager.py:392-396 | an output style's id decodes to `"styles-" + ` its key, and so to `"styles-" + name` for a plain name |
| WidgetIds.McpIdCollision | claude_manager.py:141-145 | `my-server`, `my server` and `my_server` get the same checkbox id; in the program two such catalog servers make the framework reject the duplicate id when the widgets are mounted |
| Selectors.ComponentSelector.constructor | claude_manager.py:87-91 | the selector keeps its title and components and shares the given configuration's set of its category |
| Selectors.ComponentSelector.CheckboxId | claude_manager.py:98-104 | the id shown for a component contains no space and no `-` |
| Selectors.ComponentSelector.OnCheckboxChanged | claude_manager.py:109-120 | the shared set of the selector's category gains (checked) or loses (unchecked) the decoded name; the other sets are unchanged |
| Selectors.McpServerSelector.constructor | claude_manager.py:129-132 | the selector keeps its servers and shares the configuration's MCP server set |
| Selectors.McpServerSelector.CheckboxId | claude_manager.py:141-145 | the id shown for a server contains no space and no `-` |
| Selectors.McpServerSelector.OnCheckboxChanged | claude_manager.py:150-161 | the shared MCP server set gains or loses the decoded name; the other sets are unchanged |
| Selectors.CheckingServerBox | claude_manager.py:141-161 | checking a plain server's box selects exactly that server and raises the estimate by its declared usage |
| Selectors.CheckingOutputStyleBox | claude_manager.py:392-396 | checking an output style's box selects `"styles-" + name` and leaves the style's own name unselected |
| Generator.FindServer | claude_manager.py:471 | no server is found exactly when none has the name; a found server is in the catalog and has the name |
| Generator.FindServerFirst | claude_manager.py:471 | the server found is the first one in catalog order with that name |
| Generator.Header | claude_manager.py:460-467 | the six opening lines: title, Token Optimization heading, the estimate line built from the formatted numbers, a blank line and the MCP heading lines |
| Generator.LoadWhen | claude_manager.py:474 | the indented `Load when:` line of a server, its first three hints joined with `, ` |
| Generator.ServerLines | claude_manager.py:471-474 | the description line and `Load when:` line of a selected server the catalog knows, and no line for one it does not |
| Generator.McpEntries | claude_manager.py:470-474 | the lines of the visited servers, in visiting order |
| Generator.McpBlock | claude_manager.py:469-476 | the servers' lines when a server is selected, else the single "None selected" line |
| Generator.Bullets | claude_manager.py:482-483 | one `- item` line per item, in order |
| Generator.Subsection | claude_manager.py:480-493 | a heading followed by the bullets, or nothing for an empty category |
| Generator.DocumentLines | claude_manager.py:460-503 | the document's lines: the header, the MCP block, the banner, the three subsections and the instructions, in that order |
| Generator.Enumerates | claude_manager.py:470-492 | a sequence is an iteration of a set: it visits each element of the set once and nothing else |
| Generator.Lists | claude_manager.py:469-493 | the listing iterates each of the four selection sets |
| Generator.Enumerate | claude_manager.py:470-492 | the `for` loop over a set visits each element exactly once, in an unspecified order, and as many times as the set has elements |
| Generator.IterationOrder | claude_manager.py:469-493 | the visiting orders of the four selection sets iterate those sets |
| Generator.EnumeratesEmpty | claude_manager.py:469-493 | an iteration of a set is empty exactly when the set is |
| Generator.AppendSubsection | claude_manager.py:480-493 | appending a subsection adds nothing for an empty set, else the heading followed by one `- item` line per item in order |
| Generator.AppendMcpBlock | claude_manager.py:469-476 | the MCP loop appends, for each selected server found in the catalog, a description line and a `Load when:` line, or the single "None selected" line when the set is empty |
| Generator.GenerateClaudeMd | claude_manager.py:458-505 | the document is the `\n`-join of the header, the MCP block, the banner, the three subsections and the instructions, in that order |
| Generator.ServerLinesShape | claude_manager.py:471-474 | a server contributes no line, or exactly two: one starting with `- name: ` and one starting with `  Load when: `; each starts with `-` or a space |
| Generator.McpEntriesShape | claude_manager.py:470-474 | the MCP entries have even length and every line starts with `-` or a space |
| Generator.McpEntriesPairs | claude_manager.py:470-474 | the MCP entries come in pairs: at each even position a line starting with `- ` is followed by one starting with `  Load when: ` |
| Generator.BulletsShape | claude_manager.py:482-483 | a subsection has one bullet line per item |
| Generator.BulletsMention | claude_manager.py:482-483 | each item appears as the line `- item` |
| Generator.NoneSelectedIff | claude_manager.py:469-476 | the MCP block is exactly the "None selected" line when and only when no server is selected |
| Generator.UnknownServersSkipped | claude_manager.py:471-472 | selected servers missing from the catalog produce no lines |
| Generator.KnownServerListed | claude_manager.py:471-474 | every selected server found in the catalog has its description line and its `Load when:` line in the block |
| Generator.LoadWhenHints | claude_manager.py:474 | the `Load when:` line joins at most the first three hints with `, ` |
| Generator.DocumentFrame | claude_manager.py:460-503 | every document starts with the six fixed header lines and ends with the seven instruction lines |
| Generator.SubHeadings | claude_manager.py:481-491 | the three subsection headings are `###` headings |
| Generator.HeaderHasNoSubHeading | claude_manager.py:460-467 | no header line is a `###` heading |
| Generator.FixedLinesHaveNoSubHeading | claude_manager.py:478-503 | neither the banner nor the instructions hold a `###` heading |
| Generator.HeadingsOnlyFromSubsections | claude_manager.py:460-503 | a subsection heading appears nowhere but in its own subsection |
| Generator.SubsectionPresentIff | claude_manager.py:480-493 | each of `### Agents`, `### Commands`, `### Output Style` is in the document exactly when its set is non-empty |
| Generator.EveryComponentListed | claude_manager.py:480-493 | every selected agent, command and output style appears as a `- name` line |
| Generator.SelectionSections | claude_manager.py:469-493 | for the configuration's selection: "None selected" is the MCP block exactly when no server is selected, and each subsection heading appears exactly when its set is non-empty |
| Generator.SelectedComponentsListed | claude_manager.py:480-493 | every agent, command and output style selected in the configuration has its `- name` line |
| Generator.SelectedServersListed | claude_manager.py:469-474 | every selected server that the catalog knows has its description line and its `Load when:` line in the document |
| Generator.ServerLinesSingle | claude_manager.py:472-474 | a server's lines hold no newline when its name, description and hints hold none |
| Generator.McpEntriesSingleLines | claude_manager.py:470-474 | the MCP entries hold no newline when the names and catalog hold none |
| Generator.BulletsSingleLines | claude_manager.py:482-483 | bullet lines of newline-free items hold no newline |
| Generator.HeaderSingleLines | claude_manager.py:460-467 | the header lines hold no newline when the formatted numbers hold none |
| Generator.InstructionsSingleLines | claude_manager.py:478-503 | the banner and instruction lines hold no newline |
| Generator.DocumentSplitsIntoLines | claude_manager.py:505 | splitting the written document at newlines gives back exactly its lines, whenever no input holds a newline |
| Generator.SingleAgentDocument | claude_manager.py:458-505 | a selection of one agent only yields the header, the "None selected" line, the banner, `### Agents`, `- code-reviewer` and the instructions |
| Strings.Replace | claude_manager.py:99-100 | `replace` of one character keeps the length and swaps exactly the matching characters |
| Strings.ReplaceAppend | claude_manager.py:114 | replacing over a concatenation replaces each part |
| Strings.ReplaceAbsent | claude_manager.py:114 | replacing an absent character changes nothing |
| Strings.Lower | claude_manager.py:99 | `lower()` keeps the length and lower-cases each character |
| Strings.ContainsIff | claude_manager.py:320-322 | the `in` test on strings holds exactly when the substring occurs at some position |
| Strings.Contains | claude_manager.py:320-322 | the `in` test of a substring on strings |
| Strings.Join | claude_manager.py:505 | `sep.join(parts)`: the parts with the separator between neighbours |
| Strings.JoinFree | claude_manager.py:505 | a join of parts free of a character that the separator also lacks is free of it |
| Strings.Split | claude_manager.py:505 | splitting at a character gives at least one piece and no piece holds it |
| Strings.SplitJoin | claude_manager.py:505 | splitting a join at its one-character separator returns the parts |
| Strings.LexLessIrreflexive | claude_manager.py:451 | no name sorts before itself |
| Strings.LexLessAsymmetric | claude_manager.py:451 | two names never each sort before the other |
| Strings.LexLessTransitive | claude_manager.py:451 | sorting order is transitive |
| Strings.LexLessTotal | claude_manager.py:451 | any two distinct names are ordered one way or the other |
| Strings.LexLess | claude_manager.py:451 | `<` on names as `sorted` compares them: code-point order, a proper prefix first |
| Backups.BackupName | claude_manager.py:444 | a backup name is a `CLAUDE_*.md` name ten characters longer than the timestamp, holding the timestamp between prefix and suffix |
| Backups.BackupNameInjective | claude_manager.py:444 | distinct timestamps give distinct backup names |
| Backups.BackupNameOrder | claude_manager.py:443-451 | for equal-length timestamps, backup names sort as their timestamps do |
| Backups.BackupsIn | claude_manager.py:451 | the backup set is exactly the history files matching `CLAUDE_*.md` |
| Backups.Retained | claude_manager.py:451-454 | the backups that survive cleanup: those with fewer than 10 greater backup names, a subset of the backups |
| Backups.Pruned | claude_manager.py:451-454 | the history after cleanup: every file except the backups that are not retained, contents unchanged |
| Backups.Without | claude_manager.py:453-454 | deleting a list of files keeps exactly the other files with their contents |
| Backups.SortedNames | claude_manager.py:451 | `sorted` lists every backup exactly once in strictly increasing order |
| Backups.RetainedBySorted | claude_manager.py:451-454 | the backups that survive are exactly the last 10 of the sorted list |
| Backups.RetainedCount | claude_manager.py:452-454 | min(10, count) backups survive |
| Backups.BackupsOfPruned | claude_manager.py:451-454 | the backups after cleanup are exactly the retained ones |
| Backups.PrunedDropsOldest | claude_manager.py:451-454 | cleanup deletes exactly the first `len - 10` sorted backups, or nothing when there are at most 10 |
| Backups.CleanupPlan | claude_manager.py:451-454 | the cut computed from the sorted list deletes exactly what cleanup removes |
| Backups.PrunedCount | claude_manager.py:452-454 | after cleanup min(10, count) backups are left |
| Backups.RetainedAreNewest | claude_manager.py:451-454 | every deleted backup sorts before every kept one |
| Backups.PrunedRemovesOldest | claude_manager.py:451-454 | in the directory, every deleted backup sorts before every kept backup |
| Backups.PrunedKeepsOtherFiles | claude_manager.py:451 | files other than backups are never deleted, and nothing's content changes |
| Backups.RetainedAllWhenFew | claude_manager.py:452 | with at most 10 backups all are retained |
| Backups.PrunedKeepsAllWhenFew | claude_manager.py:452 | with at most 10 backups the directory is unchanged |
| Backups.NewestKept | claude_manager.py:451-454 | the greatest backup name is always kept with its content |
| Backups.RetainedIdempotent | claude_manager.py:451-454 | retaining twice retains what retaining once does |
| Backups.PrunedIdempotent | claude_manager.py:451-454 | a second cleanup deletes nothing |
| Workspace.ClaudeDir.constructor | claude_manager.py:421-438 | the directory holds the given CLAUDE.md state and history |
| Workspace.ClaudeDir.CreateBackup | claude_manager.py:436-454 | the history gains the current CLAUDE.md text under `CLAUDE_<ts>.md` and is then cleaned to the 10 greatest backups; CLAUDE.md is untouched |
| Workspace.ClaudeDir.DeleteFirst | claude_manager.py:453-454 | the loop deletes exactly the first `cut` backups of the sorted list and nothing else |
| Workspace.ActionGenerate | claude_manager.py:416-431 | CLAUDE.md ends up holding the document rendered from the configuration's four selection sets, each visited once in the returned order; the history is backed up and cleaned from the old text first only when CLAUDE.md existed, and is untouched otherwise |
| Workspace.PreviousContentBackedUp | claude_manager.py:427-431 | when the new backup's name sorts last, the previous CLAUDE.md text survives cleanup in it |
| Workspace.BackupCountAfterGenerate | claude_manager.py:427-454 | after generating over an existing CLAUDE.md between 1 and 10 backups are left |
| Workspace.BackupCountGrows | claude_manager.py:443-454 | with a fresh timestamp the backup count grows by one until it reaches 10 and then stays at 10 |

## Left out

- Textual UI plumbing is not modelled: `compose`, CSS, key bindings, focus and cursor actions, `query_one`, `update_display`, `notify` and `exit`. These are framework calls without logic of their own.
- The `click` entry point `main` and `os.chdir` are process glue. `Path.cwd()` is the `projectPath` parameter of `DetectProject`. `Path.home()` locates the catalog and each server's `config.json` read by `total_tokens`; both are parameters here (the catalog records and the `tokenUsage` map).
- `load_components` and `load_mcp_servers` (globbing, JSON parsing, the swallowed exceptions) are file reading. The catalog is given as the `Component`/`McpServer` records, and each server's `config.json` `token_usage` as the `tokenUsage` map.
- `Component.__post_init__` reads the component's file into `content`. Neither the file path nor the content is modelled, because nothing in the core reads them.
- `datetime.now()` is the `timestamp` string parameter.
- `Project.TokenColor` is computed over exact reals, not binary floating point. The two agree here because 200000 splits the bands at whole token counts.
- The `:,` and `.1f` number formatting of the token line and of the generated "Estimated usage" line is left out. Those numbers are the opaque `totalText`/`percentText` strings.
- The checkbox labels, with their `tokens_kb` figure and truncated descriptions, are left out because they are display only.
- `Strings.Lower` lower-cases ASCII letters only. Python's `lower()` also folds other Unicode letters.
- Sorting compares paths as code-point strings. All backups share one directory, so this is the name order.
- The backup glob is modelled over file names. A directory named like a backup is not distinguished from a file.
- `mkdir` of `.claude` and `.claude/history` is left out: the `ClaudeDir` object stands for the existing directory.
- WidgetIds.ComponentId, WidgetIds.McpId: the ids are passed to the framework's `Checkbox(id=...)`, which rejects an id holding a character it does not allow (a `.`, for instance, from a name like `a.b`) and rejects two equal ids in one container (two servers such as `my-server` and `my_server`). Either makes the UI fail while it is built. The model's id functions are total and do not capture these errors.
- I/O failures are left out: a failing `copy2`, `unlink` or `write_text` raising an exception.
- Project.ProjectConfig.TotalTokens: `total_tokens` reads and parses each selected server's `config.json` without a `try`, so a malformed file, a non-object, or a non-numeric `token_usage` raises. `load_mcp_servers` swallows the same errors. The model's `tokenUsage: map<string, int>` only has well-formed integer entries, so this exception path is not modelled.
- Project.ParseExistingConfig: the `read_text()` of the existing CLAUDE.md can raise. The model takes the file's text as the `content` parameter, so this failure is not modelled.
- Workspace.ClaudeDir.CreateBackup: `copy2` also copies file metadata, which is not modelled. Only the text is copied.
- The `notify` messages naming the backup and the written path are left out.
- The GitHub sync, upload and download actions only notify and have no behaviour, so they are left out.
- The test scripts (`verify_fix.py`, `test_minimal.py`, `test_tui.py`) run subprocesses and depend on the real home directory, so they are not part of this model.
- Generator.GenerateClaudeMd takes each selection set as a sequence, in visiting order. `Workspace.ActionGenerate` obtains these sequences from the configuration with `Generator.IterationOrder`, which visits each element once. The Python iteration order is unspecified, so the model does not fix one.
