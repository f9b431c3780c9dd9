# A verified model of the SmartDNS dashboard's logic

This project models the parts of the dashboard plugin that keep state or transform text, and proves
what they promise. It covers five source files: the configuration engine (`src/config_ui.rs`), the
query log (`src/db.rs`), the collector (`src/data_server.rs`), the login limiter
(`src/http_server.rs`) and the log fan-out (`src/server_log.rs`).

`dafny verify dfyconfig.toml` checks the whole project.

## Modules

- `Text`, `ConfigLines`: trimming, words and joining; physical lines, logical lines and directives.
- `UpstreamOptions`, `UpstreamFile`, `Settings`: options of an upstream server, the file that lists
  them, and what the general parser makes of every key.
- `ManagedAssets`, `AssetsRoundTrip`, `PageContents`, `NormalizedRules`: the flat parser of sets,
  routing items and rules, the three renderers, what reading a rendered text gives, and what each page
  can hold at all.
- `ManagedBlock`, `EffectivePreview`, `MainIncludes`: the include block of the main file, the preview
  built on it, and what both say as directives.
- `SaveRecovery`, `SaveConfig`: a save as steps over a map from paths to texts that may be cut off
  anywhere, and the save methods over a disk with a budget of steps.
- `IncludeWalk`, `IncludeMeaning`, `SavedWalk`: the depth-first include walk, what an include line
  leads to, and the walk over files that were saved.
- `RuleWalkers`, `RuleMeaning`, `GroupAssets`, `GroupResults`, `GroupMeaning`: the three walkers over
  the files the walk finds, and what their results say about the lines of the files.
- `Nesting`, `Brackets`, `ValidatedGroups`: balanced sequences and the forests they spell, validation
  before a save, and what it means for the parsers.
- `DomainPaging`, `KeysetPaging`, `PagingLimits`: compiling a listing into a query, following cursors,
  and exactly where that is sound.
- `DomainCounts`: the insert with its two counter tables.
- `ClientHistory`, `Collector`: entries, batches and what a history says about each client; the event
  loop.
- `LoginLimiter`, `ServerLog`: the login limiter and the log fan-out.

Strings are sequences of characters with the Unicode white-space property written out. Files are a
map from path to text. Time is a natural number that the clock never turns back; the login limiter
counts nanoseconds and the collector milliseconds. A table is a sequence of rows with unique ids.
A transaction is all or nothing. Loops and mutable objects of the source are methods and classes
here, each proved against a function; the lemmas are about these functions.

## What the proofs found

Statements that look natural but fail have their exact condition or a concrete witness:

- The managed block: applying it again changes nothing exactly when the directory does not hold the
  end marker and the first begin marker is absent or closed (`ManagedBlock.EnsureBlockIsIdempotent`),
  and under exactly that condition every cut save is recovered from
  (`SaveRecovery.RecoversIffClosed`).
- A target outside the nameserver items that starts with a slash and ends with two loses one slash
  with every save (`AssetsRoundTrip.NormalFormIsFixed`). A slash in a routing value is read as the
  end of the target (`AssetsRoundTrip.RoutingItemSplits`).
- The walk remembers a visit as path, double colon and group in one string. It emits all that can be
  reached exactly when no two reachable visits share a key (`IncludeWalk.WalkEmitsReachable`), and
  there are trees in which one is left out (`IncludeWalk.KeysCanCollide`).
- Each include of a file for a group leaves two assets, one of which nothing ever fills, because the
  two passes name the included file differently (`GroupMeaning.IncludeLineStaysEmpty`,
  `GroupMeaning.IncludedGroupIsExact`).
- The bracket check reads trimmed lines and the parsers read keys. They agree on a line exactly when
  its bracket is written in full (`ValidatedGroups.MarksAgree`); a begin line with a tab passes the
  check and stays open (`ValidatedGroups.TabbedBeginPasses`).
- A directory with a blank breaks the includes of all pages (`MainIncludes.BlankCutsPath`), and the
  kind `server-h3`, which is parsed, is written as a plain server (`UpstreamFile.KindIsKeptIff`).
- A call one minute after the latest refusal can still be refused: after every sixth admission the
  cycle restarts (`LoginLimiter.AMinuteAfterTheLatestRefusal`, `LoginLimiter.SeventhIsRefused`).
  Once the 32-bit counter wraps the limiter is open (`LoginLimiter.PastTheWrap`); as long as it does
  not, eleven admissions span a minute in runs of any length.
- A named client is never handed over exactly when a batch that failed to store its rows released
  its entry (`Collector.Serve`, `Collector.FailedBatchLosesClient`).
- Paging has an exact condition on the rows (`PagingLimits.PagingIsSoundIff`). Descending order needs
  the upper bound, and ascending order the lower bound, to hold of every matching row beyond a listed
  one, and a page sorted by time needs the times of the wanted rows to follow their ids. Ascending
  order with an upper bound turns the cursor round, so it works only when no second page is needed.
- The flat parser forgets the outer group when a nested one ends and the stack walkers do not; they
  agree exactly when no rule stands behind such an end (`RuleWalkers.WalkersAgreeIff`,
  `RuleWalkers.NestedGroupsDisagree`).
- Two dispatches of a log line that overlap between their phases remove other streams than the closed
  ones (`ServerLog.OverlapHurts`); a single dispatcher never does.

## Model

| member | source | states |
|---|---|---|
| ConfigLines.CollectLogicalLines | src/config_ui.rs:1246-1287 | the line-continuation loop gives the logical lines of the text: comments vanish even inside a continuation, backslash lines run on, a blank line ends one |
| ConfigLines.AbsorbLine | src/config_ui.rs:1250-1280 | each branch for one physical line, with the pending text it leaves |
| ConfigLines.AbsorbTrims | src/config_ui.rs:1251-1263 | only the trimmed line matters to the loop, although the code strips the backslashes from a line that is trimmed at its end alone |
| ConfigLines.ContinuationJoins | src/config_ui.rs:1246-1287 | pieces that end in any number of backslashes, with comment lines between them and blanks around them, make one logical line with the first line that does not go on, joined by single spaces |
| ConfigLines.CrlfReadsAlike | src/config_ui.rs:1250 | a text with carriage returns before its newlines has the same lines as one without |
| ConfigLines.SectionsKeepLogicalLines | src/config_ui.rs:610-617 | joining sections with blank lines loses, merges and reorders no logical line of any of them, whatever they hold: not even an unfinished continuation runs into the next section |
| ConfigLines.SectionsKeepDirectives | src/config_ui.rs:298-299 | hence the joined pages hold exactly the directives of the pages, in order |
| ConfigLines.SectionsAreTight | src/config_ui.rs:610-617 | blank sections leave nothing, and nothing blank stands around the whole |
| ConfigLines.DirectivesOfRendered | src/config_ui.rs:1114-1135 | lines written as comments, blanks or single directives read back one directive per line that says something |
| UpstreamOptions.ParseUpstreamConfig | src/config_ui.rs:1923-1999 | the token loop with its index, all flags and the passthrough rule, computes the fold of the items the options consist of |
| UpstreamOptions.ItemsSpellTokens | src/config_ui.rs:1932-1996 | no option token is dropped, doubled or moved: the items spell the tokens in their order, short flags standing for long ones |
| UpstreamOptions.FoldKeepsOrder | src/config_ui.rs:1936-1994 | groups and unrecognised tokens are collected in the order of the items |
| UpstreamOptions.ShortFlagsRead | src/config_ui.rs:1935-1957 | the short flags for group, bootstrap and exclusion say what the long ones say, whatever follows |
| UpstreamOptions.LastArgumentCounts | src/config_ui.rs:1936-1975 | a proxy, bootstrap, host or subnet setting given more than once goes by the last argument, and is empty when never given |
| UpstreamOptions.SwitchesCount | src/config_ui.rs:1945-1985 | exclusion and fallback are on exactly when their flag occurs |
| UpstreamOptions.ReadTokens | src/config_ui.rs:1923-1999 | the tokens of well-formed fields read back as these fields |
| UpstreamOptions.RenderedReadsBack | src/config_ui.rs:983-1013 | an upstream that carries well-formed fields is read back from its rendered options |
| UpstreamOptions.OptionsNormalForm | src/config_ui.rs:983-1013 | for every option string, with dangling, repeated and unknown options and arguments that look like flags: parse(render(parse(s))) == parse(s) |
| UpstreamOptions.OptionsKeepOrder | src/config_ui.rs:1923-1999 | for every option string the groups and the passed-through tokens appear in the order of the string |
| UpstreamFile.ParseBeginnerConfig | src/config_ui.rs:1114-1179 | the directive loop with its defaults, list keys and catch-all key |
| Settings.SettingsRead | src/config_ui.rs:1114-1179 | for every list of directives: each text setting and each switch goes by the last directive with its key or by its default, all binds are kept in order, repeatable keys collect their values on lines, every other key keeps its last value that is not empty, and no setting or server is among the extras |
| Settings.YesNoReads | src/config_ui.rs:2001-2009 | yes and true in any case and 1 say yes, no and false in any case and 0 say no, all else is the default |
| UpstreamFile.ApplyCollectsServers | src/config_ui.rs:1154-1161 | the upstreams of the result are those of the server directives, in order, whatever other directives stand between them |
| UpstreamFile.GroupUpstreams | src/config_ui.rs:925-938 | one pass files each upstream with a value under its first group or with the ungrouped |
| UpstreamFile.RenderUpstreamsConfig | src/config_ui.rs:912-969 | the rendered file, defaults included when no upstream is configured |
| UpstreamFile.RenderServers | src/config_ui.rs:942-950 | the lines of one group |
| UpstreamFile.RegroupingIsStable | src/config_ui.rs:925-938 | each group, and the ungrouped, keep their order |
| UpstreamFile.RegroupingIsPermutation | src/config_ui.rs:925-938 | no upstream is lost or duplicated by the grouping |
| UpstreamFile.RegroupingIsSorted | src/config_ui.rs:926-966 | groups come in ascending order with the ungrouped last |
| UpstreamFile.LessMeans | src/config_ui.rs:926-928 | that order is the lexicographic one: where two names differ first, the lesser has the lesser character or has ended |
| UpstreamFile.LineReads | src/config_ui.rs:942-950 | a rendered line read as a directive gives the upstream it came from, under the key of the line and without its note |
| UpstreamFile.UpstreamFileRoundTrip | src/config_ui.rs:912-969 | for a nonempty list with token-shaped fields and kinds of any spelling, parsing the rendered file gives the upstreams with a value, stably regrouped, each under the key of its kind, notes cleared |
| UpstreamFile.KindsMean | src/config_ui.rs:971-981 | which spellings of a kind are written under which of the six keys, blanks around them ignored; all others are written as plain servers |
| UpstreamFile.KindIsKeptIff | src/config_ui.rs:971-981 | a kind is written under its own name if and only if it is one of the six keys, so `server-h3`, which the parser accepts, becomes a plain server |
| ManagedAssets.FindNamedOption | src/config_ui.rs:1399-1409 | the option loop finds the token after the first occurrence of the name |
| ManagedAssets.NamedOptionReads | src/config_ui.rs:1399-1409 | stated on the words of the value: the word behind the first occurrence of the name, and nothing if the name is absent or last |
| ManagedAssets.ParseManagedAssets | src/config_ui.rs:2272-2384 | the flat parser with its six lists and its one open group computes the sum of what the directives add |
| ManagedAssets.PushDirective | src/config_ui.rs:2292-2369 | each branch pushes exactly what its directive adds, with the open group's name |
| ManagedAssets.GroupReads | src/config_ui.rs:2292-2321 | a group without nested brackets reads as the first word of its begin line, the word behind the inherit option, and the values of its match lines in order, closed or left open at the end; the group open before it is gone |
| ManagedAssets.SetsRead | src/config_ui.rs:2335-2365 | a set line without a name adds nothing; one with a name adds a set of that name, the file behind its option or none, and for a domain set the type behind its option or a list |
| AssetsRoundTrip.RenderSetsText | src/config_ui.rs:2394-2425 | the section of domain and ip sets with its placeholder |
| AssetsRoundTrip.RenderRoutingItemsText | src/config_ui.rs:2427-2456 | the section of nameserver items |
| AssetsRoundTrip.RenderRuleEntriesText | src/config_ui.rs:2458-2506 | the section of the other routing items and the ip rules |
| AssetsRoundTrip.RoutedIsSplit | src/config_ui.rs:2427-2486 | every routing item goes to exactly one of the two pages |
| PageContents.PagesKeepTheirKeys | src/config_ui.rs:2394-2506 | whatever text the assets were parsed from, stray backslashes and running lines included, every directive read back from the page of routing items is a nameserver, none on the page of rules is, and the page of sets holds sets only |
| NormalizedRules.NormalizedSaysSame | src/config_ui.rs:718-728 | normalising line ends, ending the text, or putting the default in place of a blank one changes none of its directives |
| AssetsRoundTrip.RenderManagedAssetsText | src/config_ui.rs:2386-2392 | the three sections joined |
| AssetsRoundTrip.RenderRoute | src/config_ui.rs:2440-2486 | one routing item: nameserver values after a slash, others after a slash and a space |
| AssetsRoundTrip.RoutingItemSplits | src/config_ui.rs:1370-1397 | a rendered routing item splits back into its normal form if and only if no slash of its value, or of a bare nameserver target, misleads the last-slash rule |
| AssetsRoundTrip.IpRuleSplits | src/config_ui.rs:1383-1397 | a rendered ip rule splits back if and only if no slash followed by a space comes first |
| AssetsRoundTrip.SlashedOptionsSplit | src/config_ui.rs:1383-1392 | a target that starts with a slash ends at the first slash before a space, which is lost, and the options are what follows |
| AssetsRoundTrip.RouteGives | src/config_ui.rs:2327-2334 | a rendered routing line parses to the item in normal form |
| AssetsRoundTrip.DomainSetGives | src/config_ui.rs:2335-2348 | a rendered domain set, with or without a file, parses to itself |
| AssetsRoundTrip.AssetsRoundTrip | src/config_ui.rs:2272-2392 | for well-formed assets, parsing the rendered text gives the normal form: nameserver items first and the others after them, each in order, targets normalised, rule groups and client rules gone, ip-rule groups cleared; parsing the pages joined in the overview's order gives the same |
| AssetsRoundTrip.NormalFormIsFixed | src/config_ui.rs:2272-2506 | rendering and parsing the normal form changes nothing if and only if no target outside the nameserver items starts with a slash and ends with two |
| ManagedBlock.EnsureManagedBlock | src/config_ui.rs:1015-1057 | the built block spliced in place of the first block, or appended when there is no closed one |
| ManagedBlock.BlockIsSealed | src/config_ui.rs:1016-1023 | when the directory does not hold the end marker, the only end marker of the built block is its last line |
| ManagedBlock.EnsureBlockIsIdempotent | src/config_ui.rs:1015-1056 | applying it twice equals applying it once if and only if the directory does not hold the end marker and the first begin marker is absent or closed |
| ManagedBlock.EnsureBlockSettles | src/config_ui.rs:1025-1056 | without the end marker in the directory a third application never changes anything |
| ManagedBlock.LocateBlock | src/config_ui.rs:1025-1034 | the texts before the first begin marker and after the first end marker that follows it, or the whole text |
| ManagedBlock.EndInPathGrows | src/config_ui.rs:1019-1028 | if the directory holds the end marker, every further application to a text without an unclosed block makes it longer |
| ManagedBlock.OutsideIsKept | src/config_ui.rs:1025-1047 | for every text and directory, what lies outside the first block is kept in place up to whitespace at the two seams; what is cut out starts at the first begin marker of the text and ends at the first end marker after it, and nothing is cut out exactly when the begin marker is absent or unclosed |
| MainIncludes.MainSays | src/config_ui.rs:1015-1057 | for every text, with a block or without, closed or not: every directive outside the old block is kept in order, and between them stand the includes of all eight pages, by name |
| MainIncludes.BlankCutsPath | src/config_ui.rs:1218-1221 | the first word of an include line is the path of its page if and only if the directory has no blank |
| EffectivePreview.RenderEffectiveConfigPreview | src/config_ui.rs:1059-1112 | the line loop with its in-block flag and the pages in the preview's own order |
| EffectivePreview.PushPages | src/config_ui.rs:1082-1094 | blank pages are left out, each other page follows an empty line |
| EffectivePreview.PreviewReplacesInterior | src/config_ui.rs:1075-1106 | on a spliced text with no further begin line the preview keeps every outside line in order and replaces the include lines by the pages |
| EffectivePreview.EveryBeginOpens | src/config_ui.rs:1075-1096 | on every text: each begin line, inside a block or not, is kept, followed by all the pages, and opens a block |
| MainIncludes.PreviewSays | src/config_ui.rs:1059-1112 | as directives: the preview says what the main file says around the block and, in place of the includes, everything the pages say, page by page; nothing runs on across a page |
| SaveConfig.Disk.Write | src/config_ui.rs:638 | a write either completes, or leaves the old file, or cuts the text anywhere |
| SaveConfig.Disk.Rename | src/config_ui.rs:639 | renaming happens in one step or not at all |
| SaveConfig.Disk.WriteTextAtomic | src/config_ui.rs:632-652 | a cut leaves the target as it was, at most with a torn temporary file |
| SaveConfig.Disk.BackupFile | src/config_ui.rs:665-680 | the backup of an existing file, possibly torn by a cut |
| SaveConfig.Disk.WriteTextWithBackupIfChanged | src/config_ui.rs:654-663 | an unchanged file is skipped, a changed one backed up and replaced; a cut leaves one of the states between |
| SaveConfig.Disk.ApplyWorkingConfig | src/config_ui.rs:404-411 | the main file gets its block if that changes it |
| SaveConfig.SaveBeginnerConfig | src/config_ui.rs:358-401 | a request is refused, and nothing changed, unless some upstream has a value, the response mode is not blank and the rules text spells a forest; any other is saved, or is cut off in one of the states of the cut relation. After an uncut save, with the main file beside the pages: the file of routing items holds nameserver directives only and the file of rules none; reading the three files of assets in the order of the overview gives the normal form of what the rules text said; the file of upstreams reads back as the upstreams; the other four hold their own texts; former texts are in the backups; the main file includes all eight and says what it said around its block; no other path has changed |
| SaveConfig.SavePages | src/config_ui.rs:379-392 | the eight writes in their order, and a relation to the states in which they can be cut off |
| SaveConfig.SaveMeans | src/config_ui.rs:358-401 | the statement about the files after an uncut save, for every state before it |
| SaveConfig.SavedPreviewSays | src/config_ui.rs:1059-1112 | the overview of the saved files says what the main file says around its block and all that the eight files say, in the order of the preview |
| SavedWalk.SavedPagesAreWalked | src/config_ui.rs:1181-1232 | after a save into an absolute directory without blanks, a walk from the main file comes to every page whatever else it includes, and where keys tell visits apart it emits the page with the text that was saved |
| SaveRecovery.FileIsKept | src/config_ui.rs:632-680 | saving one file: an unchanged text touches nothing; a changed one is in place, the former text in the backup, and no temporary file is left |
| SaveConfig.PagesAreApart | src/config_ui.rs:11-18 | the files, temporary files and backups of the eight pages never coincide |
| SaveConfig.MainElsewhere | src/config_ui.rs:11-18 | a main file outside the directory of the pages is apart from all their files |
| SaveRecovery.FileResumes | src/config_ui.rs:632-680 | wherever the save of one file was cut off, saving it again ends in the state of an uncut save |
| SaveRecovery.SaveResumes | src/config_ui.rs:379-392 | the same for the run over all pages, which skips those already written |
| SaveRecovery.CutIsPartly | src/config_ui.rs:379-398 | at every cut each target is wholly old or wholly new, the new ones are a prefix of the write order, and the main file is new only after all of them |
| SaveRecovery.CutSavesRecover | src/config_ui.rs:358-401 | after any number of saves of one request cut off anywhere, the same prefix property holds and one complete save leaves every managed file, backup, temporary file and the main file as one uncut save would |
| SaveRecovery.RecoversIffClosed | src/config_ui.rs:394-398 | every cut is recovered from if and only if the directory does not hold the end marker and the first begin marker of the main file is absent or closed |
| SaveConfig.SavesRecover | src/config_ui.rs:358-401 | recovery for the concrete pages of a request and any main file apart from them |
| IncludeWalk.SourceWalker.CollectSource | src/config_ui.rs:1188-1232 | the recursive walk ends on every finite tree, cycles included (the unvisited keys decrease), emits a new file before what it includes, marks exactly what it emits, and explores every include whose target exists |
| IncludeWalk.SourceWalker.FollowLines | src/config_ui.rs:1211-1229 | the line loop of one file explores all its includes, in order |
| IncludeWalk.SourceWalker.FollowLine | src/config_ui.rs:1211-1228 | one line: only a conf-file line with an existing target is followed, with its group option |
| IncludeWalk.CollectConfigSources | src/config_ui.rs:1181-1186 | the walk from the configuration file is a finished walk: sources, marks and order |
| IncludeWalk.WalkIsDetermined | src/config_ui.rs:1188-1232 | the recursion emits what taking includes from one list does, each new file followed by its includes before the rest of the list, so tree and root determine the sources and their order |
| IncludeMeaning.FileLeadsTo | src/config_ui.rs:1211-1243 | a file in a directory leads to exactly the files its lines ask for: the first word of a conf-file line from the root, or from the directory of the including file, if it exists, for the group the option names |
| IncludeMeaning.AskedIsWalked | src/config_ui.rs:1211-1228 | whatever an emitted file asks for has its key marked, and where keys tell visits apart it is emitted with its text and group |
| IncludeMeaning.WalkedWasAsked | src/config_ui.rs:1188-1232 | every source but the first is asked for by one that comes before it |
| IncludeMeaning.RelativeIncludeIsSecond | src/config_ui.rs:1234-1243 | a configuration file whose only line includes a file from its own directory: that file comes second, with its text and group |
| IncludeWalk.WalkEmitsReachable | src/config_ui.rs:1181-1232 | a finished walk starts with the root, repeats no path and group pair, and emits exactly the reachable pairs if and only if no two of these share a visit key |
| IncludeWalk.PlainPathsTellApart | src/config_ui.rs:1195-1199 | keys tell all reachable pairs apart when no canonical path holds a double colon or ends in a colon |
| IncludeWalk.CollidingVisitIsSkipped | src/config_ui.rs:1195-1201 | of two different includes of the root that share a key no walk emits both, although both are reachable |
| IncludeWalk.KeysCanCollide | src/config_ui.rs:1195-1201 | a tree with two such includes: the root includes /a for the group x:: and then the file /a::x, and a walk leaves one of them out |
| GroupAssets.CollectPlaceholders | src/config_ui.rs:1540-1588 | the first pass: placeholders for explicit groups and for includes with a group |
| GroupAssets.RunSource | src/config_ui.rs:1593-1667 | the second pass over one source: the stack, the realised groups, the implicit group around the file |
| GroupAssets.MergeAsset | src/config_ui.rs:1670-1682 | a realised group updates the first asset with its key or is appended |
| GroupAssets.BuildRuleGroupAssets | src/config_ui.rs:1537-1689 | both passes and the merge |
| GroupAssets.RunForest | src/config_ui.rs:1602-1651 | running over a balanced text realises each group with the matchers and the line count lying directly in it, not in nested groups |
| GroupAssets.SourceRestoresStack | src/config_ui.rs:1593-1667 | a source with balanced groups leaves the stack as it found it, but for lines outside its own groups that go to the group below |
| GroupResults.BalancedSourcesSpell | src/config_ui.rs:1537-1689 | every list of sources with balanced groups spells a list of forests, so the next two statements cover all of them |
| GroupResults.GroupAssetsAreExact | src/config_ui.rs:1537-1689 | for balanced sources an explicit group has exactly one asset, with exactly its own matchers and count, if and only if no other group of its name begins in its file |
| GroupMeaning.ExplicitGroupIsDescribed | src/config_ui.rs:1537-1689 | every explicit group whose name begins no other group of its file has one asset: named by the first word of the begin line, inheriting the word behind the option, with the file as source, no included file, and its own matchers and count |
| GroupMeaning.InheritIs | src/config_ui.rs:1549-1560 | a name, the option and a parent give an asset that inherits the parent; without the option it inherits nothing |
| GroupMeaning.IncludedGroupIsExact | src/config_ui.rs:1594-1667 | a file included for a group has one asset under its own path as source and as included file, with what lies in it outside its own groups |
| GroupMeaning.IncludeLineStaysEmpty | src/config_ui.rs:1567-1583 | the line that includes a file for a group leaves a second asset, keyed by the including file and the spelling on the line, which stays without matchers and rules |
| GroupMeaning.MergedSums | src/config_ui.rs:1670-1686 | for every list of realised groups, names repeated or not: matchers and count are those of the last with the key, the inherited group is the first that is not empty |
| GroupResults.RuleCountsAddUp | src/config_ui.rs:1537-1689 | the rule counts of all assets sum to the ordinary lines inside some explicit or implicit group |
| GroupResults.MergedLookup | src/config_ui.rs:1670-1686 | the merge leaves every other key alone and never makes a second asset for a key |
| Nesting.BalancedIsForest | src/config_ui.rs:1537-1689 | a sequence is balanced if and only if it spells a forest of groups |
| Brackets.ValidateBeginnerConfig | src/config_ui.rs:2066-2116 | the errors in their order: missing upstream, missing response mode, then the bracket errors; there are none exactly when the request may be saved |
| Brackets.NoIssuesIffMaySave | src/config_ui.rs:2066-2116 | no error if and only if some upstream has a value, the response mode is not blank, and the lines spell a forest |
| Brackets.CheckBrackets | src/config_ui.rs:2094-2109 | the depth loop that restarts from zero after an extra end |
| Brackets.BracketErrorsMean | src/config_ui.rs:2094-2109 | one extra-end error, with its line number and in order, for each end line that no begin line matches; the unclosed error exactly when some begin line is never answered |
| Brackets.NoBracketErrorIffNested | src/config_ui.rs:2094-2109 | no bracket error if and only if the lines form a balanced word, that is, spell a forest |
| Brackets.EndIsMatched | src/config_ui.rs:2102-2105 | an end line is matched exactly when the depth before it is above zero |
| ValidatedGroups.MarksAgree | src/config_ui.rs:2095-2101 | the check and the parsers take a line for the same bracket if and only if a begin line has a space and a name after its key and an end line nothing |
| ValidatedGroups.ValidatedIsBalanced | src/config_ui.rs:2094-2109 | a text of such lines passes the check if and only if its groups are balanced for the parsers |
| ValidatedGroups.TabbedBeginPasses | src/config_ui.rs:2097 | a begin line with a tab before its name passes the check and opens a group that nothing closes |
| RuleWalkers.BuildClientRuleAssets | src/config_ui.rs:1691-1736 | the walker that keeps group names on a stack, for client rules |
| RuleWalkers.BuildIpRuleAssets | src/config_ui.rs:1746-1805 | the same for ip rules |
| RuleMeaning.RulesBelong | src/config_ui.rs:1691-1805 | in balanced files every client rule and every ip rule is found once, in document order, with its own words, its file, and the innermost group around it, else the group its file is included for |
| RuleWalkers.WalkersAgreeIff | src/config_ui.rs:1691-1805 | on every text, nested groups included, the stack walkers and the flat parser give every client rule the same group if and only if no client rule stands behind the end line of a group nested in a named one, and the same for ip rules |
| RuleWalkers.WalkersAgreeWithParser | src/config_ui.rs:1691-1805 | in particular on every text whose groups never nest |
| RuleWalkers.NestedGroupsDisagree | src/config_ui.rs:2309-2321 | after a nested group ends the stack returns to the outer group and the flat parser to none |
| DomainPaging.CompileQuery | src/db.rs:730-936 | the clause vector and the three flags, updated step by step, give the compiled query or the parameter error; CompiledAgrees and FetchHolds say what the query means |
| DomainPaging.PushBounds | src/db.rs:827-893 | time bounds, the cursor that replaces one of them, and the cursor clause |
| DomainPaging.CompiledAgrees | src/db.rs:749-936 | field by field: a compiled query matches exactly the rows that agree with the id, the domain by its mode, type, client, group, reply code and both flags, and with the bounds and the cursor |
| DomainPaging.FetchHolds | src/db.rs:1330-1419 | every row of a page agrees with all fields given, the bounds and the cursor; a page is ordered by time and then id only when no field narrows it, else by id, ascending exactly when asked so, next and previous pages alike; a page from the front or behind a cursor that is not full lacks no such row |
| DomainPaging.GetDomainList | src/db.rs:1330-1419 | compile, select in order, limit or offset, collect, and turn a backward page round; it fails exactly on an unknown keyword, and a page holds what FetchHolds says |
| KeysetPaging.WantedIs | src/db.rs:749-863 | the rows a listing is about are exactly those that agree with every field given and lie in both time bounds |
| KeysetPaging.NextMatches | src/db.rs:827-893 | a next page draws exactly from the wanted rows beyond its cursor, where the bound the cursor stands in for holds |
| KeysetPaging.PrevMatches | src/db.rs:827-893 | a previous page draws exactly from the wanted rows before its cursor, where the bound the cursor stands in for holds |
| KeysetPaging.PagingUnderChange | src/db.rs:730-936 | under that condition, whatever rows come and go between fetches, the ids of the followed pages run strictly one way, only wanted rows are listed, and once a page is short every wanted row present throughout was listed exactly once |
| KeysetPaging.KeysetIsOffset | src/db.rs:1361-1378 | on an unchanged table following cursors m times is asking for page m + 1 by offset |
| KeysetPaging.PreviousUndoesNext | src/db.rs:762-770 | from a full page, one step forward and one back give the same page in the same order, through flipped order, limit and final reverse |
| KeysetPaging.PreviousUndoesNextFromFirst | src/db.rs:1358-1419 | the same from the first page |
| PagingLimits.PagingIsSoundIff | src/db.rs:730-936 | paging is orderly for every sequence of snapshots of a history if and only if a page sorted by time is sorted by id and the time bound a next cursor stands in for holds beyond it; in ascending order with an upper bound, if and only if all wanted rows fit on a page (with a lower bound as well) or nothing lies below a wanted row (without) |
| PagingLimits.SoundKeysetIsOffset | src/db.rs:1361-1378 | wherever paging is sound, following cursors on an unchanged table is asking for pages by offset |
| PagingLimits.TimeOrderMisordersIds | src/db.rs:906-919 | any two wanted rows whose ids and times disagree come out of order, or one is lost, when the first page is sorted by time |
| PagingLimits.CursorLeavesTimeBound | src/db.rs:827-863 | any row beyond a listed one that breaks the bound the cursor stands in for is listed on the next page, though not wanted |
| PagingLimits.AscendingBoundLosesRows | src/db.rs:827-844 | in ascending order with an upper bound no row beyond the cursor is ever drawn |
| PagingLimits.AscendingBoundTurnsBack | src/db.rs:827-844 | instead, without a lower bound, any matching row below a listed one comes back on the next page |
| PagingLimits.PrevIsExactIff | src/db.rs:762-893 | previous queries draw exactly the wanted rows before their cursor if and only if the bound the cursor stands in for holds there; in ascending order with a lower bound, only when a wanted row stands alone |
| DomainCounts.BucketKeyStartsBucket | src/db.rs:667-672 | in wrapping 64-bit arithmetic the key starts the local hour or day of its time stamp if and only if local time and bucket start are not before the epoch |
| DomainCounts.RecentKeys | src/db.rs:630-672 | for every offset within a day and every time stamp from two days after the epoch up to 2^62 both keys are sound and the day starts no later than the hour |
| DomainCounts.QueryLog.InsertDomain | src/db.rs:629-692 | rows and both counters change together or, on a failed row or counter statement, not at all |
| DomainCounts.UpdateCounts | src/db.rs:587-606 | the upserts add one table to the other entry by entry |
| DomainCounts.AgreementIsUnique | src/db.rs:587-692 | agreement with the rows determines the table, however they were batched |
| DomainCounts.SplittingChangesNothing | src/db.rs:629-692 | a batch inserted whole or in two parts gives the same log and counters |
| DomainCounts.DayCountIsSumOfHours | src/db.rs:667-681 | wherever both tables agree with the log each local day is the sum of its 24 hours |
| DomainCounts.RunInserts | src/db.rs:629-692 | after any run of inserts, failing ones included, every hour and day count is the number of committed rows in its bucket and every day is the sum of its hours |
| Collector.DataServer.FillMacCache | src/data_server.rs:551-569 | a cache of more than 10000 addresses is emptied first, then every known address of the batch goes in |
| Collector.DataServer.NoteClients | src/data_server.rs:571-639 | counted requests file their clients anew or renew the entry; RunIsFair and KnownAreHandedOver say what the entries are worth |
| Collector.DataServer.Release | src/data_server.rs:641-654 | exactly the entries that are too old or have an address are released |
| Collector.DataServer.HandleBatch | src/data_server.rs:540-690 | one handled batch: exactly the due entries leave, and exactly their clients are handed over if and only if the rows could be stored; what stays is young and unresolved |
| Collector.DataServer.OnReceive | src/data_server.rs:819-851 | receiving arms the timer or handles a full batch, as the step of the loop says |
| Collector.DataServer.OnTimer | src/data_server.rs:810-818 | the timer handles the buffer, as the step of the loop says |
| Collector.DataServer.OnFlushTick | src/data_server.rs:772-796 | a tick hands over exactly the clients of the entries that are older than ten seconds or resolved |
| Collector.DataServer.Drain | src/data_server.rs:854-870 | shutdown hands over exactly the clients still pending and leaves none |
| Collector.Serve | src/data_server.rs:742-870 | for every interleaving of receives, timers, ticks and stop: handled batches and buffer concatenate to what was received; a named client is handed over, since and with the time of the last batch naming it, if and only if no batch that failed to store its rows released its entry after that naming; nothing in a client that is handed over is made up, and every hand-over is justified, as RunIsFair says; the batches, their times and the buffer are those of the events; the buffer is below 8192 and the cache below 26384 |
| Collector.FewRequestsWait | src/data_server.rs:819-851 | in batch mode and without a timer event fewer than 8192 requests wait together, in order, and none is handled |
| Collector.NothingOutlivesTheTimer | src/data_server.rs:787-851 | whatever events come before and after a timer event, what is buffered at the end was received after it |
| ClientHistory.BatchSettles | src/data_server.rs:571-680 | one batch decides for each client whether its last naming is pending, handed over, or dropped |
| ClientHistory.RunIsFair | src/data_server.rs:571-680 | whole runs: every client handed over has no host name, an address that came with a handled request from it or none, and the time of a batch that names it; one without a hardware address leaves a batch only if it was named more than 3000 ms before and has waited since, and a tick only after more than 10000 ms; a stored batch hands over every client it names and tells a hardware address of, with the address of its last counted request, or else the last one that came from it |
| ClientHistory.KnownAreHandedOver | src/data_server.rs:551-635 | while no more than 10000 requests were handled, every client whose hardware address ever came is handed over, with a hardware address, by every stored batch that names it |
| ClientHistory.CacheIsBounded | src/data_server.rs:552-556 | the cache never outgrows its limit by more than a batch |
| ClientHistory.DroppedGrows | src/data_server.rs:641-680 | a client stays dropped until a later batch names it, and becomes so only by a failed batch that releases its entry |
| Collector.FailedBatchLosesClient | src/data_server.rs:669-680 | a failed row insert skips the client insert, so a client with a known address is dropped at once |
| LoginLimiter.LoginAttempts.Reset | src/http_server.rs:406-410 | count zero and the stamp is now |
| LoginLimiter.LoginAttempts.Check | src/http_server.rs:412-436 | the counter in its 32-bit width, the stamp and the answer after one call |
| LoginLimiter.ElevenAdmissionsSpanAMinute | src/http_server.rs:412-436 | in every run without a reset, of any length, in which the 32-bit counter does not wrap, any eleven admitted attempts span at least a minute |
| LoginLimiter.ShortRunsNeverWrap | src/http_server.rs:419-421 | a run no longer than the range of the counter does not wrap it |
| LoginLimiter.AMinuteAfterTheLatestRefusal | src/http_server.rs:412-436 | a call a minute after the latest refusal is admitted if and only if no full cycle of six admissions lies between, or that cycle is itself a minute old |
| LoginLimiter.SeventhIsRefused | src/http_server.rs:412-436 | a refused call a minute after the latest refusal: after it six calls are admitted and the seventh, at the same instant, is not |
| LoginLimiter.EarlyRefusalPersists | src/http_server.rs:421-429 | after a refusal less than thirty seconds from the stored time, calls with gaps under thirty seconds are all refused |
| LoginLimiter.WaitingEnds | src/http_server.rs:419-435 | once five attempts are used up, calls between half a minute and a minute after the stored time are refused and put off nothing: the first call a minute after that time is admitted and starts a new cycle |
| LoginLimiter.PastTheWrap | src/http_server.rs:419-421 | after 2^31 calls at once the 32-bit counter is negative and eleven further calls are admitted at one instant: that the counter does not wrap is needed |
| ServerLog.Stream.TrySend | src/server_log.rs:62-72 | closed, full, or the message is queued |
| ServerLog.Stream.Receive | src/server_log.rs:41-45 | the receiving side takes the oldest message |
| ServerLog.StreamsAreFifo | src/server_log.rs:41-72 | whatever the interleaving of dispatches and receives: what a subscriber got, and after it what still waits, is what waited at first and then the messages that found room, each once and in order; at most 4096 wait |
| ServerLog.PromptReceiversMissNothing | src/server_log.rs:62-66 | a receiver that lets fewer than 4096 messages wait misses none |
| ServerLog.Log.Subscribe | src/server_log.rs:41-45 | a new open stream at the end of the list |
| ServerLog.Log.SendToAll | src/server_log.rs:50-73 | the read phase: exactly the open streams with room gain the message once, and exactly the closed ones are noted |
| ServerLog.Log.RemoveClosed | src/server_log.rs:75-80 | the write phase removes exactly the noted streams although others were appended |
| ServerLog.RemoveEach | src/server_log.rs:77-79 | the reverse loop over the noted positions |
| ServerLog.BackwardRemovalKeepsUnflagged | src/server_log.rs:75-80 | removing noted positions from the last to the first keeps exactly the others, in order |
| ServerLog.OverlapHurts | src/server_log.rs:47-81 | two dispatches that send before either removes: unless no stream was closed, the second removal is out of range or removes as many other streams |
| ServerLog.Log.Dispatch | src/server_log.rs:47-81 | one dispatch with any number of subscriptions between its phases: the closed streams are gone, all others keep their order, the newcomers follow, each open stream with room gained the message exactly once |

## Left out

- UpstreamFileRoundTrip: fields with blanks, line ends or a trailing backslash are outside its precondition.
- AssetsRoundTrip: fields with blanks or line ends, lines that end in a backslash and set names that read as an option name are outside its precondition; slashes in values are too, with the exact condition in RoutingItemSplits.
- NormalFormIsFixed: the same preconditions.
- WalkersAgreeIff: for a source that is not itself included for a group; the flat parser has no such notion.
- GetDomainList: a request without any parameter record, whose order the code leaves to the database, and page number zero, whose subtraction wraps in the source.
- Serve: handing a client over means calling the client insert with it; that this insert succeeds is not claimed, and requests still buffered at stop stay unhandled, as in the source.
- PreviousUndoesNext: ascending order with a time bound is left out; there the next or the previous query turns round, as PagingIsSoundIff and PrevIsExactIff state.
- RuleCountsAddUp: files in which two groups of one name begin are excluded; the merge overwrites the first with the last.
- PreviewReplacesInterior: texts with a second begin line are excluded; there the preview opens another block, as EveryBeginOpens states.
- SavesRecover: the main file lies apart from the managed files, their temporary files and their backups.
- SaveBeginnerConfig: the service, performance, logging and network pages are inputs; their renderers only print fields one by one. What it says about the asset and upstream files when fields are not well-formed is only which keys each file can hold.
- SavedPreviewSays: the main file has no unclosed block and no second begin line, as in PreviewReplacesInterior.
- SavedPagesAreWalked: the pages are their own canonical paths.
- FileLeadsTo: the path of the including file holds a slash and no doubled slash before its last name, as canonical paths do.
- ValidatedIsBalanced: lines that run on by a backslash are outside its precondition; the check reads physical lines and the parsers logical ones.
- KnownAreHandedOver: beyond 10000 handled requests the cache may have been emptied.
- ValidateBeginnerConfig: warnings are not modelled.
- Brackets: the depth counter is unbounded here, 32 bits wide in the source.
- DomainCounts: the counts of a batch are unbounded here, 32 bits wide in the source.
- WriteTextAtomic: the fallback that overwrites a file in place when renaming is denied, which is not atomic, and input and output errors in general.
- Pruning of backups, which finds at most the one backup just written.
- Directories, permissions, symbolic links other than the canonical path of each spelling, and files that change during a walk.
- The pattern operator of the database stays an uninterpreted predicate; the swapped prefix and suffix patterns are modelled as the code builds them.
- Counting rows for the total, the client list and the top lists; the client list repeats the domain list but lacks the final flip for ascending order.
- More than two dispatches at once in the log fan-out; the audit twin repeats the same code.
- The delay of the batch timer, the periodic disk check and the statistics counters apart from the request total.
- Rule-set files, ip-set assets, explanations, recommendations and the notes attached to assets.
- HTTP routing, tokens, sockets, terminals, TLS, whois and the bindings to the C core.
