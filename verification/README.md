# lua-testcase, modelled and verified

lua-testcase is a test runner for Lua with a few C helpers. This project models the
logic that decides what is run, what is reported and what is printed, and proves
properties of it: which user functions a run calls and in which order, how the reported
numbers and the exit status follow from those calls, what the inline-option rewriter does
to a source text, which files are found, and what the small stateful protocols keep over
every sequence of operations.

`dafny verify dfyconfig.toml` checks all of it.

## How it is organised

| module | what it models |
|---|---|
| `Suite`, `Trace`, `Runs`, `Selection`, `Runner`, `Asked` | `lib/runner.lua`: the calls of a run, their grammar, the accounting, test selection, the working directory, and which tests a run calls |
| `Command`, `Dedup` | `bin/testcase.lua`: from pathnames to files to the exit status |
| `Found` | `lib/filesystem.lua` and `bin/testcase.lua` together: from a directory tree to the files that are loaded |
| `Patterns`, `Lines`, `Trim`, `InlineOption`, `LuaLines` | `lib/eval.lua`: Lua's backtracking matcher, lines, the inline-option rewriter, and Lua's own line numbers |
| `Formats`, `Select`, `Stringify`, `Printer` | `lib/printer.lua` and `src/select.c` |
| `Filenames`, `Ordering`, `Discovery`, `Paths` | `lib/filesystem.lua` |
| `Registry`, `Slots`, `GetOpts` | `lib/registry.lua`, `lib/getopts.lua` |
| `IoHook` | `lib/iohook.lua` |
| `Processes`, `Fork` | `src/fork.c` over a process table |
| `Timer`, `Signals` | `src/timer.c`, `src/signal.c` |
| `Prelude`, `Positions` | options and results; the positions that a filter keeps |

Code that changes state in the source changes state here: `Runner.Runner`,
`InlineOption.Context`, `Registry.Registry`, `Discovery.FileList`, `Printer.Printer`,
`IoHook.Module`, `Fork.Machine` and `Timer.Stopwatch` are classes, and loops are loops.
Each method is proved against a specification, and the lemmas say what that specification
means: against an independent definition, over every run, or in both directions.

User functions are an oracle: for every call it says how the call ends and where it
leaves the working directory, so what is proved about a run holds for all user code. Two more
oracles say which directory calls succeed. A run completes exactly as long as none of those it
consults refuses; where one does, the contracts say which, and what had been called by then.
`realpath`, directory listings, file loading, `tostring`, `string.format`, `chdir` and the
clock are parameters in the same way. Lua's `#` on a table is any border of that table.

## What the code does not promise

These are the places where the code does less than its reader may expect. Each has the
exact condition or a concrete instance.

- `trim_cwd` compares a raw prefix: with the start directory `/a/b`, `/a/bc/x` and
  `/a/b/c/x` are both shown as `c/x` (`Filenames.TrimCollision`). Two files have one name exactly
  when they clash like that (`Filenames.SameNameIff`). The name is not only shown: it is resolved again
  before a file is loaded, and it is the key of the registry. The command goes on and loads exactly the files
  found if and only if the start directory ends at a path boundary in each of them (`Found.LoadedAreFoundIff`). Started
  in `/a/b` on the directory `/a/bc`, it exits because nothing is called `c/x_test.lua` (`Found.WrongNameExits`), or, when
  something is, it loads that instead (`Found.WrongFileLoaded`). Every function is
  filed under its own file exactly when no two names clash (`Slots.OwnSlotIff`), and the directory the
  runner enters is the one the file is in exactly at a boundary (`Filenames.DirectoryOfFile`).
- A fork handle may name a stranger. A child inherits its parent's handles; when the
  pid in one of them comes back as a child of the child's own, `wait` and the finalizer act on that
  child (`Fork.StaleHandle`). And a finalizer whose last wait is interrupted by a signal leaves a child that has
  ended to an older handle (`Fork.AbandonedChild`). A handle that stores the pid of an unreaped child names the
  child it was made for exactly when no younger handle of the process stores the same pid
  and the child was not abandoned in that way (`Fork.RightChild`, `Fork.AbandonedBy`).
- `is_child` asks whether a handle stores 0, and a copy of such a handle stores 0 too: it is true in the process born of
  that fork and in every descendant that has a copy, and nowhere else (`Fork.ChildIffDescends`). A grandchild is told to be the
  child, and the finalizer of that handle ends it (`Fork.Grandchild`).
- The finalizer probes and then kills. What it kills is certain to be its own child,
  whatever happens in between, exactly when SIGCHLD is not ignored (`Fork.KillWindow`).
- `parse_format` reads words, not conversions: `"%s,%s"` has no parameter (`Formats.CommaSeparated`). It counts
  every percent sign exactly when each word has at most one, and none that a space follows ends in one
  (`Formats.EveryPercentCountsIff`), and the count is the number of conversions, with `%%` for none, exactly when
  each word has at most one, and no word with one that a space follows ends in a percent sign (`Formats.ConversionsCountIff`).
- The rewriter ends a line at `\r*\n`, Lua at every `\r` too, and a `\r` may stand in the placeholder's white space
  (`LuaLines.BareReturn`). Then the functions after it get other line numbers: Lua counts the same lines exactly
  when the placeholder's line has no carriage return of its own (`LuaLines.LuaLinesKept`). What follows the closing
  brace on that line is discarded with it.
- A hook over a hook drops the open session, whose end function never runs (`IoHook.HookedOver`). An end function that
  raises leaves the functions of its session in place: output through a captured `print` begins the session again
  (`IoHook.EndRaised`).
- A clock that goes back makes a stop add almost 2^64 nanoseconds (`Timer.ExactIff`).
- The last `chdir` of a run is not checked, unlike the others: `Runner.Runner.Run` says where a run ends
  when it fails.
- The comment on `signames` (src/signal.c:357-364) says that aliases appear only as name keys.
  The code also lists them in the array of their number, and so does the model.

## Model

| member | source | states |
|---|---|---|
| Runner.Runner.Run | lib/runner.lua:276-330 | without names every file is run; a run refuses exactly when blocked, or when a requested name is in no file, and then calls nothing. A completed run made one complete trace per selected file, in order, reports what these amount to and ends in the start directory; no call came back in a child and no directory call but the last failed. In a run that stops, the oracle consulted last refused and none before it did; it has completed the files before, and its calls of the file it stopped in begin a complete trace of that file in its directory. With oracles that never refuse it completes |
| Runner.Runner.RunFiles | lib/runner.lua:297-329 | the accumulated numbers and error lists are those of the calls made, with the number of directory calls; on a stop, the cause, the completed files and the beginning of the next one |
| Runner.Runner.RunNext | lib/runner.lua:301-310 | one file, every call of it starting in the start directory joined with its dirname; on a stop the cause, and the beginning of a trace of the file |
| Runner.Runner.RunFile | lib/runner.lua:138-212 | the calls form a complete trace of the file; the success count is the number of test calls that passed and the error list is the failed calls in order; on a stop the calls begin a complete trace of the file, and the oracle consulted last refused |
| Runner.Runner.RunRound | lib/runner.lua:159-195 | one iteration makes a round, or a broken round exactly when the loop is left; on a stop its calls begin one of the two |
| Runner.Runner.RunHook | lib/runner.lua:147-158 | a defined hook is called once, an undefined one never; only a failed one adds an entry; it stops only at a call of this hook, when refused |
| Runner.Runner.RunSetupTeardown | lib/runner.lua:119-131 | a hook counts as failed even when it raises no error value; on a stop the recorded call is this one, and the cause holds |
| Runner.Runner.RunTest | lib/runner.lua:91-103 | a test call is recorded with the outcome that is returned; on a stop the recorded call is this one, and the cause holds |
| Runner.Runner.Call | lib/runner.lua:51-71 | exactly when a call is made, what is recorded of it, when it returns and with what; one that returns leaves the process where it was before, whatever the function did |
| Runner.Runner.CheckFound | lib/runner.lua:284-293 | reports exactly whether some requested name has count 0 |
| Runner.Runner.EnterDirectory | lib/runner.lua:304-308 | succeeds exactly when both moves do, and where it ends in each case |
| Runner.Runner.Chdir | lib/filesystem.lua:124-129 | a successful move resolves the path against the current directory, a failed one stays |
| Trace.FileHasShape | lib/runner.lua:138-212 | by position: a failed before_all is the only call; tests entered are a prefix of the file's tests, each framed by its hooks; the first failed each-hook ends the loop; after_all is last and once |
| Trace.FileAccounts | lib/runner.lua:138-212 | a file has at most (tests - successes) + 2 errors, none exactly when every call passed, and then every test was called |
| Trace.FileDetermined | lib/runner.lua:138-212 | the outcomes determine the calls: two traces of a file that agree where the outcomes do are the same |
| Trace.RoundsHaveShape | lib/runner.lua:160-195 | the loop over the tests, call by call |
| Trace.FailuresInOrder | lib/runner.lua:138-212 | one entry for each failed call, in call order, with its error and the name of the test, or `before_all`, `after_all`, `before_each`, `after_each` |
| Trace.FileCallsOwn | lib/runner.lua:138-212 | every call is one of the file's own function for that purpose |
| Runs.RunAccounts | lib/runner.lua:276-330 | over the whole run: successes at most the tests, errors bounded, no error exactly when every call passed, and then every test of every file ran |
| Runs.ErrorsAreFailures | lib/runner.lua:310-321 | the error lists, flattened, are the failed calls in call order |
| Runs.ErrorsInOrder | lib/runner.lua:310-321 | a file is on the error list, under its name and in order, exactly when one of its calls failed, with the entries of these |
| Runs.FailuresAreExplained | lib/runner.lua:301-329 | successes and failures add up to the tests, the count is the number of errors, and failures never come without an error |
| Runs.CleanIff | bin/testcase.lua:232-235 | the failure test of the command is false exactly when no file failed to load, every call passed and every test ran |
| Runs.RunDetermined | lib/runner.lua:276-330 | the outcomes of the calls determine the calls of a whole run |
| Selection.SelectTestcases | lib/runner.lua:219-255 | the new list is the selection, and each requested name's count is the number of tests with that name in all files |
| Selection.SelectTests | lib/runner.lua:228-235 | the tests kept and the counts added for one file |
| Selection.SelectIsFilter | lib/runner.lua:219-255 | the selection is a subsequence of the files: exactly those with a requested test, hooks and other fields kept |
| Selection.SelectSelect | lib/runner.lua:219-255 | selecting by A and then by B is selecting by their intersection |
| Selection.CountsAddUp | lib/runner.lua:219-255 | the counts of distinct names sum to the tests kept |
| Selection.KeepMembers | lib/runner.lua:228-246 | a file survives exactly when one of its tests is requested |
| Asked.RunCallsAsked | lib/runner.lua:276-321 | the files that are run are, in order, all of them, or those with a test of a given name; in each, its tests that are asked for are called in their order, up to a failed hook, and no others, all in the directory of the file |
| Asked.MissingIff | lib/runner.lua:281-294 | a run refuses for a missing name exactly when no test of any file has one of the names |
| Command.Finish | bin/testcase.lua:192-236 | without names the status is 0 exactly when every file loads, every call passes and every test of every file runs; in general the process gets to an exit status unless an oracle it consulted refused, the last one and none before it; in particular always when none does. Then the status is 0 exactly when nothing failed to load, every requested name exists, every call passed and every selected test ran. Otherwise the files before are complete and what was called of the next begins a trace of it |
| Command.GetPathnames | bin/testcase.lua:101-115 | succeeds exactly when every pathname resolves, to pairwise different paths, and returns these in order |
| Command.GetFiles | bin/testcase.lua:120-142 | the first occurrence of each resolved file over all pathnames, or a stop exactly when a listing or a resolution fails, decided by the first pathname at which that happens: a raised error when it does not exist, an exit otherwise |
| Command.EveryFileOnce | bin/testcase.lua:120-142 | every listed file is represented, and no two of the files have the same canonical path |
| Command.ListedInOrder | bin/testcase.lua:127-138 | the files of a pathname come after those of the pathnames before it, in the order in which they are listed |
| Found.ListedAreFound | lib/filesystem.lua:53-119 | the names listed over all pathnames are exactly the shortened names of the test files below them |
| Found.PathsAreReal | lib/filesystem.lua:53-84 | the walk builds real paths: absolute, no empty component, no dot component |
| Found.LoadedAreFoundIff | bin/testcase.lua:120-142 | every listed name resolves, and the files that are kept resolve to exactly the test files in the tree, iff the start directory ends at a boundary in each of these; names that lead nowhere are included |
| Found.WrongNameExits | bin/testcase.lua:84-96 | a directory beside the start directory whose one file is listed under a name that does not resolve, so that the command stops |
| Found.WrongFileLoaded | bin/testcase.lua:120-142 | the same directory when the name does resolve: another file is kept, and the one found is not |
| Command.LoadFiles | bin/testcase.lua:147-161 | the files whose evaluation fails, with their errors, in order |
| Command.LoadErrorsInOrder | bin/testcase.lua:147-161 | a file is on the list, with its error and in order, exactly when its evaluation fails |
| Command.NoLoadErrors | bin/testcase.lua:147-161 | the list is empty exactly when every file loads |
| Dedup.KeepsFirsts | bin/testcase.lua:131-138 | deduplication by a key keeps the positions that hold the first occurrence of their key, and only those |
| Dedup.EachKeyOnce | bin/testcase.lua:131-138 | no key is lost and none comes twice |
| InlineOption.ParseInlineOpt | lib/eval.lua:98-126 | the one-pass parser computes the transformation that is defined on all lines at once; and, by the text of the lines: nothing to load iff they say nothing but `false`, the text with the code in place of the placeholder iff `true` asks for it and no option follows, and when exactly each of the three errors |
| InlineOption.RewriteIsParse | lib/eval.lua:58-126 | the transformation of all lines at once is the one that the text of the lines calls for |
| InlineOption.Context.CheckLine | lib/eval.lua:58-93 | one call updates the three fields of the context as the line's kind demands, or fails and leaves them |
| InlineOption.FindOption | lib/eval.lua:73-78 | the option of a line, with its trimmed value |
| InlineOption.FindPlaceholder | lib/eval.lua:59-64 | whether a line matches the placeholder pattern |
| InlineOption.ScanReflects | lib/eval.lua:58-126 | the incremental context reflects the decision taken on the whole list of lines |
| InlineOption.ScanCoherent | lib/eval.lua:58-93 | the placeholder is never both expected and found, over any lines |
| InlineOption.ReplacedIff | lib/eval.lua:58-126 | a rewrite happens iff one line says `true`, all option lines before it say `false`, the next line is the placeholder and no option line follows |
| InlineOption.IgnoredIff | lib/eval.lua:58-126 | a file is left alone iff all of its option lines say `false` |
| InlineOption.NoPlaceholderIff | lib/eval.lua:59-64 | when exactly the missing-placeholder error is raised |
| InlineOption.OtherErrorsIff | lib/eval.lua:78-90 | when exactly the other two errors are raised: an option that comes again, or one with a wrong value, whichever is first |
| InlineOption.KindOfText | lib/eval.lua:45-50 | the text `true` enables and `false` disables, any other value is invalid; a line has one value at most |
| InlineOption.SaysIff | lib/eval.lua:45-45 | an option line is white space, dashes, white space, `lua-testcase:` and the value in white space |
| InlineOption.StructureKept | lib/eval.lua:119-121 | splitting the rewritten text gives the same lines and terminators, with only the placeholder's text replaced |
| InlineOption.RewriteOnce | lib/eval.lua:98-126 | parsing a rewritten text always fails with the missing-placeholder error |
| LuaLines.LuaLinesKept | lib/eval.lua:119-121 | the text up to the placeholder is the lines before it; at every point after the placeholder Lua has counted the same lines in the text and in the rewritten text iff the placeholder's line has no carriage return of its own |
| LuaLines.BareReturn | lib/eval.lua:46-46 | a placeholder with such a carriage return |
| LuaLines.LuaBreaks | lib/registry.lua:114-115 | `\n`, `\r` and either pair of the two are one line break each (Lua 5.1 Reference Manual, section 2.1) |
| LuaLines.LexText | lib/registry.lua:114-115 | text within a line never lowers the line number of a function, and keeps it iff it has no carriage return of its own |
| InlineOption.PlainLastLine | lib/eval.lua:114-117 | leaving out a last line that is neither option nor placeholder never changes the outcome |
| InlineOption.ShortIsNeither | lib/eval.lua:114-117 | a line of at most one character is neither |
| InlineOption.OptionForm | lib/eval.lua:45-45 | the option pattern accepts white space, dashes, white space and the name, and nothing else |
| InlineOption.PlaceholderForm | lib/eval.lua:46-46 | the placeholder pattern, token by token |
| InlineOption.PlaceholderIsNoOption | lib/eval.lua:45-46 | no line matches both patterns |
| InlineOption.CodeIsNoPlaceholder | lib/eval.lua:43-46 | the inserted code does not match the placeholder pattern |
| Patterns.MatchIffAccepted | lib/eval.lua:44-46 | the backtracking matcher succeeds iff the pattern accepts some prefix (Lua 5.1 Reference Manual, section 5.4.1) |
| Patterns.SpacesAre | lib/eval.lua:45-46 | `%s` is the six white space characters of C |
| Patterns.MatchSound | lib/eval.lua:44-46 | what the matcher returns is accepted by the pattern |
| Patterns.SkipRun | lib/eval.lua:44-46 | a repetition followed by a disjoint class never gives characters back |
| Patterns.FindLeftmost | lib/eval.lua:101-112 | the search returns the leftmost match |
| Lines.FindCrlf | lib/eval.lua:101-112 | the search for `\r*\n` finds the first newline and all the carriage returns before it |
| Lines.NextLine | lib/eval.lua:106-112 | each step of the scan takes the next line of the text |
| Lines.SplitJoin | lib/eval.lua:98-126 | splitting into lines loses nothing |
| Lines.JoinSplit | lib/eval.lua:98-126 | every well-formed list of lines is the split of its own text |
| Trim.TrimSpaceUnique | lib/trim.lua:28-30 | the trimmed text is the only one that differs by surrounding white space and has none |
| Trim.TrimPrefix | lib/trim.lua:48-53 | takes off the prefix when it is there, and nothing otherwise |
| Trim.TrimSuffix | lib/trim.lua:36-42 | takes off the suffix when it is there, and nothing otherwise |
| Formats.ParseFormat | lib/printer.lua:41-87 | counts the space-terminated words with an odd number of percent signs that do not end in one, plus one for an odd last word; the callback gets the character after each such word's last percent sign, and the offsets 1, 2, ... |
| Formats.WordsSplit | lib/printer.lua:53-76 | the words are the parts of the format between its spaces |
| Formats.PercentsAre | lib/printer.lua:53-62 | the percent signs of a word are counted, each once |
| Formats.OneParameter | lib/printer.lua:56-84 | a word with one percent sign has one parameter: the character after it |
| Formats.NoPercents | lib/printer.lua:41-87 | a text without percent signs has no parameter |
| Formats.CommaSeparated | lib/printer.lua:41-87 | two conversions in one word are not counted |
| Formats.EveryPercentCountsIff | lib/printer.lua:41-87 | the count is the number of percent signs iff each word has at most one, and no word that a space follows ends in one |
| Formats.ConversionsCountIff | lib/printer.lua:41-87 | the count is the number of percent signs left when pairs are taken out iff each word has at most one left, and no word with one that a space follows ends in a percent sign |
| Select.HeadOf | src/select.c:31-45 | at most the first idx arguments, for every integer idx |
| Select.TailOf | src/select.c:47-59 | the arguments from position idx on, for every integer idx |
| Select.HeadTail | src/select.c:31-59 | head(i) followed by tail(i + 1) is all the arguments |
| Stringify.VStringify | lib/printer.lua:94-138 | the formatted text of the first n arguments, then the rest as text, joined by spaces; no hole before `concat`, whatever border `#` returns; an error exactly when `string.format` raises |
| Stringify.PlainText | lib/printer.lua:94-138 | without parameters the text is that of every value, strings as they are and the rest by `tostring`, joined by spaces |
| Stringify.FormattedText | lib/printer.lua:104-129 | with n parameters `string.format` gets the first n arguments, `nil` for each that is missing and a text where the format says `%s`; the other arguments follow |
| Stringify.EveryArgumentOnce | lib/printer.lua:94-138 | the formatted part and the rest share out the arguments in order; each missing one is formatted as nil |
| Stringify.ParseFormat | lib/printer.lua:41-48 | a value that is no string has no parameter |
| Printer.Printer.constructor | lib/printer.lua:176-195 | formatting is on unless it is switched off |
| Printer.Printer.PrintLine | lib/printer.lua:140-169 | what is appended to stdout: without a prefix the message and the suffix; nothing when the arguments cannot be formatted |
| Printer.Printer.WriteLines | lib/printer.lua:146-163 | the loop writes one prefixed line per line of the message |
| Printer.NothingIsLost | lib/printer.lua:148-163 | with a newline-free prefix, taking the prefix off each output line gives the message with `\r\n` made `\n`; there is no prefix without a line |
| Printer.AllIsWritten | lib/printer.lua:140-169 | with the suffix off the end, what is written is the message, or with the prefix off each line the message with `\r\n` made `\n` |
| Printer.FindNewline | lib/printer.lua:39-39 | the leftmost match of `\r?\n` |
| Filenames.TrimmedLeadsBack | lib/filesystem.lua:41-46 | the shown name resolves back to the path iff the start directory ends at a boundary of it |
| Filenames.SameNameIff | lib/filesystem.lua:41-46 | two files have the same name iff they are the same, or one is what the other would be without the slash after the start directory |
| Filenames.Unreachable | lib/filesystem.lua:41-46 | a file that is not cut at a boundary is reached by the name of no file |
| Filenames.TrimInjective | lib/filesystem.lua:41-46 | below a boundary, different paths have different names |
| Filenames.TrimCollision | lib/filesystem.lua:41-46 | two paths that clash, and so share a name |
| Filenames.DirectoryOfFile | lib/filesystem.lua:135-163 | the directory computed for a file is the one it lies in, iff the start directory ends at a boundary |
| Filenames.BaseNameForm | lib/filesystem.lua:155-155 | a base name stands between a slash, or the start, and slashes at the end; `.` for slashes alone |
| Filenames.DirNameForm | lib/filesystem.lua:157-160 | what comes before the last slash; `/` or `.` when that is nothing |
| Discovery.GetFiles | lib/filesystem.lua:92-119 | an error, nothing, the file itself, or a sorted list that holds exactly the names of the regular files below a directory that end in the suffix, `_test.lua` by default, and are reached through no name with a dot at its start |
| Discovery.WalkDir | lib/filesystem.lua:53-84 | appends exactly the matching files of the tree, or fails exactly when something below cannot be read |
| Discovery.MatchesAreTestFiles | lib/filesystem.lua:53-84 | a path is collected iff it leads to a regular file with the suffix through no dot entry |
| Discovery.WantedIsTestFile | lib/filesystem.lua:53-72 | a test file by its name: no component starts with a dot, and the last is something followed by the suffix |
| Discovery.ListedIff | lib/filesystem.lua:92-119 | what is listed for a directory that can be read: the names of these files, and no others |
| Discovery.FullNameOf | lib/filesystem.lua:61-61 | the path of an entry is that of its directory, a slash and its name |
| Discovery.MatchesNoDups | lib/filesystem.lua:53-84 | no file is collected twice |
| Discovery.FailsIff | lib/filesystem.lua:53-84 | the walk fails iff an entry that it has to visit cannot be read |
| Discovery.OrderDoesNotMatter | lib/filesystem.lua:92-119 | the result does not depend on the order in which directories list their entries |
| Discovery.ReorderedIsSame | lib/filesystem.lua:53-84 | a directory with its entries in another order is the same tree |
| Ordering.TableSort | lib/filesystem.lua:113-117 | the contract of `table.sort`: ordered, and a permutation |
| Ordering.SortUnique | lib/filesystem.lua:113-117 | with an antisymmetric order there is one sorted list |
| Ordering.StringLeIs | lib/filesystem.lua:117-117 | file names ascend: a prefix first, or the smaller character at the first difference |
| Registry.Registry.AddTest | lib/registry.lua:104-144 | one registration, step by step as the checks come |
| Registry.Registry.GetList | lib/registry.lua:62-93 | a listing of the registry: each entry once, as hook or test; tests by line, sources by name, the exact total |
| Registry.Registry.Clear | lib/registry.lua:96-98 | the registry is empty |
| Registry.BuildItem | lib/registry.lua:66-84 | one source: its four hooks and its other entries as tests, in whatever order the table is iterated |
| Registry.ItemIs | lib/registry.lua:52-84 | the four hooks are the functions registered under their names, the tests all the others, each once, by ascending lines |
| Registry.FirstWins | lib/registry.lua:104-144 | over any sequence of adds the registry is the first-wins map from file and name to function |
| Registry.RejectedChangesNothing | lib/registry.lua:104-144 | a rejected add leaves the registry as it was |
| Registry.WhyRejected | lib/registry.lua:104-137 | after any adds, the first wrong argument is reported, or the line of the function that already has the name |
| Registry.ReplayConsistent | lib/registry.lua:104-144 | keys and contents agree in every registry that adds can build |
| Registry.ListingUnique | lib/registry.lua:62-93 | iteration order does not matter: two listings have the same sources with the same hooks and tests, and are equal when no two tests share a line |
| Slots.SlotOfAdd | lib/registry.lua:121-129 | a slot exists iff an add came under its name, and carries the file of such an add |
| Slots.OwnSlotIff | lib/registry.lua:114-128 | over any sequence of adds, every function is filed under its own file iff the names of no two of the files clash |
| Slots.CalledAsRegistered | lib/runner.lua:138-212 | from the registration to the call: every call of a run is one of the function registered under the name by which its failure is reported |
| Slots.CalledWhereItIs | lib/runner.lua:304-308 | every call of a file is made in the directory the file is in, iff the start directory ends at a boundary of its path |
| GetOpts.ParseTestcase | lib/getopts.lua:37-62 | the loop finds the comma-separated parts, fails iff one is empty and returns each name once |
| GetOpts.ParseJoin | lib/getopts.lua:37-62 | parsing inverts joining by commas, for distinct names without commas |
| GetOpts.ParseJoinParse | lib/getopts.lua:37-62 | a successful parse gives distinct names, exactly those between the commas, and parsing them again gives the same |
| GetOpts.ParseFailsIff | lib/getopts.lua:37-62 | parsing fails iff the value is empty, begins or ends with a comma, or has two in a row |
| GetOpts.GetOptions | lib/getopts.lua:68-105 | the options as a whole-line meaning: flags given anywhere, positional arguments in order, the first list of names, and the two errors with their precedence |
| GetOpts.MeaningOfText | lib/getopts.lua:68-105 | which arguments set which option, as texts `--help`, `--help=...` and so on; the first `--testcase` decides between the two errors |
| GetOpts.SaysIff | lib/getopts.lua:79-79 | the key and the value of an option are what is before and after its first `=` |
| GetOpts.PositionalInOrder | lib/getopts.lua:78-101 | the other arguments are those that do not start with a dash, in order |
| GetOpts.OptionsCommute | lib/getopts.lua:68-105 | an option may be moved past a positional argument |
| GetOpts.FailsAlready | lib/getopts.lua:68-105 | what follows a failing prefix of the arguments does not change its error |
| IoHook.Module.SetHook | lib/iohook.lua:79-101 | begins a session with the given functions, the default for each that is left out; the first wrong argument is reported, and then nothing changes |
| IoHook.Module.EndHook | lib/iohook.lua:103-114 | ends the session, calling its end function exactly when its start function was called; when that raises, the functions of the session stay |
| IoHook.Module.Printout | lib/iohook.lua:53-61 | nothing while blocked; else the start function on the first output of the session, then the hook, unless the start function raises |
| IoHook.Module.Output | lib/iohook.lua:53-77 | printing reaches the hook in a session and the terminal outside of one, call by call |
| IoHook.Module.BlockOutput | lib/iohook.lua:43-45 | output is blocked; the history of sessions and calls goes on |
| IoHook.Module.UnblockOutput | lib/iohook.lua:47-49 | output is not blocked; the history of sessions and calls goes on |
| IoHook.SessionRules | lib/iohook.lua:53-114 | in a session the start runs first and once, each text that gets past it is written once in order, the end runs last and only in an unhooked session |
| IoHook.OneSession | lib/iohook.lua:53-114 | from hook over print to unhook: the three given functions are called, in this order, and nothing else |
| IoHook.EndIffStarted | lib/iohook.lua:103-114 | after any history, `unhook` calls the end function iff the start function ran in that session |
| IoHook.BlockedStretch | lib/iohook.lua:41-61 | any amount of output while blocked calls nothing |
| IoHook.HookedOver | lib/iohook.lua:79-101 | hooking again calls nothing and drops the open session |
| IoHook.EndRaised | lib/iohook.lua:103-114 | after an end function that raises, output through a captured `print` calls the start function of the old session again, and its hook |
| IoHook.EndReturned | lib/iohook.lua:103-114 | after one that returns, only the defaults are left |
| Processes.StepKeeps | src/fork.c:36-153 | every step of any process keeps the invariant: the handle made for a child stores its pid as long as it exists, and exists while the child lives; other handles with that pid are older; a probed child cannot go away |
| Processes.BootKeeps | src/fork.c:130-153 | the invariant holds at the start |
| Fork.Machine.Fork | src/fork.c:130-153 | a fork is the fork step: the parent's handle gets the pid, the child's copy 0, all other handles are copied |
| Fork.Machine.Wait | src/fork.c:36-90 | a wait is the wait step; it reports the pid in the handle as ended exactly when it reaps, as stopped or continued exactly when that child has not ended, and no child when the handle names none |
| Fork.Machine.IsChild | src/fork.c:92-97 | whether the handle stores 0 |
| Fork.Machine.Collect | src/fork.c:106-121 | an undisturbed finalizer is the probe, kill and reap steps in a row |
| Fork.FinalizerRuns | src/fork.c:106-121 | and it leaves nothing of a child that lived or waited to be reaped |
| Fork.NewHandle | src/fork.c:130-153 | a new handle stores the pid in the parent and 0 in the child, under a number not used before |
| Fork.HandleHistory | src/fork.c:36-90 | over every interleaving a handle's absolute pid never changes, and it is negative iff it was or its own wait reaped the child |
| Fork.OnlyOwnChildrenKilled | src/fork.c:106-121 | over every interleaving SIGKILL goes to an unreaped child of its sender, while the sender does not ignore SIGCHLD |
| Fork.KillWindow | src/fork.c:114-117 | between probe and kill the target is certain iff SIGCHLD is not ignored |
| Fork.RightChild | src/fork.c:36-121 | a handle that stores the pid of an unreaped child, living or ended, names the child it was made for iff no younger handle of the process stores that pid and the child is not abandoned |
| Fork.RightLivingChild | src/fork.c:106-121 | a handle that stores the pid of a living child names the child it was made for iff it is the youngest that does |
| Fork.AbandonedBy | src/fork.c:114-117 | a child is abandoned only when the finalizer of its own handle has killed it and is interrupted before it reaps |
| Fork.RightChildInRun | src/fork.c:36-121 | in every run whose finalizers are not interrupted, being the youngest is enough and needed |
| Fork.ChildIffDescends | src/fork.c:92-97 | over every run a handle stores 0 exactly in the process born of its fork and in the descendants of that process that copied it |
| Fork.Grandchild | src/fork.c:92-115 | a run in which a grandchild has such a copy, and collecting it ends the grandchild |
| Fork.StaleHandle | src/fork.c:106-121 | a run in which a finalizer is about to kill another child |
| Fork.AbandonedChild | src/fork.c:36-121 | a run in which the youngest handle is about to reap, by `wait`, a child it was not made for |
| Fork.RunKeeps | src/fork.c:36-153 | the invariant over every run |
| Timer.InUnits | src/timer.c:80-114 | the value times its unit is exactly the time, and it is in the range of its unit |
| Timer.OneReading | src/timer.c:80-114 | there is exactly one such way to write a time |
| Timer.Stopwatch.StartTimer | src/timer.c:166-181 | the start step; a clock failure changes nothing |
| Timer.Stopwatch.StopTimer | src/timer.c:146-164 | the stop step and the elapsed time; a clock failure changes nothing |
| Timer.Stopwatch.ResetTimer | src/timer.c:190-196 | the reset step |
| Timer.Stopwatch.Total | src/timer.c:183-188 | the total in readable units |
| Timer.TotalIsMeasured | src/timer.c:146-196 | for every sequence of operations with a monotone clock nothing wraps: total <= start <= now, and the total is the sum of disjoint intervals |
| Timer.Telescopes | src/timer.c:146-164 | consecutive stops add up to last stop minus start |
| Timer.ExactIff | src/timer.c:159-161 | the 64-bit difference is exact iff the clock has not gone back |
| Signals.LookupByName | src/signal.c:202-210 | the first entry with the name, in any case |
| Signals.LookupByNum | src/signal.c:216-224 | the first entry with the number |
| Signals.SameNameIff | src/signal.c:202-210 | names are the same when they agree letter by letter, capital or small |
| Signals.NamesInOrder | src/signal.c:365-414 | the names of a number are those of its entries, in table order |
| Signals.SigNames | src/signal.c:365-414 | the index maps every number to all its names in table order and every name to its number |
| Signals.IndexAgrees | src/signal.c:284-414 | for distinct names the index and the linear lookups agree in both directions |
| Signals.FirstName | src/signal.c:284-295 | a number's first name is the one `tosigname` gives |
| Signals.SameNumber | src/signal.c:300-311 | a name of the index has the number `tosignum` gives |
| Signals.NameLeadsBack | src/signal.c:284-311 | `tosignum(tosigname(n))` is n |

## Left out

- Everything printed by the runner and the command: headlines, totals, times, the notices about names not found in one file. What is decided is modelled, what is shown is not.
- How `eval` reads and compiles a file (`loadfile`, `load`, `xpcall`): loading is a function from a name to an error or none.
- The timer, the garbage collection and the I/O hook that `call` uses around a user function; each of the first and the last has a module of its own.
- Registration while a run is under way, and tests that register tests.
- Symbolic links, cycles of directories and changes to a directory while it is read: a tree is finite and stands still. `stat`, `realpath` and `readdir` are functions on it.
- Error texts and the line numbers inside them; only the kind of an error is kept.
- Locales: `%s` in patterns and `strcasecmp` are those of the C locale, and file names are ordered by character codes.
- `tostring` metamethods that raise or return something that is no string.
- User output functions that print from inside a hook: `IoHook` calls are not re-entrant.
- `fork()` that fails with an error number, `waitpid` interrupted in `wait_lua`: both return an error and change nothing. An interrupted finalizer is modelled. A `kill` of the process's own child that fails, which would take a change of user ids.
- Child processes that a Lua process starts by other means than `testcase.fork`. SIGKILL ends a process at once.
- The formats `"%.3f m"` and the like that go with a time, and rounding: division is exact, where the source divides `long double` values.
- The entries of the signal table, which depend on the platform: the theorems are about every table, and where they need it, about those whose names differ in more than case.
- `src/chdir.c`, `src/stat.c`, `src/readdir.c` and the other thin wrappers of system calls, luacov, help texts.
- Printer.Printer.PrintLine: writes are atomic and never fail.
- Registry.ListingUnique: equal line numbers leave the order of two tests open, as `table.sort` does; such listings are the same up to that order.
