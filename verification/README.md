# Nightshade, verified

A Dafny model of the parts of Nightshade where a mistake costs an outage: the
configuration language, the configuration daemon and its commit-confirm, the
pipeline that applies a commit and undoes a failed one, the networkd renderer, the
interface tracker, and the small algorithms of the shell's output. Everything is
proved for all inputs, all runs and all crash points; nothing is bounded.

Run `dafny verify dfyconfig.toml` here to check it all.

## How it is built

Each component has a specification, written as functions on values, and the program's
own form beside it. Where the program is a loop or an object with fields, so is the
Dafny: the lexer, parser and renderer, the config tree, the daemon, the archive, the
machine a commit applies to, the tracker, the schema loader and the line diff are
methods and classes proved against those functions. The theorems are lemmas about the
functions, so they hold of the methods too.

| part | files |
|---|---|
| shared | `Wrappers`, `Order` (the order maps iterate in), `Text` (string operations) |
| lexer and paths | `Lex`, `LexRoundTrip`, `LexComments`, `Tokeniser`, `Paths` |
| config tree | `Config`, `ConfigProofs`, `TreeObject` |
| parser and renderer | `Curly` (grammar and lines), `CurlyLines`, `CurlySteps`, `CurlyRoundTrip`, `CurlyTheorem`, `CurlyDepth`, `CurlyParsed`, `CurlyStatements`, `CurlyShape`, `CurlyParser`, `CurlyRenderer` |
| diff | `Diff`, `DiffReport`, `CommitOrder` |
| schema files | `Loader`, `LoaderProofs`, `LoaderTheorem`, `LoaderObject` |
| daemon | `Daemon` (the state machine), `DaemonInvariant`, `DaemonRuns`, `DaemonConfirm`, `DaemonArchive`, `DaemonRequests`, `ConfigdObject`, `ArchiveObject` |
| applying | `ArtifactSets`, `HostObject`, `Transaction`, `CommitPipeline`, `Shipped` (the three renderers, and a commit with them), `Hosts` |
| networkd | `Ini`, `Networkd`, `NetworkdDevices`, `NetworkdCheck`, `NetworkdTheorem`, `NetworkdRebuild`, `NetworkdAttach`, `NetworkdConsistent`, `NetworkdPlan`, `NetworkdReadback`, `NetworkdObject` |
| tracker | `Tracker`, `TrackerRates`, `TrackerHistory`, `TrackerObject` |
| output | `LineDiff`, `NaturalOrder`, `Wrap` |

**The daemon's runs.** A run is a sequence of requests, timer firings, crashes and
restarts, on a clock that does not go back. An action is a new memory and a list of
writes in order; a crash keeps any prefix of the writes and loses the memory. Memory and
disk are separate, and the invariant says how they agree between requests and what a
crash can leave. Runs start with `/run` empty and no archive: the generation starts again
at a reboot while the archive does not, so what is said of numbers and of the archive is
said between two reboots.

**The machine.** A commit applies to a map of files, a map of live devices and the
records of what was last applied. Every single step may fail, in any combination: a
script decides which, and the contracts hold for every script. Each says what is left
wherever it stops, and that what went wrong took at least so many failing steps: after a
single one in a whole commit every renderer is put back to its record, and it takes two
to leave a commit unrecovered (`CommitPipeline.Commit`).

**The schema** is a parameter: which trees are valid, what `set` and `delete` make of a
candidate, which nodes are tag nodes, and the defaults.

## Where the code and its documentation differ

The model does what the code does. Where that is not what a comment or a document says,
a lemma pins the difference down.

- `curly.rs` promises the round trip for every tree. It holds exactly when the root has
  no comment and the braces nest at most 64 deep (`CurlyDepth.RoundTripIff`); a header of
  more than 64 words on one line parses and does not come back (`CurlyParsed.LongHeader`).
- `confirm.rs` (lines 104-107) says the marker is armed before the change is applied. It
  is the last of the four writes of a commit (`state.rs` lines 427 and 494), so a crash
  before it leaves the change with nothing to undo it (`DaemonConfirm.CrashWindow`). The
  commit-confirm theorems start at the marker.
- `confirm.rs` (lines 64-66) keeps `previous_generation` to go back to. A rollback takes
  a new generation instead (`DaemonConfirm.PendingEnds`).
- A rollback that crashed after its first write and that the machine refuses when it is
  tried again leaves the earlier configuration on the machine under the record of the
  commit (`DaemonConfirm.RollBackWhole`).
- `commit.rs` (line 82) reports that the previous configuration has been restored. It is,
  with three exceptions, each with its exact condition:
  - A device the failed apply created, or rebuilt with another create-time setting, stays
    as it is if that apply reloaded (`NetworkdDevices.RestoreSettlesIff` for any subset of
    the deletes, `CommitPipeline.DevicesBackIff` for what a commit leaves,
    `Shipped.DevicesComeBackIff` in terms of configs).
  - A renderer whose record cannot be read is skipped, and keeps what the failed commit
    wrote (`CommitPipeline.LeftIff`, `Shipped.UnreadResolvStays`). An apply whose record
    cannot be read destroys no device (`NetworkdDevices.UnreadSettlesIff`).
  - A file outside the managed directories that only the failed plan writes is not removed
    (`CommitPipeline.BackIff`, `CommitPipeline.StrayFileStays`). None of the renderers
    the program ships has one, so with those every file comes back
    (`Shipped.FilesComeBack`).
- `system.rs` (lines 19-20) leaves the rest of `/etc/hosts` alone. It keeps the lines and their
  order; a carriage return before a line's end is dropped (`Hosts.OneLineOfOurs`,
  `Hosts.EndingsChange`).
- The networkd check does not see two physical, or two virtual, interfaces of one name:
  the second file replaces the first (`NetworkdTheorem.CheckRenderedIff`).
- `archive.rs` (line 91) says the sidecar is written first; the configuration is, and the
  sidecar is what makes it visible. The model follows the code.
- Schema files merge to the same document in any order up to `==` on their values, which
  does not tell 0.0 from -0.0 (`LoaderTheorem.ZeroesTellTheOrder`).
- A diff cannot tell a flag from an empty container, nor emptying a container from
  deleting it (`Diff.EmptyDiffIff`, `Diff.LastSettingAmbiguous`).

## Model

| member | source | states |
|---|---|---|
| `LexRoundTrip.QuoteReads` | src/nightshade-schema/src/lex.rs:98-121 | whatever a string holds, its quoted form followed by a separator lexes as one value token with exactly that text, at the right place, and leaves the separator |
| `LexRoundTrip.StrReads` | src/nightshade-schema/src/lex.rs:219-265 | every escape the quoting writes is undone by the string reader, for any character |
| `LexRoundTrip.HexReads` | src/nightshade-schema/src/lex.rs:235-265 | the two-digit `\x` form of a control character decodes to that character |
| `LexRoundTrip.WordsRead` | src/nightshade-schema/src/lex.rs:180-217 | a line of quoted words lexes as those words in order, all on the same line |
| `Lex.NextToken` | src/nightshade-schema/src/lex.rs:180-209 | every token consumes at least one character, so lexing any text ends |
| `Tokeniser.QuoteInto` | src/nightshade-schema/src/lex.rs:98-121 | the appending loop writes bare words as they are and escapes everything else, which `QuoteReads` reads back |
| `Tokeniser.Lexer.Bump` | src/nightshade-schema/src/lex.rs:161-171 | one character on, with the line and column it lands on |
| `Tokeniser.Lexer.ReadString` | src/nightshade-schema/src/lex.rs:219-233 | the loop reads the same text, or reports the same error, as the string grammar |
| `Tokeniser.Lexer.ReadEscape` | src/nightshade-schema/src/lex.rs:235-265 | each escape, including hexadecimal ones and the malformed ones, as the grammar has it |
| `Tokeniser.Lexer.ReadLineComment` | src/nightshade-schema/src/lex.rs:267-279 | a line comment is the rest of its line less one leading space |
| `Tokeniser.Lexer.ReadBlockComment` | src/nightshade-schema/src/lex.rs:281-309 | a block comment is its trimmed lines joined, or an error where it opened |
| `Tokeniser.Lexer.Next` | src/nightshade-schema/src/lex.rs:180-209 | the mutable lexer yields the token stream the parser theorems are about, one token at a time |
| `LexComments.BlockCommentReads` | src/nightshade-schema/src/lex.rs:281-309 | a block comment with a star before each line reads as one comment of the text a run of `#` lines would have made, for any trimmed lines |
| `LexComments.QuotedIfNeeded` | src/nightshade-schema/src/lex.rs:98-121 | a value is written without quotes exactly when, written so, it reads as itself |
| `LexComments.UnclosedString` | src/nightshade-schema/src/lex.rs:219-233 | a quoted value that is not closed is refused at its opening quote |
| `LexComments.UnclosedComment` | src/nightshade-schema/src/lex.rs:281-297 | a block comment that is not closed is refused where it opens |
| `LexComments.UnexpectedReads` | src/nightshade-schema/src/lex.rs:180-209 | a character that begins no token is refused where it is |
| `LexComments.EscapesAre` | src/nightshade-schema/src/lex.rs:235-265 | five letters are escapes, and any other but `x` is refused at its backslash |
| `LexComments.HexEscapesAre` | src/nightshade-schema/src/lex.rs:235-265 | two hexadecimal digits are the character of that number up to 7f, and anything else is refused |
| `Paths.Parse` | src/nightshade-schema/src/path.rs:57-79 | the loop over the lexer collects the segments, refusing braces, comments and lexical errors |
| `Paths.Display` | src/nightshade-schema/src/path.rs:144-155 | the writing loop spells each segment quoted where it needs it, a space between |
| `Paths.DisplayParses` | src/nightshade-schema/src/path.rs:57-155 | for every list of segments, empty and control characters included, parsing what is displayed gives the path back |
| `Paths.DisplayInjective` | src/nightshade-schema/src/path.rs:144-155 | no two paths display alike |
| `Paths.PathRefuses` | src/nightshade-schema/src/path.rs:57-79 | a brace or a comment after any path is refused where it is |
| `ConfigProofs.MutateAllOrNothing` | src/nightshade-schema/src/config.rs:226-362 | a refused mutation leaves the tree exactly as it was, with no interior node left from the walk |
| `ConfigProofs.MutateRefusedIff` | src/nightshade-schema/src/config.rs:226-362 | a mutation is refused exactly when an ancestor holds values or the node there is of the other kind |
| `ConfigProofs.MutateEffect` | src/nightshade-schema/src/config.rs:260-362 | on success the node holds what was asked under its old comment, and every path that is not an ancestor is unchanged |
| `ConfigProofs.MutateAncestors` | src/nightshade-schema/src/config.rs:226-252 | ancestors stay interior and keep their comments; created ones have none |
| `ConfigProofs.RemoveEffect` | src/nightshade-schema/src/config.rs:371-384 | removing takes exactly the named subtree, and says whether there was one |
| `ConfigProofs.RemoveValueEffect` | src/nightshade-schema/src/config.rs:388-402 | removing a value takes that value, the node with it if it was the last, and nothing elsewhere |
| `ConfigProofs.SubtreeEffect` | src/nightshade-schema/src/config.rs:411-424 | a subtree keeps everything at and below the path and nothing beside it |
| `TreeObject.ConfigTree.Find` | src/nightshade-schema/src/config.rs:183-189 | the loop down the children finds what the tree has at the path |
| `TreeObject.ConfigTree.Apply` | src/nightshade-schema/src/config.rs:226-362 | the in-place mutators leave the tree the specification function gives, error included |
| `TreeObject.ConfigTree.Delete` | src/nightshade-schema/src/config.rs:371-384 | in-place removal against its specification |
| `TreeObject.ConfigTree.DeleteValue` | src/nightshade-schema/src/config.rs:388-402 | in-place removal of a value against its specification |
| `CurlyLines.LinesRead` | src/nightshade-schema/src/curly.rs:319-428 | the text of rendered lines lexes to the tokens of those lines, line numbers included |
| `CurlyTheorem.EntryParse` | src/nightshade-schema/src/curly.rs:334-383 | whatever a node is, its rendered entry parses to that node at that place, comments, flags and empty containers included, in either layout |
| `CurlyTheorem.InstancesParse` | src/nightshade-schema/src/curly.rs:398-408 | instances written in the compact layout come back as one tag node with all its instances |
| `CurlyDepth.EntryTooDeep` | src/nightshade-schema/src/curly.rs:153-237 | a rendered entry whose braces nest past the limit is refused as too deep, whatever comes after it |
| `CurlyDepth.RoundTripIff` | src/nightshade-schema/src/curly.rs:120-428 | for every tree and every layout oracle: parsing what was rendered gives the tree back if and only if the root has no comment and the braces nest at most `MAX_DEPTH` |
| `CurlyDepth.LayoutRoundTripIff` | src/nightshade-schema/src/curly.rs:153-292 | the same of every layout in which one-line comments are written beside any line of their setting instead of above it |
| `CurlyDepth.BesideIsAbove` | src/nightshade-schema/src/curly.rs:181-199 | a document reads the same whichever comments are written after their settings on the line |
| `CurlyStatements.OneLineParses` | src/nightshade-schema/src/curly.rs:181-278 | a line of one or two words and any comment after it is the leaf of those words with that comment; more words are refused with their number |
| `CurlyStatements.SecondCommentMovesOn` | src/nightshade-schema/src/curly.rs:181-199 | a comment beside a setting that has one already goes to the next setting |
| `CurlyStatements.TrailingNotesDropped` | src/nightshade-schema/src/curly.rs:181-207 | comment lines before a closing brace or at the end belong to nothing |
| `CurlyStatements.StrayBrace` | src/nightshade-schema/src/curly.rs:201-209 | a brace too many after any document is refused on its line |
| `CurlyStatements.NeverClosed` | src/nightshade-schema/src/curly.rs:174-179 | a block that is never closed is refused at its brace |
| `CurlyStatements.NestedTooDeep` | src/nightshade-schema/src/curly.rs:160-164 | of blocks nested past the limit the first brace past it is the one refused |
| `CurlyDepth.RenderStable` | src/nightshade-schema/src/curly.rs:319-428 | rendering, parsing and rendering again gives the same text, whichever layout the first rendering used |
| `CurlyParsed.ParsedRoundTripIff` | src/nightshade-schema/src/curly.rs:120-292 | any text that parses renders to text that parses to the same tree, if and only if the tree nests shallowly enough in the chosen layout |
| `CurlyParsed.LongHeader` | src/nightshade-schema/src/curly.rs:216-227 | a one-line header of any length parses, but its nested rendering parses back only up to `MAX_DEPTH` words |
| `CurlyParser.Parser.Peek` | src/nightshade-schema/src/curly.rs:138-143 | looking ahead loses no token |
| `CurlyParser.Parser.ReadRun` | src/nightshade-schema/src/curly.rs:241-253 | the run loop takes exactly the values on one line |
| `CurlyParser.Parser.PutLeaf` | src/nightshade-schema/src/curly.rs:255-278 | a finished run becomes the leaf the grammar says, or the same error |
| `CurlyParser.Parser.Body` | src/nightshade-schema/src/curly.rs:153-237 | the loop with its pending comment and previous setting builds, in place, the tree of the grammar |
| `CurlyParser.ParseDocument` | src/nightshade-schema/src/curly.rs:120-128 | the mutable parser computes the parse the round trip is about |
| `CurlyRenderer.PutComment` | src/nightshade-schema/src/curly.rs:416-428 | a comment is written a line at a time at its depth |
| `CurlyRenderer.PutEntry` | src/nightshade-schema/src/curly.rs:334-383 | the appending renderer writes the lines of one entry, compact or nested |
| `CurlyRenderer.RenderDocument` | src/nightshade-schema/src/curly.rs:319-332 | the appending renderer writes the text the round trip is about |
| `CurlyShape.EntryWrites` | src/nightshade-schema/src/curly.rs:334-408 | a tag node with no comment that holds instances and nothing else is written once for each, in order; any other block once under its name; a leaf once for each value, in order |
| `CurlyShape.DocumentWrites` | src/nightshade-schema/src/curly.rs:319-332 | at the top of every document each child is written once, in the order of the names |
| `Diff.EmptyDiffIff` | src/nightshade-schema/src/diff.rs:60-131 | a diff is empty exactly when the trees are equal once comments are erased and a flag is taken for an empty container |
| `Diff.LinesDetermine` | src/nightshade-schema/src/diff.rs:97-131 | the collected lines determine the tree up to that erasure |
| `Diff.ChangesSwap` | src/nightshade-schema/src/diff.rs:60-93 | the diff the other way round is the same diff with additions and removals swapped |
| `Diff.ChangesApply` | src/nightshade-schema/src/diff.rs:60-131 | applying the valued changes to one side's valued lines gives exactly the other's |
| `Diff.LastSettingAmbiguous` | src/nightshade-schema/src/diff.rs:60-93 | emptying a container reports the same changes as deleting it, though the two results differ |
| `DiffReport.CollectInto` | src/nightshade-schema/src/diff.rs:104-131 | the recursive insertion into a shared set adds exactly the lines of the node and says whether there were any |
| `DiffReport.Report` | src/nightshade-schema/src/diff.rs:60-86 | the reported list holds every change once, in the derived order |
| `DiffReport.ChangeTransitive` | src/nightshade-schema/src/diff.rs:29-40 | the derived order on changes is transitive |
| `LoaderProofs.MergedAt` | src/nightshade-schema/src/loader.rs:332-389 | at every path the merged document has the later definition, both lists in order, and the children of either, in either mode |
| `LoaderProofs.OverlaidAt` | src/nightshade-schema/src/loader.rs:332-389 | an overlay is never refused, and says at every path what the later one says there or failing that the earlier |
| `LoaderProofs.MergeIff` | src/nightshade-schema/src/loader.rs:354-389 | a strict merge of two nodes succeeds exactly when no definition of one contradicts the other |
| `LoaderProofs.RefusalIsReal` | src/nightshade-schema/src/loader.rs:354-389 | a refused merge names a path and field the two really disagree on |
| `LoaderTheorem.MergeAllIff` | src/nightshade-schema/src/loader.rs:221-238 | any number of files merge exactly when no two of them share a template or contradict each other |
| `LoaderTheorem.MergeIsConfluent` | src/nightshade-schema/src/loader.rs:112-152 | for every list of files and every reordering: both merge or neither does, to the same templates, nodes and definitions up to `==`, and the same list entries and global constraints up to order |
| `LoaderTheorem.ZeroesTellTheOrder` | src/nightshade-schema/src/loader.rs:187-192 | up to `==` is needed: two files giving the two floating zeroes merge in either order, to different texts |
| `LoaderObject.MergeNodes` | src/nightshade-schema/src/loader.rs:354-389 | definitions, lists and children merged as the recursive specification has it, overlay mode included |
| `LoaderObject.MergeBelow` | src/nightshade-schema/src/loader.rs:332-352 | the loop over the names of the incoming children against its specification |
| `LoaderObject.Document.Absorb` | src/nightshade-schema/src/loader.rs:221-238 | a file is absorbed exactly when it contradicts none of the files before it |
| `DaemonInvariant.StepInv` | src/nightshade-configd/src/state.rs:132-225 | every step, and a crash after any number of its writes, keeps memory and disk in agreement and the marker, sessions and archive consistent |
| `DaemonInvariant.RunInv` | src/nightshade-configd/src/state.rs:65-78 | so every state of every run does |
| `DaemonInvariant.HandleLands` | src/nightshade-configd/src/state.rs:264-298 | no request breaks the invariant, whichever of its writes is the last to reach the disk |
| `DaemonInvariant.PruneKeepsNewest` | src/nightshade-configd/src/archive.rs:187-203 | pruning revisions written in order keeps exactly the newest |
| `DaemonRuns.GenerationNamesOne` | src/nightshade-configd/src/state.rs:363-461 | over every reboot-free run generations never go back, and one generation never names two different running configurations |
| `DaemonRuns.EverySessionWasLevel` | src/nightshade-configd/src/state.rs:717-838 | in every run every session has an open, discard or commit of its own that brought it level with running, and has kept its base since |
| `DaemonRuns.NoLostUpdate` | src/nightshade-configd/src/state.rs:363-461 | every changing commit in every run replaces exactly the configuration its session's edits started from when it was last opened, discarded or committed, whatever happened in between |
| `DaemonRequests.CommitAnswers` | src/nightshade-configd/src/state.rs:363-528 | every answer a commit can get, each exactly when: not the owner, stale or pending, invalid, no change, not applied, or committed with the seconds in the minutes asked for |
| `DaemonRequests.CommitDoes` | src/nightshade-configd/src/state.rs:427-528 | a commit that takes leaves the candidate running, recorded and on the machine, the last eight configurations in the history, and either the revision archived or a marker due that many minutes on |
| `DaemonRequests.CommitOrNothing` | src/nightshade-configd/src/state.rs:363-425 | a commit that does not take changes nothing |
| `DaemonRequests.ConfirmDoes` | src/nightshade-configd/src/state.rs:530-588 | confirming disarms and archives the pending commit, for an owner of a session while there is one, and is refused otherwise |
| `DaemonRequests.StaleIsTold` | src/nightshade-configd/src/state.rs:923-953 | what a stale session is shown the changes from is the configuration its own edits started from |
| `DaemonRequests.EditDoes` | src/nightshade-configd/src/state.rs:750-838 | a set is what the schema makes of a set and a delete what it makes of a delete, a refusal leaves the session alone, and a discard is level with running |
| `DaemonRequests.OpenDoes` | src/nightshade-configd/src/state.rs:717-733 | a new session starts level with running, in memory and on disk |
| `DaemonRequests.CloseDoes` | src/nightshade-configd/src/state.rs:735-748 | closing takes the session away, in memory and on disk, and nothing else |
| `DaemonRequests.LoadDoes` | src/nightshade-configd/src/state.rs:650-706 | the candidate becomes what the named text parses to, exactly when there is one, it parses and the schema takes it; each refusal by its cause |
| `DaemonRequests.StrangersRefused` | src/nightshade-configd/src/state.rs:901-916 | nobody else can use a session |
| `DaemonRequests.BootComesUp` | src/nightshade-configd/src/boot.rs:98-181 | from an empty `/run`: the saved tree runs, is recorded and on the machine as the first generation, if it parses, is accepted and applied; otherwise the defaults; with nothing saved, nothing is written |
| `DaemonRequests.SaveThenReboot` | src/nightshade-configd/src/boot.rs:69-181 | a save and a reboot come up with what was running, exactly when its text can be read back, or when what was running is the defaults fallen back to |
| `DaemonRuns.SessionUntouched` | src/nightshade-configd/src/state.rs:717-838 | no event changes a session it does not name: not its candidate, not its base |
| `DaemonRuns.HistoryTrue` | src/nightshade-configd/src/state.rs:440-461 | every history entry was running under its number at an earlier state of the run |
| `DaemonRuns.HistoryFaithful` | src/nightshade-configd/src/state.rs:440-461 | history holds at most eight entries, strictly increasing, and each is whatever ran under its number |
| `DaemonRuns.RestartInvisible` | src/nightshade-configd/src/state.rs:81-170 | restarting between requests rebuilds running, generation, sessions and pending, loses only history, and writes nothing; past the deadline it rolls back instead; only a real boot does anything else |
| `DaemonRuns.ArmedByCommit` | src/nightshade-configd/src/state.rs:470-520 | a marker only appears by a commit that asked for it, holds the configuration and number from just before it, and is due sixty seconds for each minute asked for after it was asked |
| `DaemonConfirm.MarkerStays` | src/nightshade-configd/src/confirm.rs:93-160 | while a commit is pending its marker is never replaced |
| `DaemonConfirm.PendingEnds` | src/nightshade-configd/src/state.rs:187-225 | a pending commit ends as kept by a confirmation or as undone past its deadline, and in no other way; kept, the machine and the record hold the commit; undone, both hold the earlier configuration, under a new generation; refused, both stay as they were |
| `DaemonConfirm.ConfirmOrRollBack` | src/nightshade-configd/src/state.rs:132-225 | over every run with crashes and restarts: a commit under confirmation is what is running, on record and on the machine while it is pending; confirmation keeps it there; anything else brings back, on record and on the machine, the configuration from just before it, and no sooner than the minutes asked for after it was asked |
| `DaemonConfirm.RollBackWhole` | src/nightshade-configd/src/state.rs:132-225 | a rollback stopped by a crash before any of its writes, and the restart after it, end where the rollback alone would have, at most one number higher; and what stays if the machine refuses the second one |
| `DaemonConfirm.RolledBackNeverArchived` | src/nightshade-configd/src/state.rs:466-583 | a pending commit that was not confirmed, its rollback taken or refused, is in the archive neither then nor ever after |
| `DaemonConfirm.CrashWindow` | src/nightshade-configd/src/state.rs:427-500 | a crash after any of the first three writes of a commit leaves the change applied and nothing to undo it: only the fourth write is the marker |
| `DaemonArchive.ArchiveIsNewest` | src/nightshade-configd/src/archive.rs:81-203 | over every reboot-free run revisions are archived in strictly increasing order and the archive holds exactly the newest fifty |
| `DaemonArchive.WrittenFaithful` | src/nightshade-configd/src/state.rs:590-609 | every archived revision is the rendering of what ran under its number |
| `DaemonArchive.ArchiveReadsBack` | src/nightshade-configd/src/archive.rs:145-184 | reading a revision gives its configuration back, if and only if that configuration survives the round trip |
| `DaemonArchive.SaveThenLoad` | src/nightshade-configd/src/state.rs:613-706 | saving and loading puts running into the candidate, if and only if running survives the round trip |
| `ConfigdObject.Configd.Open` | src/nightshade-configd/src/state.rs:717-733 | in-place fields and ordered writes agree with the state machine: a new session starts level with running |
| `ConfigdObject.Configd.DiscardCandidate` | src/nightshade-configd/src/state.rs:750-770 | in-place fields and ordered writes agree with the state machine: only the owner, only its own session, level with running again |
| `ConfigdObject.Configd.SetValue` | src/nightshade-configd/src/state.rs:774-806 | in-place fields and ordered writes agree with the state machine: the edit goes to a copy that is kept only if the schema takes it |
| `ConfigdObject.Configd.DeleteValue` | src/nightshade-configd/src/state.rs:808-838 | in-place fields and ordered writes agree with the state machine: likewise for deleting |
| `ConfigdObject.Configd.LoadFrom` | src/nightshade-configd/src/state.rs:650-706 | in-place fields and ordered writes agree with the state machine: a saved or archived text becomes the candidate only if it parses and is valid |
| `ConfigdObject.Configd.SaveRunningToBoot` | src/nightshade-configd/src/state.rs:613-648 | in-place fields and ordered writes agree with the state machine: the saved file is the rendering of running |
| `ConfigdObject.Configd.CommitSession` | src/nightshade-configd/src/state.rs:363-528 | in-place fields and ordered writes agree with the state machine: checks, apply, promote, record or arm, in that order, each refusal leaving memory and disk alone |
| `ConfigdObject.Configd.Promote` | src/nightshade-configd/src/state.rs:433-461 | in-place fields and ordered writes agree with the state machine: running, generation, history and the session move together, and are written |
| `ConfigdObject.Configd.Remember` | src/nightshade-configd/src/state.rs:440-448 | in-place fields and ordered writes agree with the state machine: the oldest history entry goes when there are more than eight |
| `ConfigdObject.Configd.ConfirmPending` | src/nightshade-configd/src/state.rs:530-583 | in-place fields and ordered writes agree with the state machine: the marker goes first, then the revision is archived |
| `ConfigdObject.Configd.RollBackPending` | src/nightshade-configd/src/state.rs:187-225 | in-place fields and ordered writes agree with the state machine: apply, promote, record, disarm; disarm alone when the machine refuses |
| `ConfigdObject.Configd.ResumePending` | src/nightshade-configd/src/state.rs:132-170 | in-place fields and ordered writes agree with the state machine: a marker found at start is taken up again, or rolled back if its time has passed |
| `ConfigdObject.Configd.CloseSession` | src/nightshade-configd/src/state.rs:735-748 | in-place fields and ordered writes agree with the state machine: the session and its file go |
| `ConfigdObject.Configd.BootSaved` | src/nightshade-configd/src/boot.rs:98-181 | in-place fields and ordered writes agree with the state machine: the saved file, or the defaults, and only on a real boot |
| `ArchiveObject.Archive.List` | src/nightshade-configd/src/archive.rs:117-142 | every revision with a sidecar is listed once, newest first |
| `ArchiveObject.Archive.PruneOld` | src/nightshade-configd/src/archive.rs:187-203 | what is left is the newest fifty; everything removed is no newer than anything kept, and both its files go |
| `ArchiveObject.Archive.Write` | src/nightshade-configd/src/archive.rs:81-110 | the new revision joins before pruning, and its text is what was given |
| `ArchiveObject.Archive.Read` | src/nightshade-configd/src/archive.rs:145-184 | an unknown number is an error exactly when no sidecar has it; otherwise the text of that revision is parsed |
| `ArchiveObject.NewestIsUnique` | src/nightshade-configd/src/archive.rs:187-203 | with no number used twice there is one way to keep the newest, so any order of removal agrees |
| `ArchiveObject.PruneKeeps` | src/nightshade-configd/src/archive.rs:187-203 | the state machine prunes to that set |
| `CommitOrder.Priority` | src/nightshade-configd/src/commit.rs:123-139 | a change takes the priority of the nearest ancestor the schema knows |
| `CommitOrder.FindPriority` | src/nightshade-configd/src/commit.rs:123-139 | the loop up the path finds that ancestor |
| `CommitOrder.Order` | src/nightshade-configd/src/commit.rs:123-141 | the sorted list holds the same changes, by priority and within it as the diff had them |
| `CommitPipeline.RenderAll` | src/nightshade-configd/src/commit.rs:146-162 | all render, or the first that does not is named |
| `CommitPipeline.CheckAll` | src/nightshade-configd/src/commit.rs:164-172 | all pass their check, or the first that does not is named |
| `CommitPipeline.ApplyAll` | src/nightshade-configd/src/commit.rs:174-201 | wherever it stops: every renderer before the failing one is in place, each file of that one is as before or as planned, nothing else changed, and only devices to rebuild are gone; a failure takes a failing step |
| `CommitPipeline.Restore` | src/nightshade-configd/src/commit.rs:227-251 | in reverse, each renderer with a readable record is put back to it, files and devices, or a problem is reported; only those whose record is not there or not readable are noted as having nothing to restore |
| `CommitPipeline.RememberAll` | src/nightshade-configd/src/commit.rs:203-221 | each plan is recorded or listed as not, and a failed record is left as it was |
| `CommitPipeline.Commit` | src/nightshade-configd/src/commit.rs:146-251 | in every outcome: no device the plan leaves alone in its create-time settings is destroyed, each owned file holds what it held, what was planned or what was recorded, and nobody else's file changes; refusals touch nothing; success leaves every plan in place and the devices converged; restored, each file and device is exactly as stated, and after a single failing step every renderer with a record is put back to it |
| `CommitPipeline.BackIff` | src/nightshade-configd/src/commit.rs:227-251 | a file of a renderer put back, held as recorded before: back if and only if the plan named it outside the managed directories only where the record does; for the failing renderer it may also be back without that |
| `CommitPipeline.LeftIff` | src/nightshade-configd/src/commit.rs:230-239 | a renderer with no readable record is left as planned: a file of it is back exactly when it was as planned before |
| `CommitPipeline.StrayFileStays` | src/nightshade-configd/src/commit.rs:227-251 | two renderers for which the restore fails: a file only the failed plan writes stays, and so does the planned text of a recorded file when the record cannot be read |
| `CommitPipeline.DevicesBackIff` | src/nightshade-configd/src/commit.rs:227-251 | the devices of a restored commit are as recorded again if and only if its apply did not reload, or added no device and none it destroyed came back with another create-time setting |
| `CommitPipeline.RecordsLawful` | src/nightshade-configd/src/commit.rs:203-221 | records stay fit for the next commit: what a commit leaves recorded keeps to what it asks of records |
| `Transaction.SyncAll` | src/nightshade-render/src/networkd.rs:557-564 | after every directory is synced, every file they decide is as wanted; stopped anywhere, each file is as before or decided and as wanted |
| `Transaction.Apply` | src/nightshade-render/src/networkd.rs:557-580 | files first, then the devices to rebuild, then the commands; wherever it stops, each file is as before or as wanted, only devices to rebuild are gone, and no command has run before those and every file were done |
| `Transaction.EffectsKeep` | src/nightshade-render/src/artifacts.rs:77-113 | only a delete takes a device away: any other commands keep every device with its definition |
| `Transaction.Verify` | src/nightshade-render/src/artifacts.rs:213-232 | verification passes only if every wanted file is there, and with no read failing always passes after a completed apply |
| `HostObject.Machine.Sync` | src/nightshade-render/src/host.rs:114-145 | afterwards the directory holds exactly the wanted files among the marked ones; on failure each file is as before or as wanted, and nothing is removed before everything is written |
| `HostObject.Machine.SweepStale` | src/nightshade-render/src/host.rs:127-143 | only marked, unwanted files of the directory are ever removed |
| `HostObject.Machine.Verify` | src/nightshade-render/src/artifacts.rs:213-232 | a missing or differing file is reported for exactly that reason |
| `HostObject.Machine.Load` | src/nightshade-render/src/artifacts.rs:254-257 | a record that cannot be read is taken for none |
| `HostObject.Machine.Write` | src/nightshade-render/src/host.rs:147-153 | a single file is replaced whole or not at all |
| `ArtifactSets.AllFilesWanted` | src/nightshade-render/src/artifacts.rs:138-146 | the flattened files say of each path what the artifacts want there |
| `ArtifactSets.OursWhenInPlace` | src/nightshade-render/src/networkd.rs:382-416 | once in place, the marked files of the directory are exactly the rendered ones |
| `Ini.Writer.Key` | src/nightshade-render/src/ini.rs:43-51 | a section head is written once, and only when something follows it |
| `Ini.Writer.Each` | src/nightshade-render/src/ini.rs:62-67 | one line a value, under one head |
| `Ini.ReadsBack` | src/nightshade-render/src/networkd.rs:328-345 | for values with no newline and no outer whitespace the reader gives back exactly the settings that were written |
| `NetworkdObject.ReadSettings` | src/nightshade-render/src/networkd.rs:328-345 | the line loop computes that reader |
| `NetworkdObject.Attach` | src/nightshade-render/src/networkd.rs:137-168 | the loops over bonds, bridges, vlans and vxlans fill the attachments of the config |
| `NetworkdObject.NetworkFile` | src/nightshade-render/src/networkd.rs:184-219 | the written text is that of the items the proofs speak of |
| `NetworkdObject.NetdevFile` | src/nightshade-render/src/networkd.rs:273-317 | likewise for each kind of device |
| `NetworkdObject.Render` | src/nightshade-render/src/networkd.rs:431-469 | the loops over the six types render the specified files of the directory networkd reads |
| `NetworkdObject.CheckFiles` | src/nightshade-render/src/networkd.rs:486-555 | the scan finds the same first inconsistency as the specification |
| `NetworkdObject.FindRecreations` | src/nightshade-render/src/networkd.rs:382-416 | the loop collects exactly the devices gone or changed in a watched setting |
| `NetworkdCheck.RenderedFiles` | src/nightshade-render/src/networkd.rs:431-469 | in the directory networkd reads every interface gets its files, and every file comes from an interface |
| `NetworkdCheck.AttachmentsIn` | src/nightshade-render/src/networkd.rs:137-168 | everything a file is attached to is a configured virtual interface |
| `NetworkdTheorem.ReferencesExist` | src/nightshade-render/src/networkd.rs:184-219 | every bond, bridge, vlan or vxlan a rendered file names is a virtual interface of the config |
| `NetworkdTheorem.CheckRenderedIff` | src/nightshade-render/src/networkd.rs:486-555 | for every config whose names and values survive a line: what is rendered passes the check if and only if no name is both physical and virtual |
| `NetworkdConsistent.CheckIff` | src/nightshade-render/src/networkd.rs:486-555 | for any files at all: the check passes if and only if no two claim one interface, every reference is to a device described, and every device described is configured; and what it complains of is so |
| `NetworkdConsistent.NetworkAt` | src/nightshade-render/src/networkd.rs:431-469 | the file of a name is written for the interface the config has by it, the last type that has it if several do |
| `NetworkdTheorem.RenderedDevices` | src/nightshade-render/src/networkd.rs:431-484 | the devices a rendered file set describes are exactly the virtual interfaces |
| `NetworkdTheorem.CommittedDevices` | src/nightshade-render/src/networkd.rs:382-416 | after one commit over another the live virtual devices are exactly those of the new config |
| `NetworkdDevices.ApplySettles` | src/nightshade-render/src/networkd.rs:355-416 | after an apply the live devices are the described ones, each with every create-time setting described |
| `NetworkdDevices.AllSettled` | src/nightshade-render/src/networkd.rs:355-416 | and so after any sequence of applies, starting with nothing |
| `NetworkdDevices.DestroysOnlyChanged` | src/nightshade-render/src/networkd.rs:355-416 | wherever an apply stops, a device can be destroyed only when it is gone or a create-time setting of it changed, and is by one that reloads; any other is left as it was |
| `NetworkdDevices.DeletesExist` | src/nightshade-render/src/networkd.rs:382-416 | no delete is asked for a device that is not there |
| `NetworkdDevices.RestoreSettlesIff` | src/nightshade-render/src/networkd.rs:557-580 | for any subset of the deletes, with and without the reload: putting the files back puts the devices back exactly when the apply did not reload, or added none and none it destroyed came back with another create-time setting |
| `NetworkdDevices.DecidedRestoreIff` | src/nightshade-render/src/networkd.rs:557-580 | when every definition is complete: exactly when it did not reload, or added none and destroyed none that the new files describe |
| `NetworkdDevices.AddedDeviceStays` | src/nightshade-render/src/networkd.rs:557-580 | one new device, a failure after the reload: restored, the device is still live |
| `NetworkdDevices.RedoneIsChanged` | src/nightshade-render/src/networkd.rs:355-416 | restoring destroys no device that the failed apply was not already to destroy |
| `NetworkdDevices.UnreadSettlesIff` | src/nightshade-render/src/artifacts.rs:254-257 | an apply that could not read its record converges exactly when no device is gone and no create-time setting changed |
| `NetworkdRebuild.WatchedReads` | src/nightshade-render/src/networkd.rs:273-345 | a create-time setting reads back from the rendered text as what the config leaf behind it says, in one section only |
| `NetworkdRebuild.RebuiltIff` | src/nightshade-render/src/networkd.rs:355-379 | two rendered definitions of a device need it rebuilt exactly when its kind or a creation-time leaf of the config changed |
| `NetworkdRebuild.CreationLeavesAre` | src/nightshade-render/src/networkd.rs:382-416 | which leaves those are, kind by kind |
| `NetworkdRebuild.RenderedAt` | src/nightshade-render/src/networkd.rs:455-469 | the definition rendered for a device is that of the last virtual type that has the name |
| `NetworkdRebuild.DestroyedIff` | src/nightshade-render/src/networkd.rs:382-416 | from one clean config to another a device is destroyed exactly when the interface is gone, is of another kind, or says a creation-time setting differently |
| `NetworkdAttach.MasterIs` | src/nightshade-render/src/networkd.rs:140-147 | the master of a member is a bridge that lists it, or if none does a bond that does |
| `NetworkdAttach.RidersOf` | src/nightshade-render/src/networkd.rs:149-165 | what rides on an interface is the vlans whose parent and the vxlans whose source it is |
| `NetworkdAttach.NetworkSays` | src/nightshade-render/src/networkd.rs:184-219 | read back, the file of an interface names as its master, vlans and vxlans exactly those the config attaches to it |
| `NetworkdConsistent.RidersInOrder` | src/nightshade-render/src/networkd.rs:149-165 | vlans and vxlans are listed in the order of their names |
| `NetworkdConsistent.MasterIsLast` | src/nightshade-render/src/networkd.rs:140-147 | of several bridges, or failing those bonds, that list a member, the last by name has it |
| `NetworkdReadback.NetworkTells` | src/nightshade-render/src/networkd.rs:184-219 | for every clean config, read back: the name, MTU, description and addresses are those of the config, the link is held down exactly if disabled, and DHCP is on exactly if listed |
| `NetworkdReadback.NetdevTells` | src/nightshade-render/src/networkd.rs:273-317 | for every kind of device, read back: each setting is that of the leaf behind it, and nothing where there is none |
| `NetworkdReadback.LinkTells` | src/nightshade-render/src/networkd.rs:246-271 | for every clean port, read back: how it is matched and named, its address, speed and duplex; and there is a file exactly if there is anything to say |
| `NetworkdReadback.ReadersAre` | src/nightshade-render/src/networkd.rs:100-135 | what counts as a list, a leaf and a flag of a node |
| `NetworkdPlan.RenderPlan` | src/nightshade-render/src/networkd.rs:431-484 | the loops render the whole plan: the files networkd reads, the `.link` files udev reads, and the reload |
| `NetworkdPlan.LinkFile` | src/nightshade-render/src/networkd.rs:246-271 | the written text of a `.link` file, and when there is none |
| `NetworkdPlan.LinkedIff` | src/nightshade-render/src/networkd.rs:441-453 | a port has a `.link` file exactly when a physical interface of its name says anything to udev |
| `NetworkdPlan.PlanLawful` | src/nightshade-render/src/networkd.rs:431-484 | for every config the networkd renderer stays inside its two marked directories, as the pipeline requires of every renderer |
| `NetworkdPlan.PlanChecks` | src/nightshade-render/src/networkd.rs:486-555 | the pipeline check of a rendered config fails exactly on a name both physical and virtual |
| `NetworkdPlan.CommitConverges` | src/nightshade-configd/src/commit.rs:146-221 | a whole pipeline run that succeeds ends with exactly the virtual interfaces of the new config live |
| `Shipped.RenderSystem` | src/nightshade-render/src/system.rs:74-121 | the loops and pushes render the specified resolvers, host name and time zone |
| `Shipped.ResolvReads` | src/nightshade-render/src/system.rs:82-104 | a resolver reads from the file exactly the servers of the config, in order, and the domain to search if there is one |
| `Shipped.SystemSays` | src/nightshade-render/src/system.rs:74-121 | the one file and the commands of the plan are those the config asks for |
| `Hosts.Update` | src/nightshade-render/src/system.rs:180-204 | the loop over the lines writes the specified hosts file |
| `Hosts.OneLineOfOurs` | src/nightshade-render/src/system.rs:172-204 | afterwards the lines of others are there as they were and in order, and then exactly one line of ours |
| `Hosts.LastNameWins` | src/nightshade-render/src/system.rs:172-204 | writing the same name again changes nothing, and another replaces the first, for every earlier contents |
| `Hosts.EndingsChange` | src/nightshade-render/src/system.rs:184-202 | a carriage return at the end of a line of others goes |
| `Shipped.CheckSystem` | src/nightshade-render/src/system.rs:123-145 | the scan refuses exactly a host name or time zone set twice |
| `Shipped.RenderLogin` | src/nightshade-render/src/login.rs:108-141 | the loop over users renders an account each, and a password where there is one |
| `Shipped.AccountsExactly` | src/nightshade-render/src/login.rs:108-141 | the accounts and passwords are exactly those of the config, each account just before its password |
| `Shipped.LoginChecksIff` | src/nightshade-render/src/login.rs:143-185 | the check of a rendered config passes if and only if it names no system account and, naming any, one that can log in |
| `Shipped.RemovalsAre` | src/nightshade-render/src/login.rs:236-243 | from one config to another exactly the accounts gone from it are to be removed, and with no record of the last none |
| `Shipped.AllApart` | src/nightshade-render/src/lib.rs:81-95 | the territories of the three renderers are disjoint, as the pipeline requires |
| `Shipped.AllLawful` | src/nightshade-render/src/system.rs:74-121 | for every config each of the three stays in its territory, and names the same files outside managed directories every time |
| `Shipped.FilesComeBack` | src/nightshade-configd/src/commit.rs:227-251 | so for these the restore promises files outright: every owned file that was as recorded comes back, for each renderer whose record could be read |
| `Shipped.UnreadResolvStays` | src/nightshade-configd/src/commit.rs:230-239 | the failing case that is real: with the record of the system renderer unreadable, a restored commit leaves its resolvers behind |
| `Shipped.DevicesComeBackIff` | src/nightshade-configd/src/commit.rs:227-251 | for configs: after a restored commit the virtual interfaces are the last config's again if and only if the failed apply did not reload, or added none and destroyed none that the new config has |
| `Shipped.RefusedIff` | src/nightshade-configd/src/commit.rs:164-172 | the checks refuse exactly a config that locks everybody out, names a system account, or uses one name for a physical and a virtual interface |
| `Shipped.RecordedAfter` | src/nightshade-configd/src/commit.rs:203-221 | after a commit every record is still what some config renders to |
| `Shipped.CommitShipped` | src/nightshade-configd/src/commit.rs:146-251 | one commit of the daemon with all of the above: refused exactly when it should be, new devices on success, files and devices back as stated after a restore, and ready for the next commit |
| `Tracker.PruningIsInvisible` | src/nightshade-ifprobe/src/tracker.rs:164-274 | for every run whose clock does not go back and every interval up to the window, rates over the pruned buffer equal rates over every sample since the interface last appeared |
| `Tracker.WindowIsExact` | src/nightshade-ifprobe/src/tracker.rs:40-40 | one second more than the window and pruning shows |
| `TrackerRates.RunTells` | src/nightshade-ifprobe/src/tracker.rs:234-274 | for such runs: the rates are the mean growth of the received and sent bytes and packets, from the oldest reading within the interval to the newest, with the share of the line; and there are none exactly when those two are of one time |
| `TrackerRates.SinceIsGrowth` | src/nightshade-ifprobe/src/tracker.rs:126-143 | each of the fourteen counters shown is its own growth since the baseline |
| `TrackerHistory.HistoryTells` | src/nightshade-ifprobe/src/tracker.rs:164-291 | for every interleaving of samples, events and clears, the count is the number of state transitions seen since the last clear, and the time is when the present state was entered |
| `TrackerHistory.NotedIsSampled` | src/nightshade-ifprobe/src/tracker.rs:283-291 | an event and a sample that say the same have the same effect |
| `TrackerObject.Tracker.Sample` | src/nightshade-ifprobe/src/tracker.rs:164-197 | the loop over links, with its buffers pushed and popped in place, is one step of the specified run |
| `TrackerObject.Tracker.NoteEvent` | src/nightshade-ifprobe/src/tracker.rs:283-291 | likewise for an event between samples |
| `TrackerObject.Tracker.Clear` | src/nightshade-ifprobe/src/tracker.rs:217-222 | likewise for a clear, all fourteen counters |
| `TrackerHistory.BaselineTells` | src/nightshade-ifprobe/src/tracker.rs:217-227 | for every run the baseline is what the counters were when last cleared, whatever happened since |
| `TrackerObject.Tracker.Shown` | src/nightshade-ifprobe/src/tracker.rs:126-143 | the counters shown are those since the last clear, and nothing for one that was reset below it |
| `TrackerObject.Tracker.LastClear` | src/nightshade-ifprobe/src/tracker.rs:210-214 | seconds since the last clear, and absent exactly when there was none |
| `TrackerObject.Tracker.Rates` | src/nightshade-ifprobe/src/tracker.rs:234-274 | the search through the buffer gives those rates, over the full list of samples |
| `TrackerObject.Tracker.Changes` | src/nightshade-ifprobe/src/tracker.rs:200-202 | the count read back is the number of transitions since the last clear |
| `TrackerObject.Tracker.Since` | src/nightshade-ifprobe/src/tracker.rs:205-208 | the age is measured from when the present state was entered, and absent exactly for a link never seen |
| `LineDiff.Diff` | src/nightshade-cli/src/output.rs:188-219 | kept and removed lines spell the text before, kept and added ones the text after, no common subsequence of the two is longer than the lines kept, and in each change what went comes before what came |
| `LineDiff.Lengths` | src/nightshade-cli/src/output.rs:189-200 | the table holds the length of the longest common subsequence of every pair of suffixes |
| `LineDiff.NoneLonger` | src/nightshade-cli/src/output.rs:188-200 | no common subsequence is longer than the table says |
| `LineDiff.LongestIsBest` | src/nightshade-cli/src/output.rs:188-219 | so no diff between the two texts keeps more lines |
| `NaturalOrder.NaturalCompare` | src/nightshade-ifstate/src/layout.rs:153-189 | the loop over both names gives the order of their tokens, runs of digits being numbers of any size |
| `NaturalOrder.TakeDigits` | src/nightshade-ifstate/src/layout.rs:191-208 | the whole run is taken, and its leading zeroes dropped |
| `NaturalOrder.DigitsAreNumbers` | src/nightshade-ifstate/src/layout.rs:166-178 | comparing by length and then by text is comparing as numbers |
| `NaturalOrder.TotalPreorder` | src/nightshade-ifstate/src/layout.rs:153-189 | every two names compare, swapping them swaps the answer, and the order is transitive |
| `NaturalOrder.EqualIffUnpadded` | src/nightshade-ifstate/src/layout.rs:153-208 | two names tie exactly when they differ only in leading zeroes |
| `NaturalOrder.CountsLikeAPerson` | src/nightshade-ifstate/src/layout.rs:147-189 | after the same beginning the smaller number comes first however it is written and whatever follows, so does the smaller character, and a name before any longer one |
| `Wrap.WrapText` | src/nightshade-ifstate/src/layout.rs:127-145 | every word is kept in order, every line fits or is one word, and no other lines of the same words that fit are fewer |
| `Wrap.GreedyIsBest` | src/nightshade-ifstate/src/layout.rs:127-145 | why: greedy reaches at least as far as any other line begun at the same word |
| `Wrap.LaterIsFewer` | src/nightshade-ifstate/src/layout.rs:127-145 | and starting a line later never takes more lines |

## Left out

Of what is modelled:

- Lines and columns are unbounded; the program counts them in 32 bits.
- The serialised forms (`running.json`, session files, the marker, the last-applied
  records, the compressed archive files) are values: encoding and decoding is the
  identity, and the daemon's writes succeed. Damaged files, which the program reports and
  skips, are not part of this model.
- Nested maps are rebuilt along the path rather than changed through a mutable reference.
- Schema validation, constraints, `apply_set` and `apply_delete` are parameters;
  `value.rs`, `validate.rs` and the conversion of a merged schema document are not part
  of this model. `model.rs` gives only the tag oracle and the priorities.
- A clock that goes backwards, and a marker that cannot be removed: both are assumptions
  of the daemon's theorems, as `confirm.rs` and `state.rs` say they are of the program.
- A commit whose apply fails changes nothing on the machine in `Daemon`; what a failed
  apply does leave is the subject of `CommitPipeline`.
- Requests are atomic because the program holds one lock; the timer task is a flag, and
  aborting it clears the flag.
- The boot-failure note, and the text of messages and logs, apart from which renderer
  they name and what a restore says of each.
- Archive and generation numbers across reboots.
- Temporary files of a write-and-rename; a write that fails changes nothing.
- A command that fails has no effect on the devices, and no command changes a file a
  renderer owns; `networkctl reload` creates the devices described and missing and
  changes no others.
- Reading and writing `/etc/hosts` as steps of an apply that may fail; the accounts on the
  machine, and removing those no longer configured as the last steps of an apply.
- A renderer's plan stays in its territory, and territories are disjoint: required of
  renderers by `CommitPipeline.Commit`, proved of the three the program has
  (`Shipped.AllLawful`, `Shipped.AllApart`) where their three places are different.
- Floating-point rounding in rates and utilisation: both are exact. Counters and counts
  do not overflow.
- `sort_names` calls the library's sort with `natural_cmp`; the sort is not modelled.
- `LoaderObject.Document.Absorb`: does not say what a refused file leaves behind, because
  the loader drops the document then.
- `Tracker.PruningIsInvisible`: asks for a clock that does not go back, because pruning
  by a later time drops samples an earlier one would still use.

Of the program:

- The remaining requests of the daemon (`show`, `compare`, `commit log`), which only read.
- `driverstats.rs`, `ethtool.rs`, `sff.rs`, `sysfs.rs`, netlink and the other probes:
  foreign calls and tables.
- Sockets, framing, peer credentials, logging, the installer.
- The interactive shell: completion, prompts, pagers, tables, JSON output, masking.
