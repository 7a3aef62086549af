# Verification of Epos

Epos is a text-to-speech server. This project models the parts of it that change state in intricate ways, each in the
form the program has it, and proves what they are for.

- **Regular expressions** (`Rx*.dfy`, src/rx.c). `RxSyntax` has the patterns and the language they denote, `RxReading`
  their bytes, `RxCode` the code they stand for. `RxCompile` is the one-pass compiler over a growing byte buffer:
  its state at every token is tied to what has been read. `RxVm` says what the code can reach, `RxMeaning` proves
  that code and pattern agree, and `RxMatch` is the loop with the failure stack. The matcher also rewrites its loops'
  back jumps in the buffer while it runs, and then discards failure points by them: `RxPops` has the test it makes,
  `RxRun` its run, turn by turn, `RxTame` when the run still finds the longest match, `RxNeat` for which patterns
  that is so, `RxLost` patterns for which it is not, and `RxRewrite` the loop on the buffer; `RxFlow` and `RxPlace`
  are about where control goes. `RxSearch` adds the first-character map and the search, `RxUnique` that a pattern's
  bytes have one meaning, `RxSize` bounds the code by the text, and `RxPattern` puts compiler, matcher and search
  together. `RxLaws` says what a pattern means in bytes: single bytes, lists, groups, repetitions, sequences and
  alternatives.
- **Hash tables** (`HashTree.dfy`, `HashTable.dfy`, src/hashtmpl.cc). Buckets that are search trees with local
  rebalancing and rebuilding of the whole table, against a finite map.
- **The agents of a stream** (`Pipeline*.dfy`, `AgentStream.dfy`, src/agent.cc). `Pipeline` is the state machine of
  timeslices, run queue and sleep tables; `PipelineRuns`, `PipelineEnds` and `PipelineLimits` prove what holds over
  whole runs; `AgentStream` has the agents as linked objects with linked lists and ties every operation to the state
  machine.
- **Copy-on-write configurations** (`Cow*.dfy`, src/options.cc, src/daemon.cc). Shared objects with counts, against one
  private tree for every session.
- **Sessions** (`Session*.dfy`, src/ttscp.cc, src/agent.cc, src/daemon.cc). The two tables of connections as a forest.
- **Text units** (`Unit*.dfy`, `Sonority.dfy`, `Tokens.dfy`, `CharLevels.dfy`, `Smooth.dfy`, src/unit.cc, src/parser.cc).
  The doubly linked tree of units: walks, the resumable dump, splitting, unlinking, syllables, building from symbols,
  reading back, and smoothing along a row with a circular queue. The rows of units of each level are what the edits
  are proved against.
- **Character tables** (`CharTables.dfy`, `CharFunctions.dfy`, `CharCodes.dfy`, `CharEncoder.dfy`, src/function.cc,
  src/encoding.cc). Perfect hashing of sets and functions, and the internal codes shared by character sets.
- **Wave files** (`Wave*.dfy`, src/waveform.cc). The phases of the output under partial writes, the chunks of the file,
  and what a reader finds in them.

Where a property the program seems to promise does not hold, there is a lemma or method with an input that shows it,
and the property is proved with the condition under which it holds:

- A match is the longest one. It is not always, when failure points are discarded: `ShortLost`, for a loop over a group
  at the end of the pattern, and `OddListLost` and `OddLiteralLost`, for the two odd cases of the test. It is for all
  code that is tame (`YieldsLongest`), and `NeatTame` and `PlainTame` say which patterns have such code. Here the
  condition is sufficient only: whether a discarded point would have led further depends on the languages of the
  loop's body and of its parts.
- A file is a sequence of chunks: `OneByteFails`, and exactly when in `ChunksTile`.
- A text is encoded with codes allocated on the way: `LeavesAlone`, and exactly when in `EncodeAllocating`.
- A stream does not get stuck: exactly for which limits, and a run that gets stuck for every other, in `LimitsExact`.
- Above the phones no unit is empty: `DashFails`, and exactly when in `TextReadBack`.
- Syllables are not broken at a boundary: `StartBroken`, and exactly when in `StartExactly`.
- Compressed and uncompressed functions translate alike: `NotAlike`, and exactly when in `AlikeExactly`.

Some predicates are wrapped in a quantifier over `Peek` or `Look`, which are always true. Mentioning `Peek(x)` or
`Look(x)` unfolds the predicate there; elsewhere the verifier carries it as it is.

## Model

| member | source | states |
|---|---|---|
| `RxCompile.RegexCompile` | src/rx.c:1821-2919 | The bytes the one-pass compiler leaves in its buffer, every insertion and every jump included, are the code of a canonical reading of the whole pattern; and it refuses a pattern only for a reason that can be shown in the bytes it has read |
| `RxUnique.AltsSame` | src/rx.c:1953-2916 | Two canonical readings of the same bytes denote the same language, so a pattern means one thing |
| `RxPattern.OneMeaning` | src/rx.c:1821-2919 | What a pattern means does not depend on which reading of it is taken |
| `RxLaws.DotMeans` | src/rx.c:2104-2107 | The byte 46 means any one byte but NUL |
| `RxLaws.ByteMeans` | src/rx.c:2814-2850 | A byte that is not a special one means itself |
| `RxLaws.EscapedMeans` | src/rx.c:2803-2850 | So does any byte after the byte 92 that is no operator there |
| `RxLaws.RangeMeans` | src/rx.c:2110-2300 | The bytes 91, a, 45, b, 93 mean any one byte from a to b |
| `RxLaws.OtherMeans` | src/rx.c:2110-2300 | The bytes 91, 94, a, 93 mean any one byte but a |
| `RxLaws.GroupMeans` | src/rx.c:2374-2487 | The bytes 92, 40 before a pattern and 92, 41 after it leave its meaning as it is |
| `RxLaws.EitherMeans` | src/rx.c:2490-2530 | Two patterns with the bytes 92, 124 between them mean what the one or the other does |
| `RxLaws.StarMeans` | src/rx.c:1976-2099 | The byte 42 after something an operator applies to means it any number of times in a row, none included |
| `RxLaws.PlusMeans` | src/rx.c:1976-2099 | The bytes 92, 43 mean it once or more often in a row |
| `RxLaws.OptMeans` | src/rx.c:1976-2099 | The bytes 92, 63 mean it or nothing |
| `RxLaws.ThenMeans` | src/rx.c:1953-2916 | Two patterns of one alternative each, one after the other, mean what the first does followed by what the second does |
| `RxLaws.DotBetween` | src/rx.c:1953-2916 | So a.c means three bytes, a first, c last, and no NUL between |
| `RxSize.AltsSize` | src/rx.c:1976-2916 | Code takes at most fifteen bytes for each byte of the pattern |
| `RxSize.NotRefused` | src/rx.c:1953-2916 | A pattern without backslash, bracket, ^ and $ is never refused, up to 4366 bytes |
| `RxLang.NestIsCollapsed` | src/rx.c:1976-2050 | A run of postfix operators means what the two flags say that the compiler collects of it, whether no round and whether many rounds are allowed |
| `RxCompile.EmitRep` | src/rx.c:2050-2099 | The jumps inserted around a repeated piece of code make the code of the repetition, whatever was behind it being shifted |
| `RxCompile.SetReady` | src/rx.c:2110-2300 | A bracket list becomes a bit map, cut after its last byte that is not zero, with exactly the bits of its characters and ranges |
| `RxMeaning.WholeCode` | src/rx.c:3768-4662 | Running the code of a pattern from any place of any subject, every run is legal and ends, and the ends it can reach are the ends of the prefixes in the pattern's language |
| `RxMatch.MatchPattern` | src/rx.c:3768-4662 | With back jumps that only jump, the failure stack finds the length of the longest prefix in the language, or -1 exactly when there is none |
| `RxPops.PopsExactly` | src/rx.c:4663-4820 | Outside two odd cases the test at a loop's back jump decides to discard failure points exactly when the pattern ends after the loop, or a literal or a list follows that has no character in common with the one-character body |
| `RxPops.OddExactly` | src/rx.c:4725-4762 | What the test decides in the two odd cases: the size of a full map is cut down to a byte, and the count of a literal is taken for its character |
| `RxLost.OddListLost` | src/rx.c:4759-4762 | With the pattern a*[ab] the failure point is discarded although body and list have a character in common: run on a, the matcher finds nothing, and the language has a prefix of length 1 |
| `RxLost.OddLiteralLost` | src/rx.c:4725-4747 | With a loop over a list of all characters before the literal a the same happens on a: nothing found, and a prefix of length 1 in the language |
| `RxLost.ShortLost` | src/rx.c:4671-4712 | With \(ab\?\(bc\)\?\)* the back jump takes off a failure point of the group's own: run on abc, the matcher ends with 2, and the language has a prefix of length 3 |
| `RxRun.OneResult` | src/rx.c:3768-5158 | The run of the matcher on a subject has one result |
| `RxTame.YieldsPrefix` | src/rx.c:4663-4856 | Whatever failure points are discarded, a length the run ends with is that of a prefix in the language |
| `RxTame.YieldsLongest` | src/rx.c:4663-4856 | In tame code discarding failure points loses no match and no length: the run ends with the longest prefix in the language, or -1 exactly when there is none |
| `RxNeat.NeatTame` | src/rx.c:4671-4685 | A pattern has tame code if in the odd cases of the test body and next item have nothing in common, and the body of a loop over a group that ends the pattern leaves on the stack nothing, or a dummy on top |
| `RxNeat.PlainTame` | src/rx.c:4671-4685 | So have patterns whose loops over groups are over several alternatives, as the source argues, or over groups with nothing in them repeated |
| `RxRewrite.JumpBack` | src/rx.c:4663-4838 | A loop's back jump is decided on when it is first come to, and rewritten in the buffer to the one or the other; then and ever after it does what the run on the code as compiled does there |
| `RxRewrite.MatchInPlace` | src/rx.c:3768-5158 | The matcher that rewrites its back jumps in the buffer does the run of the code as compiled, whatever earlier matches have rewritten; for tame code it finds the longest prefix in the language, or -1 exactly when there is none |
| `RxTame.OneLongest` | src/rx.c:3768-5158 | There is only one longest prefix, so in tame code rewriting changes no result |
| `RxPattern.Regex.constructor` | src/rx.c:5569-5631 | A pattern compiled is ready to be matched with; a pattern refused is refused for a reason found in it. Up to 511 bytes, what is compiled can be run exactly when no loop has a body that can match the empty string, and a pattern without backslash, bracket, ^ and $ is always compiled and can be run |
| `RxPattern.Regex.Search` | src/rx.c:3486-3618 | Forwards or backwards, with the map or without it, and whatever has been rewritten, the search answers the first position of the scan where the matcher finds something; for tame code that is the first where the pattern means some part of the subject, and what is found is the longest there |
| `RxPattern.Regex.Exec` | src/rx.c:5647-5710 | What is found in the whole subject is what the pattern means; for tame code something is found exactly when the pattern means some part of the subject, at the first place where it does, and the longest there |
| `RxSearch.CompileFastmap` | src/rx.c:3121-3411 | Every match of the code begins with a character in the map, or the flag says that it may be empty, whatever jumps of the buffer it is made from are rewritten |
| `RxSearch.FastmapSound` | src/rx.c:3121-3411 | If a prefix of the subject is in the language, its first character is in the map or the flag is set |
| `RxSearch.SearchPattern` | src/rx.c:3486-3618 | With back jumps that only jump, the search answers the first position of the scan at which the pattern occurs, or -1 when there is none, forwards or backwards, with the map or without it |
| `RxSearch.SearchInPlace` | src/rx.c:3486-3618 | With back jumps that are rewritten, it answers the first position at which the matcher finds something, with the map or without it |
| `RxSearch.HitsOccurs` | src/rx.c:3486-3618 | What the rewriting matcher finds is there, and in tame code it finds something wherever the pattern occurs |
| `HashTree.LessIs` | src/hashtmpl.cc:71 | The order of the trees is that of the first byte in which two keys differ, as unsigned |
| `HashTree.InsertMap` | src/hashtmpl.cc:549-589 | Insertion with the balance step of each node on the path, whatever the stored heights, keeps the order and adds or replaces exactly one entry of the map |
| `HashTree.InsertAvl` | src/hashtmpl.cc:164-231 | Insertion into a tree with exact heights and balance leaves it so, and its height grows by one at most |
| `HashTree.RemoveMap` | src/hashtmpl.cc:616-663 | Deletion, with the successor put in the place of a node with two subtrees, keeps the order and takes exactly one entry from the map |
| `HashTree.AvlTall` | src/hashtmpl.cc:164-231 | A balanced tree of height h has at least two to the power of h / 2 nodes |
| `HashTable.PathFits` | src/hash.h:41 | In a balanced table of fewer than 2^31 items no path is longer than 62 links, so the path stack does not overflow |
| `HashTable.Table.Put` | src/hashtmpl.cc:549-589 | Adding an entry changes the map by that entry, keeps items its size and balance if there was balance, and asks for rebuilding exactly when the thresholds say so |
| `HashTable.Table.Add` | src/hashtmpl.cc:549-589 | Adding, with the rebuilding it may bring about, changes the map by exactly that entry; the table is rebuilt when there are more items than the upper threshold, and never for a key it has, to the odd number of buckets that the items fill to the optimal percentage |
| `HashTable.Table.Remove` | src/hashtmpl.cc:616-663 | Removing answers the entry's data and takes exactly it from the map; the table is rebuilt exactly when an entry is taken and there were fewer than the lower threshold, to the same number of buckets |
| `HashTable.Table.Translate` | src/hashtmpl.cc:739-756 | A look-up answers what the map has, and nothing when it has nothing |
| `HashTable.Table.Rehash` | src/hashtmpl.cc:784-836 | Rebuilding keeps the map and makes all heights exact and all trees balanced, after any history; the number of buckets is the odd one that the items fill to the optimal percentage, to within one bucket; and it leaves the thresholds that come of its having overwritten them first |
| `HashTable.OneRightSize` | src/hashtmpl.cc:824 | There is only one such number of buckets |
| `HashTable.Table.Fn` | src/hashtmpl.cc:525-543 | The loop over a key's characters computes its hash, and that gives the bucket |
| `HashTable.HashMore` | src/hashtmpl.cc:531 | Each further character, taken as signed, is added to 23 times the hash so far, in 32 bits |
| `HashTable.Table.GetRandom` | src/hashtmpl.cc:720-731 | Going round the buckets once at most finds a key that is in the table, if it is not empty |
| `PipelineRuns.TraceHolds` | src/agent.cc:122-173 | In every state of every run, for every order of events: queue entries and sleepers are where the agents' work is, lists are within pend_max + 1, every agent with work is queued or will be woken by the one after it, and what is written and in flight together is what the inputs come to |
| `PipelineRuns.InOrderExactlyOnce` | src/agent.cc:236-248 | What has been written is a beginning of what the inputs come to, in order, and all of it whenever no apply is under way |
| `Pipeline.WorkedOn` | src/agent.cc:236-248 | What inputs come to, if all agents but one pass on what they get, is what that one makes of each, one after another |
| `PipelineRuns.NoLostWakeup` | src/agent.cc:115-172 | When no agent of the stream is queued or asleep, none has work left: all inputs are written and every apply is reported |
| `PipelineRuns.CompletedOnce` | src/agent.cc:930-954 | An apply is reported complete once, and not before the last item of its output has been written |
| `PipelineEnds.NoSpinning` | src/agent.cc:122-173 | However the events are ordered, a run has no more than eight timeslices from the queue, or completed readings and writings, for every piece of data to be passed on or written |
| `PipelineLimits.LimitsExact` | src/agent.cc:115-172 | No run of any stream gets stuck exactly when pend_min is between 1 and pend_max + 1; for any other pend_min there is a stream and a run that does |
| `AgentStream.Stream.PassOn` | src/agent.cc:236-248 | Passing data on in the linked lists, with their first and last pointers and their count, does what it does to the lists' contents |
| `AgentStream.Stream.Slice` | src/agent.cc:122-173 | A timeslice on linked agents, lists and run queue does what the state machine's timeslice does |
| `AgentStream.Stream.ServeNext` | src/daemon.cc:395-413 | A turn of the server's loop on linked agents is the step of the state machine that takes the tail of the queue |
| `AgentStream.Stream.Finish` | src/agent.cc:930-954 | The walk over the agents reports the apply exactly when none of them has work left |
| `CowSessions.CowCfgKeeps` | src/options.cc:83-86 | Copying the configuration object for one session keeps every object's count at least its number of users less one |
| `CowSessions.CowLangKeeps` | src/options.cc:52-82 | So does copying a language, and every session reads what it read |
| `CowSessions.CowVoiceKeeps` | src/options.cc:52-82 | So does copying a voice |
| `CowServer.Server.SetOption` | src/options.cc:544-559 | Setting an option of the configuration, the current language or the current voice gives that option that value in what the session in use reads, and changes nothing else of it, and nothing of what any other session reads |
| `CowServer.Server.VoiceSwitch` | src/options.cc:605-612 | Switching the voice directly makes only the language the session's own, and is still read by no other session |
| `CowServer.Server.NewContext` | src/daemon.cc:113-143 | A new session reads what the session in use reads, and no session reads anything else than before |
| `CowServer.Server.DeleteContext` | src/daemon.cc:145-165 | What is freed at the end of a session is nothing that another session reaches: all others read what they read |
| `CowServer.Server.CowUnclaim` | src/options.cc:126-140 | The two loops give up each claim once and free just the objects that had no other |
| `SessionServer.Server.constructor` | src/ttscp.cc:32-33 | A server without connections is a forest |
| `SessionServer.Server.CmdData` | src/ttscp.cc:352-371 | The connection that asks leaves the roots and hangs below the one named, which then controls what both controlled; what any other controls is as it was; or the command is refused and nothing changes |
| `SessionServer.Server.CmdDelhandle` | src/ttscp.cc:373-383 | Deleting a data connection removes it and all it controls from every table and list, and nothing else |
| `SessionServer.Server.RunDisconnector` | src/agent.cc:982-999 | A queued session is destroyed with exactly its subtree |
| `SessionServer.Server.Shutdown` | src/daemon.cc:269-285 | Shutting down ends, empties the table of control connections, and leaves just what is below a session queued for disconnection |
| `SessionServer.Server.CmdShutdown` | src/ttscp.cc:226-235 | With no disconnection queued, both connection tables end empty and no session is left |
| `SessionForest.TiedSubs` | src/ttscp.cc:364-367 | What the new controller controls is its own and the new data connection's subtree, which had nothing in common; every other subtree is as it was |
| `SessionForest.CutOther` | src/agent.cc:1081-1106 | Destroying one root leaves what is below any other alone |
| `UnitWalk.LeftMost` | src/unit.cc:1259-1270 | The walk inwards ends, even among units without children, at the first unit of the level in or after x, within the scope |
| `UnitWalk.Next` | src/unit.cc:1272-1280 | The next unit is the first of those of the level that come after x within the scope |
| `UnitDump.WalksRow` | src/unit.cc:1259-1280 | LeftMost, and then Next again and again, visits the units of the level in order, and ends at EMPTY |
| `UnitDump.RowOnce` | src/unit.cc:1259-1280 | No unit is visited twice |
| `UnitMirror.Prev` | src/unit.cc:1282-1290 | The unit before x is what the next one is in the tree turned round |
| `UnitMirror.MirrorAhead` | src/unit.cc:1250-1290 | RightMost and Prev have the row of the level before them from right to left |
| `UnitText.Text.WriteSegs` | src/unit.cc:113-147 | A window of the dump, walked to or resumed from the unit remembered, holds the contents of the row's units from the given one on |
| `UnitText.Text.ShowSegments` | src/synth.cc:82-97 | Window after window, resumed each time, is the whole row, once, in order |
| `UnitSplit.SplitLinked` | src/unit.cc:777-798 | Splitting a unit keeps every condition of sanity |
| `UnitSplit.SplitRow` | src/unit.cc:777-798 | Splitting leaves every row below the level of the unit as it was |
| `UnitText.Text.Split` | src/unit.cc:777-798 | The pointer assignments of the split make the split tree: the unit keeps its first children, its clone has the others, and no contents or levels change; at a boundary it refuses and leaves the unit broken |
| `UnitJoin.JoinLinked` | src/unit.cc:1106-1143 | Unlinking a unit with its children handed to a brother keeps every condition of sanity |
| `UnitJoin.JoinRow` | src/unit.cc:1106-1143 | And it leaves every row below the level of the unit as it was |
| `UnitText.Text.UnlinkJoin` | src/unit.cc:1106-1143 | The pointer assignments do that, the brother's children and the unit's becoming one list in their order, exactly when there is such a brother and there are children; else they refuse, the unit already out of its train |
| `UnitDelete.CutRow` | src/unit.cc:1106-1143 | Cutting a subtree out leaves in each row just the units that stay, in their order |
| `UnitText.Text.UnlinkDelete` | src/unit.cc:1106-1143 | Deleting removes exactly the subtree and the ancestors left childless, so that nobody stays who loses all children; the rows of the others keep the units that stay |
| `Sonority.SecondExactly` | src/unit.cc:827-837 | The count kept from right to left asks for a break before the second phone of a valley exactly when the valley is a wide one |
| `Sonority.CharCounts` | src/unit.cc:827-837 | Kept in a char, the count never comes round to zero |
| `Sonority.NeverAtBoundary` | src/unit.cc:815-850 | With the juncture least sonorous of all no break is at a boundary |
| `Sonority.StartExactly` | src/unit.cc:815-850 | A break is asked for at the very start exactly when the juncture is more sonorous than the first phone and the second is too |
| `Sonority.StartBroken` | src/unit.cc:815-850 | Two phones of sonorities 1 and 2, with a juncture of 3, are to be broken before the first |
| `UnitText.Text.Syllabify` | src/unit.cc:827-850 | One syllable is broken just before the phones where the sonorities ask for it, in one go from right to left, and the row of phones stays; it fails exactly when a break is asked for at the start |
| `UnitSyllables.SyllablesTogether` | src/unit.cc:815-850 | The syllables it is broken into hold its phones in order, and none is empty |
| `CharLevels.Initables` | src/parser.cc:181-227 | The lists are accepted exactly when no character is in two, and then each has the level of its list and stands for itself |
| `CharLevels.Open` | src/parser.cc:50-77 | The parser of a translated text is at the first symbol after the first phone character, or it fails on lists that clash or a character without a level |
| `Tokens.Parser.Gettoken` | src/parser.cc:113-159 | Each call hands over one symbol of the text and leaves the others, and stays at the end |
| `Tokens.SymbolAt` | src/parser.cc:113-159 | What the bytes 46 and 45 are read as by the bytes around them: the symbols 1 to 5, themselves, or one symbol for a row of dashes |
| `Tokens.NothingSkipped` | src/parser.cc:113-159 | A text without those two bytes, in which every byte is a phone or of a level higher than the one before it, is read as its bytes and their levels |
| `Tokens.SymbolsNormal` | src/parser.cc:113-159 | No symbol ends an empty unit: each comes after one of a lower level, or is a phone |
| `UnitText.Text.Construct` | src/unit.cc:36-54 | The constructor uses up the symbols of its unit and links in just the units they stand for |
| `UnitGrow.TextSpells` | src/unit.cc:36-54 | A whole text holds all its symbols, in order, but those that stand for no contents |
| `UnitGrow.BuildTight` | src/unit.cc:36-54 | Only the last child of a unit can be without contents, if all symbols have some |
| `UnitGrow.BuildFull` | src/unit.cc:36-54 | A unit has no childless unit above the phones exactly when its symbols begin with a phone |
| `UnitGather.Gatherer.Gather` | src/unit.cc:388-410 | Whatever size the buffer has and grows to, it holds the contents gathered; it fails only when it may not grow and they do not fit |
| `UnitGather.PhonesGathered` | src/unit.cc:370-386 | Without what is above them, a unit is gathered as the contents of its phones from left to right |
| `UnitGather.UnitGathered` | src/unit.cc:370-386 | A unit below the whole text is gathered as the symbols it was made of |
| `UnitGather.TextReadBack` | src/parser.cc:59-77 | A text that parses is gathered as its symbols from the first phone on; above the phones no unit is empty exactly when the first phone character is not read as a symbol of a higher level |
| `UnitGather.DashFails` | src/parser.cc:113-159 | The text "-1", with the dash a phone and the minus sign a word's end, makes an empty word |
| `UnitReader.ReadBack` | src/unit.cc:36-54 | Parsing a text into units and gathering them gives back its symbols: the tables, the parser, the constructor and the buffer together |
| `UnitSmooth.Contour.SmoothRow` | src/unit.cc:967-991 | Walking two cursors along a row of the tree, with the old values kept in a circular queue, gives every unit of the row the weighted average of the old values at the clamped places, and leaves all other units alone |
| `Smooth.QuotientIs` | src/unit.cc:986 | The average is the weighted sum divided by 100, rounded towards zero |
| `Smooth.Additive` | src/unit.cc:980-986 | The weighted sum of two rows of values added up is the sum of theirs |
| `Smooth.AloneInside` | src/unit.cc:980-986 | A single value that is not zero counts with the weight at its distance from the unit, and not at all beyond the weights |
| `Smooth.ConstantFixed` | src/rule.cc:551-553 | With weights of 100 in all a constant contour stays as it is |
| `Smooth.WithinRange` | src/rule.cc:551-553 | With weights that are not negative nothing leaves the range of the old values |
| `CharTables.AlwaysPerfect` | src/function.cc:48-80 | With 255 slots and the multiplier 1 no two characters other than NUL collide |
| `CharTables.Search` | src/function.cc:48-80 | The search finds a table that tells members from others exactly when there are at most 255 characters and some multiplier may be used |
| `CharTables.MakeBooltab` | src/function.cc:25-80 | A set is made exactly when its exclusions are in order and it is not too large |
| `CharTables.InSetPlain` | src/function.cc:25-46 | Without exclamation marks a description means its characters |
| `CharTables.InSetNegated` | src/function.cc:50-51 | A mark in front turns the meaning round |
| `CharTables.InSetExcluding` | src/function.cc:25-40 | The characters after a mark are taken out of those before it |
| `CharTables.RefusedExactly` | src/function.cc:25-40 | A description is refused exactly when two marks come after a character that is none |
| `CharTables.Booltab.IsMember` | src/function.cc:42-46 | Membership is what the description says, negation and exclusions applied |
| `CharFunctions.MakeFunction` | src/function.cc:117-150 | A function is made exactly when its two lists fit, the domain is not too large, and some multiplier may be used |
| `CharFunctions.Function.Translate` | src/function.cc:104-109 | A character goes to its image, and to itself outside the domain |
| `CharFunctions.MapsIs` | src/function.cc:117-150 | Without compression the last pair for a character decides, with it the last that is not an identity |
| `CharFunctions.AlikeExactly` | src/function.cc:93-150 | Compressed and uncompressed functions differ at a character exactly when the last pair for it is an identity and an earlier pair for it is not |
| `CharFunctions.NotAlike` | src/function.cc:93-150 | With the pairs a-b and a-a, a goes to b compressed and to a uncompressed |
| `CharFunctions.AlikeWithoutRepeats` | src/function.cc:93-150 | So they agree when no character is in the domain twice |
| `CharCodes.SameCode` | src/encoding.cc:68-117 | After any history of loads and allocations two bytes of any character sets have the same code exactly when they are the same character |
| `CharCodes.RoundTrip` | src/encoding.cc:126-154 | A coded text is decoded to itself, now and after any later growth of the tables |
| `CharCodes.Recoded` | src/encoding.cc:126-154 | Decoding in another character set keeps the characters |
| `CharEncoder.Encoder.LoadCharset` | src/encoding.cc:185-221 | Loading a character set gives codes to just the bytes whose characters have one, and changes no other set |
| `CharEncoder.Encoder.AllocCode` | src/encoding.cc:94-110 | A character without a code gets one, its own byte exactly when that byte is already its code or it has none and the byte is free, the one it has, or else the highest that is free; when it fails nothing has changed |
| `CharEncoder.Encoder.Encode` | src/encoding.cc:126-145 | Without allocation a text is encoded exactly when each byte has a code or the default character has one |
| `CharEncoder.Encoder.Decode` | src/encoding.cc:147-154 | A text is decoded exactly when each code stands for a byte of the set |
| `CharEncoder.Encoder.EncodeAllocating` | src/encoding.cc:126-145 | With allocation the text is left encoded exactly when each byte without a code could, by the tables as they were, have its own number for one; only characters of the text get codes, and it fails only for a byte the map leaves out or with no code free |
| `CharEncoder.LeavesAlone` | src/encoding.cc:126-145 | Two character sets are loaded and a string of the byte 65 is encoded in each, 65 being another character in the second: the second string is left as it was, although its character has a code now |
| `WaveOutput.Wavefm.TotalLen` | src/waveform.cc:669-680 | The length computed is the length of the file |
| `WaveOutput.Wavefm.Flush` | src/waveform.cc:718-742 | Each flush writes the next bytes of the file, some if the descriptor takes any, and says whether there were more |
| `WaveOutput.Wavefm.Detach` | src/waveform.cc:428-436 | However many bytes the descriptor takes at a time, the file is written, each byte once, in order; and writing the header again at the beginning, or part of it, leaves it as it is |
| `WaveFile.RiffSize` | src/waveform.cc:447-460 | The size field set in attach is the length of the file less eight |
| `WaveFile.FileTiles` | src/waveform.cc:656-680 | A reader goes from chunk to chunk over the samples when they take an even number of bytes, and comes out one byte late when odd |
| `WaveFile.ChunksTile` | src/waveform.cc:656-680 | The file is a sequence of chunks exactly when the samples take an even number of bytes and there is no label |
| `WaveFile.OneByteFails` | src/waveform.cc:587-623 | One byte of samples alone is not padded, and the file is no sequence of chunks |
| `WaveReader.FileReads` | src/waveform.cc:160-195 | A reader finds the four-letter tags, the lengths and the format, the samples, every cue point's number and place, and every label, in their order, and nothing else; the length of the labels is short by four |
| `WaveFile.Labels.Label` | src/waveform.cc:890-911 | A label adds a cue point, and a name and a note that refer to it |

## Left out

- RxRewrite.MatchInPlace: taking a failure point off an empty stack, which the program does not test for and tame code does not do; the model leaves the stack empty.
- RxTame.YieldsLongest: sufficient only, as said above; some patterns whose code is not tame, such as \(ab*\)*, are matched right all the same.
- RxMatch.MatchPattern: loops whose body can match the empty string, more than 255 groups, and code of more than 32767 bytes, whose jump distances wrap around.
- Regular expressions: anchors, intervals, back-references, character classes, registers, the translate table, the other syntaxes, and subjects in two pieces; the compiler model refuses the first four.
- HashTree.RemoveMap: balance after deletions, which the program does not restore before the next rebuilding.
- HashTable.Table.Put: trees are values taken apart along a path of frames, so the relinking of nodes in place through the stack of links is not captured.
- HashTable.Table.GetRandom: the random seed is a parameter.
- PipelineRuns.TraceHolds: error paths, interruption, the join agent, and dependency chains on shared descriptors; readings and writings have any outcome.
- AgentStream.Stream.Slice: one stream; agents of other streams only enter and leave the queue.
- CowServer.Server.DeleteContext: freeing of strings, tables of options that belong to a voice, and delayed deletion; objects are entries of maps.
- SessionServer.Server.CmdData: sessions are named by handles that nobody else has, not by random strings; replies and permissions are left out.
- UnitText.Text.UnlinkDelete: units are entries of a map by reference, so a unit unlinked is gone at once; the program deletes it later.
- UnitText.Text.WriteSegs: contents only; frequency, intensity and time are sums over ancestors, and labels for segments are left out.
- UnitWalk.LeftMost: scopes below the root of the walk.
- UnitText.Text.Syllabify: one syllable in the scope at the start, as the rules have it, and the scope above it; in a scope that is the syllable itself the phones after a break would be out of sight.
- UnitSmooth.Contour.SmoothRow: quantities are unbounded integers, and a rule whose weights end before its centre is excluded.
- CharTables.MakeBooltab: NUL among the characters, which ends a string.
- CharFunctions.MakeFunction: the buffer shared by functions built in a row.
- CharEncoder.Encoder.LoadCharset: maps in which an unlisted byte's number is also a listed character; both bytes then stand for that character, and could be given the same code.
- CharEncoder.Encoder.EncodeAllocating: the default character set, which is loaded before any text.
- WaveOutput.Wavefm.Flush: translation of the samples, growth of the buffer, sound cards, and the empty buffer.
- UnitReader.ReadBack: reading files; prosodic quantities given in the text.
- Rules, dictionaries, substitution, synthesis, signal processing, sockets, select and clients.
