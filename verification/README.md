# Essence feeder, template, timeline and packet passes: a verified model

This project models the passes of Essence that rewrite a structure and are meant to keep its
meaning, and proves what they keep, for every input.

| file | what it models |
|---|---|
| `GlmLexer.dfy`, `GlmParser.dfy`, `GlmPrinter.dfy`, `GlmRoundTrip.dfy` | reading and writing GLM feeder models: lexer, stack-machine parser, recursive printer, and the round trip through all three |
| `DeEmbed.dfy` | moving nested GLM dicts to the top level until nothing is nested |
| `Connectivity.dfy` | Windmil conversion: parent guids become nodes and links, in a list that grows while it is walked |
| `Dedup.dfy`, `DedupMeaning.dfy` | Windmil conversion: merging equal configurations, one call, and what the six calls mean together |
| `Islands.dfy`, `Voltage.dfy` | CYME conversion: island removal, link splitting and the island check; voltage propagation |
| `DomTree.dfy`, `DomFilter.dfy` | the MultiSpeak template filter, as a function on trees and in place on elements with parents |
| `Timeline.dfy` | the request/response timeline: sorted list, two indexes over it, playback |
| `NodeGraph.dfy` | the colours of the annotated network graph |
| `Ipv4Checksum.dfy` | the IPv4 header checksum of the packet generator, against sections 1 and 2 of RFC 1071 |
| `Prelude.dfy` | Option and Result |

How the source is represented:

- A Python dict is a `map`. Where Python iterates one, the model iterates in an order it does not
  know (`:|`), or takes the order as part of the input (a `Listing` is a dict together with an
  iteration order), so every theorem holds for every order.
- An uncaught Python exception is a result (`Failure`, `None` or a flag), or a precondition that
  says which inputs do not raise it.
- Objects that the source updates in place are classes; each method's `ensures` gives the whole
  new state, and theorems are about that state.

Results that are not "it always works":

- Printing and parsing a schedule drops its last word, because the printer leaves out the `;` that
  the parser's slice counts on, and names and parents longer than 62 characters come back cut.
  `ItemIsKeptIff`: an item is kept exactly when it is a schedule without words, or no schedule and
  without such names; `ScheduleLosesItsLastWord` takes one of two words through the trip.
- `#include`, `#define` and `#set` dicts are printed without a semicolon, so at the end of a tree the
  text is one the parser raises on (`HashLinesDoNotParse`).
- `fixCompConnectivity` raises a KeyError exactly for a component below a link that asks for phases
  that are not there (`EndsIff`). Motors and generators are converted without phases, so if names do
  not clash a conversion fails exactly when one of them hangs below a link (`RaisesIffUnphased`;
  `MotorBelowLineRaises` is an input that fails and has nothing else wrong).
- A conversion ends and keeps the chain of links above every component exactly when none of them
  asks for phases that are not there and each ends up at a node that the nearest link above it feeds
  (`PathsPreservedLocally`, for all names). If names do not clash, that is so exactly when everything
  below a link has phases, a node below a link is the only one and comes before the other children,
  and every component with a link above it has a case (`PathsPreservedIff`; `LateNodeLosesPath` is
  an input that fails). That names do not clash is an assumption: names are compared before their
  dots are replaced, and nothing keeps a component from having a name the pass makes up.
  `ClashingNamesLosePath` is an input that fails for that reason alone.
- Editing both events of a pair before either is moved leaves the list in order exactly when the
  response does not mislead the search for the request (`PairEditSortsIff`). Whether it does can be
  read off four entries: its neighbours, and the ends of the window of the search in which it is
  the midpoint, which depends only on its position. `PairEditCanBreakOrder` is an input that fails.
- A request is listed before its response exactly when it is earlier, or their stamps are equal and
  the search meets the entries of that stamp later in the list once there is one more of them
  (`PairOrderIff`, on positions only; `InsertTimelineEventPair` carries it). A pair that is dropped
  starts with equal stamps, and dropped on the response of another pair it is listed the wrong way
  round (`DroppedPairSwaps`).
- In a run of insertions, starts, stops, resets, clears and timers running out, neither the run nor
  the timers it leaves at any point look up an event that is not there exactly if playback is never
  started while a timer is running, nor cleared while it runs with one (`SafeIffCareful`). Stop
  leaves the timer alone, so insert, start, stop, clear, start is a run that fails
  (`StaleTimerFindsNothing`).
- With one timer, playback is on time exactly when the list is in order (`OnTimeIff`;
  `BrokenOrderIsLate` plays the list a pair edit left).
- An element without a parent, which is what templates and SOAP messages filter, is filtered as it
  should be exactly when it is checked or there is nothing to filter (`RootIsFilteredIff`). With
  marks kept, nothing to filter means nothing unchecked below or among the attributes; with marks
  removed, no child at all and no attribute that is there and marked unchecked. `UncheckedCloneKeepsChild` and
  `UncheckedCloneKeepsMarks` are inputs that fail.
- A device to be split out that has the id of another section takes the place of that section. One
  split leaves the feeder islanded exactly when some other section starts at a node that only the
  replaced section fed (`SplitRootedIff`; `ClashingIdIslands` is an input that fails), and of several
  splits the last one decides (`SplitLinkObjects`). Over all tables, the order can decide
  (`OrderDecides`), so there the condition is sufficient only: no node depends on sections that are
  replaced, and no device at the end of a line sits on one (`ConvertSections`). Ids of their own
  meet it.
- Whether de-embedding leaves a flat tree depends on nested dicts alone: exactly when each of them is
  an object or a configuration (`FlattenedCount`).
- On an odd number of bytes the checksum agrees with RFC 1071 exactly when the last byte is zero
  (`OddLengthAgreesIffLastByteZero`; `OddByteDeparts` is an input that fails).

Where code and documentation disagree, the code is followed: the docstring of `fullyDeEmbed` shows
an embedded object leaving a reference in its container, the code only gives the object a `parent`;
the docstring of `_tokenizeGlm` shows token lists without the semicolons after `}`; the warning
about long names speaks of 64 characters, the code cuts after 62.

## Model

| member | source | states |
|---|---|---|
| `GlmLexer.CommentIsNothing` | Essence/omf/feeder.py:249-250 | a comment and its line end leave no trace in the tokens, whatever comments and links there are elsewhere, if its line has no other comment and it does not start behind a slash or inside a link |
| `GlmLexer.LinkIsNothing` | Essence/omf/feeder.py:247-248 | `http://` leaves no trace in the tokens, unless the text around it makes up another one |
| `GlmLexer.BetweenWords` | Essence/omf/feeder.py:251-256 | what each special character between two words does: line ends join them, blanks and tabs part them, braces and semicolons become tokens, vertical tabs and form feeds words |
| `GlmLexer.SegmentLexes` | Essence/omf/feeder.py:243-257 | text without comments that ends at a delimiter lexes to its own tokens, whatever follows it |
| `GlmLexer.SegmentTokenizes` | Essence/omf/feeder.py:243-257 | on its own, such text lexes to its tokens |
| `GlmLexer.SegmentsConcat` | Essence/omf/feeder.py:243-257 | lexing is compositional on printed text: the tokens of two segments one after the other are the tokens of each |
| `GlmLexer.PhraseTokens` | Essence/omf/feeder.py:254-257 | splitting a single-spaced phrase gives exactly its words |
| `GlmLexer.JoinSplits` | Essence/omf/feeder.py:267-272 | joining the words of any string with single blanks gives the string back |
| `GlmParser.PopStatement` | Essence/omf/feeder.py:279-282 | the popping loop takes words up to the first brace or semicolon, and fails exactly when the tokens run out |
| `GlmParser.ParseTokenList` | Essence/omf/feeder.py:259-314 | the imperative parser, with its token list, guid, guid stack and nested updates, computes `Parse`, failures included |
| `GlmParser.ParsesIffAccepts` | Essence/omf/feeder.py:278-314 | the parser raises exactly on token lists that are not acceptable: an unterminated or valueless statement, or a close without an open block |
| `GlmParser.ParsedGuidsAreUnique` | Essence/omf/feeder.py:273-306 | in every tree the parser returns, the guids over all nesting levels are 0..n-1 and none occurs twice |
| `GlmParser.SetBelow` | Essence/omf/feeder.py:261-266 | writing to the leaf below a path is writing the changed leaf into its parent |
| `GlmPrinter.SemicolonIsOptional` | Essence/omf/feeder.py:285-295 | before a closing brace a semicolon changes nothing, in any state of the parser, also where it raises |
| `GlmPrinter.AttrPrints` | Essence/omf/feeder.py:316-337 | a key and value lex to their words; of a name or parent that is too long the words up to the limit, the comment with the whole of it leaving nothing |
| `GlmPrinter.BlockPrints` | Essence/omf/feeder.py:316-353 | a well-formed block, nested to any depth and iterated in any order, prints, and the text lexes to the tokens of the block with its long names cut |
| `GlmPrinter.CommentKeyIsLost` | Essence/omf/feeder.py:324-325 | the key `comment` is printed as it is, so a value that is a comment does not come back |
| `GlmPrinter.RunBlock` | Essence/omf/feeder.py:278-313 | from any parser state, the tokens of a block leave the parser where it was, with the block under the next guid and its inner guids in preorder |
| `GlmPrinter.TakeWords` | Essence/omf/feeder.py:279-282 | words followed by a terminator are popped as one statement |
| `GlmRoundTrip.Write` | Essence/omf/feeder.py:18-36 | write (any order) and sortedWrite (ascending keys) print one dict per line and fail if one of them cannot be printed |
| `GlmRoundTrip.RoundTrip` | Essence/omf/feeder.py:18-36 | lexing and parsing what is printed of a well-formed tree gives the tree renumbered in preorder, with every schedule short of its last word and long names cut |
| `GlmRoundTrip.RoundTripKeepsTree` | Essence/omf/feeder.py:231-367 | without schedules the parsed tree is the printed tree with long names cut, up to a one-to-one renaming of guids on every level; so it is the printed tree if no name or parent is longer than 62 characters |
| `GlmRoundTrip.CutIsNothingIff` | Essence/omf/feeder.py:326-331 | cutting changes nothing exactly when no name or parent, on any level, is longer than 62 characters |
| `GlmRoundTrip.LongNamesAreCut` | Essence/omf/feeder.py:331 | of a longer word the first 62 characters come back |
| `GlmRoundTrip.CommentedRoundTrip` | Essence/omf/feeder.py:243-314 | a printed tree with any number of comments put in parses to what it parses to without them |
| `GlmRoundTrip.OneComment` | Essence/omf/feeder.py:249-250 | in text without double slashes a comment can be put anywhere but behind a slash or inside a link |
| `GlmRoundTrip.HashLinesDoNotParse` | Essence/omf/feeder.py:354-359 | `#include`, `#define` and `#set` print as stated, without a semicolon: at the end of a tree the parser raises on the text |
| `GlmRoundTrip.RenumberedIsSame` | Essence/omf/feeder.py:303-306 | renumbering in preorder changes nothing but guids |
| `GlmRoundTrip.ScheduleIsKeptIffEmpty` | Essence/omf/feeder.py:296-302 | the schedule words that come back are the ones printed exactly when there are none |
| `GlmRoundTrip.ItemIsKeptIff` | Essence/omf/feeder.py:326-349 | a top-level item comes back unchanged exactly when it is a schedule without words, or no schedule and without names longer than 62 characters |
| `GlmRoundTrip.ScheduleLosesItsLastWord` | Essence/omf/feeder.py:296-302 | a schedule of two words is printed, lexed and parsed to one of one word |
| `DeEmbed.Feeder.FreeKey` | Essence/omf/feeder.py:386-390 | the collision branch finds an unused key, and is the guid itself when that is free |
| `DeEmbed.Feeder.LiftObject` | Essence/omf/feeder.py:377-396 | the tree after an embedded object has moved to the top level with parent and name set |
| `DeEmbed.Feeder.LiftConfig` | Essence/omf/feeder.py:397-420 | the tree after an embedded configuration has moved to the top level and its container's slot, whatever it is called, names it |
| `DeEmbed.Feeder.DeEmbedOnce` | Essence/omf/feeder.py:369-420 | one pass, in any order: no dict that was on the top level contains anything to lift, and nothing about what is to come has changed |
| `DeEmbed.Feeder.FullyDeEmbed` | Essence/omf/feeder.py:76-90 | for every tree the source gets through, whatever the order and whatever keys collide: terminates with nothing left to lift and one top-level dict for each there was to come, none overwritten; if slots do not clash, these are as a multiset what every dict was to become, and parents, slots, names and all other keys are right on every level, under whatever keys; with unique guids the keys are the guids too |
| `DeEmbed.LiftKeepsTotal` | Essence/omf/feeder.py:377-420 | one lift, even under a foreign key, loses, duplicates and overwrites nothing |
| `DeEmbed.LiftGuids` | Essence/omf/feeder.py:384-394 | with unique guids the key is free, so the collision branch is not taken, and guids stay unique and the same |
| `DeEmbed.LiftKeepsTags` | Essence/omf/feeder.py:377-420 | one lift keeps how many dicts are to come to the top level, whatever the slots |
| `DeEmbed.EntriesArePlaced` | Essence/omf/feeder.py:375-420 | if the top level holds what a dict was to become, the dict and everything it contained on every level are found there under their own guids |
| `DeEmbed.AllLinked` | Essence/omf/feeder.py:377-420 | in the flat tree, on every level: a formerly embedded object names its container as parent; a configuration is named by the key its text spells and has the class it spells; a name is as it was, or container, class and guid in decimal; all other keys of both, and of the dicts of the top level, are as they were, none is added, and what cannot be moved stays |
| `DeEmbed.UnnamedDiffer` | Essence/omf/feeder.py:383-403 | two dicts of one class that had no name in one container get different names |
| `DeEmbed.DigitsAreDecimal` | Essence/omf/feeder.py:383 | the digits made of a guid are its decimal form |
| `DeEmbed.SplittingSpells` | Essence/omf/feeder.py:398 | splitting the text of a configuration gives the words that make it up, whatever blanks there are |
| `DeEmbed.AllLinkedSomewhere` | Essence/omf/feeder.py:384-394 | the same where guids occur twice and the collision branch is taken: the related dicts are on the top level under some key |
| `DeEmbed.FlattenedCount` | Essence/omf/feeder.py:76-90 | whatever stands on the top level, the result is flat exactly when every nested dict is an object or a configuration, and then has one entry for every dict there was |
| `DeEmbed.ParsedTreeFlattens` | Essence/omf/feeder.py:273-314 | a parsed tree has unique guids, so if every nested dict is an object or a configuration its flat form has exactly the keys 0..n-1, n being the number of dicts, clocks and settings on the top level included |
| `Connectivity.KindsAre` | Essence/omf/milToGridlab.py:776-778 | which classes are links, nodes and leaves |
| `Connectivity.Converter.FixCompConnectivity` | Essence/omf/milToGridlab.py:773-857 | one component connected in place, with the new node appended, its nominal voltage set and phases merged; a KeyError exactly when phases are read that are not there, with what has been written by then; False only when nothing has changed |
| `Connectivity.Converter.MergeInto` | Essence/omf/milToGridlab.py:822-840 | the node of a name gets the letters of its phases and the given ones, each once and in order, and nothing else changes; a KeyError if there is no such node or one of the two has no phases |
| `Connectivity.Converter.FixConnectivity` | Essence/omf/milToGridlab.py:860-861 | the loop over the growing list terminates, the appended nodes add nothing, and it raises exactly when one of the components it was given does; every appended node has the name, place and voltage of the components it was made up for; if names do not clash, the phases of every component of the result are its own letters and those of what hangs at it below a link, no others, in order where anything was merged |
| `Connectivity.PhasesOfResult` | Essence/omf/milToGridlab.py:822-848 | the phases of the result, letter by letter, in terms of the from and parent it has |
| `Connectivity.AppendedAreMadeUp` | Essence/omf/milToGridlab.py:826-832 | every appended component is the node made up for a component and the link above it, and stays so |
| `Connectivity.RunProgress` | Essence/omf/milToGridlab.py:806-861 | the list after any number of components in closed form: what every from, to and parent is |
| `Connectivity.WrittenNamesAreNodes` | Essence/omf/milToGridlab.py:813-853 | every from, to and parent written names a node of the result |
| `Connectivity.NodesCarryPhases` | Essence/omf/milToGridlab.py:822-840 | in a run that does not raise, a component below a link has phases, and the node it is attached to ends up with all of them |
| `Connectivity.EndsIff` | Essence/omf/milToGridlab.py:815-848 | whatever the names, the pass raises exactly if a component below a link has no phases, or the link feeds the name of a listed component without phases |
| `Connectivity.RaisesIffUnphased` | Essence/omf/milToGridlab.py:122-141 | on what the conversion delivers, if names do not clash, the pass raises exactly if a motor or generator hangs below a link |
| `Connectivity.MotorBelowLineRaises` | Essence/omf/milToGridlab.py:822-827 | a motor below a line: nothing clashes, everything has a case, and yet the pass raises |
| `Connectivity.ToTellsLinksApart` | Essence/omf/milToGridlab.py:824-853 | if names do not clash, no two links are ever given the same `to` |
| `Connectivity.OvertakenIsUnfed` | Essence/omf/milToGridlab.py:852-853 | if names do not clash, a child processed before a node child of the same link loses the link |
| `Connectivity.PathsPreservedIff` | Essence/omf/milToGridlab.py:773-861 | if names do not clash, the pass ends and the links from the source to every component are the link ancestors of its parentGuid chain exactly when everything below a link has phases, node children are single and first, and every component with a link above it has a case |
| `Connectivity.PathsPreservedLocally` | Essence/omf/milToGridlab.py:773-861 | whatever the names, the pass ends and the links are kept exactly when no component asks for phases that are not there and each ends up at a node that the nearest link above it feeds, or that none feeds if there is none |
| `Connectivity.FeedIsUnique` | Essence/omf/milToGridlab.py:813-853 | if names do not clash, there is only one chain of links from the source to a node |
| `Connectivity.LateNodeLosesPath` | Essence/omf/milToGridlab.py:852-853 | a load listed before the node below the same line: no name clashes, and yet its path is lost |
| `Connectivity.ClashingNamesLosePath` | Essence/omf/milToGridlab.py:91-100 | two nodes that get the same name when dots are replaced: nothing else is wrong, and yet a path is lost |
| `Connectivity.SortedSetKeeps` | Essence/omf/milToGridlab.py:802-804 | merging phases keeps each letter |
| `Connectivity.PhaseMergeIs` | Essence/omf/milToGridlab.py:802-804 | merged phases are strictly ascending and have exactly the letters of the two |
| `Dedup.DupToTup` | Essence/omf/milToGridlab.py:1194-1200 | in place: of two equal neighbours the first becomes a rename pair |
| `Dedup.Dechain` | Essence/omf/milToGridlab.py:1201-1207 | in place, backwards: every pair learns where its chain ends |
| `Dedup.NameMap` | Essence/omf/milToGridlab.py:1212-1228 | the dict maps each merged name to the last name of its run of equal objects and touches no other name |
| `Dedup.ChainIsRun` | Essence/omf/milToGridlab.py:1201-1207 | the chain of pairs from the first of a run ends at the last of the run |
| `Dedup.PairsRenameRuns` | Essence/omf/milToGridlab.py:1194-1228 | marking, dechaining and collecting resolve every rename in one step |
| `Dedup.Feeder.KillMerged` | Essence/omf/milToGridlab.py:1230-1234 | exactly the objects with merged names go |
| `Dedup.Feeder.RewireFor` | Essence/omf/milToGridlab.py:1236-1264 | exactly the slots that can name the merged class follow the renames |
| `Dedup.Feeder.DedupGlm` | Essence/omf/milToGridlab.py:1182-1264 | one call: the whole feeder after it, for the renames of the sorted list |
| `DedupMeaning.RunsAreRenaming` | Essence/omf/milToGridlab.py:1210-1228 | domain and range of the renames are disjoint, merged objects equal their targets up to names, and survivors differ pairwise |
| `DedupMeaning.FollowRename` | Essence/omf/milToGridlab.py:1236-1264 | a renamed reference leads to a surviving object of the same content |
| `DedupMeaning.AfterResolved` | Essence/omf/milToGridlab.py:1230-1264 | after a call no reference dangles |
| `DedupMeaning.UnfoldKept` | Essence/omf/milToGridlab.py:1182-1264 | a call keeps the fully unfolded configuration of every object it keeps |
| `DedupMeaning.CallMakesCanonical` | Essence/omf/milToGridlab.py:1194-1234 | after a call no two objects of its class have equal contents |
| `DedupMeaning.CallKeepsCanonical` | Essence/omf/milToGridlab.py:1236-1264 | a later call does not undo that for classes that cannot refer to the merged class |
| `DedupMeaning.SequenceIsCanonical` | Essence/omf/milToGridlab.py:1268-1274 | after the six calls in their order every survivor means what it meant, and no two objects of a merged class mean the same |
| `DedupMeaning.KeptIsSame` | Essence/omf/milToGridlab.py:1230-1264 | an object that means what it meant is the same but for what merged objects are called: with each referring slot written out, it names an object of the same text |
| `DedupMeaning.DedupAll` | Essence/omf/milToGridlab.py:1268-1274 | the six calls, made one after the other: the configuration of every transformer, regulator and line and the spacing and four conductors of every line configuration name objects that are there, of the right class and the same as before but for names; all other keys are as they were; only objects of the six classes go, and of those no two left have the same text or mean the same |
| `Islands.Network.IslandNodes` | Essence/omf/cymeToGridlab.py:1047-1055 | the loop terminates with the least set of nodes that holds the non-swing sources and is closed along the sections |
| `Islands.Network.RemoveIslands` | Essence/omf/cymeToGridlab.py:1034-1065 | exactly the sections go that have an end fed by a node other than the swing bus that nothing feeds, with their devices; every remaining start node is the swing bus or the end of a section |
| `Islands.IslandsAreFedElsewhere` | Essence/omf/cymeToGridlab.py:1043-1055 | the least set that holds the other sources and is closed along the sections is what they reach |
| `Islands.RemovalRoots` | Essence/omf/cymeToGridlab.py:1056-1062 | deleting whatever touches a fed set leaves no source but the swing bus |
| `Islands.RootedIsFedBySwing` | Essence/omf/cymeToGridlab.py:1034-1065 | in a feeder without circles whose only source is the swing bus, the swing bus reaches the start of every section |
| `Islands.Network.GroupDevices` | Essence/omf/cymeToGridlab.py:1066-1099 | the table of a device type holds for each section one of its devices of that type |
| `Islands.Network.SplitLink` | Essence/omf/cymeToGridlab.py:334-356 | one line cut for its device, on the side its location says, whatever its id; the section of the device has the phases of the line without N and D, of all other letters none lost, added or moved; the line keeps its phases |
| `Islands.StripPhasesIs` | Essence/omf/cymeToGridlab.py:353-354 | stripping leaves exactly the letters other than N and D, in their order |
| `Islands.SplitKeepsReach` | Essence/omf/cymeToGridlab.py:335-352 | a split is a subdivision: other nodes reach each other exactly as before, on either side |
| `Islands.SplitRootedIff` | Essence/omf/cymeToGridlab.py:335-352 | any split, whatever the id: afterwards only the swing bus is a source exactly if every other section starts at the swing bus, at the new node, or where a section other than the replaced one ends |
| `Islands.SplitKeepsRooted` | Essence/omf/cymeToGridlab.py:335-352 | a split with an id no section has leaves no new source |
| `Islands.SplitKeepsFedApart` | Essence/omf/cymeToGridlab.py:335-352 | with clashing ids: if every start is fed by a section that is not to be replaced, that holds after a split for the ids still to come |
| `Islands.OrderDecides` | Essence/omf/cymeToGridlab.py:331-352 | two links whose order decides whether the feeder is islanded |
| `Islands.SplitKeepsRanked` | Essence/omf/cymeToGridlab.py:335-352 | a split with a new node makes no circle, even if it replaces a section |
| `Islands.ClashingIdIslands` | Essence/omf/cymeToGridlab.py:336-350 | a device with the id of another section takes its place and leaves a node nothing feeds |
| `Islands.Network.SplitLinkObjects` | Essence/omf/cymeToGridlab.py:329-356 | a table in any order: its embedded links are split one after the other, whatever their ids; their sections have the phases of a line without N and D, all others keep theirs, and their devices move onto them; whether the feeder is islanded afterwards is settled exactly by the last; it is not if no start depends on a section that is replaced; with new ids each line is cut exactly for its device and reachability is kept |
| `Islands.Network.SplitAll` | Essence/omf/cymeToGridlab.py:1104-1107 | all tables one after the other: one device of each type of a line section is split out, and phases are as after each split; no island if no start depends on a section that is replaced and no device at the end of a line sits on one; no circle if the nodes are new; with new ids each device has the phases of its own line without N and D, reachability is kept and other devices are untouched |
| `Islands.Network.IsIslanded` | Essence/omf/cymeToGridlab.py:1149-1171 | the error is raised exactly when some start node is neither the swing bus nor an end |
| `Islands.Network.ConvertSections` | Essence/omf/cymeToGridlab.py:1034-1171 | removal, splitting and check in their order: of each line section that is left one device of each of the seven types is split out and no others, with the phases of a line without N and D, all other sections keeping theirs; under the condition on what is left the error is never raised, and if moreover the sections had no circles and the nodes are new the swing bus reaches every remaining section, those of devices included; with new ids the phases are those of the device's own line, and no node there was loses or gains a path to another |
| `Voltage.Propagation.SecondaryVoltage` | Essence/omf/cymeToGridlab.py:1810-1817 | the voltage behind a transformer: 120.0 for split phase, else that of a configuration of the name |
| `Voltage.Propagation.FixOne` | Essence/omf/cymeToGridlab.py:1808-1830 | one object: no assigned voltage changes, and every voltage is carried by some path |
| `Voltage.Propagation.FixVoltages` | Essence/omf/cymeToGridlab.py:1832-1844 | terminates; the names with a voltage are exactly those reached from swing buses; on a radial feeder each has the voltage along its path, and, unless configurations of one name differ, no other is possible: links and children have the voltage of what is before them, the far side of a transformer has 120.0 for split phase and else the secondary voltage of its configuration |
| `Voltage.OnePath` | Essence/omf/cymeToGridlab.py:1806-1831 | on a radial feeder a name has one path |
| `Voltage.RadialFixesVoltage` | Essence/omf/cymeToGridlab.py:1806-1844 | so its voltage does not depend on the order of iteration, unless configurations of one name differ |
| `Voltage.RadialSteps` | Essence/omf/cymeToGridlab.py:1808-1831 | on a radial feeder, what the voltages of two neighbours have to do with each other |
| `Voltage.SplitPhaseIff` | Essence/omf/cymeToGridlab.py:1811 | split phase is a name with SPCT anywhere in it |
| `DomTree.FilterIsExact` | Essence/Multispeaker/WsdlFile.cpp:558-605 | what is left, in document order and at its depth, is exactly what is checked with everything above it, less unchecked attributes |
| `DomTree.LaterFilterAbsorbs` | Essence/Multispeaker/WsdlFile.cpp:558-605 | filtering twice with marks kept is filtering once, and a filter that removes marks absorbs an earlier one that kept them |
| `DomTree.WithoutMarksNothingStays` | Essence/Multispeaker/WsdlFile.cpp:599-604 | a result whose marks were removed loses every child if it is filtered again |
| `DomTree.FilterIsNothingIff` | Essence/Multispeaker/WsdlFile.cpp:566-598 | the filter changes nothing exactly when nothing below and no attribute is unchecked |
| `DomTree.RootIsFilteredIff` | Essence/Multispeaker/WsdlFile.cpp:561-565 | an element without a parent is filtered as it should be, with or without its marks, exactly when it is checked or there is nothing to filter |
| `DomTree.UncheckedCloneKeepsChild` | Essence/Multispeaker/WsdlFile.cpp:228-230 | an unchecked part with an unchecked child: template and message keep the child |
| `DomTree.UncheckedCloneKeepsMarks` | Essence/Multispeaker/WsdlFile.cpp:515-519 | an unchecked part with a checked child: the child goes out in the message with its marks |
| `DomTree.FindCommutesWithFilter` | Essence/Multispeaker/WsdlFile.cpp:609-626 | looking up after filtering gives the filtered image of what was found before, and nothing exactly when it or something above it was unchecked |
| `DomFilter.Element.Trim` | Essence/Multispeaker/WsdlFile.cpp:568-589 | exactly the attributes marked unchecked go, with their marks |
| `DomFilter.Element.FilterChildren` | Essence/Multispeaker/WsdlFile.cpp:590-597 | walking siblings while they are removed visits every child once |
| `DomFilter.Element.Filter` | Essence/Multispeaker/WsdlFile.cpp:558-605 | the in-place filter: removed from its parent, or left as the filtered tree with the parent's list unchanged |
| `DomFilter.Element.FindElementNodeById` | Essence/Multispeaker/WsdlFile.cpp:609-626 | null exactly when no element has the id, else the first one in document order |
| `DomFilter.MethodTemplateRequest` | Essence/Multispeaker/WsdlFile.cpp:220-237 | the request made of the first two parts, as far as there are any, each filtered as a clone without a parent |
| `DomFilter.MethodTemplateResponse` | Essence/Multispeaker/WsdlFile.cpp:241-262 | the response made of the third and fourth part, as far as there are any |
| `DomFilter.Xml` | Essence/Multispeaker/WsdlFile.cpp:488-505 | clones appended before they are filtered: exactly the checked children stay |
| `DomFilter.XmlSoap` | Essence/Multispeaker/WsdlFile.cpp:509-536 | the envelope around header and body, each holding its part, if there is one, filtered as a clone without a parent |
| `DomFilter.MessageFromTemplate` | Essence/Multispeaker/WsdlFile.cpp:509-520 | a message made from a filtered template is the message made from the template |
| `Timeline.BinarySearchSplits` | Essence/Multispeaker/TimelineScene.cpp:322-346 | on a sorted list everything up to the result is no later and everything after it no earlier |
| `Timeline.SearchSplitsIff` | Essence/Multispeaker/TimelineScene.cpp:322-346 | on a list with one entry out of place the search still splits the others exactly when that entry does not mislead it |
| `Timeline.InsertKeepsOrder` | Essence/Multispeaker/TimelineScene.cpp:152-163 | inserting after the result keeps the list sorted |
| `Timeline.TimelineScene.InsertTimelineEventPair` | Essence/Multispeaker/TimelineScene.cpp:126-140 | refused while running; otherwise copies of both with id, stamp and type are listed and indexed once, each put where its stamp belongs, paired with each other, order is kept, and the request comes first exactly when the search does not put the response before it |
| `Timeline.TimelineScene.UpdateTimelineEvent` | Essence/Multispeaker/TimelineScene.cpp:373-386 | the event is taken out and placed by its new stamp; the index stays right |
| `Timeline.MovedStamps` | Essence/Multispeaker/TimelineScene.cpp:373-386 | one update restores order if the others are in order |
| `Timeline.TimelineScene.UpdateTimelineEventPair` | Essence/Multispeaker/TimelineScene.cpp:254-266 | both events moved one after the other, after both stamps have changed; in order exactly when the response did not mislead the search |
| `Timeline.PairEditSortsIff` | Essence/Multispeaker/TimelineScene.cpp:254-266 | the pair edit leaves the list in order exactly when the response does not mislead the search for the request, a condition on four entries |
| `Timeline.PairEditCanBreakOrder` | Essence/Multispeaker/MultiSpeaker.cpp:300-302 | a pair edit that leaves the list out of order |
| `Timeline.PairEditSortsIfResponseFits` | Essence/Multispeaker/TimelineScene.cpp:254-266 | it is enough that the edited response has kept its place |
| `Timeline.TimelineScene.PairedTimelineEvent` | Essence/Multispeaker/TimelineScene.h:63 | the partner of a live event is a live, different event whose partner is the first |
| `Timeline.TimelineScene.Clear` | Essence/Multispeaker/TimelineScene.cpp:102-121 | empties list and indexes, which leaves them coherent |
| `Timeline.TimelineScene.Start` | Essence/Multispeaker/TimelineScene.cpp:208-230 | the delay of the first timer |
| `Timeline.TimelineScene.Stop` | Essence/Multispeaker/TimelineScene.cpp:234-249 | playback stands still, and a running timer keeps running |
| `Timeline.TimelineScene.OnProcessEvent` | Essence/Multispeaker/TimelineScene.cpp:407-431 | the event sent and the delay to the next |
| `Timeline.PlayThrough` | Essence/Multispeaker/TimelineScene.cpp:194-230 | reset, start and one timer after the other: every event is sent once, in order, on a sorted list at its own stamp, ending with the index at the count |
| `Timeline.OnTimeIff` | Essence/Multispeaker/TimelineScene.cpp:407-431 | every event goes out at its own stamp exactly when the list is in order |
| `Timeline.BrokenOrderIsLate` | Essence/Multispeaker/TimelineScene.cpp:407-431 | the list a pair edit left out of order sends an event late |
| `Timeline.SafeIffCareful` | Essence/Multispeaker/TimelineScene.cpp:194-249 | over all runs of insertions, starts, stops, resets, clears and timers running out: every event looked up, in the run or by the timers it leaves at any point, is there exactly if playback is never started while a timer runs, nor cleared while it runs with one |
| `Timeline.StaleTimerFindsNothing` | Essence/Multispeaker/TimelineScene.cpp:208-249 | insert, start, stop, clear, start: the timer of the first playback looks up an event in the empty list |
| `Timeline.Perform` | Essence/Multispeaker/TimelineScene.cpp:407-431 | every careful run, performed on a scene, keeps the indexes coherent and never finds an event missing |
| `Timeline.RequestFirst` | Essence/Multispeaker/TimelineScene.cpp:126-140 | a later response is listed after its request |
| `Timeline.EqualPairIff` | Essence/Multispeaker/TimelineScene.cpp:157-163 | of two equal stamps put into a list in order the second lands behind the first exactly when there was none, or the first midpoint among them comes later once there is one more |
| `Timeline.PairOrderIff` | Essence/Multispeaker/TimelineScene.cpp:126-140 | the request of a pair is listed first exactly when it is earlier, or as early and that condition holds |
| `Timeline.DroppedPairSwaps` | Essence/Multispeaker/TimelineScene.cpp:305-306 | a pair dropped on the response of another one is listed the wrong way round |
| `NodeGraph.Join` | Essence/omf/AnnotatedNetworkGraphJSONGenerator.py:119-127 | colours form a semilattice: the join is the least upper bound |
| `NodeGraph.CascadeIsJoin` | Essence/omf/AnnotatedNetworkGraphJSONGenerator.py:244-279 | the if cascade of one row is the join with what the row contributes |
| `NodeGraph.ANGCompleteGraph.AddLink` | Essence/omf/AnnotatedNetworkGraphJSONGenerator.py:115-131 | raises exactly for missing nodes, changing nothing |
| `NodeGraph.ANGCompleteGraph.ProcessRow` | Essence/omf/AnnotatedNetworkGraphJSONGenerator.py:232-279 | one row never raises and recolours exactly its two nodes |
| `NodeGraph.ANGCompleteGraph.ProcessRows` | Essence/omf/AnnotatedNetworkGraphJSONGenerator.py:232-279 | after all rows each node has the join of its saved colour and all contributions |
| `NodeGraph.ColoringIsUnique` | Essence/omf/AnnotatedNetworkGraphJSONGenerator.py:232-279 | the colours do not depend on the order or repetition of rows |
| `NodeGraph.ReplayChangesNothing` | Essence/omf/AnnotatedNetworkGraphJSONGenerator.py:232-279 | running the rows again changes no colour |
| `Ipv4Checksum.IpChecksum` | Essence/PacketGeneration/multispeakgenerator.py:24-38 | the loop sums the big-endian words of the first size bytes, folds twice and complements |
| `Ipv4Checksum.DeferredCarriesRefineRfc1071` | Essence/PacketGeneration/multispeakgenerator.py:24-38 | on up to 65537 words, deferring the carries gives the one's complement sum of RFC 1071 |
| `Ipv4Checksum.OddLengthAgreesIffLastByteZero` | Essence/PacketGeneration/multispeakgenerator.py:34-35 | on an odd length it does so exactly when the last byte is zero |
| `Ipv4Checksum.OddByteDeparts` | Essence/PacketGeneration/multispeakgenerator.py:34-35 | on the single byte 1 the checksum is not that of RFC 1071 |
| `Ipv4Checksum.StoredChecksumVerifies` | Essence/PacketGeneration/multispeakgenerator.py:85-93 | storing the checksum in its zeroed word makes the checksum of the whole zero |
| `Ipv4Checksum.SingleWordChangeDetected` | Essence/PacketGeneration/multispeakgenerator.py:24-38 | a changed word is noticed except where one's complement has two zeros |
| `Ipv4Checksum.GenIP` | Essence/PacketGeneration/multispeakgenerator.py:67-94 | every header packed carries a checksum that verifies, all other fields as given; packing fails exactly when a field does not fit |

## Left out

- The round trip of GLM items that are none by design: `#include`, `#define`, `#set` and `class` dicts without `omftype`, whose text has no semicolon, and the key `comment`.
- The `class` branch of the printer, whose two list-valued keys no other pass uses; the model's printer fails there.
- Schedules inside other blocks, and tabs, line ends or runs of blanks in values.
- Reading and writing GLM files; the iteration orders of Python are arbitrary or parameters.
- De-embedding of dicts that are both object and configuration, of containers without a name, and of configurations with fewer than three words: the source raises there.
- DeEmbed.Feeder.FullyDeEmbed: where two configurations of a container share a slot, or a slot is one of `name`, `parent`, `object` and `omfEmbeddedConfigObject`, the result depends on the order of iteration, and only termination, number of dicts and guids are stated.
- Dedup.Feeder.DedupGlm: the sorted list is a parameter; what is assumed of `sorted` is that equal contents meet.
- Connectivity.Converter.FixConnectivity: whose phases a node of the result has is stated for names that do not clash; where they do, phases can also come by way of a component of the same name. What one merge does is stated for all names.
- Connectivity.PathsPreservedIff: names that clash are excluded here, because with them the condition is about what names the pass ends up with; `PathsPreservedLocally` includes them.
- Connectivity.ToTellsLinksApart: names that clash are excluded, for then two links can be given the same `to`.
- Connectivity.OvertakenIsUnfed: names that clash are excluded, for then another link can feed the node.
- The later deletion of Windmil links with a missing end.
- Islands.Network.ConvertSections: the condition for clashing ids is exact for one split and for the last of a table, and sufficient for all tables together, where the order can decide.
- Islands.Network.SplitLink: coordinates with their random offsets.
- CYME: parallel links, `_findParents`, and devices whose type is not split out.
- Voltage.Propagation.FixOne: the writes to regulator band centres and widths; voltages are strings that are passed on.
- Template filter: text and comment nodes, the parts of the information attributes other than the check marks, unchecked attributes named like one of the three information attributes, and the text a document is written out as.
- Timeline: drawing, the event model, the clock widget, dragging, and when events go out after a pause (the resume delay ignores the time stamp of the event before).
- Node graph: radius, protocols, ports, counts and `displayWithMultiSpeak`, which depends on row order; links are pairs of names without ports.
- The TCP checksum of the generator, which folds once and can become negative.
- Load and length splitting in the Windmil conversion, electrical conversions, schema expansion, sockets, databases, simulators and user interface.
