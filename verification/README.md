# Verification of shish's closed algorithms

shish is a POSIX-like shell written one function per file. Most of it is system calls. This
project models the parts that are algorithms or state machines of their own, branch by branch, and
proves what they are for. `dafny verify dfyconfig.toml` verifies everything.

| part | files | the reference it is proved against |
|---|---|---|
| the wildcard matcher and `${v%p}` and friends | `Patterns` `Brackets` `Fnmatch` `PatternText` `ParamTrim` | the matching relation in which every `*` chooses for itself; the strings a pattern stands for, by its parts |
| the path functions | `Paths` `PathScan` `PathCanon` `PathRel` `PathRoundTrip` `Canonicalize` | stacks of components |
| the tree walker | `Traversal` `WalkState` `Walk` `TraversalLaws` `WalkOrder` | the recursive traversal of a finite inode graph; the places there are, and an order on them |
| the evaluator's frames and jumps, `set -e` | `Commands` `Frames` `Evaluator` `Fuel` `ErrExit` `Counter` `FirstFailure` `EvalLaws` `Calm` `JumpLaws` | a structured semantics with outcomes instead of longjmp; the exemption as a property of place; programs as boolean formulas |
| the hashmap | `Probing` `HashMap` | a finite map |
| the command cache | `ExecHash` | the search it stands for |
| the arena | `Arena` | disjoint blocks, a stack of marks |
| the JSON writer and the syntax tree printer | `Json` `JsonText` `JsonWriter` `AstPrint` | a reader for RFC 8259 |
| UTF-8 and UTF-16, numbers, the directory sort | `Utf8` `Utf16` `Numbers` `HeapSort` `DirSort` | sequences of scalar values, digit strings, multisets of records |

Objects that the C code updates in place are classes here (`Walker.Walk`, `HashMaps.HashMap`,
`Evaluator.Shell`, `ExecHash.Cache`, `Arena.Arena`, `JsonWriter.Writer`), buffers are arrays, loops
are loops. Each method is proved against a function of the inputs or of the old state, and the main
results are about those functions.

What the code does where it departs from its documentation or from POSIX is kept, and each case has
a theorem:

- A `break` out of a loop's condition leaves the `set -e` counter up (`ErrExit.BreakInCondition`).
  Where no jump leaves an exempt part and lands the counter is right (`ErrExit.CounterIsScope`), and
  so it is in every run that ends with the counter at 0 (`Counter.ZeroAtTheEnd`).
- `until` ends on a test status of 2 or more (`EvalLaws.UntilEndsEarly`); it is right exactly for 0
  and 1 (`EvalLaws.LoopTest`).
- In an else part that begins with an `if`, the commands on the lines behind that `if`, and its
  redirections, are dropped (`EvalLaws.LostInScript`); such else parts are run as written exactly if
  there are none (`EvalLaws.ElseIfExactly`), every other else part always is (`EvalLaws.ElseIsRun`),
  also one whose commands are all on the line of the `if` (`EvalLaws.KeptOnOneLine`).
- `exit` in a sourced file ends only the file (`Commands.File`).
- Putting a key again that lies behind a tombstone makes a second copy; the index stays faithful
  exactly otherwise (`HashMaps.HashMap.Put`, `Probing.PutMeans`, `Probing.DeletedComesBack`).
- A lookup in a subshell that has unset its parent's function outlives the subshell
  (`ExecHash.UnsetInSubshell`); the cache is right exactly if there is no such entry
  (`ExecHash.Cache.Restore`).
- `path_rel` between canonical relative paths cannot be undone exactly when base has a `..` behind
  the common components, or is `.` where p is not (`PathRoundTrip.RelRoundTrip`): from `.` to `a` it
  says `../a` (`PathRoundTrip.FromDotFails`, `PathRoundTrip.FromUpFails`).
- The scans for the end of a bracket expression do not always read it the way its members are read:
  where the first member is escaped (`Fnmatch.EscapedFirstMember`), where a range ends in a backslash
  (`Fnmatch.EscapeAsRangeEnd`), where the first member is a subexpression and there is no other `]`
  (`Fnmatch.UnclosedClass`). `Fnmatch.BracketIsRight` is the exact condition for each `[`.
- Bytes that nothing can complete to a character can be reported as cut off, `E0 80` for one
  (`Utf8.CutBeforeOverlong`); `Utf8.CutMeans` is the exact condition.

Module names are the file names except `PathCanon.dfy` (`Canonize`), `Walk.dfy` (`Walker`),
`HashMap.dfy` (`HashMaps`); `Patterns.dfy` also holds `OneBookmark`.

## Model

| member | source | states |
|---|---|---|
| `PatternText.TextMeans` | lib/path/path_fnmatch.c:115-400 | for every pattern written from literal and quoted characters, `?`, `*` and bracket expressions (characters, quoted ones, ranges, classes, collating symbols and equivalence classes, ranges between symbols, a leading `]`, a trailing `-`, negated or not), every string and all flags: the matcher answers "match" if and only if the string is one the pattern stands for by XCU 2.13, which is told without reading the text |
| `PatternText.RangeTakes` | lib/path/path_fnmatch.c:267-286 | `[lo-hi]` takes exactly the characters from lo to hi, `[!lo-hi]` exactly the others |
| `PatternText.ClassTakes` | lib/path/path_fnmatch.c:221-236 | `[[:name:]]` takes exactly the characters of the class, `[![:name:]]` the others, for the twelve classes |
| `PatternText.OthersTake` | lib/path/path_fnmatch.c:324-382 | `?` takes any character, a literal, a quoted and a bracketed character only itself |
| `PatternText.RangeEndReads` | lib/path/path_fnmatch.c:69-88 | what makes a range: `-x`, `-[.x.]` and `-[=x=]` end at x and are 2 and 6 characters long, `-]` and anything without a `-` make none |
| `PatternText.ReadsParts` | lib/path/path_fnmatch.c:173-382 | the matcher reads the parts of a pattern off its text, every bracket expression right |
| `Fnmatch.MatcherDecides` | lib/path/path_fnmatch.c:115-400 | for every string, all flags (NOESCAPE, PATHNAME, PERIOD) and every pattern whose bracket expressions are each read right (BracketIsRight says exactly when): the matcher answers "match" if and only if the matching relation holds, in which every `*` absorbs a run of its own choice; so remembering the last `*` alone loses no match |
| `Fnmatch.TidyDecides` | lib/path/path_fnmatch.c:115-400 | the same by the looks of the pattern: no bracket expression begins with an escaped member or a subexpression, and no range in one ends in a plain backslash or the `[` of a subexpression |
| `Fnmatch.BracketIsRight` | lib/path/path_fnmatch.c:174-323 | the exact condition for one `[`: the matcher takes the characters it stands for and goes on behind it, for every character, if and only if path_fnmatch_has_close agrees with the members on whether it is a bracket expression and, unless it is negated, the skip after a hit stops at its `]` from behind every member that can be the first to take a character |
| `Fnmatch.BracketDecides` | lib/path/path_fnmatch.c:115-400 | for a pattern that is one bracket expression and takes any character at all, without PERIOD: the matcher agrees with the matching relation on every string if and only if that condition holds |
| `Brackets.HasCloseMeans` | lib/path/path_fnmatch.c:93-113 | in a tidy bracket expression path_fnmatch_has_close sees a closing `]` if and only if reading member by member comes to one |
| `Brackets.TidyCloses` | lib/path/path_fnmatch.c:288-314 | behind the first member, the skip after a hit stops at the same `]` at which reading member by member stops |
| `Brackets.TidyIsRight` | lib/path/path_fnmatch.c:174-323 | a tidy bracket expression meets the exact condition |
| `Brackets.ScanGoesWrong` | lib/path/path_fnmatch.c:287-318 | where the skip misses the `]` behind some member that can be the first to hit, a character is found on which the pattern goes on at the wrong place |
| `Brackets.ScanNegated` | lib/path/path_fnmatch.c:287-320 | a negated bracket expression needs no condition on the skip: only its last member ends it |
| `Fnmatch.PathFnmatch` | lib/path/path_fnmatch.c:115-400 | the loop terminates on every pattern, well formed or not, and answers what the character-level run answers; on well-formed patterns that is the matching relation |
| `OneBookmark.RunDecides` | lib/path/path_fnmatch.c:117-132 | a run with one bookmark, from any state it can reach: it succeeds iff what is left matches or some further extension of the bookmarked `*` does |
| `OneBookmark.NewStarSuffices` | lib/path/path_fnmatch.c:122-127 | the claim of the comment: when a nearer `*` replaces the bookmark, extending the earlier one could recover exactly what extending the nearer one recovers |
| `OneBookmark.Shift` | lib/path/path_fnmatch.c:384-397 | if the stretch between two `*` matches at two places and the earlier `*` may absorb the distance, then the later `*` may absorb the same distance behind the stretch: no `/` can hide there |
| `OneBookmark.StarFreeIsStraight` | lib/path/path_fnmatch.c:371-381 | a stretch without `*` is matched in one way, character by character |
| `Fnmatch.SameRun` | lib/path/path_fnmatch.c:139-399 | the run over characters makes the moves of the run over elements, position for position |
| `Fnmatch.StepMeans` | lib/path/path_fnmatch.c:173-382 | one element of a well-formed pattern (literal, escape, `?`, bracket expression) accepts a character iff the element stands for it, and the pattern goes on behind the element |
| `Brackets.ScanMeans` | lib/path/path_fnmatch.c:191-323 | trying the members one after the other decides membership and leaves off right behind the closing `]`, whichever member hit |
| `Brackets.SkipOverMember` | lib/path/path_fnmatch.c:93-113 | neither the skip nor the scan for a `]` stops inside a member, unless it is a range whose plain end point is a backslash or an opening `[:`, `[.`, `[=` |
| `Fnmatch.EscapedFirstMember` | lib/path/path_fnmatch.c:100-110 | `[\\]` against one backslash: the set contains it, but the scan for `]` starts behind the first member and takes its second half for an escape, so the matcher says no |
| `Fnmatch.EscapeAsRangeEnd` | lib/path/path_fnmatch.c:288-314 | `[xA-\]b]` against `xb]`: related, not matched, because the skip after a hit reads the range end point as an escape |
| `Fnmatch.UnclosedClass` | lib/path/path_fnmatch.c:100-110 | `[[:alpha:]` against a letter: not related, for it is a literal `[` and a set, but matched, because the scan stops at the inner `]` |
| `Fnmatch.OddButRight` | lib/path/path_fnmatch.c:288-314 | `[xA-\a]` has an odd range end and is read right all the same: the skip comes back in step |
| `Fnmatch.SubexprLen` | lib/path/path_fnmatch.c:46-56 | length of `[:name:]`, `[.x.]`, `[=x=]`: the first closing pair is found, 0 when there is none |
| `Fnmatch.HasCloseScan` | lib/path/path_fnmatch.c:93-113 | says whether a closing `]` is seen, escapes and subexpressions skipped |
| `Fnmatch.OneMember` | lib/path/path_fnmatch.c:194-286 | the length of one member does not depend on the character tried, and the answer is membership in it |
| `Fnmatch.ScanMembers` | lib/path/path_fnmatch.c:174-323 | the bracket loop: where the pattern goes on, or failure; a `/` is never matched under PATHNAME |
| `Fnmatch.MatchOne` | lib/path/path_fnmatch.c:173-382 | the switch over the pattern character agrees with the one-step function |
| `ParamTrim.AcceptedIsRelated` | src/expand/expand_param.c:511-513 | with flags 0 and a well-formed pattern, what the trimming loops ask of the matcher is the matching relation |
| `ParamTrim.RemoveShortestSuffix` | src/expand/expand_param.c:496-521 | `${v%p}`: kept part and removed part make up v; the removed suffix is the shortest related one (the empty one counts), and nothing is removed if none is related |
| `ParamTrim.RemoveLongestSuffix` | src/expand/expand_param.c:523-544 | `${v%%p}`: the same with the longest suffix |
| `ParamTrim.RemoveShortestPrefix` | src/expand/expand_param.c:546-570 | `${v#p}`: the same with the shortest prefix |
| `ParamTrim.RemoveLongestPrefix` | src/expand/expand_param.c:572-593 | `${v##p}`: the same with the longest prefix, though the loop does not try the empty one |
| `ParamTrim.ShorterInLonger` | src/expand/expand_param.c:496-593 | for any relation each cut is unique, and what the shorter operator removes lies inside what the longer one removes |
| `Canonize.PathCanon` | lib/path/path_canon.c:10-66 | for every input, also with out == p: nothing is written below n + 2 bytes of room; otherwise out holds the rendering of the normalised component stack and its NUL, within n + 2 bytes |
| `Canonize.CanonStep` | lib/path/path_canon.c:30-59 | one round keeps the write index at or below the read index, the unread input untouched, and out the text of the stack so far |
| `Canonize.ApplyComponent` | lib/path/path_canon.c:33-55 | the bytes after one component are the text of the stack with that component pushed: `.` nothing, `..` pops a name or stays in a relative leading run, a name is appended |
| `Canonize.PopLast` | lib/path/path_canon.c:35-40 | dropping bytes back to a separator removes exactly the last component |
| `Canonize.CopyRoot` | lib/path/path_canon.c:17-28 | a leading run of separators becomes one |
| `Paths.CanonNormal` | lib/path/path_canon.c:3-8 | the stack a path normalises to is `..` only in a leading relative run, then names other than `.` and `..` |
| `Paths.CanonIdempotent` | lib/path/path_canon.c:3-11 | canonicalising twice is canonicalising once, for every string |
| `Paths.CanonOfRender` | lib/path/path_canon.c:3-11 | renderings of normal stacks are the fixed points |
| `Paths.CanonRewrites` | lib/path/path_canon.c:3-8 | what may be left out of any path: a name with the `..` behind it, a `.`, a second separator, a `..` right behind the root |
| `Paths.CompsConcat` | lib/path/path_canon.c:28-58 | splitting into components commutes with concatenation at a separator |
| `Canonicalize.PathCanonicalize` | lib/path/path_canonicalize.c:67-170 | terminates for every link map, cyclic ones included; returns 0 or one more than the number of links followed, with the rendering of the resolved stack; with symbolic != 0 it always succeeds with the bytes path_canon writes |
| `Canonicalize.LexicalWhenSymbolic` | lib/path/path_canonicalize.c:129-130 | where no link is looked at the resolution is the lexical normalisation |
| `Canonicalize.PhysicalResult` | lib/path/path_canonicalize.c:51-66 | a successful physical result: at most 40 links, canonical bytes, no component a link, a second resolution follows nothing and changes nothing, and without links it is the lexical form |
| `Canonicalize.ResolveIsPhysical` | lib/path/path_canonicalize.c:83-157 | from any state of the loop: success gives a normal stack none of whose prefixes is a link, and the link count only grows up to the limit |
| `Canonicalize.ResolveIsLexical` | lib/path/path_canonicalize.c:99-130 | a resolution that meets no link is the lexical one |
| `Canonicalize.ResolvedStays` | lib/path/path_canonicalize.c:99-130 | resolving a resolved stack follows no link |
| `Canonicalize.FortyLinks` | lib/path/path_canonicalize.c:132-135 | a path that ends after at most 40 links, all readable, is resolved to where it ends with that count; one that meets a 41st is given up on |
| `Canonicalize.SelfLinkLoops` | lib/path/path_canonicalize.c:132-135 | a link to itself ends with ELOOP however many links were followed before |
| `Canonicalize.UpOne` | lib/path/path_canonicalize.c:112-124 | `..` on the text: pop and keep agree with `..` on the stack, and with path_canon, though they look at the last component from the right |
| `Canonicalize.PopString` | lib/path/path_canonicalize.c:41-49 | pop removes the last name and the separators before it, not the root |
| `PathRel.PathCat` | lib/path/path_cat.c:4-36 | returns the length of the joined path, writes it and a NUL only if there is room, also in place on a |
| `PathRel.CatComps` | lib/path/path_cat.c:9-15 | joining a relative part has the components of both, one after the other, and the first one's root |
| `PathRel.PathAbs` | lib/path/path_abs.c:8-17 | below the bound nothing is written; otherwise out holds the canonical form of the joined path |
| `PathRel.AbsIsCanonical` | lib/path/path_abs.c:3-7 | with an absolute cwd the result is absolute and canonical, is p's own canonical form when p is absolute, and otherwise p applied to cwd's stack |
| `PathRel.PathCommon` | lib/path/path_common.c:9-41 | both cut points end a whole component right behind the common ones; 0, 0 when the roots differ |
| `PathRel.CommonIsLongest` | lib/path/path_common.c:4-8 | a whole-component prefix of a is one of b if and only if it is no longer than the common one |
| `PathRel.PathRel` | lib/path/path_rel.c:10-57 | fails iff the roots differ; the returned length is the number of bytes written; the bytes are one `..` per component of base behind the common ones, then the rest of p; nothing is written without room |
| `PathRel.WriteRel` | lib/path/path_rel.c:33-54 | the writing part, `.` for the empty answer included |
| `PathRoundTrip.RelRoundTrip` | lib/path/path_rel.c:4-9 | for canonical p and base with the same root: canonicalising base joined with the answer gives p back if and only if neither `.` nor `..` is among the components of base behind the common ones |
| `PathRoundTrip.FromDotFails` | lib/path/path_rel.c:25-28 | from `.` to `a` the answer is `../a`, which does not lead to `a` |
| `PathRoundTrip.FromUpFails` | lib/path/path_rel.c:25-28 | from `..` to `a` the answer is `../a`, which does not lead to `a` |
| `PathRoundTrip.AbsoluteRoundTrip` | lib/path/path_rel.c:4-9 | for absolute canonical paths it always gives p back |
| `PathRoundTrip.StackIsDeeper` | lib/path/path_rel.c:25-26 | otherwise the result climbs further than p: the `..` of base is answered by another `..` |
| `PathRoundTrip.StackComesBack` | lib/path/path_rel.c:25-28 | popping base down to the common components and pushing the rest of p gives the stack of p |
| `Walker.Run` | lib/walk/walk_read.c:242-289 | a whole walk, with any calls of walk_keep, walk_skip and walk_kids between the visits: the visits are exactly those of the recursive traversal, in order, and the walk ends on every graph, cyclic ones included |
| `Walker.Walk.Read` | lib/walk/walk_read.c:242-289 | every call gives the next visit of the traversal the state stands for, NULL only when there is none, and then the list arena is empty |
| `WalkState.Step` | lib/walk/walk_read.c:247-277 | one round gives the first of the visits that are left, or no visit and one round less; what is left afterwards is the rest |
| `WalkState.UnwindChild` | lib/walk/walk_read.c:208-220 | what a stack of frames still has to give is what its next entry gives followed by the rest, with the entry's kept mark carried up |
| `WalkState.PopStep` | lib/walk/walk_read.c:222-240 | a list at its end gives the POST visit and hands its kept mark to the frame below |
| `WalkState.DescendStep` | lib/walk/walk_read.c:133-205 | entering gives the directory's children and its POST, or one ERR visit and no frame |
| `WalkState.BeginStep` | lib/walk/walk_read.c:84-93 | an entry is a file, a cycle or a PRE, and only a PRE that is not skipped is entered |
| `WalkState.TurnOk` | lib/walk/walk_read.c:153-205 | every round keeps the frames a chain: no directory twice, each below the one under it |
| `Walker.Walk.Turn` | lib/walk/walk_read.c:247-277 | one round on the real fields is one round of the abstract machine |
| `Walker.Walk.DescendTurn` | lib/walk/walk_read.c:133-205 | depth limit, device limit, a list read early by walk_kids reused or dropped, errors; and the lists of outer frames stay where they are in the arena |
| `Walker.Walk.PopTurn` | lib/walk/walk_read.c:222-240 | the frame's list and all behind it go back to the arena, path and kept mark are the parent's again |
| `Walker.Walk.ChildTurn` | lib/walk/walk_read.c:207-220 | the next record, its path and classification |
| `Walker.Walk.RootTurn` | lib/walk/walk_read.c:95-131 | the root: followed or not, with the separators behind it cut off if not, an error, or its first visit |
| `Walker.Walk.SeesCycle` | lib/walk/walk_read.c:66-82 | true iff the directory is one of those being listed |
| `Walker.Walk.ClassifyEntry` | lib/walk/walk_read.c:36-64 | the kind from the record, from lstat or, when links are followed, from the target; the cached stat is that of the entry |
| `Walker.Walk.Keep` | lib/walk/walk_keep.c:3-7 | marks the innermost frame and nothing else |
| `Walker.Walk.Skip` | lib/walk/walk_skip.c:3-7 | cancels a pending descent and nothing else |
| `Walker.Walk.Kids` | lib/walk/walk_kids.c:4-20 | gives the directory's list, read once, without changing what the walk still visits |
| `Walker.Walk.WalkStat` | lib/walk/walk_stat.c:3-13 | answers stat or lstat as the flags say for the entry, cached or not |
| `Walker.Walk.constructor` | lib/walk/walk_open.c:6-32 | the machine starts at the root with nothing in its arena |
| `WalkOrder.TraverseOrder` | lib/walk/walk_read.c:84-289 | for every configuration, told by places (the root, and list positions from there): the visits are exactly those due at the places there are, as far as their flag is set (a file needs none) and no directory around them was skipped, each once; a directory comes before and closes behind what is in it, and entries come in list order; path, depth, kind and link mark are those of the place |
| `WalkOrder.RunInOrder` | lib/walk/walk_read.c:242-289 | the same of the visits walk_read returns |
| `WalkOrder.OneOrder` | lib/walk/walk_read.c:207-240 | these conditions leave only one list of visits |
| `WalkOrder.FilesAlike` | lib/walk/walk_read.c:279-288 | where nothing is skipped the file visits are the same, in the same order, whichever of PRE, POST, ERR and CYCLE are asked for |
| `TraversalLaws.WalkLaws` | lib/walk/walk_read.c:133-240 | for every configuration a POST is marked kept iff walk_keep was called on a visit strictly below it; where POST and ERR visits are asked for, every PRE not skipped is closed by the POST or ERR of the same directory with only deeper visits between, and nothing deeper follows a skipped one |
| `TraversalLaws.PathsAreNamed` | lib/walk/walk_read.c:11-34 | a visit at depth d has the root's path joined with the names of d entries along a trail: the first is listed by the root, each next one by the directory the one before leads to, within the depth and device limits |
| `TraversalLaws.StackBounded` | lib/walk/walk_read.c:66-82 | in every reachable state no directory is on the stack twice, so there are at most as many frames as directories |
| `Traversal.EnterRoom` | lib/walk/walk_read.c:66-93 | entering a directory that is not on the stack leaves strictly fewer to enter: why the traversal of a cyclic graph ends |
| `HashMaps.HashMap.Put` | lib/hashmap/hashmap_put2.c:7-59 | the map gains the pair or, without memory, stays; the table is a faithful index afterwards if and only if the key was new, or no tombstone lay before it on its probe, or the put began with a rehash; one slot changes, `used` counts it if it was empty, and a slot is always found and one empty left |
| `Probing.PutMeans` | lib/hashmap/hashmap_put2.c:42-56 | for any table: storing at the probed slot updates the map when the key is absent or clean, and otherwise leaves a second, older copy of the key |
| `Probing.DeletedComesBack` | lib/hashmap/hashmap_put2.c:48-55 | a key put again behind a tombstone and then deleted comes back with its old value |
| `Probing.SecondCopy` | lib/hashmap/hashmap_put2.c:42-56 | such a table comes about: two keys with one home are put, the first is deleted, and putting the second again makes a second copy |
| `Probing.PlaceMeans` | lib/hashmap/hashmap_put2.c:42-58 | the probe passes only live slots of other keys, and fails only on a table full of other keys |
| `HashMaps.HashMap.MakeRoom` | lib/hashmap/hashmap_put2.c:29-38 | afterwards there is a table with room for one more entry; at 70% load it has been rehashed |
| `HashMaps.HashMap.Loaded` | lib/hashmap/hashmap_put2.c:36 | loaded means that seven tenths of the buckets or more have been used |
| `HashMaps.HashMap.Rehash` | lib/hashmap/hashmap_rehash.c:5-39 | the same map without tombstones, below 50% load, `used` the number of live keys; or nothing happens without memory |
| `HashMaps.HashMap.MoveTo` | lib/hashmap/hashmap_rehash.c:28-35 | reinsertion keeps the map and never starts another rehash |
| `HashMaps.NewCapacityIs` | lib/hashmap/hashmap_rehash.c:15-18 | the doubling loop ends at a power-of-two multiple of 16 below 50% load |
| `HashMaps.HashMap.GetEntry` | lib/hashmap/hashmap_get_entry.c:3-24 | finds the slot of every key of the map and of no other |
| `Probing.FindMeans` | lib/hashmap/hashmap_get_entry.c:11-19 | in a table where no empty slot separates a key from its home a probe finds exactly the map's entry |
| `HashMaps.HashMap.Get` | lib/hashmap/hashmap_get2.c:3-8 | the map's value |
| `HashMaps.HashMap.Delete` | lib/hashmap/hashmap_delete2.c:4-12 | the map without the key |
| `Probing.DeleteMeans` | lib/hashmap/hashmap_delete2.c:8-11 | a tombstone keeps every other key reachable and removes only this one |
| `HashMaps.HashMap.Next` | lib/hashmap/hashmap_next.c:3-15 | the first live slot from i on, and nothing live is skipped |
| `HashMaps.HashMap.Entries` | lib/hashmap/hashmap_next.c:3-15 | a full iteration lists every entry of the map once |
| `Probing.StepAt` | lib/hashmap/hashmap_put2.c:42-43 | although hash + i wraps at 64 bits, the i-th probe is the i-th slot after the home, since the capacity divides 2^64 |
| `HashMaps.HashMap.constructor` | lib/hashmap/hashmap_init.c:4-7 | an empty map without a table |
| `Evaluator.Shell.Run` | src/sh/sh_loop.c:41-159 | for every program, oracle of utility statuses and fuel: the shell with frames, saved stack positions and longjmp ends with the status, and leaves the trace (with the stack positions and $? at every command), of the structured semantics, in which break, continue, return and exit are outcomes |
| `Calm.MainIsFormula` | src/eval/eval_and_or.c:29-43 | without "set -e", for every program of utilities, AND-OR lists, `!`, if, for, groups, subshells, time, eval, dot and redirections: with each command read as a boolean formula of its utilities, exactly the utilities that left-to-right short-circuit evaluation reads are run, in order, a for binding its words in order with one body run each, and the status is 0 if and only if the formula is true |
| `Calm.MainDoes` | src/eval/eval_tree.c:31-99 | the same with and without "set -e", by recursion over the program alone: statuses, and the first failure outside a test, left operand, `!` or time, at which the shell halts, or the subshell around it ends |
| `Calm.RunCalm` | src/sh/sh_loop.c:41-159 | the same of the shell with its frames |
| `JumpLaws.LoopLaw` | src/eval/eval_loop.c:55-82 | `while t; do b; done` and until: where the test holds n times the body is run n times, the test once more, and the status is that of the last body, or 0 |
| `JumpLaws.BreakLaw` | src/eval/eval_jump.c:16-112 | in d loops of two words each, break n and continue n in the innermost: what is seen is what leaving, or going on with, loop min(n, d) from within gives, and the loops around it go on |
| `JumpLaws.BreakStaysInside` | src/eval/eval_jump.c:54-69 | in a function or subshell that a loop runs break and continue do nothing |
| `JumpLaws.BreakLeavesFile` | src/builtin/builtin_source.c:138-147 | in a sourced file they reach the loops around the dot command |
| `JumpLaws.NoLevel` | src/builtin/builtin_break.c:23-28 | a level of 0 ends a shell that is not interactive with status 1 |
| `JumpLaws.DollarIsStatus` | src/eval/eval_simple_command.c:345 | $? is the status of the utility before |
| `JumpLaws.ReturnEndsCall` | src/exec/exec_command.c:240-280 | return n ends the function with n in $?, and what follows it in the body is not run |
| `JumpLaws.ExitEndsSubshell` | src/eval/eval_subshell.c:63-128 | exit n ends the subshell with n modulo 256 |
| `JumpLaws.FileEnds` | src/builtin/builtin_source.c:119-141 | return n and exit n end the sourced file |
| `JumpLaws.ExitEndsShell` | src/builtin/builtin_exit.c:19-32 | exit n ends the shell with n modulo 256, also from within a function |
| `JumpLaws.DefaultStatus` | src/builtin/builtin_return.c:17-32 | exit and return without an operand take $? modulo 256 |
| `JumpLaws.Levels` | src/eval/eval_push.c:19-24 | a redirection stands for one more level of descriptors, a call of variables, a subshell of both, eval and dot of sources |
| `Evaluator.Shell.EvalNode` | src/eval/eval_node.c:9-85 | every kind of command: where control goes, and the frames, scope stacks, environments and statuses it finds there, are those of the structured semantics |
| `Evaluator.Shell.EvalJump` | src/eval/eval_jump.c:10-112 | break N and continue N land at loop min(N, loops inside the nearest function or subshell), with the three scope stacks as saved there; with no loop they end the sourced file around or do nothing |
| `Evaluator.Shell.FindLoop` | src/eval/eval_jump.c:16-69 | the search finds that loop, or the sourced file in the way |
| `Frames.BeneathStep` | src/eval/eval_jump.c:16-69 | what the search has seen and what is left beneath: one frame further down |
| `Evaluator.Shell.EvalReturn` | src/eval/eval_return.c:10-77 | lands at the nearest function, file or subshell with its stacks and the value; without one nothing changes |
| `Evaluator.Shell.EvalExit` | src/eval/eval_exit.c:9-124 | lands at the nearest subshell or sourced file, the environments of the calls passed popped; without one the process ends |
| `Evaluator.Shell.FindExit` | src/eval/eval_exit.c:36-62 | exactly the environments of the function frames gone past are popped |
| `Evaluator.Shell.CutBack` | src/eval/eval_jump.c:79-107 | the three unwinding loops end, and at the saved positions |
| `Frames.SavedIsUnder` | src/eval/eval_push.c:19-24 | every saved position is an ancestor of the present one: why unwinding ends |
| `Frames.LoopLift` | src/eval/eval_loop.c:34-39 | what a jump through a loop's frame is for the commands around: one level less, or landed |
| `Frames.BoundaryLift` | src/eval/eval_jump.c:54-63 | at a call, subshell or file: which jumps end there, with what value, and which go on |
| `Frames.PassLift` | src/builtin/builtin_eval.c:50-75 | through the frame of eval or of a script line every jump passes unchanged |
| `Frames.ExitPast` | src/eval/eval_exit.c:36-62 | an exit past a frame is the same exit for what is below it |
| `Evaluator.Shell.EvalPush` | src/eval/eval_push.c:13-29 | a frame with the present positions on top |
| `Evaluator.Shell.EvalPop` | src/eval/eval_pop.c:10-40 | the frame goes, the stacks are as saved when it was pushed, and the status is the frame's |
| `Evaluator.Shell.EvalTree` | src/eval/eval_tree.c:13-99 | the list walk with the "set -e" test after every command |
| `Evaluator.Shell.EvalCmdlist` | src/eval/eval_cmdlist.c:9-100 | the same for groups, with $? set after every member |
| `Evaluator.Shell.CheckExit` | src/eval/eval_tree.c:82-87 | ends the shell on a failure outside the exempt, for the node kinds with a status of their own |
| `Evaluator.Shell.EvalAndOr` | src/eval/eval_and_or.c:7-48 | AND-OR lists and `!`, the left operand exempt, the right one not |
| `Evaluator.Shell.EvalIf` | src/eval/eval_if.c:9-55 | if and the elif loop with exempt tests |
| `Evaluator.Shell.EvalLoop` | src/eval/eval_loop.c:8-83 | while and until: landing of break and continue, the status of the last body or 0 |
| `Evaluator.Shell.EvalFor` | src/eval/eval_for.c:11-108 | for: landing per iteration and the status |
| `Evaluator.Shell.EvalExempt` | src/eval/eval_time.c:62-65 | a part run with the suppression count one higher |
| `Evaluator.Shell.EvalSubshell` | src/eval/eval_subshell.c:18-128 | exit and return end at the subshell; its caller has its own frames, scope stacks and environment back, with that status as $? |
| `Evaluator.Shell.CallFunction` | src/exec/exec_command.c:215-280 | a call: return ends here, break does not get out, exit goes past |
| `Evaluator.Shell.BuiltinEval` | src/builtin/builtin_eval.c:22-84 | eval lets everything through and gives its last status |
| `Evaluator.Shell.BuiltinSource` | src/builtin/builtin_source.c:70-170 | return and exit end the file; a break that ran off it is done among the caller's loops |
| `Evaluator.Shell.ShLoop` | src/sh/sh_loop.c:41-159 | line after line, each with a frame of its own and $? set from it |
| `Evaluator.Shell.EvalBuiltin` | src/builtin/builtin_break.c:16-33 | break, continue, return and exit as the frames and operands say |
| `Evaluator.Shell.EvalRedirected` | src/eval/eval_command.c:17-78 | a level of the fd stack around the command, gone on every way out that comes back here; where a redirection fails the command is not run and the status is 1 |
| `ErrExit.CounterIsScope` | src/eval/eval_tree.c:45-87 | for every program in which no jump that lands leaves a condition, left operand, negated or timed command (an exit that ends the process may): the run with the counter is the run with the exemption decided by place, and the counter is 0 at the end of every run that ends otherwise than by such an exit |
| `ErrExit.ExitInCondition` | src/eval/eval_exit.c:36-62 | `if exit; then :; fi` is such a program, though its counter ends at 1 |
| `Counter.ZeroAtTheEnd` | src/eval/eval_tree.c:45-87 | for every program whatever: the counter never ends below 0, and if it ends at 0 the run was the one with the exemption decided by place, state and trace included |
| `Counter.NodeBack` | src/eval/eval_and_or.c:29-31 | the same for one command in any surroundings: a counter that is back where it was vouches for the run |
| `Counter.ExemptBack` | src/eval/eval_loop.c:58-60 | a jump out of an exempt part leaves the counter higher, and nothing counts it down again |
| `ErrExit.NodeAlike` | src/eval/eval_and_or.c:11-31 | the same for one command in any surroundings: same outcome, and the counter where it was |
| `ErrExit.ExemptAlike` | src/eval/eval_loop.c:56-60 | what is exempt counts up and down again, and ends normally or ends the process |
| `ErrExit.BreakInCondition` | src/eval/eval_loop.c:34-39 | `while break; do :; done; false; next` under "set -e": the counter stays up and the shell runs next, which POSIX forbids |
| `FirstFailure.StopsAtFirstFailure` | src/eval/eval_cmdlist.c:60-83 | with the exemption decided by place, for every script with "set -e": if nothing fails outside the exempt the run is the one without "set -e"; otherwise it has run exactly what that one runs up to the first such failure, and ends with a nonzero status |
| `Counter.StopsWithTheCounter` | src/eval/eval_tree.c:82-87 | the same of the shell's counter, for every script whose runs with and without "set -e" end with the counter at 0 |
| `Counter.ContainedStops` | src/eval/eval_cmdlist.c:60-83 | the same of the shell's counter, for every script in which no jump that lands leaves an exempt part |
| `Counter.RunBoth` | src/sh/sh_loop.c:41-159 | the shell with its frames, run with and without "set -e": the same end and trace, or a nonzero exit with exactly the trace up to the first failure outside the exempt |
| `FirstFailure.NodeHalts` | src/eval/eval_tree.c:45-87 | the same for one command in any surroundings |
| `FirstFailure.ExemptHalts` | src/eval/eval_if.c:26-32 | inside the exempt both runs are the same and nothing counts as failed |
| `Fuel.EndsOneWay` | src/sh/sh_loop.c:41-159 | the fuel is no more than time: a script that comes to its end does so in the same way, with the same trace and state, for every larger amount |
| `Fuel.MoreNode` | src/eval/eval_node.c:9-85 | the same for one command in any surroundings |
| `EvalLaws.StatusSurvives` | src/eval/eval_exit.c:122 | a status comes through return and exit unchanged iff it fits 31 bits |
| `EvalLaws.LandingIsSeen` | src/eval/eval_return.c:75 | no status makes setjmp return the 0 of its first return |
| `EvalLaws.LoopTest` | src/eval/eval_loop.c:59-64 | while ends iff its test fails; until ends as POSIX says iff the test's status is 0 or 1: with any other status it ends too early |
| `EvalLaws.UntilEndsEarly` | src/eval/eval_loop.c:59-64 | `until a; do b; done` where a returns 2: the loop ends, b is never run |
| `EvalLaws.ElseIfIsAll` | src/eval/eval_if.c:35-40 | an else part that begins with an if is taken for an elif: the commands on the lines behind that if, and its redirections, make no difference |
| `EvalLaws.ElseIsRun` | src/eval/eval_if.c:35-52 | an else part that does not begin with an if, and one that is a lone if without redirections, has the outcome, trace and state it has as it is written, though the latter is taken for an elif |
| `EvalLaws.ElseIfExactly` | src/eval/eval_if.c:35-40 | the exact condition for else parts of n commands on as many lines whose first is an if with r redirections: all of them are run as they are written if and only if n = 1 and r = 0 |
| `EvalLaws.LostInScript` | src/eval/eval_if.c:35-40 | where `if a; then b; else if c; then d; fi` ends its line and `e; fi` is the next one, e is never run |
| `EvalLaws.KeptOnOneLine` | src/parse/parse_list.c:44-57 | all on one line, `if a; then b; else if c; then d; fi; e; fi`, the else part is one list node and no if, and e is run |
| `Commands.Node` | src/eval/eval_node.c:9-85 | every command: jumps leave only loops that are there, returns only where something can be returned from, the trace only grows, the first failure is remembered, and where the exemption is one of place nothing fails in its scope |
| `Commands.Function` | src/exec/exec_command.c:215-280 | no break and no return gets out of a call |
| `Commands.Inner` | src/eval/eval_subshell.c:18-128 | a subshell always ends normally |
| `Commands.File` | src/builtin/builtin_source.c:115-141 | no return and no exit gets out of a sourced file |
| `Arena.BlocksAreApart` | lib/arena/arena_take.c:29-52 | in every sound state live blocks are pairwise disjoint and each lies in the data part of a chunk on the chain |
| `Arena.Arena.Take` | lib/arena/arena_take.c:29-52 | if an aligned place for the block is left in the present chunk, it goes there, at the first such place, and nothing is asked; otherwise it succeeds iff the arena grows, header, block and worst alignment do not overflow, and the source gives that much when asked for it or for the usual chunk size; on success a new aligned block behind all others, on failure no change |
| `Arena.Arena.More` | lib/arena/arena_take.c:4-27 | asks for the usual chunk size, or for more where the block needs it; succeeds iff the source then gives a chunk that is large enough at any alignment of its start, sizes that would overflow included |
| `Arena.Arena.Alloc` | lib/arena/arena_alloc.c:4-12 | a zeroed block; no byte of another live block changes |
| `Arena.Arena.Grow` | lib/arena/arena_grow.c:4-18 | succeeds iff p is the newest block, ends at the front, and the chunk has room; the new bytes are 0 and no other block's byte changes; positions told behind the block before it grew, and only these, can no longer be rewound to |
| `Arena.Arena.Trim` | lib/arena/arena_trim.c:3-7 | the newest block shrinks; in every other case nothing changes |
| `Arena.Arena.Tell` | lib/arena/arena_tell.c:3-10 | notes how many blocks, chunks and bytes there are |
| `Arena.Arena.Rewind` | lib/arena/arena_rewind.c:3-22 | back to any outstanding mark: the blocks of then are live and untouched, the later ones and later marks gone, and arena_used is what it was |
| `Arena.Arena.Reset` | lib/arena/arena_reset.c:3-22 | no block, only the first chunk, nothing used |
| `Arena.Arena.UsedBytes` | lib/arena/arena_used.c:3-17 | the sum over the chain |
| `Arena.UsedCounts` | lib/arena/arena_used.c:3-17 | what is summed: the used part of the newest chunk and all behind the headers of the others |
| `Arena.Arena.Fixed` | lib/arena/arena_init_fixed.c:5-21 | a 16-aligned header inside the buffer, or an arena without memory; 15 + header bytes always suffice |
| `Arena.Arena.Init` | lib/arena/arena_init.c:4-9 | an empty arena |
| `Arena.RewoundSound` | lib/arena/arena_rewind.c:13-21 | from any sound state and any outstanding mark: the state after the rewind is sound and uses what the mark noted |
| `Arena.WithBlockSound` | lib/arena/arena_take.c:48-51 | cutting a block in front of the free part keeps all blocks apart and all marks good |
| `Arena.WithChunkSound` | lib/arena/arena_take.c:20-25 | so does a new chunk that overlaps none |
| `Arena.ResizedSound` | lib/arena/arena_grow.c:12-17 | so does resizing the newest block |
| `Arena.ToldSound` | lib/arena/arena_tell.c:3-10 | so does a new mark |
| `ExecHash.Cache.Lookup` | src/exec/exec_hash.c:50-145 | a name with a slash is a path, tried and not remembered; any other name, in a valid state or with hashing off, gets what a search over the present functions and PATH answers: exec, else a special builtin, else the function, else a builtin whatever PATH holds, else what PATH finds, without the kinds that bits 2, 8 and 4 of the mask leave out, whatever was cached for another mask or PATH; the state stays valid, with at most one entry for each name |
| `ExecHash.Cache.Remembered` | src/exec/exec_hash.c:93-133 | the cache part: a hit that can be trusted, or a search whose answer is remembered |
| `ExecHash.Cache.SetHashing` | src/exec/exec_hash.c:88-92 | switching hashing off and on again keeps the state valid |
| `ExecHash.Cache.ExecSearch` | src/exec/exec_search.c:114-152 | the same order: exec, special builtins, functions, builtins, programs, each iff none before it has the name and the mask does not leave it out |
| `ExecHash.Cache.ExecLookup` | src/exec/exec_lookup.c:6-20 | finds the entry of the name, if any bucket has one |
| `ExecHash.Cache.InvalidateAll` | src/exec/exec_hash.c:37-47 | no entry is trusted any more |
| `ExecHash.Cache.Define` | src/eval/eval_function.c:110-143 | the function has the new body, the others theirs, and no cached answer is out of date |
| `ExecHash.Cache.Unset` | src/builtin/builtin_unset.c:86-106 | the function is gone, the others stay, and no cached answer is out of date |
| `ExecHash.Cache.SetPath` | src/exec/exec_hash.c:57-61 | a changed PATH keeps the state valid: the next lookup sees it |
| `ExecHash.Cache.Save` | src/exec/exec_search.c:54-75 | remembers the functions |
| `ExecHash.Cache.Restore` | src/exec/exec_search.c:77-110 | the functions of then; the state stays valid iff no entry remembers something else for a name that is a function again, in particular whenever the subshell unset none of them |
| `ExecHash.RestoredAgrees` | src/exec/exec_search.c:103-109 | invalidating the function entries makes the cache right exactly under that condition |
| `ExecHash.OtherFunctions` | src/exec/exec_search.c:127-137 | two lists of functions give different answers only through the name itself |
| `ExecHash.UnsetInSubshell` | src/exec/exec_search.c:103-109 | a run in which a subshell unsets its parent's function and looks the name up: afterwards the cache answers a program where a search finds the function |
| `JsonText.ReadsBack` | src/json.h:43-198 | for every value, indent and minify: an RFC 8259 reader reads the whole text, its newline included, to the value meant |
| `JsonText.Reads` | src/json.h:43-198 | the same inside any text that goes on with a comma, a bracket or white space |
| `JsonText.ReadsQuoted` | src/json.h:165-198 | unescaping undoes json_str for every string of bytes |
| `JsonText.EscapesMean` | src/json.h:178-190 | the escapes by code, as RFC 8259 section 7 has them |
| `JsonText.HexSpells` | src/json.h:137-151 | hexadecimal text spells the value, in lower case and without leading zeros |
| `JsonWriter.Writer.Write` | src/json.h:43-198 | a well-nested sequence of calls appends the rendering of the value with its separator, and leaves depth, comma and key as the next item needs them |
| `JsonWriter.Writer.WriteList` | src/json.h:72-88 | so for arrays |
| `JsonWriter.Writer.WriteObject` | src/json.h:72-110 | so for objects |
| `JsonWriter.Writer.Sep` | src/json.h:56-70 | what comes before an item: nothing after a key, a comma unless it is the first, a break below top level |
| `JsonWriter.Writer.Open` | src/json.h:72-79 | bracket, one level deeper, nothing pending |
| `JsonWriter.Writer.Close` | src/json.h:81-88 | bracket on a line of its own; a top-level value leaves nothing pending |
| `JsonWriter.Writer.Key` | src/json.h:90-110 | the key; a value is pending and no separator comes before it |
| `JsonWriter.Writer.Text` | src/json.h:165-198 | the quoted, escaped string |
| `JsonWriter.Writer.KPair` | src/json.h:153-163 | a pair on one line whatever the indent |
| `JsonWriter.ItemsSnoc` | src/json.h:56-70 | writing the items one by one gives the text of the array |
| `AstPrint.TreeReadsBack` | src/ast/ast_list.c:14-27 | the printed list of any trees reads back to the array of their objects, for every indent and for minify |
| `AstPrint.AstList` | src/ast/ast_list.c:9-27 | the calls write the array of the nodes without placeholders (empty string chunks with no flag above the masked ones), a lone one kept |
| `AstPrint.PlaceholderIs` | src/ast/ast_list.c:9-12 | what a placeholder is, in numbers |
| `AstPrint.AstNode` | src/ast/ast_node.c:8-203 | the calls write one object with the kind and the fields, children nested |
| `DirSort.DirlistSort` | lib/dirlist/dirlist_sort.c:29-70 | for every packed blob and every total preorder on names: the blob holds the same records, each as often, with no name behind a greater one; without scratch memory or with fewer than two records it stays |
| `DirSort.SortedOffsets` | lib/dirlist/dirlist_sort.c:51-58 | offsets sorted by name stand for the same records, sorted, and these fill the blob exactly |
| `DirSort.Permuted` | lib/dirlist/dirlist_sort.c:29-70 | permuted offsets read permuted records of the same total length |
| `DirSort.Repack` | lib/dirlist/dirlist_sort.c:60-67 | copying record by record in offset order and back gives the packed records |
| `DirSort.Offsets` | lib/dirlist/dirlist_sort.c:48-49 | the walk over the blob notes where each record begins |
| `DirSort.ReadsBack` | lib/dirlist/dirlist_sort.c:61-63 | a record read at its offset is the record packed there |
| `HeapSort.Sort` | lib/dirlist/dirlist_sort.c:51-58 | the heap sort loops: sorted, and the same offsets |
| `HeapSort.Sift` | lib/dirlist/dirlist_sort.c:13-27 | sifting restores the heap below i, permutes, and touches nothing outside i to n |
| `HeapSort.FirstIsGreatest` | lib/dirlist/dirlist_sort.c:53-56 | nothing in a heap is greater than its first |
| `HeapSort.TakeFirst` | lib/dirlist/dirlist_sort.c:53-57 | moving the first behind the heap keeps the sorted end sorted and above the rest |
| `Utf8.EncodeIsTable` | lib/utf8/u8encode.c:5-36 | the table of RFC 3629 section 3: number of bytes by range, fixed bits of each, and the free bits put together give the value |
| `Utf8.ScalarIs` | lib/utf8/u8encode.c:18-29 | what has no encoding: surrogates and values above U+10FFFF |
| `Utf8.DecodeEncode` | lib/utf8/u8decode.c:6-45 | decoding an encoding gives the code point and its length, whatever follows |
| `Utf8.DecodeIsEncode` | lib/utf8/u8decode.c:6-45 | whatever is accepted is the encoding of the scalar value returned: no overlong form, no surrogate, nothing above U+10FFFF |
| `Utf8.PrefixIsCut` | lib/utf8/u8decode.c:30-32 | a proper non-empty prefix of an encoding gives -2 |
| `Utf8.CutMeans` | lib/utf8/u8decode.c:30-41 | the exact condition: a non-empty text can be completed to a character if and only if it gives -2 and is one byte long or its second byte fits the first (A0 or more behind E0, 9F or less behind ED, 90 or more behind F0, 8F or less behind F4) |
| `Utf8.CutBeforeOverlong` | lib/utf8/u8decode.c:30-41 | E0 80 gives -2 and begins no encoding |
| `Utf8.U8Decode` | lib/utf8/u8decode.c:6-45 | the loop computes the decoding, with 0, -1 and -2 as the source tells them apart |
| `Utf8.U8Encode` | lib/utf8/u8encode.c:5-36 | writes the encoding (RFC 3629, section 3) of a scalar value and nothing else; 0 for anything but a scalar value |
| `Utf16.U8ToU16` | lib/utf8/u8tou16.c:6-40 | only whole characters, at most max units, and as many as fit; what is written followed by the conversion of what is left is the conversion at once, so pieces can be strung together |
| `Utf16.U8FromU16` | lib/utf8/u8fromu16.c:6-39 | the same in the other direction |
| `Utf16.RoundTrips` | lib/utf8/u8tou16.c:6-40 | the two conversions undo each other on well-formed text of any length |
| `Utf16.UnitsArePairs` | lib/utf8/u8tou16.c:20-31 | RFC 2781 section 2.1: one unit below 0x10000, else a high and a low surrogate with ten bits each |
| `Utf16.PointsOfUnits` | lib/utf8/u8fromu16.c:16-21 | UTF-16 units of scalar values read back to them |
| `Utf16.PointsOfBytes` | lib/utf8/u8tou16.c:10-18 | UTF-8 bytes of scalar values read back to them |
| `Utf16.U8Count` | lib/utf8/u8count.c:4-17 | the number of code points, every byte of what is not UTF-8 counted as one |
| `Utf16.U8Skip` | lib/utf8/u8skip.c:4-14 | the bytes of the first k characters |
| `Utf16.SkipSplits` | lib/utf8/u8skip.c:4-14 | skipping as many characters as are counted takes every byte; fewer split the text into its first k code points and the others |
| `Utf16.SkipsEncodings` | lib/utf8/u8skip.c:4-14 | on well-formed text that is where the (k+1)-th encoding begins |
| `Numbers.ScanULongLong` | lib/scan/scan_ulonglong.c:3-33 | for digit strings of any length: reads the longest digit prefix whose value fits 64 bits and stores that value |
| `Numbers.TimesTenIsExact` | lib/scan/scan_ulonglong.c:9-25 | the shift and addition tests detect overflow exactly, for 32 and 64 bits |
| `Numbers.StopsAtLongest` | lib/scan/scan_ulonglong.c:9-27 | stopping where one more digit does not fit is stopping at the longest prefix |
| `Numbers.DigitsMean` | lib/scan/scan_ulonglong.c:9 | digits by their codes, and what one more does to a value |
| `Numbers.ScanLongLong` | lib/scan/scan_longlong.c:5-25 | sign and the longest digit prefix whose signed value fits 64 bits |
| `Numbers.OneBack` | lib/scan/scan_longlong.c:13-17 | one digit of back-off is enough |
| `Numbers.ScanInt` | lib/scan/scan_int.c:5-58 | the same for 32 bits, with the wrap-around of the intermediate int |
| `Numbers.FmtULongLong` | lib/fmt/fmt_ulonglong.c:4-22 | writes the decimal digits, no leading zero, and returns their number, also for a null destination |
| `Numbers.FmtLongLong` | lib/fmt/fmt_longlong.c:3-12 | sign and digits, the least value included |
| `Numbers.ScanFormatted` | lib/fmt/fmt_longlong.c:3-12 | scanning what was written, whatever non-digit follows, gives every 64-bit value back and takes every byte written |
| `Numbers.ScanUndoesFmt` | lib/fmt/fmt_longlong.c:3-12 | what was written is the longest prefix that fits, and spells the value |
| `Numbers.ScansOneWay` | lib/scan/scan_longlong.c:5-25 | length and value of a scan are determined by the string |

## Left out

Weaker or conditional statements:

- Fnmatch.MatcherDecides: only for patterns whose every bracket expression meets the condition of `Fnmatch.BracketIsRight`, which is exact for each bracket expression, and by `Fnmatch.BracketDecides` for patterns that are one, but not for every pattern: a wrong one makes no difference where what follows it can never match. On the others the loop still terminates and equals the character-level run. The order of characters, the character classes and the byte behind the pattern are parameters.
- PatternText.TextMeans: a bare `[` among the members is left to `Fnmatch.MatcherDecides`, as is a quoted character that comes first in a bracket expression.
- Calm.MainDoes: utilities and redirections have one status each, whenever they are run; functions, jumps and open loops are in `JumpLaws` and `Evaluator.Shell.Run`.
- Evaluator.Shell.Run: the fuel is shared by both semantics; a run that needs more is `Stuck` in both, and `Fuel.EndsOneWay` says that more fuel changes nothing else. Utilities, pipelines and background commands are one `Simple` each whose status an oracle gives from the trace. C leaves open what a loop's local variables hold after longjmp: the parameter `rolled` covers both.
- Evaluator.Shell.CallFunction: the table of functions is fixed during a run, so defining and unsetting functions at run time is modelled in `ExecHash` only; positional parameters are left out, and an environment is its `$?`.
- Evaluator.Shell.EvalBuiltin: operands are numbers already; messages for malformed ones are left out.
- Evaluator.Shell.EvalPop: assertions are taken as compiled out; the expansion arena and the word list pool, restored next to the three scope stacks, are not modelled.
- Evaluator.Shell.EvalRedirected: whether the redirections of a compound command can be made is an oracle's answer; those of simple commands, whose failure can end the shell, are part of the utility.
- FirstFailure.StopsAtFirstFailure: for utility statuses and operands of return that a short holds, from 0 to 0x7fff: larger ones are cut to 16 bits on the way. `Counter.StopsWithTheCounter` and `Counter.ContainedStops` carry it to the shell's counter.
- ErrExit.CounterIsScope: for programs in which no jump that lands leaves an exempt part; a function is assumed not to jump out of such a part of its own, by exit neither, since it may be called in a subshell. `Counter.ZeroAtTheEnd` has no condition on the program, but says nothing of a run that ends with the counter up.
- Walker.Run: the file system does not change during the walk, and its records and stat agree; without WALK_LOGICAL directories form a tree. Memory never runs out, so the ENOMEM exits and the growth of the path buffer and frame array are left out, as are the `rel` and `name` views of the path.
- Canonicalize.PathCanonicalize: lstat and readlink are one fixed function of the path text; running out of memory is left out.
- HashMaps.HashMap.Put: the hash function is any function into 64 bits instead of FNV; memory is a limit on the number of buckets, at most 2^56, below which `used * 100` cannot overflow. `hashmap_clear` and `hashmap_free` are left out.
- Arena.Arena.Take: alignments are taken modulo, which is what the mask computes for the powers of two it is given; what the source gives is a function of the size it is asked for.
- ExecHash.Cache.Lookup: what PATH finds and what can be executed are fixed functions. `hash -p`, hashing at definition, errno and freeing of function bodies are left out.
- AstPrint.AstNode: a node is its kind, for string chunks a length and flags, and the list of its fields in the order of the calls; which fields each kind has, their positions and the one-document-per-line mode are left out.
- JsonWriter.Writer.Write: the default options only, without bare keys, single quotes and hex numbers. JsonText.ReadsBack keeps a number as its text, and the reader does not accept escapes above U+007F, which the writer never makes.
- DirSort.DirlistSort: the records are a ghost parameter that says how the blob was packed; the scratch arena is the parameter `room`; the default comparison is one instance of `cmp`.
- Numbers.ScanLongLong: `unsigned long` is taken as 64 bits wide.

Not modelled:

- fork, exec, pipes, waiting, terminals, job control, signals and traps, with the destructor an EXIT trap hangs on a frame.
- Windows and WASI branches.
- The parser, expansion beyond the trimming operators, variables, file descriptors and word lists: their stacks are sequences of numbered levels.
- `case`, `set -e` switched during a run, tail execution (E_EXIT), tracing and `set -x`.
- Contents of character classes, and the locale.
- buffers and string helpers: sequences stand for them.
- Freeing of function nodes and of cached path strings.
