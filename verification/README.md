# Verified models of the repository viewer's core

Models, in Dafny, of the deterministic logic behind a browser-side git viewer, and
proofs of what that logic is for. The outside world (network, compressor, hashes,
the diff engine) enters as parameters with contracts; whatever the program leaves to
timing is left to nondeterministic choice, so a result holds of every schedule.

| files | component |
|---|---|
| `Glob`, `Wildmatch`, `Patterns`, `Attributes` | glob matching by backtracking with pruning, what patterns say of texts, and the attributes files it serves |
| `BlameLines`, `Blame`, `Attribution`, `BlameTrail`, `BlameFilters`, `Scoreboard` | blame: runs of lines handed from commits to parents through a priority queue |
| `Archive`, `ArchiveRules`, `ArchiveState`, `ArchiveFlatten`, `ArchiveWalk` | what an archive holds, and the concurrent walk that finds it, its pools, frames and slots |
| `PackFormat`, `PackCodes`, `Pack`, `PackObjects`, `Deltas`, `DeltaRules`, `BundleHeader`, `BundleText`, `BundleWriter`, `BundleReader`, `BundleRoundTrip` | writing and reading bundles: varints, packs, delta choice, both windows, the round trip |
| `History`, `HistoryClosure`, `HistoryWalk`, `HistoryOrders` | the concurrent history walk that decides what a bundle holds |
| `CommitGraph`, `Bloom`, `BloomProbes` | reading a commit-graph file and its changed-path filters |
| `SingleFlight`, `Reveal` | one read at a time per object; values revealed in index order |
| `UrlText`, `Route`, `RouteForms` | the URL grammar: routes, encoded values and line anchors |
| `Bytes` | bytes, ids and big-endian words |

How to read them. A component starts from an independent meaning: a relation between
patterns and texts, the commit a line is blamed on by following parents, a plain
depth-first listing, the objects a pack stands for, reachability by trails of links, a
file laid out by the format. What such a meaning is built from is in turn said without
it, of plain texts, bytes, names and trees, in `Patterns`, `ArchiveRules`, `BlameTrail`,
`PackCodes`, `PackObjects`, `DeltaRules`, `BundleText`, `HistoryClosure`, `BloomProbes` and
`RouteForms`. The code's own loops and objects are methods and classes
with the source's fields, and are proved to compute that meaning. A concurrent walk's
methods pick what lands with `:|` and `*`; its invariant speaks of a ghost plan that
records what each frame and slot is for.

What is relied on is stated where it is used: `Blame.Sound` (acyclic history, diffs
consistent with both sides, filters without false negatives, as
`BlameFilters.FiltersSound` says theirs are), `Pack.Honest` (inflating
undoes deflating, deltas keep to their budget and rebuild their target),
`Pack.NoTwins` (no two different objects of the pack at hand share an id),
`Archive.ValidTree` (names within a tree are unique and NUL-free), and in `ArchiveRules`
`Named` and `Plain` (they are not empty and hold no slash),
`History.Agrees` (what a tree calls a file is not an object that holds links).

Where code and comment differ, the code is modelled:

- The comment on `AbortAll` (crates/gib-attributes/src/wildmatch.rs:24-26) says that no
  later position can match. That is not so for a pattern that begins with `**/`;
  `Wildmatch.AbortAllMissesDirs` gives a pattern and text on which the code returns it, and
  `Wildmatch.AbortAllIsFinal` says exactly what may still match. It does no harm,
  because such an outcome only ever reaches callers that look for `Match` alone.
- The comment on `read_extra_edges` (crates/gib-commitgraph/src/lib.rs:362-363) speaks of
  third and later parents; the code reads from the edge list every parent after the
  first, as the format has it, and so does the model.
- Nothing bounds the loop over the edge list (crates/gib-commitgraph/src/lib.rs:374-381)
  but a marked entry or the end of the file, and its index has 32 bits. It ends exactly
  when `CommitGraph.EdgesEndIff` says.
- The comment on errors (crates/gib-blame/src/lib.rs:116-119) has an unreadable object
  stop the search along its edge. A filter lets the search go on past a tree that cannot
  be read, so then the filters are not only a shortcut: `Scoreboard.FilterSeesFurther`
  gives the difference, `Scoreboard.FiltersMatter` when there is one, and
  `Scoreboard.WithAndWithout` a history that shows it.
- The reader refuses an object whose stored size is over 256 MiB while the writer limits
  only the deflated pack, so a bundle that was written may be refused.
  `BundleRoundTrip.WrittenReads` gives the exact condition and
  `BundleRoundTrip.WrittenNotRead` a bundle that does not meet it.

Arithmetic on sizes and distances in pack headers wraps at 64 bits and masks shift
counts, as a release build does. `usize` and `isize` are taken 64 bits wide wherever
their width matters.

Check everything with `dafny verify dfyconfig.toml`.

## Model

| member | source | states |
|---|---|---|
| `Wildmatch.Wildmatch` | crates/gib-attributes/src/wildmatch.rs:44-46 | For every NUL-free text and every pattern, in both modes, the answer is yes exactly when the pattern's syntax tree matches the text by the declarative relation. |
| `Wildmatch.DoWild` | crates/gib-attributes/src/wildmatch.rs:48-271 | The outcome's verdict holds: `Match` if and only if there is a match from here; `NoMatch` means none from here; `AbortAll` none from any later start the matcher may try; `AbortToStarStar` none up to and including the next slash, and it is only ever returned in pathname mode. A pattern that opens with `**/` never answers anything but `Match` or `AbortAll`. It ends and never reads out of range. |
| `Wildmatch.StarLoop` | crates/gib-attributes/src/wildmatch.rs:122-155 | Pruning loses no match: after a star, skipping ahead to a literal and giving up on an abort code leave the answer that trying every position would give. |
| `Wildmatch.VerdictDecides` | crates/gib-attributes/src/wildmatch.rs:44-50 | The two outcomes a caller can see apart decide the relation. |
| `Wildmatch.AbortAllIsFinal` | crates/gib-attributes/src/wildmatch.rs:24-26 | Exactly what `AbortAll` leaves open: a later start can match only through a leading `**/` that matches nothing there. |
| `Wildmatch.AbortAllMissesDirs` | crates/gib-attributes/src/wildmatch.rs:24-26 | A concrete pattern and text on which the matcher returns `AbortAll` although a later start matches, so the wording of the outcome's comment does not hold for a leading `**/`. |
| `Wildmatch.SingleStarsStopAtSlashes` | crates/gib-attributes/src/wildmatch.rs:76-103 | Against a path, a pattern with no run of two stars matches only texts with exactly the slashes it spells out. |
| `Wildmatch.LiteralMatches` | crates/gib-attributes/src/wildmatch.rs:34-37 | A pattern with no special byte matches itself and nothing else. |
| `Wildmatch.MatchElement` | crates/gib-attributes/src/wildmatch.rs:57-72 | One element other than a star accepts a byte exactly when the byte is in the element's set, and a malformed bracket expression aborts. |
| `Wildmatch.MatchClass` | crates/gib-attributes/src/wildmatch.rs:173-250 | A bracket expression's loop accepts a byte exactly when some member does, and ends where the closing bracket is. |
| `Patterns.TrailingStars` | crates/gib-attributes/src/wildmatch.rs:78-101 | A literal, a slash and two stars match exactly the paths below that literal. |
| `Patterns.LeadingStars` | crates/gib-attributes/src/wildmatch.rs:78-101 | Two stars and a slash before a literal match it at the top or after whole directories, and nothing else. |
| `Patterns.MiddleStars` | crates/gib-attributes/src/wildmatch.rs:78-101 | Between two literals, two stars set off by slashes stand for any whole directories, none included. |
| `Patterns.InnerStars` | crates/gib-attributes/src/wildmatch.rs:78-104 | Two stars that are not set off by slashes are worth one: what they stand for holds no slash. |
| `Patterns.StarsInNames` | crates/gib-attributes/src/wildmatch.rs:90-91 | Outside pathname mode stars stand for any bytes. |
| `Patterns.SingleStar` | crates/gib-attributes/src/wildmatch.rs:104-121 | A star between literals stands for any bytes, but for no slash in pathname mode. |
| `Patterns.QuestionMark` | crates/gib-attributes/src/wildmatch.rs:70-74 | A question mark takes one byte, which in pathname mode is no slash. |
| `Patterns.EscapedByte` | crates/gib-attributes/src/wildmatch.rs:61-69 | A backslash makes the next byte stand for itself. |
| `Patterns.BracketOfTwo` | crates/gib-attributes/src/wildmatch.rs:166-250 | A bracket expression of two bytes takes either, and negated any other, never a slash in pathname mode. |
| `Patterns.BracketRange` | crates/gib-attributes/src/wildmatch.rs:191-209 | A range takes the bytes from its low end to its high end. |
| `Patterns.ClassInBrackets` | crates/gib-attributes/src/wildmatch.rs:210-236 | A named class in brackets takes just the bytes of the class. |
| `Patterns.ClassNames` | crates/gib-attributes/src/wildmatch.rs:220-236 | Each of the twelve names stands for its own class. |
| `Patterns.ClassesAre` | crates/gib-attributes/src/wildmatch.rs:220-236 | The letter, digit and hex classes are those characters, written out. |
| `Patterns.ClassesDivide` | crates/gib-attributes/src/wildmatch.rs:220-236 | ASCII is the control and the printing characters; what prints is a space or a letter, digit or mark, each in one class. |
| `Patterns.PunctIs` | crates/gib-attributes/src/wildmatch.rs:220-236 | The marks, written out. |
| `Attributes.Lookup` | crates/gib-attributes/src/lib.rs:174-187 | A file's answer is that of its last line with something to say of the attribute on the path. |
| `Attributes.Check` | crates/gib-attributes/src/lib.rs:347-363 | The stack's answer is the innermost file's that has one. |
| `Attributes.DirOnlyCovers` | crates/gib-attributes/src/lib.rs:102-134 | A trailing slash asks for a directory and is otherwise no part of the pattern. |
| `Attributes.BareAnyDepth` | crates/gib-attributes/src/lib.rs:102-134 | A pattern with no slash but a trailing one covers a name at any depth exactly when it covers the bare name. |
| `Attributes.AnchoredOneDepth` | crates/gib-attributes/src/lib.rs:102-134 | A pattern with any other slash, and no double star, covers paths only at the depth it spells out. |
| `Attributes.LeadingSlashAnchors` | crates/gib-attributes/src/lib.rs:102-118 | A leading slash says no more than a slash further on does. |
| `Attributes.LastLineWins` | crates/gib-attributes/src/lib.rs:168-187 | A file's answer is a line's assignment exactly when that line covers the path, assigns the attribute, and no later line does. |
| `Attributes.FirstSettingStands` | crates/gib-attributes/src/lib.rs:178-185 | A line's answer is an assignment exactly when no earlier one on the line is to that attribute. |
| `Attributes.NearestFileWins` | crates/gib-attributes/src/lib.rs:347-363 | A stack's answer is a state exactly when some file says so and every file nearer the path is silent, or all are and it is unspecified. |
| `Attributes.PlainNames` | crates/gib-attributes/src/lib.rs:102-134 | A plain name covers that name at any depth; with a slash at the front, that path alone. |
| `BlameLines.BlameChunk` | crates/gib-blame/src/lib.rs:706-747 | One hunk: lines before it go to the parent rebased by the running offset, lines inside it stay, the rest of the list starts at or after its end; every list stays sorted even for overlapping runs, and no run is empty. |
| `BlameLines.Divide` | crates/gib-blame/src/lib.rs:529-565 | Folding the hunks refines a per-line function: a line passes exactly where the diff carries it, and is kept exactly when a hunk changed it; counts of every line are conserved. |
| `BlameLines.SplitAt` | crates/gib-blame/src/lib.rs:751-760 | Splitting a run divides its lines between head and tail, each once. |
| `BlameLines.BlameMerge` | crates/gib-blame/src/lib.rs:771-788 | The merge of two sorted lists is the stable merge. |
| `BlameLines.MergeCounts` | crates/gib-blame/src/lib.rs:771-788 | Merging neither loses nor repeats a line. |
| `BlameLines.MergeSorted` | crates/gib-blame/src/lib.rs:771-788 | Merging sorted lists of one suspect gives a sorted list of it. |
| `BlameLines.PassedInRange` | crates/gib-blame/src/lib.rs:722-731 | Every run passed on lies within the parent's copy: adding the signed offset neither takes a line below zero nor wraps round. |
| `BlameLines.FateHeir` | crates/gib-blame/src/lib.rs:529-565 | A line passes to a parent line if and only if that parent line's heir is that line: handing on is one to one. |
| `BlameLines.FateKeeps` | crates/gib-blame/src/lib.rs:529-565 | A line is kept exactly when it lies in the changed part of some hunk. |
| `BlameLines.FateKeepsText` | crates/gib-blame/src/lib.rs:529-565 | A line that passes is the same text in the parent's copy, in range. |
| `Scoreboard.Scoreboard.Setup` | crates/gib-blame/src/lib.rs:327-353 | Every line is pinned on the head commit, where it is; an error exactly when the commit, tree, file or blob cannot be read. |
| `Scoreboard.Scoreboard.AssignBlame` | crates/gib-blame/src/lib.rs:355-376 | With the queue popped in any order: the loop ends, every line is settled, what is settled never changes, and each line comes to what the history alone says, unless a filter vouches for a parent whose tree cannot be read. Only a diff that fails, of readable copies, stops it. |
| `Scoreboard.Scoreboard.Turn` | crates/gib-blame/src/lib.rs:355-376 | A commit's turn strictly lowers the pending lines weighted by commit rank, which with the queue's length is the termination measure. |
| `Scoreboard.Scoreboard.PassBlame` | crates/gib-blame/src/lib.rs:390-436 | All lines go whole to the first parent with the same blob; otherwise each goes to the first distinct parent copy that has it, and what is left is guilty of being this commit's own. |
| `Scoreboard.Scoreboard.FindOrigin` | crates/gib-blame/src/lib.rs:446-491 | The origin already made for the parent, or a new one exactly when the file is there and of the same kind; the filter only saves the look at the tree. |
| `Scoreboard.Scoreboard.PassWholeBlame` | crates/gib-blame/src/lib.rs:496-504 | Every pending line of the origin moves to the parent at the same line, and no other line moves. |
| `Scoreboard.Scoreboard.PassBlameToParent` | crates/gib-blame/src/lib.rs:510-566 | Each pending line of the target moves to the line the diff carries it to, or stays; an unreadable blob moves nothing. |
| `Scoreboard.Scoreboard.QueueBlames` | crates/gib-blame/src/lib.rs:575-588 | The batch is merged into the origin's sorted runs, and its commit is queued unless something already waited on it. |
| `Scoreboard.Scoreboard.SettleRest` | crates/gib-blame/src/lib.rs:355-376 | What no parent would take settles on the commit, once, and joins what is settled. |
| `Scoreboard.Scoreboard.Groups` | crates/gib-blame/src/lib.rs:592-625 | The groups say of every line exactly what was settled of it, are in file order, and no two neighbours could be one. |
| `Scoreboard.BlameFile` | crates/gib-blame/src/lib.rs:203-224 | On success the groups tile the file; each line's text is the named line of the named commit's copy; no parent copy that can be found accounts for it; and each line is attributed to the commit and line that the history, as far as it can be read, alone says, unless a filter vouches for a parent whose tree cannot be read. It fails just when the start cannot be read, or else only when a commit's copy and a parent's, both readable, cannot be compared. |
| `Scoreboard.GroupBlames` | crates/gib-blame/src/lib.rs:592-625 | Each group's range in its commit's copy holds the same text, and no parent copy that could be found would have taken it. |
| `Scoreboard.HandedParent` | crates/gib-blame/src/lib.rs:510-566 | Handing lines to a parent keeps the scoreboard's invariant: pending and settled runs partition the file and each line's text is its own. |
| `Scoreboard.TurnEnds` | crates/gib-blame/src/lib.rs:355-376 | Each turn lowers the weighted count of pending lines, clock skew and re-popped commits notwithstanding. |
| `Attribution.TurnKeeps` | crates/gib-blame/src/lib.rs:390-436 | A turn leaves what every line comes to as it was, and a line still with the commit is blamed on it: correctness does not depend on the order of the queue. Without filters nothing is asked of the history, unreadable objects or not. |
| `Attribution.BlamedUnfiltered` | crates/gib-blame/src/lib.rs:446-491 | The commit and line blamed are the same with the filters as without. |
| `Scoreboard.SameGroups` | crates/gib-blame/src/lib.rs:592-625 | Groups that tile the file, are as long as can be and say the same of every line are the same groups. |
| `Scoreboard.FiltersChangeNothing` | crates/gib-blame/src/lib.rs:446-491 | Blame with sound filters and blame that looks at every parent's tree report the same groups. |
| `Scoreboard.FilterSeesFurther` | crates/gib-blame/src/lib.rs:446-491 | Where a filter vouches for an only parent whose tree cannot be read they never do: with the filter no line is blamed on the head, and without it every search stops there. |
| `Scoreboard.FiltersMatter` | crates/gib-blame/src/lib.rs:446-491 | Where only the filter of a head with one parent is in question, blame with and without filters agree if and only if that parent's tree can be read. |
| `Scoreboard.WithAndWithout` | crates/gib-blame/src/lib.rs:446-491 | A concrete such history, on which both blames succeed and differ. |
| `BlameFilters.FiltersSound` | crates/gib-blame/src/lib.rs:458-478 | A history whose filters hold at least the bits of each path the first parent had otherwise is sound for blame: whatever the filters rule out, the parent has the very same copy. |
| `BlameTrail.CameFromIs` | crates/gib-blame/src/lib.rs:390-436 | A line moves to a parent exactly when that is the first with the same blob, or, with none such, the first whose copy the diff carries it to, at the line it had there. |
| `BlameTrail.BlamedIs` | crates/gib-blame/src/lib.rs:355-436 | The commit and line blamed are those at which a trail of such moves from the start stops. |
| `ArchiveWalk.CollectEntries` | crates/gib-archive/src/lib.rs:259-298 | Whatever lands when, success gives the plain depth-first listing that prunes what the inherited attributes mark `export-ignore`, within the cap; the size error only if the archived blobs total over it, a fetch error only if a fetch may fail, a type error only if some object is not what its entry says. |
| `ArchiveWalk.Walk.ReadAll` | crates/gib-archive/src/lib.rs:259-298 | On every schedule the walk ends, with both pools, the backlog and the landed queue empty and as many objects arrived as were asked for. |
| `ArchiveWalk.Walk.ReadDir` | crates/gib-archive/src/lib.rs:312-433 | A directory's kept entries become the nodes of its frame, in order, each with a frame or slot of its own, though anything may land meanwhile. |
| `ArchiveWalk.Walk.ReadAttributes` | crates/gib-archive/src/lib.rs:443-474 | The stack that applies inside the directory, and the file's bytes, if it has an attributes file that is not a link. |
| `ArchiveWalk.Walk.FetchBlobNow` | crates/gib-archive/src/lib.rs:485-516 | One blob fetched outside the pools while either may be drained; at most one such fetch at a time. |
| `ArchiveWalk.Walk.FetchBlob` | crates/gib-archive/src/lib.rs:407-426 | A blob waits for room, so the pool never holds more than 48; its slot is filled once, by its own bytes. |
| `ArchiveWalk.Walk.IssueTrees` | crates/gib-archive/src/lib.rs:557-571 | Backlogged directories move to the pool up to 48, none lost and none twice. |
| `ArchiveWalk.Walk.NextTree` | crates/gib-archive/src/lib.rs:578-591 | A landed directory to read, or none once every directory has been read; it ends on every schedule. |
| `ArchiveWalk.Walk.LandBlob` | crates/gib-archive/src/lib.rs:606-626 | A blob that lands fills the slot reserved for it, and the count stays that of the filled slots and within the cap. |
| `ArchiveWalk.Walk.Flatten` | crates/gib-archive/src/lib.rs:649-684 | Emptying frames and slots depth first lists each directory just before its contents; every frame and slot it needs is still there when its node comes up, so none is taken twice. |
| `ArchiveWalk.Walk.FlattenRoot` | crates/gib-archive/src/lib.rs:296-298 | The whole tree's listing; every frame is taken and every slot emptied, so nothing is left behind. |
| `ArchiveWalk.EndOK` | crates/gib-archive/src/lib.rs:628-638 | Once nothing is in flight every slot is filled, every directory has been read, and the bytes counted are the total, within the cap. |
| `ArchiveWalk.DirTaken` | crates/gib-archive/src/lib.rs:578-591 | Taking a landed directory keeps each waiting directory in exactly one of backlog, pool and landed queue. |
| `ArchiveFlatten.TakenApart` | crates/gib-archive/src/lib.rs:643-648 | What one node of a directory takes, no other node of it needs. |
| `ArchiveFlatten.NodeListed` | crates/gib-archive/src/lib.rs:649-684 | What a finished node lists is what its tree entry stands for. |
| `Archive.BytesAreListed` | crates/gib-archive/src/lib.rs:606-616 | The total that is capped is the bytes of the listing's files and link targets. |
| `ArchiveRules.ListingIs` | crates/gib-archive/src/lib.rs:312-474 | Said of the tree alone: the listing shows, once each and in the order of the trees, exactly the entries none of whose ways down is left out, where an entry is left out when the nearest attributes file with an answer on its path from that file's directory says `export-ignore`. |
| `ArchiveRules.NothingBelow` | crates/gib-archive/src/lib.rs:340-352 | When an entry is left out, neither its path nor any path through it is in the archive, attributes files in nested directories included. |
| `ArchiveRules.AnswerIs` | crates/gib-attributes/src/lib.rs:330-363 | The stack inside a directory answers for anything below by the files of the directories on the way, each asked of the path from its own directory. |
| `ArchiveRules.OwnIs` | crates/gib-archive/src/lib.rs:443-474 | What is put on the stack in a directory is its own attributes file, found by name and type, with a base just past the directory's path, and nothing when it has no lines. |
| `PackFormat.WritePackHeader` | crates/gib-bundle/src/writer.rs:370-378 | Appends the type and size in git's little-endian groups. |
| `PackFormat.HeaderRead` | crates/gib-bundle/src/writer.rs:360-378 | A size header written is read back, whatever follows it, for every size that fits in a word. |
| `PackFormat.WriteBaseDistance` | crates/gib-bundle/src/writer.rs:389-402 | Written from the back of a ten-byte buffer, which is enough for every 64-bit distance. |
| `PackFormat.DistanceRead` | crates/gib-bundle/src/writer.rs:380-402 | A distance written is read back, whatever follows it. |
| `PackFormat.OneEncoding` | crates/gib-bundle/src/writer.rs:380-383 | Each distance has one encoding: any run of groups is the one written for the number it stands for. |
| `PackFormat.ReadIsNumber` | crates/gib-pack/src/pack.rs:105-128 | A reader of any such run gets that number, to the width of a word. |
| `PackFormat.ReadTypeAndSize` | crates/gib-pack/src/pack.rs:59-103 | The loop reads the type and size, with the machine's wrapping addition and masked shifts. |
| `PackFormat.ReadDistance` | crates/gib-pack/src/pack.rs:105-128 | The loop reads a distance, with wrapping arithmetic. |
| `PackFormat.ParseObjectHeader` | crates/gib-pack/src/pack.rs:177-198 | An object's header, within the bytes given and never empty, or none if the bytes run out or the type is unknown. |
| `PackFormat.DeltaHeaderRead` | crates/gib-pack/src/pack.rs:177-198 | A delta's two variable-length integers, one after the other, are read back. |
| `PackCodes.CodesRead` | crates/gib-pack/src/pack.rs:59-103 | On bytes: codes 1 to 4 in bits 4 to 6 of the first byte are a commit, a tree, a blob and a tag, 6 a delta by distance and 7 a delta whose base's name is the 20 bytes after the size; no other code has a header. |
| `PackCodes.HeadersAre` | crates/gib-pack/src/pack.rs:177-198 | Exactly which bytes have a header: a run that ends, a known code, and what that code needs after it. |
| `PackCodes.SizeIs` | crates/gib-pack/src/pack.rs:59-103 | The size is four bits of the first byte and above them groups of seven, least first. |
| `PackCodes.DistanceIs` | crates/gib-pack/src/pack.rs:105-128 | The distance is the second run's number, each group but the last counting from one. |
| `PackCodes.CodesWritten` | crates/gib-bundle/src/writer.rs:353-378 | A record's first byte holds its type's code, or 6 for a delta. |
| `PackCodes.PackStarts` | crates/gib-bundle/src/reader.rs:295-317 | A pack that is accepted begins with its four letters and version 2, and its count is the next four bytes, most significant first. |
| `PackCodes.WordIs` | crates/gib-bundle/src/reader.rs:295-317 | Four bytes are a number with the first the most significant. |
| `Pack.OffsetsAscend` | crates/gib-bundle/src/reader.rs:170-184 | The objects tile the pack: each starts where the one before ends, so a delta's base is always strictly earlier. |
| `Pack.MeaningExtends` | crates/gib-bundle/src/reader.rs:170-176 | A pack with a meaning has one for each initial part, which the rest extends. |
| `PackObjects.ObjectsSpelled` | crates/gib-bundle/src/reader.rs:207-273 | Each object of a pack is what its own item says: stored whole, or made from the object that starts the given distance earlier, or from the last of that name before it or else the store's; and the next starts where it ends. |
| `BundleHeader.ReadHeader` | crates/gib-bundle/src/reader.rs:91-140 | The loop over lines reads the version, refs, prerequisites and where the pack starts, or refuses. |
| `BundleHeader.WriteHeader` | crates/gib-bundle/src/writer.rs:87-109 | Every header line, or nothing exactly when there is no ref or a name is empty or holds a space or newline. |
| `BundleHeader.WrittenHeaderRead` | crates/gib-bundle/src/reader.rs:91-140 | A header written is read back: version 2, the same refs in order, no prerequisites, and the pack just after it. |
| `BundleHeader.HexRead` | crates/gib-bundle/src/reader.rs:375-384 | An id written in hex is read back. |
| `BundleText.HeaderSpelled` | crates/gib-bundle/src/writer.rs:87-109 | A header is the version 2 signature line, a line for each ref, and a blank line. |
| `BundleText.LineForEach` | crates/gib-bundle/src/writer.rs:87-109 | Each ref's line is its id in hex, a space and its name, in the order given. |
| `BundleText.HexAt` | crates/gib-bundle/src/writer.rs:87-109 | Each byte of an id is two lower-case digits, the high half first. |
| `BundleText.LinesMean` | crates/gib-bundle/src/reader.rs:91-140 | What each kind of line says: a minus makes an id a prerequisite, an id and a name are a ref, and an id alone is refused. |
| `BundleText.OtherLines` | crates/gib-bundle/src/reader.rs:356-373 | The blank line ends the header, and of capabilities only SHA-1 ids are accepted. |
| `BundleText.SignatureRead` | crates/gib-bundle/src/reader.rs:91-105 | A bundle that is read begins with the signature of the version reported. |
| `BundleReader.PackReader.ReadObject` | crates/gib-bundle/src/reader.rs:207-256 | One object read is the next object of the pack's meaning, put in the store under the name of its own bytes; it is refused exactly when there is no next object. |
| `BundleReader.PackReader.Rebuild` | crates/gib-bundle/src/reader.rs:260-273 | A delta is rebuilt against the object of that name, wherever it is: window or store. |
| `BundleReader.PackReader.Remember` | crates/gib-bundle/src/reader.rs:277-291 | After eviction the window is tidy and within budget or down to one object, and the counter never underflows: it is at least what the window weighs. |
| `BundleReader.OffsetNames` | crates/gib-bundle/src/reader.rs:234-243 | Turning an offset into a name and the name into an object finds the object at that offset. |
| `BundleReader.NamedInStore` | crates/gib-bundle/src/reader.rs:260-273 | Window, store and pack agree on what a name stands for, so eviction never changes the result. |
| `BundleReader.VerifyPack` | crates/gib-bundle/src/reader.rs:295-317 | A count exactly when the pack is long enough, is one, is version 2 and its checksum matches. |
| `BundleReader.ReadBundle` | crates/gib-bundle/src/reader.rs:148-186 | What is in the store is always the first objects of the pack's meaning in order; if the store does not fail the read succeeds exactly when the whole bundle is readable, and then it is all of them. |
| `Deltas.BestIsAgainst` | crates/gib-bundle/src/writer.rs:189-241 | Whatever is kept is a delta against a window object of the same type that rebuilds the target, at most one deeper than fifty minus one, and 50 times its size is at most the first budget times the depth its base leaves. |
| `Deltas.BudgetIsThrifty` | crates/gib-bundle/src/writer.rs:203-214 | The scaled budget keeps that bound however many candidates replace one another. |
| `Deltas.NothingKept` | crates/gib-bundle/src/writer.rs:189-241 | An object is stored whole exactly when no candidate yields a delta within the first budget. |
| `DeltaRules.DeltasAreSmall` | crates/gib-bundle/src/writer.rs:189-241 | A delta written is at most fifty deep and within half of what its object has over 40 bytes, scaled by the depth its base leaves. |
| `DeltaRules.TriedIf` | crates/gib-bundle/src/writer.rs:195-225 | A base is tried only if it is of the object's type, under fifty deep, not over 32 times its size, and leaves less to add than the room it is given; and then it is given just that room. |
| `DeltaRules.DeeperIsSmaller` | crates/gib-bundle/src/writer.rs:203-239 | A base that would make the chain no shorter replaces the best so far only with a smaller delta. |
| `DeltaRules.RecentIs` | crates/gib-bundle/src/writer.rs:245-256 | The window is the longest run of the last objects written that holds at most 32 and at most 64 MiB, or one. |
| `BundleWriter.BundleWriter.BestDelta` | crates/gib-bundle/src/writer.rs:189-241 | Candidates tried newest first, indexing each only when tried, give the same choice as the pure fold. |
| `BundleWriter.BundleWriter.Append` | crates/gib-bundle/src/writer.rs:126-157 | The object's record is the one the layout has next: whole, or the best delta against what the window holds, which is fixed by the objects before. It joins the log exactly when it fits under the cap; otherwise nothing but an index changes. |
| `BundleWriter.BundleWriter.FinishObject` | crates/gib-bundle/src/writer.rs:161-173 | Header and deflated payload are written together, or nothing is. |
| `BundleWriter.BundleWriter.Remember` | crates/gib-bundle/src/writer.rs:245-256 | The window is the last objects written, at most 32 and within its memory or one, its counter is exact, and what is in it is a function of the objects written. |
| `BundleWriter.BundleWriter.Take` | crates/gib-bundle/src/writer.rs:279-281 | Each byte is handed out once. |
| `BundleWriter.BundleWriter.Finish` | crates/gib-bundle/src/writer.rs:284-295 | Closes exactly when as many objects were written as promised; all that was handed out is the header, the pack and its checksum. |
| `BundleWriter.ChainsAreShort` | crates/gib-bundle/src/writer.rs:29-30 | No chain of deltas is longer than fifty, and the recorded depth is the chain's length. |
| `BundleRoundTrip.WrittenReads` | crates/gib-bundle/src/reader.rs:148-186 | A bundle written can be read exactly when everything stored is at most the reader's size limit; then it carries the same refs and the same objects in order. |
| `BundleRoundTrip.LargeRefused` | crates/gib-bundle/src/reader.rs:217-222 | An object stored over the reader's limit, which the writer allows if it deflates well, is refused. |
| `BundleRoundTrip.WriteThenRead` | crates/gib-bundle/src/writer.rs:87-295 | For any object list and any schedule of takes: a bundle is written exactly when there are refs with writable names, the count fits the header and the objects, in the one layout the writer's choices fix, fit the cap; then reading it puts just those objects in the store, in order, exactly when all that was stored is within the reader's limit, as it is when every body is. |
| `BundleRoundTrip.WrittenNotRead` | crates/gib-bundle/src/reader.rs:217-222 | With an honest coder, and any refs a bundle can be begun with, an object one byte over the reader's limit is written and then refused. |
| `HistoryWalk.CollectObjects` | crates/gib-bundle/src/lib.rs:35-60 | Whatever lands when: the walk ends and lists every object the tips reach exactly once. What is listed is the least set that has the tips and, of each object in it, what that names: a commit its tree and parents, a tag its target, a tree its entries but for gitlinks. Tags come before blobs, blobs before trees, trees before commits, and within a type the greater path hash, then the lesser id. It fails only if a fetch fails or an object is missing; no object is asked for twice, and none without a tip or link that says to fetch it. |
| `HistoryWalk.Walk.Run` | crates/gib-bundle/src/lib.rs:116-130 | At the end nothing waits and as many objects were fetched as requested. |
| `HistoryWalk.Walk.Visit` | crates/gib-bundle/src/lib.rs:157-193 | An object that lands is recorded in its type's group and each of its links is followed, gitlinks never. |
| `HistoryWalk.Walk.Request` | crates/gib-bundle/src/lib.rs:196-202 | An id is queued unless it has been met. |
| `HistoryWalk.Walk.Discover` | crates/gib-bundle/src/lib.rs:206-210 | A file a tree names is recorded as a blob, not queued, unless it has been met. |
| `HistoryWalk.EndOK` | crates/gib-bundle/src/lib.rs:35-60 | With nothing awaited, what was met is exactly what is reachable. |
| `HistoryClosure.ReachedIsClosure` | crates/gib-bundle/src/lib.rs:157-193 | What trails of links reach is exactly the closure of the tips under what objects name: closed, within every closed set, and nothing in it unnamed but tips. |
| `HistoryClosure.LinksName` | crates/gib-bundle/src/lib.rs:157-193 | The links followed from an object are to exactly what it names, and those fetched to all but files. |
| `HistoryWalk.ToFetchIs` | crates/gib-bundle/src/lib.rs:157-210 | What has to be fetched is exactly the tips and what something reached names as more than a file. |
| `HistoryClosure.GroupsInOrder` | crates/gib-bundle/src/lib.rs:212-232 | The four sorted groups, one after another, are in pack order. |
| `HistoryClosure.HashNext` | crates/gib-bundle/src/lib.rs:97-108 | A byte that is no white space moves the hash down two bits and adds itself on top. |
| `HistoryWalk.LinkWarranted` | crates/gib-bundle/src/lib.rs:170-183 | What a link leads to is recorded with the hash of a whole path to it. |
| `HistoryWalk.Walk.ExtendHashBy` | crates/gib-bundle/src/lib.rs:99-108 | The loop carries a hash on through a name. |
| `History.HashOfWhole` | crates/gib-bundle/src/lib.rs:97-108 | Carrying a hash on through a name is hashing the whole path. |
| `History.SortedIs` | crates/gib-bundle/src/lib.rs:217-232 | Sorting gives the same objects, by hash descending then id. |
| `History.OrderIsFixed` | crates/gib-bundle/src/lib.rs:217-232 | That order is fixed by what is sorted, so an unstable sort gives one result. |
| `HistoryWalk.OneOrder` | crates/gib-bundle/src/lib.rs:157-232 | If every way to an object has the same path hash, any two runs give the same list. |
| `HistoryOrders.OrderShows` | crates/gib-bundle/src/lib.rs:157-232 | Without that they need not: a file with two paths, in trees that land in either order, is listed before or after another. |
| `HistoryOrders.VisitedOK` | crates/gib-bundle/src/lib.rs:157-193 | Whichever object in flight lands next, the walk's invariant holds once its links have been followed. |
| `CommitGraph.PositionOf` | crates/gib-commitgraph/src/lib.rs:298-320 | On a file laid out by the format, its ids ascending at the first byte where two differ, the fanout-bounded search finds an id exactly when it is listed; on any file it ends. |
| `CommitGraph.LessIs` | crates/gib-commitgraph/src/lib.rs:305-318 | Comparing two ids says which has the lower byte at the first place they differ. |
| `CommitGraph.CommitData` | crates/gib-commitgraph/src/lib.rs:327-359 | The tree, the 34-bit time and all parents in order, whether none, one, two or more, wherever the commit's run of the edge list ends. |
| `CommitGraph.ReadExtraEdges` | crates/gib-commitgraph/src/lib.rs:364-381 | A merge's parents after the first, in order, to the marked entry. What is required is just that the run ends. |
| `CommitGraph.EdgesEndIff` | crates/gib-commitgraph/src/lib.rs:364-381 | With an index that wraps at 32 bits the loop ends, from wherever it starts, if and only if some entry an index can reach is marked or cannot be read. |
| `CommitGraph.SmallRecordsEnd` | crates/gib-commitgraph/src/lib.rs:364-381 | In a file below 16 GiB it always ends. |
| `CommitGraph.LaidOutEnds` | crates/gib-commitgraph/src/lib.rs:364-381 | In a file laid out by the format it ends for every commit, however large the file. |
| `CommitGraph.ZerosNeverEnd` | crates/gib-commitgraph/src/lib.rs:364-381 | In 16 GiB of zeros or more it never does. |
| `CommitGraph.HasRunIs` | crates/gib-commitgraph/src/lib.rs:364-381 | A run laid out by the format names the merge's parents after the first, in order, the last marked. |
| `CommitGraph.RawIs` | crates/gib-commitgraph/src/lib.rs:332-342 | The packed words give back the tree, both parent words and the time. |
| `CommitGraph.ChangedPathFilter` | crates/gib-commitgraph/src/lib.rs:386-406 | The filter's bytes between neighbouring index entries, or none if empty. |
| `CommitGraph.Lookup` | crates/gib-commitgraph/src/lib.rs:225-232 | A commit's position and metadata exactly when it is listed. |
| `CommitGraph.RecordFor` | crates/gib-commitgraph/src/lib.rs:238-250 | The listed commit's record, filter included. |
| `CommitGraph.AllRecords` | crates/gib-commitgraph/src/lib.rs:255-271 | Every record in order, each just what looking that id up gives. |
| `Bloom.PathMaybeChanged` | crates/gib-commitgraph/src/bloom.rs:101-118 | Maybe exactly when the filter is empty or every probe finds its bit set. |
| `Bloom.InsertAdds` | crates/gib-commitgraph/src/bloom.rs:3-7 | Inserting a path sets its probes and unsets nothing. |
| `Bloom.NoFalseNegatives` | crates/gib-commitgraph/src/bloom.rs:95-118 | A filter with at least the bits of every changed path never rules one out. |
| `BloomProbes.ProbesAre` | crates/gib-commitgraph/src/bloom.rs:106-111 | The probes are remainders of a run of hashes: the first is the first seed's, each next the one before plus the second seed's, at 32 bits. |
| `BloomProbes.MaybeIs` | crates/gib-commitgraph/src/bloom.rs:106-117 | Maybe exactly when each hash's bit is set, counted from the least bit of the first byte. |
| `SingleFlight.CachingRepo.Poll` | src/cache.rs:129-148 | A lookup returns the cached object, waits on the read under way, or becomes the reader. |
| `SingleFlight.CachingRepo.EndRead` | src/cache.rs:362-367 | A read that ends, however it ends, comes off the register and completes its ticket once. |
| `SingleFlight.CachingRepo.ReadReturns` | src/cache.rs:142-148 | The object is cached before waiters wake, and is what the lookup returns. |
| `SingleFlight.CachingRepo.Drop` | src/cache.rs:341-367 | A lookup dropped part-way ends its read if it was the reader. |
| `SingleFlight.OneReader` | src/cache.rs:129-148 | At most one read of an object runs at a time. |
| `SingleFlight.WaitedIsRead` | src/cache.rs:136-141 | Nobody waits for nothing: a ticket not completed belongs to a running read of that object. |
| `SingleFlight.LookedOK` | src/cache.rs:129-148 | Looking again keeps the register exactly the running reads. |
| `SingleFlight.EndedOK` | src/cache.rs:362-367 | Ending a read keeps each ticket under way or completed once, never both. |
| `SingleFlight.RunOK` | src/cache.rs:129-148 | In every state of every run, from nothing cached, of begins, steps, returns, failures, drops and evictions in any order: the register is exactly the running reads, each ticket is under way or completed once, waiters wait on tickets of their own object, and what is cached or returned is the object. |
| `SingleFlight.CompletedForGood` | src/cache.rs:362-367 | Across a run a ticket once completed stays completed, and no read ever runs under it again. |
| `SingleFlight.NeverStuck` | src/cache.rs:129-148 | At every point of every run a lookup that is not over can go on, or is reading, or another lookup is reading its object. |
| `SingleFlight.OneReadEach` | src/cache.rs:129-148 | Throughout a run no two lookups read the same object, and what a lookup returns is the object it asked for. |
| `SingleFlight.AnyInterleaving` | src/cache.rs:129-148 | Whatever is chosen, the states the cache goes through, one a step, are such a run. |
| `Reveal.InOrder.Resolve` | src/render/query.rs:120-138 | What has been shown is always exactly the present values of the longest resolved prefix; nothing shown is taken back. |
| `Reveal.ShownIs` | src/render/query.rs:101-138 | A value is shown once, in index order, exactly when its slot is in the prefix and resolved to something. |
| `UrlText.Encode` | src/route/encode.rs:12-26 | The loop writes the encoded component. |
| `UrlText.Decode` | src/route/encode.rs:35-55 | The loop reads escapes and leaves everything else, a `%` that begins none included. |
| `UrlText.ComponentRead` | src/route/encode.rs:12-55 | Every component, whatever it holds, is decoded to itself once encoded. |
| `UrlText.ComponentPlain` | src/route/encode.rs:12-26 | No `#`, `?`, `&` or `/` is left in an encoded component. |
| `UrlText.PathRead` | src/route/encode.rs:66-81 | Every path is decoded to itself once encoded, its separators kept apart from slashes inside components. |
| `UrlText.NumberRead` | src/route.rs:318-341 | Every number that fits a word is read back from its digits. |
| `UrlText.AnchorRead` | src/route/anchor.rs:37-86 | A line range's anchor, of one line or more, is read back. |
| `UrlText.AnchorSplits` | src/route/anchor.rs:50-62 | An anchor comes off a hash, and a hash without one is left whole. |
| `Route.ParseRender` | src/route.rs:305-316 | The loop decides: the first `render` if there is one, else the last `display`. |
| `Route.ParseLogQuery` | src/route.rs:318-341 | The loop reads a log's query, the last of each parameter winning. |
| `RouteForms.RoutesAre` | src/route.rs:190-281 | Which hashes are which route, for all ten, both ways: a fixed route is its own text, a route with more to say is its name alone or before a slash or question mark. |
| `RouteForms.RefsAre` | src/route.rs:261-277 | The heads and the tags, with a slash after them or without, and a tag by whatever comes after that slash, decoded. |
| `RouteForms.TagUrlRead` | src/route.rs:261-277 | Every tag's name, encoded as one component, is read back as that tag, anchored or not. |
| `RouteForms.LogNumbers` | src/route.rs:318-341 | The last offset and the last page count; an offset that is no number is zero, and a page that is none or zero no page. |
| `RouteForms.LogMessages` | src/route.rs:318-341 | Messages are shown exactly when some part says so. |
| `RouteForms.LogStarts` | src/route.rs:205-218 | A log starts at its offset, or else at its page, at 50 to a page and as far as a word goes. |
| `RouteForms.RenderedIf` | src/route.rs:305-316 | A file is rendered exactly when the first `render` says 1, or there is none and the last `display` says so. |
| `RouteForms.FirstCounts` | src/route.rs:283-303 | The first head given counts unless it is empty, and the first format. |
| `RouteForms.ContextGiven` | src/route/diff_view.rs:81-135 | A view's context is the last given, if it is from 1 to 40. |
| `RouteForms.EscapeIs` | src/route/encode.rs:12-26 | An escape is a percent sign and two capital hex digits. |
| `RouteForms.DecimalIs` | src/route.rs:318-341 | A number is written in decimal, its last digit last. |
| `RouteForms.AnchorIs` | src/route/anchor.rs:37-43 | An anchor's text, for one line and for several. |
| `Route.TreeUrlRead` | src/route.rs:372-385 | A tree's URL, anchored or not, is read back as that tree, for every path and head up to leading slashes and an empty head; the same route exactly when the path has no leading slash and the head is not empty. |
| `Route.BlameUrlRead` | src/route.rs:389-395 | The same of a blame's URL. |
| `Route.LogUrlRead` | src/route.rs:400-421 | The same of a log's URL, offset and messages included. |
| `Route.SnapshotUrlRead` | src/route.rs:360-367 | A snapshot's or a bundle's URL is read back as that download, exactly when the head is not empty. |
| `Route.CommitUrlRead` | src/route.rs:427-434 | A commit's URL is read back with the id as it is written and the view as a URL can say it; the same route exactly when every byte of the id is written as itself and the view says nothing a URL leaves out. |
| `Route.ViewRead` | src/route/diff_view.rs:81-135 | The settings of a view, written as parameters, are read back, but for a width out of range and the layout of a hidden diff. |
| `Route.HexVerbatim` | src/route.rs:427-434 | An id in hex is written as itself. |
| `Route.EscapedIdMisread` | src/route.rs:427-434 | An id that is not is read back as another. |

## Left out

- Wildmatch.Wildmatch: the text must be NUL-free, because the code uses 0 for the end of the text.
- Attributes.Lookup: the text of an attributes file is parsed by a function that is a parameter; quoting and macros are not modelled.
- Scoreboard.BlameFile: which objects can be read is fixed for a run, and attribution independent of the queue's order is stated where no filter vouches for a parent whose tree cannot be read (always, without filters); whether past such a parent it depends on which commit is looked at first is not proved either way; the path, the statistics, the progress callback and blob caching are not modelled.
- ArchiveWalk.CollectEntries: names are bytes, so lossy decoding of names that are not UTF-8 is not modelled; progress is its two counters, without the callback.
- BundleReader.ReadBundle: the inflater, the delta applier and the hash are parameters; the window's objects are values, so shared ownership is not modelled; progress is left out.
- BundleWriter.BundleWriter.Append: deflating, indexing and delta encoding are parameters, and sizes are unbounded except where a header encodes them.
- HistoryWalk.CollectObjects: ids are numbers in the order of their bytes; the progress callback is left out.
- CommitGraph.PositionOf: reading the file's header and table of chunks is not modelled, and chunk offsets plus positions are taken not to overflow 64 bits; the index into the edge list wraps at 32 bits, as in a release build.
- Bloom.PathMaybeChanged: the seeded hash is a parameter, so its loop is not modelled.
- SingleFlight.CachingRepo.Poll: where a read finds the object (local database or network) and which objects the memory cache evicts are left open.
- Route.ParseHash: texts are UTF-8 bytes, so replacing escapes that are not UTF-8 is not modelled; the index of repositories has its own routes (src/route.rs:134-175), which are not modelled, nor is the reading of older links (src/route/legacy.rs).
- Writing tar files, the user interface, local storage and the network are not part of this model.
- The priority queue and the commit metadata cache that blame uses are modelled as a queue popped in any order and a map.
