# prodRAG verification

prodRAG cuts Markdown documents into bounded parent sections, publishes the sections and their child
chunks in two stores that share no transaction, and answers a question by finding children, going back
to their parents, widening them along their links and packing the result into a prompt. This project
models that path in Dafny and proves what it promises about content, budgets, visibility and grounding.

Every loop and every object that changes its fields is a method or a class, proved equal to a
specification function; the laws are lemmas about those functions. Where the code does not meet a
promise on every input, a lemma states exactly when it does, for all inputs.

| module | models |
|---|---|
| `Text`, `Lines`, `Tokens` | whitespace, stripping, lines with and without breaks, words; the conservative token counter and the two-sided budget |
| `Blocks` | fence-aware atomic Markdown blocks and the largest block prefix (`tokenization.py`) |
| `Packing`, `PackingLaws`, `Layout` | lines, then words, then characters, inside a repeated prefix and suffix; how the lines lie in the parts (`parsing.py`) |
| `Sectioner`, `SectionerLaws` | packing blocks and dividing the ones that are too large (`parsing.py`) |
| `Headings`, `HeadingLaws`, `Labels` | the heading scan, its six-level hierarchy, and the label of every section (`parsing.py`) |
| `Patterns` | what the line patterns match: fences, list items, headings, table cells |
| `Records`, `Documents`, `DocumentLaws` | sections, identifiers, and the doubly linked parts of a whole document; what a whole split keeps (`parsing.py`) |
| `Titles`, `Samples` | how the title enters a split; documents small enough to be split by hand |
| `Stores`, `Publication` | the parent store, the child index, and ingestion as a method and as a step machine |
| `Children` | the text, id and origin of every child, up to the published index |
| `PublicationLaws`, `PublicationRuns` | what every step of every run keeps; convergence and visibility |
| `Races` | any number of writers at once, crashing and starting again |
| `PublicationLimits` | what happens outside the hypotheses, shown on ingested documents |
| `Assembler`, `AssemblerLaws` | parent expansion along links, deduplication, and the token cap (`context.py`) |
| `Evidence`, `EvidenceLaws`, `Citations` | evidence packing and citation markers (`answering.py`) |
| `Querying`, `QueryLaws`, `AnswerLaws` | the stage trace and routing of a query, and its outcome for every input |
| `EventStream` | the event-stream writer (`api.py`) and the incremental reader (`api.ts`) |
| `Spans`, `Chunks`, `SpanLaws` | the table and code scanners, and the chunker built on both (`chunking.py`) |

A few words recur. Pieces are *woven* into some lines when they are runs of those lines, whole and in
order, with nothing but blank lines around them: no line is changed, and none that shows something is lost.
Where lines themselves are divided, conservation is that of *ink*, the non-whitespace characters in order.
A *shell* is the prefix and suffix repeated around every part of a divided block. A *run* is
any sequence of atomic steps: writers of any number of documents, interleaved, crashing at any point and
starting again, with at most one writer for a tenant's document at a time.

Results that differ from what one might assume of the code:

- A table or fence with no visible body, whose shell exceeds the budget, is emitted unchecked at
  `parsing.py:375`. `PackingLaws.PackFits`, `SectionerLaws.SectionFits` and `Documents.SplitFits` say that
  this is the only way a part can exceed the budget, and `DocumentLaws.EveryBudgetCanBeExceeded` gives, for
  every budget, a document that does.
- A revision is never partly visible exactly when none of its point ids is visible at the start of the
  attempt (`PublicationRuns.VisibleWholeIff`). Ingesting a published revision again always hides it first
  (`PublicationLimits.ReingestIsNotWhole`).
- After publication the parents are exactly the new sections only if no earlier row of the same checksum
  has another section id, since pruning goes by checksum alone (`PublicationRuns.ParentsExactIff`). A file
  ingested again under another title keeps old parents exactly when its title labels one of its sections,
  which is when it shows something before any named heading (`PublicationLimits.RetitledParentsIff`).
- Several writers of one document are safe in every interleaving, with any crashes and retries, if they
  bring the same revision, such as a retry racing its original. If two of them bring different revisions,
  some interleaving leaves visible children without their parents, and all writers succeed
  (`Races.RaceDanglesIff`, `Races.BothFinishedDangleIff`). A deletion between an ingestion's parents and its
  children does the same (`PublicationLimits.DeletionDuringIngestionDangles`).
- Packing several blocks strips the whitespace at the outer ends of the text made so far, so an indented
  block that comes first loses its indentation (`Samples.IndentationLost`). `SectionerLaws.PackedKeepsIff`
  says when packing keeps its blocks as they are.
- Ingestion stores the parents before it finds that there are no chunks, and they stay
  (`Publication.IngestionService.Ingest`).
- The table scanner ignores fence lengths, so a shorter fence inside a longer one lets it find a table
  inside code, and those lines are then chunked more than once (`Chunks.UnevenFencesDuplicate`). Chunking
  keeps every visible character exactly once if and only if no table span meets a code span
  (`Chunks.TextConservesIff`).

## Model

| member | source | states |
|---|---|---|
| Tokens.CountIsStarts | src/prodrag/tokenization.py:13-20 | The number of matches of the token pattern equals an independent count of the characters that begin a token |
| Tokens.CountShrinks | src/prodrag/tokenization.py:13-20 | Deleting any stretch of a text never raises its token count |
| Tokens.DeletionFits | src/prodrag/tokenization.py:23-30 | A stripped text within both budgets stays within them when any stretch of it is deleted |
| Text.WordsAreRuns | src/prodrag/ingestion/parsing.py:390 | The words of a text are its longest runs without whitespace, in order, with only whitespace before, between and after them |
| Patterns.FenceIff | src/prodrag/tokenization.py:7 | A line is a fence of a character and length if and only if, after whitespace, it starts with exactly that many of it, three at least |
| Patterns.OpensIff | src/prodrag/tokenization.py:79-83 | Outside fences a line opens a fence of a character and length if and only if it is such a fence |
| Patterns.ClosesIff | src/prodrag/tokenization.py:66-77 | A line closes a fence if and only if, but for whitespace, it is a run of the same character at least as long |
| Patterns.ItemIff | src/prodrag/tokenization.py:8 | A line is a list item if and only if it is whitespace, then a bullet or a number with a point or parenthesis, then a space or tab |
| Patterns.ListContinuesIff | src/prodrag/tokenization.py:55-64 | A list goes on if and only if the first line that is not blank is an item or indented |
| Patterns.HeadingIff | src/prodrag/ingestion/parsing.py:18 | A line is a heading of a level if and only if it starts with that many hashes, one to six, and then a space or tab |
| Patterns.HeadingTitle | src/prodrag/ingestion/parsing.py:18 | Its title is taken from the text between the marks with their spaces or tabs and the line's end |
| Patterns.TitleIff | src/prodrag/ingestion/parsing.py:18 | A closing run of hashes after a space or tab is no part of the title, and without one the whole text is |
| Patterns.CellsAreCut | src/prodrag/ingestion/parsing.py:440-449 | The cells joined by pipes are the text, cut at every pipe without a backslash before it and nowhere else |
| Blocks.MarkdownAtomicBlocks | src/prodrag/tokenization.py:33-97 | The scanning loop with its fence state and flushes computes the recursive block grouping that the laws are about |
| Blocks.SplitJoinRoundTrip | src/prodrag/tokenization.py:33-97 | Splitting any prefix of the block list, joined by blank lines, gives back exactly those blocks |
| Blocks.BlocksKeepLines | src/prodrag/tokenization.py:33-97 | The lines of the blocks are woven into those of the text: every block is a run of whole lines, with indentation and inner blank lines, in order, and between blocks there are only blank lines; so the non-blank lines of both are the same |
| Blocks.BlocksConserve | src/prodrag/tokenization.py:33-97 | As a corollary, the blocks hold every visible character of the text once and in order |
| Blocks.BoundariesAreOutsideFences | src/prodrag/tokenization.py:52-90 | No block ends inside an open fence, nor between a list and a line that continues it |
| Blocks.BlocksAreUnbroken | src/prodrag/tokenization.py:52-90 | And every blank line outside fences, and not between a list and a line that continues it, ends a block: none is left inside one |
| Blocks.BlockShape | src/prodrag/tokenization.py:33-97 | Every block shows something, starts with a visible line, and is its own only block |
| Blocks.TakeMarkdownPrefix | src/prodrag/tokenization.py:100-119 | The growing loop returns the specified block prefix |
| Blocks.PrefixIsLargest | src/prodrag/tokenization.py:100-119 | The kept blocks are a prefix of the text's blocks joined by blank lines, and n blocks are kept if and only if the first n have at most the budget's tokens and characters |
| Blocks.PrefixFits | src/prodrag/tokenization.py:100-119 | A nonempty prefix has at most the budget's tokens and at most its characters |
| Blocks.PrefixIdempotent | src/prodrag/tokenization.py:100-119 | Taking the prefix of the prefix changes nothing |
| Blocks.SplitJoinSlice | src/prodrag/tokenization.py:33-97 | The same for any blocks that follow one another |
| Packing.LongestPiece | src/prodrag/ingestion/parsing.py:417-429 | The binary search finds the greatest length that fits: every longer piece is over budget |
| Packing.ShorterPieceFits | src/prodrag/ingestion/parsing.py:412-437 | Fitting is monotone in the length of the piece, with the shell around it, which is what the binary search relies on |
| Packing.SplitLongWord | src/prodrag/ingestion/parsing.py:412-437 | The loop takes the longest fitting piece each time and raises when not one character fits |
| Packing.SplitIntoWords | src/prodrag/ingestion/parsing.py:381-410 | The word loop with its flushes and its fallback to characters computes the specified parts or error |
| Packing.PackIntoParts | src/prodrag/ingestion/parsing.py:340-379 | The line loop with its flushes, its fallback to words and its last emission computes the specified parts or error |
| PackingLaws.LongWordConserves | src/prodrag/ingestion/parsing.py:412-437 | With the shell taken off each piece, the pieces concatenate to the word |
| PackingLaws.LongWordRaises | src/prodrag/ingestion/parsing.py:412-437 | A nonempty word raises if and only if heading, prefix, suffix and one character do not fit together |
| PackingLaws.LongWordFits | src/prodrag/ingestion/parsing.py:412-437 | Every piece of a long word is within both budgets |
| PackingLaws.PackConserves | src/prodrag/ingestion/parsing.py:340-437 | Through lines, words and characters, the parts without their shells carry the ink of the lines, in order |
| PackingLaws.PackRaises | src/prodrag/ingestion/parsing.py:340-437 | Packing raises if and only if some line shows something and there is no room for a character within the shell |
| PackingLaws.PackFits | src/prodrag/ingestion/parsing.py:340-379 | Every part is within both budgets, unless and only unless no line shows anything and the bare shell is over budget |
| Layout.PackLays | src/prodrag/ingestion/parsing.py:340-437 | Without the renderer: the body falls into consecutive portions. The lines of one are whole in one part, between the repeated lines, but for whitespace at the part's two ends, and the part had no room for the next line; a line that does not fit alone is taken apart into words and pieces; lines that show nothing have no part, and the repeated lines come alone only when no other part does |
| Layout.WordsArePortioned | src/prodrag/ingestion/parsing.py:381-410 | The words of such a line fall into consecutive portions: each is one line of a part, with single spaces between its words and no room for the next word, or one word that does not fit alone |
| Layout.LongWordIsCut | src/prodrag/ingestion/parsing.py:412-437 | Such a word is cut into consecutive pieces, each alone in its part and the longest that fits there |
| Layout.LaidLines | src/prodrag/ingestion/parsing.py:351-353 | With the whitespace put back that was stripped, such a part reads as exactly these lines |
| Sectioner.SplitAtomicBlock | src/prodrag/ingestion/parsing.py:308-314 | A block goes to the fence, table or plain path and yields the specified parts or error |
| Sectioner.SplitFencedBlock | src/prodrag/ingestion/parsing.py:316-331 | The result is the packing of the lines between the opening and the closing line, or of all after the opening if no line closes, with the opening line and the closing line or marker as the shell |
| Sectioner.SplitTable | src/prodrag/ingestion/parsing.py:333-338 | The result is the packing of the visible rows after the separator, with header and separator as the shell |
| Sectioner.SplitOversized | src/prodrag/ingestion/parsing.py:279-298 | The greedy loop over blocks computes the specified parts or error |
| SectionerLaws.BlockAccounts | src/prodrag/ingestion/parsing.py:308-338 | A block's ink is that of its prefix, its body and its closing line, so nothing else was set aside |
| SectionerLaws.BlockConserves | src/prodrag/ingestion/parsing.py:308-338 | The parts of a divided block carry the ink of its body inside its shell |
| SectionerLaws.BlockDivides | src/prodrag/ingestion/parsing.py:308-338 | The parts of a divided block are its body laid out line by line, as PackLays says: a fence's lines between its opening line and its closing line or marker, a table's rows under its header and separator, any other block's lines alone |
| SectionerLaws.RowsAreShown | src/prodrag/ingestion/parsing.py:333-335 | The rows of a table are its lines that are not blank, stripped |
| SectionerLaws.SectionConserves | src/prodrag/ingestion/parsing.py:279-298 | The blocks in the groups are the blocks of the section, each once and in order; the parts are the groups' texts; the text of a packed group is exactly its blocks with empty lines between, but for whitespace at the start of the first and at the end of later ones; the parts of a divided block are its lines, laid out as BlockDivides says, and carry its ink; and a packed group had no room for the first block after it |
| SectionerLaws.GroupsFromFull | src/prodrag/ingestion/parsing.py:279-298 | The packing is greedy from any point of the loop on: no group of blocks could have taken the block after it |
| SectionerLaws.PackedKeepsIff | src/prodrag/ingestion/parsing.py:284-288 | A packed text is its blocks unchanged, joined by empty lines, if and only if there is one block, or the first does not start with whitespace and no later one ends with it |
| SectionerLaws.PackedReadsBack | src/prodrag/ingestion/parsing.py:284-288 | In that case it splits into its blocks again, and their lines are whole in it |
| SectionerLaws.SectionNotEmpty | src/prodrag/ingestion/parsing.py:279-298 | A section that shows something and does not raise has at least one part |
| SectionerLaws.SectionRaises | src/prodrag/ingestion/parsing.py:279-306 | A section raises if and only if one of its blocks is over budget, shows a body, and leaves no room for a character |
| SectionerLaws.SectionFits | src/prodrag/ingestion/parsing.py:279-306 | All parts of a section are within both budgets if and only if it has no over-budget fence or table with a blank body and an over-budget shell |
| Headings.SplitHeadingSections | src/prodrag/ingestion/parsing.py:214-277 | The scan with its six-slot array, fence variables and flushes computes the specified sections |
| Headings.SlotIsGoverningTitle | src/prodrag/ingestion/parsing.py:268-271 | A slot holds a title if and only if it is the last heading of that level with no heading as shallow after it |
| Labels.LabelIsTitles | src/prodrag/ingestion/parsing.py:268-274 | Without the slots: the label is the titles at a strictly increasing list of places, which are exactly the headings in force with a title, joined by ' > ', or the default title when that is empty |
| Labels.SectionsAreLabelled | src/prodrag/ingestion/parsing.py:214-277 | Every section of every document is all the lines between one heading, or the start, and the next, or the end, and has the label of the headings read up to there |
| HeadingLaws.BodyLines | src/prodrag/ingestion/parsing.py:236-240 | A body is the lines read for it, unchanged, without the empty ones at its ends |
| HeadingLaws.BodiesKeepLines | src/prodrag/ingestion/parsing.py:214-277 | The lines of the section bodies are woven into the document's lines that are not headings: whole, with their whitespace, in order, with only blank lines left out |
| HeadingLaws.HeadingSectionsConserve | src/prodrag/ingestion/parsing.py:214-277 | As a corollary, the section bodies hold the ink of all lines that are not headings, in order |
| HeadingLaws.SectionsEndOutsideFences | src/prodrag/ingestion/parsing.py:242-277 | Every section but the last ends outside a fence |
| HeadingLaws.BodyReadsFences | src/prodrag/ingestion/parsing.py:236-277 | Scanned alone, a section's body has each of its lines, and its end, in the very fence state that line has among the section's lines in the document |
| HeadingLaws.BodyKeepsFences | src/prodrag/ingestion/parsing.py:236-277 | And it ends in the fence state that all of the section's lines end in |
| Documents.Split | src/prodrag/ingestion/parsing.py:158-211 | Sections, parts, links and orders are built as specified, and empty input or an unsplittable block raises |
| Documents.LinkNeighbors | src/prodrag/ingestion/parsing.py:184-194 | The neighbour map links each part to the parts of its own heading section before and after it, and to no others |
| Documents.LinkSections | src/prodrag/ingestion/parsing.py:178-210 | Identifiers, neighbours and orders put together give the specified records |
| Documents.SplitIsLinked | src/prodrag/ingestion/parsing.py:158-211 | The sections of a document are doubly linked lists of consecutive orders under one heading, with distinct ids |
| Documents.SplitRaises | src/prodrag/ingestion/parsing.py:158-211 | A document raises if and only if it is blank or some section has an unsplittable block |
| Documents.SplitFits | src/prodrag/ingestion/parsing.py:158-211 | Every section of a document has, with its heading, at most the budget's tokens and characters if and only if no section has a block of the unchecked kind |
| Documents.SplitNotEmpty | src/prodrag/ingestion/parsing.py:158-211 | A split that returns has at least one section |
| DocumentLaws.SplitConserves | src/prodrag/ingestion/parsing.py:158-211 | For a whole document, the sections follow the groups of blocks under their headings: each has its group's heading, that heading and its text as content, and its number and the count of parts within the heading's section; each group holds its blocks as SectionConserves says, and the non-blank lines of all blocks are the document's non-blank lines other than headings, in order |
| DocumentLaws.EveryBudgetCanBeExceeded | src/prodrag/ingestion/parsing.py:374-378 | For every budget and title there is a document whose split returns and has a section over budget |
| Titles.TitlesMatterIff | src/prodrag/ingestion/parsing.py:158-211 | Two titles give a document sections of different ids if and only if the title labels one of its sections |
| Samples.IndentationLost | src/prodrag/ingestion/parsing.py:284-288 | A document whose section starts with an indented block, which is returned without its indentation |
| Records.LinkedListLinksWell | src/prodrag/ingestion/parsing.py:178-210 | In a linked list every link names the neighbouring order under the same heading, and ids are distinct |
| Stores.ParentStore.UpsertRevision | src/prodrag/parent_store.py:132-186 | All sections are inserted or overwritten and no other row changes; no sections raises and changes nothing |
| Stores.ParentStore.PruneRevision | src/prodrag/parent_store.py:188-205 | Exactly the document's rows of other checksums go; an empty checksum raises |
| Stores.ParentStore.GetParent | src/prodrag/parent_store.py:207-237 | The row under the tenant, document and section id, if any |
| Stores.ParentStore.DeleteDocument | src/prodrag/parent_store.py:239-244 | Exactly the document's rows go |
| Stores.ChildIndex.UpsertRevision | src/prodrag/vector_store.py:102-144 | Upload hidden, make ready, then drop the document's other points; no chunks raises |
| Stores.ChildIndex.AddDocuments | src/prodrag/vector_store.py:116 | Batches of 64 write the same points as one write of all children |
| Stores.ChildIndex.DeleteDocument | src/prodrag/vector_store.py:146-163 | Exactly the document's points go |
| Stores.HiddenIff | src/prodrag/vector_store.py:174-191 | A point is hidden from search if and only if its flag is there and off |
| Stores.RowsLeft | src/prodrag/parent_store.py:188-244 | A prune takes exactly the document's rows of other checksums, a deletion exactly the document's rows, and neither changes another row |
| Stores.PointsLeft | src/prodrag/vector_store.py:117-145 | Making points ready changes the flag of exactly those, and dropping stale ones takes exactly the document's points of other ids |
| Publication.BuildChildDocuments | src/prodrag/ingestion/service.py:218-273 | The nested loops give one hidden child for each chunk, identified by its section and position, and raise when there is no chunk |
| Children.ChildAt | src/prodrag/ingestion/service.py:230-268 | Without the builder: for every section and every chunk of it, at its place in reading order, there is a child with the id of the document, checksum, section and chunk number, the section as its parent, the document's title, the section's heading and this chunk, stripped, as its content, the product and version only when they are not empty, and the flag off |
| Children.ChildrenExact | src/prodrag/ingestion/service.py:218-273 | There are no other children, and no two have one id |
| Publication.IngestionService.Ingest | src/prodrag/ingestion/service.py:47-148 | The state of both stores after every outcome: splitting raises, no chunks, or published; storing never raises, since a split has sections |
| Publication.IngestionService.PublishRevision | src/prodrag/ingestion/service.py:193-216 | Children are published and stale ones dropped before other revisions' parents are pruned |
| Publication.IngestionService.DeleteDocument | src/prodrag/api.py:266-271 | Both stores lose the document and nothing else |
| PublicationLaws.WorkKeeps | src/prodrag/ingestion/service.py:92-148 | Each step of an attempt keeps every child's parent stored and leaves other documents alone |
| PublicationLaws.PruneKeeps | src/prodrag/parent_store.py:188-205 | Pruning after the stale children are gone removes no row that a point refers to |
| PublicationLaws.StepKeepsInv | src/prodrag/ingestion/service.py:193-216 | Every step, crash, restart and delete keeps the invariant of the two stores and of all writers |
| PublicationLaws.RunKeepsInv | src/prodrag/ingestion/service.py:47-148 | The invariant holds in every state of every run |
| PublicationLaws.NoDanglingChildren | src/prodrag/parent_store.py:164-205 | In every state of every run, every point without inline parent text has its parent row, whose content is what its id was made from |
| PublicationLaws.RowsStayWellLinked | src/prodrag/parent_store.py:172-183 | In every state of every run, also with revisions mixed by a crash, every stored row links to the orders next to its own |
| PublicationLaws.FinishedMeansPublished | src/prodrag/ingestion/service.py:205-216 | In every run, an attempt that has finished has exactly its own points in the index, all ready, all its parents, and no row of another checksum |
| Children.FinishedHoldsItsText | src/prodrag/ingestion/service.py:205-273 | In every state of every run where the ingestion of a text has finished, every section of its split is a row, and every chunk of every section is a visible point under the text of that very chunk |
| PublicationLaws.OtherDocumentsUntouched | src/prodrag/vector_store.py:124-144 | A step for one tenant's document changes no row or point of any other |
| PublicationRuns.IngestedAttemptIsValid | src/prodrag/ingestion/service.py:218-273 | What the sectioner and the child builder produce is what the step machine asks of an attempt |
| PublicationRuns.SoloEnds | src/prodrag/ingestion/service.py:92-148 | The step machine run to its end by one writer is the state the ingest method leaves |
| PublicationRuns.UploadSteps | src/prodrag/vector_store.py:116 | The step machine uploads the children in batches of 64, the last one short |
| PublicationRuns.IngestConverges | src/prodrag/ingestion/service.py:205-216 | From any consistent state, whatever crashed before, one complete attempt leaves exactly its revision |
| PublicationRuns.ParentsExactIff | src/prodrag/parent_store.py:188-205 | The parents left are exactly the sections if and only if every older row of that checksum is one of them |
| PublicationRuns.PublishedParentsAreExact | src/prodrag/parent_store.py:188-205 | If sections depend on the checksum alone, a finished attempt's parents are exactly its sections in every run |
| PublicationRuns.NeverPartlyVisible | src/prodrag/vector_store.py:116-144 | In every state of every run, what search sees of a document being ingested is the old set, old and complete new, or complete new, if no new id was visible at the start |
| PublicationRuns.VisibleWholeIff | src/prodrag/vector_store.py:174-191 | All steps of an attempt show the revision whole or not at all if and only if none of its ids is visible at the start |
| PublicationRuns.EveryAttemptCanFinish | src/prodrag/ingestion/service.py:47-148 | From empty stores every valid attempt with a child has a run that publishes it, so that the laws about finished attempts speak of something |
| Races.RaceDanglesIff | src/prodrag/ingestion/service.py:193-216 | From consistent stores, any writers that advance, crash and retry in any order can leave a child without its parent if and only if two of them bring different revisions of one document |
| Races.AgreeingWritersAreSafe | src/prodrag/ingestion/service.py:193-216 | No interleaving of writers that bring one revision for each document does |
| Races.MoveKeeps | src/prodrag/ingestion/service.py:193-216 | A step of one writer keeps the stores consistent and keeps what any writer that agrees with it relies on |
| Races.OvertakenChildDanglesIff | src/prodrag/ingestion/service.py:193-216 | In one interleaving of two writers of one document, where the second prunes after the first one's ready flip, each child of the first is visible, and lacks its parent if and only if the revisions differ and the second has no section of that id |
| Races.BothFinishedDangleIff | src/prodrag/ingestion/service.py:193-216 | When both writers of that interleaving have finished, every child of the first is visible, and lacks its parent if and only if the revisions differ |
| PublicationLimits.IngestionsDangleIff | src/prodrag/ingestion/service.py:47-148 | The exact condition for the ingestions of two texts |
| PublicationLimits.TwoWritersLeaveDanglingChildren | src/prodrag/ingestion/service.py:205-216 | Such an interleaving of the ingestions of two documents of one word each, from empty stores |
| PublicationLimits.DeletionDuringIngestionDangles | src/prodrag/api.py:266-271 | A deletion between an ingestion's parents and its children leaves every child visible and without its parent |
| PublicationLimits.ReingestIsNotWhole | src/prodrag/ingestion/service.py:262-263 | Ingesting again the attempt that has just finished is partly visible at some step |
| PublicationLimits.OldParentsSurvive | src/prodrag/parent_store.py:188-205 | Of two attempts of one checksum, the second is published and the first one's other sections keep their rows |
| PublicationLimits.RetitledParentsIff | src/prodrag/ingestion/parsing.py:79 | A text ingested under two titles, with no earlier row of its checksum, ends with exactly the second one's parents if and only if the title labels no section of it |
| PublicationLimits.RetitledFileKeepsOldParents | src/prodrag/ingestion/parsing.py:79 | A document of one word ingested under two titles, from empty stores, keeps its old parent |
| Assembler.ParentContextAssembler.Assemble | src/prodrag/retrieval/context.py:31-91 | The loop over ranked hits computes the specified contexts or the missing parent |
| Assembler.ParentContextAssembler.ExpandParent | src/prodrag/retrieval/context.py:93-140 | The alternating walk with its two cursors computes the specified expansion |
| AssemblerLaws.ExpandIsConsecutive | src/prodrag/retrieval/context.py:93-140 | Expansion gives strictly consecutive parts of one heading and document around the match, none excluded, within the cap when anything was added. The sides take turns, the one before first: each stops at the neighbour count, or where, with just the parts the other side has by then, its next part is missing, excluded or over the cap; and so it still is with all the parts in the end |
| AssemblerLaws.AssemblyIsCorrect | src/prodrag/retrieval/context.py:31-91 | Contexts follow rank, stay within the limit, share no parent, keep to the token cap when the match does, and cover every hit when there are fewer than the limit; each is made when every better ranked hit is shown already and its own is not, and is the expansion of its match with exactly what is shown left out; failure names a hit with no parent |
| AssemblerLaws.HitsAlwaysAssemble | src/prodrag/retrieval/context.py:47-70 | In every state of every publication run, the visible points of that state always assemble |
| Evidence.PrepareEvidence | src/prodrag/answering.py:42-77 | The loop over two decreasing budgets computes the specified packing |
| Evidence.PackWithinBudgets | src/prodrag/answering.py:42-77 | Total characters and total tokens never exceed their budgets |
| Evidence.PackIsSubsequence | src/prodrag/answering.py:42-77 | Items keep candidate order, each whole or cut to a nonempty block prefix |
| EvidenceLaws.PackKeepsRightly | src/prodrag/answering.py:42-77 | With what the kept contexts above it leave of the budgets, every context that fits is kept whole, every other one is kept to as many of its first blocks as fit, and it is left out if and only if that is none, or it is empty, or a budget is used up |
| Evidence.PackIdempotent | src/prodrag/answering.py:42-77 | Packing the packed evidence with the same budgets returns it unchanged |
| Citations.SubstituteMarkers | src/prodrag/answering.py:280-282 | The left-to-right substitution computes the specified normal form |
| Citations.NormalizeIdempotent | src/prodrag/answering.py:280-282 | Normalising an answer twice is normalising it once |
| Citations.NormalizeRewrites | src/prodrag/answering.py:28 | Without the matcher: a normalised answer is the answer copied character by character, but for every marker, read from the left, which becomes its S and digits in plain brackets; a marker is an opening bracket, whitespace, an S of either case, digits, whitespace and a closing bracket |
| Citations.FoundIdsAreLabels | src/prodrag/answering.py:280-291 | The ids found after normalisation are exactly the upper-cased labels of all markers of the raw answer, in order |
| Citations.CitationsAreTheMarkedEvidence | src/prodrag/answering.py:187-294 | The citations are exactly the evidence the raw answer marks, in evidence order and once each, where S1 names the first item |
| Citations.SourceIdsDistinct | src/prodrag/answering.py:187-216 | Different evidence positions have different source ids |
| Citations.SourceIdReads | src/prodrag/answering.py:192 | The id of the evidence at position i is S and the number i + 1, without leading zeros |
| Querying.EventLog.SkipAll | src/prodrag/querying.py:172-201 | One skipped event for each stage, in order |
| Querying.Retrieve | src/prodrag/retrieval/service.py:33-128 | Events and result of retrieval on each branch, with or without a reranker |
| Querying.Answer | src/prodrag/answering.py:79-345 | Events and response on each branch: sensitive, no evidence, low confidence, generation failing, insufficient, uncited, answered |
| Querying.QueryWithEvidence | src/prodrag/querying.py:49-169 | Events and execution record of a whole query on each early return |
| QueryLaws.QueryTraces | src/prodrag/querying.py:49-201 | Every query that returns gives each of the seven stages exactly one terminal event, in pipeline order |
| QueryLaws.QueryWellRouted | src/prodrag/answering.py:88-345 | Answered if and only if there are citations; then confidence is above low, and otherwise it is low with one reason; human review, support routing and reasons go together |
| AnswerLaws.GradeIff | src/prodrag/retrieval/confidence.py:21-29 | The grade is high if and only if some context's score reaches the high threshold, and low if and only if none reaches either threshold, where a rerank score stands before the hybrid one |
| AnswerLaws.AtLeastExact | src/prodrag/retrieval/service.py:142-146 | The reranked hits that are kept are, in order, exactly those whose score reaches the minimum |
| AnswerLaws.SensitiveOutcome | src/prodrag/answering.py:89-109 | A sensitive question is handed over for that reason alone, and no stage of the answer runs |
| AnswerLaws.GateOutcome | src/prodrag/answering.py:111-185 | If no context reaches a threshold, or none fits, the model is not called, and the question is handed over for low confidence when contexts were there and weak, and for missing context otherwise |
| AnswerLaws.FirstReplyIff | src/prodrag/answering.py:231-250 | Generation fails if and only if every attempt does, and otherwise the first reply is used, stripped |
| AnswerLaws.FailureOutcome | src/prodrag/answering.py:231-247 | When the gate is passed and no attempt returns, the query raises and its trace ends with the failed stage |
| AnswerLaws.AbstentionOutcome | src/prodrag/answering.py:257-278 | When the reply is empty or NOT_FOUND, the question is handed over for missing context, and citations are not checked |
| AnswerLaws.UncitedOutcome | src/prodrag/answering.py:280-321 | When the reply marks none of the evidence, the question is handed over for missing citations |
| AnswerLaws.AnswerOutcome | src/prodrag/answering.py:280-345 | Otherwise the answer is the normalised reply with exactly the marked evidence as citations; confidence is high if and only if some context reaches the high threshold, and a person reviews it if and only if a policy rule says so, with that one reason |
| AnswerLaws.TriageOutcome | src/prodrag/querying.py:66-148 | A triage that fails or is unsure hands over before anything is retrieved, with every later stage skipped |
| AnswerLaws.SensitiveQueryOutcome | src/prodrag/querying.py:111-126 | A query with sensitive data is handed over without retrieval |
| AnswerLaws.RetrievalOutcome | src/prodrag/querying.py:150-169 | Any other query is answered from the contexts assembled of the ranked hits, or of the reranked hits that reach the minimum; the record keeps the evidence of those contexts, and a missing parent or a failed generation ends it with its trace |
| QueryLaws.AnsweredIsGrounded | src/prodrag/querying.py:158-168 | An answered query had a non-sensitive triage above low, its answer is the normalised reply, and its citations are the marked items of the contexts kept in the record |
| QueryLaws.RecordedContextsArePacked | src/prodrag/querying.py:158-168 | The contexts kept in the record are within both budgets, and packing them again changes nothing |
| QueryLaws.QueryFindsParents | src/prodrag/querying.py:49-169 | Over the hits of any state of any publication run, reranked or not, a query never raises for a missing parent |
| EventStream.StreamQuery | frontend/src/api.ts:99-112 | The reader delivers the same messages however the stream was cut into chunks, also inside a separator |
| EventStream.ReadOn | frontend/src/api.ts:103-110 | Reading a stream in two steps, keeping the unfinished rest, gives the same frames and rest as reading it at once |
| EventStream.FramesExact | frontend/src/api.ts:105-106 | The stream is cut at its leftmost separators and nowhere else, and the rest has none |
| EventStream.DataExact | frontend/src/api.ts:108-109 | What is read of a frame is the first of its lines that starts with the prefix, without the prefix |
| EventStream.WriteStream | src/prodrag/api.py:357-364 | The writer sends every queued message up to and with the first terminal one, as data frames |
| EventStream.WrittenFrames | src/prodrag/api.py:357-364 | What is written reads as one frame for each payload, the payload after the prefix as its one line |
| EventStream.StreamRoundTrip | src/prodrag/api.py:357-364 | For every cutting into chunks, what the reader delivers is what the server sent, in order and once each |
| EventStream.BrokenStreamDeliversPrefix | frontend/src/api.ts:99-112 | A stream cut off anywhere delivers a prefix of the messages and never part of one |
| EventStream.SentEndsWithTerminal | src/prodrag/api.py:362-363 | What is sent is a prefix of the queue whose last message is its only terminal one |
| EventStream.SentWhole | src/prodrag/api.py:362-363 | A queue without a terminal message is sent whole |
| Spans.MarkdownCodeSpans | src/prodrag/ingestion/chunking.py:279-306 | The cursor loop computes the fenced spans, each closed by a fence at least as long or by the end |
| Spans.MarkdownTableSpans | src/prodrag/ingestion/chunking.py:308-339 | The cursor loop computes the table spans outside what it takes for fences |
| SpanLaws.CodeSpansExact | src/prodrag/ingestion/chunking.py:279-306 | Every code span starts with a fence and ends with the first line after it that closes it, or at the end; and every fence line is in one |
| SpanLaws.TableSpansExact | src/prodrag/ingestion/chunking.py:308-339 | Every table span is a table outside what the scanner takes for fences, as long as its rows go on, and there is no such table besides them |
| SpanLaws.MergedSpansExact | src/prodrag/ingestion/chunking.py:142-146 | The blocks are the spans of both kinds, each as often as it was found, sorted by start and then end |
| Spans.ScannersAgree | src/prodrag/ingestion/chunking.py:279-339 | With one length for each fence character and no pipe in a fence line, no table span meets a code span |
| Spans.TilesIff | src/prodrag/ingestion/chunking.py:142-173 | Prefixes, blocks and suffix take every line exactly once if and only if no block begins before the one before it ended |
| Spans.TilesIffApart | src/prodrag/ingestion/chunking.py:142-173 | For the spans the two scanners find, that is so if and only if no table meets a code block |
| Spans.EvenFencesTile | src/prodrag/ingestion/chunking.py:142-173 | With even fences every line is taken exactly once and in order |
| Spans.UnevenFencesOverlap | src/prodrag/ingestion/chunking.py:308-323 | A shorter fence inside a longer one makes the table scanner find a table inside a code span |
| Chunks.ChunkStructuredBlocks | src/prodrag/ingestion/chunking.py:127-173 | The cursor loop over the sorted spans computes the specified pieces, combining an introduction with its block when both fit |
| SpanLaws.StructuredPiecesExact | src/prodrag/ingestion/chunking.py:127-173 | Block by block, without the loop: what stands before a block is combined with it when both are there and fit, and otherwise precedes it as prose; the block is a table or code piece as its span is, and what follows the last one is prose; there are no other pieces |
| Chunks.TextConservesIff | src/prodrag/ingestion/chunking.py:127-173 | The pieces hold every visible character of the text once and in order if and only if no table span meets a code span |
| Chunks.StructuredConserveIff | src/prodrag/ingestion/chunking.py:127-173 | The same for any lines |
| Chunks.PiecesConserveIff | src/prodrag/ingestion/chunking.py:142-173 | Blocks that overlap always give more ink than the text has, so nothing is ever lost |
| Chunks.EvenFencesConserve | src/prodrag/ingestion/chunking.py:127-173 | With even fences the pieces conserve the text |
| Chunks.UnevenFencesDuplicate | src/prodrag/ingestion/chunking.py:127-173 | A concrete text whose pieces do not |
| Chunks.ChunkTable | src/prodrag/ingestion/chunking.py:235-265 | The row loop with its flushes computes the specified chunks, and a table without rows or separator goes to the size guard whole |
| Chunks.RowChunksConserve | src/prodrag/ingestion/chunking.py:247-264 | Every row is in exactly one chunk, in order; chunks of rows are within the size with the repeated header, and only rows too large alone go to the size guard |
| Chunks.TableRowsConserve | src/prodrag/ingestion/chunking.py:236-264 | Header, separator and the rows in the chunks hold every visible character of the table |
| Chunks.RowChunksAreFull | src/prodrag/ingestion/chunking.py:250-258 | No chunk of rows could have taken the first row of the chunk after it |
| SpanLaws.TableTextLines | src/prodrag/ingestion/chunking.py:243-248 | A chunk of rows reads as the header, the separator and its rows, a line each |

## Left out

- Characters outside ASCII: whitespace, line breaks, digits, word characters and letter case are exact for ASCII only.
- Other token counters: sections and packing use the conservative counter; the chunker's size test is an arbitrary predicate.
- Hash collisions: section ids and point ids are injective constructors of what is hashed.
- Timestamps, durations, messages, fixed answer wording, score rounding and display metadata are left out or stand as short names.
- The check that documents and point ids have one length: a child carries its id.
- Parsers, the language model, triage, search, the reranker, embeddings, and the Chonkie and LangChain splitters are arbitrary inputs or functions; errors raised by search or the reranker, which end the query, are not modelled.
- Prose chunking, code chunking, language names and the labelled form of an oversized table row, which feed those splitters.
- Search ranking, fusion, result limit and the product and version filter: a hit is any visible point.
- Transactions inside SQLite, its migrations and write-ahead log: each store call is one atomic step.
- A parent changing between search and lookup: assembly works on one state.
- PublicationLaws.NoDanglingChildren: is about runs with one writer for each tenant's document, deletions included; Races.RaceDanglesIff says exactly which writers are safe together, deletions left out.
- PublicationRuns.NeverPartlyVisible: assumes that no new id is visible at the start; VisibleWholeIff shows that this is necessary.
- AssemblerLaws.HitsAlwaysAssemble: a legacy point's inline parent text is taken to be nonempty, here and in QueryLaws.QueryFindsParents.
- EventStream.StreamRoundTrip: payloads are texts without a line feed, which is all that is used of their encoding; byte decoding and the messages' contents are not modelled.
- Spans.ScannersAgree: gives a sufficient condition on the lines; the exact one, on the spans, is TilesIffApart.
- Upload scanning, jobs, authorisation, the command line, metrics, evaluation and the user interface would add easy members only.
