# Models of the gateway's stateful core

A Dafny model of the parts of the gateway that keep state and promise something about it, with proofs of what they
promise:

- **The file-writing pipeline** (`internal/filewriter`). A model response is parsed into operations; each path is
  confined to a worktree that may hold symbolic links; the batch is planned, then applied all or nothing with an undo
  log; a retry ladder wraps it.
- **The sliding windows** (`internal/policy`). Per-session rate and token windows compacted in place, a session
  registry that evicts idle buckets, and a tier budget that is updated by interleaved calls.
- **The language server session** (`internal/lsp/session.go`). Content-Length framing, and a request multiplexer over one
  pipe.
- **The model swap protocol** (`internal/modelmanager`). One swap goroutine, exit watchers and readers that share a
  resident record.

## How it is modelled

| file | component |
|---|---|
| `Text.dfy` | strings as bytes: trimming, splitting, joining |
| `Types.dfy`, `Parser.dfy` | the fence scanner, with its index loops |
| `Grammar.dfy`, `Printer.dfy`, `Compose.dfy` | what a response means, what the parser can return, and how two halves parse |
| `Paths.dfy`, `FileTree.dfy` | Go's path cleaning; a file tree with symbolic links, `Lstat` and `EvalSymlinks` |
| `Gitignore.dfy`, `PathSafe.dfy` | ignore rules; confinement of paths |
| `Writer.dfy`, `Rollback.dfy`, `Batch.dfy`, `Apply.dfy` | planning, the undo log, the declared update, the writer at work |
| `Leaks.dfy`, `Moments.dfy` | exactly when a failed batch gives the worktree back; what can be seen during one |
| `Executor.dfy` | the retry ladder |
| `Bucket.dfy`, `Windows.dfy` | a session's bucket on arrays; its logs against the full history |
| `Registry.dfy`, `Eviction.dfy`, `Overshoot.dfy` | the session map; what eviction changes; tokens with requests in flight |
| `Race.dfy` | registry calls in two steps, with sweeps between them |
| `Runs.dfy`, `TierBudget.dfy` | sequences of steps; the tier budget, step by step |
| `Framing.dfy`, `Session.dfy` | the base protocol; the multiplexer, step by step |
| `Swap.dfy` | the swap goroutine, watchers and readers, step by step |

Objects that update their fields are classes, and loops are loops; each method is proved against a function or against
an outright statement of its result. Code that runs concurrently is a step function over a state: a run is any sequence
of actions, an action whose turn it is not changes nothing, and a theorem about every sequence is a theorem about every
interleaving. The classes beside them (`TierBudget.Budget`, `Session.Session`, `Swap.Manager`) perform the same steps on
fields.

The file system of `Apply.dfy` answers every fallible step of the forward phase, and every look at the context, from an
arbitrary oracle that knows the time and the step, so a theorem about `Apply` covers a fault or a cancellation at every
position; and it records the last step, so a theorem can say which failure leaves what.

### Hypotheses

- One batch runs at a time, and nobody else changes the tree meanwhile.
- Undo and clean-up primitives succeed, except that an existing file is opened for writing only if its mode has the
  owner's write bit or the process is privileged. `WriteFile` gives a new file exactly the mode it is passed (umask 0).
- Policy limits are at least 1; times are whole nanoseconds and do not run backwards; a call of the registry is one step,
  except in `Race.dfy`.
- What a language server does between reading and writing, and how much its pipes hold, is not modelled: a write to its
  stdin may take any number of pieces, end, fail, or never end (as when both pipes are full and the server waits for its
  own output to be read).
- Tokens deducted from a tier are not negative, and prunes win its lock in the order of their times.
- No process id is used twice.
- A theorem that needs more says so in its `requires`: that the server answers no id twice (`Session.Fair`), that it
  answers only what it was sent (`Session.Honest`), that a watcher is done before the next install of its tier
  (`Swap.Fair`).

### Where the code does less than it says

Each of these is proved, with the exact condition or a concrete run.

- `Apply` promises that any failure restores the prior state (`internal/filewriter/apply.go:30-34`). Two things can stay.
  - Directories that a failing `MkdirAll` has already made, because `mkdirAllTracked` forgets them
    (`internal/filewriter/writer.go:165-167`). A chain stays exactly if the step that failed is a mkdir after the first of
    its `MkdirAll`. That can happen exactly for the batches that are leaky at some write: nothing before is in that
    write's way, and two or more of its parents are missing when its turn comes.
  - The new content of an installed write over a file without the owner's write bit, because `os.WriteFile` cannot reopen
    it (`internal/filewriter/apply.go:142-146`). That can happen exactly for the batches that can stick at some
    write: nothing before is in its way, it changes such a file, and a write comes after it or there is a file to remove.
    So a single write over such a file is all or nothing.

  A failure restores the tree exactly unless one of the two has happened; a batch that is leaky at no write and can stick
  at none is all or nothing on every disk.
- A rollback also drops the set-user-id, set-group-id and sticky bits of the files it touched, because only `Perm()` is
  recorded (`internal/filewriter/writer.go:86`); it touches targets of the batch only.
- `Resolve` can return the worktree root itself, exactly when the path resolves to it through a link; `plan` then refuses
  it as no regular file. With `/` as the worktree nothing beneath it is accepted.
- A batch with one write target above another always fails. During any batch, a target that existed is in its complete
  old or its complete new state at every moment. So is one that did not, with two exceptions. It can be a directory,
  exactly if the batch comes to a write beneath it with nothing in its way: for a write target that is an earlier write,
  and the batch then fails; for a delete of a missing file it is any write, and the batch can succeed with a directory
  where the delete asked for nothing. And if it has a staging name, it can be a staging file of any write in its directory
  that the batch comes to while it is missing.
- A glob with a literal after its last `**` can miss a match (`**a` misses `aba`): it is found exactly when the tail's
  first occurrence in what the other parts leave is the one at the end.
- Eviction is invisible to rate limiting exactly when the idle time is at least one minute, if a call is one step. It is
  two (`internal/policy/registry.go:70-74`), and a sweep between them can evict the bucket that the call holds. If that
  happens to no call, all is as with one step; if it happens to one, whatever the limits and the idle time, a session can
  be let in once more than its limit at one instant. Eviction can always hide hourly spending, because `Deduct` does not
  mark the session as seen.
- Waiting as told after a refusal for tokens need not be enough: gone are exactly the spends made up to a second after
  the oldest, and the next request is let in exactly if the others stay below the limit.
- A deduction that finds the tier's lock taken is never logged, so the next prune forgets it: the counter after a prune
  is off by exactly the unlogged deductions.
- A frame with an empty body cannot be read, and a negative Content-Length panics the reader.
- An id answered twice can block the read loop: exactly when the second answer is looked up while the request is still
  pending with the first one undrained. It goes on exactly when that request receives; if it has given up, never.
- The reader of answers waits while anybody writes to the server, because both take the session's mutex
  (`internal/lsp/session.go:234-240`, `internal/lsp/session.go:254`): a request can time out with its answer already read,
  and while that write does not end the reader reads nothing more.
- `EnsureLoaded` looks at the record before it tries for the queue, and a swap can finish in between: the request is then
  queued although its model is there, which is stopped and started again.
- A watcher that compares tiers only can clear the record of a newer process, which then runs on unknown. This is the
  one step that loses a process. The error branch after stopping the resident is dead: `killProcess` never fails.

## Model

| member | source | states |
|---|---|---|
| Parser.CollectBody | internal/filewriter/parser.go:122-131 | the body is the lines before the first closing fence, joined; closed iff there is one |
| Parser.SkipToClose | internal/filewriter/parser.go:135-142 | the index just past the first closing fence, or the end of input |
| Parser.Parse | internal/filewriter/parser.go:33-103 | the loop over lines with its seen map refines the recursive scan: same operations, same first error and line, an error for no operations |
| Grammar.SegmentsExact | internal/filewriter/parser.go:17-19 | every text splits into prose, closed fences and at most one unclosed fence at its end |
| Grammar.SegmentsUnique | internal/filewriter/parser.go:40-93 | that segmentation is the only one |
| Grammar.ParseMeans | internal/filewriter/parser.go:29-103 | with no offending block the parser returns the blocks' operations in order; otherwise the reason and opening line of the first block with a missing path, no close or a path already named |
| Grammar.FenceSpelled | internal/filewriter/parser.go:41-48 | a fence is a line that begins with three backquotes, blanks aside |
| Grammar.CloseSpelled | internal/filewriter/parser.go:125-137 | a closing fence holds nothing but three backquotes and blanks |
| Grammar.OpenSpelled | internal/filewriter/parser.go:48-116 | a line opens an operation of a kind on a path iff it is, blanks aside, three backquotes, `file:` or `file-delete:`, and that path |
| Text.TrimSpaceExact | internal/filewriter/parser.go:41-48 | trimming takes away the blanks at both ends, all of them, and nothing else |
| Printer.ParseOfDocument | internal/filewriter/parser.go:33-131 | printed operations with prose or ignored fences between them parse to themselves: kinds, paths and contents byte for byte, trailing newlines and empty files included |
| Printer.ParsedIsPrintable | internal/filewriter/parser.go:31-32 | success is never zero operations, never one cleaned path twice, and always operations a block can spell |
| Printer.ParserRange | internal/filewriter/parser.go:33-131 | the operation lists the parser can return are exactly the printable ones |
| Compose.ParseConcat | internal/filewriter/parser.go:39-93 | a response whose first half ends at top level: an error there is the error of the whole; otherwise the first block of the second half to repeat a path ends it, at its opening line, unless the second half by itself has ended before; otherwise its operations follow, or its error moves by the lines before it |
| Paths.CleanIdempotent | internal/filewriter/parser.go:76 | cleaning a cleaned path changes nothing |
| Paths.ParseOfRender | internal/filewriter/pathsafe.go:148-156 | a cleaned path, written out and read again, is the same path |
| Paths.CleanMeans | internal/filewriter/pathsafe.go:148-156 | the cleaned form is the one canonical path, rooted if the path is, that leads from every place to where the path leads: names descend, `..` climbs, `.` and empty segments stay |
| Paths.CleanSpelled | internal/filewriter/parser.go:76 | a cleaned path is spelled with single slashes between its segments, and `.` or `/` without any |
| FileTree.WalkOfClean | internal/filewriter/pathsafe.go:148-156 | in a tree without links, whatever a raw path finds its cleaned form finds too |
| Paths.ExtMeans | internal/filewriter/pathsafe.go:121 | the extension is `.e` iff the path ends in it, for every `e` without dots and slashes |
| Paths.LowerLetters | internal/filewriter/pathsafe.go:121 | each of the 26 capitals becomes its small letter, and nothing else changes |
| FileTree.ChainFollowed | internal/filewriter/pathsafe.go:182-201 | a chain of links is resolved iff it has at most 255, and looked up through iff it has at most 40 |
| Gitignore.MatchParts | internal/filewriter/gitignore.go:135-154 | the position loop finds the end the greedy matcher finds, or fails with it |
| Gitignore.GlobMatch | internal/filewriter/gitignore.go:129-161 | the whole matcher is Glob: library match without `**`, greedy parts with it |
| Gitignore.GlobMeaning | internal/filewriter/gitignore.go:127-161 | without three stars in a row: sound; complete when the pattern ends in `**`; with a literal tail complete exactly when the tail's first occurrence in the rest is at its end |
| Gitignore.LiteralTailIncomplete | internal/filewriter/gitignore.go:157-160 | `**a` misses `aba` |
| Gitignore.SplitStarsExact | internal/filewriter/gitignore.go:135 | the parts of a pattern have no `**`, and with `**` between them they are the pattern |
| Gitignore.PlainGlob | internal/filewriter/gitignore.go:130-133 | a pattern without `**` is left to the library, pattern first and name second |
| Gitignore.PathRuleHits | internal/filewriter/gitignore.go:110-116 | a rule with a slash or an anchor hits iff its pattern matches the whole path |
| Gitignore.NameRuleHits | internal/filewriter/gitignore.go:117-123 | any other rule hits iff its pattern matches a name that stands between slashes of the path |
| Gitignore.DirRuleHits | internal/filewriter/gitignore.go:100-108 | a directory rule hits exactly what lies beneath something the same rule without it hits |
| Gitignore.LastRule | internal/filewriter/gitignore.go:90-95 | a further rule decides if it hits, as it is negated or not, and otherwise changes nothing |
| Gitignore.Matches | internal/filewriter/gitignore.go:99-125 | a rule hits iff a candidate (the path, or for a directory rule a proper ancestor) or, for a bare name, one of its segments matches |
| Gitignore.Match | internal/filewriter/gitignore.go:83-97 | a path is ignored iff the last rule that hits it is not a negation |
| PathSafe.RootIsCanonical | internal/filewriter/pathsafe.go:52-68 | the root a worktree is bound to is where all links of the given path lead, if that is a directory; no link leads away from it, and it is its own root |
| PathSafe.RelativeExact | internal/filewriter/pathsafe.go:142-166 | the lexical check accepts exactly the paths that lead, segment by segment, strictly beneath the root (a relative one from wherever it starts), with the way from there as the result; any other is a traversal |
| PathSafe.RelativeOfClean | internal/filewriter/pathsafe.go:142-166 | the parser's cleaned path is judged as the raw one |
| PathSafe.ClimbToExisting | internal/filewriter/pathsafe.go:182-199 | the climb stops at the deepest existing ancestor with the missing names leaf first, or fails where inspection fails |
| PathSafe.ResolveWithin | internal/filewriter/pathsafe.go:175-219 | the loop and the rejoin give the place of root + rel, or a rejection |
| PathSafe.PlaceSound | internal/filewriter/pathsafe.go:167-219 | for every tree with links: an accepted place is the root or beneath it, no existing component of it is a link, its existing ancestors are directories, and it names what root + rel names; and in every later tree that has an entry there and keeps the directories and links of this one, following root + rel leads to the place |
| PathSafe.PlaceIsRootWhen | internal/filewriter/pathsafe.go:204-206 | the place is the root itself iff the path resolves to the root |
| PathSafe.LinkToRootAccepted | internal/filewriter/pathsafe.go:222-227 | and that happens: a link to `.` is accepted |
| PathSafe.PlaceWithoutLinks | internal/filewriter/pathsafe.go:175-219 | without links, exactly the paths whose existing ancestors are directories are accepted (root other than `/`), at root + rel |
| PathSafe.PlaceOfExisting | internal/filewriter/pathsafe.go:201-208 | a path that exists has a place iff following its links leads to the root or beneath it, and that is the place |
| PathSafe.PlaceOfMissing | internal/filewriter/pathsafe.go:182-219 | a missing one has a place iff its parent has, at its own name in the place of its parent (root other than `/`) |
| PathSafe.PlaceOfUninspectable | internal/filewriter/pathsafe.go:185-191 | one that cannot be inspected has none |
| PathSafe.ResolvePath | internal/filewriter/pathsafe.go:100-138 | the checks in their order, with the reason of the first that fails |
| PathSafe.ResolveSound | internal/filewriter/pathsafe.go:94-138 | Resolve accepts exactly the admissible paths (nonblank, lexically inside, contained, no binary extension, not ignored), and the result is contained, safe to open and the same file, also when it is only made later |
| PathSafe.ResolveReasons | internal/filewriter/pathsafe.go:100-138 | the reason and the path of a rejection: the raw path if it is blank or lexically outside, then the relative path if it is not contained, has a binary extension, or is ignored, in that order |
| PathSafe.RelSpelled | internal/filewriter/pathsafe.go:150-156 | the relative path is spelled with single slashes between its segments |
| Writer.ClassifyRecords | internal/filewriter/writer.go:66-112 | a planned operation lies strictly beneath the root, is safe to open and records the target's content and mode; it deletes iff it is told to, writes the content it is given, and creates or modifies as the target exists |
| Writer.PlanExact | internal/filewriter/writer.go:43-118 | a batch has a plan iff every operation is accepted on its own and no two share a target; the plan is the operations' own classifications in order |
| Writer.PlanOrders | internal/filewriter/writer.go:51-114 | each planned operation is what the operation at its place in the batch orders: at the place of its path, a delete iff it is one, otherwise its own content, with the mode of the file or 644 |
| Writer.ClassifyReasons | internal/filewriter/writer.go:66-81 | a path that resolves is refused iff something other than a regular file is there, as that |
| Writer.PlanFails | internal/filewriter/writer.go:51-81 | the error of a batch is that of the first operation that is refused on its own or shares its target with an earlier one, the sharing being noticed first |
| Writer.PlanOfPermutation | internal/filewriter/writer.go:47-118 | a permutation of a batch plans iff the batch does, to the same operations |
| Apply.FileWriter.PlanBatch | internal/filewriter/writer.go:47-118 | the planning loop with its claimed map gives the plan or its error, and fails otherwise only by a fault; the tree is untouched |
| Apply.FileWriter.DryRun | internal/filewriter/writer.go:120-132 | a dry run returns the changes of the plan, the ones a successful Apply from the same tree returns: of each operation its path, whether it creates, modifies, deletes or skips, and its size; it touches nothing |
| Apply.Disk.MkdirAll | internal/filewriter/writer.go:165-167 | one mkdir per missing directory; fails exactly if one of them faults, leaving as many directories as had gone well |
| Apply.Disk.MkdirAllTracked | internal/filewriter/writer.go:143-174 | success: the directories added, shallowest first; failure: a fault or a non-directory in the way, and what is left behind |
| Rollback.DirsInvert | internal/filewriter/apply.go:105-111 | removing the created directories deepest first undoes their creation, whatever directory chain was leaked |
| Rollback.WriteInverts | internal/filewriter/apply.go:140-148 | undoing a write restores content, mode and absence, exactly unless it replaced other content of a file whose mode lacks octal 200, in a process without privilege |
| Rollback.StuckWrite | internal/filewriter/apply.go:142-146 | such a write stays, and the rest of the log still restores everything else |
| Rollback.DeleteInverts | internal/filewriter/apply.go:159-162 | undoing a delete restores content and mode |
| Apply.Disk.Stage | internal/filewriter/apply.go:113-133 | success: the complete file under a staging name that was free; failure at any step: the tree as before, no staging file |
| Apply.FileWriter.ApplyWrite | internal/filewriter/apply.go:96-150 | a write installs its file with missing parents added, and the grown log still restores the start, but for a write that sticks; a failed one leaves a tree that the log rolls back, and a chain above its target exactly if its failing step is a mkdir after the first |
| Apply.FileWriter.ApplyDelete | internal/filewriter/apply.go:152-164 | a delete removes its file and the grown log still restores the start |
| Apply.FileWriter.Rollback | internal/filewriter/apply.go:41-50 | the loop runs the log last in, first out |
| Apply.FileWriter.Apply | internal/filewriter/apply.go:30-94 | success: every operation given is done and reported and nothing else has changed, the tree being the declared update of a prefix-free batch; no target is touched without a live look at the context of its own; failure at any fault or cancellation: the tree is the start but for installed writes that stick and a directory chain, which lies beneath the root and above the target of a leaky write and is there exactly if the failing step is a mkdir after the first of its MkdirAll; without a fault it succeeds iff the batch plans and is prefix-free; a failure with writes done comes from, and names, a later write or, after the last, a file to remove; every forward state keeps its shape, and the state after each write is among them; special mode bits are lost on touched targets, which are targets of the batch |
| Leaks.FailureRestores | internal/filewriter/apply.go:30-34 | after a failure the tree is the start iff the failing step was no mkdir after the first of its MkdirAll and no installed write sticks; a batch that is nowhere leaky never fails at such a mkdir, in one that can stick nowhere nothing sticks, and with both it is all or nothing on every disk |
| Leaks.LeakIsReached | internal/filewriter/writer.go:165-167 | every batch that is leaky at some write fails and leaks on some disk |
| Leaks.DeepWriteLeaks | internal/filewriter/writer.go:165-167 | one such run: a new file two directories down, and the second mkdir fails |
| Leaks.StickIsReached | internal/filewriter/apply.go:142-146 | every batch that can stick at some write fails on each disk that refuses a given step after it, and the write stays |
| Leaks.ConflictFails | internal/filewriter/apply.go:53-63 | a batch with one write target above another fails, and with no step refused it leaves the tree as it was but for writes that stick |
| Batch.FrozenIsStart | internal/filewriter/apply.go:142-146 | nothing sticks iff every write over a file that cannot be reopened rewrites what it held |
| Batch.FinalDeclared | internal/filewriter/apply.go:53-75 | a prefix-free batch yields exactly the declared update: targets hold their content with old mode or 0644, deleted ones are gone, missing parents are directories, all else is unchanged |
| Batch.FinalDone | internal/filewriter/apply.go:53-75 | told by the operations given to Apply: after a prefix-free batch every write is found at its path with its own content, every delete's target is gone (but for a directory made for a write beneath a missing one), and nothing else has changed but for directories above new files |
| Batch.DeclaredUnique | internal/filewriter/apply.go:53-75 | the declared update determines the tree, from the set of planned operations alone |
| Batch.OrderIrrelevant | internal/filewriter/apply.go:53-75 | every permutation of a batch gives the same tree |
| Batch.WrittenIsFound | internal/filewriter/apply.go:96-138 | after a prefix-free batch, following root and the path a write was given leads through all links to its place, and there is the content that operation was given, with the mode the file had or 644 |
| Batch.PrefixFreeUnblocked | internal/filewriter/apply.go:53-63 | in a prefix-free batch no write finds a file in place of a parent or a directory in place of its target |
| Batch.TargetsAreWhole | internal/filewriter/apply.go:53-75 | in every forward state a target is in its complete old or new state, but for a target that did not exist: a staging file if it has a staging name and the batch stages a write in its directory, or a directory if the batch comes to a write beneath it |
| Batch.FinalAsAsked | internal/filewriter/apply.go:53-75 | a prefix-free batch leaves every target as asked, exactly unless it deletes what is missing and writes beneath it: then a directory is there |
| Batch.MadeBefore | internal/filewriter/apply.go:53-63 | the write that makes a directory at a write target comes before the write of that target |
| Batch.MidwayShape | internal/filewriter/apply.go:98-138 | every state inside an installation has that shape, and no delete happens before every write is installed |
| Batch.DeletingShape | internal/filewriter/apply.go:65-75 | every state of the delete phase has that shape |
| Moments.DirectoryIsSeen | internal/filewriter/apply.go:98-104 | when nothing is refused, Apply passes through a state with a directory at a target that did not exist iff the batch comes to a write beneath it, and such a state is neither as before nor as asked |
| Moments.StagingNameIsSeen | internal/filewriter/apply.go:113-118 | whenever the batch stages a write in the directory of a missing target with a staging name, an empty file can stand there |
| Executor.Executor.Run | internal/filewriter/executor.go:169-247 | the calls are the tier with the standard prompt, the tier with the strict one and the next tier, if any, with the strict one, each after a live look at the context; the first reply that parses is accepted and is the only batch handed to the writer; success: every operation in that reply is done and reported, with tier, attempts and metrics; failure: cause, attempts and tier, and the tree as before but for what a failing Apply leaves; without a fault it succeeds iff the first reply to parse plans and is prefix-free |
| Executor.Executor.Generate | internal/filewriter/executor.go:195-218 | the loop over the ladder stops at the first reply that parses, with a parse failure recorded for each before it, or with the cause that ends the run |
| Executor.Executor.Finish | internal/filewriter/executor.go:220-238 | one batch, applied or failed, with the events of either and what a failure leaves |
| Executor.Executor.RecordChanges | internal/filewriter/executor.go:249-258 | a phantom delete for a skipped change, otherwise a file and its span, in order |
| Executor.MetricsAddUp | internal/filewriter/executor.go:249-258 | every change is counted once |
| Executor.EveryOpIsCounted | internal/filewriter/executor.go:249-258 | files and phantom deletes add up to the operations of the batch |
| Executor.EventsInOrder | internal/filewriter/executor.go:249-258 | change by change in order: a phantom delete of the tier, or a file with tier, complexity and operation and then its span with path, operation and size |
| Bucket.CompactTimes | internal/policy/bucket.go:48-55 | compaction inside the array that is being read keeps exactly the recent times, in order |
| Bucket.CompactSpends | internal/policy/bucket.go:91-99 | likewise for spends, with their sum |
| Bucket.TokenBucket.CheckRate | internal/policy/bucket.go:41-64 | the new logs, the last-seen time and the answer of a rate check |
| Bucket.TokenBucket.CheckTokens | internal/policy/bucket.go:68-79 | the new log and the answer of a token check |
| Windows.RateRefinesHistory | internal/policy/bucket.go:41-64 | the pruned log decides like the full history: accept iff fewer than the limit of accepted calls lie in the last 60 seconds |
| Windows.MinuteHoldsLimit | internal/policy/bucket.go:41-64 | every window shorter than a minute, so every half-open minute, holds at most the limit of accepted calls |
| Windows.ClosedMinuteHoldsMore | internal/policy/bucket.go:51 | a closed minute can hold one more |
| Windows.WaitingGuaranteesAcceptance | internal/policy/bucket.go:57-60 | after a refusal, waiting the announced seconds with nothing else accepted guarantees acceptance |
| Windows.PruningKeeps | internal/policy/bucket.go:46-101 | pruning keeps, in order, the times and spends after the cutoff, and charges for those |
| Windows.RetryAfterMeans | internal/policy/bucket.go:58 | the announced seconds cover the time that is left, and one second fewer would not exceed it |
| Overshoot.WaitingAdmitsExactly | internal/policy/bucket.go:68-79 | after a refusal for tokens with nothing spent since, a later check admits iff the spends kept at the refusal that are then less than an hour old stay below the limit; after waiting as told those gone are exactly the ones up to a second after the oldest |
| Overshoot.WaitingReleasesOldest | internal/policy/bucket.go:72-77 | waiting as told releases at least the oldest spend |
| Overshoot.WaitingMaySuffice | internal/policy/bucket.go:72-77 | a refusal after which waiting as told is enough |
| Overshoot.WaitingMayNotSuffice | internal/policy/bucket.go:72-77 | and one after which it is not |
| Registry.Registry.GetOrCreateSession | internal/policy/registry.go:57-66 | the session's bucket, new if there was none; the others unchanged |
| Registry.Registry.CheckSession | internal/policy/registry.go:70-89 | rate first, then tokens, on the session's own bucket; the others unchanged |
| Registry.SessionMeans | internal/policy/registry.go:70-89 | rate-limited iff the last 60 seconds hold the limit, otherwise out of tokens iff the last 3600 hold theirs; with the retry time of the oldest and the state each answer leaves |
| Registry.DeductMeans | internal/policy/registry.go:92-95 | a deduction is appended and does not mark the session as seen, but creates one that was not there, seen now |
| Registry.Registry.DeductSession | internal/policy/registry.go:92-95 | a deduction in the session's own bucket |
| Registry.Registry.Sweep | internal/policy/registry.go:169-178 | the loop deletes exactly the sessions idle for longer than the idle time |
| Registry.SweepExact | internal/policy/registry.go:169-178 | a session stays, as it is, iff it was last seen no longer ago than the idle minutes |
| Eviction.EvictionIsInvisible | internal/policy/registry.go:169-178 | with an idle time of at least a minute, a registry with sweeps anywhere gives every session the same rate answers, waiting times included, as one that never evicts |
| Eviction.InvisibleIff | internal/policy/registry.go:169-178 | and only then |
| Eviction.RegistryRefinesHistory | internal/policy/registry.go:57-89 | evicting or not, a call is let in iff fewer than the limit of its session's accepted calls lie in the last minute |
| Race.LetInIsHistory | internal/policy/registry.go:57-89 | with calls in two steps and sweeps anywhere, if no call loses the bucket it holds, the calls let in are those of the full-history rule with one step a call |
| Race.UndisturbedMinuteHoldsLimit | internal/policy/registry.go:57-89 | so every window shorter than a minute lets in at most the limit of a session's calls |
| Race.LostBucketLetsInOneMore | internal/policy/registry.go:169-178 | with any limit and idle time, a run in which one call loses its bucket and limit + 1 calls are let in at one instant |
| Overshoot.TokensRefineHistory | internal/policy/bucket.go:68-101 | a token check measures everything spent in the last hour, pruned log or not |
| Overshoot.OvershootBounded | internal/policy/registry.go:70-95 | with at most k requests in flight of at most M tokens each and no eviction, the tokens of any hour stay below limit + k*M |
| Overshoot.EvictionForgetsSpending | internal/policy/bucket.go:82-86 | whatever the limits and the idle time, an evicted session can overspend its hour |
| TierBudget.RemainingBounded | internal/policy/tierbudget.go:46-82 | in every interleaving without marks, limit minus all tokens ever deducted <= remaining <= limit |
| TierBudget.StoreMissesUnlogged | internal/policy/tierbudget.go:46-82 | at each prune's store the true charge of 24 hours differs from limit - remaining by exactly the deductions skipped or still pending, marks or not |
| TierBudget.MarksErased | internal/policy/tierbudget.go:64-98 | erasing all marks changes nothing but the counter, and not even that from the next store on |
| TierBudget.MarkedFails | internal/policy/tierbudget.go:39-44 | from a mark until the next store every check fails |
| TierBudget.PassesExactly | internal/policy/tierbudget.go:39-98 | in every interleaving a check passes iff the balance is positive: the limit, less each deduction; at a prune's store the limit less what is logged of the last 24 hours; nothing at a mark |
| TierBudget.PassesUntilSettled | internal/policy/tierbudget.go:39-61 | until a store or a mark the counter falls by exactly what is deducted, so from the start a check passes iff less than the limit has been |
| TierBudget.SkippedIsForgotten | internal/policy/tierbudget.go:52-60 | a deduction that finds a prune holding the lock is forgotten |
| TierBudget.Budget.SumLog | internal/policy/tierbudget.go:67-76 | the loop keeps the entries of the last 24 hours and sums them |
| TierBudget.Budget.Deduct | internal/policy/tierbudget.go:48-61 | uninterrupted, a deduction is its four steps: the counter falls by the tokens, and the log grows by them unless the lock is taken |
| TierBudget.Budget.Prune | internal/policy/tierbudget.go:64-82 | uninterrupted, a prune is its four steps, which keep the log of 24 hours and store the limit less its sum, or nothing when the lock is taken |
| Framing.AtoiOfItoa | internal/lsp/session.go:233 | a length written in decimal is read back |
| Framing.AtoiMeans | internal/lsp/session.go:282 | an optional sign and digits are read as their decimal value, kept within 64 bits; anything else as 0 |
| Framing.FrameSpelled | internal/lsp/session.go:233-241 | a frame is `Content-Length: `, the decimal length of the body, two line ends and the body |
| Framing.ReadMeans | internal/lsp/session.go:266-295 | one message, whatever its header lines: the last Content-Length before the first blank line decides; none, no number, or too little behind it is an error, a negative or unallocatable one a panic |
| Framing.NoBlankLine | internal/lsp/session.go:269-276 | without a blank line nothing is read |
| Framing.CutFrameIsBroken | internal/lsp/session.go:266-295 | a frame cut short anywhere is not read |
| Framing.Reader.ReadMessage | internal/lsp/session.go:266-295 | the header loop reads one frame as Read says, and leaves the rest of the stream |
| Framing.FrameIsRead | internal/lsp/session.go:228-295 | a frame is read back, whatever its body looks like, whatever follows and whatever other fields stand beside the length, iff the body is not empty and can be allocated |
| Framing.FramesAreRead | internal/lsp/session.go:228-295 | the concatenated frames of any bodies are read as those bodies, in order |
| Framing.FramesThenRest | internal/lsp/session.go:228-295 | frames in front of anything are read first, in order, and the rest as if it stood alone |
| Framing.NegativeLengthPanics | internal/lsp/session.go:287-291 | every negative length, whatever other fields stand beside it, is not refused but panics |
| Session.OwnResponses | internal/lsp/session.go:179-216 | in every interleaving a request receives no response but one that was read with its own id, payload and all, and ids count up from 1 |
| Session.OutcomeHasCause | internal/lsp/session.go:193-215 | in every interleaving a request ends as something that happened makes it end: with a response that was read, as it was read, and received; a failed marshal or write; its own timeout or cancellation; or the end of the reader |
| Session.OutcomeIsFinal | internal/lsp/session.go:203-216 | and keeps that outcome, whatever happens next |
| Session.ReturnsItsOutcome | internal/lsp/session.go:187-191 | it returns it once the mutex is free, and its id is pending no more |
| Session.Session.Await | internal/lsp/session.go:203-215 | the select of a waiting request: nothing iff nothing is ready, otherwise one of what is, a response being the one in its channel |
| Session.PendingExactly | internal/lsp/session.go:182-191 | pending holds exactly the ids registered and not yet returned |
| Session.ReaderWaitsExactly | internal/lsp/session.go:252-260 | if no id is answered twice, the reader never meets a full channel: it waits exactly while it has a message to route and a write to stdin holds the mutex |
| Session.WriteHoldsReader | internal/lsp/session.go:234-256 | a reader waiting for the mutex goes on iff that write ends |
| Session.ReaderHeld | internal/lsp/session.go:234-256 | while it does not end, whatever else happens, the reader reads and delivers nothing |
| Session.AnswerWaitsBehindWrite | internal/lsp/session.go:203-258 | with a server that answers everything once, a request can time out although its answer has been read |
| Session.ServerReadsWhatWasSent | internal/lsp/session.go:228-242 | in every interleaving of requests and notifications stdin is read as the bodies whose writes began, whole and in order, once the last write has ended and unless one stopped short |
| Session.Session.Send | internal/lsp/session.go:228-242 | uninterrupted, a send is its steps, succeeds iff the message can be marshalled and the pipe takes the whole frame, and otherwise leaves as much of it as the pipe took |
| Session.RunConserved | internal/lsp/session.go:244-263 | if no id is answered twice, an answer read is in exactly one place: with the reader, with its request, or dropped |
| Session.OnlyTheGoneMissTheirAnswer | internal/lsp/session.go:252-260 | if the server answers only what it was sent, an answer is dropped only after its requester has returned |
| Session.BlocksExactly | internal/lsp/session.go:254-259 | a step brings the reader to a full channel iff it looks up a pending request that already holds a response |
| Session.UnblocksExactly | internal/lsp/session.go:203-215 | a reader at a full channel goes on iff that request receives |
| Session.SecondAnswerBlocksForever | internal/lsp/session.go:257-259 | from any state in which a request waits with its answer undrained: a second answer to its id and a timeout, and whatever happens next the reader reads no more |
| Session.AnsweredOnce | internal/lsp/session.go:179-204 | every id can come to such a state |
| Session.Session.ReadLoop | internal/lsp/session.go:244-263 | the loop over a stream is the sequence of its routings, up to the first message that cannot be read or a full channel |
| Session.AnswersArrive | internal/lsp/session.go:244-301 | framed answers with distinct ids, in any order, end up with the requests pending for them, and no other request is touched |
| Session.AnswersReceived | internal/lsp/session.go:203-263 | and a request that still waits ends with exactly the response the server framed for it |
| Swap.ServedIsUnsignalled | internal/modelmanager/swap.go:38-145 | in every interleaving, a record not marked as swapping names a process that was never signalled; between swaps no record is left marked |
| Swap.NoProcessIsLost | internal/modelmanager/swap.go:38-145 | if watchers finish before the next install of their tier, every running unsignalled process is the resident or the one being started, so there is at most one |
| Swap.LostExactlyByStaleWatcher | internal/modelmanager/swap.go:138-145 | a step loses a running process iff it is a watcher that finds its own tier, but another running process, in the record |
| Swap.LateWatcherLosesProcess | internal/modelmanager/swap.go:138-145 | a run of two loads of one tier in which that happens, and a third model starts beside the lost one |
| Swap.AnswersFit | internal/modelmanager/swap.go:15-36 | EnsureLoaded answers with the tier it was asked for, and a request without an answer is looking, queued or being served |
| Swap.AnswerHasCause | internal/modelmanager/swap.go:15-104 | in every interleaving an answer comes from something that happened: a record is that of a process started for the tier, a failure of an infeasible, unstarted or unhealthy model |
| Swap.AnswerIsFinal | internal/modelmanager/swap.go:15-36 | an answer, once given, stays |
| Swap.GivesUp | internal/modelmanager/swap.go:30-35 | a caller that waits can give up at any time, and nothing else changes |
| Swap.AskedAtOnce | internal/modelmanager/swap.go:15-21 | what the look at the record tells a caller of EnsureLoaded, whatever is queued and wherever the swap is: the record, iff it is of the tier and not being replaced, and then its process serves the tier and was never signalled |
| Swap.QueuedOrRefused | internal/modelmanager/swap.go:23-28 | what the queue then tells it: a place if nobody had it, and otherwise a refusal because another request has it |
| Swap.Manager.EnsureLoaded | internal/modelmanager/swap.go:15-36 | uninterrupted: the record iff it is of the tier and not being replaced, else a place in an empty queue, else a refusal |
| Swap.QueuedThoughServed | internal/modelmanager/swap.go:17-28 | a run in which the model is loaded between the two, and the request is queued all the same |
| Swap.Manager.StopResident | internal/modelmanager/swap.go:52-67 | mark, signal and forget the resident, as steps and as a new state |
| Swap.Manager.StartModel | internal/modelmanager/swap.go:81-110 | a healthy model becomes the resident and is watched, and its record answers the request; one that is not is signalled and forgotten, and the request fails |
| Swap.PollHealth | internal/modelmanager/swap.go:114-135 | healthy iff a poll that starts before the deadline is answered with no pause before it cancelled |

## Left out

- Loading `.gitignore` (`internal/filewriter/gitignore.go:42-79`) and the rest of `NewPathValidator`: the rules and the
  extensions are given. `filepath.Match` is an arbitrary predicate.
- `TrimSpace` on bytes: only the ASCII spaces are trimmed. Go also trims the Unicode spaces U+0085, U+00A0 and others.
- `ToLower` of file extensions covers ASCII letters.
- Names that the kernel refuses (a NUL byte, a name that is too long) and directories that cannot be read: `Lstat` then
  fails (`internal/filewriter/pathsafe.go:185-191`) and the source rejects the path; the model takes it for absent.
- Races between a path check and its use, hard links, umask, and reads of a file that changes meanwhile.
- `os.CreateTemp` retrying other names: a name that is taken counts as a fault.
- `Batch.entries`, the before and after contents that a batch keeps for a diff.
- Prompt rendering: a model's reply is an arbitrary function of the call, the rung and the input.
- Apply.FileWriter.Apply: does not promise the old tree after every failure, because the code leaks directories and cannot
  undo some writes; the difference is stated exactly.
- Overflow of 64-bit token counters and of the request counter.
- Floating-point rounding in `RetryAfterSeconds`.
- `Registry` methods that delegate to a tier budget, `SessionCount` and the sweep ticker.
- JSON: a body decodes by an arbitrary function. A body too long to allocate is one of more than 2^48 bytes.
- Starting and initializing a language server, the table of open files in `EnsureFileOpen`, and the atomic counters
  `inFlight` and `lastUsed`.
- Interference inside the methods of `TierBudget.Budget`, `Session.Session` and `Swap.Manager`: they run without
  interruption, and the step functions carry the theorems about interleavings.
- Swap: `Shutdown`, the choice of layer-split arguments, API keys, and health polls over HTTP. A process that is sent
  SIGTERM counts as stopped from then on, whether or not it exits.
- The HTTP, REST and MCP handlers, routing, telemetry and remote clients.
