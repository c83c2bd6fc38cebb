# Rogatio: verified behaviour of the rule store, installer and compiler helpers

A Dafny 4.11 project that models the parts of Rogatio whose correctness does not show from reading one
function: the optimistic project store, the rule installer and its shared index, the match history, the native
runtime session, the scanners over regular-expression text, and the importers and rewriters. Check it with
`dafny verify dfyconfig.toml`.

How the files hang together:

- `Listing`: "exactly those, in their order", by positions; used wherever a selection is specified.
- `RegexSyntax`, `PatternReading`, `PacSafety`, `PacSafetyProofs`, `SourceMatch`, `SourceMatchProofs`,
  `LiteralLanguage`, `SourceMeaning`: a tree of patterns with its printer and its matching relation, the
  index-driven scanners as methods, and the proofs that the scanners decide what the tree says.
- `MatchHistory`: the bounded ring, its task queue and the logging switch as a state machine.
- `Envelope`, `Builders`, `BuilderEffects`, `Repository`, `RepositoryTheorems`, `RepositoryOutcomes`: the stored
  envelope and its reader, what each call builds and what that does, any number of callers interleaved over the
  locked compare-and-swap, what every run keeps, and why each call ends as it does.
- `Snapshot`, `SnapshotProofs`, `Decimal`: the depth-first copy over a heap graph that may share or cycle.
- `MatchIndex`, `RuleIds`, `DnrInstaller`, `InstallTheorems`, `InstallMeaning`: rule ids, one install against a
  browser that may refuse any call, and the index several writers rewrite under one lock.
- `NativeRequests`, `NativeSession`, `SessionContents`, `NativeStart`: the request table of the native port, and the
  staged start with its rollbacks over three session-rule bands.
- `QueryTransform`, `QueryMeaning`, `Selector`, `ProjectModel`, `RequestlyImport`, `ProjectMerge`, `Identity`, `ProposalRepair`,
  `JsonPointer`, `PointerStore`: the rewriters and their ordering, identity and conservation guarantees.

Code that changes things step by step is a method with its loops, or a class, proved against a function; the laws
are lemmas about that function or about runs of a state machine whose steps are the awaited calls. Besides the
laws, each such function has a lemma that says what it computes without it: position by position, id by id, or by
the arguments of the call.

Where the code and its own comments differ, or a promise does not hold, the model follows the code:

- `pac-safety.ts` lines 5-8 read as if every unbounded quantifier inside a quantified group were refused; the
  code looks at the body's own depth, so `((a+))+` is accepted (`PacSafetyProofs.NestedRepeatAccepted`).
- `importProject` does not check the id its generator returns, unlike the other calls; an id out of bounds is
  stored and the envelope is then refused by its own reader (`Builders.ImportedIdUnchecked`, both directions).
- `quantifierAt` takes a literal `{` for an unbounded quantifier, and `skipQuantifier` then passes over
  everything up to the next `}`. What is decided then is `PacSafetyProofs.ScannerDecides`; the plain structural
  reading holds when no such brace stands right behind a group (`PacSafetyProofs.ScannerDecidesStructure`), and
  fails in both directions otherwise (`PacSafetyProofs.LiteralBraceRefused`, `PacSafetyProofs.LiteralBraceHides`).
- With logging off, rows from an earlier worker stay exactly when the start-up read of the logging switch failed
  and nobody toggled logging or cleared since (`MatchHistory.KeptIffStartupFailed`).
- A failed read of the match index counts as empty, so the next rewrite loses the other bands
  (`MatchIndex.FailedReadDropsForeignBands`).
- `dnr.ts` line 454 says the prior index is preserved when every add fails; with an orphan to remove it is
  rewritten all the same, and a live rule loses its entry (`InstallTheorems.EveryAddRefused`,
  `InstallTheorems.LiveRuleLosesItsEntry`).
- `stop` drops the native port without closing it, and the old port's disconnect handler later fails the
  requests of the next port (`NativeRequests.StalePortFailsNewRequests`). A request is exposed to that exactly
  when another port's disconnect is still outstanding (`NativeRequests.NewRequestExposedIff`,
  `NativeRequests.DisconnectsFailOwnIff`).
- An accepted `runtime.project.set` already starts the host. When the runtime's own start is refused after that,
  `startNativeSession` removes its markers but does not stop, so the host runs on over an open port
  (`NativeStart.RefusedStartLeavesHostRunning`; exactly which refusals leave it stopped:
  `NativeStart.EarlyRefusalStopped`).
- `startNativeSession` throws for a rule whose source has no browser form, after the runtime was started, and
  then undoes nothing (`NativeStart.UnformedRuleThrows`, `NativeStart.WellStartsIffFormed`).
- Response-body redirects are installed for disabled groups too (`NativeStart.DisabledGroupsStillRespond`).

Assumptions shared by several modules: storage calls are single atomic steps that may fail, and a failing swap
had no effect; a refused browser update has no effect; records are finite maps without inherited members; a
character is a Unicode scalar value. Functions of other packages (URL parser, schema validation and migration,
control-character test, log sanitisers, rule mapping) are parameters, with the laws they need as preconditions.

## Model

| member | source | states |
|---|---|---|
| `PacSafety.SkipCharacterClass` | packages/compiler/src/pac-safety.ts:88-100 | the loop returns the index after the class, as the class reader defines it |
| `PacSafety.SkipGroup` | packages/compiler/src/pac-safety.ts:102-129 | the loop returns the index of the closing parenthesis of the group, or the length |
| `PacSafety.QuantifierAt` | packages/compiler/src/pac-safety.ts:65-78 | nothing exactly past the end or at a character that starts no quantifier; `*` and `+` are unbounded, `?` is bounded, and `{` is bounded exactly when digits, or digits, a comma and digits, and then `}` follow it |
| `PacSafety.SkipQuantifier` | packages/compiler/src/pac-safety.ts:80-86 | one past `*`, `+`, `?`; behind `{` right after the first `}`, or at the end of the text when there is none; otherwise it stays |
| `PacSafety.ContainsAlternation` | packages/compiler/src/pac-safety.ts:131-147 | true exactly when a bar occurs outside escapes and classes, at any depth |
| `PacSafety.ContainsUnboundedQuantifier` | packages/compiler/src/pac-safety.ts:149-174 | true exactly when an unbounded quantifier occurs at the body's own depth, nested groups skipped |
| `PacSafety.ScanPacSafety` | packages/compiler/src/pac-safety.ts:20-63 | the recursive scan ends on every text and answers as the recursive definition; texts above 4096 are unsafe |
| `PacSafetyProofs.ScannerDecidesStructure` | packages/compiler/src/pac-safety.ts:20-174 | on the printed form of every well-formed pattern tree up to the limit that has no literal brace right behind an unquantified group: safe iff no group opens with `(?`, no quantified group has an alternation inside at any depth, and no unboundedly quantified group has an unbounded quantifier or a literal brace at its own depth |
| `PacSafetyProofs.ScannerDecides` | packages/compiler/src/pac-safety.ts:20-174 | on the printed form of every well-formed pattern tree, literal braces included: the scan agrees with the structural judgement in which a literal brace behind a group is its unbounded quantifier and the text up to the next `}` is passed over |
| `PacSafetyProofs.IsPacSafePrinted` | packages/compiler/src/pac-safety.ts:13-63 | the running scanner decides, up to the length limit, exactly that judgement on every pattern, which without a literal brace behind a group is the plain structural one |
| `PacSafetyProofs.NestedRepeatAccepted` | packages/compiler/src/pac-safety.ts:5-8 | the wider reading of the header comment is false: `((a+))+` is accepted |
| `PacSafetyProofs.LiteralBraceRefused` | packages/compiler/src/pac-safety.ts:65-78 | a group with an alternation and a literal brace right behind it is refused although nothing is quantified |
| `PacSafetyProofs.LiteralBraceHides` | packages/compiler/src/pac-safety.ts:80-86 | a group, a literal brace, a repeated group with an alternation and a `}` are accepted together, the repeated group unread |
| `PatternReading.PrintedReads` | packages/compiler/src/pac-safety.ts:20-174 | the printed form of a tree lies in the text as the tree says, which the scanner proofs read from |
| `SourceMatch.DecodeLiteralRegexBody` | packages/compiler/src/source-match.ts:86-119 | the loop gives the decoded text, or nothing when the body is not literal or decodes to nothing |
| `SourceMatch.HasTopLevelAlternation` | packages/compiler/src/source-match.ts:196-224 | the loop finds a bar outside every group, class and escape |
| `SourceMatch.ExactUrlFromSource` | packages/editor/src/editor.ts:628-653 | the editor's loop decodes the source and offers the URL only if writing it again gives the same source |
| `LiteralLanguage.AcceptedMatchesOneString` | packages/compiler/src/source-match.ts:86-119 | an accepted body, read as any pattern it prints, matches anchored exactly the decoded text and nothing else, whatever escapes and classes mean |
| `LiteralLanguage.AcceptedExactlyLiteral` | packages/compiler/src/source-match.ts:86-119 | a body is accepted exactly when it is the printed form of a literal pattern with some text |
| `SourceMatchProofs.AcceptedIsPrinted` | packages/compiler/src/source-match.ts:86-119 | every accepted body is the printed form of a pattern tree |
| `SourceMatchProofs.DecoderReadsLiteral` | packages/compiler/src/source-match.ts:86-119 | on the printed form of any tree the decoder returns the tree's text exactly when the tree is literal |
| `SourceMeaning.LiteralsMean` | packages/compiler/src/source-match.ts:84-119 | the decoder takes nothing as nothing, a character that is not special as itself, an escaped special one as that character, a group as what it holds, and one body after another as both texts |
| `SourceMeaning.ReadMeans` | packages/compiler/src/source-match.ts:62-82 | a URL is read out of a source exactly when the source is an anchored pattern on the URL whose body the decoder takes as that URL, an http or https one without credentials in its serialized form |
| `SourceMeaning.WrittenMeans` | packages/editor/src/url.ts:7-41 | a text gets a pattern exactly when it is trimmed, without control characters, such a URL with an origin and no fragment, and the pattern has at most 2048 characters; the pattern is the anchored, escaped serialized URL |
| `SourceMeaning.EscapeMeans` | packages/editor/src/url.ts:34-40 | exactly the special characters get a backslash |
| `LiteralLanguage.TopLevelAlternationIsBranching` | packages/compiler/src/source-match.ts:196-224 | on the printed form of any pattern: a top-level bar is found exactly when the pattern has more than one branch |
| `LiteralLanguage.EscapeRoundTrip` | packages/editor/src/url.ts:34-40 | escaping any non-empty text gives a body that decodes to it |
| `LiteralLanguage.ExactUrlRoundTrip` | packages/editor/src/url.ts:7-41 | `literalUrl` and `exactUrlFromSource` both recover the serialized URL from the pattern written for it |
| `LiteralLanguage.ExactUrlIffWritten` | packages/editor/src/editor.ts:628-653 | `exactUrlFromSource` offers a URL exactly for the pattern that is written for that URL |
| `LiteralLanguage.LiteralUrlMatchesOnlyItself` | packages/compiler/src/source-match.ts:62-82 | a URL read by `literalUrl` is the one text its pattern matches |
| `MatchHistory.ParseMatchHistoryEntries` | packages/extension/src/match-history.ts:154-173 | the newest rows that survive the sanitiser, at most 100 |
| `MatchHistory.AppendMatchHistory` | packages/extension/src/match-history.ts:179-193 | the stored rows and the new one, at most 100, a bad new row ignored |
| `MatchHistory.AppendDropsOldest` | packages/extension/src/match-history.ts:179-193 | on clean rows an append adds one row at the end and drops the oldest past the cap |
| `MatchHistory.AppendMeans` | packages/extension/src/match-history.ts:154-193 | on any rows: an append gives the last hundred of the old rows and the new one, cleaned together, malformed ones left out |
| `MatchHistory.LoggingOffKeepsNothing` | packages/extension/src/match-history.ts:64-74 | over every interleaving of matches, clears, toggles, events and task steps: at rest with logging off the history is empty (unless the start-up read failed), and never above 100 rows |
| `MatchHistory.FailedStartupKeepsRows` | packages/extension/src/match-history.ts:381-390 | an input for that: after a failed start-up read an old row stays although logging is off |
| `MatchHistory.KeptIffStartupFailed` | packages/extension/src/match-history.ts:381-390 | over every run from a fresh worker that comes to rest with logging off: rows are left exactly when the start-up read failed, there were rows before, and nobody toggled logging or cleared since |
| `MatchHistory.QuietRunsEndEmpty` | packages/extension/src/match-history.ts:267-294 | when nothing new arrives the worker can always go on, comes to rest within a bound, and with logging off has kept nothing |
| `MatchHistory.InternalStepsEnd` | packages/extension/src/match-history.ts:67-74 | every internal step uses up some of that bound |
| `MatchHistory.LoggingOnKeepsOrder` | packages/extension/src/match-history.ts:254-294 | with logging on, what is stored plus what is still queued is always the requested appends and clears in order |
| `MatchHistory.DrainedHistory` | packages/extension/src/match-history.ts:254-294 | once the queue is drained the stored rows are exactly those requests applied in order |
| `MatchHistory.DrainedIsLastHundred` | packages/extension/src/match-history.ts:254-294 | with logging on, from a drained queue to a drained queue: the stored rows are the last hundred of all that matched since the last clear |
| `MatchHistory.AnythingMayCome` | packages/extension/src/match-history.ts:254-294 | matches, clears and toggles may come at any moment |
| `Envelope.EnvelopeReadBack` | packages/browser-core/src/migrate.ts:215-263 | a written envelope that fits the checks is read back unchanged |
| `Envelope.ReadingIsStable` | packages/browser-core/src/migrate.ts:170-263 | whatever the reader accepts fits the checks, and is read the same after it is written back |
| `Envelope.EnvelopeIsRead` | packages/browser-core/src/migrate.ts:104-263 | for every stored value: it is read as an envelope exactly when it says so field by field, version-1 envelopes and projects and unusable file roots included |
| `Envelope.ReadableOnlyIfGoodIds` | packages/browser-core/src/migrate.ts:170-213 | a written envelope is readable only if every project id in it is within bounds |
| `Builders.CommitKeeps` | packages/browser-core/src/repository.ts:94-442 | every commit of every call keeps the envelope invariant: keys are ids, at most 64 projects, distinct names, names match the data, enabled groups are distinct groups of the project, active project stored or none exactly when empty |
| `Builders.CommitStepsRevisions` | packages/browser-core/src/repository.ts:94-442 | a commit leaves a surviving project alone or raises its revision by one; a save does the latter from the revision it expects |
| `BuilderEffects.BuilderMeaning` | packages/browser-core/src/repository.ts:94-442 | every builder, on every envelope that keeps the invariant: it commits exactly when there is no reason not to, and then does what the arguments say and returns the stored project or envelope; otherwise its code or conflict names the reason; it never throws |
| `BuilderEffects.RefusedMeans` | packages/browser-core/src/repository.ts:86-130 | a call is refused before the first read exactly for an id out of bounds that the caller gave or `createProject` generated, or a mock file root that is neither empty nor a fit rooted path |
| `BuilderEffects.ThrowsMeans` | packages/browser-core/src/repository.ts:202-224 | on any envelope: only `setGroupEnabled` can throw, exactly for a stored project whose groups are no list or have a null entry before any group with the id |
| `Builders.ImportedIdUnchecked` | packages/browser-core/src/repository.ts:94-118 | an import that must create a project stores any generated id; the envelope stays readable exactly when that id is within bounds |
| `Repository.InvStep` | packages/extension/src/chrome.ts:173-216 | each step of reading, locking, comparing and writing keeps the invariant that ties storage, lock queue, callers and log |
| `RepositoryTheorems.CallsAreLinearizable` | packages/browser-core/src/repository.ts:483-539 | over every interleaving each successful call took effect at exactly one swap after it was made, with its builder's value on the envelope stored then, failed calls at none, and the stored values form one chain |
| `RepositoryTheorems.SwapTakesEffect` | packages/browser-core/src/repository.ts:483-516 | swap by swap: who swapped, what it read, what its builder made of it, and what it returned |
| `RepositoryTheorems.ConflictsAreReal` | packages/browser-core/src/repository.ts:518-539 | a conflict result carries a project that was stored at some moment during the call |
| `RepositoryTheorems.SomeoneCanGoOn` | packages/extension/src/chrome.ts:173-216 | the lock never wedges: while a call is not done, it or the head of the lock queue can step |
| `RepositoryTheorems.StoredEnvelopesValid` | packages/browser-core/src/repository.ts:146-442 | from empty storage, with generated ids within bounds, every stored value is read again and keeps the envelope invariant |
| `RepositoryTheorems.SwapStepsRevisions` | packages/browser-core/src/repository.ts:202-244 | each swap changes a surviving project only by one revision; a save exactly so |
| `RepositoryOutcomes.SwapHasEffect` | packages/browser-core/src/repository.ts:202-244 | swap by swap, in runs from empty storage: the next stored envelope differs from the one before exactly as the arguments of the call say, all other projects unchanged, and the caller gets the stored project or envelope |
| `RepositoryOutcomes.UnobstructedTakesEffect` | packages/browser-core/src/repository.ts:483-516 | a call with nothing in its way, left alone, succeeds and does what its arguments say |
| `RepositoryOutcomes.UndisturbedOnlySucceeds` | packages/browser-core/src/repository.ts:483-516 | from any state with the lock free, at any attempt: a call that would commit, with nobody else stepping and no throwing access, can only end as read, compared and written, with its builder's value and the cell as its builder left it |
| `RepositoryOutcomes.ResultsHaveReasons` | packages/browser-core/src/repository.ts:483-539 | over every run every result has its reason: a swap of its own; a refusal at the start; a throwing access or an unreadable value during the call; what its builder said on a version stored during the call; or three lost swaps, one for a save, each read for anew and lost to another caller or a throwing access |
| `RepositoryOutcomes.EveryCallIsAnswered` | packages/browser-core/src/repository.ts:483-539 | in runs from empty storage no call is rejected, and every failure or conflict is explained by the arguments and a stored envelope, a refusal, a throwing access or lost swaps |
| `RepositoryTheorems.NoLostSave` | packages/browser-core/src/repository.ts:202-244 | of two saves expecting the same revision both can succeed only if the project was removed in between |
| `Snapshot.SnapshotOwnData` | packages/browser-core/src/migrate.ts:17-102 | the copy with its mutable ancestor set gives what the recursive definition gives and restores the set on every exit |
| `Snapshot.SnapshotNode` | packages/browser-core/src/migrate.ts:26-102 | one object: refused on sight, or copied field by field with itself among the ancestors |
| `Snapshot.SnapshotItems` | packages/browser-core/src/migrate.ts:39-68 | the array loop: length, index keys and elements |
| `Snapshot.SnapshotFields` | packages/browser-core/src/migrate.ts:69-99 | the record loop: own enumerable data fields in key order |
| `SnapshotProofs.SucceedsIffPlainAndAcyclic` | packages/browser-core/src/migrate.ts:17-102 | on every finite heap: the copy succeeds exactly when no path meets a node refused on sight (symbol key, hostile, missing, negative or unsafe length, foreign key, hole, accessor, non-enumerable) and no path meets a node twice; sharing is fine |
| `SnapshotProofs.CopyIsUnfolding` | packages/browser-core/src/migrate.ts:17-102 | the copy is the tree unfolding, as many items as the length says and item i from the own property named by the text of i, fields in key order; there is a copy exactly when there is a finite unfolding |
| `SnapshotProofs.ChildrenMean` | packages/browser-core/src/migrate.ts:30-99 | a node is refused on sight exactly for what is said of the node itself, and otherwise its items or fields are its own enumerable data properties |
| `SnapshotProofs.UnfoldingUnique` | packages/browser-core/src/migrate.ts:17-102 | there is at most one unfolding |
| `Decimal.CanonicalIsText` | packages/editor/src/editor.ts:370-374 | a canonical index text is the decimal text of its value, so each index has one text |
| `Decimal.TextIsCanonical` | packages/extension/src/background.ts:239 | `String(n)` is canonical and reads back as n |
| `MatchIndex.DropBand` | packages/extension/src/match-index.ts:528-541 | the loop drops exactly the ids of the band |
| `MatchIndex.MergeBand` | packages/extension/src/match-index.ts:506-525 | drop then add: of operations that are logged, the band holds from its first id on exactly each one's rule, kind and intent, the guard id left out; all ids outside the band are as they were |
| `MatchIndex.RewriteOwnBandOnly` | packages/extension/src/match-index.ts:459-615 | every rewrite leaves ids it does not own as they were, puts exactly its own content into its band, and keeps the index well formed |
| `MatchIndex.WriteHasEffect` | packages/extension/src/match-index.ts:489-615 | every write that goes through, in every run without a failed read: its band holds exactly the operations it was given, sanitised, each in its place, or nothing for a drop, or every tracked operation; all else is as it was up to sanitising |
| `MatchIndex.WritersRunInOrder` | packages/extension/src/match-index.ts:489-500 | over every run those who wait are exactly those who asked and have not written, in the order they asked: nobody is forgotten, runs twice or overtakes |
| `MatchIndex.HeadGoesThrough` | packages/extension/src/match-index.ts:489-615 | the head of the queue reads and writes the index as it is at that moment, and the next writer follows |
| `MatchIndex.NoBandIsLost` | packages/extension/src/match-index.ts:489-615 | over every interleaving of installer, body and mock writers: each band holds what its last writer meant to put there up to log sanitising, the guard id is never indexed, and at rest every tracked id is indexed as its operation |
| `MatchIndex.WantedIsLastIntent` | packages/extension/src/dnr.ts:187-220 | what is meant to be in a band is the content of the last successful write that owned it |
| `MatchIndex.FailedReadDropsForeignBands` | packages/extension/src/match-index.ts:743-757 | a failed read reads as empty, and then foreign ids survive exactly if there were none |
| `RuleIds.HashRuleId` | packages/extension/src/dnr.ts:151-157 | the loop over 32-bit wrapped steps, into 1 to 1000000 |
| `RuleIds.HashIsWrappedBase31` | packages/extension/src/dnr.ts:151-157 | wrapping at every character equals wrapping the whole base-31 number once |
| `InstallMeaning.IdFromBase31` | packages/extension/src/dnr.ts:151-157 | the id is the base-31 number of the text wrapped to 32 bits, its sign dropped, into 1 to 1000000 |
| `InstallMeaning.HashOfA` | packages/extension/src/dnr.ts:151-157 | the rule id `a` has the id 98 |
| `RuleIds.Probe` | packages/extension/src/dnr.ts:318-322 | the wrap-around loop ends while fewer than 1000000 ids are used, at the first free id |
| `RuleIds.ProbeFindsRoom` | packages/extension/src/dnr.ts:318-322 | fewer than a million used ids cannot fill a million steps |
| `RuleIds.FirstFree` | packages/extension/src/dnr.ts:318-322 | the id is free, in the band, and every id between the hash and it was used |
| `InstallMeaning.FreeIdMeans` | packages/extension/src/dnr.ts:318-322 | the id is the first free one from the hash on, going round once after 1000000 |
| `RuleIds.PlanMeaning` | packages/extension/src/dnr.ts:306-369 | planned ids are distinct, lie in the band of their kind, and the planned operations are exactly the installable ones in order |
| `InstallMeaning.PlanIsMeant` | packages/extension/src/dnr.ts:306-369 | redirects and fixed-value queries in order, each on the first free id from its hash; then the projectable fixed-value headers in order, each on 2000001 and its position |
| `InstallMeaning.ReadableMeans` | packages/extension/src/dnr.ts:311-360 | an install throws exactly at the first redirect or fixed-value query without a browser form |
| `DnrInstaller.Installer.Collect` | packages/extension/src/dnr.ts:311-360 | the first loop: ids, errors for dynamic values, headers put aside, and where a translation throws |
| `DnrInstaller.Installer.AddHeaders` | packages/extension/src/dnr.ts:361-369 | headers get counted ids, unprojectable ones none, and each id its own operation |
| `DnrInstaller.Installer.DropOrphans` | packages/extension/src/dnr.ts:402-419 | owned live rules nobody planned go in one call or stay when it is refused |
| `DnrInstaller.Installer.ReplaceEach` | packages/extension/src/dnr.ts:421-452 | each rule replaces its own id; rules, tracked map and errors are exactly those of the accepted and refused calls |
| `DnrInstaller.Installer.Install` | packages/extension/src/dnr.ts:306-472 | the whole state after an install, for every pattern of refused calls, on every exit |
| `DnrInstaller.Installer.HydrateInstalled` | packages/extension/src/dnr.ts:241-298 | a cold band is filled from live ids, index and compiled operations; a warm band is left alone |
| `DnrInstaller.Installer.TakeInstallErrors` | packages/extension/src/dnr.ts:300-304 | the errors are handed out once |
| `DnrInstaller.Installer.WriteWholesaleMatchIndex` | packages/extension/src/dnr.ts:187-220 | a failed read counts as empty, a failed write leaves the index |
| `InstallTheorems.ForeignRulesStay` | packages/extension/src/dnr.ts:159-171 | rules outside the two owned bands are untouched whatever is refused |
| `InstallTheorems.TrackedIsLive` | packages/extension/src/dnr.ts:421-452 | every tracked id is live and carries the operation planned for it |
| `InstallTheorems.OrphansGoTogether` | packages/extension/src/dnr.ts:402-419 | an unplanned owned rule is gone exactly when the orphan call went through |
| `InstallTheorems.EachRuleOnItsOwn` | packages/extension/src/dnr.ts:421-452 | a planned rule is replaced and tracked exactly when its own call went through, and is left as it was otherwise |
| `InstallTheorems.InstallWithoutRefusal` | packages/extension/src/dnr.ts:306-472 | with nothing refused exactly the desired rules are live in the owned bands and all are tracked |
| `InstallMeaning.InstallHasEffect` | packages/extension/src/dnr.ts:306-472 | every install that read the live rules, for every pattern of refused calls: each rule by id, each tracked operation, the errors in order, the index entry by entry, and which calls were made |
| `InstallTheorems.EveryAddRefused` | packages/extension/src/dnr.ts:454-458 | with every add refused the index is kept exactly as the code does: untouched without orphans, emptied of the installer's ids with one |
| `InstallTheorems.LiveRuleLosesItsEntry` | packages/extension/src/dnr.ts:454-458 | for a project of one header rule, in every world where its id is live beside an owned orphan: refusing its replacement while the index is written leaves the rule live without its entry |
| `InstallTheorems.RestartRecovers` | packages/extension/src/dnr.ts:241-298 | after any install that wrote the index, a cold start recovers exactly the tracked operations; rule ids have at most 64 characters, and the sanitiser has to keep only such ids |
| `InstallMeaning.HydratedMeans` | packages/extension/src/dnr.ts:241-298 | an operation is recovered for an id exactly if the id is live, its index entry names the operation's rule and kind, and its band is cold |
| `NativeRequests.EveryRequestSettlesOnce` | packages/extension/src/background.ts:173-268 | over every order of sends, replies, post failures, timeouts and disconnects: both maps agree, each issued id is pending or settled and never both, none settles twice, the unexpected-response branch never runs, every pending request has a timer |
| `NativeRequests.ReplySettlesOwn` | packages/extension/src/background.ts:195-204 | a reply settles the request of its own id, or nothing |
| `NativeRequests.TimerSettles` | packages/extension/src/background.ts:255-266 | a fired timer leaves its request settled and does not touch an earlier settlement |
| `NativeRequests.IssuedIsNotHost` | packages/extension/src/background.ts:187-194 | no issued id is taken for a request of the host |
| `NativeRequests.StepKeeps` | packages/extension/src/background.ts:173-268 | each event keeps the table in order |
| `NativeRequests.DisconnectsFailOwnIff` | packages/extension/src/background.ts:206-222 | in every reachable table: the outstanding disconnects fail only requests of their own port exactly when nothing is pending or at most one port is open |
| `NativeRequests.NewRequestExposedIff` | packages/extension/src/background.ts:206-268 | in every reachable table: a request posted now can be failed by another port's disconnect exactly when another port's disconnect is outstanding; on a fresh port, when any is |
| `NativeRequests.DisconnectFailsOwn` | packages/extension/src/background.ts:206-222 | in particular while nobody has stopped the runtime a disconnect fails only the requests of its own port |
| `NativeRequests.StalePortFailsNewRequests` | packages/extension/src/background.ts:365-389 | a run where it happens: after a stop and a new start the old port's disconnect fails the new port's request and drops the new port |
| `NativeRequests.Adapter.Send` | packages/extension/src/background.ts:228-268 | keeps the table in order; without a port nothing changes; otherwise a never used id goes to the open port, or a newly opened one, and waits with a timer when posted, or is settled as a failed post with nothing left waiting; no other request is touched |
| `NativeRequests.Adapter.Post` | packages/extension/src/background.ts:243-267 | both closures are stored and the timer is set, or taken out again and the request rejected when the port refuses |
| `NativeRequests.Adapter.OnMessage` | packages/extension/src/background.ts:173-205 | keeps the table in order; a reply to a waiting id settles that request as answered and removes it; any other message changes nothing |
| `NativeRequests.Adapter.OnTimeout` | packages/extension/src/background.ts:255-266 | keeps the table in order; the request no longer waits and is settled as timed out unless it was settled before; nothing else is settled |
| `NativeRequests.Adapter.OnDisconnect` | packages/extension/src/background.ts:206-222 | the loop rejects each pending request once and empties both maps; every issued request is settled, earlier settlements stand, and there is no current port |
| `NativeSession.PairMocks` | packages/extension/src/native-session.ts:483-505 | as many pairs as mocks exactly when the host's list is well formed and names every mock, each with the token issued under its own id |
| `NativeSession.ReadTokens` | packages/extension/src/native-session.ts:483-494 | a malformed or repeated entry clears the whole map |
| `NativeSession.EncodePolicy` | packages/extension/src/native-session.ts:712-721 | the frames join to the bytes, have 65536 bytes except the last, and none is empty |
| `NativeStart.SessionBrowser.InstallMarkers` | packages/extension/src/body-marker-lifecycle.ts:43-88 | markers and index entries are all in or there are none; it throws exactly for a rule without a browser form when the browser works |
| `NativeStart.SessionBrowser.InstallResponses` | packages/extension/src/response-body-redirect.ts:86-129 | the response band holds exactly the given rules, or nothing changed |
| `NativeStart.SessionBrowser.InstallMocks` | packages/extension/src/mock-redirect.ts:85-131 | the mock band and its index entries hold exactly the pairs and the guard, or nothing changed; other bands stay |
| `NativeStart.SessionBrowser.RemoveMarkers` | packages/extension/src/session-body-markers.ts:187-215 | no body marker and no body entry is left, other bands stay |
| `NativeStart.Session.StartRuntime` | packages/extension/src/native-session.ts:285-398 | the early end of a start, its reason, and whether the host now runs and a port is open; nothing is installed by it, and a clean state stays clean |
| `NativeStart.Session.ResponseStage` | packages/extension/src/native-session.ts:406-442 | response rules are in, or the start is undone, or it throws and is not undone |
| `NativeStart.Session.MockStage` | packages/extension/src/native-session.ts:444-523 | mock rules are in, or the start is undone, or it throws and is not undone |
| `NativeStart.Session.Start` | packages/extension/src/native-session.ts:285-526 | from a clean state every refusal leaves no session rule and no body or mock entry; success means every answer was good and leaves in the three bands exactly what is due, id by id; an end before the runtime started leaves host and port as its reason says; a later refusal closes the port and stops a host that obeys; a later throw undoes nothing and means a rule without a browser form; where installs work the result is the one setup and answers allow |
| `NativeStart.InstalledHolds` | packages/extension/src/native-session.ts:400-526 | what a started session holds, said of setup and answers: without the strip path no marker; with it a marker for exactly the enabled body rules whose gate is open; every response-body rule where a listener takes it; exactly the enabled mocks with their tokens and the guard; all in order, entry by entry |
| `NativeStart.OutcomeMeans` | packages/extension/src/native-session.ts:285-526 | for each result of a start where installs work, exactly which setups and answers give it |
| `SessionContents.SelectionsAreDue` | packages/extension/src/native-session.ts:400-451 | the code's three selections are exactly the operations that are due, in order |
| `NativeStart.Session.StopSession` | packages/extension/src/native-session.ts:528-538 | a stop leaves no open port, stops a host that obeys, and where removals work reaches the clean state |
| `NativeStart.CleanMeans` | packages/extension/src/native-session.ts:528-538 | a clean state has no rule with an id of the three bands and no body or mock entry |
| `NativeStart.EarlyRefusalStopped` | packages/extension/src/native-session.ts:285-398 | a refusal before the start is complete leaves neither a running host nor an open port exactly if there is no valid project, no connection for `project.set`, or without `project.set` a refused start that left no port |
| `NativeStart.EarlyEndLeaves` | packages/extension/src/native-session.ts:285-398 | end by end, whether the host runs and a port is open after a start that ended early |
| `NativeStart.RefusedStartLeavesHostRunning` | packages/extension/src/native-session.ts:308-394 | an accepted `project.set` followed by any refused start ends refused with the host running and the port open |
| `NativeStart.WellStartsIffFormed` | packages/extension/src/native-session.ts:285-526 | when all answers are good and installs work, the start succeeds exactly if every rule has a browser form, and throws otherwise |
| `NativeStart.UnformedRuleThrows` | packages/extension/src/native-session.ts:406-435 | an input for the throw: one response-body rule without a browser form |
| `NativeStart.DisabledGroupsStillRespond` | packages/extension/src/native-session.ts:415-435 | a started session with every group disabled has no marker and no mock, but every response-body rule of the project |
| `QueryTransform.QueryActionToDnr` | packages/compiler/src/query.ts:21-48 | the parameters to set in order and the names to remove |
| `QueryTransform.ApplyQueryTransform` | packages/compiler/src/query.ts:50-90 | the loops over pairs give the transform's list |
| `QueryTransform.SetNamesOnce` | packages/compiler/src/query.ts:66-81 | each set name occurs exactly once, with its value |
| `QueryTransform.RemovedNamesGone` | packages/compiler/src/query.ts:66-81 | each removed name is gone |
| `QueryTransform.OthersKeepOrder` | packages/compiler/src/query.ts:66-81 | all other pairs stay in their original order |
| `QueryTransform.TransformIdempotent` | packages/compiler/src/query.ts:50-90 | doing it twice is doing it once |
| `QueryMeaning.TransformMeans` | packages/compiler/src/query.ts:21-90 | for any action: a pair keeps its place unless its name is removed or set and already met, a set one with the last value given; the set names that took no place follow in the order the action first sets them |
| `Selector.WinnerIsBest` | packages/compiler/src/selector.ts:78-106 | a winner exists exactly when there is a candidate, stands at its source order, and no candidate beats it |
| `Selector.SelectionMeans` | packages/compiler/src/selector.ts:37-106 | on any list: no winner exactly when nothing applies; otherwise the winner applies, its source order is the first place of its group and rule, and whatever else applies has a lower priority, or the same and a group and rule that come no earlier |
| `Selector.HeadOfAnySort` | packages/compiler/src/selector.ts:91-100 | any sort by the comparison puts such an operation first |
| `Selector.AnySortAgrees` | packages/compiler/src/selector.ts:91-100 | with distinct entities every such sort selects the same operation |
| `Selector.FirstIndexMeaning` | packages/compiler/src/selector.ts:68-76 | the source order is the first index with the same group and rule id |
| `Selector.PrioritiesFall` | packages/requestly-import/src/project.ts:151-153 | imported priorities never rise and fall strictly up to the thousandth rule |
| `Selector.ExportOrderWins` | packages/requestly-import/src/project.ts:124-164 | in an import of up to 1000 rules the winner is the candidate that comes first in the export |
| `RequestlyImport.Import` | packages/requestly-import/src/project.ts:84-222 | refused exactly when the produced rules need more than 64 groups, 4096 rules, or 256 rules in a group; otherwise every parsed rule and unknown record has its row in order with the produced ids, imported exactly when nothing calls for a note and no name or kept id changed; the k-th rule is the k-th draft with the k-th priority in the group its rule names; groups carry the first of each id, named and numbered as asked where free, and hold exactly their rules in order; ids and normalized names are distinct |
| `RequestlyImport.Importer.AddParsedRule` | packages/requestly-import/src/project.ts:128-185 | one rule yields one row naming the rule of each draft, imported exactly when nothing calls for a note and nothing was changed; heads of groups stay |
| `RequestlyImport.Importer.PlaceRule` | packages/requestly-import/src/project.ts:224-249 | the group a rule goes to, and whether the mapping, a missing or an inactive group calls for a note |
| `RequestlyImport.Importer.AddRule` | packages/requestly-import/src/project.ts:132-163 | a draft becomes the last rule of its group with a free id (its own if valid and free), a free name and the next priority |
| `RequestlyImport.Importer.AddGroup` | packages/requestly-import/src/project.ts:93-106 | a group id seen before adds nothing; a new one is kept as id if valid and free and otherwise derived from its name, under a free name |
| `RequestlyImport.Importer.TakeId` | packages/requestly-import/src/project.ts:275-292 | a valid free id is kept where asked, any other is the derived one, and the result was free and is reserved |
| `RequestlyImport.SlotsMean` | packages/requestly-import/src/project.ts:93-106 | the groups of the import are the first of each id, in order |
| `RequestlyImport.Summarize` | packages/requestly-import/src/project.ts:251-265 | the counts of the three kinds of rows |
| `RequestlyImport.CountsAddUp` | packages/requestly-import/src/project.ts:251-265 | the three counts add up to the rows |
| `ProjectModel.CollectIdentity` | packages/requestly-import/src/project.ts:324-339 | exactly the ids and normalized names in use |
| `ProjectModel.RogatioIdMeans` | packages/requestly-import/src/project.ts:267-273 | one to 64 letters, digits, dots, underscores and hyphens, the first a letter or digit |
| `ProjectModel.AllCounted` | packages/requestly-import/src/project.ts:324-339 | the counted ids and normalized names are those of every group and every rule, one each |
| `ProjectModel.LimitError` | packages/requestly-import/src/project.ts:294-311 | an error exactly when one of the three limits is exceeded |
| `ProjectMerge.MergeProjects` | packages/requestly-import/src/merge.ts:19-77 | existing groups stay an unchanged prefix, imported ones are appended with only ids and names altered, each id kept if valid and free when its turn comes and otherwise derived, each name the free one for the name it had, distinctness is kept, and it is refused exactly when the two together exceed a limit |
| `ProjectMerge.MergeGroup` | packages/requestly-import/src/merge.ts:39-59 | one imported group keeps its rules up to ids and names, which are exactly those free when their turn comes, and is unchanged when nothing was renamed |
| `ProjectMerge.RetakeId` | packages/requestly-import/src/merge.ts:79-98 | an id is kept exactly when it is valid and free, and is otherwise the derived one |
| `Identity.DeriveEntityId` | packages/schema/src/identity.ts:91-104 | the first free attempt on the stem of the name, or of the kind when the name has no letter or digit; it is reserved, and within sizes that occur is an id the schema accepts |
| `Identity.PascalCase` | packages/schema/src/identity.ts:52-61 | splitting at separators and capitalising tokens is the character-wise Pascal case |
| `Identity.PascalMeans` | packages/schema/src/identity.ts:52-61 | the letters and digits of the text in order, each upper-cased exactly where a word starts |
| `Identity.Allocate` | packages/schema/src/identity.ts:63-82 | the search for a free id ends on every finite set, at the first free attempt, which is reserved |
| `Identity.UniqueName` | packages/schema/src/identity.ts:106-122 | the search for a free name ends on every finite set, at the first attempt whose normalized form is free, and that form is reserved |
| `Identity.CandidateMeans` | packages/schema/src/identity.ts:67-122 | the first attempt is the stem, later ones end in their number; the stem is cut to make room but keeps a character |
| `Identity.SomeAttemptIsFree` | packages/schema/src/identity.ts:67-82 | attempts whose suffixes have the same length differ, so some attempt is free |
| `ProposalRepair.RepairTargets` | packages/extension/src/ai-assist.ts:273-298 | the targets are exactly the rules the paths point into, without repetition, in index order |
| `ProposalRepair.TargetMeans` | packages/extension/src/ai-assist.ts:257-284 | a path points into a rule exactly when it is `/groups/<g>/rules/<r>` in plain decimals, alone or with a slash behind |
| `ProposalRepair.BuildQueues` | packages/extension/src/ai-assist.ts:323-333 | each group's queue holds exactly its existing targeted rule records, in index order |
| `ProposalRepair.RepairProposalIntoProject` | packages/extension/src/ai-assist.ts:306-363 | in each group the first targets, as many as it has proposals, are replaced in place under their string ids, all other rules stay, the proposals left follow in order, new groups only for unknown ids; with nothing to repair it equals the plain merge |
| `ProposalRepair.RepairConserves` | packages/extension/src/ai-assist.ts:306-363 | rules afterwards plus replacements equal rules before plus proposals |
| `ProposalRepair.MergeProposalIntoProject` | packages/extension/src/ai-assist.ts:365-399 | each proposal goes to the end of the first group with its id, or to a new group |
| `JsonPointer.PointerRoundTrip` | packages/editor/src/editor.ts:351-368 | decoding an encoded pointer gives back every list of strings |
| `JsonPointer.PathTextKept` | packages/editor/src/editor.ts:355-368 | an accepted path is printed back unchanged exactly when each part is escaped as RFC 6901 asks |
| `JsonPointer.SegmentRoundTrip` | packages/editor/src/editor.ts:351-362 | the two replacements of the decoder undo the two of the encoder |
| `JsonPointer.SegmentTextKept` | packages/editor/src/editor.ts:351-362 | one part comes back exactly when it is properly escaped |
| `JsonPointer.EncodeIsEscaping` | packages/editor/src/editor.ts:351-353 | the two replacements are the character-wise escaping of RFC 6901 |
| `JsonPointer.EncodeMeans` | packages/editor/src/editor.ts:351-353 | a tilde is written `~0`, a slash `~1`, everything else as it is, character by character |
| `JsonPointer.PointerMeans` | packages/editor/src/editor.ts:364-368 | a pointer is one slash and one encoded segment after the other |
| `JsonPointer.DecodeMeans` | packages/editor/src/editor.ts:355-362 | a path is refused exactly when it is neither empty nor starts with a slash; its parts lie between slashes and are unescaped from the front, each escape once |
| `PointerStore.Document.ValueAtPath` | packages/editor/src/editor.ts:376-393 | the value the path leads to, or undefined |
| `PointerStore.Document.SetValueAtPath` | packages/editor/src/editor.ts:415-457 | it changes something exactly when the parent exists, the place exists or may be created, and the value differs; then only that one place of that one cell |
| `PointerStore.WalkMeans` | packages/editor/src/editor.ts:370-393 | a path leads somewhere exactly along a trace of steps, each an item by the plain decimal of its index or a field by its name |
| `PointerStore.WriteMeans` | packages/editor/src/editor.ts:395-457 | a write changes something exactly when its path leads to a cell with another value at that place, or to an object that lacks one of the thirteen optional fields; then that place is all that changes |
| `PointerStore.WriteReadsBack` | packages/editor/src/editor.ts:415-457 | on a tree a successful write is read back |
| `PointerStore.WriteLeavesOthers` | packages/editor/src/editor.ts:415-457 | on a tree every path that does not extend the written one leads where it led |
| `PointerStore.WalkAround` | packages/editor/src/editor.ts:415-457 | on any graph, sharing included, a path that never takes the written step is unaffected |
| `PointerStore.SharedCellChangesElsewhere` | packages/editor/src/editor.ts:415-457 | with a shared array a write shows through another path |

## Left out

- The URL parser and serializer, the regular-expression engine, JSON text and hashing: parameters, or not modelled.
- `encodePacSteer`, `decodePacSteer` and `steeredRequestOrigin`: their laws are those of the URL parser.
- `InstallService`: its queue makes installs run one after the other, which the index model takes as given; its rollback only calls the modelled `install` again.
- `DnrInstaller.Installer.Install`: failure texts and the reason in its diagnostics are not modelled; the million-operation bound is where the source's probe loop would stop ending (the schema allows 4096 rules), and rule ids are taken as distinct, as validation guarantees.
- `DnrInstaller.Browser.GetDynamicRules`: gives a set, so the order in which `current` lists operations is not modelled, and `current` itself is left out.
- `DnrInstaller.Installer.HydrateInstalled`: hydrated ids enter the tracked map without an index write, so the index model covers tracked ids from installs only.
- `MatchIndex.NoBandIsLost`: log sanitising is an opaque function that keeps the kind; keys are numbers, so index keys that are not decimal texts are not modelled.
- `Repository.InvStep`: a storage call that throws is taken to have had no effect; revisions stay below 2^53.
- `Builders.CommitKeeps`: `findByName` may pick any project of that name, since key order is not modelled; migration notices are left out; timestamps only order projects in `removeProject`.
- `Snapshot.SnapshotOwnData`: property getters and proxies that throw are accessors, refused on sight; a function value is a leaf, as in the code.
- `MatchHistory.LoggingOffKeepsNothing`: storage writes are assumed to succeed; building and redacting a row is opaque.
- `RegexSyntax`: a pattern tree has literals, escapes of two characters, classes, groups and quantifiers; longer escapes count as two-character ones followed by literals.
- `NativeRequests.EveryRequestSettlesOnce`: PAC calls and requests of the host are left out; log lines are not modelled.
- `NativeStart.Session.Start`: removals and index storage are assumed to succeed; a port that goes between two steps of a start is not modelled; the second compile in `syncBodyMarkersAfterStart` gives the same operations as the first, so its two failure branches cannot run; PAC routes, digests and message texts are left out.
- `QueryTransform.ApplyQueryTransform`: works on the pair list; reading and printing the query string are the URL parser's.
- `RequestlyImport.Import`: group ids are non-empty, as the parser guarantees; parsing, `map.ts`, labels and the wording of notes are not part of this model; whether a row has any note is.
- `ProjectMerge.MergeProjects`: cloning through JSON and the project's other fields are left out.
- `Identity.UniqueName`: normalization is a parameter that keeps different numbers at the end of a name apart.
- `Identity.DeriveEntityId`: lower-casing is a parameter; a name is always text.
- `ProposalRepair.RepairProposalIntoProject`: generated ids are opaque, and a rule is its id and one opaque body.
- `PointerStore.WriteLeavesOthers`: sparse arrays and inherited names are left out; deleting through a path is not modelled.
- Views, popups, the command line, doctor reports, AI prompts, `browser-schema.ts` and log redaction: text, wiring and field checks.
- Service-worker restarts beyond a cold tracked map, and real browser scheduling.
