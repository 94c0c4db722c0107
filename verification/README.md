# Verified model of the support desk's hard core

The repository is a multi-tenant support desk with a clickable design prototype. This project models its
four hardest parts and proves what each is for.

1. **The template runtime's small languages.** `Expr` is the expression evaluator as it scans strings;
   `ExprSyntax` is the grammar it is meant to implement, with its own tree semantics, and `ExprTheorem` proves
   that the two agree on every well-formed expression under any layout; `ExprLiterals` proves which string
   literals can be well formed and `ExprMalformed` what ill-formed texts give. `CssLexer`, `CssScanner`,
   `CssImportant` and `CssImportantLoop` are the comment stripper and the `!important` rewriter;
   `CssCopies` and `CssDeclarations` say, text by text, what comes out of them. `DeckKeys` and `DeckNames` are the
   keyed-children pass and `StreamTracker` the lazily forgetting stream tracker.
2. **The workflow engine.** `Workflow` gives every button of the desk as a guard and a state change.
   `WorkflowInvariant`, `WorkflowSteps`, `WorkflowReleases` and `WorkflowRuns` prove what holds after every run of
   buttons from the empty desk; `WorkflowHeld`, `WorkflowSignOffs`, `WorkflowPipeline` and `WorkflowCleared` prove which
   releases some run can still take through and which none can. `WorkflowEngine` writes one transition out in the fields of
   the desk, `WorkflowOutcomes`, `WorkflowReleaseOutcomes` and `WorkflowButtons` prove what single buttons are for,
   and `WorkflowApp` has them as they run (fields written in place, loops over lists), each keeping the invariant.
   `SupportRouting`, `SupportAnswers` and `SupportRoutingApp` do the same for routing and escalation.
3. **The embedded support client.** `SupportClient`, `SupportClientRuns` and `SupportClientRetries` (session minting, retry,
   idempotency), `SupportWidget` (the widget's states and listeners), `Base64`, `Validation` and `ValidationProblems`
   (what may be sent).
4. **The tenant-stamping pool.** `TenantStamp` (the statement, and a reader for the SQL it is made of) and
   `TenantPool` (hand-over, stamp failure, release, in any interleaving).

Asynchronous code is modelled with every suspension as a step boundary, so that a run is any interleaving. Member lookup and
the two equalities in expressions are uninterpreted functions of the host language. Clock readings, database outcomes and the host's
answers are parameters.

## Where the code does less than it says

- `reset()` of the client is documented as making the next call mint afresh (packages/support-sdk/src/client.ts:145).
  A mint that is still running stores its session afterwards; `ResetHoldsExactly` gives the exact condition.
- The expression scans do not know about quotes: `'a == b'` is cut at the equality sign, and `')'` is read when it
  stands alone but not in `')'==x`. `QuotedText` says exactly when a quoted text standing alone is read as that text,
  and `SafeLiteralIff` exactly when it is read wherever a literal can stand.
- `rollback` writes a history entry with a fixed start (docs/design-reference/prototype/proto-modals.js:204).
  `HistoryIsTraced` names it as the only break a history can have, `RollbackConnectsIffRequired` says when it is one,
  and `GapIsReached` is a run of buttons from the empty desk that ends in one.
- A release can be held for ever, in three ways: the client asked for changes, and a second request for approval creates
  no new sign-off (docs/design-reference/prototype/proto-modals.js:205); a task was added to an approved release, which
  empties the client's slot with the sign-off already answered (docs/design-reference/prototype/proto-modals.js:194); or
  the client is an approver of a project that requires no sign-off. `HeldForeverIffDoomed` proves that these are all the
  ways and that every other release can still be cleared; `SentBackIsReached`, `LostSlotIsReached` and
  `NewReleaseDoomedIff` reach each of them.
- The assignment log of a ticket stops being a chain when a manager accepts for somebody else or assigns from the
  ticket page. `AcceptChainsIff` and `AssignChainsIff` say exactly when it stays one.
- The length check of attachments also passes texts that are not base64, such as `====`.
  `MeasuredDecodesIffPaddedAtEnd` says exactly which measured texts decode.
- A first-level escalation can hand a ticket to nobody, or to the roster's placeholder, although the senior is there.
  `EscalationReachesNobodyIff` and `SweepReachesNobodyIff` say exactly when; `NobodyIsReached` is such a state.

## Model

| member | source | states |
|---|---|---|
| `ExprTheorem.ResolveRender` | docs/design-reference/prototype/support.js:205-294 | for every well-formed expression tree, whatever its layout and padding, evaluating the printed text gives the value of the tree; its literals are the safe ones of `ExprLiterals.SafeLiteralIff` |
| `ExprTheorem.ComparisonsMean` | docs/design-reference/prototype/support.js:209-226 | the four printed comparisons of any two expressions give the host language's strict or loose equality, negated exactly for the two inequalities |
| `ExprTheorem.MembersMean` | docs/design-reference/prototype/support.js:263-275 | a name, and a name behind a point, are members of the values reached; null and undefined have none |
| `ExprTheorem.NumbersAreNumerals` | docs/design-reference/prototype/support.js:204 | what is read as a number is exactly an optional minus, digits and perhaps a point with digits |
| `ExprMalformed.BrokenPathIsUndefined` | docs/design-reference/prototype/support.js:263-294 | a path with a stray character, a point without a name or a bracket that is never closed behind it is undefined |
| `ExprMalformed.StrangeStartIsUndefined` | docs/design-reference/prototype/support.js:205-236 | so is a text that begins like no expression at all |
| `ExprTheorem.EqualIsFound` | docs/design-reference/prototype/support.js:248-262 | the first top-level equality found in a printed comparison is exactly the operator between its two operands |
| `ExprTheorem.EqualIsSplit` | docs/design-reference/prototype/support.js:211-226 | the operator is read with its exact length and the two sides are the operands with their padding |
| `ExprTheorem.StepsRender` | docs/design-reference/prototype/support.js:263-294 | walking the printed steps of a path from any value gives the value of the steps |
| `ExprLiterals.QuotedText` | docs/design-reference/prototype/support.js:229-234 | where strings are no booleans, a quoted text standing alone is read as that text if and only if no equality operator stands outside its brackets |
| `ExprLiterals.CutIffEquality` | docs/design-reference/prototype/support.js:248-262 | the scan cuts a quoted text if and only if an operator stands outside its brackets |
| `ExprLiterals.SafeLiteralIff` | docs/design-reference/prototype/support.js:205-294 | a literal is read as written alone, compared, in parentheses and as a key if and only if its brackets of each kind match and no equality operator stands outside them |
| `ExprLiterals.UnevenIsMisread` | docs/design-reference/prototype/support.js:248-262 | a literal whose brackets do not come out even hides the operator behind it |
| `ExprLiterals.DipIsNotGrouped` | docs/design-reference/prototype/support.js:237-247 | a literal with an unopened closing parenthesis is misread in parentheses |
| `ExprLiterals.DipIsNoKey` | docs/design-reference/prototype/support.js:276-285 | a literal with an unopened closing bracket is misread as a key |
| `ExprLiterals.QuotedParenIsReadOnlyAlone` | docs/design-reference/prototype/support.js:248-262 | a concrete literal that is read alone and misread in a comparison |
| `ExprLiterals.QuotedEqualsIsCompared` | docs/design-reference/prototype/support.js:248-262 | the quoted pair of equals signs is a concrete text on which the evaluator compares undefined with itself |
| `ExprLoops.WrapsWhole` | docs/design-reference/prototype/support.js:237-247 | the depth loop answers whether the opening parenthesis is closed only by the last character |
| `ExprLoops.FindTopLevelEquality` | docs/design-reference/prototype/support.js:248-262 | the loop returns the first position and operator outside brackets that is not a continuation and has something before it, or nothing when there is none |
| `ExprLoops.FindClose` | docs/design-reference/prototype/support.js:276-285 | the inner loop stops at the matching square bracket, or at the end of the text |
| `ExprLoops.ResolveText` | docs/design-reference/prototype/support.js:205-236 | the evaluator, branch by branch, computes the specified value on every string and terminates |
| `ExprLoops.ResolvePathText` | docs/design-reference/prototype/support.js:263-294 | the path loop computes the specified value on every string |
| `CssLexer.LexSpells` | docs/design-reference/prototype/support.js:1511-1541 | reading the text as tokens loses no character |
| `CssLexer.StripSpells` | docs/design-reference/prototype/support.js:1511-1541 | stripping copies every quoted string and url token verbatim and turns each comment into one space |
| `CssLexer.StripRelexes` | docs/design-reference/prototype/support.js:1511-1541 | reading the output gives exactly the tokens of the input with comments blanked: no comment, quote or url token is created |
| `CssLexer.StripFixpoint` | docs/design-reference/prototype/support.js:1511-1541 | a text is its own stripping if and only if it contains no comment outside quotes and url tokens |
| `CssLexer.StripIdempotent` | docs/design-reference/prototype/support.js:1511-1541 | stripping twice is stripping once, on every text including unterminated ones |
| `CssCopies.CommentBecomesSpace` | docs/design-reference/prototype/support.js:1527-1530 | a comment ends at its first star and slash and becomes exactly one space, and stripping goes on behind it |
| `CssCopies.OpenCommentBecomesSpace` | docs/design-reference/prototype/support.js:1527-1530 | a comment that never ends becomes one space |
| `CssCopies.QuotedIsCopied` | docs/design-reference/prototype/support.js:1516-1526 | a text in single or double quotes is copied whole, escapes and comment signs included, and stripping goes on behind it |
| `CssCopies.UnclosedIsCopied` | docs/design-reference/prototype/support.js:1516-1526 | a text in quotes that are never closed is copied to the end |
| `CssCopies.UrlIsCopied` | docs/design-reference/prototype/support.js:1531-1537 | an unquoted url in any case is copied up to its closing bracket |
| `CssCopies.PlainIsCopied` | docs/design-reference/prototype/support.js:1531-1533 | any other character is copied, and a url behind a name character is none |
| `CssScanner.SkipSpaces` | docs/design-reference/prototype/support.js:1500-1502 | stops at the first character that is not white space |
| `CssScanner.SkipBody` | docs/design-reference/prototype/support.js:1503-1510 | stops just past the first unescaped closing bracket, or at the end |
| `CssScanner.ScanUnquotedUrl` | docs/design-reference/prototype/support.js:1498-1510 | gives -1 exactly when no unquoted url token starts there, and otherwise the position just past the token |
| `CssScanner.StripComments` | docs/design-reference/prototype/support.js:1511-1541 | the scanning loop computes the specified stripping of every text |
| `CssImportant.SplittingLosesNothing` | docs/design-reference/prototype/support.js:1547-1564 | the pieces between top-level semicolons, joined again, are the text |
| `CssImportant.ClosedIsCut` | docs/design-reference/prototype/support.js:1547-1564 | a piece that ends outside quotes and brackets is cut exactly at the semicolon after it, whatever follows |
| `CssImportant.CutsAreClosed` | docs/design-reference/prototype/support.js:1547-1564 | every piece in front of a cut ends outside quotes and brackets |
| `CssImportant.PiecesOfJoin` | docs/design-reference/prototype/support.js:1542-1566 | splitting joined finished declarations gives them back in order |
| `CssImportant.DeclarationsAreMarked` | docs/design-reference/prototype/support.js:1565-1566 | every declaration that comes out is trimmed, not empty and ends in the important mark |
| `CssImportant.DeclarationsOfImportantify` | docs/design-reference/prototype/support.js:1542-1566 | splitting the output again gives the same declarations in the same order, and the output holds no comment |
| `CssImportant.ImportantifyIdempotent` | docs/design-reference/prototype/support.js:1542-1566 | rewriting twice is rewriting once, on every text including unterminated quotes, brackets and urls |
| `CssDeclarations.DeclarationIsClosed` | docs/design-reference/prototype/support.js:1547-1564 | every text of a grammar of plain characters, quotations, urls and nested parentheses is one declaration: it hides its semicolons |
| `CssDeclarations.MarkedIff` | docs/design-reference/prototype/support.js:1565 | the test for the mark accepts exactly an exclamation mark, perhaps white space, and the word in any case at the end |
| `CssDeclarations.SingleIsMarked` | docs/design-reference/prototype/support.js:1542-1566 | a single declaration comes out trimmed, with the mark added exactly if it had none; a blank one vanishes |
| `CssDeclarations.BlockIsRewrittenInOrder` | docs/design-reference/prototype/support.js:1542-1566 | what stands in front of a top-level semicolon and what stands behind it are rewritten each for itself and joined in that order |
| `CssDeclarations.BlockIsMarked` | docs/design-reference/prototype/support.js:1542-1566 | every declaration of a block comes out once, in order, trimmed and with one mark |
| `CssDeclarations.CommentsDoNotMatter` | docs/design-reference/prototype/support.js:1542-1543 | a block is rewritten like the same block without its comments |
| `CssImportantLoop.Split` | docs/design-reference/prototype/support.js:1544-1564 | the loop over characters cuts a comment-free text into exactly the specified pieces |
| `CssImportantLoop.FinishAll` | docs/design-reference/prototype/support.js:1565 | trims, drops empty pieces and marks the rest, in order |
| `CssImportantLoop.Importantify` | docs/design-reference/prototype/support.js:1542-1567 | the whole rewriter computes the specified block |
| `DeckKeys.NextSlideIds` | docs/design-reference/prototype/support.js:499-509 | the backward loop records for each position the id of the next element, when that is a slide |
| `DeckKeys.WalkKeys` | docs/design-reference/prototype/support.js:493-542 | the pass gives keys exactly when every text is blank, no control-flow tag occurs and slide ids are valid and distinct; the keys are the specified ones |
| `DeckNames.KeysExistIff` | docs/design-reference/prototype/support.js:511-541 | there are keys exactly when every text is blank, every element a helper or shown with an eight-digit id, and no id occurs twice |
| `DeckNames.KeyIs` | docs/design-reference/prototype/support.js:510-541 | each child's key: the slide's id, the blank's name with its count, or the position |
| `DeckNames.BlankIsNamedAfterItsSlide` | docs/design-reference/prototype/support.js:499-515 | a blank carries the id of the slide right behind it, whatever other blanks stand between |
| `DeckNames.BlankWithoutSlide` | docs/design-reference/prototype/support.js:499-515 | in front of a helper and at the end it carries none |
| `DeckNames.DecimalIsRead` | docs/design-reference/prototype/support.js:518 | counts are printed in decimal without leading zeros |
| `DeckKeys.KeysAreDistinct` | docs/design-reference/prototype/support.js:510-541 | whenever there are keys there is one per child, and no two are equal as the renderer prints them |
| `DeckKeys.CountedNamesAreInjective` | docs/design-reference/prototype/support.js:515-518 | a counted blank name determines the slide it belongs to and the count |
| `DeckKeys.DecimalIsInjective` | docs/design-reference/prototype/support.js:518 | different numbers print differently |
| `DeckKeys.RearrangingKeepsSlideKeys` | docs/design-reference/prototype/support.js:533-540 | rearranging the children changes neither whether there are keys nor the key of any slide |
| `StreamTracker.Tracker.PushFrom` | docs/design-reference/prototype/support.js:1803-1807 | a push keeps the index in agreement with the log of all pushes; a model push changes nothing remembered |
| `StreamTracker.Tracker.LiveOne` | docs/design-reference/prototype/support.js:1794-1802 | the answer is whether the last push for the name, model pushes aside, was streaming and recent enough; forgetting a stale name loses no answer |
| `StreamTracker.Tracker.LiveAny` | docs/design-reference/prototype/support.js:1808-1812 | answers yes only with a live name as witness, and no only when no name at all is live |
| `StreamTracker.LastStreamingIsLogged` | docs/design-reference/prototype/support.js:1803-1807 | a remembered time is that of a streaming push of that name |
| `StreamTracker.PushMeans` | docs/design-reference/prototype/support.js:1803-1807 | one more push makes its own name live for the stale time or not live, a model push and pushes of other names change nothing |
| `WorkflowEngine.ComesToRest` | docs/design-reference/prototype/proto-core.js:68-84 | a transition puts the task into its status with one history entry, sets pull request, checks and staging where the status asks for it, makes a review task exactly for a review, and touches no other old task |
| `WorkflowEngine.PassGoesToClient` | docs/design-reference/prototype/proto-core.js:77-78 | a passed task of a project that requires client sign-off goes to the client if the client can see it, listed on the newest pending request of the organisation or on a new one; any other goes straight to ready-to-publish |
| `WorkflowEngine.FailGoesBack` | docs/design-reference/prototype/proto-core.js:79-82 | a failed test returns the task, publishing awaits the live check, a failed live check asks for a rollback |
| `WorkflowEngine.TestingOpensOne` | docs/design-reference/prototype/proto-core.js:76 | testing opens one assignment, a retest exactly after a fix or a return |
| `WorkflowEngine.SignOffIsAsked` | docs/design-reference/prototype/proto-core.js:78 | only the step to client sign-off touches a request |
| `WorkflowEngine.TicketBecomes` | docs/design-reference/prototype/proto-core.js:81-83 | what the task's ticket becomes: resolved exactly when its last task is completed, in review while tested or ready, in progress when worked on; no other ticket changes |
| `WorkflowInvariant.TransitionKeeps` | docs/design-reference/prototype/proto-core.js:68-84 | a transition touches no other task, keeps every link between tasks, tickets, releases and sign-offs, and writes one history entry, or two when the first status is transient |
| `WorkflowInvariant.FollowUpIsSensible` | docs/design-reference/prototype/proto-core.js:77-82 | an automatic step is itself allowed and has no further automatic step |
| `WorkflowInvariant.MovedIsSound` | docs/design-reference/prototype/proto-core.js:69-75 | writing one allowed history entry keeps the task's history traced and its QA pass standing |
| `WorkflowInvariant.TicketFollowsKeeps` | docs/design-reference/prototype/proto-core.js:83 | the automatic ticket status breaks no link and resolves nothing |
| `WorkflowInvariant.EffectsKeep` | docs/design-reference/prototype/proto-core.js:74-81 | creating review tasks, QA assignments and sign-offs and resolving the ticket keep the invariant |
| `WorkflowSteps.TaskStepKeeps` | docs/design-reference/prototype/proto-pages.js:68-89 | every offered task button keeps the invariant and undoes no completion |
| `WorkflowSteps.BlockKeeps` | docs/design-reference/prototype/proto-modals.js:73-76 | blocking from any offered status keeps the invariant, the status to return to included |
| `WorkflowSteps.ApproveKeeps` | docs/design-reference/prototype/proto-modals.js:97-100 | approving a review keeps the invariant whether the checks pass at once, late or not, and the directly completed review task is no development task |
| `WorkflowSteps.FixKeeps` | docs/design-reference/prototype/proto-pages.js:79 | submitting a fix goes through its transient status to testing |
| `WorkflowSteps.EachKeeps` | docs/design-reference/prototype/proto-modals.js:132 | moving every linked task that is in the right status keeps the invariant, however the list looks |
| `WorkflowSteps.TicketStepKeeps` | docs/design-reference/prototype/proto-modals.js:170-185 | every offered ticket button keeps tasks and tickets naming each other and resolved tickets done; only closing and reopening change the status of a resolved or closed ticket |
| `WorkflowReleases.TestStepKeeps` | docs/design-reference/prototype/proto-modals.js:116-136 | every test result, live verification and client decision keeps the invariant |
| `WorkflowReleases.DecideKeeps` | docs/design-reference/prototype/proto-modals.js:207-210 | a client decision keeps the invariant for its tasks and its release |
| `WorkflowReleases.PublishKeeps` | docs/design-reference/prototype/proto-modals.js:196-199 | publishing keeps the invariant; the release it leaves is approved and signed off |
| `WorkflowReleases.AskApprovalKeeps` | docs/design-reference/prototype/proto-modals.js:205 | asking for approval creates at most one sign-off request per release |
| `WorkflowReleases.RollBackKeeps` | docs/design-reference/prototype/proto-modals.js:204 | rolling back keeps the invariant although it writes statuses itself |
| `WorkflowRuns.ReadyTasksAreReady` | docs/design-reference/prototype/proto-modals.js:188 | the tasks collected for a new release are exactly the ready ones of its project in no release, each once |
| `WorkflowRuns.NewReleaseKeeps` | docs/design-reference/prototype/proto-modals.js:187-190 | creating a release keeps tasks and releases naming each other |
| `WorkflowRuns.JoinReleaseKeeps` | docs/design-reference/prototype/proto-modals.js:191-195 | adding a task to a release does too, and an approved release goes back to waiting |
| `WorkflowRuns.ReleaseStepKeeps` | docs/design-reference/prototype/proto-pages.js:190-196 | every offered release button keeps the invariant |
| `WorkflowRuns.StepKeeps` | docs/design-reference/prototype/proto-pages.js:68-89 | every offered button of the desk keeps the invariant and undoes no completion; all but closing and reopening leave resolved and closed tickets as they are |
| `WorkflowRuns.RunKeeps` | docs/design-reference/prototype/proto-pages.js:68-89 | so does every run of buttons, and no completed development task is undone |
| `WorkflowRuns.PublishedWasTested` | docs/design-reference/prototype/proto-core.js:68-84 | in every reachable state a development task at or past client sign-off, blocked or not, has a QA pass more recent than its last start, return, rollback or test |
| `WorkflowRuns.HistoryIsTraced` | docs/design-reference/prototype/proto-core.js:68-84 | in every reachable state no task rests in a transient status, and its history is a chain ending at its status, broken only by rolled back live tasks |
| `WorkflowRuns.RollbackConnectsIffRequired` | docs/design-reference/prototype/proto-modals.js:204 | a rollback keeps the history connected if and only if the task was waiting for one |
| `WorkflowCleared.GapIsReached` | docs/design-reference/prototype/proto-modals.js:204 | a run of buttons from the empty desk after which the history of a rolled back task has a gap |
| `WorkflowRuns.ResolvedIsDone` | docs/design-reference/prototype/proto-core.js:81 | in every reachable state a resolved or closed ticket has only completed tasks |
| `WorkflowRuns.ResolvedIsNotPulledBack` | docs/design-reference/prototype/proto-core.js:83 | no button but its own close and reopen changes the status of a resolved or closed ticket, whatever happens to its tasks |
| `WorkflowRuns.ResolvedStays` | docs/design-reference/prototype/proto-core.js:81-83 | over any run in which it is not reopened a resolved ticket stays resolved or closed, and a closed one closed |
| `WorkflowRuns.CompletedIsFinal` | docs/design-reference/prototype/proto-core.js:81 | a completed development task stays completed after every run |
| `WorkflowRuns.ApprovedIsApproved` | docs/design-reference/prototype/proto-modals.js:200-209 | in every reachable state a release past the request for approval has every slot filled and the client's sign-off where required |
| `WorkflowRuns.OneReleaseOnce` | docs/design-reference/prototype/proto-modals.js:187-195 | in every reachable state no task is in two releases or twice in one |
| `WorkflowHeld.DoomedIsHeldForever` | docs/design-reference/prototype/proto-modals.js:194-209 | once the client asked for changes, or the client's slot is open with no request pending and none to come, no run ever makes the release approved or publishable |
| `WorkflowHeld.StepKeepsDoomed` | docs/design-reference/prototype/proto-modals.js:187-210 | no single button lifts that condition |
| `WorkflowSignOffs.ReachableGood` | docs/design-reference/prototype/proto-modals.js:205-209 | in every reachable state each answered request is recorded on its release, and a release that asked for approval and needs the client has a request |
| `WorkflowPipeline.ReadyTaskFromAnywhere` | docs/design-reference/prototype/proto-pages.js:68-89 | from every state that keeps the invariant some run of buttons takes a new task of any project to ready-to-publish and touches no release or sign-off |
| `WorkflowCleared.CanBeCleared` | docs/design-reference/prototype/proto-modals.js:194-209 | whatever release is not doomed, some run of offered buttons fills every slot and signs it off |
| `WorkflowCleared.HeldForeverIffDoomed` | docs/design-reference/prototype/proto-modals.js:194-209 | in every reachable state a release is held for ever if and only if it is doomed |
| `WorkflowCleared.AddingDoomsApproved` | docs/design-reference/prototype/proto-modals.js:191-195 | adding a task to an approved release dooms it if and only if the client is among its approvers |
| `WorkflowCleared.NewReleaseDoomedIff` | docs/design-reference/prototype/proto-modals.js:187-190 | a new release is doomed from the start if and only if the client is an approver and no sign-off is required |
| `WorkflowCleared.SentBackIsReached` | docs/design-reference/prototype/proto-modals.js:207-210 | a run of buttons from the empty desk to a release sent back for ever |
| `WorkflowCleared.LostSlotIsReached` | docs/design-reference/prototype/proto-modals.js:191-195 | a run of buttons from the empty desk to a signed-off release that has lost the client's slot for ever |
| `WorkflowOutcomes.ResultMeans` | docs/design-reference/prototype/proto-modals.js:128-136 | where a test result leaves the task, its assignment and the client's requests |
| `WorkflowOutcomes.LiveResultMeans` | docs/design-reference/prototype/proto-modals.js:132 | a live result marks the release and moves exactly its live tasks, to completed or to rollback |
| `WorkflowOutcomes.LivePassResolves` | docs/design-reference/prototype/proto-modals.js:132 | passing the live check resolves every ticket with a live task in the release whose tasks are all completed then |
| `WorkflowOutcomes.DecisionMeans` | docs/design-reference/prototype/proto-modals.js:207-210 | what the client's decision makes of the listed tasks and of the release |
| `WorkflowOutcomes.ApprovalMeans` | docs/design-reference/prototype/proto-modals.js:97-100 | what approving a review makes of the task and its review task |
| `WorkflowReleaseOutcomes.CreatingMeans` | docs/design-reference/prototype/proto-modals.js:187-190 | what a new release contains |
| `WorkflowReleaseOutcomes.AddingMeans` | docs/design-reference/prototype/proto-modals.js:191-195 | what adding a task makes of the release |
| `WorkflowReleaseOutcomes.AskingMeans` | docs/design-reference/prototype/proto-modals.js:205 | who is asked for approval |
| `WorkflowReleaseOutcomes.ApprovingMeans` | docs/design-reference/prototype/proto-modals.js:200-203 | what one approval makes of the release |
| `WorkflowReleaseOutcomes.PublishingMeans` | docs/design-reference/prototype/proto-modals.js:196-199 | what may be published, and what publishing does |
| `WorkflowReleaseOutcomes.RollingBackMeans` | docs/design-reference/prototype/proto-modals.js:204 | which tasks a rollback returns |
| `WorkflowButtons.BlockRoundTrip` | docs/design-reference/prototype/proto-modals.js:73-76 | blocking and unblocking brings a task back to its status with exactly two history entries more, and touches no other old task |
| `WorkflowButtons.UnblockReturns` | docs/design-reference/prototype/proto-pages.js:83 | unblocking re-enters exactly the remembered status, with a standing QA pass wherever that status needs one |
| `WorkflowButtons.StartVoids` | docs/design-reference/prototype/proto-core.js:68-84 | starting a task, for the first time or again, leaves no QA pass standing |
| `WorkflowButtons.ReviewTaskIsFound` | docs/design-reference/prototype/proto-modals.js:92-100 | the review task that opening a pull request creates is the one that approving finds and finishes |
| `WorkflowButtons.OverrideMoves` | docs/design-reference/prototype/proto-modals.js:106-109 | after an override the checks count as passed, and the task moves on if and only if its review was approved before |
| `WorkflowButtons.FixOpensRetest` | docs/design-reference/prototype/proto-pages.js:79 | a submitted fix ends under retest with an open assignment, two entries later and with no pass standing |
| `WorkflowButtons.ConvertedWaits` | docs/design-reference/prototype/proto-modals.js:175-178 | a converted ticket lists its new tasks last and cannot be resolved before they are done |
| `WorkflowButtons.TicketCanGoOn` | docs/design-reference/prototype/proto-modals.js:180-185 | a resolved ticket can be closed or reopened, a closed one only reopened, a reopened one resolved again; all its tasks are completed |
| `WorkflowApp.App.Transit` | docs/design-reference/prototype/proto-core.js:68-84 | the engine's in-place transition equals the specified one, automatic step included; `WorkflowEngine` says what that one does |
| `WorkflowApp.App.FollowTicket` | docs/design-reference/prototype/proto-core.js:83 | the ticket line equals the specified change |
| `WorkflowApp.App.ResolveIfDone` | docs/design-reference/prototype/proto-core.js:81 | resolves the linked ticket exactly when all its tasks are completed |
| `WorkflowApp.App.JoinSignOff` | docs/design-reference/prototype/proto-core.js:78 | joins the newest pending sign-off of the organisation, or a new one |
| `WorkflowApp.App.ForEach` | docs/design-reference/prototype/proto-modals.js:132 | the loop over linked tasks equals the specified fold |
| `WorkflowApp.App.SaveTask` | docs/design-reference/prototype/proto-modals.js:46-54 | keeps the invariant and every old row; the new task is a development task exactly in that category, in no release and without a QA pass |
| `WorkflowApp.App.PressAssign` | docs/design-reference/prototype/proto-modals.js:57-71 | keeps the invariant and every other task; the task can be started by its new assignee, and its history is untouched |
| `WorkflowApp.App.PressBlock` | docs/design-reference/prototype/proto-modals.js:73-76 | keeps the invariant; pressing unblock next brings the task back where it was, two entries later, with every other old task untouched |
| `WorkflowApp.App.PressUnblock` | docs/design-reference/prototype/proto-pages.js:83 | keeps the invariant; the task is in the status it was blocked in, which a QA pass still backs where one is needed |
| `WorkflowApp.App.PressComplete` | docs/design-reference/prototype/proto-modals.js:88 | keeps the invariant and every ticket; only a management task is completed by hand, a development task goes on to review |
| `WorkflowApp.App.PressRequestReview` | docs/design-reference/prototype/proto-modals.js:92-95 | keeps the invariant; the pull request is open and its review task is the one that approving will find |
| `WorkflowApp.App.PressApprove` | docs/design-reference/prototype/proto-modals.js:100 | keeps the invariant; finishes the newest review task, and the task goes on exactly if its required checks pass, the two late ones being waited for |
| `WorkflowApp.App.PressRequestChanges` | docs/design-reference/prototype/proto-modals.js:102 | keeps the invariant; the task is back with the developer and no QA pass stands any more |
| `WorkflowApp.App.PressOverride` | docs/design-reference/prototype/proto-modals.js:106-109 | keeps the invariant; the checks count as passed, and the task is ready for QA if and only if its review was approved before |
| `WorkflowApp.App.PressSendForTesting` | docs/design-reference/prototype/proto-modals.js:111-114 | keeps the invariant; the task is under test: no pass stands and its open assignment offers a result |
| `WorkflowApp.App.PressSubmitFix` | docs/design-reference/prototype/proto-pages.js:79 | keeps the invariant; the task is under test again, by a retest, and does not rest in the transient status |
| `WorkflowApp.App.PressResult` | docs/design-reference/prototype/proto-modals.js:128-135 | a staging pass leads to the client, listed on a pending request, exactly if the project requires sign-off and the client sees the task, and otherwise to ready-to-publish; a failure returns it; a live result marks the release and completes or sends to rollback exactly its live tasks; keeps the invariant and undoes no completion |
| `WorkflowApp.App.PressDecide` | docs/design-reference/prototype/proto-modals.js:207-210 | an approval makes exactly the listed tasks that wait for the client ready and fills the client's slot; a request for changes returns them and holds the release; keeps the invariant and undoes no completion |
| `WorkflowApp.App.PressConvert` | docs/design-reference/prototype/proto-modals.js:175-178 | keeps the invariant and every old task; the ticket lists the new ones after its own, and cannot be resolved before they are done |
| `WorkflowApp.App.PressStartWork` | docs/design-reference/prototype/proto-support.js:68 | keeps the invariant; exactly one task is new, it can be finished, and the ticket cannot be resolved before it is |
| `WorkflowApp.App.PressTicket` | docs/design-reference/prototype/proto-modals.js:180-185 | keeps the invariant; the ticket has only completed tasks, and can next be closed exactly after resolving, resolved exactly after reopening |
| `WorkflowApp.App.CollectReady` | docs/design-reference/prototype/proto-modals.js:188 | collects the ready tasks, newest first |
| `WorkflowApp.App.PressCreateRelease` | docs/design-reference/prototype/proto-modals.js:187-190 | a draft with every approval open that takes in exactly the ready tasks, if asked; keeps the invariant and undoes no completion |
| `WorkflowApp.App.PressAddToRelease` | docs/design-reference/prototype/proto-modals.js:191-195 | the task comes last in the release; an approved release has all its approvals to get again; keeps the invariant and undoes no completion |
| `WorkflowApp.App.PressRequestApproval` | docs/design-reference/prototype/proto-modals.js:205 | each approver but the client gets one task and nobody else does; the client gets the one request a release ever gets; keeps the invariant and undoes no completion |
| `WorkflowApp.App.PressApproveRelease` | docs/design-reference/prototype/proto-modals.js:200-203 | fills its slot and no other, finishes the person's newest approval task, and approves the release exactly when that was the last thing missing; keeps the invariant |
| `WorkflowApp.App.PressPublish` | docs/design-reference/prototype/proto-modals.js:196-199 | only tasks that stand tested in a fully approved, signed-off release are published; exactly its ready tasks go live, with one pending live check; or it is scheduled; keeps the invariant |
| `WorkflowApp.App.PressRollback` | docs/design-reference/prototype/proto-modals.js:204 | returns exactly the release's tasks that are out, with the history entry written directly; keeps the invariant and undoes no completion |
| `SupportAnswers.AvailableIsFree` | docs/design-reference/prototype/proto-support.js:38 | available means present, and with fewer open tickets and active tasks together than the limit |
| `SupportAnswers.RoutedTo` | docs/design-reference/prototype/proto-support.js:39-45 | a direct ticket goes to the owner of its area, the primary developer, whoever is on call or the backup, the first in this order who is entered and free, and to the senior at level 2 if none is; any other ticket waits unassigned |
| `SupportAnswers.EscalatedTo` | docs/design-reference/prototype/proto-support.js:51 | a late ticket goes to the backup if free, else to whoever is on call, else to the senior, and from level 1 to the senior; nothing else changes |
| `SupportRouting.FirstAvailableIsFirst` | docs/design-reference/prototype/proto-support.js:43 | the candidate found is available and all before it are not |
| `SupportRouting.RoutePicksFirstAvailable` | docs/design-reference/prototype/proto-support.js:39-45 | a direct ticket goes to the first available of module owner, primary, on-call and backup, with exactly the earlier ones recorded as skipped, and to the senior at level 2 only when all are unavailable |
| `SupportRouting.AutoAssignedWithinLimit` | docs/design-reference/prototype/proto-support.js:38-43 | an automatically chosen assignee is not away and ends within the project's limit |
| `SupportRouting.RunWithinLimit` | docs/design-reference/prototype/proto-support.js:38-47 | over any run of new tickets nobody but a senior is taken past the largest limit |
| `SupportRouting.SweepRaisesByOne` | docs/design-reference/prototype/proto-support.js:51 | a sweep raises each overdue ticket below level 2 by exactly one level and changes no other |
| `SupportRouting.ThirdSweepIsIdle` | docs/design-reference/prototype/proto-support.js:51 | at a fixed clock the third sweep changes nothing |
| `SupportRouting.SecondSweepIsIdle` | docs/design-reference/prototype/proto-support.js:51 | nor does the second, when escalating is given more time than acknowledging |
| `SupportRouting.LevelsStayBounded` | docs/design-reference/prototype/proto-support.js:51-70 | no run of routing, sweeps, manual escalation or anything else takes a ticket past level 2 |
| `SupportRouting.LogIsAChain` | docs/design-reference/prototype/proto-support.js:39-70 | over any run of routing, sweeps, escalations and reassignments every hand-over names the holder before it and the last holder is the assignee |
| `SupportRouting.AcceptChainsIff` | docs/design-reference/prototype/proto-support.js:67 | accepting keeps the log a chain if and only if the assignee accepts |
| `SupportRouting.AssignChainsIff` | docs/design-reference/prototype/proto-modals.js:172 | assigning from the ticket page keeps it a chain if and only if the assignee does not change |
| `SupportRouting.EscalationReachesNobodyIff` | docs/design-reference/prototype/proto-support.js:51 | a first-level escalation hands the ticket to nobody if and only if nobody real is on call and the backup holds the ticket already or is unavailable |
| `SupportRouting.SweepReachesNobodyIff` | docs/design-reference/prototype/proto-support.js:51 | so does a whole sweep, the backup judged when the sweep comes to the ticket |
| `SupportRouting.StaffedRosterReachesSomebody` | docs/design-reference/prototype/proto-support.js:51 | with real people on call every ticket a sweep escalates reaches somebody |
| `SupportRouting.NobodyIsReached` | docs/design-reference/prototype/proto-support.js:51 | a concrete desk on which a sweep hands a ticket to the placeholder |
| `SupportRoutingApp.SupportApp.CountLoad` | docs/design-reference/prototype/proto-support.js:38 | counts the open tickets and active tasks of a user |
| `SupportRoutingApp.SupportApp.IsAvailable` | docs/design-reference/prototype/proto-support.js:38 | available means not away and below the project's limit |
| `SupportRoutingApp.SupportApp.Route` | docs/design-reference/prototype/proto-support.js:39-45 | the loop over candidates gives the specified routed ticket and trail; it goes to the first free of area owner, primary, on-call and backup, or to the senior |
| `SupportRoutingApp.SupportApp.RaiseCase` | docs/design-reference/prototype/proto-support.js:39-47 | keeps the level bound and the chains; whoever is chosen automatically is present and within the project's limit |
| `SupportRoutingApp.SupportApp.EscalateOverdue` | docs/design-reference/prototype/proto-support.js:51 | the sweep equals the specified one, returns the total rise in levels, and keeps the level bound and the chains |
| `SupportRoutingApp.SupportApp.EscalateTicket` | docs/design-reference/prototype/proto-support.js:69 | one level up but never past 2, to the person named, the log still a chain, and the new assignee is not overdue |
| `SupportRoutingApp.SupportApp.ReassignTicket` | docs/design-reference/prototype/proto-support.js:70 | refuses somebody who is away and changes nothing then; otherwise the person named has the ticket at the same level, with a new deadline where it starts again; the log stays a chain |
| `SupportRoutingApp.SupportApp.AcceptTicket` | docs/design-reference/prototype/proto-support.js:67 | an accepted ticket is never escalated by any later sweep, and its log stays a chain if and only if the assignee accepts |
| `SupportClient.Client.Ask` | packages/support-sdk/src/client.ts:174-191 | the cache answers if and only if its session has more than the lead time left; otherwise the caller shares one mint with everybody who asks until it settles, and only a throwing provider leaves him without |
| `SupportClient.Client.OnDelivered` | packages/support-sdk/src/client.ts:182-184 | from then on the cache hands out that session until the lead time begins, even when its mint is older than a reset |
| `SupportClient.Client.OnSettled` | packages/support-sdk/src/client.ts:186-188 | whoever asks next and is not served from the cache starts a mint of his own |
| `SupportClient.Client.ResetAndAsk` | packages/support-sdk/src/client.ts:167-169 | after a 401 the mint waited for was started after that 401 |
| `SupportClientRuns.StepKeepsFlight` | packages/support-sdk/src/client.ts:146-191 | every step keeps mints in flight within resets plus the pending one, and what is pending in flight |
| `SupportClientRuns.FlightFromStart` | packages/support-sdk/src/client.ts:146-191 | over every interleaving the mints in flight never exceed one plus the number of resets |
| `SupportClientRuns.CallsFromStart` | packages/support-sdk/src/client.ts:159-171 | over every interleaving a call runs at most twice, the second time only after a 401 and with a mint started since; all its requests are the same; no key has two tickets |
| `SupportClientRetries.TwoSendsHaveA401Between` | packages/support-sdk/src/client.ts:159-171 | in every run, between two sends of one call lies a 401 for it, and the second carries the token of a mint started at that answer |
| `SupportClientRetries.OtherAnswerEndsTheCall` | packages/support-sdk/src/client.ts:159-171 | any answer but a first 401 closes the call, and no continuation puts it on the wire again |
| `SupportClientRetries.First401MintsAfresh` | packages/support-sdk/src/client.ts:164-169 | after a first 401 nothing is cached and the call waits for a mint started at that moment, unless the provider throws |
| `SupportClientRuns.SessionHandedOut` | packages/support-sdk/src/client.ts:174-201 | over every interleaving a call comes by a session only from the cache, on its first attempt and with more than the lead time left, or from the mint it waited for; a mint really delivered it |
| `SupportClientRuns.OneTicketExactlyWithKey` | packages/support-sdk/src/client.ts:84-115 | both attempts of a submission make at most one ticket if and only if it carried an idempotency key, and they do make one |
| `SupportClientRuns.ResetHoldsExactly` | packages/support-sdk/src/client.ts:145-149 | a reset keeps its promise for every continuation if and only if no mint is running when it is called |
| `SupportWidget.Widget.Set` | packages/support-sdk/src/widget.ts:153-158 | stores the state and leaves every subscriber's last delivered state equal to it |
| `SupportWidget.Widget.Subscribe` | packages/support-sdk/src/widget.ts:49-53 | a new subscriber is told the current state at once, and nobody else is told anything |
| `SupportWidget.Widget.Unsubscribe` | packages/support-sdk/src/widget.ts:52 | the listener keeps what it was told and is no longer among those that `Set` tells |
| `SupportWidget.OnlyAllowedSubmits` | packages/support-sdk/src/widget.ts:56-97 | under every interleaving the capabilities held by the state or by a pending submit allow raising a ticket |
| `SupportWidget.OpeningLoads` | packages/support-sdk/src/widget.ts:56-71 | after every run, an opening that comes back loads exactly the capabilities it got if they allow a ticket, and otherwise gives support's reason or sorts the failure |
| `SupportWidget.OpeningBegins` | packages/support-sdk/src/widget.ts:56-57 | while it loads nothing can be submitted |
| `SupportWidget.SubmitShows` | packages/support-sdk/src/widget.ts:79-151 | the state of a settled submit for every result: the ticket, the form again, or the failure in its own words |
| `SupportWidget.SubmitOutcome` | packages/support-sdk/src/widget.ts:79-151 | after every run, and whatever happens while the submit is under way, it settles into the state its own result and the form it began with dictate; the form is kept exactly when support was reached and did not refuse |
| `SupportWidget.FormSurvives` | packages/support-sdk/src/widget.ts:79-151 | over every run without another opening, an outage or a 403 a loaded form stays, whatever resets and submits happen |
| `Base64.DecodeOfEncode` | packages/support-sdk/src/validation.ts:143-151 | the model's base64 of section 4 of RFC 4648 decodes back to the bytes |
| `Base64.TestVectors` | packages/support-sdk/src/validation.ts:143-151 | the model's base64 gives the test vectors of section 10 of RFC 4648 |
| `Base64.LengthOfEncoding` | packages/support-sdk/src/validation.ts:152-164 | for every byte sequence and every text that is its encoding with white space inserted, the computed length is the number of bytes |
| `Base64.LengthOfDecodable` | packages/support-sdk/src/validation.ts:152-164 | whatever decodes is measured exactly |
| `Base64.InsertedSpaceIsDropped` | packages/support-sdk/src/validation.ts:153 | white space may be inserted anywhere |
| `Base64.MeasuredDecodesIffPaddedAtEnd` | packages/support-sdk/src/validation.ts:154-163 | a text with a non-zero length is base64 if and only if its only padding is the counted one at the end |
| `Base64.PaddingAloneHasALength` | packages/support-sdk/src/validation.ts:154-163 | four padding signs are measured as one byte although they do not decode |
| `Validation.FileIsAcceptedBySize` | packages/support-sdk/src/validation.ts:127-139 | encoded content is accepted exactly between 1 byte and 10 MiB, and otherwise reported as empty or as too big |
| `Validation.ValidateAttachments` | packages/support-sdk/src/validation.ts:98-142 | the problems in file order; none exactly when at most five files with good names, types and sizes |
| `Validation.ValidateMetadata` | packages/support-sdk/src/validation.ts:65-96 | the problems in entry order; none exactly when the metadata is within every bound |
| `Validation.ValidateIssue` | packages/support-sdk/src/validation.ts:24-63 | the problems in form order; none exactly when the issue may be sent |
| `ValidationProblems.ReportedIffWrong` | packages/support-sdk/src/validation.ts:24-142 | a problem is reported exactly when the issue has it, every limit written out |
| `ValidationProblems.ProblemsInFormOrder` | packages/support-sdk/src/validation.ts:24-63 | problems come in the order of the form, those of files by file |
| `TenantStamp.LiteralIsRead` | apps/api/src/database/tenant-aware-pool.ts:83-89 | a text without quotes inside a literal is read back as that text |
| `TenantStamp.StampIsWritten` | apps/api/src/database/tenant-aware-pool.ts:82-95 | the statement as it is sent, with the ids in lower case, or empty, in place |
| `TenantStamp.SettingsTellIdsApart` | apps/api/src/database/tenant-aware-pool.ts:92-95 | two settings are equal exactly for ids that differ at most in letter case, and not empty |
| `TenantStamp.StampSetsContext` | apps/api/src/database/tenant-aware-pool.ts:82-95 | running the stamp sets the captured ids character by character in lower case, 36 of them, or the empty text for a missing or ill-formed one, and the role |
| `TenantPool.StepKeepsInv` | apps/api/src/database/tenant-aware-pool.ts:50-80 | every step keeps what each request and connection is known to carry |
| `TenantPool.CallerIsServed` | apps/api/src/database/tenant-aware-pool.ts:50-80 | over every interleaving that follows a call of connect, the connection it is given carries the caller's own tenant and user |
| `TenantPool.HolderFindsItsTenant` | apps/api/src/database/tenant-aware-pool.ts:50-80 | over every interleaving a request holds its connection alone, finds on it its own well-formed ids in lower case (empty only for a missing or ill-formed one), and never one whose stamp failed |
| `TenantPool.HoldersAreKeptApart` | apps/api/src/database/tenant-aware-pool.ts:50-95 | two holders with well-formed organisation ids find the same tenant exactly when the ids differ at most in letter case, and never none |
| `TenantPool.StampAlwaysRuns` | apps/api/src/database/tenant-aware-pool.ts:82-89 | the captured stamp of every request is a statement the reader accepts |
| `TenantPool.TenantAwarePool.Connect` | apps/api/src/database/tenant-aware-pool.ts:50-54 | keeps the invariant and every earlier request; whatever happens afterwards, a connection this request holds carries the tenant and user current at the call |
| `TenantPool.TenantAwarePool.HandOver` | apps/api/src/database/tenant-aware-pool.ts:55-79 | the request gets the stamped connection, or the error and the connection is destroyed |

## Left out

- Who may press a button: roles decide who sees it enabled, and every proof holds whoever presses.
- Notifications, audit text, comments, replies, labels, dates, time spent and other fields that no guard reads.
- Aliasing of task, ticket and release objects: rows are values in lists, written back in place.
- Objects missing from a list: project, release and task ids come from the pages' own choices.
- The mobile front ends, the demo data, IVR calls, callbacks, problems and root-cause forms, and similarity scores.
- The automatic closing of resolved tickets, which the prototype only mentions.
- A task created with a ticket preset: nothing passes one.
- `WorkflowApp.App`: ticket status changes by support (waiting, replying, accepting) are one guarded assignment in `Workflow` and have no method of their own here.
- `SupportRoutingApp.SupportApp`: the candidate list is built by a function, and the wording of the recorded reasons is reduced to the candidates skipped.
- Rendering, React and DOM work around the template runtime, external modules and the other parts of its support file.
- Expression values: member lookup, the two equalities, truth and number conversion are uninterpreted.
- `ExprTheorem.ResolveRender`: string literals have matched brackets of each kind and no equality operator outside them; the code misreads every other one somewhere, as `ExprLiterals.SafeLiteralIff` proves.
- `StreamTracker.Tracker.LiveOne`: the clock is taken never to run backwards.
- Row identifiers: a row's id is its position in the order of creation, where the source prints a counter.
- UTF-16: strings are sequences of characters, so lengths differ from JavaScript's for characters outside the basic plane.
- `SupportClientRuns.CallsFromStart`: abort signals and transport retries below one call are not modelled.
- `SupportWidget.Widget.Set`: listeners that call back into the widget are not modelled.
- `TenantPool.HolderFindsItsTenant`: statements that a request runs itself on its connection may change the settings; the pool only promises them at hand-over.
- Pool limits, idle timeouts and connection errors before the stamp.
- Metadata keys with special meaning to JavaScript objects, and their order beyond the order given.
