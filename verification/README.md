# Holloway, modelled and proved in Dafny

Holloway is a contract server for agents over Postgres. This project models the
parts of it that compile, scan, sign, or run as protocols of atomic database
statements, and proves what they promise for every input, every run and every
interleaving. `dafny verify dfyconfig.toml` checks all of it.

| file | what it models |
|---|---|
| `Text.dfy`, `TextLaws.dfy` | splitting, joining, trimming, decimal numerals, and their laws |
| `SelectParser.dfy`, `SelectReading.dfy` | the nested select language and its cutter; what select lists and `or` texts are read as |
| `Sql.dfy`, `QueryFilters.dfy`, `QuerySelect.dfy` | SQL conditions over tables in three-valued logic, and the compilation of filters, foreign-key paths and `inner` relations to them |
| `Renumber.dfy`, `QueryText.dfy` | the rendered text, and the renumbering of placeholders in it by regular expression |
| `OrExpression.dfy`, `QueryBuilder.dfy` | the text form of `or` groups; the builder class whose methods produce the text |
| `QueryAnswers.dfy` | what each kind of filter answers, in the values of a row alone |
| `SqlText.dfy`, `QueryReading.dfy` | the rendered text read back character by character |
| `Json.dfy`, `Canonical.dfy`, `CanonicalText.dfy` | JSON over UTF-16 units, canonical text (RFC 8785) and what it is unit by unit, what is signed |
| `WebhookDelivery.dfy`, `WebhookSteps.dfy`, `WebhookEndings.dfy`, `WebhookLimits.dfy` | first attempts, any number of retry workers with stale snapshots, operators who clear webhooks and requeue; when an ending lasts; how often a delivery is sent |
| `Reactor.dfy`, `ReactorTriage.dfy` | triage, the drain loop, and sequences of passes with arrivals between them |
| `Closure.dfy`, `TurnState.dfy`, `WhoseMove.dfy`, `Lifecycle.dfy`, `LifecycleSteps.dfy`, `Succession.dfy` | how a contract ends, whose move it is, its life as interleaved steps, when it becomes active, what is offered for continuation |
| `Markdown.dfy`, `MarkdownBreaks.dfy` | the scanner that refuses escaped breaks and the one that restores them |
| `Idempotency.dfy`, `IdempotencySteps.dfy`, `Approvals.dfy`, `ApprovalSteps.dfy`, `ReloadBudget.dfy`, `RateLimit.dfy` | smaller protocols and limiters |
| `ContractLinks.dfy` | the batched link lookup against the single one, and the notions of a successor |
| `Reputation.dfy` | the reputation aggregate over real numbers |

A database is a map from keys to rows; a request is a process that moves from one
statement to the next, and a run is any sequence of enabled steps of any number of
processes. What a process read earlier it keeps, stale or not. Clocks, send results,
worker outcomes, authorisation checks and the outcome of storing are parameters of
the steps, so the theorems hold for all of them. In `Lifecycle.dfy` the step `Sweep` is
`ops/bin/a2a-contract-expiry-sweep` and `OldSweep` is `scripts/contract-expiry-sweep.sh`.
An operator's name is an e-mail address: the login accepts nothing else.

## Where the code does not keep its promise

The model does what the code does. Each of these is stated as a lemma: the case that
fails, and, where a condition tells the cases apart, exactly when the promise holds.

- Filters: a `not.in` filter that is negated compiles to `not in` all the same
  (`QueryFilters.ScalarMeaningExactly`).
- UPDATE renumbering rewrites a `$` before a digit inside an operator's own text
  (`QueryText.ShiftedWhere`).
- Select lists: a hint equal to the head of the relation, `inner` or `left` is lost
  (`SelectParser.ParseInvertsPrint`).
- Canonical text: numbers that do not fit a double are signed like null
  (`Canonical.CanonicalExactly`, `Canonical.OverflowSignsLikeNull`).
- Filters: an operator of several words, or a keyword, is sent as it is and read as
  something else (`QueryReading.WhereTextExactly`).
- Webhooks: a worker that read a delivery while its webhook had no address gives it up
  by its id alone, so a delivered one ends as failed, one that is being sent is failed
  under its owner, and a requeue then gives it two owners (`WebhookEndings.EndedLastsExactly`,
  `WebhookEndings.OwnedExactly`, `WebhookEndings.FailedAfterSuccess`,
  `WebhookEndings.TwoOwners`). While the webhook keeps an address none of this happens
  (`WebhookEndings.AddressedIsSafe`).
- Webhooks: when the update that counts a first attempt fails, one send more than
  `max_retries` can happen (`WebhookLimits.OverLimitExactly`,
  `WebhookLimits.UncountedFirstAttempt`). An operator's requeue checks the attempts in
  one statement and writes in the next: a delivery whose last attempt fails in between
  waits again, and no worker will ever take it (`WebhookLimits.LateRequeue`,
  `WebhookLimits.WaitsInVainExactly`).
- Reactor: of copies with different timestamps the older one is kept, and the message
  is lost when it goes stale (`Reactor.NothingLostExactly`,
  `Reactor.OlderCopyLosesTheMessage`).
- Lifecycle: the expiry on read writes without checking the status again, so it can
  write over an ending (`Lifecycle.EndedChangesOnlyByExpiry`). The kill switch and the
  older sweep script pass the completion gate, under names the classifier does not know:
  the contract counts as closed by a participant (`Lifecycle.GateHoldsExactly`,
  `Lifecycle.KillSwitchPassesTheGate`).
- Idempotency: the `response` column is declared `NOT NULL`
  (`migrations/20260401072500_idempotency_keys.sql`) and a claim stores null in it, so no
  claim succeeds and concurrent requests with one key all proceed
  (`Idempotency.ExclusiveExactly`); the comment in `src/lib/idempotency.ts` and the
  documentation promise otherwise. What is promised is proved for a schema that allows null,
  and what that schema keeps for the repository's own (`Idempotency.ProceedsExactly`).
- Links: an id in capitals is found by the single lookup and not by the batch
  (`ContractLinks.BatchAgreesExactly`); a successor whose contract came back without a
  title is not seen by the inspector (`ContractLinks.InspectorSeesExactly`).
- Reloads: a reload the browser does not let the log record does not count against the
  budget, which can then be exceeded (`ReloadBudget.ExceededExactly`); a browser that
  refuses storage has none (`ReloadBudget.NoStorageNoBudget`).
- Approvals: a key rotation that an operator runs is for the agent it is given, which is
  not compared with the one the approval was for (`Approvals.AnyAgentsKeys`).

## Model

| member | source | states |
|---|---|---|
| `SelectParser.SlicesByPosition` | src/lib/db/client.ts:60-72 | scanning by position with `depth` and `start` cuts the same slices as scanning the text that is left |
| `SelectParser.ScanSlices` | src/lib/db/client.ts:60-72 | the scanning loop yields the trimmed slices of the specification |
| `SelectParser.SplitTopLevel` | src/lib/db/client.ts:60-75 | the loop and the final filter give exactly the non-empty trimmed slices between commas outside parentheses |
| `SelectParser.TopLevelOfJoin` | src/lib/db/client.ts:60-75 | cutting inverts comma-joining on balanced, trimmed, non-empty tokens |
| `SelectParser.ParseRelation` | src/lib/db/client.ts:77-93 | what parsing a printed relation gives: alias, table and columns always survive, the hint and the join flag as the code reads them |
| `SelectParser.TokenInvertsPrint` | src/lib/db/client.ts:77-98 | a printed item is parsed back if and only if it is readable: its hint differs from its head, `inner` and `left`, and its table is not `inner` unless it joins |
| `SelectParser.ParseInvertsPrint` | src/lib/db/client.ts:60-98 | a printed select tree of any nesting is parsed back if and only if every relation in it is readable |
| `SelectParser.RepeatedHintIsLost` | src/lib/db/client.ts:80-91 | the hint equal to the head of the relation is dropped: the concrete case in which the round trip fails |
| `Sql.ReadDisjBack` | src/lib/db/client.ts:349-360 | a clause read back under the precedence of `not`, `and`, `or` is the clause that was written, whatever follows |
| `Sql.ReadConjBack` | src/lib/db/client.ts:349-360 | the same for conjunctions |
| `Sql.ReadBack` | src/lib/db/client.ts:205-232 | the same for single conditions, `in` lists and nested `exists` included |
| `Sql.ShiftDisjMeaning` | src/lib/db/client.ts:434-439 | shifting every placeholder and putting values in front of the parameters changes no three-valued answer |
| `Sql.ShiftConjMeaning` | src/lib/db/client.ts:434-439 | the same for conjunctions |
| `Renumber.ShiftTextIsShift` | src/lib/db/client.ts:437 | replacing `$n` by regular expression in rendered text equals rendering the shifted tokens if and only if no operator text holds `$` before a digit |
| `Renumber.ShiftTextAppend` | src/lib/db/client.ts:437 | the replacement of a concatenation is that of the parts when no number straddles the seam |
| `QueryFilters.ScalarMeaning` | src/lib/db/client.ts:205-232 | the compiled filter answers on every value as the filter it is understood as: itself, or for a negated `not.in` the same without the negation |
| `QueryFilters.ScalarMeaningExactly` | src/lib/db/client.ts:205-232 | the compiled filter answers like the filter on every row if and only if it is not a negated `not.in` over an empty list or one that names a value |
| `QueryFilters.Resolve` | src/lib/db/client.ts:184-191 | the first foreign key between the two tables that fits the hint |
| `QueryFilters.FilterMeaning` | src/lib/db/client.ts:327-347 | any dotted filter compiled to nested `exists` answers as some related row passing the rest of the path, a negated `not.in` as one that is not negated |
| `QueryFilters.WhereMeaning` | src/lib/db/client.ts:349-360 | any compiled WHERE has on every row the three-valued answer of the filters as understood, wherever the branches put their parameters; they are the filters asked when none is a negated `not.in` |
| `QueryFilters.WhereReadsBack` | src/lib/db/client.ts:349-360 | the tokens of the WHERE have one reading, the compiled one: parentheses stand where precedence needs them |
| `QueryFilters.EmptyGroupIsRejected` | src/lib/db/client.ts:352-355 | an `or` group without branches is not SQL |
| `QueryFilters.UpdateMeaning` | src/lib/db/client.ts:430-439 | with the SET values in front, the shifted WHERE of any filters selects the rows they are understood to ask for, and the i-th SET placeholder is bound to the i-th value |
| `QueryText.ShiftedWhere` | src/lib/db/client.ts:437 | renumbering the rendered WHERE of any filters equals rendering the shifted WHERE if and only if no filter sends an operator with `$` before a digit |
| `QueryText.CompiledFilterTokens` | src/lib/db/client.ts:205-232 | a compiled filter sends only tokens that renumbering leaves alone, unless its own operator does not |
| `SqlText.LexBack` | src/lib/db/client.ts:349-360 | the text of tokens as clauses put them splits into those tokens and no others |
| `SqlText.ReadsBackExactly` | src/lib/db/client.ts:205-232 | a clause with safe names is read back from its text if and only if each of its operators is one word that is no keyword |
| `SqlText.TextInjective` | src/lib/db/client.ts:349-360 | no two such clauses are written alike |
| `QueryReading.WhereTextExactly` | src/lib/db/client.ts:349-360 | the text of a compiled WHERE has one reading, the compiled clause, if and only if no filter sends an operator of several words or a keyword |
| `QueryReading.UpdateTextExactly` | src/lib/db/client.ts:434-439 | so has the text of an UPDATE after renumbering, and the clause it reads as selects the rows the filters ask for |
| `QuerySelect.InnerMeaning` | src/lib/db/client.ts:362-392 | the `exists` clauses of `inner` relations, nested ones included, hold exactly of the rows the select list keeps |
| `QuerySelect.SelectMeaning` | src/lib/db/client.ts:394-404 | a select returns, before order and limit, exactly the rows on which every filter as understood answers true and which the select list keeps |
| `QuerySelect.InnerClauses` | src/lib/db/client.ts:362-392 | the loop over the select list spells the clauses of the specification and counts aliases as it does |
| `QuerySelect.RelationClauses` | src/lib/db/client.ts:374-390 | one relation: its own `exists`, with those of its columns inside |
| `QuerySelect.WhereTextAppend` | src/lib/db/client.ts:394-397 | filters and inner clauses are joined as one WHERE |
| `OrExpression.ParseOrInvertsWrite` | src/lib/db/client.ts:293-306 | an `or` expression written branch by branch is parsed back to the group it stands for |
| `OrExpression.ListMembers` | src/lib/db/client.ts:215-217 | a spliced list of plain ids is taken apart again into those ids |
| `OrExpression.EitherColumnIn` | src/lib/db/client.ts:293-306 | the text that tests two columns against one list asks whether either names one of the ids |
| `OrExpression.EitherColumnIs` | src/lib/db/client.ts:293-306 | the text that tests two columns against one id asks whether either is that id |
| `QueryBuilder.CompileScalarFilter` | src/lib/db/client.ts:205-232 | pushes exactly the values of the filter and returns the text of the compiled condition with its own placeholder numbers |
| `QueryBuilder.CompileIn` | src/lib/db/client.ts:214-222 | the list part: `true` or `false` for an empty list, one placeholder for each member otherwise |
| `QueryBuilder.DirectQuery.Select` | src/lib/db/client.ts:251-257 | the select list becomes the parsed one, `count` and `head` are those given, and a statement that writes will return rows |
| `QueryBuilder.DirectQuery.Update` | src/lib/db/client.ts:265-269 | the action and the values of an update |
| `QueryBuilder.DirectQuery.Eq` | src/lib/db/client.ts:280 | appends one equality filter and changes nothing else |
| `QueryBuilder.DirectQuery.Is` | src/lib/db/client.ts:286 | appends one `is` filter |
| `QueryBuilder.DirectQuery.In` | src/lib/db/client.ts:287 | appends one list filter |
| `QueryBuilder.DirectQuery.Not` | src/lib/db/client.ts:292 | appends one negated filter |
| `QueryBuilder.DirectQuery.Or` | src/lib/db/client.ts:293-306 | appends the parsed group, or is an error and appends nothing |
| `QueryBuilder.DirectQuery.FilterClause` | src/lib/db/client.ts:327-347 | an error if and only if a name on the path is unsafe or no foreign key leads on; else the text of the filter, with the values it pushed and the aliases it took |
| `QueryBuilder.DirectQuery.GroupClauses` | src/lib/db/client.ts:352-355 | the branches of a group compiled in any order of completion are each compiled correctly for the final parameters; an error if and only if some branch is one |
| `QueryBuilder.DirectQuery.Where` | src/lib/db/client.ts:349-360 | an error if and only if some filter is one; else the text of the whole WHERE is that of a correct compilation of all filters for the final parameters |
| `QueryBuilder.DirectQuery.SelectWhere` | src/lib/db/client.ts:394-397 | an error if and only if a filter, a relation of the list or a column it names is one; else the filters, then the inner clauses |
| `QueryBuilder.DirectQuery.UpdateStatement` | src/lib/db/client.ts:412-439 | an error if and only if a filter, the table, a column to set or a column to return is unsafe; else the parameters are the SET values followed by those of the WHERE, and the text, `returning` included, is the intended update if and only if no operator text holds `$` before a digit |
| `Json.ParseValueWellFormed` | src/lib/hmac.ts:143-152 | what the JSON parser gives has distinct keys and numbers it can print |
| `Json.EscapeBack` | src/lib/hmac.ts:91-94 | a string escaped by the printer is read back unit by unit |
| `Canonical.ParseInvertsCanonicalize` | src/lib/hmac.ts:91-110 | parsing the canonical text of any value gives it back in key order, and it says the same (RFC 8785, sections 3.2.2 and 3.2.3) |
| `Canonical.CanonicalExactly` | src/lib/hmac.ts:91-110 | two values have the same canonical text if and only if they say the same once carried by JSON: key order does not count, and what JSON cannot carry is null |
| `Canonical.CanonicalInjective` | src/lib/hmac.ts:91-110 | on values JSON can carry, the canonical text is injective up to key order |
| `Canonical.SortAscending` | src/lib/hmac.ts:101 | the keys come out in strictly ascending UTF-16 order |
| `Canonical.SortMeant` | src/lib/hmac.ts:101 | sorting changes nothing of what an object says |
| `Canonical.SigningBodyIdempotent` | src/lib/hmac.ts:143-152 | the signing body of a signing body is itself |
| `Canonical.SigningBodyExactly` | src/lib/hmac.ts:143-152 | two JSON bodies are signed alike if and only if they say the same |
| `Canonical.MessageDetermines` | src/lib/hmac.ts:283 | the signed message determines its parts among those that can be received: a method, a path and header values hold no newline |
| `Canonical.DeterminedExactly` | src/lib/hmac.ts:283 | among any parts at all it determines them if and only if neither a line nor the body holds a newline |
| `WebhookDelivery.MergeHooks` | src/lib/webhooks.ts:69-75 | a webhook found by both queries is called once, with the row of the second |
| `WebhookDelivery.LastHookExactly` | src/lib/webhooks.ts:69-75 | every webhook of either list is called, and no other |
| `WebhookDelivery.DeliveryTable.Claim` | scripts/webhook-retry-worker.ts:140-157 | the compare-and-set succeeds only on a waiting row with the attempts that were read, and then claims it |
| `WebhookDelivery.DeliveryTable.Fail` | src/lib/webhook-helpers.ts:118-127 | the delivery is failed by its id, whatever its status |
| `WebhookDelivery.DeliveryTable.Settle` | scripts/webhook-retry-worker.ts:171-191 | what is written after an attempt: success, failure at the limit, or back to waiting |
| `WebhookDelivery.DeliveryTable.Requeue` | src/app/(dashboard)/protocol-inspector/actions.ts:79-90 | the update goes ahead if and only if the delivery failed or waits, and clears the time of its last retry |
| `WebhookDelivery.Due` | scripts/webhook-retry-worker.ts:92-105 | only rows due for a retry are queued, as they were read |
| `WebhookDelivery.StepInv` | scripts/webhook-retry-worker.ts:137-191 | every step of the first attempt, of any worker, of the sweep that enqueues and of operators who clear webhooks and requeue keeps the invariant of owners, numbers and spacing |
| `WebhookDelivery.OneOwner` | scripts/webhook-retry-worker.ts:140-157 | two owners of a delivery hold different numbers, and there are two only after a requeue of what a worker had skipped; until then an owner's row is `retrying`, or was skipped |
| `WebhookEndings.EndedForGood` | scripts/webhook-retry-worker.ts:171-191 | an ended delivery that nobody may still write over stays as it is in every continuation |
| `WebhookEndings.EndedLastsExactly` | scripts/webhook-retry-worker.ts:108-191 | an ended delivery stays so whatever follows if and only if no worker holds a snapshot of what succeeded that it read while the webhook had no address, no owner is left to write otherwise, and no operator may requeue what failed |
| `WebhookEndings.UnskippedExactly` | scripts/webhook-retry-worker.ts:117-127 | for a delivery nobody skipped: a success is open to such a snapshot alone, a failure to an operator who looked at it before |
| `WebhookEndings.OwnedExactly` | scripts/webhook-retry-worker.ts:122-127 | what others do to the row of an owner, before it was ever skipped: nothing, but for a worker that skips it |
| `WebhookEndings.ClearedIsRead` | scripts/webhook-retry-worker.ts:92-118 | such a snapshot is made only by reading the delivery, waiting or `retrying`, while its webhook has no address |
| `WebhookEndings.AddressedIsSafe` | src/app/(dashboard)/webhooks/actions.ts:273-276 | while its webhook keeps an address a delivery has at most one owner, its row is `retrying`, and a success is final |
| `WebhookEndings.FailedAfterSuccess` | scripts/webhook-retry-worker.ts:122-127 | the run in which a delivered delivery is given up |
| `WebhookEndings.SuccessAfterFailed` | scripts/webhook-retry-worker.ts:159-169 | the run in which it is given up while its owner sends it, and then delivered |
| `WebhookEndings.TwoOwners` | scripts/webhook-retry-worker.ts:140-157 | the run that ends with two owners |
| `WebhookDelivery.SendsBounded` | scripts/webhook-retry-worker.ts:76-81 | a delivery is sent at most `max_retries` times, and once more only if counting its first attempt failed |
| `WebhookDelivery.NumberSentOnce` | scripts/webhook-retry-worker.ts:140-157 | no attempt number is sent twice, except number 1 after that failure |
| `WebhookDelivery.ClaimsSpaced` | scripts/webhook-retry-worker.ts:76-81 | claims of one delivery are at least the retry delay apart, unless an operator requeued it |
| `WebhookLimits.UncountedFirstAttempt` | src/lib/webhooks.ts:106-147 | the run that sends `max_retries` plus one times |
| `WebhookLimits.OverLimitExactly` | src/lib/webhooks.ts:106-147 | before the first send, the limit can still be exceeded if and only if counting that attempt failed |
| `WebhookEndings.EndedExactly` | scripts/webhook-retry-worker.ts:108-191 | the statements that write over an ending: a requeue of what failed, a worker that skips what succeeded, and an owner whose delivery was skipped; no other does |
| `WebhookLimits.RequeuedAtOnce` | src/app/(dashboard)/protocol-inspector/actions.ts:79-90 | the run in which a requeued delivery is claimed at once, whenever it was claimed before |
| `WebhookLimits.LateRequeue` | src/app/(dashboard)/protocol-inspector/actions.ts:71-95 | the run in which the last attempt fails between the check and the update of a requeue, and the delivery waits again |
| `WebhookLimits.WaitsInVainExactly` | scripts/webhook-retry-worker.ts:76-81 | a waiting delivery can ever be sent again if and only if it has attempts left, or one that was claimed before it was skipped and requeued is still to be sent |
| `Reactor.Triage` | reactor/a2a_reactor/events.py:124-225 | the disposition of an event and the keys seen after it |
| `Reactor.ApplyEvent` | reactor/a2a_reactor/reactor.py:134-212 | each event moves exactly one counter of those processed when it is handled, and none of them when it is kept |
| `Reactor.Drain` | reactor/a2a_reactor/reactor.py:103-130 | `processed` and the retained events add up to the queue, for every queue, outcomes and dry run |
| `Reactor.DecisionExactly` | reactor/a2a_reactor/events.py:124-225 | what a pass decides on each event, without the set of keys: a repeat if it came before and was fresh, then stale, then what it is; and it stays queued if and only if it needed a worker and the worker failed |
| `Reactor.DealtOrKept` | reactor/a2a_reactor/reactor.py:103-130 | in a pass, a message with a fresh copy is dealt with or kept exactly once, the first fresh copy; a message without one is neither |
| `Reactor.RetainedKeysDistinct` | reactor/a2a_reactor/reactor.py:115-130 | no two retained events are the same message |
| `Reactor.RetainedInOrder` | reactor/a2a_reactor/reactor.py:115-130 | the retained events keep their order |
| `Reactor.RedrainIsIdentity` | reactor/a2a_reactor/reactor.py:103-130 | draining again at once with a worker that always fails changes nothing |
| `Reactor.AtMostOnce` | reactor/a2a_reactor/reactor.py:103-130 | over any passes with any worker and any other arrivals, a message of which no copy arrives is dealt with at most once |
| `Reactor.AtMostExactly` | reactor/a2a_reactor/reactor.py:103-130 | with arrivals between the passes, a message is dealt with at most n times whatever the worker does if and only if at most n passes meet a fresh copy that arrived since the pass before |
| `Reactor.NothingLostExactly` | reactor/a2a_reactor/reactor.py:190-212 | whatever the worker does, the message is dealt with or waits exactly once if and only if the first fresh copy at the first pass that is not dry needs no worker or is still fresh at the last |
| `Reactor.SameStampNothingLost` | reactor/a2a_reactor/reactor.py:190-212 | copies that carry one timestamp lose nothing while any of them is fresh |
| `Reactor.OlderCopyLosesTheMessage` | reactor/a2a_reactor/events.py:138-144 | the input: of an older and a fresher copy the older one is kept, the fresher one dropped, and the kept one goes stale |
| `Reactor.KeyNamesMessage` | reactor/a2a_reactor/events.py:67-89 | two events share a key if and only if they name the same message, contract ids holding no colon |
| `TurnState.OnlyExactly` | src/lib/contract-turn-state.ts:84-89 | one agent is singled out if and only if it alone passes the test |
| `TurnState.AccepterOpens` | src/lib/contract-turn-state.ts:203-217 | on an active contract without messages an agent is awaited if and only if it alone accepted the invitation |
| `TurnState.InviteeAnswers` | src/lib/contract-turn-state.ts:169-183 | on a proposed contract an agent is awaited if and only if it alone has not answered |
| `TurnState.PeerReplies` | src/lib/contract-turn-state.ts:241-264 | an agent other than the viewer owes the reply if and only if it is the only party beside the sender |
| `TurnState.TwoPartiesAgree` | src/lib/contract-turn-state.ts:111-264 | with two parties everyone is told of the same agent, and at most one is told "you", open questions included |
| `TurnState.SenderIsNotAwaited` | src/lib/contract-turn-state.ts:236-264 | whoever asked for a reply is never the one awaited, however many take part |
| `Lifecycle.StepInv` | src/lib/contract-closure.ts:18-93 | every statement of every request, of both sweeps and of the kill switch keeps the invariant of approvals, closings, turns, seats and announcements |
| `Lifecycle.CompletedMeansApproved` | src/lib/contract-closure.ts:18-35 | in every run, a contract counts as completed only if its proposer recorded approval |
| `Lifecycle.UnapprovedMeansRefused` | src/lib/contract-closure.ts:62-75 | at most one request closes a contract, and it counts as closed unapproved if and only if that one refused the work, with a reason of at least ten characters, by the proposer or an operator |
| `Lifecycle.GateHoldsExactly` | migrations/20260917160000_persist_turn_accounting.sql:168-182 | a closed gated contract is never closed by its budget, and completed only if approved; unapproved, it counts as closed by a participant if and only if the kill switch or the older sweep closed it |
| `Lifecycle.SignedByTheirSteps` | src/app/(dashboard)/kill-switch/actions.ts:117-141 | nothing else writes under the names of those two |
| `Lifecycle.KillSwitchPassesTheGate` | src/app/(dashboard)/kill-switch/actions.ts:117-127 | the input: the kill switch on any active contract whose gate is pending |
| `Lifecycle.TurnsAreCounted` | migrations/20260917160000_persist_turn_accounting.sql:118-127 | the turns of a contract are its turn-taking messages and never exceed its budget |
| `Lifecycle.EndedChangesOnlyByExpiry` | src/app/api/v1/contracts/_helpers.ts:14-62 | an ended contract stays ended, and its outcome changes if and only if an expiry read before the end is written after it, over anything but a refusal |
| `Lifecycle.EndedForGood` | src/app/api/v1/contracts/_helpers.ts:14-62 | once ended, ended in every continuation |
| `Lifecycle.LateExpiryHidesApproval` | src/app/api/v1/contracts/_helpers.ts:26-38 | the run in which a late expiry turns a completed contract into an expired one |
| `Lifecycle.ProposerCanApprove` | migrations/20260917160000_persist_turn_accounting.sql:137-152 | a spent contract whose gate is pending names its proposer to every viewer, unless the proposer waits for a person, and that proposer's approval is accepted and completes it |
| `Lifecycle.ProposerCanRefuseExactly` | src/lib/contract-closure.ts:62-75 | and its close without approval goes ahead if and only if it is reasoned, and then counts as closed unapproved |
| `Lifecycle.GateEndsExactly` | src/lib/contract-closure.ts:77-92 | what ends a contract whose gate is pending: its proposer's approval with the budget spent, a refusal, an expiry or the kill switch, and nothing else |
| `Lifecycle.SpentIsPendingOrClosed` | migrations/20260917160000_persist_turn_accounting.sql:168-182 | with a budget of at least one turn, a spent contract is still active only while its gate is pending |
| `Lifecycle.EveryoneSeesTheSameMove` | src/lib/contract-turn-state.ts:111-264 | in every reachable state of a two-party contract all viewers are told of the same agent |
| `Lifecycle.ConsumersAgree` | src/lib/contract-closure.ts:165-191 | every announced closure is read as meant; without its outcome field it is read the same if and only if it was no refusal; and announced acceptance was approved by the proposer |
| `Markdown.NormalizeMarkdownSource` | src/components/markdown-source.ts:10-47 | the loop renders the text of the specification |
| `Markdown.HasEscapedBreakOutsideCode` | src/lib/contract-description.ts:35-54 | the loop finds an escaped break outside code if there is one |
| `Markdown.StructuralAt` | src/components/markdown-source.ts:27-39 | how much of the text one real break replaces |
| `Markdown.SpanAt` | src/components/markdown-source.ts:15-25 | where a code span ends: at the next run of as many backticks |
| `Markdown.AcceptedIsUnchanged` | src/components/markdown-source.ts:10-47 | a text without an escaped break outside code is rendered as it is |
| `Markdown.NeverLonger` | src/components/markdown-source.ts:10-47 | the output is never longer, and as long only when nothing changed |
| `Markdown.NeverLongerInUnits` | src/components/markdown-source.ts:10-47 | nor is it longer in UTF-16 units, as JavaScript counts |
| `Markdown.CodeIsPreserved` | src/components/markdown-source.ts:15-25 | code spans and an unclosed tail of the output are those of the input |
| `Markdown.WordsArePreserved` | src/components/markdown-source.ts:27-43 | the output differs from the input in line breaks and the blanks after them, outside code, and in nothing else |
| `Markdown.TrimmingChangesNothing` | src/lib/contract-description.ts:77-80 | judging the trimmed text is judging the text |
| `Markdown.DescriptionIsShownAsWritten` | src/lib/contract-description.ts:63-103 | an accepted description is shown unchanged, stored or as sent |
| `Markdown.MessageAcceptedExactly` | src/lib/message-structure.ts:44-73 | a message is accepted if and only if none of its prose bodies, as sent, has an escaped break outside code or is long, in UTF-16 units, without a line break |
| `Markdown.MessageIsShownAsWritten` | src/lib/message-structure.ts:44-73 | every body of an accepted message is shown exactly as sent |
| `Idempotency.KeyTable.Claim` | src/lib/idempotency.ts:42-61 | one row for a fresh key, an error for a known one or where null is refused |
| `Idempotency.KeyTable.CheckIdempotency` | src/lib/idempotency.ts:23-99 | alone: a fresh key proceeds, an unfinished one conflicts however old it is, a stored response is replayed until it expires |
| `Idempotency.KeyTable.Store` | src/lib/idempotency.ts:105-129 | the response is stored under its key |
| `Idempotency.StepInv` | src/lib/idempotency.ts:42-98 | under any schema every step keeps each request consistent with the record under its key |
| `Idempotency.ExclusiveExactly` | migrations/20260401072500_idempotency_keys.sql:4-12 | a key keeps concurrent requests apart if and only if the schema lets the null response of a claim be stored; the schema in the repository does not |
| `Idempotency.BothProceedUnclaimed` | migrations/20260401072500_idempotency_keys.sql:9 | the run in which two requests with one key both proceed |
| `Idempotency.ReplayIsTheStoredResponse` | src/lib/idempotency.ts:83-86 | under any schema a replay was stored under its key, which stays answered; where claims can be stored it is the winner's response, and the only one replayed |
| `Idempotency.ReplayIsLastStored` | src/lib/idempotency.ts:83-86 | under any schema, at any time and after any deletion, a replay is the response stored last under that key |
| `Idempotency.ProceedsExactly` | migrations/20260401072500_idempotency_keys.sql:9 | under the schema of the repository a request proceeds if and only if nothing was stored under its key when it reads, and otherwise replays what was stored last |
| `Idempotency.StoredEndsIt` | src/lib/idempotency.ts:72-86 | under any schema, once a request has its response stored, no request that comes later or has yet to read proceeds or conflicts |
| `Idempotency.NothingIsDeleted` | src/lib/idempotency.ts:73-81 | under any schema no record goes until something expires, and a key that was answered stays answered; where claims can be stored the response never changes |
| `Idempotency.OtherKeysUntouched` | src/lib/idempotency.ts:42-60 | a request with another key, agent or endpoint changes nothing here |
| `Idempotency.EveryAnswerAccountedFor` | src/lib/idempotency.ts:72-98 | beside one that stored its response no request throws a record away; where claims can be stored it conflicts, replays that response or has no answer yet, and under the repository's own schema it never conflicts |
| `Approvals.ApprovalTable.Decide` | src/lib/approvals.ts:278-294 | a decision wins if and only if the approval is pending |
| `Approvals.ApprovalTable.Consume` | src/lib/approvals.ts:407-441 | consumption wins if and only if the approval is approved, and keeps what was asked for |
| `Approvals.KeyStore.Rotate` | src/lib/approvals.ts:357-386 | every active key of the agent expires in an hour, one key is added, no other changes |
| `Approvals.StepInv` | src/lib/approvals.ts:244-567 | every step of reviewers, of executors and of operators who run a rotation keeps each history orderly |
| `Approvals.OneDecisionOneConsumption` | src/lib/approvals.ts:244-567 | in every interleaving: at most one decision, never the requester's; at most one consumption, after an approval; at most one rotation, after the consumption, and for the agent asked for when it follows up the approval |
| `Approvals.DetailsAreThoseAskedFor` | src/lib/approvals.ts:424-442 | details stay those of the request, and when consumed extend them by who ran it and when |
| `Approvals.OneRotator` | src/lib/approvals.ts:333-352 | only one process ever rotates the keys of an approval |
| `Approvals.FollowUpsRotateAsked` | src/lib/approvals.ts:333-386 | a rotation that follows up an approval is for the agent asked for |
| `Approvals.AnyAgentsKeys` | src/app/(dashboard)/agents/[id]/actions.ts:67-112 | a rotation that an operator runs is for the agent it is given, whichever the approval was for |
| `Approvals.DecidedIsFinal` | src/lib/approvals.ts:278-294 | a decided approval is never decided again; a denied or consumed one never changes |
| `ReloadBudget.Tab.OnTick` | src/components/auto-refresh-client.tsx:189-199 | the action of a tick and the log it leaves |
| `ReloadBudget.Tab.ReloadNow` | src/components/auto-refresh-client.tsx:47-57 | the log is pruned and the new reload added, if it can be stored |
| `ReloadBudget.PrunedLogIsEnough` | src/lib/refresh-watchdog.ts:36-42 | whatever the browser stores, the pruned log never exceeds the budget and answers from then on like all the reloads it was let record |
| `ReloadBudget.ReloadsAreBounded` | src/lib/refresh-watchdog.ts:40-66 | in any run a window of the given length holds no more reloads than the budget and those in it that could not be recorded |
| `ReloadBudget.ExceededExactly` | src/components/auto-refresh-client.tsx:47-57 | reloads with given outcomes of storing can exceed the budget in some window if and only if there are more than the budget and the record of one but the last was refused |
| `ReloadBudget.NoStorageNoBudget` | src/components/auto-refresh-client.tsx:53-55 | when the log cannot be stored there is no bound |
| `RateLimit.Limiter.Check` | src/lib/rate-limit.ts:82-112 | the counter of the key's window goes up by one and decides the answer |
| `RateLimit.Limiter.Cleanup` | src/lib/rate-limit.ts:19-24 | exactly the windows that are over are dropped |
| `RateLimit.KeysAreIndependent` | src/lib/rate-limit.ts:19-32 | what a key is answered is the same without cleanups and without calls on other keys |
| `RateLimit.RefusedExactly` | src/lib/rate-limit.ts:88-112 | a call is refused if and only if its window has granted the limit, and an allowed one is told how many are left |
| `RateLimit.PerWindow` | src/lib/rate-limit.ts:88-112 | no window grants more than the limit |
| `RateLimit.TwicePerInterval` | src/lib/rate-limit.ts:88-112 | no interval of a window's length holds more than twice the limit |
| `ContractLinks.SingleQueryMeans` | src/lib/contract-links.ts:355-361 | for any id a `uuid` column takes, in whatever spelling, the text of the single lookup asks for the rows with an end that the database holds equal to it |
| `ContractLinks.BatchedQueryMeans` | src/lib/contract-links.ts:380-387 | the text of the batched lookup asks for the rows that touch any of the ids |
| `ContractLinks.SafeIds` | src/lib/contract-links.ts:209-212 | exactly the well-formed ids of the list |
| `ContractLinks.RelatedForContracts` | src/lib/contract-links.ts:374-402 | the nested loops file each row under its wanted ends, in table order, and no bucket is empty |
| `ContractLinks.BatchIsSingle` | src/lib/contract-links.ts:355-402 | every id of the batch gets exactly what its own lookup gives, in the same order |
| `ContractLinks.BatchAgreesExactly` | src/lib/contract-links.ts:389-396 | the two agree if and only if the id is written as the database writes it or no link at it yields a contract to show |
| `ContractLinks.DelegationMembers` | src/lib/contract-links.ts:412-432 | the members are the wanted ends of the delegations that touch the list |
| `ContractLinks.MembersExactly` | src/lib/contract-links.ts:412-432 | an id of the list is a member if and only if some delegation has it for an end |
| `ContractLinks.LookupsAgree` | src/lib/contract-closure.ts:109-126 | the lookup behind the closing hint finds something if and only if one of the two `not exists` conditions fails |
| `ContractLinks.InspectorSeesExactly` | src/lib/protocol-inspector.ts:121-127 | the inspector sees a successor if and only if a link that carries the work on came back with a title |
| `ContractLinks.SuccessorsAgree` | src/lib/contract-succession.ts:216-221 | the three notions of a successor agree when the far contracts come back with titles |
| `Succession.SameSetExactly` | src/lib/contract-succession.ts:137-141 | the test by size and inclusion is equality of the two as sets |
| `Succession.LikelyExactly` | src/lib/contract-succession.ts:152-173 | a candidate is offered if and only if it is unfinished and between exactly these agents |
| `Succession.OfferedOverARun` | src/lib/contract-succession.ts:152-173 | in every run a contract waiting for its proposer's decision is offered, a completed one never, and a closed gated one only if refused, expired, closed by the kill switch or the older sweep, or closed by hand after approval |
| `Reputation.BuildSignal` | src/lib/reputation-ledger.ts:286-329 | the accumulating loop computes the weighted mean of the signal's events |
| `Reputation.MeanBetween` | src/lib/reputation-ledger.ts:302-317 | a weighted mean lies between any bounds on what it is taken of |
| `Reputation.ValueBetween` | src/lib/reputation-ledger.ts:302-320 | the value of a signal with evidence lies between its least and greatest normalised event, whatever weights and ages |
| `Reputation.AggregateSound` | src/lib/reputation-ledger.ts:290-326 | every value is in the unit interval and contributes value times weight |
| `Reputation.RawScoreIsMean` | src/lib/reputation-ledger.ts:340-346 | the score before the penalty is the weighted mean of the observed signals |
| `Reputation.RawScoreBetween` | src/lib/reputation-ledger.ts:340-346 | it lies between the least and the greatest of them |
| `Reputation.ScoreBounded` | src/lib/reputation-ledger.ts:347-349 | a visible score is in the unit interval and below the mean by no more than the penalty |
| `Reputation.Dedupe` | src/lib/reputation-ledger.ts:414-420 | one event for each id, the last |
| `TextLaws.TrimExactly` | src/lib/contract-closure.ts:71 | trimming takes all white space off both ends and nothing else |
| `TextLaws.TrimmedOnce` | src/lib/contract-closure.ts:71 | and that decides what trimming gives |
| `SelectReading.CutExactly` | src/lib/db/client.ts:60-75 | a list is cut at the commas outside parentheses; blanks around an entry and entries of blanks do not count |
| `SelectReading.NestedIsWhole` | src/lib/db/client.ts:60-72 | commas between parentheses do not cut |
| `SelectReading.ColumnReads` | src/lib/db/client.ts:95-98 | `column` and `name:column` |
| `SelectReading.RelationReads` | src/lib/db/client.ts:77-93 | `alias:table!hint!inner(columns)` and its shorter forms, each with the relation it is |
| `SelectReading.BranchReads` | src/lib/db/client.ts:295-303 | `column.name.text` is the comparison the table of operators names; `is` takes null, true, and anything else as false |
| `SelectReading.UnknownIsRefused` | src/lib/db/client.ts:295-296 | any other operator is refused |
| `QueryAnswers.IsAnswer` | src/lib/db/client.ts:211-213 | on every row, `is` with null asks for a null cell, with true for a true one, with anything else for a false one; negated, the opposite |
| `QueryAnswers.IsText` | src/lib/db/client.ts:211-213 | and sends `null`, `true` or `false` accordingly |
| `QueryAnswers.SplicedExactly` | src/lib/db/client.ts:223-224 | the operands that `is not` can be followed by are those whose text is one of three words |
| `QueryAnswers.SplicedAnswer` | src/lib/db/client.ts:223-224 | and each asks for the cells that are not that |
| `QueryAnswers.InReturns` | src/lib/db/client.ts:214-222 | `in` answers true of a value that is a member, unknown while a null is about, false otherwise |
| `QueryAnswers.NotInReturns` | src/lib/db/client.ts:214-222 | `not in` returns every row for an empty list, else those whose value is none of the members, which all have values |
| `QueryAnswers.ComparisonReturns` | src/lib/db/client.ts:225-231 | any other operator compares the two values, and has no answer without both, negated or not |
| `QueryAnswers.LinkedExactly` | src/lib/db/client.ts:327-347 | a foreign key ties a row that refers to the row it refers to, from either side |
| `QueryAnswers.ResolvesExactly` | src/lib/db/client.ts:184-191 | the first foreign key that joins the two tables, either way round, and that the hint names, if there is one |
| `QueryAnswers.PathReturns` | src/lib/db/client.ts:327-347 | a dotted filter returns the rows tied to some row of the next table that the rest of the path returns |
| `QueryAnswers.WhereReturnsExactly` | src/lib/db/client.ts:349-360 | a compiled WHERE is true of exactly the rows that every filter returns and, of each `or` group, some branch |
| `CanonicalText.LessExactly` | src/lib/hmac.ts:102 | a key comes before another if and only if, after what they share, it ends or has the smaller UTF-16 unit |
| `CanonicalText.ObjectText` | src/lib/hmac.ts:101-107 | an object is written with all its keys and no other, each before those that follow it in that order, each with its own value |
| `CanonicalText.OneOrder` | src/lib/hmac.ts:102 | there is one such order of the keys |
| `CanonicalText.ArrayText` | src/lib/hmac.ts:95-98 | an array is written in the order it has |
| `CanonicalText.Words` | src/lib/hmac.ts:91-92 | the texts of null, undefined, true and false |
| `CanonicalText.NumberWords` | src/lib/hmac.ts:92 | a number is its shortest text, minus zero zero, what is not finite null |
| `CanonicalText.EscapesExactly` | src/lib/hmac.ts:93 | the escapes of a string unit by unit: the short ones, hex for other controls and lone surrogates, and no others |
| `CanonicalText.NumberExactly` | src/lib/hmac.ts:141-150 | the numbers JSON has: a sign, digits without a zero in front, a fraction, an exponent |
| `CanonicalText.RepeatedKey` | src/lib/hmac.ts:141-150 | of a repeated key the last value counts, in the place of the first |
| `CanonicalText.SpaceBefore` | src/lib/hmac.ts:141-150 | blanks before a JSON value change nothing |
| `CanonicalText.SignedBody` | src/lib/hmac.ts:141-150 | an empty body and one that is no JSON are signed as they are, JSON in canonical form |
| `CanonicalText.SignedMessage` | src/lib/hmac.ts:274 | method, path, timestamp, nonce and body in this order, a newline after each but the last |
| `WebhookSteps.InsertExactly` | src/lib/webhooks.ts:89-100 | a delivery starts pending without attempts, with five to come five seconds apart |
| `WebhookSteps.CountExactly` | src/lib/webhooks.ts:108-125 | before the request the attempt is counted; a refused host queues the delivery instead |
| `WebhookSteps.FirstAnswerExactly` | src/lib/webhooks.ts:136-148 | a successful first request ends the delivery in its row; any other leaves it to the workers at once; nothing else changes |
| `WebhookSteps.DeliveredFirstIsSentOnce` | src/lib/webhooks.ts:136-141 | a delivery whose first request succeeded stays delivered and is sent no more, in every continuation |
| `WebhookSteps.FirstDelivers` | src/lib/webhooks.ts:89-141 | the run in which the first request delivers |
| `WebhookSteps.FetchableExactly` | scripts/webhook-retry-worker.ts:92-102 | a cycle reads at most ten rows that wait or are in `retrying` |
| `WebhookSteps.DueExactly` | scripts/webhook-retry-worker.ts:76-81 | of the rows read, those with attempts left whose delay is over are queued as they were read, in that order |
| `WebhookSteps.ClaimExactly` | scripts/webhook-retry-worker.ts:137-158 | a claim goes ahead exactly while the row waits with the attempts that were read; then it is in `retrying` with one more |
| `WebhookSteps.SkipExactly` | scripts/webhook-retry-worker.ts:122-127 | a delivery read without an address is failed by its id |
| `WebhookSteps.SettleExactly` | scripts/webhook-retry-worker.ts:171-191 | the row is delivered, failed after its last attempt, or waits again from the time of the claim |
| `WebhookSteps.RequeueExactly` | src/app/(dashboard)/protocol-inspector/actions.ts:71-95 | what an operator may requeue, and what the update writes |
| `WebhookSteps.WaitingIsDelivered` | scripts/webhook-retry-worker.ts:108-176 | from any state, a delivery that waits with attempts left is delivered by an idle worker whose request succeeds |
| `ReactorTriage.WakesExactly` | reactor/a2a_reactor/events.py:159-225 | an unseen, fresh event without a blocked artifact wakes a worker if and only if nothing in its own fields says that nothing is owed; else it is recorded |
| `ReactorTriage.DroppedExactly` | reactor/a2a_reactor/events.py:135-172 | what is a duplicate, what is stale and what reaches a person, in that order |
| `ReactorTriage.NamedExactly` | reactor/a2a_reactor/events.py:71-95 | which events name a message, and the key they give it |
| `ReactorTriage.KeptExactly` | reactor/a2a_reactor/reactor.py:157-216 | an event stays in the queue if and only if a worker was needed, was started and failed |
| `ReactorTriage.MessageWaits` | reactor/a2a_reactor/reactor.py:111-133 | a request waits for as long as its worker fails, a receipt never does |
| `WhoseMove.NobodyIsAwaited` | src/lib/contract-turn-state.ts:165-167 | on an ended contract, a spent one that misses no approval, and after a message that takes no turn or asks for nothing, nobody is awaited |
| `WhoseMove.ProposerIsAwaited` | src/lib/contract-turn-state.ts:188-198 | a spent contract that waits for approval waits for its proposer |
| `WhoseMove.ReplyIsAwaited` | src/lib/contract-turn-state.ts:241-264 | a reply is asked of the only other party, or of whoever looks, or of nobody when the sender looks |
| `WhoseMove.OpenerIsAwaited` | src/lib/contract-turn-state.ts:84-89 | the only invitee that accepted opens |
| `WhoseMove.AnswerIsAwaited` | src/lib/contract-turn-state.ts:169-182 | before activation the only participant that has not answered is awaited |
| `WhoseMove.PersonIsAwaited` | src/lib/contract-turn-state.ts:125-140 | a person is awaited in place of the owed agent when that one, or with nobody owed anyone, has a question open |
| `LifecycleSteps.ActivationGoesAhead` | src/app/api/v1/contracts/_helpers.ts:232-246 | a proposed contract that everyone accepted becomes active, and nothing else changes |
| `LifecycleSteps.MadeActiveExactly` | src/app/api/v1/contracts/_helpers.ts:232-246 | a step makes a contract active if and only if it is that one |
| `LifecycleSteps.ActivatedExactly` | src/app/api/v1/contracts/_helpers.ts:221-250 | a proposed contract can become active in some run if and only if everyone has accepted or is an invitee who has not answered |
| `LifecycleSteps.AnswerExactly` | src/app/api/v1/contracts/[id]/accept/route.ts:62-72 | an invitation can be answered exactly by an invitee that has not, and the answer is all that changes |
| `LifecycleSteps.PermittedExactly` | src/lib/contract-trust-policy.ts:24-82 | who may do what, and what others are told |
| `LifecycleSteps.TurnExactly` | migrations/20260917160000_persist_turn_accounting.sql:100-181 | a turn on an open contract is recorded and costs one, and the last one closes a contract that waits for no approval; elsewhere nothing is sent |
| `LifecycleSteps.ReceiptExactly` | migrations/20260917160000_persist_turn_accounting.sql:137-151 | a receipt is recorded, costs nothing and asks for nothing |
| `LifecycleSteps.ApprovalExactly` | migrations/20260917160000_persist_turn_accounting.sql:111-151 | the approval of the proposer is recorded once and completes a gated contract whose budget is spent; nobody else's is recorded |
| `LifecycleSteps.CloseBeginsExactly` | src/lib/contract-closure.ts:62-93 | an agent's close begins if and only if nothing is pending, or the proposer refuses the work in at least ten characters |
| `LifecycleSteps.OperatorCloseBeginsExactly` | src/app/(dashboard)/contracts/[id]/actions.ts:127-170 | the same for an operator |
| `LifecycleSteps.CloseCommitsExactly` | src/app/api/v1/contracts/[id]/close/route.ts:87-126 | the update closes an active contract under the closer's name, unless it refuses what was approved in between |
| `LifecycleSteps.EndedByExactly` | src/app/api/v1/contracts/_helpers.ts:13-38 | what else ends a living contract, with the status and the name it leaves |
| `LifecycleSteps.AnnouncedByExactly` | src/app/api/v1/contracts/_helpers.ts:45-54 | an expiry is announced as one; no other such ending is announced |
| `Closure.ResolvedExactly` | src/lib/contract-closure.ts:18-35 | the outcome by name, from the row |
| `Closure.ReadExactly` | reactor/a2a_reactor/closure.py:31-56 | the reactor takes a code it knows as it is and works out any other |
| `Closure.GatedExactly` | src/lib/contract-closure.ts:62-93 | what a pending gate lets through, and what it answers otherwise |
| `Succession.UnfinishedExactly` | src/lib/contract-succession.ts:155-166 | whose work counts as unfinished |
| `MarkdownBreaks.BreakExactly` | src/components/markdown-source.ts:27-39 | an escaped break before another one or before a block becomes one real line break and the blanks behind it go; any other stays as written |
| `MarkdownBreaks.BlockGetsItsLine` | src/components/markdown-source.ts:10-47 | prose, an escaped break and a block: the block gets its own line |
| `MarkdownBreaks.ProseIsCopied` | src/components/markdown-source.ts:41-43 | prose is copied |
| `MarkdownBreaks.BlockStartExactly` | src/components/markdown-source.ts:1 | what counts as the start of a block |
| `MarkdownBreaks.SpanExactly` | src/components/markdown-source.ts:15-25 | a code span ends behind the first place after its run where as many backticks follow one another |
| `MarkdownBreaks.BreakIsFound` | src/lib/contract-description.ts:35-54 | an escaped break in prose is found whatever comes after; prose alone has none |
| `MarkdownBreaks.DescriptionExactly` | src/lib/contract-description.ts:63-103 | when a description is refused, for what, and what is kept of an accepted one |
| `IdempotencySteps.ShapeExactly` | src/lib/db/client.ts:464-473 | how many rows a caller asked for decides what is an error |
| `IdempotencySteps.ClaimExactly` | src/lib/idempotency.ts:42-61 | a claim is won exactly where null can be stored and nothing is there |
| `IdempotencySteps.ReadExactly` | src/lib/idempotency.ts:62-86 | a request that lost proceeds where it reads nothing, is refused while there is no response, and gets the stored one until it expires |
| `IdempotencySteps.StoreExactly` | src/lib/idempotency.ts:105-129 | the response is stored for a day |
| `IdempotencySteps.FreshIsAnswered` | src/lib/idempotency.ts:23-129 | a request with a fresh key proceeds and its response is stored, under either schema |
| `IdempotencySteps.RepeatedIsReplayed` | src/lib/idempotency.ts:83-86 | its repetition gets that response and writes nothing, under either schema |
| `IdempotencySteps.ExpiredIsAnsweredAgain` | src/lib/idempotency.ts:73-81 | once expired, the repetition proceeds and its response replaces the old one |
| `ApprovalSteps.ReviewExactly` | src/lib/approvals.ts:254-276 | a review goes on exactly when the request is pending, not the reviewer's own, and the reviewer authorised |
| `ApprovalSteps.DecideExactly` | src/lib/approvals.ts:278-294 | what a decision writes, and which goes on to a rotation |
| `ApprovalSteps.ReadExactly` | src/lib/approvals.ts:407-422 | a consumption goes on exactly when it reads the request as approved |
| `ApprovalSteps.TakeExactly` | src/lib/approvals.ts:424-442 | and takes it while it still is, adding who ran it and when |
| `ApprovalSteps.RotationHappens` | src/lib/approvals.ts:333-386 | a key rotation that is asked for, approved and left alone is consumed once and carried out for its agent |
| `ReloadBudget.DecidedExactly` | src/lib/refresh-watchdog.ts:36-67 | what a page does, from its log |
| `ReloadBudget.WithinExactly` | src/lib/refresh-watchdog.ts:16-17 | which reloads an interval of the window's length holds |
| `ContractLinks.UuidExactly` | src/lib/contract-links.ts:84 | five groups of hexadecimal digits |
| `ContractLinks.SummaryExactly` | src/lib/contract-links.ts:181-202 | which links are shown, and what is shown of them |
| `ContractLinks.SelectsExactly` | src/lib/contract-closure.ts:109-126 | which links carry the work on |
| `Reputation.WeightsExactly` | src/lib/reputation-score.ts:20-45 | the shares of the four signals, which add up to one |
| `Reputation.NormalizedExactly` | src/lib/reputation-ledger.ts:126-132 | minus one to one becomes zero to one, evenly |
| `Reputation.WeightExactly` | src/lib/reputation-ledger.ts:307-313 | what an event weighs |
| `Reputation.EvidenceExactly` | src/lib/reputation-ledger.ts:304-326 | a signal with events is the summary of their normalised values |
| `Reputation.SummaryExactly` | src/lib/reputation-ledger.ts:318-326 | which has their weighted mean for value and contributes its share of it |
| `Reputation.MeanTimes` | src/lib/reputation-ledger.ts:314-319 | the mean times the weights is the weighted total |
| `Reputation.NoEvidenceExactly` | src/lib/reputation-ledger.ts:293-302 | one without contributes nothing, but for the clean security record of an active agent |
| `Reputation.ScoreExactly` | src/lib/reputation-ledger.ts:346-349 | from three events on, the mean less the penalty, or zero |
| `TextLaws.SpaceExactly` | src/components/markdown-source.ts:1 | white space is what ECMAScript calls white space or a line terminator |
| `TextLaws.DecExactly` | src/lib/db/client.ts:220 | decimal digits, the highest first, and no zero in front |
| `TextLaws.JoinTwo` | src/lib/db/client.ts:221 | what joining puts between the parts |
| `TextLaws.UnitsExactly` | src/lib/message-structure.ts:60-66 | a character beyond the basic plane has two units, any other one |
| `SelectReading.ReadableExactly` | src/lib/db/client.ts:80-91 | a hint can be read back unless it is the head or a join mark |
| `QueryAnswers.SplicedText` | src/lib/db/client.ts:223-224 | the text of `is not` and its operand |
| `QueryAnswers.StringOfScalars` | src/lib/db/client.ts:224 | what `String` makes of the values that are not arrays |
| `CanonicalText.PairText` | src/lib/hmac.ts:93 | a pair of surrogates is written as it is |
| `CanonicalText.OrdinaryText` | src/lib/hmac.ts:93 | so is a text of ordinary units |
| `CanonicalText.HexReads` | src/lib/hmac.ts:145 | hex digits are read in either case |
| `WebhookSteps.FirstSendExactly` | src/lib/webhooks.ts:127-134 | the first request is sent as number one |
| `WebhookSteps.FetchExactly` | scripts/webhook-retry-worker.ts:92-106 | a cycle changes nothing but what the worker holds |
| `WebhookSteps.SendExactly` | scripts/webhook-retry-worker.ts:162-169 | a claimed delivery is sent under the number claimed |
| `WebhookSteps.ClearExactly` | src/app/(dashboard)/webhooks/actions.ts:273-276 | clearing a webhook, or giving it an address again, touches no delivery and can happen at any time |
| `WebhookSteps.ProcessesExactly` | scripts/webhook-retry-worker.ts:196-215 | workers and first requests come and go |
| `ReactorTriage.RememberedExactly` | reactor/a2a_reactor/events.py:166-224 | a key is remembered for the rest of the pass unless the event was too old |
| `LifecycleSteps.StrangersFindNothing` | src/app/api/v1/contracts/[id]/accept/route.ts:25-32 | an agent that takes no part finds no contract |
| `LifecycleSteps.SendingExactly` | src/lib/contract-trust-policy.ts:62-66 | whoever takes part and is no observer can send |
| `LifecycleSteps.UnconditionalSteps` | ops/bin/a2a-contract-expiry-sweep:10-37 | questions, sweeps and the kill switch wait for nothing |
| `LifecycleSteps.ExpiryExactly` | src/app/api/v1/contracts/_helpers.ts:13-38 | an expiry begins on a living contract, remembers how it lived, and goes ahead whatever happened since |
| `LifecycleSteps.RefusalExactly` | src/lib/contract-trust-policy.ts:53-60 | a contract is rejected once somebody refused, and cancelled by its proposer |
| `LifecycleSteps.ViewExactly` | src/app/api/v1/contracts/_helpers.ts:168-190 | what turn state is derived from |
| `Closure.AcceptedExactly` | reactor/a2a_reactor/closure.py:69-71 | only an approved completion counts as accepted work, on both sides |
| `MarkdownBreaks.CodeExactly` | src/components/markdown-source.ts:15-25 | a code span is copied and what follows it rendered; what no run closes is code to the end |
| `MarkdownBreaks.CodeIsSkipped` | src/lib/contract-description.ts:35-54 | in code the check does not look for escaped breaks |
| `MarkdownBreaks.UnfitExactly` | src/lib/message-structure.ts:44-73 | what makes a body of a message unfit, and which bodies are looked at |
| `IdempotencySteps.TickExactly` | src/lib/idempotency.ts:73 | time moves and changes nothing else |
| `IdempotencySteps.DeleteExactly` | src/lib/idempotency.ts:73-81 | an expired record is removed before its key is used again |
| `IdempotencySteps.BeginExactly` | src/lib/idempotency.ts:23-40 | a request begins with nothing written |
| `ApprovalSteps.AskExactly` | src/lib/approvals.ts:195-225 | a request is stored pending, as it was asked for |
| `ApprovalSteps.BeginExactly` | src/lib/approvals.ts:244-252 | reviews and consumptions begin with nothing written |
| `ApprovalSteps.RotateExactly` | src/lib/approvals.ts:357-386 | the rotation is for the agent it was begun for |
| `ReloadBudget.LoggedExactly` | src/components/auto-refresh-client.tsx:47-57 | what a reload leaves in the log, and that nothing else touches it |
| `ContractLinks.LowerExactly` | src/lib/contract-links.ts:84 | the letters A to Z alone have another form |
| `QueryAnswers.KeptExactly` | src/lib/db/client.ts:362-392 | a row is kept if and only if every `inner` relation has a foreign key to follow and a row tied by it that is kept by the list inside |
| `WebhookSteps.LastHookIs` | src/lib/webhooks.ts:70-74 | of the rows with one id the last is called |
| `Reputation.LastWithExactly` | src/lib/reputation-ledger.ts:414-420 | of several events with an id the last one is kept |
| `LifecycleSteps.ProposalIsInitial` | src/lib/contract-proposals.ts:166-236 | a contract as it is proposed is a start of the runs, and everyone it invites may accept |
| `LifecycleSteps.ProposalCanStart` | src/lib/contract-proposals.ts:166-236 | every proposal can become active |
| `LifecycleSteps.SlugExactly` | src/lib/agent-lifecycle.ts:57 | the names agents can register |
| `MarkdownBreaks.MessageExactly` | src/lib/message-structure.ts:44-73 | the first unfit body of a message says why it is refused |
| `Reputation.ObservedExactly` | src/lib/reputation-ledger.ts:340-345 | which signals a score is taken over, and what each weighs |
| `IdempotencySteps.ClaimAnswers` | src/lib/idempotency.ts:42-61 | what a claim answers, with and without the constraint |
| `QueryBuilder.ReturningExactly` | src/lib/db/client.ts:424-429 | a statement returns the columns of its list in order, or all of them for a `*` |
| `QueryBuilder.ReturnedExactly` | src/lib/db/client.ts:424-429 | a column is returned under its alias, if it has one, and a relation is not |
| `CanonicalText.NumberIsRead` | src/lib/hmac.ts:145 | every number JSON has is read, up to what follows it |
| `Reputation.LastWithNone` | src/lib/reputation-ledger.ts:414-420 | and none of an id that no event has |
| `ContractLinks.OneExactly` | src/lib/contract-links.ts:170-173 | an embedded contract may be an object or an array of one |

## Left out

- QueryBuilder.DirectQuery: the comparison methods that differ from `eq` only in the operator they append, `insert`, `upsert`, `delete`, ordering, limits, the counting query, and the JSON projections of related rows; `shape` is in `Idempotency.Shape`.
- QueryBuilder.DirectQuery.Where: says nothing of text spliced by the operator `not` with a value other than null, true or false, which the source sends as it is, nor of an empty `or` group, which is not SQL (`QueryFilters.EmptyGroupIsRejected`).
- QueryBuilder.DirectQuery.SelectWhere: as for `QueryBuilder.DirectQuery.Where`; the text of the selected columns is left out.
- QueryBuilder.DirectQuery.UpdateStatement: as for `QueryBuilder.DirectQuery.Where`; an update that sets nothing is not SQL.
- SqlText.ReadsBackExactly: the lexer reads the fragment of SQL that the compiler writes, which has no comments, strings or casts.
- QueryFilters.WhereMeaning: comparison operators are an arbitrary two-valued relation on non-null values, the same on both sides.
- SelectParser.ParseInvertsPrint: for names free of commas, parentheses, colons, exclamation marks and white space.
- Canonical.ParseInvertsCanonicalize: number printing and parsing are any pair that round-trips, and key order is that of UTF-16 units; JavaScript's own order of integer-like keys plays no part after sorting.
- Nonces: the nonce table, its cleanup and the in-memory fallback; the MAC itself; timestamps.
- WebhookDelivery.StepInv: deliveries that go with their webhook when an agent is deactivated; a stored payload without an event or a timestamp, which no insert writes; failing database statements other than counting a first attempt; failure counting. Whether a webhook is active when an operator requeues is left open.
- WebhookDelivery.OneOwner: nothing keeps a delivery to one owner once it was skipped and then requeued (`WebhookEndings.TwoOwners`).
- WebhookDelivery.ClaimsSpaced: no spacing is promised of a delivery that an operator requeued; it can be claimed at once (`WebhookLimits.RequeuedAtOnce`).
- Reactor.NothingLostExactly: the clock does not go back and the age limit stays one; no copy of the message arrives between the passes.
- Reactor.DealtOrKept: one reading of the clock serves a whole pass; without an explicit time the source reads it anew for each event.
- Reactor.Drain: what reconciliation does to tracked work is a number of tracker failures; exceptions of a worker, queue files, leases, and events appended during a pass are not modelled.
- Lifecycle.StepInv: question texts, reasons shown to people, notifications, tasks linked to a contract, and failing statements.
- TurnState.TwoPartiesAgree: names and sentences are left out of the state; who has a blocking question is a list.
- Markdown.CodeIsPreserved: what a block start is does not matter to the proofs, which hold for any test; the regular expression is `Markdown.BlockStart`.
- Idempotency.AtMostOneProceeds: expiry during a run (`Idempotency.ReplayIsLastStored` has none of this), cleanup of expired keys, and other database errors.
- Approvals.OneDecisionOneConsumption: who is authorised, or owns an agent, is a parameter of the step; audit rows and webhooks are left out; finding an approval by its action is a consumption that begins with some id.
- Approvals.KeyStore.Rotate: one step; the source expires the keys one statement at a time and then adds one, so a failure in between is not modelled.
- ReloadBudget.ReloadsAreBounded: a log that was stored can be read back; the clock does not go back; when a page looks stale and how a build is compared are parameters.
- RateLimit.TwicePerInterval: calls on one key carry one configuration, as they do in the source; the shared limiter in Postgres is not part of this model.
- ContractLinks.BatchIsSingle: rows with equal creation times come back in the same order from both queries; creating and deleting links, permissions, and the acyclicity trigger.
- Succession.LikelyExactly: the time window and the limit of the query; `resolveTaskLinkPlan`.
- Reputation.BuildSignal: rounding of the value and the contribution to four digits.
- Reputation.ScoreBounded: the penalty is any number within the bounds the source clamps it to; rounding to four digits, confidence, notes, sorting by time, and how an event ages beyond a factor above zero and at most one.
- User interface, pages, e-mail, DNS, `fetch`, cookies and file storage.
