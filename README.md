# Gmail rule automation, modelled in Dafny

This project models the decision logic of a small Gmail automation tool:

- the **rule engine**, which matches one stored email against declarative
  rules (field / predicate / value conditions combined with `all` or
  `any`) and collects the actions of the rules that match;
- the **action executor**, which applies those actions (mark read, mark
  unread, move to a label) to the mail service and mirrors read-flag
  changes into the local store;
- the **Gmail client's** label-name cache, the label changes it sends, and
  its conversion of a fetched message into a stored record (header lookup,
  read flag, depth-first search for the `text/plain` body);
- the two **batch scripts**: rule processing over every stored email
  (with a dry-run mode), and fetching listed messages into the store.

Modules, one per source component:

| file | module | models |
|---|---|---|
| `wrappers.dfy` | `Wrappers` | `Option` |
| `dicts.dfy` | `Dicts` | a dict built by a comprehension (the last duplicate key wins), `dict.get` |
| `text.dfy` | `Text` | `str.lower`, `str.split()`, the `in` substring test, `str.startswith`, `int()` on a token |
| `store.dfy` | `Store` | the stored `Email` record and the `emails` table |
| `engine.dfy` | `Engine` | rule records, field lookup, predicates, relative dates, rule matching, `RuleEngine` |
| `engine_lemmas.dfy` | `EngineLemmas` | what the engine promises, including the repository's test cases |
| `gmail_client.dfy` | `Gmail` | label cache, label changes, message parsing, body search, `GmailClient` |
| `actions.dfy` | `Actions` | `ActionExecutor` and the step/run specification it is proved against |
| `process_rules.dfy` | `ProcessRules` | the rule-processing batch loop |
| `fetch_emails.dfy` | `FetchEmails` | the fetch-and-store batch loop |

How the model is organised:

- **Time.** Time is whole seconds, and the evaluation time `now` is a parameter.
- **Mail service.**
  - A modify call's success is a nondeterministic choice (`ok := *`).
  - The service's state is a map from message id to label ids, plus the log of every modify request sent.
  - An accepted modify request is assumed to remove the listed ids and then add the others (`Gmail.Relabel`: `(labels - remove) + add`). The service's own rule for an id that is both removed and added is not part of the repository; this choice decides a move whose destination is INBOX (INBOX stays). `Gmail.ReadUnreadEffect`, `Gmail.MoveEffect`, `Gmail.ReadFlagFollowsLabels` and `Actions.MarkReadIdempotent` rest on it.
- **Executor specification.**
  - The executor's methods are proved equal to pure functions (`Actions.Step`, `Actions.Run`).
  - Those functions take the service's replies as a parameter, one reply per action.
  - The methods return those replies as ghost out-parameters.
- **Batch scripts.** The two script loops are methods proved against pure folds (`ProcessRules.Planned`, `FetchEmails.Ingest`).
  - `ProcessRules.Planned` takes the engine's per-email result as a function `m`. `ProcessRules.ProcessEmails` takes `m` as a ghost parameter and requires that it agrees with `Engine.MatchedActions` for the batch's rules and time; `ProcessRules.Matcher` is such a function.
- **Fetch commit.** The store session is opened without autoflush (`src/gmail_automation/database/connection.py:35-36`). So inside the fetch loop the "already stored" lookup sees only committed rows. Each addition is the parsed record, whose primary key is the `id` inside the service's answer (`src/gmail_automation/gmail/client.py:88`). The commit either applies every pending addition or, when one of them has an id that is already stored or shared with another addition, rolls the whole session back (`connection.py:53-61`). `FetchEmails.Commit` models exactly this. The lemmas that list what gets stored assume the service answers a details request with the message asked for (`FetchEmails.AnswersForId`); `FetchEmails.ForeignIdRollsBack` shows what happens otherwise.

## Model

| member | source | states |
|---|---|---|
| Dicts.ToMapLastWins | src/gmail_automation/gmail/client.py:36 | in a dict built from pairs, a key maps to the value of its last occurrence |
| Dicts.ToMapSize | scripts/fetch_emails.py:86 | with pairwise distinct keys the map has one entry per pair |
| Text.LowerIsLowerCase | src/gmail_automation/rules/engine.py:156-162 | lower-casing yields text without capitals and leaves such text unchanged |
| Text.LowerIdempotent | src/gmail_automation/rules/engine.py:151 | lower-casing twice equals lower-casing once |
| Text.Words | src/gmail_automation/rules/engine.py:233 | `split()` yields non-empty tokens free of whitespace |
| Text.WordsOfSpaced | src/gmail_automation/rules/engine.py:233 | words separated by any non-empty whitespace runs, with any leading and trailing whitespace, split into exactly those words, in order |
| Text.WordsOfBlank | src/gmail_automation/rules/engine.py:233 | text made only of whitespace, the empty text included, splits into no words |
| Text.WordsOfJoined | src/gmail_automation/rules/engine.py:233 | splitting single-space-joined tokens gives the tokens back |
| Text.Occurs | src/gmail_automation/rules/engine.py:156 | the substring test is true iff the needle occurs at some index of the haystack |
| Text.LowerKeepsOccurrence | src/gmail_automation/rules/engine.py:156 | a case-sensitive occurrence is still an occurrence after both strings are lower-cased |
| Text.ParseIntOfString | src/gmail_automation/rules/engine.py:235 | `int()` of an integer's decimal rendering gives the integer back |
| Engine.FieldValueOf | src/gmail_automation/rules/engine.py:174-193 | definition: the attribute a lower-cased field name selects, none for any other name or a missing value; specified by `EngineLemmas.AbsentFieldNeverMatches` and `EngineLemmas.FieldNameIgnoresCase` |
| Engine.ParseRelativeDate | src/gmail_automation/rules/engine.py:222-251 | definition: `"<int> <unit prefix> ago"` after lower-casing and splitting, else none; specified by `EngineLemmas.ParsePhrase`, `EngineLemmas.MalformedExpression` and `EngineLemmas.ParseRelativeDateIgnoresCase` |
| Engine.CompareDates | src/gmail_automation/rules/engine.py:195-220 | definition: a strict comparison of a timestamp field with the parsed target, false for text or an unparseable target; specified by `EngineLemmas.DatePredicates` |
| Engine.ApplyPredicate | src/gmail_automation/rules/engine.py:151-172 | definition: the six predicates on the lower-cased rendering, false for any other name; specified by `EngineLemmas.ContainsIgnoresCase`, `EngineLemmas.EqualsIgnoresCase`, `EngineLemmas.NegatedPredicates`, `EngineLemmas.ValueIgnoresCase` and `EngineLemmas.UnknownPredicateNeverMatches` |
| Engine.EvalCondition | src/gmail_automation/rules/engine.py:135-172 | definition: false for an absent field, else the lower-cased predicate applied; specified by `EngineLemmas.CaseInsensitive` and the lemmas above |
| Engine.RuleMatches | src/gmail_automation/rules/engine.py:109-133 | definition: `all` / `any` of the condition outcomes, false for any other logic; specified by `EngineLemmas.RuleMatchesIff` |
| Engine.MatchedActions | src/gmail_automation/rules/engine.py:90-107 | definition: the matching rules' actions, accumulated rule by rule; specified by `EngineLemmas.MatchedActionsFlattened` and `EngineLemmas.MatchedActionsMembership` |
| Engine.LoadRules | src/gmail_automation/rules/engine.py:79-88 | an unreadable rules file yields no rules; a parsed one yields its rules |
| Engine.ConditionResults | src/gmail_automation/rules/engine.py:120-124 | one result per condition, in order, each the condition's outcome |
| Engine.RuleEngine.constructor | src/gmail_automation/rules/engine.py:60-67 | the engine holds the loaded rules |
| Engine.RuleEngine.EvaluateEmail | src/gmail_automation/rules/engine.py:100-107 | the loop returns the actions of the matching rules, concatenated in rule order |
| Engine.RuleEngine.EvaluateRule | src/gmail_automation/rules/engine.py:120-133 | the loop's verdict is the rule's all/any/unknown-logic outcome |
| EngineLemmas.AllTrueIff | src/gmail_automation/rules/engine.py:128 | `all` is true iff every element is true |
| EngineLemmas.AnyTrueIff | src/gmail_automation/rules/engine.py:130 | `any` is true iff some element is true |
| EngineLemmas.RuleMatchesIff | src/gmail_automation/rules/engine.py:127-133 | "all" matches iff every condition holds; "any" matches iff one does; any other logic (case-sensitive) never matches |
| EngineLemmas.ZeroConditions | src/gmail_automation/rules/engine.py:127-133 | with no conditions, "all" matches and every other logic does not |
| EngineLemmas.MatchedActionsAppend | src/gmail_automation/rules/engine.py:102-105 | the actions for a split rule list are the two halves' actions, in order |
| EngineLemmas.MatchedActionsFlattened | src/gmail_automation/rules/engine.py:102-105 | the engine's result equals an independent front-to-back flatten of one list per rule: its actions if it matches, else nothing |
| EngineLemmas.MatchedActionsMembership | src/gmail_automation/rules/engine.py:102-105 | an action is returned iff some matching rule lists it |
| EngineLemmas.NoRulesNoActions | src/gmail_automation/rules/engine.py:86-88 | with a failed load or an empty rule set no email gets any action |
| EngineLemmas.DuplicatesKept | src/gmail_automation/rules/engine.py:105 | two matching rules contribute both action lists: nothing is deduplicated |
| EngineLemmas.AbsentFieldNeverMatches | src/gmail_automation/rules/engine.py:146-149 | an unknown field name or a missing value fails every predicate, the negated ones included |
| EngineLemmas.NegatedPredicates | src/gmail_automation/rules/engine.py:155-162 | for a present field, `not_contains` and `not_equals` are the exact negations of `contains` and `equals` |
| EngineLemmas.FieldNameIgnoresCase | src/gmail_automation/rules/engine.py:193 | field names are looked up lower-cased |
| EngineLemmas.ValueIgnoresCase | src/gmail_automation/rules/engine.py:155-166 | every predicate gives the same answer for a value and its lower-cased form |
| EngineLemmas.CaseInsensitive | src/gmail_automation/rules/engine.py:151-166 | lower-casing field, predicate and value of a condition never changes its outcome |
| EngineLemmas.UnknownPredicateNeverMatches | src/gmail_automation/rules/engine.py:167-169 | a predicate outside the six known ones is false |
| EngineLemmas.DatePredicates | src/gmail_automation/rules/engine.py:207-220 | `greater_than` iff a timestamp field is strictly after the parsed target, `less_than` iff strictly before; otherwise false |
| EngineLemmas.ParseRelativeDateIgnoresCase | src/gmail_automation/rules/engine.py:233 | the expression is parsed case-insensitively |
| EngineLemmas.ParsePhrase | src/gmail_automation/rules/engine.py:232-247 | `"<n> <unit> ago"` parses to now minus n units (day, hour, week, 30-day month), for every integer n |
| EngineLemmas.MalformedExpression | src/gmail_automation/rules/engine.py:232-251 | for every expression: no date exactly when it is not three words ending in "ago", or the first word is not an integer, or the second starts with no known unit |
| EngineLemmas.WellFormedExpression | src/gmail_automation/rules/engine.py:233-247 | three words ending in "ago" with an integer first and a known unit prefix second name `now` minus amount times unit |
| EngineLemmas.SpacedPhrase | src/gmail_automation/rules/engine.py:232-241 | tabs, repeated spaces, surrounding whitespace and capitals do not stop "7 days ago" from parsing |
| EngineLemmas.SevenDaysAgo | src/gmail_automation/rules/engine.py:240-241 | "7 days ago" is now minus seven days |
| EngineLemmas.TenDayOldEmail | tests/test_rules.py:100-117 | a ten-day-old email is `less_than` and not `greater_than` "7 days ago" |
| EngineLemmas.ContainsIgnoresCase | src/gmail_automation/rules/engine.py:155-156 | for any present text field, `contains` holds iff the lower-cased value occurs in the lower-cased field |
| EngineLemmas.EqualsIgnoresCase | src/gmail_automation/rules/engine.py:159-160 | for any present text field, `equals` holds iff the two lower-cased texts are identical |
| EngineLemmas.NoreplyScenario | tests/test_rules.py:47-64 | a "from contains noreply" rule yields exactly its `mark_read` action |
| EngineLemmas.AnyLogicExample | tests/test_rules.py:144-167 | under "any", one satisfied condition is enough |
| Gmail.LabelCache | src/gmail_automation/gmail/client.py:31-39 | definition: the name-to-id dict of the listed labels, empty when the listing failed; specified by `Gmail.LabelCacheLookup` |
| Gmail.ModifyBody | src/gmail_automation/gmail/client.py:155-158 | definition: the request body, a missing list sent as []; specified by `Gmail.RequestShapes` |
| Gmail.ReadRequest | src/gmail_automation/gmail/client.py:118-124 | definition: remove the UNREAD id, none without a usable one; specified by `Gmail.RequestShapes` and `Gmail.ReadUnreadEffect` |
| Gmail.UnreadRequest | src/gmail_automation/gmail/client.py:126-132 | definition: add the UNREAD id, none without a usable one; specified by `Gmail.RequestShapes` and `Gmail.ReadUnreadEffect` |
| Gmail.MoveRequest | src/gmail_automation/gmail/client.py:134-146 | definition: add the destination id and remove INBOX when known, none without a usable destination; specified by `Gmail.RequestShapes` and `Gmail.MoveEffect` |
| Gmail.HeaderMap | src/gmail_automation/gmail/client.py:80 | definition: the lower-cased-name-to-value dict of the headers; specified by `Gmail.HeaderLookup` |
| Gmail.ExtractBody | src/gmail_automation/gmail/client.py:100-116 | definition: the payload's own data, else the parts search, else ""; specified by `Gmail.BodyComesFromCandidate` and `Gmail.BodyIsFirstCandidate` |
| Gmail.PartsBody | src/gmail_automation/gmail/client.py:106-116 | definition: the parts loop with its early returns; specified by `Gmail.PartsBodyComesFromCandidate`, `Gmail.PartsBodyIsFirstCandidate` and `Gmail.PlainPartWithoutDataNotSearched` |
| Gmail.ParseMessage | src/gmail_automation/gmail/client.py:77-98 | definition: the stored record built from a fetched message; specified by `Gmail.MissingHeadersDefault`, `Gmail.IsReadFromLabels` and `Gmail.ReadFlagFollowsLabels` |
| Gmail.LabelPairs | src/gmail_automation/gmail/client.py:36 | one (name, id) pair per listed label, in order |
| Gmail.LabelCacheLookup | src/gmail_automation/gmail/client.py:33-39 | a name is cached iff some listed label has it, mapped to the id of its last occurrence |
| Gmail.UsableId | src/gmail_automation/gmail/client.py:120-121 | a label id is usable iff it is cached and non-empty |
| Gmail.RequestShapes | src/gmail_automation/gmail/client.py:118-158 | the read, unread and move requests exist iff the needed label id is usable, with the add/remove lists the source builds |
| Gmail.ReadUnreadEffect | src/gmail_automation/gmail/client.py:118-132 | after an accepted read request the message lacks the UNREAD id; after an unread request it has it |
| Gmail.MoveEffect | src/gmail_automation/gmail/client.py:134-146 | after an accepted move the message has the destination id and, unless the destination is INBOX, no INBOX id |
| Gmail.HeaderLookup | src/gmail_automation/gmail/client.py:80 | header lookup ignores name case, the last duplicate wins, and a missing header gives the default |
| Gmail.Candidates | src/gmail_automation/gmail/client.py:102-116 | definition and contract: the candidates are, in depth-first order, the payload's own data whatever its type, else the data of text/plain parts and the candidates of nested non-text/plain parts that have parts; every candidate is non-empty data |
| Gmail.BodyComesFromCandidate | src/gmail_automation/gmail/client.py:100-116 | the body is "" or the decoding of a candidate (the payload's own data, a text/plain part's data, or a nested part's own data), in depth-first order |
| Gmail.PartsBodyComesFromCandidate | src/gmail_automation/gmail/client.py:106-116 | the loop over parts from a given index returns "" or the decoding of a candidate from those parts (a text/plain part's data, or a nested part's own data or candidates), in depth-first order |
| Gmail.BodyIsFirstCandidate | src/gmail_automation/gmail/client.py:100-116 | when decoding keeps non-empty data non-empty, the body is the decoding of the first candidate in depth-first order |
| Gmail.PartsBodyIsFirstCandidate | src/gmail_automation/gmail/client.py:106-116 | the same, for the loop over parts from a given index |
| Gmail.PlainPartWithoutDataNotSearched | src/gmail_automation/gmail/client.py:108-111 | for every payload: a text/plain part without data is passed over, its nested parts unsearched, and the search continues with the next part |
| Gmail.MissingHeadersDefault | src/gmail_automation/gmail/client.py:90-93 | missing headers give "" for subject, from and to, and the message id for Message-ID |
| Gmail.IsReadFromLabels | src/gmail_automation/gmail/client.py:85-96 | a parsed email is read iff UNREAD is not among its label ids; missing label ids count as read |
| Gmail.ReadFlagFollowsLabels | src/gmail_automation/gmail/client.py:96 | a message relabelled by an accepted read (unread) request parses as read (unread) |
| Gmail.GmailClient.constructor | src/gmail_automation/gmail/client.py:21-39 | the label cache is built from the listing, or empty when the listing failed |
| Gmail.GmailClient.LabelIdByName | src/gmail_automation/gmail/client.py:41-43 | exact, case-sensitive cache lookup; an unknown name gives none |
| Gmail.GmailClient.ModifyLabels | src/gmail_automation/gmail/client.py:148-167 | a missing list is sent as []; the request is logged; labels change only if the service accepts |
| Gmail.GmailClient.MarkAsRead | src/gmail_automation/gmail/client.py:118-124 | without a usable UNREAD id: false and no request; otherwise the read request is sent |
| Gmail.GmailClient.MarkAsUnread | src/gmail_automation/gmail/client.py:126-132 | without a usable UNREAD id: false and no request; otherwise the unread request is sent |
| Gmail.GmailClient.MoveToLabel | src/gmail_automation/gmail/client.py:134-146 | without a usable destination id: false and no request; otherwise the move request is sent |
| Actions.MarkStep | src/gmail_automation/rules/actions.py:78-116 | definition: the request first, the store mirrored only on acceptance; specified by `Actions.MarkReadSpec` and `Actions.MarkUnreadSpec` |
| Actions.MoveStep | src/gmail_automation/rules/actions.py:118-132 | definition: the request only, the service's reply as result; specified by `Actions.MoveSpec` |
| Actions.Step | src/gmail_automation/rules/actions.py:55-76 | definition: dispatch on the lower-cased action type; specified by `Actions.StepSpec` and `Actions.UnknownActionChangesNothing` |
| Actions.Run | src/gmail_automation/rules/actions.py:28-53 | definition: every action in order, true only if each succeeded; specified by `Actions.RunOkIff`, `Actions.EveryActionAttempted` and `Actions.RunKeepsOtherRecords` |
| Actions.StepSpec | src/gmail_automation/rules/actions.py:66-76 | an action succeeds iff it sends a request the service accepts; it sends exactly that request and touches only the email's own record |
| Actions.UnknownActionChangesNothing | src/gmail_automation/rules/actions.py:74-76 | an unknown action type fails and changes neither the service nor the store |
| Actions.MarkReadSpec | src/gmail_automation/rules/actions.py:88-96 | the read flag is set only after the service accepts; on refusal the store is unchanged; a missing record is not inserted |
| Actions.MarkUnreadSpec | src/gmail_automation/rules/actions.py:108-116 | the mirror of mark_read, clearing the flag only on acceptance |
| Actions.MoveSpec | src/gmail_automation/rules/actions.py:129-132 | a move never touches the store; its result is the service's |
| Actions.MarkReadIdempotent | src/gmail_automation/rules/actions.py:91-93 | marking read a second time, whatever the service replies, leaves the labels and the store as marking once |
| Actions.RunOkIff | src/gmail_automation/rules/actions.py:39-53 | the overall result is true iff every action succeeded; an empty list gives true |
| Actions.EveryActionAttempted | src/gmail_automation/rules/actions.py:41-51 | every action's request is sent, in order, whatever earlier actions returned |
| Actions.RunKeepsOtherRecords | src/gmail_automation/rules/actions.py:90-93 | no record is inserted or removed, and no other email's record changes |
| Actions.ActionExecutor.constructor | src/gmail_automation/rules/actions.py:17-26 | the executor holds the given client and store |
| Actions.ActionExecutor.ExecuteActions | src/gmail_automation/rules/actions.py:39-53 | the loop's result and new state are those of `Run` for the service's replies; the call is logged |
| Actions.ActionExecutor.ExecuteSingleAction | src/gmail_automation/rules/actions.py:66-76 | the dispatch's result and new state are those of `Step` |
| Actions.ActionExecutor.MarkAsRead | src/gmail_automation/rules/actions.py:88-96 | the remote call, then the store update on success only |
| Actions.ActionExecutor.MarkAsUnread | src/gmail_automation/rules/actions.py:108-116 | the remote call, then the store update on success only |
| Actions.ActionExecutor.MoveMessage | src/gmail_automation/rules/actions.py:129-132 | the remote call only; the result is the service's |
| ProcessRules.Planned | scripts/process_rules.py:72-89 | definition: the jobs the loop hands the executor, one per email with actions; specified by `ProcessRules.PlannedJobs`, `ProcessRules.PlannedCountsMatchedEmails` and `ProcessRules.PlannedCountsActions` |
| ProcessRules.MatcherAgrees | scripts/process_rules.py:74 | the plan's email-to-actions map is the engine's `MatchedActions` for the batch's rules and time |
| ProcessRules.PlannedCountsMatchedEmails | scripts/process_rules.py:69-77 | the processed count equals the number of emails with a non-empty action list |
| ProcessRules.PlannedCountsActions | scripts/process_rules.py:69-78 | the action count equals the sum of the action-list lengths over all emails |
| ProcessRules.PlannedJobs | scripts/process_rules.py:72-89 | the executor is handed exactly the emails with a non-empty action list, each with that full list |
| ProcessRules.NothingMatches | scripts/process_rules.py:76 | when no email matches, nothing is counted or executed |
| ProcessRules.BatchKeepsOtherRecords | scripts/process_rules.py:88-89 | the batch inserts or removes no record and leaves every unmatched email's record alone |
| ProcessRules.HandleEmail | scripts/process_rules.py:74-93 | the email's actions are its matched actions; an email without actions, or any email in a dry run, adds no executor call and changes no state; otherwise exactly one call runs the actions on the running state |
| ProcessRules.ProcessOne | scripts/process_rules.py:72-93 | one loop iteration extends both counters and the executor's history from the first `i` emails' plan to the first `i + 1` emails' plan |
| ProcessRules.ProcessEmails | scripts/process_rules.py:64-104 | the processed and action counters are the plan's job count and action total in both modes; a dry run sends nothing and changes no state; otherwise the executor is called once per planned job, in order, and the final state is the batch run of the plan (`Actions.BatchRun`) |
| FetchEmails.Ingest | scripts/fetch_emails.py:72-88 | definition: the loop's pending additions, each under its record's own id, and the ids asked for; specified by the lemmas below |
| FetchEmails.Commit | src/gmail_automation/database/connection.py:53-61 | definition: the store plus the additions, or a rollback when an addition's id is already stored or repeated; specified by `FetchEmails.CommittedStore`, `FetchEmails.DuplicateIdRollsBack` and `FetchEmails.ForeignIdRollsBack` |
| FetchEmails.PendingKeyedByRecord | scripts/fetch_emails.py:84-86 | every pending addition is keyed by the id inside its record |
| FetchEmails.PendingIds | scripts/fetch_emails.py:74-87 | when the service answers for the id asked, the records added are exactly those for the listed ids that were not stored and whose details arrived |
| FetchEmails.PendingRecords | scripts/fetch_emails.py:77-87 | when the service answers for the id asked, each added record is the details returned for a listed, previously unstored id |
| FetchEmails.IngestAsks | scripts/fetch_emails.py:77-84 | details are requested exactly for the listed ids that were not stored |
| FetchEmails.DistinctListingDistinctKeys | scripts/fetch_emails.py:74-87 | when the service answers for the id asked, a listing without repeated ids gives additions with pairwise distinct ids |
| FetchEmails.DistinctListingCommits | scripts/fetch_emails.py:72-90 | when the service answers for the id asked, a listing without repeated ids always commits |
| FetchEmails.CommittedStore | scripts/fetch_emails.py:72-90 | when the service answers for the id asked, after a commit stored records are untouched, the new ones are the arrived details, and the count is the number of new records |
| FetchEmails.DuplicateIdRollsBack | scripts/fetch_emails.py:77-87 | an id listed twice is fetched twice, and the colliding records make the commit fail |
| FetchEmails.ForeignIdRollsBack | scripts/fetch_emails.py:84-86 | a returned record whose own id differs from the one asked and is already stored makes the commit fail |
| FetchEmails.FetchNew | scripts/fetch_emails.py:65-90 | the loop's count, requests and resulting store are those of the ingest fold and its commit; an empty listing changes nothing |

## Left out

- Text.Lower: maps only the ASCII letters A-Z; Python's full Unicode case mapping (including length-changing mappings such as "ß") is not modelled.
- Text.ParseInt: accepts ASCII digits with an optional sign and PEP 515 underscores; the other Unicode decimal digits Python's `int()` accepts are not modelled.
- Engine.ParseRelativeDate: a result outside `datetime`'s range raises `OverflowError`, which the source turns into "no date"; the model has unbounded integers and returns the date.
- Time: the clock is the parameter `now`, one value for a whole evaluation, where the source reads `utcnow()` once per date condition. The float conversion of `internalDate` and the local-time rendering (`fromtimestamp`) are the parameter `localTime`. The UTC-versus-local-time mix-up between the two is not modelled.
- `str(datetime)` rendering for string predicates on `received_date` is the `text` carried by `Store.Instant`.
- Base64url and UTF-8 "ignore" decoding of body data is the parameter `decode`.
- HTTP calls:
  - the labels listing is the constructor's `listing` (`None` when it failed);
  - a modify call's success is nondeterministic;
  - `list_messages` and the call at `scripts/fetch_emails.py:65` (a method the client does not define) are replaced by the `listing` input;
  - `get_message_details` is the parameter `details`.
- Exceptions: the `except` branches of `execute_actions` (`actions.py:49-51`) are not modelled. Such exceptions include a store commit that fails after the service accepted a change. Exceptions raised while reading the rules file are collapsed into `Engine.RuleDocument.Unreadable`.
- The attribute error the engine's field mapping would raise on the repository's ORM model (its column names differ from the attributes the engine reads) is not modelled. The record has the five optional fields the engine reads. The same drift breaks the client: `src/gmail_automation/gmail/client.py:87-98` builds the ORM `Email` with `message_id`, `sender`, `recipient`, `received_at` and `body`, none of which `src/gmail_automation/database/models.py:20-38` defines, so that constructor call would raise a TypeError that the `except HttpError` at `client.py:73` does not catch, and every new message would fail in `scripts/fetch_emails.py:92-93`. `Gmail.ParseMessage` and `FetchEmails.FetchNew` assume the abstract record instead, where the repository's ORM would reject the constructor call.
- Persistence:
  - each executor update opens its own session and commits at once, modelled as a direct map update;
  - the ORM identity map, table creation and the JSON text of the `labels` column (a sequence here) are not modelled.
- The order of `session.query(Email).all()` is whatever order the `emails` parameter of `ProcessRules.ProcessEmails` has; the stored snapshot is taken before the loop.
- Logging (including the dry-run report), OAuth, command-line parsing and settings are I/O only and are not modelled.
