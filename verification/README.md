# CapFence verification

A Dafny model of CapFence's authorization gate and proofs about it. The gate takes an action event of an agent,
asks a policy, consults grants and approval requests, and writes one row of a hash-chained audit log. Four state
machines have to agree for that to mean anything: the policy engine and its loader, the approval store, the
runtime, and the audit log. The model covers all four over one shared state, and on top of it replay, the MCP
gateway and the LangGraph tool node.

## How the model is built

Code that computes is a function; code that updates an object is a class whose methods are proved equal to a
function of the state before. The lemmas are about those functions, so they hold of the methods.

| file | models |
|---|---|
| `Json.dfy` | JSON values, dictionaries as the assignments that built them, the canonical form of sorted-key JSON |
| `Chain.dfy` | the hash-chain verifier as a loop and as a fold; tamper evidence |
| `Events.dfy` | action events, their checks, verdicts |
| `Audit.dfy`, `AuditRuns.dfy` | the audit table, migration, recording, verification; what any run of them leaves |
| `AuditSignatures.dfy` | which rows are signed, and what signing adds to chaining |
| `Capabilities.dfy`, `CapabilitySystem.dfy` | capability strings, the list evaluator, loading, agreement with the policy |
| `Policy.dfy` | rules, conditions, the staged search and what it means |
| `PolicyLoader.dfy`, `PolicyLayers.dfy` | validation, parsing, merging, the memoizing loader; what inheritance can change |
| `PolicyDocuments.dfy` | what a document, and a file with those it extends, means, told from the items written in it |
| `Approvals.dfy` | grants, requests, the guarded approve and reject |
| `Runtime.dfy`, `Authorization.dfy` | one execution; when it authorizes; what one approval changes |
| `SystemRuns.dfy`, `RequestRuns.dfy` | every interleaving of events, grants, approvals, sweeps, re-openings and clock advances; what becomes of one request |
| `Replay.dfy`, `ReplayFacts.dfy`, `Drift.dfy` | the sandbox, the replay loop, its independence of history, when it drifts |
| `TraceEntries.dfy` | how an entry is read, and what the evidence of a replay certifies |
| `Adapters.dfy` | the event an adapter makes of a tool call, and the keyword guesses |
| `Gateway.dfy` | the MCP gateway's loop |
| `ToolNode.dfy` | the LangGraph tool node's loop |

The hash, the keyed digest, the signature scheme, six-decimal rounding, regular expressions, shell patterns, number
parsing and `str()` are functions passed as parameters (`Digest`, `Mac`, `Crypto`, `Text`). Of the hash it is asked
that it never returns the empty string, of rounding that it keeps the order of times. Where the code relies on
collision resistance, a lemma asks that no two of the entries at hand collide, which read the other way round
exhibits the collision. Every time a clock is read, the reading is a parameter. Identifiers come from a counter.
No lemma uses Dafny's automatic induction.

## What the code does that its prose does not say

- `explain` has a stage between approval and allow rules in which a risk level decides
  (capfence/core/policy.py:346-358). The model has it.
- Policies can extend other files (capfence/core/policy.py:435-448), although docs/concepts/policy-model.md:96 says
  that there is no inheritance. Rules of an extended file can only be tightened (`PolicyLayers.NoDescendantRelaxes`),
  but its risk levels can be relaxed. `PolicyLayers.RelaxedIff` says when, `PolicyLayers.RiskLevelsCanBeRelaxed` shows it.
- Editing one entry gives one error (`Chain.EditReportedOnce`), not the two that
  examples/core_concepts/tamper_demo.py:13-15 shows, and does not invalidate all later entries as the header of
  capfence/core/chain.py says.
- A capability text may end in a newline, because `$` matches in front of one. A text with fewer than two dots that
  does is accepted, but what it prints as is refused (`Capabilities.RoundTrip`).
- The metadata of a verdict is dumped with non-ASCII characters escaped and checked in a form that does not escape
  them. A verdict whose required capability has a character above `~` makes the log fail verification
  (`AuditRuns.RecordingCleanIff`), and so does a clock that runs behind the newest row. Nothing that is recorded later
  repairs it (`AuditRuns.BrokenForGood`).
- Migration hashes a rounded timestamp but does not store it, chains rows by id while verification reads them by time,
  and starts its chain from the empty hash. `AuditRuns.MigratedTableCleanIff` says when a table of hash-less rows
  verifies once migrated, `AuditRuns.LateLegacyRow` and `AuditRuns.LateLegacyRows` what hash-less rows do behind a
  table that verifies.
- A policy section that is present but null passes validation and then makes parsing fail, with an AttributeError
  for `risk_levels` and a TypeError for the others; the model has one error, `WrongType`, for both
  (`PolicyLoader.ParsesIffNoSectionNull`). A policy that extends such a file does not load either (`PolicyLayers.LoadsIff`).
- An operator can make a grant for any text (capfence/cli.py:371). A malformed one for an actor, or for `*`, makes
  checks for that actor raise, and so stops an event that was held and then approved from passing.
  `SystemRuns.HeldEventPassesOnRetry` says when, `SystemRuns.MalformedGrantStopsRetry` shows it.
- `approve` and `reject` overwrite a request that is already resolved; only the commands check that it is pending
  (capfence/cli.py:332-334). `SystemRuns.DirectResolveAdvancesIff` says when a direct call keeps the lifecycle.
- Where the requested capability is malformed, rules are compared as texts, and a deny rule that covers another one
  need not match where that one does. Covered deny rules are redundant for exactly the requests with a well-formed
  capability (`Policy.RedundantIffWellFormed`).
- Levels are looked up in lower case, so an entry of `risk_levels` that is written with a capital letter never applies
  (`Runtime.CapitalLevelsDecideNothing`), and a rule's `user_role`, `tenant` or `table` is only ever found in the
  payload, because metadata with such a key is refused (`Runtime.ConditionsReadEvent`).
- A recorded outcome under the legacy key `original_decision` is read (capfence/core/replay.py:166) from entries that
  cannot be replayed, because the key ends up in the metadata and is not allowed there
  (`TraceEntries.FurtherMembersRaise`).
- Replay reads a risk score of zero as no risk given and calls it low, and adds the recorded outcome to the metadata,
  which changes what an approval is compared with when the event has no payload. An event never drifts if and only if
  neither can matter (`Drift.NeverDriftsIffFaithful`).

## Model

| member | source | states |
|---|---|---|
| Chain.VerifyChain | capfence/core/chain.py:67-125 | the loop reports exactly the errors of the fold `Errors`, and says valid exactly when every entry names the hash before it and carries its own hash |
| Chain.ErrorsCompose | capfence/core/chain.py:80-123 | the errors of a log in two parts are those of the first part followed by those of the second started from the first part's last hash |
| Chain.NoErrorsIffLinked | capfence/core/chain.py:80-125 | no errors if and only if every link and every hash holds |
| Chain.PrefixLinked | capfence/core/chain.py:80-125 | every prefix of a valid log is valid |
| Chain.AppendLinked | capfence/core/chain.py:80-125 | a valid log stays valid exactly when the appended entry links to the last hash and carries its own |
| Chain.TamperEvidence | capfence/core/chain.py:49-125 | two valid logs with the same last hash have the same length and agree on every protected field and hash, or two of their entries collide |
| Chain.HashesDistinct | capfence/core/chain.py:49-125 | no two entries of a valid log carry the same hash, or two of them collide |
| Chain.EditReportedOnce | capfence/core/chain.py:80-123 | editing protected fields of one entry of a valid log gives exactly one error, the hash mismatch of that entry, unless the edit collides |
| Chain.DeletionReportedOnce | capfence/core/chain.py:80-123 | deleting one entry that is not the last gives exactly one error, the broken link at its successor, unless entries collide |
| Chain.PreimageDeterminesFields | capfence/core/chain.py:89-116 | two entries have the same hash input if and only if they agree on every field but the row id and the stored hash |
| Chain.VerifyChainFromRows | capfence/core/chain.py:128-172 | rows that lack a required key are reported by position and skipped, then the chain errors follow; valid exactly when no row lacks one and the chain holds |
| Chain.RowTamperEvidence | capfence/core/chain.py:128-184 | two tables that verify and end in the same hash have as many rows, agree on the base fields, on which rows protect their extended columns, and on those columns, or entries collide |
| Chain.RowProtection | capfence/core/chain.py:144-184 | the extended columns are protected exactly when the metadata text is the compact text of a JSON value |
| Chain.CleanRows | capfence/core/chain.py:128-172 | a table has no errors if and only if no row lacks a key and its entries are linked |
| Chain.MissingReportedAt | capfence/core/chain.py:138-143 | a row is reported as lacking required keys, with its position and those keys, exactly when it lacks some |
| Chain.IncompleteRowsSkipped | capfence/core/chain.py:138-172 | rows that lack required keys are passed over: the chain is checked as if they were not there |
| Chain.ExtendedColumnsCountIff | capfence/core/chain.py:144-184 | the hash of a row depends on its extended columns if and only if its metadata text is the compact text of a JSON value |
| Json.CanonDictEntries | capfence/core/approvals.py:404-420 | the sorted-key form of a dictionary has its keys, each with the value that was assigned to it last |
| Json.KeyOrderIgnored | capfence/core/approvals.py:404-420 | two payloads have equal sorted-key JSON if and only if they have the same keys and, at any depth, equal values under each key, whatever the order of keys |
| Json.PermutedKeysIgnored | capfence/core/approvals.py:404-420 | permuting the assignments of a dictionary whose keys are distinct keeps its sorted-key JSON |
| Json.LowerIsTheOneWithoutCapitals | capfence/core/runtime.py:209 | of all texts that differ only in the case of letters, folding picks the one without capitals |
| Json.FalsyValues | capfence/core/replay.py:222-229 | what a lookup with a fallback passes over: null, false, zero, and the empty text, list and mapping |
| Events.MadeEventsAreValid | capfence/core/runtime.py:29-106 | an event that was constructed has non-empty texts, a risk that the constructor keeps as it is, and metadata that passes the checks |
| Events.ValidIffKept | capfence/core/runtime.py:29-106 | an event is one that was constructed if and only if the constructor makes exactly it of its own parts |
| Events.ConvertsIff | capfence/core/policy.py:157-181 | what converts to a number are numbers and truth values, as what they are, and texts that can be read as one |
| Events.TextualRisks | capfence/core/runtime.py:41-56 | a text is a risk, in any case of letters, exactly when it is one of the four levels, which is kept as written, or one of seven legacy categories, which becomes its level |
| Events.OtherRisks | capfence/core/runtime.py:57-61 | of all other values exactly the numbers that are not negative are risks |
| Events.MetadataTypes | capfence/core/runtime.py:80-106 | whatever checked metadata holds under a key is of the type of that key, and the key is an allowed one |
| Events.CheckedLookup | capfence/core/runtime.py:75-106 | a lookup in checked metadata gives null or a value of the type its key allows |
| Audit.AuditLogger.constructor | capfence/core/audit.py:25-32 | opening a table fills in the hashes of its rows that lack one and changes nothing else |
| Audit.AuditLogger.MigrateLegacyEntries | capfence/core/audit.py:81-117 | the loop over the ids of hash-less rows gives the table in which each of them is chained to the previous one and all others are untouched |
| Audit.AuditLogger.LegacyPositions | capfence/core/audit.py:83-84 | lists exactly the rows without a hash, in id order |
| Audit.AuditLogger.RecordEvent | capfence/core/audit.py:121-194 | appends exactly the row of the verdict, chained to the newest row and signed if there is a key |
| Audit.AuditLogger.Verify | capfence/core/audit.py:232-252 | reports the chain errors in time order, then a missing key or each signature that fails; valid exactly when there is none |
| Audit.AuditLogger.CheckSignatures | capfence/core/audit.py:246-250 | the loop reports exactly the signed rows whose signature fails, in order |
| AuditRuns.ChronologicalSorts | capfence/core/audit.py:214-230 | the read is a permutation of the table in time order |
| AuditRuns.ChronologicalKeepsOrder | capfence/core/audit.py:214-230 | rows whose times follow their ids are read as they are stored |
| AuditRuns.CleanIffLinkedAndSigned | capfence/core/audit.py:232-286 | verification reports nothing if and only if the rows read are complete and linked and every stored signature passes |
| AuditRuns.GoodTableIsClean | capfence/core/audit.py:232-252 | a table in time order whose chain and signatures hold is reported clean, however many rows the fetch limit cuts off |
| AuditRuns.CleanTableIsGood | capfence/core/audit.py:232-252 | up to the fetch limit, a table in time order that is reported clean is one |
| AuditRuns.OpeningGoodTable | capfence/core/audit.py:81-117 | re-opening a table that verifies changes nothing |
| AuditRuns.MigratedTableCleanIff | capfence/core/audit.py:81-117 | a table of hash-less rows, of any size, verifies after opening if and only if each row that verification reads is stored before all later rows and is not later than any of them, has a timestamp of six decimals at most, no compact JSON metadata text, and no signature but one that passes for what migration made of the row, unless entries collide |
| AuditRuns.LateLegacyRow | capfence/core/audit.py:88-117 | a hash-less row added to a table that verifies lets it verify after opening if and only if the table was empty and the row can be migrated, its signature, if any, passing for what migration made of it, or the row is later than as many rows as verification reads, unless entries collide |
| AuditRuns.LateLegacyRows | capfence/core/audit.py:88-117 | any number of hash-less rows added to a table that verifies and is not empty, of any times where the whole table is read and of any size where times follow ids, let it verify after opening only where verification reads none of them |
| AuditRuns.RecordingKeepsGood | capfence/core/audit.py:121-194 | recording a verdict with an ASCII capability at a time not before the newest row keeps the table good |
| AuditRuns.RecordingCleanIff | capfence/core/audit.py:121-252 | after recording on a good table, verification is clean if and only if the capability is ASCII text and the time not before the newest row, or the row is beyond the fetch limit, unless entries collide |
| AuditRuns.BrokenForGood | capfence/core/audit.py:81-252 | once a verdict with a non-ASCII capability, or with a time before the newest row, was recorded on a good table, no later run of openings and recordings repairs the log: as long as its row is read, verification fails under every key, unless entries collide |
| AuditRuns.RowsStay | capfence/core/audit.py:81-194 | rows that have hashes stay as they are through every run |
| AuditRuns.StepKeepsInvariant | capfence/core/audit.py:81-252 | opening, recording, signed or not, and checking each keep the table good, keep the rows that were there and number new rows on |
| AuditRuns.RunsStayClean | capfence/core/audit.py:81-252 | after every run of openings, recordings by loggers that sign or do not, and checks on a good table, with ASCII capabilities, a clock that does not run backwards and the signing key unchanged, verification is clean, old rows are still there, and there is one new row per verdict |
| AuditRuns.MigratedTableStaysClean | capfence/core/audit.py:81-252 | the same for every such run on a table of hash-less rows that can be migrated and carry no signature that fails then, or an empty one, that was opened once |
| AuditSignatures.RecordedRowIsSigned | capfence/core/audit.py:158-161 | a logger with a key pair stores a signature that passes under its public key, and one that verification looks at where the scheme never signs with the empty text; a logger without one stores none |
| AuditSignatures.RecordedRowsAreSigned | capfence/core/audit.py:81-194 | so it is with each row recorded in every run of openings, recordings by loggers that sign or do not, and checks, from any table: its signature passes at the end under the key of its logger |
| AuditSignatures.FindingsName | capfence/core/audit.py:232-252 | verification reports exactly the chain errors of the rows read, the ids of those whose signature fails, and a missing key where one of them is signed |
| AuditSignatures.SignatureCovers | capfence/core/audit.py:255-286 | two rows have the same signed fields if and only if they agree on all columns and both hashes |
| AuditSignatures.SignedRowVouches | capfence/core/audit.py:232-286 | a table that verifies and reads a row with the signature of row k of a good log reads it at place k, the same in every column, with all rows before it as they were in all that is protected, unless that signature passes for something else or entries collide |
| AuditSignatures.DifferenceSpreads | capfence/core/chain.py:49-125 | two chains that differ in what row k protects carry different hashes in row k and in every later row, or entries collide |
| AuditSignatures.RehashedVerifiesIff | capfence/core/audit.py:232-252 | complete rows in time order, whatever is in them, verify once all their hashes are computed again if and only if every signature read with them passes for what it then stands beside |
| AuditSignatures.EditChangesWhatIsSigned | capfence/core/audit.py:255-286 | after an edit of a protected column and new hashes for all rows, the rows before the edit are as they were and from it on each row differs in the fields that its signature was made for, or entries collide |
| AuditSignatures.EditedLogVerifiesIff | capfence/core/audit.py:232-286 | such a log verifies if and only if each row read from the edit on is unsigned or has a signature that passes for other fields than those it was made for |
| Capabilities.CoveringIsPartialOrder | capfence/core/capabilities.py:84-96 | matching is reflexive, transitive and antisymmetric with `*.*.*` as its only greatest element |
| Capabilities.CoversIffStandsForMore | capfence/core/capabilities.py:84-96 | one capability matches another if and only if every capability without wildcards that the other stands for is one that it stands for |
| Capabilities.SplitJoin | capfence/core/capabilities.py:73 | joining the parts of a split text gives the text back |
| Capabilities.SplitParts | capfence/core/capabilities.py:73-79 | all parts but the last are free of dots, and the last too unless the limit was reached |
| Capabilities.ValidCharIff | capfence/core/capabilities.py:70 | the characters that a capability may have: the letters, the digits, `_`, `-`, `.` and `*` |
| Capabilities.AcceptedIff | capfence/core/capabilities.py:62-72 | a text is accepted if and only if it is not empty and has allowed characters only, but for one newline that may follow |
| Capabilities.RoundTrip | capfence/core/capabilities.py:62-82 | for every accepted text, parsing what a parsed capability prints gives it back, except for texts with fewer than two dots that end in a newline, whose print is refused |
| Policy.ExplainRefinesMeaning | capfence/core/policy.py:331-387 | the staged search gives: denied if some deny rule matches, else approval if some approval rule does, else a restrictive or warning risk level, else the first permitting match, else default deny; the section it names is the stage that decided, and the index the first match of that stage |
| Policy.OtherContextKeysIgnored | capfence/core/policy.py:74-148 | an explanation depends on no context key but those that conditions name |
| Policy.RulingIgnoresOrder | capfence/core/policy.py:331-371 | any permutation of the rules that keeps allow and warn rules in their order gives the same verdict |
| Policy.PermissionIgnoresOrder | capfence/core/policy.py:331-371 | any permutation at all keeps whether the request is permitted, and every verdict that does not permit |
| Policy.PermitOrderMatters | capfence/core/policy.py:360-362 | swapping an allow and a warn rule changes a verdict |
| Policy.CoveredDenyIsRedundant | capfence/core/policy.py:338-340 | for well-formed capabilities, an unconditional deny rule makes every deny rule on a capability it covers redundant |
| Policy.RedundantIffWellFormed | capfence/core/policy.py:74-88 | for a request, every deny rule that an unconditional one covers is redundant if and only if the requested capability is well formed |
| Policy.CoveredDenyNeededWhenMalformed | capfence/core/policy.py:81-88 | for every malformed requested capability there is a covered deny rule without which the request is permitted |
| Policy.StarMatches | capfence/core/policy.py:74-88 | a rule on `*` matches every capability text, well formed or not |
| Policy.CapabilityMatchesIff | capfence/core/policy.py:76-88 | a rule is about a capability if and only if its own matches it or, where one of the two does not parse, if it is `*`, the same text, or a text in front of `.*` that the requested one goes on from |
| Policy.ConditionsNarrow | capfence/core/policy.py:93-148 | adding conditions to a rule leaves exactly the requests on which those hold too |
| Policy.AmountIsFirstReadable | capfence/core/policy.py:157-165 | the amount is the number under the first key whose value converts, and missing exactly when none does |
| Policy.BoundsReadTheAmount | capfence/core/policy.py:106-165 | a bound on the amount holds if and only if it compares so with the number under the first of amount, total, value, sum, quantity, price and cost that has one |
| Policy.OppositeBounds | capfence/core/policy.py:106-141 | of two opposite bounds on the amount, or on the caller depth, exactly one holds when there is a number, and neither when there is none |
| Policy.BoundsPointTheirWay | capfence/core/policy.py:106-141 | bounds on the amount and on the caller depth point the way they say: what meets a lower bound meets every smaller one, no number is at least one bound and at most a smaller one, and the bound itself meets `gte` and `lte` only |
| Policy.ListsAreAlternatives | capfence/core/policy.py:95-105 | keywords are alternatives, each looked for as `contains` looks for its text, and so are patterns; an empty list holds of nothing |
| Policy.PathIsFirstPresent | capfence/core/policy.py:167-172 | the path is the text under the first key that is present and not null, and missing exactly when none is |
| Policy.PrefixesOfThePath | capfence/core/policy.py:122-172 | a path prefix holds if and only if the text under the first of path, file, filepath, filename, target, directory and root that is there goes on from it |
| Policy.EitherSideSuffices | capfence/core/policy.py:142-147 | a condition on one value holds if and only if the context or the payload has, under its key, a value that meets it |
| Policy.MetByValue | capfence/core/policy.py:150-155 | a text is met by itself and by texts that match it as a shell pattern, a number or truth value by what equals it, null by null alone |
| PolicyLoader.LoadedPolicy.constructor | capfence/core/policy.py:187-312 | a valid document parses to its legacy, deny, approval and allow rules in this order, and the last action given for each risk level |
| PolicyLoader.LoadedPolicy.ParseLegacy | capfence/core/policy.py:269-282 | the legacy rules are appended in order, for every capability where they name none |
| PolicyLoader.LoadedPolicy.ParseLevels | capfence/core/policy.py:309-312 | each level gets the last action given for it |
| PolicyLoader.LoadedPolicy.ParseSection | capfence/core/policy.py:284-306 | the rules of a section are appended in order |
| PolicyLoader.LoadedPolicy.Merge | capfence/core/policy.py:314-320 | the other policy's rules go in front and its risk levels override |
| PolicyLoader.Loader.Load | capfence/core/policy.py:410-451 | for every file map without cycles loading terminates and gives the policy, or the error, that loading without a cache gives; no policy in the cache is replaced or altered |
| PolicyLoader.Loader.LoadBases | capfence/core/policy.py:441-444 | the loop over the extended names merges each loaded policy over a new one, which is in no cache entry |
| PolicyLoader.Loader.LoadBase | capfence/core/policy.py:442-444 | one turn of that loop adds one layer, or fails as the base does |
| PolicyDocuments.RulesAreItems | capfence/core/policy.py:267-306 | for each action, a rule of the parsed document matches if and only if an item of its section has a matching capability and conditions that all hold, or a legacy rule with that action has a matching capability, or none, and conditions that hold |
| PolicyDocuments.WarningComesFirst | capfence/core/policy.py:267-306 | the first permitting match of a parsed document warns if and only if the first legacy rule that allows or warns does |
| PolicyDocuments.LevelsAreEntries | capfence/core/policy.py:308-312 | a risk level means an action if and only if the last entry for the level gives it |
| PolicyDocuments.DocumentMeansWhatIsWritten | capfence/core/policy.py:267-371 | the ruling of a parsed document on every request, told from the items, legacy rules and level entries written in it |
| PolicyDocuments.RefusedIffFaulty | capfence/core/policy.py:195-265 | a document fails validation if and only if it has an unknown key, a section that is no list, an item that is malformed, without a capability or with an unknown condition, or a legacy rule or a level without one of the five actions |
| PolicyDocuments.FoundBelowFirst | capfence/core/policy.py:415-422 | a relative name is found below the first search path that has such a file; an absolute one, and one found nowhere, is itself |
| PolicyDocuments.PermittedAsWritten | capfence/core/policy.py:314-371 | a loaded policy permits a request if and only if no file reached has an item or legacy rule that denies it, blocks it or asks for approval, and its level warns, or is absent or allowed where a file reached has one that allows it or warns |
| PolicyLayers.LoadedIsStack | capfence/core/policy.py:314-320 | a loaded policy has its own rules, then those of its last base, and so on back to the first; each base is itself the loaded policy of its name |
| PolicyLayers.StackRules | capfence/core/policy.py:314-317 | merging policies one after the other lists the rules of the newest first |
| PolicyLayers.StackLevels | capfence/core/policy.py:318 | a risk level means what the last merged policy that mentions it says |
| PolicyLayers.RiskLevelsOverride | capfence/core/policy.py:435-448 | a risk level of a loaded policy means what its own file says, else what the last base that mentions it says |
| PolicyLayers.LoadsIff | capfence/core/policy.py:410-451 | a name loads if and only if every file that it reaches through `extends` is there, passes validation and has no section that is null |
| PolicyLayers.RulesAreThoseReached | capfence/core/policy.py:435-448 | the rules of a loaded policy are exactly the own rules of the files it reaches through `extends` |
| PolicyLayers.NoDescendantRelaxes | capfence/core/policy.py:314-362 | if a file reached has a matching deny rule the loaded verdict is deny; if one has a matching approval rule it is approval or deny |
| PolicyLayers.DeniedByRuleIff | capfence/core/policy.py:338-340 | a deny rule decides if and only if some file reached has one that matches |
| PolicyLayers.PermittedIff | capfence/core/policy.py:314-371 | a loaded policy permits a request if and only if no file reached has a matching deny or approval rule, and the level of the request, as the own file or else the last base to mention it says, warns, or is absent or allowed where a file reached has a matching rule that permits |
| PolicyLayers.RelaxedIff | capfence/core/policy.py:314-358 | a request that the risk level of a base stops is permitted by the policy on top of it if and only if no file reached forbids it by rule and the own file, or else the last later base to mention the level, warns about it, or allows it where a file reached has a matching rule that permits |
| PolicyLayers.RiskLevelsCanBeRelaxed | capfence/core/policy.py:314-358 | two files of which the base denies every request of a level and the one that extends it permits them |
| CapabilitySystem.CapabilitySystem.LoadPolicy | capfence/core/capabilities.py:117-151 | loading a document sets the policy and adds its texts to the lists up to the first that is no capability; a document that is refused changes nothing |
| CapabilitySystem.CapabilitySystem.LoadPolicyFile | capfence/core/capabilities.py:107-151 | loading a file sets the policy with everything it extends, and adds the texts of that file alone to the lists |
| CapabilitySystem.CapabilitySystem.ReadAll | capfence/core/capabilities.py:122-151 | the list loops stop at the first text that is no capability, with the ones before it kept |
| CapabilitySystem.CapabilitySystem.EvaluateCapability | capfence/core/capabilities.py:172-201 | a policy answers if there is one; else empty lists deny by default, a malformed capability raises, and the lists are scanned deny first |
| CapabilitySystem.ReadMembers | capfence/core/capabilities.py:122-151 | after a load without errors a list holds what it held and exactly the capabilities of its sections |
| CapabilitySystem.ReadStops | capfence/core/capabilities.py:122-151 | at the first text that is no capability reading ends, with all texts before it read and none after it |
| CapabilitySystem.LaterSectionsUnread | capfence/core/capabilities.py:122-151 | a text that is no capability in allow, require_approval or deny leaves the lists as the document without the later sections, the legacy rules last, would |
| CapabilitySystem.EntriesAreWritten | capfence/core/capabilities.py:122-151 | a text goes into a list if and only if an item of the section of that list has it, or a legacy rule with an action of that list names it |
| CapabilitySystem.ListsDecide | capfence/core/capabilities.py:178-201 | without a policy: a malformed capability raises exactly where something is loaded; else it is denied if and only if a denied one covers it, else needs approval if and only if such a one does, else is allowed if and only if an allowed one does |
| CapabilitySystem.ListCoversIffRuleMatches | capfence/core/capabilities.py:186-199 | for a simple document some capability in a list covers the request exactly when some rule with an action of that list matches |
| CapabilitySystem.EvaluatorsAgree | capfence/core/capabilities.py:172-201 | after one load of a document without conditions and risk levels whose legacy rules name capabilities, the list scan and the policy give the same verdict for every well-formed capability, but that the scan allows what the policy allows with a warning |
| Approvals.ApprovalManager.InsertGrant | capfence/core/approvals.py:159-207 | appends one grant under a fresh id, signed under the current secret |
| Approvals.ApprovalManager.GrantTemporaryApproval | capfence/core/approvals.py:113-125 | appends a signed grant that expires after the duration and is bound to no session |
| Approvals.ApprovalManager.GrantSessionApproval | capfence/core/approvals.py:127-137 | appends a signed grant that is bound to the session and does not expire |
| Approvals.ApprovalManager.CheckApproval | capfence/core/approvals.py:209-286 | the loop returns the first grant that answers; a malformed capability asked for, or of a grant of the actor reached before, raises |
| Approvals.ApprovalManager.RequestApproval | capfence/core/approvals.py:292-336 | appends one pending request that expires after the given time, and never where none or zero is given |
| Approvals.ApprovalManager.GetPending | capfence/core/approvals.py:338-364 | expires exactly the overdue pending requests, touches no other, and returns the pending ones left in order |
| Approvals.ApprovalManager.UpdateStatus | capfence/core/approvals.py:366-371 | the request with the id gets the status, the time and the resolver and keeps who asked for what and until when; all others, and their order, stay |
| Approvals.ApprovalManager.HasApprovedRequest | capfence/core/approvals.py:404-421 | true exactly when an approved request of the agent and tool has an equal payload up to key order |
| Approvals.ApprovalManager.Resolve | capfence/cli.py:319-358 | a request that is missing or no longer pending is left alone; a pending one gets the status, the time and the user |
| Approvals.SearchFinds | capfence/core/approvals.py:229-284 | a check finds a grant exactly when one answers with no malformed or answering grant of the actor before it, and finds that one |
| Approvals.SearchMisses | capfence/core/approvals.py:229-286 | a check comes back empty exactly when no grant answers and none of the actor's is malformed |
| Approvals.SearchRaises | capfence/core/approvals.py:229-286 | a check raises exactly when a malformed grant for the actor comes before every grant that answers |
| Approvals.CheckIffSomeGrantAnswers | capfence/core/approvals.py:209-286 | without malformed grants a check succeeds if and only if some stored grant meets actor, capability, environment, expiry, session and signature together |
| Approvals.MoreGrantsKeepSuccess | capfence/core/approvals.py:223-286 | adding grants never takes a success away, nor changes the grant found |
| Approvals.TimeOnlyTakesAway | capfence/core/approvals.py:251-253 | without new grants, what is approved now was approved at every earlier time |
| Approvals.NewGrantAnswers | capfence/core/approvals.py:159-286 | a grant made under the current secret passes the signature step: whatever it covers is answered as before where the stored grants answer or raise, and else by it until it expires |
| Approvals.ChangedGrantAnswersNothing | capfence/core/approvals.py:159-275 | a grant whose actor, capability, environment, expiry or session was changed after it was made, or that is checked under another secret, answers no question, unless the digests are equal or the digest it was signed with is empty |
| Approvals.SweepLeavesNothingOverdue | capfence/core/approvals.py:338-364 | after a sweep nothing pending is overdue, and what is returned are exactly the pending requests |
| Approvals.PendingInOrder | capfence/core/approvals.py:338-364 | the pending requests are listed in the order they were made |
| Approvals.OverdueAsAsked | capfence/core/approvals.py:299-359 | a request is overdue once the time it was given has passed since it was made, and never where it was given none or zero |
| Runtime.ActionRuntime.Execute | capfence/core/runtime.py:187-292 | one execution gives the decided verdict, queues a request exactly when the event is held, and appends the one audit row of the verdict; an exception changes nothing |
| Runtime.ActionRuntime.Authorize | capfence/core/runtime.py:219-266 | the branches on the policy verdict decide as declared and touch the approval store only to queue a held event |
| Runtime.ActionRuntime.SeekApproval | capfence/core/runtime.py:232-266 | a live grant authorizes, else an approved request does, else one pending request is queued |
| Runtime.NeedsItsOwnParts | capfence/core/runtime.py:193-196 | an event that names no capability needs the one with its resource, its action, and its scope or else its environment as parts |
| Runtime.RiskEntryOfEvent | capfence/core/runtime.py:198-210 | the entry of `risk_levels` that applies to an event is the one written without capitals for the level that its risk or else its metadata names, in any case of letters |
| Runtime.CapitalLevelsDecideNothing | capfence/core/runtime.py:209 | entries of `risk_levels` written with a capital letter change no explanation for any event |
| Runtime.RiskCaseIgnored | capfence/core/runtime.py:198-217 | events that differ only in the case of the letters of their risk get the same ruling and the same decision |
| Runtime.ConditionsReadEvent | capfence/core/runtime.py:203-217 | the policy is asked about the event's capability and the payload in its metadata; conditions read that payload and, for the environment the event's own, for the tool name the metadata; a user role, a tenant and a table can only be in the payload |
| Runtime.LevelConditionReadsEvent | capfence/core/runtime.py:198-217 | a condition on the risk level reads the payload or the level that the event names, without capitals |
| Runtime.ObserveOnlyLetsPass | capfence/core/runtime.py:267-271 | observe mode raises, decides and queues as enforce mode does; its verdicts all pass and give the reason of enforce mode behind a marker |
| Authorization.AuthorizedBy | capfence/core/runtime.py:212-266 | an event is authorized exactly when the policy permits it, or sends it to approval and the grant check finds a grant, or ends without one and without an error and an equal request is approved |
| Authorization.AuthorizationIsSound | capfence/core/runtime.py:212-266 | an authorized event is permitted by the policy, or is sent to approval and has a live matching grant or an approved matching request; a denied one is authorized by no store |
| Authorization.AuthorizedIff | capfence/core/runtime.py:212-266 | where no capability is malformed the two are equivalent |
| Authorization.ApprovedPassesIff | capfence/core/runtime.py:232-256 | an approval-gated event whose request is approved passes if and only if no malformed grant for its actor comes before every grant that answers it, and raises where one does |
| Authorization.ApprovedAfter | capfence/core/approvals.py:366-421 | approving one request adds exactly what equals it in agent, tool and payload to what is approved |
| Authorization.ApprovalEnablesExactly | capfence/core/runtime.py:248-266 | approving a request newly authorizes exactly the approval-gated events without a grant that have the same actor, action and JSON-equal payload |
| Authorization.GrantEnablesExactly | capfence/core/runtime.py:232-246 | a grant for a well-formed capability newly authorizes exactly the approval-gated events without a grant that have its actor, environment and session, a capability that it covers, and an expiry that has not passed |
| Authorization.GatedIff | capfence/core/runtime.py:232 | the approval engine is asked exactly where the policy requires approval, or decides nothing and the metadata asks for approval |
| Authorization.ReasonTellsCause | capfence/core/runtime.py:219-266 | each text of a reason stands for exactly one cause: the verdict of the policy, a grant, an approved request, or a new request; an id comes with a grant, its own, or a new request |
| SystemRuns.MoveAdvances | capfence/core/approvals.py:292-379 | every move keeps ids distinct and resolution times set exactly on resolved requests, moves each request forward or leaves it, and only adds grants |
| SystemRuns.DirectResolveAdvancesIff | capfence/core/approvals.py:366-379 | resolving a request directly keeps the lifecycle if and only if it is pending or the update changes nothing |
| SystemRuns.RequestLifecycle | capfence/core/approvals.py:292-379 | over every run no request vanishes or changes who asked for what; each leaves pending at most once and is then final; the resolution time is set exactly when it is not pending |
| SystemRuns.SweptRunsHaveNothingOverdue | capfence/core/approvals.py:338-364 | in every run, right after the pending list was read, nothing pending is past its expiry |
| RequestRuns.RequestFate | capfence/core/approvals.py:338-379 | in every run a pending request stays as it is up to the first move that resolves it or sweeps it past its expiry, and then stays what that move made of it: approved or rejected by that operator, or expired, at the time of the move |
| RequestRuns.HeldRequest | capfence/core/runtime.py:255-266 | a held event adds one pending request with its actor, action, capability and payload, which expires after an hour |
| RequestRuns.HeldEventWaitsAnHour | capfence/core/approvals.py:292-379 | in every run after an event was held its request is pending if and only if no operator has resolved it and no sweep came more than an hour after the event |
| SystemRuns.RunContinues | capfence/core/runtime.py:187-292 | a run is the continuation of each of its prefixes |
| SystemRuns.RequestsComeFromHeldEvents | capfence/core/runtime.py:255-266 | every request that a run adds was left by an event of the run that was held |
| SystemRuns.ApprovalsComeFromOperators | capfence/cli.py:319-338 | every request that a run leaves approved was pending until an operator approved it |
| SystemRuns.GrantsComeFromOperators | capfence/core/approvals.py:113-207 | every grant that a run adds was made by an operator in it, at the time it says, and carries the digest of its coordinates under the secret |
| SystemRuns.AuthorizationHasACause | capfence/core/runtime.py:212-266 | in every run, from any consistent store, an authorized event is permitted by the policy, or is approval-gated and a grant answers it that was stored at the start or made by an operator in the run, or a request with the same actor, action and payload was approved at the start, or pending then and approved by an operator, or left by an earlier event and approved after that |
| SystemRuns.RunsAreRecorded | capfence/core/runtime.py:275-292 | in every run, over any log and keys, each completed execution adds exactly one row, in order, that agrees with its verdict in every column and is signed exactly if the gate has keys, by a signature that passes where the keys are sound; the rows that were there stay but for hashes that are filled in |
| SystemRuns.RunsAreAudited | capfence/core/audit.py:121-252 | in every run over a good log with ASCII capabilities and an unchanged key, the log is good at every point and verifies |
| SystemRuns.HeldEventPassesOnRetry | capfence/core/runtime.py:248-266 | in every run, an event that was held and whose request an operator approves while it is pending is authorized when retried, whatever else happens before and after the approval, if and only if no malformed grant for its actor is then stored before every grant that answers it; where one is, the retry raises |
| SystemRuns.PassesUnlessMalformed | capfence/core/runtime.py:248-266 | so it is authorized in every run in which no malformed grant for its actor is made |
| SystemRuns.MalformedGrantStopsRetry | capfence/cli.py:371-391 | for every held event there is a run in which the retry after its approval raises: an operator makes a grant for the actor with a malformed capability |
| SystemRuns.Make | capfence/core/runtime.py:187-292 | each move of a run is what the methods of the runtime, the approval store and the audit log do |
| SystemRuns.MakeAll | capfence/core/runtime.py:187-292 | and so is every run |
| Replay.ReplayEngine.CopyApprovals | capfence/core/replay.py:70-94 | the sandbox's grants and requests equal the source's |
| Replay.ReplayEngine.BuildSandbox | capfence/core/replay.py:59-101 | the sandbox is new in every part, has the source's lists, policy and mode, and an empty unsigned log |
| Replay.ReplayEngine.ReplayEvent | capfence/core/replay.py:164-185 | one turn of the loop executes the parsed entry in the sandbox and compares its outcome with the recorded one |
| Replay.ReplayEngine.ReplayIncident | capfence/core/replay.py:156-201 | the loop gives the summary and evidence of the replay function, and modifies nothing that existed: grants, requests, rows and lists of the source stay as they are |
| Replay.ReplayEngine.SimulatePolicy | capfence/core/replay.py:203-218 | the same under a policy loaded from a file, in enforce mode, on copies of the same approvals; a policy that does not load raises |
| ReplayFacts.DecidingKeepsStanding | capfence/core/runtime.py:248-266 | deciding an event leaves all grants and everything approved as they were |
| ReplayFacts.EntryNeedsOnlyStanding | capfence/core/replay.py:164-185 | an entry gives the same result on all states with the same grants and approvals, at any latency |
| ReplayFacts.ReplayIsHistoryFree | capfence/core/replay.py:156-201 | each result of a replay is what its entry alone gives on the initial store, and the replay raises exactly when some entry alone does |
| ReplayFacts.ReplaySplits | capfence/core/replay.py:156-201 | at a fixed clock the replay of two traces in a row has the results of both and the sums of their counters |
| ReplayFacts.ReplayPermutes | capfence/core/replay.py:156-201 | at a fixed clock, rearranging a trace rearranges its results |
| ReplayFacts.CountersAddUp | capfence/core/replay.py:187-198 | the counters count the results, the total is authorized plus blocked and the number of entries, and in enforce mode entries waiting for approval are among the blocked |
| TraceEntries.EntryReads | capfence/core/replay.py:220-241 | the parts of the event of an entry are the first of their present and legacy members that does not count as false, or the default; all other members are its metadata, in front of what it has under that key |
| TraceEntries.FurtherMembersRaise | capfence/core/replay.py:230-241 | an entry with a member that is neither a part nor an allowed metadata key raises, so also one with `original_decision` |
| TraceEntries.ResultIsDecision | capfence/core/replay.py:164-185 | the result of an entry is the decision on its event in the state it meets, let pass in observe mode, beside the outcome it records |
| TraceEntries.EntryDiffersIff | capfence/core/replay.py:166-176 | a result differs if and only if the entry records a non-empty outcome, and the event passed where that does not say pass, allow or authorized in any case, or did not where it does |
| TraceEntries.CompliantIffAsRecorded | capfence/core/replay.py:156-259 | a replay is certified as compliant if and only if every entry that records an outcome came out as recorded |
| TraceEntries.RatesArePercentages | capfence/core/replay.py:243-259 | in enforce mode the fail-closed rate is at most a hundred, a hundred exactly when nothing passed and zero exactly when nothing was blocked, and the supervised ratio is not above it |
| Drift.EntryParses | capfence/core/replay.py:220-241 | the entry recorded for an event is read back as the event, with a risk that counts as false replaced and the outcome added to the metadata |
| Drift.SameRuling | capfence/core/replay.py:220-241 | the policy gives the read-back event the ruling of the original when rules see the same risk |
| Drift.FaithfulNeverDrifts | capfence/core/replay.py:164-176 | an event whose risk survives, and whose payload is not empty or whose capability is malformed, is decided again as it was |
| Drift.NeverDriftsIffFaithful | capfence/core/replay.py:164-241 | an event never drifts, under any rules, store and time, if and only if its risk survives and it has a payload or a malformed capability |
| Drift.LostRiskDrifts | capfence/core/replay.py:226 | a policy under which an event whose risk is lost, a score of zero without a low level in its metadata, drifts |
| Drift.MissingPayloadDrifts | capfence/core/runtime.py:249 | a store in which an approval-gated event without a payload drifts |
| Drift.RecordedRunReplaysWithoutDrift | capfence/core/replay.py:156-201 | the recording of a live run of events whose risk survives and whose payload is not empty, during which no operator acted and the clock stood still, replays on the approvals it left with no differences and as compliant |
| Adapters.CallEventOkIff | capfence/mcp/gateway.py:155-171 | a call gets an event exactly when the agent has a name, the capability has no empty part, the risk is known and the payload is a mapping or null |
| Adapters.CapabilitySpelled | capfence/mcp/gateway.py:155-157 | resource and action put together again are the capability, where it has a dot |
| Adapters.CallIsJudgedAsMade | capfence/core/runtime.py:191-217 | the gate judges the call by exactly the capability and payload the adapter chose, whatever resource and action say, and for no session |
| Adapters.GuessIsFirstKeyword | capfence/framework/_risk.py:4-24 | the guess is the first category of the table with a keyword in the name, in any case of letters, and none exactly where there is no such category |
| Adapters.GuessedLevel | capfence/framework/_risk.py:13-23 | a guessed risk category never makes the event invalid and becomes its level |
| Gateway.GuessesAgree | capfence/mcp/gateway.py:184-214 | the guess of a risk category and the guess of a capability always go together |
| Gateway.GuessedCallHasEvent | capfence/mcp/gateway.py:142-171 | for a tool without configuration, a call gets an event if and only if the agent has a name and the arguments are a mapping or count as false; the event needs the guessed capability and has the risk level that goes with it |
| Gateway.ToolEventAsks | capfence/mcp/gateway.py:97-171 | what the gate is asked about a tool call, told from the message: for the agent, in production and for no session, the capability configured for the named tool or else the guessed one, with the arguments as payload and the configured or guessed risk |
| Gateway.MCPGatewayServer.HandleMessage | capfence/mcp/gateway.py:131-182 | a message goes upstream exactly when it is no tool call or is authorized; a blocked call is answered with its error and an exception leaves the state the gate left |
| Gateway.MCPGatewayServer.ForwardAndRespond | capfence/mcp/gateway.py:121-129 | the message is written upstream unchanged and the reply read |
| Gateway.MCPGatewayServer.Serve | capfence/mcp/gateway.py:240-242 | one message is handled and its answer, unless there is none, written to the client |
| Gateway.MCPGatewayServer.Turn | capfence/mcp/gateway.py:235-242 | while a message is waited for others use the gate's tables; then it is handled in the state they left |
| Gateway.MCPGatewayServer.Run | capfence/mcp/gateway.py:234-242 | the loop writes upstream and to the client exactly what the session function says, up to the first line that ends it |
| Gateway.FateFollowsGate | capfence/mcp/gateway.py:131-182 | a message goes upstream if and only if it is no tool call or its event is well formed and authorized in the state it meets |
| Gateway.EachIsHandledOnce | capfence/mcp/gateway.py:234-242 | the messages handled are a prefix of those read, in order, each handled in the state left by those before |
| Gateway.EveryMessageIsMediated | capfence/mcp/gateway.py:234-242 | in every session, whatever agents and operators do on the same tables between messages, each message handled goes upstream exactly when, in the state it meets, it is no tool call or is authorized |
| Gateway.ToolCallsAreGated | capfence/mcp/gateway.py:92-182 | in every session a mapping whose method is one of the texts `tools/call`, `tool/call` and `call_tool` goes upstream if and only if its event is well formed and authorized in the state it meets; a mapping with another method, or none, always does and leaves that state as it is |
| Gateway.SessionReadsUpTo | capfence/mcp/gateway.py:234-242 | a session handles all messages up to a line that cannot be decoded, a null, or the first that raises, and ends exactly there |
| Gateway.SessionIsAudited | capfence/mcp/gateway.py:173-182 | a session and what others do during it write one audit row per verdict, in order, agreeing with it; other messages leave no row |
| Gateway.RowsSayWhatPassed | capfence/mcp/gateway.py:173-182 | the verdict logged for a tool call says that it passed exactly when the call went upstream |
| Gateway.AnswersMatchMessages | capfence/mcp/gateway.py:105-129 | whatever upstream sends and however the session ends, right after the answers to the messages before it the client gets upstream's reply to a message that went there, if there is one, and for a blocked call an error with the call's own id, code -32000 (sections 5 and 5.1 of JSON-RPC 2.0) and the decision and reason of its verdict |
| Gateway.BlockedCallsAreAnswered | capfence/mcp/gateway.py:105-182 | in every session each blocked call is answered by such an error |
| Gateway.ResponsesAnswerMessages | capfence/mcp/gateway.py:121-129 | every response that the client gets is the answer to one of the messages, in their order |
| Gateway.OneAnswerEach | capfence/mcp/gateway.py:121-129 | when upstream replies to every message sent to it and nothing raises, answers match messages one to one |
| Gateway.ConfidenceGrows | capfence/core/runtime.py:140-146 | the score that the error to a blocked call states grows with the level of the call, in any case of letters, and is at most one |
| ToolNode.CapFenceToolNode.ExtractCalls | capfence/framework/langgraph.py:60-67 | the loop collects the calls of all messages in order, or raises at the first whose calls cannot be listed |
| ToolNode.ExtractedAreCarried | capfence/framework/langgraph.py:60-67 | what is gated are exactly the calls that the messages carry under `tool_calls`; extraction raises if and only if those of some message cannot be iterated over |
| ToolNode.ExtractedInOrder | capfence/framework/langgraph.py:60-67 | calls are gated in the order of the messages and, within a message, of its list |
| ToolNode.CallAsks | capfence/framework/langgraph.py:70-96 | what the gate is asked about a call, told from the call: for the agent, in production and for no session, the capability configured for the tool or else its name with `.execute`, the arguments that the tool will get as payload, and the configured or guessed risk |
| ToolNode.NamedByFunction | capfence/framework/langgraph.py:70-74 | a call without a name is named by its `function`, or else unknown |
| ToolNode.CapFenceToolNode.Enforce | capfence/framework/langgraph.py:76-101 | the gate's verdict on the call's event and the state after it |
| ToolNode.CapFenceToolNode.Handle | capfence/framework/langgraph.py:133-140 | one turn of the loop: the tool is invoked exactly when the call gets past the gate and the tool exists |
| ToolNode.CapFenceToolNode.Turn | capfence/framework/langgraph.py:133-140 | others use the gate's tables before a call, which is then handled in the state they left |
| ToolNode.CapFenceToolNode.HandleAll | capfence/framework/langgraph.py:133-140 | the loop handles calls in order up to the first that does not get an answer, invoking and collecting what the fates say |
| ToolNode.CapFenceToolNode.Run | capfence/framework/langgraph.py:130-141 | nothing is gated or invoked unless all calls could be extracted; then the loop's results |
| ToolNode.EveryCallIsHandledOnce | capfence/framework/langgraph.py:133-140 | the calls handled are a prefix of those extracted, each with the fate it gets in the state left by those before |
| ToolNode.FateFollowsGate | capfence/framework/langgraph.py:76-140 | a call reaches its tool if and only if it is readable, its event is well formed and authorized in the state it meets, and the tool exists |
| ToolNode.InvocationsAreAuthorized | capfence/framework/langgraph.py:130-141 | in every run, whatever agents and operators do on the same tables between calls, the tool invocations are a prefix of the extracted calls, in order, each authorized in the state it met |
| ToolNode.InvokedIff | capfence/framework/langgraph.py:130-141 | a call reaches its tool exactly when it and all calls before it may be invoked and no earlier tool raised |
| ToolNode.ResultsAreAnswers | capfence/framework/langgraph.py:139-141 | the results are the tools' answers in order, each under its call's id; all invocations but possibly the last have one, and a run that does not stop has one for every call |
| ToolNode.RunIsAudited | capfence/framework/langgraph.py:95-101 | a run and what others do during it write one audit row per verdict, in order, agreeing with it; a call that fails before its verdict leaves none |
| ToolNode.RowsSayWhatPassed | capfence/framework/langgraph.py:95-101 | the verdict logged for a call says that it passed exactly when the gate let it through |

## Left out

- Observe mode is deprecated; it is a flag of `Executed` and of the sandbox, and the results about runs are for enforce mode.
- SHA-256, HMAC, Ed25519 and key files: abstract functions. Of signatures that a fresh one passes; where more is said, the lemma names the signature that would have to pass for something else.
- The text a grant's signature is computed over joins the fields with colons, so that different grants can share a text; the model's digest is over the fields.
- SQLite, write-ahead logging, locks and threads: tables are sequences and each public method is one atomic step with one clock reading. `record_event` reads the newest row and inserts in two statements; nothing comes between them here.
- Other processes write to the same tables between the steps of a process, not inside one. Schema migration by `ALTER TABLE`.
- In the runs of the whole gate rules, operator secret and signing mode are fixed; that policies are reloaded is not modelled.
- `re.search`, `fnmatch`, the search in `str(payload)`, `float(text)`, and `str` of values that are not texts are uninterpreted functions.
- Floating point: numbers are integers and reals, so NaN and infinities are out; percentages in the compliance evidence are exact and not formatted.
- Clock readings are not negative in the results about requests over runs.
- Lower-casing is ASCII; lone surrogates, and texts that cannot be encoded, are not modelled.
- YAML and JSON texts: documents, payloads and trace entries are values. A metadata member given as a list of pairs, which `dict` would accept, raises here.
- Conditions hold values of the types the code compares: bounds are numbers, and a bound of another type, which makes the comparison raise, is out. A regular expression that does not compile is out too.
- Capability members of policy items are texts; `extends` is a text or a list of texts.
- Policy ids and the merged copy of `raw_data`, which no decision reads, and the warnings about broad wildcards.
- Files that extend each other in a cycle: the source recurses until Python stops it. Loading is modelled for file maps without cycles.
- What two loads into one capability system do together: the second replaces the policy but adds to the lists, so the agreement of the two evaluators is about one load.
- PolicyLoader.Loader.Load: a name stands for one file; that two spellings of a path name one file, and that files change between loads, is not modelled.
- Grant metadata other than the signature, and the logging of break-glass grants.
- Reading and checking trace files, including their truncated checksum: a replay starts from the list of entries.
- Replay falls back to an empty store if the source's tables cannot be read; here they can.
- Replaying with a runtime that was not given, which creates an empty one.
- The gateway's process management, interrupts and broken pipes: the streams are sequences and upstream's k-th reply is a function of k.
- ToolNode.CapFenceToolNode.Run: is the synchronous call; the asynchronous one has the same loop. Tools do not touch the gate, and the tool node is given its gate.
- The other framework adapters, which repeat the check-then-call pattern of the tool node.
- The scanner, scorers, taxonomies, state tracking, policy fixtures, OPA backend, plugins, HTML report and the other CLI commands, which are text processing or depend on libraries.
- The filtered and paged reads of the audit log other than the one `verify` makes.
- The wording of error messages, which cut hashes to sixteen characters; the model keeps the values.
