# Verified model of the agent workflow services

The repository plans tool workflows from what an agent runtime proposes, stores them in Redis, has a user
approve them, carries out the approved steps through an egress gateway, and streams each run to the browser
through an AG-UI gateway. This project models the parts of those services that decide something, in Dafny, and
proves what they promise: for every interleaving, every run of the protocol, every plan, every text.

`dafny verify dfyconfig.toml` checks all of it.

## How it is laid out

| file | what it models |
|---|---|
| `Text.dfy`, `Utf8.dfy`, `Json.dfy`, `JsonText.dfy`, `Equality.dfy`, `Printing.dfy`, `Wrappers.dfy`, `Models.dfy` | Python strings, UTF-8, `json.dumps` and `json.loads` and the texts they write and take, `==` on parsed JSON, where a text occurs in printed JSON, the records |
| `OptimisticStore.dfy` | the WATCH / GET / MULTI / EXEC loop of the session store: a state machine over one shared key, and the loop itself |
| `KeyBuilder.dfy`, `AgentStore.dfy` | the Redis keys, and the two stores of the agent service as classes |
| `Hashing.dfy`, `InternalAuth.dfy` | canonical JSON and plan hashes; the signed session headers |
| `ToolCatalog.dfy`, `ScopeTemplates.dfy`, `Policy.dfy`, `Dispatcher.dfy`, `WorkflowIds.dfy` | planning |
| `Egress.dfy`, `Execution.dfy`, `WorkflowProtocol.dfy`, `Completion.dfy` | grants, the gateway's checks, carrying out a plan, the whole protocol as a state machine, and what a completed record stands for |
| `Redaction.dfy`, `PublicRecord.dfy`, `Sse.dfy`, `BrowserView.dfy`, `RunStream.dfy`, `RunShape.dfy`, `Secrets.dfy`, `ThreadMessages.dfy` | what leaves the service: redaction, the record as the browser sees it, event frames, what a client shows of a stream, the event stream of a run, its shape and what the gateway makes of it, what redaction leaves in it, the messages kept with a thread |

Times, random ids, the order in which a set is visited, replies of the network and digests are parameters, so
every statement holds for all of them. SHA-256 and HMAC are arbitrary functions; where equal digests have to
mean equal texts, that is a condition of the lemma, on the two texts in question. That no one forges a grant
is part of `WorkflowProtocol.Next`: a foreign call with a right signature on a grant that the agent service
never signed is no step. Its session headers may be anyone's.

## Where the code does not do what one would expect

- `quote("_")` is `_`, which is also what stands for the absent tenant. Two keys are equal exactly when they
  name the same part and the same identity up to that one confusion (`KeyBuilder.KeysCollideIffSameParts`), so
  the Redis store finds without a tenant what was saved for the tenant `_`, and the other way round. Over a set of
  identities it answers as the in-memory store, and gives every caller workflows of its own only, if and only if
  no two of them are confused (`AgentStore.StoresAreToldApartExactly`, `AgentStore.OwnersAreKeptApartExactly`).
  `WorkflowProtocol` keeps records under tuples, so where it says that an approval is its owner's, the tenant is
  the owner's on the Redis store only over identities that are kept apart; user and session are in any case.
- The gateway compares a call's arguments with the grant's by `==`, under which `true` is `1` and `1.0` is `1`. A
  call gets out with equal arguments, which are the approved ones exactly when those hold, at any depth, neither
  a boolean nor a number with a second equal form (`Egress.ArgumentsArePinnedExactly`,
  `WorkflowProtocol.OtherArgumentsGetOutExactly`); a step approved with `n = 1` can be sent with `n = true`
  (`WorkflowProtocol.TrueGetsOutForOne`).
- Redaction of a text does not remove every value. `Redaction.RedactionIsExact` gives the exact condition: the
  value must not be inside the marker, contain it, or overlap with either end of it. Tokens without brackets that
  are no part of the word `REDACTED` meet it (`Redaction.PlainValueIsRedactable`). For a value that is the only
  one, as it is in the service, the exact condition is weaker (`Redaction.OneValueIsExact`): `[[` always goes.
- Redaction of what the runtime says reaches its message, the strings in its arguments, its reasons and its
  references, but neither the names of arguments nor the name of the agent, which goes out as the target of the
  planned step (`Secrets.AgentNameIsStreamed`, `Redaction.MemberNamesAreKept`).
  `Secrets.PlannedStreamIsCleanExactly` says exactly when a sensitive value is in no string and no member name of
  the stream, and `Secrets.PlainValueIsStreamedExactly` does for values without JSON's punctuation in terms of
  what is planned alone.
- The id of a workflow does not depend on the arguments of its tools (`WorkflowIds.IdNamesWhatWasAsked`), so
  planning again can overwrite a settled record. So can an approve call for an earlier planning that is still
  under way: a record that was cancelled after it was planned again becomes failed when the older call fails
  (`WorkflowProtocol.OlderCallRewritesCancelled`). These are the only two ways
  (`WorkflowProtocol.OnlyPlanningReopens`, `WorkflowProtocol.SettledChangesExactly`); the claims about the life of a
  record are therefore made per planning, from a state without such a call.
- Each step of an approval is signed once, but a signed call is let out as often as it is sent, as long as its
  grant is live and it comes with headers that verify for the same user, session and tenant
  (`WorkflowProtocol.GrantsCanBeReplayed`): with its own for five minutes (`WorkflowProtocol.OwnHeadersReplay`,
  `Execution.SentHeadersVerify`).
- A dispatch can raise: a token scope that consists only of fields, with the empty string as their arguments, comes
  out empty and is rejected by the step's own validator, outside the `try` (`Dispatcher.BlankFieldRaises`;
  `Dispatcher.Dispatch` has the exact condition). So can normalising the messages of a thread, when a role is a
  list or an object, or when a text that is parsed makes `json.loads` raise something else than a decoding error:
  an integer of more than 4300 digits, or too deep a nesting (`ThreadMessages.UnreadableResultRaises`;
  `ThreadMessages.RestorableThreadMessages` has the exact condition).
- If the upstream breaks after its terminal event has been read, the browser gets a second terminal event
  (`RunStream.GatewayEndsTheRun`).
- The text of a tool call's arguments keeps the server-only members that its arguments lose
  (`ThreadMessages.ArgsTextKeepsEverything`).

## Model

| member | source | states |
|---|---|---|
| OptimisticStore.RunIsSound | packages/session_state/session_state/redis_store.py:190-230 | In every interleaving of any number of update clients and blind writers: each logged commit was computed from exactly the record it replaces, a client that computed still has its base in the key unless it was told of a write, and no client commits twice |
| OptimisticStore.CommitsReplaceWhatTheyRead | packages/session_state/session_state/redis_store.py:98-108 | The same for each write of a run, with the blind `set_session` and `set_workflow` writes interleaved |
| OptimisticStore.CommitWritesEachField | packages/session_state/session_state/redis_store.py:209-230 | Each commit leaves the version it read plus one, the time, every other field of its mutation as the mutation has it and every other field of the record it replaced as it was, and nothing else, less what a dump hides |
| OptimisticStore.RetriesAreCausedByOthers | packages/session_state/session_state/redis_store.py:200-230 | EXEC drops a transaction exactly when the key was written since the WATCH; with k writes by others a client needs at most k + 1 rounds |
| OptimisticStore.InterleavingsAreSerial | packages/session_state/session_state/redis_store.py:199-230 | Without blind writes the key ends as the initial record with the committed mutations applied one by one in EXEC order, and its version is the initial one plus the number of commits |
| OptimisticStore.LastMutationWins | packages/session_state/session_state/redis_store.py:199-230 | Each field of the final record is that of the last commit whose mutation has it, or as at the start if none has; the version is the initial one plus the number of commits and the time that of the last |
| OptimisticStore.OutcomesExclude | packages/session_state/session_state/redis_store.py:206-230 | An attempt has one outcome only: not found without a record, invalid for a record the schema refuses, a conflict for an expected version that is not the one there, and else the field-by-field update |
| OptimisticStore.CommitExpectsItsPlace | packages/session_state/session_state/redis_store.py:213-216 | The i-th commit expected the initial version plus i, or no version |
| OptimisticStore.ExpectedVersionCommitsOnce | packages/session_state/session_state/redis_store.py:213-216 | Of the clients that expect the same version at most one commits |
| OptimisticStore.UpdateJsonModel | packages/session_state/session_state/redis_store.py:190-230 | The loop itself, on a key that others write meanwhile: it ends with the update, field by field, of the record that was in the key at its EXEC, or with the error that this record calls for and nothing written, after at most one round more than the others made writes |
| KeyBuilder.QuoteReadsBack | packages/session_state/session_state/key_builder.py:9-12 | Percent-encoding decodes back to the value for every string and never holds a colon |
| KeyBuilder.QuoteLeavesAloneExactly | packages/session_state/session_state/key_builder.py:9-12 | A value stays as it is exactly when it holds nothing but letters, digits, `-`, `.`, `_` and `~` (section 2.3 of RFC 3986); any other grows |
| KeyBuilder.KeyReadsBack | packages/session_state/session_state/key_builder.py:27-117 | Every part of every family of keys is read back from the key, except that the tenant `_` reads back as no tenant |
| KeyBuilder.KeyIsRefusedIffPartEmpty | packages/session_state/session_state/key_builder.py:9-117 | A key is refused exactly when its prefix or an encoded part is empty, and for the first that is |
| KeyBuilder.KeysCollideIffSameParts | services/agent_service/agent_service/state.py:301-355 | Across all six families two keys under one prefix are equal exactly when family, parts and canonical identity are |
| KeyBuilder.UnderscoreTenantCollides | packages/session_state/session_state/key_builder.py:15-18 | The tenant `_` shares every key with the absent tenant |
| AgentStore.StepAgrees | services/agent_service/agent_service/state.py:174-280 | One operation whose key parts are not empty answers the same on the string keys as on the maps of tuples keyed by canonical identity, and keeps the two in step |
| AgentStore.StepRefuses | services/agent_service/agent_service/state.py:301-355 | An operation with an empty key part is refused by the Redis store and changes nothing |
| AgentStore.RedisAnswersAsMemory | services/agent_service/agent_service/state.py:80-355 | Any sequence of operations from the empty stores gets the same replies from the one key space of strings as from the four dicts keyed by canonical identities, with a refusal for each empty key part |
| AgentStore.StoresAreToldApartExactly | services/agent_service/agent_service/state.py:80-355 | For any set of identities with non-empty parts: every sequence of operations over them, with no empty key part, gets the same replies from both stores if and only if no two of the identities share their keys |
| AgentStore.TenantsAreKeptApart | packages/session_state/session_state/key_builder.py:15-18 | Of the identities of one user and session two share their keys exactly when both the absent tenant and the tenant `_` are among them |
| AgentStore.SharedKeysAreVisible | services/agent_service/agent_service/state.py:189-215 | A workflow saved for one identity is found under another that shares its keys in the Redis store, and not in the in-memory one |
| AgentStore.UnderscoreTenantIsVisible | services/agent_service/agent_service/state.py:189-215 | A workflow saved for the tenant `_` is found without a tenant in the Redis store and not in the in-memory one |
| AgentStore.OwnersAreKeptApartExactly | services/agent_service/agent_service/state.py:189-215 | On the Redis store every caller among a set of identities is given workflows of its own only, in every sequence of operations, if and only if no two of the identities share their keys |
| AgentStore.FoundWorkflowsShareKeys | services/agent_service/agent_service/state.py:189-215 | Whatever came before, a workflow that the Redis store finds is the one asked for, saved for an identity with the same keys: same user and session |
| AgentStore.InMemoryAgentServiceStore.Upsert | services/agent_service/agent_service/state.py:90-105 | Saves the session and the token registration it entails, and nothing else |
| AgentStore.InMemoryAgentServiceStore.Register | services/agent_service/agent_service/state.py:123-129 | Registers the auth context under its tuple key, and nothing else |
| AgentStore.RedisAgentServiceStore.Perform | services/agent_service/agent_service/state.py:174-280 | Each operation on the string keys keeps them in step with an in-memory store keyed by canonical identities and replies as that store does; with an empty key part it is refused and changes nothing |
| AgentStore.LastWriteIsFound | services/agent_service/agent_service/state.py:90-157 | Whatever came before, a lookup in the dicts finds the last workflow, thread or auth context that was written for its key, a session with both references counting as a registration, and nothing if none was |
| AgentStore.RedisFindsTheLastWrite | services/agent_service/agent_service/state.py:174-355 | So does a lookup in the Redis store, under canonical identities, when no operation has an empty key part |
| Json.DumpsReadsBack | packages/workflow_core/workflow_core/hashing.py:12-23 | Every JSON value printed with sorted keys and compact separators, ASCII-escaped or not, is read back from its text (escapes as in section 7 of RFC 8259, surrogate pairs included) |
| Json.DumpsIsInjective | services/agent_service/agent_service/app.py:566-567 | Equal texts mean equal values |
| JsonText.LoadsIsExact | services/agent_service/agent_service/app.py:1090-1101 | `json.loads` takes a text for a value exactly when the text is a way of writing the value in the grammar of RFC 8259: any blanks, any of the escapes of a character, the last of repeated keys |
| JsonText.PrintIsCompact | packages/workflow_core/workflow_core/hashing.py:12-23 | Of these ways `json.dumps` takes the one without blanks, with members by increasing keys, and with characters escaped only where they must be, in two characters where there are such |
| Printing.PrintsExactly | packages/workflow_core/workflow_core/hashing.py:12-23 | A value without structural characters is in printed JSON exactly when a name, string, number or word in it, as it is printed, holds it |
| Utf8.EncodeReadsBack | packages/session_state/session_state/internal_auth.py:69-72 | UTF-8 decodes back for every string |
| Utf8.DecodesExactly | packages/session_state/session_state/internal_auth.py:96-99 | Bytes decode to a text exactly when they are its encoding: no over-long form, no surrogate |
| Hashing.CanonicalPlanIsInjective | packages/workflow_core/workflow_core/hashing.py:12-23 | Two plans have one canonical text exactly when they are equal, with None fields omitted |
| Hashing.CanonicalGrantIsInjective | packages/workflow_core/workflow_core/grants.py:14-21 | Two grants have one signed text exactly when they are equal |
| Hashing.CanonicalPlanSaysThePlan | packages/workflow_core/workflow_core/hashing.py:12-23 | The text that is hashed says every field of the plan and of its steps under its own name, and nothing else; a field without a value is left out |
| Hashing.CanonicalGrantSaysTheGrant | packages/workflow_core/workflow_core/grants.py:14-21 | The text that is signed says every field of the grant under its own name, and nothing else |
| Hashing.PlanHashIsOfThePlan | packages/workflow_core/workflow_core/hashing.py:26-28 | The hash is `sha256:` and the digest of a text that says every field of the plan |
| Hashing.PlanHashNamesThePlan | packages/workflow_core/workflow_core/hashing.py:26-28 | Where the digest tells the two texts apart, equal hashes mean equal plans |
| Hashing.ScopesPrintAsSets | packages/workflow_core/workflow_core/models.py:15-17 | Plans built with two lists of scopes print the same exactly when the lists have the same elements |
| InternalAuth.UnpaddedReadsBack | packages/session_state/session_state/internal_auth.py:106-108 | Unpadded base64url (section 5 of RFC 4648) decodes back for every byte string once the padding is restored |
| InternalAuth.EncodedContextReadsBack | packages/session_state/session_state/internal_auth.py:69-72 | Every valid session context is read back from its header |
| InternalAuth.SignedHeadersVerifyUntilExpiry | packages/session_state/session_state/internal_auth.py:56-103 | Freshly signed headers verify to the same context before its expiry and are refused as expired from then on |
| InternalAuth.VerifiedContextWasIssued | packages/session_state/session_state/internal_auth.py:85-103 | Where only issued texts have a right digest, what verifies is an issued, unexpired context |
| InternalAuth.ContextIsReadExactly | packages/session_state/session_state/internal_auth.py:16-53 | A JSON value is read as a context exactly when it says that context field by field, each list in any order and with repetitions, and has no other member |
| InternalAuth.VerdictIsExact | packages/session_state/session_state/internal_auth.py:85-103 | Each verdict on two headers, the context or one of six refusals, is given exactly when it is due: by what is missing, the secret, the signature, the encoding, the text and the time, in this order |
| ToolCatalog.Catalog | packages/workflow_core/workflow_core/tool_catalog.py:37-134 | The table of tools; a tool is read-only exactly when its blast radius is none or low |
| ToolCatalog.CatalogIsConsistent | packages/workflow_core/workflow_core/tool_catalog.py:37-134 | The one scope of a tool begins with the word for its operation and names its one argument, and its server is that of its domain; the planning tool needs no argument and has no server |
| ToolCatalog.SelectedScopesWereIssued | packages/workflow_core/workflow_core/tool_catalog.py:141-180 | Only issued scopes are selected: those among the tool's candidates as soon as one was issued, else all |
| ToolCatalog.RequirementsAreExact | packages/workflow_core/workflow_core/tool_catalog.py:137-180 | A tool needs its own scope templates, with all their arguments, exactly when the token has no scopes or has a candidate and the tool has arguments; else it needs, without arguments, the stripped token scopes: its candidates if one was issued, and all if none was |
| ScopeTemplates.PlainPiecesReadBack | packages/workflow_core/workflow_core/authz.py:81-99 | A template made of brace-free text and named fields is read as those pieces |
| ScopeTemplates.PiecesPrintBack | packages/workflow_core/workflow_core/authz.py:81-99 | Every template is the concatenation of the pieces it is read as |
| ScopeTemplates.MaterializeIsExact | packages/workflow_core/workflow_core/authz.py:81-134 | A scope materialises exactly when every declared and template argument is present, the template arguments are scalars, and neither text nor value holds a brace; it is then the one-pass concatenation, nothing inside a value expanded again |
| ScopeTemplates.MaterializedScopesAreSorted | packages/workflow_core/workflow_core/authz.py:102-111 | A list of scopes materialises exactly when each does, to the sorted set of them |
| Policy.PolicyIsExact | packages/workflow_core/workflow_core/policy.py:15-35 | Approval is required exactly when a step mutates, is no read or is of medium blast radius or more; the blast radius is the widest of the steps; a scope is required exactly when a step requires it |
| Policy.PolicyIsAJoin | packages/workflow_core/workflow_core/policy.py:15-35 | The decision about two lists one after the other is the or, the maximum and the union of their decisions |
| Policy.PolicyIgnoresOrder | packages/workflow_core/workflow_core/policy.py:15-35 | But for the description the decision depends only on which steps there are |
| Dispatcher.Dispatch | services/agent_service/agent_service/orchestration.py:56-85 | The loop with its set of seen calls returns the selected intents and their numbered steps, and raises exactly when some intent may be called, its scopes materialise, and a scope selected from the token consists only of fields whose arguments are the empty string |
| Dispatcher.BlankFieldRaises | services/agent_service/agent_service/orchestration.py:114-142 | The token scope `{x}` and the argument x = "" raise, whatever the agent, server, reference and reason of the intent |
| Dispatcher.FirstIsSelected | services/agent_service/agent_service/orchestration.py:56-85 | The first occurrence of each call that is in the catalog, allowed and materialisable is selected, in input order |
| Dispatcher.SelectedIsFirst | services/agent_service/agent_service/orchestration.py:56-85 | Nothing else is selected |
| Dispatcher.EligibleIsExact | services/agent_service/agent_service/orchestration.py:66-85 | A call counts exactly when its tool is in the catalog and allowed, and every template that it needs has its declared arguments, is filled by scalars without braces, and does not come out empty |
| Dispatcher.StepScopesAreExact | services/agent_service/agent_service/orchestration.py:114-142 | A step requires a scope exactly when a template that its tool needs for the token gives it, filled from the arguments of the step |
| Dispatcher.NormalizedIs | services/agent_service/agent_service/orchestration.py:98-111 | A normalised intent goes to the server of the catalog and has a reference marked as validated, unless it is one of the catalog; agent, tool, arguments and reason are as the runtime said |
| Dispatcher.SelectedCallsDiffer | services/agent_service/agent_service/orchestration.py:66-80 | No tool is selected twice with the same arguments |
| Dispatcher.MaterialNamesTheCall | services/agent_service/agent_service/orchestration.py:157-166 | The text by which repetitions are recognised is the same exactly for the same tool and arguments |
| Dispatcher.DedupeIntents | services/agent_service/agent_service/orchestration.py:145-154 | The loop with its set of seen texts keeps of the intents with one text the first |
| Dispatcher.DedupingChangesNoSelection | services/agent_service/agent_service/orchestration.py:42-50 | Deduplicating what the runtime proposes changes nothing of what a dispatch selects, nor its order |
| Dispatcher.DedupingChangesNoError | services/agent_service/agent_service/orchestration.py:42-50 | Nor whether the dispatch raises |
| Dispatcher.DispatchingAgainChangesNothing | services/agent_service/agent_service/orchestration.py:56-85 | Dispatching the selected intents again selects all of them and gives the same steps |
| Dispatcher.StepsBelongToIntents | services/agent_service/agent_service/orchestration.py:114-142 | The k-th step carries the number k, and the agent, tool, arguments, type and scopes of the k-th selected intent, with what the catalog says of the tool |
| Dispatcher.StepIdsAreDistinct | services/agent_service/agent_service/orchestration.py:114-142 | Steps with different numbers have different ids |
| Dispatcher.ApprovalIsForMoreThanReads | packages/workflow_core/workflow_core/policy.py:15-35 | A dispatched plan needs approval exactly when some step is no read |
| WorkflowIds.IdNamesWhatWasAsked | services/agent_service/agent_service/app.py:1157-1169 | Two plannings have one workflow id exactly when user, session, tenant, question and tool names agree, where the kept digits tell the two texts apart |
| WorkflowIds.IdIsMadeOfWhatWasAsked | services/agent_service/agent_service/app.py:1157-1169 | The id is `wf-` and sixteen digits of the digest of a text that says user, session, tenant, question and tool names in their order, and nothing else |
| Egress.DeriveOutboundRequest | services/egress_gateway/egress_gateway/app.py:74-115 | The method lets a call out exactly when it is covered, and then unchanged and with every header redacted; it refuses any other for the first check that the call does not pass |
| Egress.OnlyCoveredCallsGetOut | services/egress_gateway/egress_gateway/app.py:74-219 | A call gets out exactly when a signed, unexpired grant covers its tool, target, verb, primitive, workflow and approval, has equal arguments, and names the user, session and tenant of the caller and the presented scopes and audience; it goes out unchanged with redacted headers |
| Egress.RefusalIsExact | services/egress_gateway/egress_gateway/app.py:74-219 | Each of the refusals is given exactly for the first check that is not passed; a mismatch names exactly the differing fields, in order |
| Egress.ArgumentsArePinnedExactly | services/egress_gateway/egress_gateway/app.py:158-183 | A grant covers no other arguments than its own if and only if these hold, at any depth, neither a boolean nor a number with a second equal form |
| Egress.TrueCountsAsOne | services/egress_gateway/egress_gateway/app.py:176-183 | A covered call whose grant says n = 1 is covered with n = true as well, and that is what goes out |
| Equality.OnlyRigidIsAlone | services/egress_gateway/egress_gateway/app.py:176-178 | Under `==` on parsed JSON a value equals nothing but itself exactly when it holds neither a boolean nor a number with a second equal form |
| Equality.EqualInTurn | services/egress_gateway/egress_gateway/app.py:176-178 | `==` on parsed JSON is transitive, booleans counting as numbers |
| Equality.EqualBothWays | services/egress_gateway/egress_gateway/app.py:176-178 | It is symmetric: it does not matter on which side the grant stands |
| Execution.ExecuteApprovedSteps | services/agent_service/agent_service/app.py:1227-1313 | The calls sent are those of the first steps in order, each with the signed grant of its step; result i is the public part of reply i; the loop ends without error exactly when the token has an audience, every call can be built and every reply reports success in its members, and else with the error of the first step that does not |
| Execution.AgentService.Approve | services/agent_service/agent_service/app.py:181-275 | Every path of an approve call: what is saved and in which order; a begun record is saved as executing, for fifteen minutes, and then ends completed exactly when the exchange succeeded, every call can be built and every reply reports success, with the public part of each reply, and failed otherwise, with one entry about the failed exchange or the first error |
| Execution.BeginIsExact | services/agent_service/agent_service/app.py:181-246 | An approve call begins in each of its seven ways exactly when that way is called for by the record, the hash, the answer, the token reference and the auth context; an approval names its record, plan and caller and lasts fifteen minutes |
| Execution.StepOutcomeIsExact | services/agent_service/agent_service/app.py:1237-1313 | A step succeeds exactly when the approval lasts, the step has a target, its payload is an object without a nameless member, a secret is set, and the reply has no `outbound` object or one whose `mcp_result` is an object that neither failed nor is marked as an error; each error occurs exactly for its cause |
| Execution.AgentService.Save | services/agent_service/agent_service/state.py:107-110 | A save replaces one record |
| Execution.SentCallGetsOut | services/agent_service/agent_service/app.py:1237-1293 | The request built for a dispatched step passes the gateway's checks exactly while the approval lasts and the token has the step's scopes |
| Execution.SentHeadersVerify | services/agent_service/agent_service/app.py:1259-1265 | The headers sent with a call verify to a context with the owner, the token reference and the policy scopes of its record for five minutes, and are refused as expired from then on |
| Execution.StepCrossesTheGateway | services/agent_service/agent_service/app.py:1237-1293 | For every step of a planned workflow, from the executor through headers and request checks together: the call is built and gets out exactly when the tool has a downstream server, a secret is set, no argument is nameless, headers and approval last, and the token has the scopes of the step |
| WorkflowProtocol.RunIsSafe | services/agent_service/agent_service/app.py:181-275 | In every run of plan, approve, exchange, send, finish and foreign egress steps: every stored record keeps the hash and the policy of its plan, every signed grant is that of a step of a begun approval, and every accepted call is justified |
| WorkflowProtocol.EveryAcceptedCallIsApproved | services/egress_gateway/egress_gateway/app.py:118-219 | Every call the gateway lets out in any run is one step of a plan whose hash its owner sent with the approval: same tool, target, verb and primitive, equal arguments (the very same where they hold neither a boolean nor a number with a second equal form), same user, session and tenant, not expired, scopes within those approved and those presented |
| WorkflowProtocol.StatusMovesForward | services/agent_service/agent_service/app.py:194-265 | After a planning and until the next for its workflow, the status moves only from open to cancelled or executing and from executing to completed or failed; plan and hash stay, and the hash is that of the plan |
| WorkflowProtocol.SettledStaysSettled | services/agent_service/agent_service/app.py:200-208 | A completed, failed or cancelled record never changes again in such a run |
| WorkflowProtocol.ExecutionBeginsOnce | services/agent_service/agent_service/app.py:239-246 | Execution begins at most once in such a run, whatever the approve calls |
| Completion.CompletedMeansDone | services/agent_service/agent_service/app.py:239-265 | In every run, a stored record is completed only if it was approved, a call of each of its steps with that approval was let out by the gateway, and each was answered with success; the record holds these answers in the order of the steps |
| WorkflowProtocol.ShownPlanCanBeAnswered | services/agent_service/agent_service/app.py:181-246 | Whatever happens after the browser was shown a plan that waits for approval, until it is planned anew: the owner who answers with the id and the hash that are shown finds the record, never a conflict, and the answer cancels it or begins it exactly when it is still open |
| WorkflowProtocol.OnlyPlanningReopens | services/agent_service/agent_service/app.py:398-418 | In every safe state, a settled record whose workflow has no call under way changes in a step exactly when the step plans the same workflow again |
| WorkflowProtocol.SettledChangesExactly | services/agent_service/agent_service/app.py:239-265 | In every safe state, some step other than planning changes a settled record if and only if a call for an earlier planning is under way that has not come to its end or would end with another record |
| WorkflowProtocol.OlderCallRewritesCancelled | services/agent_service/agent_service/app.py:209-256 | For every planned record and every two answers of its owner, whatever their contexts, ids and times: the run of planning, approving, planning again and refusing leaves it cancelled, and the failure of the first call's exchange then makes it failed |
| WorkflowProtocol.EachStepIsSignedOnce | services/agent_service/agent_service/app.py:1237-1286 | In every run each step of a begun approval is signed at most once |
| WorkflowProtocol.GrantsCanBeReplayed | services/egress_gateway/egress_gateway/app.py:65-219 | A call that was let out in a run, sent any number of times again with any arguments and headers, is let out each time if the arguments equal the approved ones, the headers verify for the same user, session and tenant, and the grant is live; else never |
| WorkflowProtocol.OwnHeadersReplay | services/egress_gateway/egress_gateway/app.py:65-71 | Unchanged and with its own headers it can be sent again exactly until these or its grant expire |
| WorkflowProtocol.OtherArgumentsGetOutExactly | services/egress_gateway/egress_gateway/app.py:158-183 | A call that was let out in a run can be sent with other arguments than approved if and only if the approved ones hold a boolean or a number with a second equal form |
| WorkflowProtocol.TrueGetsOutForOne | services/egress_gateway/egress_gateway/app.py:158-183 | After a call was let out for the approved argument n = 1, its headers and grant let out one with n = true |
| WorkflowProtocol.PlannedWaitsForApproval | services/agent_service/agent_service/app.py:398-418 | A planned record waits for approval exactly when some step is no read, and is ready otherwise |
| WorkflowProtocol.PlanningIsFresh | services/agent_service/agent_service/app.py:382-429 | Planning when no approve call for the workflow is under way starts such a life |
| Redaction.RedactSensitiveText | services/agent_service/agent_service/app.py:627-631 | The loop over the set, in whatever order it is visited, leaves none of the redactable values, and not the only one if it meets the weaker condition for one |
| Redaction.RedactedTextIsClean | services/agent_service/agent_service/app.py:627-631 | A redactable value is gone whatever the text, the other values and their order |
| Redaction.RedactionIsExact | services/agent_service/agent_service/app.py:627-631 | A value is gone for all texts, other values and orders if and only if it cannot share characters with the marker |
| Redaction.OneValueIsExact | services/agent_service/agent_service/app.py:570-631 | When the value is the only one, it is gone for all texts if and only if it is no part of the marker, does not begin with an end of it, and does not run into it after a beginning in which it is not found first |
| Redaction.TwoBracketsGo | services/agent_service/agent_service/app.py:627-631 | The value `[[` meets the marker, yet is always removed |
| Redaction.PlainValueIsRedactable | services/agent_service/agent_service/app.py:570-575 | Non-empty values without brackets that are no part of `REDACTED` meet that condition |
| Redaction.RedactedValueIsClean | services/agent_service/agent_service/app.py:610-624 | A redacted JSON value holds none of the values that meet their condition in any string value and no browser-private key, at any depth |
| Redaction.RedactedValueIsExact | services/agent_service/agent_service/app.py:610-624 | A value that meets its condition is in no string and no member name of a redacted JSON value if and only if it is in none of the member names that stay |
| Redaction.MemberNamesAreKept | services/agent_service/agent_service/app.py:618-623 | A value that comes as a member name is left where it was |
| Redaction.RedactedIsWhere | services/agent_service/agent_service/app.py:610-624 | Whatever path leads to a value leads to it after redaction, exactly when it goes through no private name: lists keep their length and order, objects their public names, numbers and words their value, and texts have the values replaced |
| Redaction.RedactionLeavesAloneExactly | services/agent_service/agent_service/app.py:610-624 | Redaction of one value other than the marker leaves a JSON value alone exactly when no string of it holds that value and it has no private key |
| Redaction.ReplaceLeavesAloneExactly | services/agent_service/agent_service/app.py:627-631 | Replacing a value leaves a text alone exactly when the text does not hold it, or the value is the marker |
| PublicRecord.RecordHoldsNoExactly | services/agent_service/agent_service/app.py:651-666 | What the browser is shown of a record holds a value in some string or member name exactly when one of its public texts does |
| PublicRecord.RecordIsShown | services/agent_service/agent_service/app.py:651-666 | The browser is shown each public field of the record, its plan, steps, intents, policy, approval and results under its own name with its own value, and no other field |
| Redaction.StripKeysIsExact | services/agent_service/agent_service/app.py:1143-1154 | Stripping leaves no hidden key at any depth, and leaves a value alone exactly when it has none |
| Redaction.StrippedIsWhere | services/agent_service/agent_service/app.py:1143-1154 | Stripping takes away what a path leads to exactly when the path goes through a hidden name, and leaves everything else in its place |
| Sse.IterSseEvents | services/ag_ui_gateway/ag_ui_gateway/client.py:71-80 | The line loop cuts the text at every line boundary of `str.splitlines`, a carriage return and line feed being one, and yields in order the objects that are payloads of data lines, up to the first payload that is no JSON |
| Sse.FramesReadBack | services/agent_service/agent_service/app.py:562-567 | Reading the frames of any list of events returns that list (section 9.2 of the WHATWG HTML standard) |
| Sse.FrameIsOneLine | services/agent_service/agent_service/app.py:562-567 | A frame is `data: `, a printable ASCII text of the event, and an empty line |
| Sse.PrintIsPrintable | services/agent_service/agent_service/app.py:566-567 | ASCII-escaped JSON holds printable ASCII only, so no line separator of any kind |
| Sse.BrokenFramesReadBack | services/ag_ui_gateway/ag_ui_gateway/client.py:42-80 | Wherever in its bytes the text of the frames breaks off, exactly the events are read whose data line and its line break had arrived, undamaged |
| RunStream.StreamAgentRun | services/agent_service/agent_service/app.py:432-559 | The generator yields the events of the specification for every plan, answer and failure, and a client that applies them shows the run: begun and ended once under its ids, with the message, one answered call per step, the record and the request for approval, or with the error |
| RunStream.BrowserShowsTheRun | services/agent_service/agent_service/app.py:432-559 | After the events the client has exactly the redacted message; for step k a call with the id of the run and the step, its tool, the message as parent, its payload redacted, and a result that parses to its id, agent and action; the public record; and, exactly when the plan waits for it, one request for approval with the id, hash, scopes and description of the record |
| RunStream.AgentStreamIsRun | services/agent_service/agent_service/app.py:432-559 | For every plan with distinct step ids and every failure of the runtime or of planning, the stream is accepted by the grammar of a run: one RUN_STARTED first, texts and calls bracketed with ids of their own, every call answered, one terminal event last |
| RunStream.RunIsBegunAndEndedOnce | services/agent_service/agent_service/app.py:432-559 | Whatever the grammar accepts holds one RUN_STARTED, first, and one terminal event, last |
| RunShape.RunsAreInPlace | services/agent_service/agent_service/app.py:432-559 | A stream is accepted by the grammar exactly when each event is in its place and the last event, and no other, is an end: texts and calls start one at a time under new ids, content and ends follow their own start, each result follows the end of its call, once, and a run finishes only when nothing is open and no call waits |
| RunStream.DispatchedIdsAreDistinct | services/agent_service/agent_service/app.py:481-487 | The call ids of a dispatched plan are distinct and differ from the message's |
| RunStream.StreamIsCleanExactly | services/agent_service/agent_service/app.py:432-559 | A value that redaction removes is in no string and no member name of any event of the stream, at any depth, if and only if it is in none of the texts that redaction does not reach: the words and ids of the events and the public texts of the record |
| Secrets.RedactedIntentHoldsNoExactly | services/agent_service/agent_service/app.py:592-607 | A redacted intent, as the dispatcher keeps it, holds a value that redaction removes exactly in its agent, in the names of its arguments, or in server, tool and reference |
| Secrets.IntentsAreRedacted | services/agent_service/agent_service/app.py:578-607 | What the runtime proposes is redacted intent by intent, in the arguments, the reason and the reference, with agent, server and tool as they were; without sensitive values nothing changes |
| Secrets.RedactedArgumentsPrintExactly | services/agent_service/agent_service/app.py:592-624 | For a value without JSON's structural characters: the printed arguments of a redacted intent, where JSON escapes nothing in them, hold it exactly when a name that stays, a number, or true, false or null does |
| Secrets.PlainValueIsStreamedExactly | services/agent_service/agent_service/app.py:432-607 | For a value without JSON's structural characters and bars, the stream of a run planned from redacted intents holds it if and only if an agent does, or a name, number, word or escaped string of the kept arguments, or an id, hash, time, scope, catalog text or fixed word |
| Secrets.AgentNameIsStreamed | services/agent_service/agent_service/app.py:592-607 | A runtime that names the value as the agent, whatever else it says, gets it planned as the step's target and streamed |
| RunStream.StreamAgentEvents | services/ag_ui_gateway/ag_ui_gateway/sse.py:18-46 | The gateway's loop with its started flag yields each event where it was, less its private members, and after a break the text of what broke, for a run that is begun first with the ids of the request if it was not yet |
| RunStream.StrippingKeepsTheToken | services/ag_ui_gateway/ag_ui_gateway/sse.py:97-114 | Stripping private keys leaves the role of an event in the grammar unchanged |
| RunStream.KeysAreReadLoosely | services/ag_ui_gateway/ag_ui_gateway/sse.py:97-114 | Whether the gateway takes an ASCII key for private depends neither on its case nor on its separators; a key of small letters and digits is private exactly when it is listed |
| RunStream.GatewayEndsTheRun | services/ag_ui_gateway/ag_ui_gateway/sse.py:18-46 | Of any prefix of a run the gateway makes a run, begun once and ended once, exactly when the upstream broke before its terminal event, or did not break and came to its end |
| RunStream.GatewayBeginsAndEndsOnce | services/ag_ui_gateway/ag_ui_gateway/sse.py:18-46 | What the gateway then sends holds one RUN_STARTED, first, and one terminal event, last |
| RunStream.BrokenStreamStillEnds | services/ag_ui_gateway/ag_ui_gateway/sse.py:18-46 | From the agent service to the browser, for every number of bytes that arrive: the gateway reads exactly the events whose data lines are complete, and the browser gets one well-formed run after a break if and only if more than the last line break was missing |
| ThreadMessages.RestorableThreadMessages | services/agent_service/agent_service/app.py:833-866 | The loop over the messages, with its merges into earlier ones, computes the specification, and raises exactly at the first message whose role is a list or an object, or that has a call whose arguments, or a result whose content, is a text on which `json.loads` raises what is not caught |
| ThreadMessages.RestoredAreWhatCame | services/agent_service/agent_service/app.py:833-1005 | Message by message: one for each user, system and assistant message in order, with the first id and name it has, its content part by part, and its listed calls; the results of calls aside |
| ThreadMessages.RefusalIsExact | services/agent_service/agent_service/app.py:833-1029 | A message is refused exactly for an unhashable role, for a call without arguments whose text of arguments raises, or for the result of a call that is there whose text raises |
| ThreadMessages.UnreadableResultRaises | services/agent_service/agent_service/app.py:1008-1029 | A result with such a text, for a call that is there, raises |
| ThreadMessages.NormalizeAssistantMessage | services/agent_service/agent_service/app.py:881-1005 | A non-empty text becomes one text part; of a list each object that is, without its server-only members, a text, a call or of a kept kind becomes a part, in order, and nothing else does; the listed calls follow, less those whose id is there already; it raises exactly when the text of the arguments of one of its calls does |
| ThreadMessages.AddCallsIsExact | services/agent_service/agent_service/app.py:881-896 | The parts stay in front; the calls added have ids of their own, and together all listed ids are there |
| ThreadMessages.ListedCallReadsBack | services/agent_service/agent_service/app.py:942-1005 | A listed function call becomes the part with its id, name, argument text, and the arguments that this text prints |
| ThreadMessages.ArgsTextKeepsEverything | services/agent_service/agent_service/app.py:983-1000 | The argument text still prints the arguments as they came; it prints those that are kept if and only if none was for the server only |
| ThreadMessages.MergeToolResult | services/agent_service/agent_service/app.py:1008-1029 | The two backward loops change the latest call with the id of the result, and raise exactly when there is one and the result is a text that raises |
| ThreadMessages.MergeIsExact | services/agent_service/agent_service/app.py:1008-1029 | A result changes nothing if no earlier call has its id, and else the call with its id that no other such call comes after: this holds the parsed content, is marked as an error when one is reported, and everything else is as it was |
| ThreadMessages.AnsweredHoldsTheResult | services/agent_service/agent_service/app.py:1022-1028 | The call holds the value that the result is the text of, is marked as an error when one is reported, and is otherwise as it was |
| ThreadMessages.RestoredAreTheKept | services/agent_service/agent_service/app.py:833-866 | The output is the user, system and assistant messages, each normalised by itself, in input order, but for the results of calls |
| ThreadMessages.AnsweredCallKeepsItsResult | services/agent_service/agent_service/app.py:1008-1029 | A result stays on its call through all later messages until another result for its id |
| ThreadMessages.AnswerIsOnceAndLast | services/agent_service/agent_service/app.py:844-850 | The new assistant message is there once, last; before it are exactly the restored messages with other ids, each as often as it was there and in their order |
| ThreadMessages.RestoringAgainChangesNothing | services/agent_service/agent_service/app.py:833-1005 | Restoring a restored thread returns it unchanged, whatever ids are drawn, also with the answer it ends with |
| ThreadMessages.RestoringAgainNeverRaises | services/agent_service/agent_service/app.py:833-1005 | Whatever texts raise, restoring a restored thread raises nothing |
| ThreadMessages.MessageReadsBack | services/agent_service/agent_service/app.py:854-1005 | A normalised message, stored as JSON, is normalised to itself |
| ThreadMessages.ThreadHoldsNoServerState | services/agent_service/agent_service/app.py:1104-1105 | No message of a restored thread holds a server-only key at any depth |
| ThreadMessages.AssistantThreadMessage | services/agent_service/agent_service/app.py:1032-1074 | The loop over the steps builds the answer: its text if it has one, then one call per step with the step's tool, payload, parsed arguments and planned result, under the id it has in the stream; it raises exactly when the payload of a step is a text that raises |
| ThreadMessages.AnswerIsNormal | services/agent_service/agent_service/app.py:1032-1074 | The answer for steps with a name and a payload is a normalised message |
| ThreadMessages.StreamedCallIsAnswered | services/agent_service/agent_service/app.py:1008-1074 | A result for the id that the stream gave to step k lands on the call of step k in the thread's answer, whatever the thread held before |

## Left out

- The frontend, the supervisor persona, the sample MCP tools, the observability package and the thin clients of `token_broker`: user interface, configuration or wrappers, with nothing to prove beyond their bodies.
- FastAPI routing, httpx, the MCP client, Auth0 and the agent runtime: network. The token exchange, the replies of the gateway and what the runtime says are arbitrary values.
- Pydantic: validation is a partial function with the conditions its validators state, and a stored blob is the record it was dumped from. `auth_context_ref` of a session is excluded from dumps, and so from the comparison of the stores.
- TTLs and expiry of Redis keys: a key stays until it is overwritten.
- `append_workflow_event` and `_save_thread_workflow_state`: an append to a list, and a copy of the record's public form into its thread.
- Two approve calls for one workflow whose reads and first writes overlap: `WorkflowProtocol.Approve` takes a call from its read to its first write as one step. The code makes no claim about the overlap.
- Numbers in JSON are carried as their printed text, and compared through an arbitrary value of each text: reading a number and printing it again, as Python does when it parses one, is not modelled, nor are NaN, which is not equal to itself, and the infinities.
- The digit limit of Python's integers and its recursion limit: they are modelled where a text is parsed that a caller chose freely (`ThreadMessages`), as an arbitrary set of texts that raise, and nowhere else.
- Lone surrogates: a Dafny `char` is a Unicode scalar value, so strings that Python can hold but not encode are outside the model.
- `base64.urlsafe_b64decode` skips characters outside the alphabet; the model's decoder refuses them. So `InternalAuth.VerdictIsExact` gives the encoding refusal for signed texts outside the alphabet, which the code decodes or refuses by what is left of them; texts that were encoded first are decoded alike.
- How httpx cuts a response into chunks: `Sse.CompleteLines` is what its line decoder has delivered when the connection breaks after a given text.
- Case folding of non-ASCII characters in private keys is a parameter of the gateway's model; only its effect on ASCII is fixed.
- The message texts of HTTP errors; the kinds of error are modelled.
- The in-place update of a message's dict is modelled on a sequence that the loop reassigns: no two messages of a list share a part, so aliasing cannot be observed.
- `set_session` and `set_workflow` are blind writes of arbitrary records in `OptimisticStore`.
- `_thread_state_payload`, `create_thread`, `restore_thread` and the titles of threads: copies of fields, with the key stripping that `Redaction.StripKeysIsExact` is about.
