# Open Agent Policy: a verified model of the decision path

Open Agent Policy decides, request by request, what a software agent may do. This project
models the part of it that decides and the parts that carry a decision out, and proves what
they promise. `dafny verify dfyconfig.toml` checks everything.

The files follow the program:

| file | what it models |
|---|---|
| `Text.dfy`, `Model.dfy` | strings, 64-bit integers, dynamic values, agents, policies, requests, decisions |
| `Constraints.dfy` | merging the constraints of matching rules, and the reader for external backends |
| `Rules.dfy`, `RuleEngine.dfy`, `Approvals.dfy` | matching one rule; scanning all rules; what the scan decides, and who must approve |
| `Evaluator.dfy` | the gates before the rules, and the external backend path |
| `Meaning.dfy`, `Reading.dfy` | what policies mean, said without the evaluator, and that the evaluator reads them so |
| `Base64Url.dfy`, `Grant.dfy` | grant tokens: lifetimes, signing, verifying |
| `Replay.dfy`, `TokenValidator.dfy` | runtime tokens: the replay cache, the key-set cache, the binding loop |
| `Store.dfy`, `Session.dfy` | the in-memory store of shared agent records; sessions and runs |
| `Metrics.dfy`, `Audit.dfy` | counters; the audit sink and its paged query |
| `TokenAccess.dfy` | what a token lets through once its constraints have been written and read back |
| `Handlers.dfy`, `ServerRuns.dfy` | the HTTP handlers as single calls, and all of them interleaved as one state machine |
| `SessionRuns.dfy`, `ProofRuns.dfy`, `CreationRuns.dfy` | over its runs: who stands behind a session, what a workload proof opens, and a creation without interruption |
| `GrantRuns.dfy`, `Provenance.dfy` | over its runs: the story of every request and grant, and of every token that verifies |
| `RevocationRuns.dfy`, `CounterRuns.dfy` | over its runs: revocation, and the counters |
| `Migrations.dfy` | the schema migration runner, over many instances |

How things are represented:

- A range over a Go map is a walk of its keys in an order that is a parameter (conditions, time
  windows) or that the loop picks arbitrarily (constraints, obligations, policies, replay
  entries). Results are compared with lists of fields and of policy ids taken as sets.
- Time is an integer number of nanoseconds since the Unix epoch. Integers are unbounded, and the places where the
  program computes in 64 bits wrap explicitly (`Wrap64`).
- JSON on claims, HMAC-SHA256, SHA-256, signature verification, endpoint fetches, clock-string
  parsing and external backends are unknown functions or values. Where a theorem needs something
  of them it says so: `FaithfulCodec` (claims read back as `JsonImage` says), `Unforged` (a MAC
  that passes was computed for an issued token), `ValidHost` (a checksum is never empty).
- Policies appear twice: as the program reads them, and in `Meaning` as they are meant, over the
  values, names and lists themselves and without any of the program's helpers. `Reading` proves
  the two equal, piece by piece and for whole requests.
- Handlers appear twice: as methods of a class, one uninterrupted call each, and as the actions
  of a state machine in which any handler may run between two steps of another. `HandlerIsARun`
  ties the two together.

## What does not hold, and exactly when it does

- The kind of decision is not always independent of map order. A rule with one unmet and one
  malformed condition ("wavering") is skipped or makes the whole request denied, depending on
  which key the loop meets first (`OrderCanDecide`). `KindIsStableIff` gives the exact condition
  for a stable kind, and `PossibleKindsAre` all kinds otherwise; the only other kind is deny.
- Nor is what else the decision says. A request for approval names the approvers of whichever
  policy comes first, with no rule wavering (`OrderCanChooseApprover`). `PossibleApprovalsAre`
  says exactly which approvals can be named and `ApprovalIsStableIff` when it is always the same
  one. A denial because of malformed rules names the policy of whichever is met first.
- The evaluator's comment and trace speak of an active agent (`engine/evaluator/evaluator.go:97`),
  but a request of an agent under review is allowed (`PendingIsAllowed`). A status stops an
  otherwise allowed request exactly when it is revoked or suspended (`StateGateIff`). Sessions
  do require an active agent.
- Not every token of a revoked agent was issued before the revocation. A request that passed its
  lookup still gets its grant afterwards (`GrantAfterRevocation`). `NewGrantIff` says exactly
  when: some continuation issues a grant if and only if a request is pending that passed every
  gate on its lookup, or was decided to allow. A session creation in flight may still open a
  session as well (`SessionAfterRevocation`).
- A replay id is free again from its expiry plus the skew on, at an instant when the proof itself
  still passes (`AcceptedAgainAtTheBoundary`); `RefusedIff` says exactly when an id is refused.
- Cache keys join subject and id with a bar. Ids of two subjects can collide exactly when one
  subject with its bar is a prefix of the other with its (`SubjectsOverlapIff`); then an id that
  was never used can be refused (`UnusedIsRefused`), and otherwise never (`UnusedIsNeverRefused`).
- Lists of allowed fields with no field in common leave an empty `allowed_fields`, which JSON
  loses. The constraints read back from the token are wider exactly then (`TokenWidensIff`,
  `DisjointListsWiden`), and only in the fields (`TokenAccessIsExact`).
- A lifetime is honoured to the second exactly up to 9223372036 seconds (`LifetimeIsExactIff`),
  and a duration text is read exactly as long as its seconds fit 64 bits (`DurationIsExact`).
  Beyond that a grant only ever lives shorter (`LifetimeNeverExceedsText`).

## Model

| member | source | states |
|---|---|---|
| Reading.EvaluateReads | engine/evaluator/evaluator.go:71-293 | An answer other than deny needs a registered agent neither revoked nor suspended, one of whose capabilities names the action, a policy, and a delegation that lists the action if there is one; then an access passes exactly when the backend lets it be, or else the policies mean to allow it, unless a rule wavers, which can only take it away |
| Reading.RulesRead | engine/evaluator/evaluator.go:318-521 | In every order the rules decide as they mean: stopped, denied, approval, allowed with or without constraints, or denied by default; with a wavering rule, or deny |
| Reading.ClassIs | engine/evaluator/evaluator.go:337-415 | A rule applies, stops the evaluation or wavers exactly when its actions, resources, conditions, constraints and obligations, as written, mean so for the request |
| Reading.ConditionsRead | engine/evaluator/evaluator.go:538-624 | A full walk is met exactly when every condition, as written, means something and is so; unmet or malformed only when some condition is |
| Reading.ConditionIs | engine/evaluator/evaluator.go:543-621 | Each condition on its own: actor, type, id, groups, environment, strength by its place in the list, delegation |
| Reading.AsStrongIff | engine/evaluator/evaluator.go:789-802 | A strength suffices exactly when both are known and it comes no earlier in the list none, password, mfa, phishing_resistant_mfa |
| Reading.SelectorIs | engine/evaluator/evaluator.go:688-772 | A selector is valid, and matches, exactly as its types, classification, environments and owners say |
| Reading.ActionsOnlyGate | engine/evaluator/evaluator.go:658-671 | A rule without actions never matches, one pattern is enough wherever it stands, further ones change nothing |
| Reading.CapabilitiesOnlyGate | engine/evaluator/evaluator.go:673-686 | Without capabilities every request is denied, one that names the action is enough wherever it stands, and adding any never turns a granted request into a denied one |
| Reading.SomeNamesIff | engine/evaluator/evaluator.go:658-686 | Some pattern of a list covers a name exactly when one at some position is "*", the name, or "p.*" for a name starting with "p." |
| Reading.DelegationIs | engine/evaluator/evaluator.go:630-652 | A delegated request is covered exactly when its scope is a list of strings with the action or "*" |
| Reading.EntryIs | engine/evaluator/constraints.go:103-129 | A constraint entry is accepted exactly when its key is known and its value says something enforceable |
| Reading.BackendEntryIs | engine/evaluator/constraints.go:134-228 | A backend entry is accepted, and permits an access, exactly as the policy entry it is an alias of, or as a lifetime in seconds |
| Reading.ObligationIs | engine/evaluator/constraints.go:267-286 | An obligation entry is accepted exactly when it is a known flag or a non-empty list of strings to notify |
| Reading.MatchesIs | engine/model/policy.go:106-130 | A policy is for an agent exactly when it is for all, names its URI, its type or its namespace |
| Reading.ApprovalIs | engine/evaluator/evaluator.go:470-482 | The attached approval has the rule's approvers, and the seconds that its expiry text says, 0 without one |
| RuleEngine.DecisionIsOrderFree | engine/evaluator/evaluator.go:318-521 | For every order of policies, rules, condition keys and window keys: without wavering rules the kind of decision is the one deny-over-approval-over-allow reading of the set of rules, a malformed one denying; unless it is deny, policy ids, constraints and obligations are those of the deciding rules, and the approval is the first some policy asks for; a deny names only policies with a denying or malformed rule |
| RuleEngine.PossibleKindsAre | engine/evaluator/evaluator.go:318-521 | The kinds of decision that map order can produce are exactly the order-free one and, if a rule wavers, deny |
| RuleEngine.KindIsStableIff | engine/evaluator/evaluator.go:538-624 | The kind of decision is the same for all orders if and only if no applicable rule wavers or it is deny anyway |
| ApprovalOrders.PossibleApprovalsAre | engine/evaluator/evaluator.go:470-482 | Some order attaches an approval if and only if the order-free kind is approval and some policy's first applicable approval rule asks for it |
| ApprovalOrders.ApprovalIsStableIff | engine/evaluator/evaluator.go:470-482 | The approval is the same for all orders if and only if none is asked for or every policy that asks first asks for the same |
| ApprovalOrders.OrderCanChooseApprover | engine/store/memory/memory.go:118-128 | Two concrete policies whose order alone chooses between alice and bob as approver |
| RuleEngine.OrderCanDecide | engine/evaluator/evaluator.go:543-621 | A concrete policy and request for which map order alone chooses between allow and deny |
| RuleEngine.AccessIsExact | engine/evaluator/evaluator.go:318-521 | An access is let through only if an allow rule applies, nothing denies, asks for approval or is malformed, and every entry of every applying allow rule permits it; and, without wavering rules, always then |
| RuleEngine.AddingRulesNeverWidens | engine/evaluator/evaluator.go:335-505 | Once allowed, adding any policies or rules of any effect lets no access through that was not let through before |
| RuleEngine.EvaluateRules | engine/evaluator/evaluator.go:318-521 | The nested loops with their early return reach the decision the scan calls for: kind, policy ids, merged constraints and obligations, first approval |
| RuleEngine.ScanPolicy | engine/evaluator/evaluator.go:335-430 | The inner loop leaves the matches it had plus this policy's, by effect, or stops at the first malformed rule |
| RuleEngine.StepSound | engine/evaluator/evaluator.go:416-428 | Each rule met keeps the lists exact: a live rule joins the list of its effect, a delegation rule denies only without an actor, an unknown effect joins none, and only a malformed rule stops the scan |
| RuleEngine.CollectPolicyIDs | engine/evaluator/evaluator.go:893-903 | Exactly the policies of the matches, each once |
| RuleEngine.Conclude | engine/evaluator/evaluator.go:433-520 | Deny beats approval beats allow; no match at all denies |
| RuleEngine.ScanSound | engine/evaluator/evaluator.go:335-430 | Whatever the order, the three lists hold exactly the applicable rules of each effect, and a stop has a malformed rule of the named policy behind it |
| Rules.ConditionsMet | engine/evaluator/evaluator.go:538-624 | The loop returns the verdict of the first key in its walk that is unmet or malformed |
| Rules.ConditionsSound | engine/evaluator/evaluator.go:538-624 | A full walk is met exactly when no condition can fail, and otherwise fails in a way some condition can |
| Rules.ConditionsComplete | engine/evaluator/evaluator.go:543-621 | Every failure some condition can produce is the answer for some walk of the two maps |
| Rules.OutcomeSound | engine/evaluator/evaluator.go:337-415 | What happens to a rule fits its order-free class |
| Rules.OutcomeComplete | engine/evaluator/evaluator.go:337-415 | Everything that fits the class happens for some walk |
| Rules.TimeWindowMatches | engine/evaluator/evaluator.go:804-844 | The loop returns the verdict of the first window key in its walk that fails |
| Rules.WindowIsInterval | engine/evaluator/evaluator.go:804-860 | In whatever order the keys come, a window is met exactly between after and before, both included, on a listed weekday, with no unknown or ill-typed key |
| Rules.ClockShows | engine/evaluator/evaluator.go:846-860 | The clock a window is compared with is the hours, minutes and seconds of the day |
| Rules.DaysFollow | engine/evaluator/evaluator.go:828-834 | The epoch was a Thursday and weekday follows weekday |
| Rules.CoversIff | engine/evaluator/evaluator.go:658-686 | A capability or action pattern covers a name exactly when it is "*", the name, or "p.*" for a name starting with "p." |
| Rules.ClassificationIsBelow | engine/evaluator/evaluator.go:715-727 | A classification is within a maximum exactly when both are known levels and it comes no later in their order |
| Model.ToStringsIs | engine/evaluator/constraints.go:332-345 | Exactly the lists of strings and of nothing else are read, as the strings in them |
| Model.ToIntIs | engine/evaluator/constraints.go:318-330 | A positive number is read exactly from that integer, or from a float that goes beyond it by less than one |
| ConstraintAlgebra.MergedListsAre | engine/evaluator/constraints.go:48-79 | A field is redacted exactly when some rule's value lists it, and allowed exactly when every rule with allowed fields lists it |
| ConstraintAlgebra.MergeConstraints | engine/evaluator/constraints.go:18-98 | The loop's result is the meet of what the rules ask for, absent exactly when no rule has constraints |
| ConstraintAlgebra.MergeIsExact | engine/evaluator/constraints.go:18-129 | Merged constraints of validated rules permit an access if and only if every entry of every rule does |
| ConstraintAlgebra.MeetIsSemilattice | engine/evaluator/constraints.go:18-98 | Merging is associative, commutative and idempotent, with no constraints as its unit |
| ConstraintAlgebra.MeetAllUnion | engine/evaluator/constraints.go:18-98 | Grouping, order and repetition of rules do not change the merged constraints |
| ConstraintAlgebra.MergeOnlyNarrows | engine/evaluator/constraints.go:18-98 | More rules never permit more |
| ConstraintAlgebra.MergeIsTopIff | engine/evaluator/constraints.go:18-98 | Validated rules merge to no restriction at all exactly when none has constraints |
| ConstraintAlgebra.RuleBoundReads | engine/evaluator/constraints.go:28-91 | Of any rule, validated or not, exactly the positive numbers, string lists and duration texts are read, as the values say them |
| ConstraintAlgebra.RuleBoundIsMeet | engine/evaluator/constraints.go:23-91 | Reading a validated rule field by field is the meet of its entries, each read alone |
| ConstraintAlgebra.ReadersAgree | engine/evaluator/constraints.go:103-228 | On every map a policy rule may have, the backend reader accepts and sees the same constraints |
| ConstraintAlgebra.ConstraintsFromBackendMap | engine/evaluator/constraints.go:134-228 | Succeeds if and only if every key is known and well typed; the result is the meet of the entries in whatever order they come, several aliases of one field included |
| ConstraintAlgebra.ApplyEntry | engine/evaluator/constraints.go:140-226 | Each backend entry can only tighten what was read before, by exactly what it asks |
| ConstraintAlgebra.ValidateConstraints | engine/evaluator/constraints.go:103-129 | Accepts exactly the maps whose entries are all enforceable |
| ConstraintAlgebra.MergeObligations | engine/evaluator/constraints.go:232-264 | Flags are on exactly when some rule asks for them; the notify list is the union; absent exactly when no rule has obligations |
| ConstraintAlgebra.ValidateObligations | engine/evaluator/constraints.go:267-286 | Accepts exactly the maps whose entries can all be honoured |
| ConstraintAlgebra.UnionStrings | engine/evaluator/constraints.go:352-366 | The set union, the first list as it was and nothing repeated behind it |
| ConstraintAlgebra.IntersectStrings | engine/evaluator/constraints.go:374-388 | The set intersection, each member once |
| Text.DurationIsExact | engine/evaluator/constraints.go:288-314 | Any digits and a unit, white space around, are read as that many seconds if and only if they fit 64 bits, and never as more; a count beyond 64 bits reads as 0 |
| Text.DurationReads | engine/evaluator/constraints.go:288-314 | Exactly the texts that say a positive number of seconds, minutes or hours, white space and sign aside, are read, and as that number up to 64-bit wrap-around |
| Evaluator.Evaluate | engine/evaluator/evaluator.go:71-188 | Every gate denies in turn; then the backend decides, or the rules when there is none or it fails open |
| Evaluator.EvaluateBackend | engine/evaluator/evaluator.go:194-293 | An error, no result, an unknown decision, malformed constraints, or constrained allow without constraints is a deny; anything else passes on unchanged but for allow turning into constrained allow |
| Evaluator.AllowIsExact | engine/evaluator/evaluator.go:71-293 | For any backend, an access passes only for a registered agent neither revoked nor suspended, a covering capability, a matching policy and, if delegated, a covering scope; and then exactly when rules or backend grant it |
| Evaluator.BackendAccessIsExact | engine/evaluator/evaluator.go:249-282 | A backend's allow lets an access through if and only if every constraint entry it sent permits it |
| Evaluator.AlwaysSupported | engine/evaluator/evaluator.go:295-307 | Whatever a backend answers, only the six known decisions come out |
| Evaluator.StateGateIff | engine/evaluator/evaluator.go:113-124 | With another status an allowed request stays allowed exactly when the state is neither revoked nor suspended |
| Evaluator.PlainIsAllowedIff | engine/evaluator/evaluator.go:71-188 | A request under one unconditional allow rule is allowed in every state but revoked and suspended |
| Evaluator.PendingIsAllowed | engine/evaluator/evaluator.go:113-125 | A concrete agent under review whose request is allowed though it is not active |
| Evaluator.NewPolicyNeverWidens | engine/store/memory/memory.go:118-137 | Storing a further policy, whatever it says, lets no access through for an allowed request that was not let through before |
| Base64Url.DecodeOfEncode | engine/grant/jwt.go:140-188 | Unpadded base64url (section 5 of RFC 4648): decoding undoes encoding on every byte string |
| Base64Url.EncodeIsClean | engine/grant/jwt.go:172-188 | Encoded text holds no dot and no line break |
| Grant.VerifyUndoesSign | engine/grant/jwt.go:135-188 | A signed token verifies, to what the codec reads back, at exactly the instants up to the end of the second its exp names |
| Grant.VerifiedWasIssued | engine/grant/jwt.go:135-169 | With an unforgeable MAC, every token that verifies carries issued claims and has not expired |
| Grant.PartsAreDotFree | engine/grant/jwt.go:136-139 | Splitting at dots leaves parts without dots |
| Grant.SigningInputsAgree | engine/grant/jwt.go:140-151 | The MAC covers header and claims as two parts: no two pairs share an input |
| Grant.LifetimeNeverExceeds | engine/grant/jwt.go:97-132 | A grant never outlives its constraint and is never announced for longer, overflow included |
| Grant.LifetimeNeverExceedsText | engine/grant/jwt.go:97-132 | A validated rule that says n seconds, minutes or hours bounds every grant it contributes to, whatever n |
| TokenAccess.TokenWidensIff | engine/evaluator/constraints.go:68-77 | For merged validated rules, the constraints read back from a token never narrow, and widen exactly when rules list allowed fields and no field is on all lists |
| TokenAccess.DisjointListsWiden | engine/evaluator/constraints.go:68-77 | Two rules with the lists ["a"] and ["b"]: the token lets every field be touched, the decision none |
| TokenAccess.TokenAccessIsExact | engine/grant/jwt.go:97-118 | From rules to token: it lets an access through only if an allow rule applied, nothing stood in the way and every entry permits it, the fields aside exactly when the lists had none in common; and, without wavering rules, always then |
| TokenAccess.BackendTokenIsExact | engine/grant/jwt.go:97-118 | The same if and only if for a decision of an external backend |
| Grant.LifetimeIsExactIff | engine/grant/jwt.go:97-132 | A constrained lifetime equals both the announced seconds and exp minus iat, at every phase of the clock, if and only if it is at most 9223372036 |
| Grant.DefaultLifetime | engine/grant/jwt.go:121-132 | Without a positive lifetime in its constraints a grant lives for the issuer's default, announced in whole seconds |
| Grant.HeaderSays | engine/grant/jwt.go:172-188 | The first part of every signed token decodes to the HS256 header |
| Grant.MergedExpiryIsSmallest | engine/evaluator/constraints.go:81-91 | The merged lifetime is the smallest any rule sets, and none when none does |
| Grant.LifetimeFromPolicyText | engine/grant/jwt.go:97-132 | From the text "90s", "15m" or "24h" of the strictest rule to a token that expires exactly that much after its issue |
| Replay.ReplaySafety | engine/session/token.go:372-389 | Over every interleaving, clock samples entering the lock out of order: after an acceptance with expiry e, the id is not accepted again before real time e plus skew |
| Replay.RefusedIff | engine/session/token.go:379-387 | Exactly when a critical section refuses, in terms of earlier acceptances, its own sample, and the samples in between |
| Replay.LiveMeans | engine/session/token.go:379-387 | The cache holds an expiry exactly while the latest acceptance has not been purged by a late enough sample |
| Replay.RunKeepsInv | engine/session/token.go:372-389 | Every reachable cache is the one the history of critical sections determines |
| Replay.UnusedIsNeverRefused | engine/session/token.go:373-386 | When no two subjects of the history overlap, a refusal means that very subject used that very id |
| Replay.UnusedIsRefused | engine/session/token.go:373-386 | For any two overlapping subjects, a run in which an id that was never used is refused |
| Replay.SubjectsOverlapIff | engine/session/token.go:373 | Two subjects can share a cache key exactly when one with its bar is a prefix of the other with its |
| Replay.RemainingAreRecent | engine/session/token.go:279-280 | After a section sampled at t, every other entry was accepted no earlier than t minus longest lifetime and skew |
| Replay.AcceptedAgainAtTheBoundary | engine/session/token.go:384-387 | A run in which one proof is accepted twice, the second time at expiry plus skew |
| TokenValidation.TokenValidator.MarkWPTJTI | engine/session/token.go:372-389 | Purge, refuse or insert, as one atomic change of the cache, whatever order the purge walks the map in |
| TokenValidation.TokenValidator.GetJWKS | engine/session/token.go:393-430 | A set under an hour old is returned as cached; otherwise the first endpoint whose set normalises is, and is cached; otherwise nothing changes |
| TokenValidation.TokenValidator.NormalizeKeys | engine/session/token.go:498-516 | Fails exactly when no usable key is left |
| TokenValidation.TokenValidator.TryBinding | engine/session/token.go:99-193 | Only a wimse binding that passed every other check reaches the replay cache |
| TokenValidation.TokenValidator.ValidateAgainstBindings | engine/session/token.go:71-96 | A token that does not parse touches nothing; else the first binding that accepts wins, and what failed attempts cached stays |
| TokenValidation.ConsumedAllOrNothing | engine/session/token.go:71-192 | A call adds at most one replay entry, exactly when it succeeds through a wimse binding; the accepted binding passed all checks on a fit key set; an entry is gone only if an attempt sampled a time past its expiry plus skew |
| ProofRuns.ProofsAreConsumedOnce | engine/session/token.go:186-192 | The same over every interleaving: each accepting replay section belongs to exactly one session creation, accepted through wimse with that proof, and each such creation has its own |
| ProofRuns.OneProofOneSession | engine/session/session.go:153-204 | Over every run, one proof (subject and id) opens at most one session before its expiry plus skew |
| TokenValidation.CachedKeysAreFit | engine/session/token.go:393-434 | Over all runs of interleaved cache writes, what a binding finds under its key is non-empty and, for spiffe, only jwt-svid keys |
| TokenValidation.LookupIsFit | engine/session/token.go:393-430 | Every key set returned, cached or fresh, is fit for the binding, and the cache stays so |
| TokenValidation.CacheKeyNamesKind | engine/session/token.go:195-202 | Joined with bars from free text, cache keys of spiffe bindings still differ from all others |
| TokenValidation.SvidKeysAre | engine/session/token.go:506-511 | The filtered bundle holds exactly the jwt-svid keys |
| MemoryStore.Store.RegisterAgent | engine/store/memory/memory.go:68-76 | Replaces the entry of this id and no other; a nil agent is refused |
| MemoryStore.Store.UpdateAgentStatus | engine/store/memory/memory.go:78-87 | Replaces the status of the shared record in place: one entry's status changes, all else stays; an unknown id changes nothing |
| MemoryStore.Store.DeleteAgent | engine/store/memory/memory.go:89-94 | Removes this id's entry only |
| MemoryStore.Store.AddPolicy | engine/store/memory/memory.go:130-138 | Replaces the policy of this id and no other; a nil policy is refused |
| MemoryStore.Store.PoliciesForAgent | engine/store/memory/memory.go:118-128 | Lists exactly the stored policies whose selector matches, each once, in any order |
| TokenValidation.CheckIsSound | engine/session/token.go:99-193 | A binding accepts exactly the credible tokens, on a key set fit for it |
| TokenValidation.CredibleIff | engine/session/token.go:106-192 | Credible: verified by the keys, with an expiry, of this issuer and audience, of the binding's subject, of its kind, and for wimse with a fresh proof by the confirmed key for this request and token |
| TokenValidation.SubjectFitsIff | engine/session/token.go:219-234 | A subject fits exactly when it is "client_id:" and the client id under either name, or, without that prefix, the token's subject or a non-empty client id |
| TokenValidation.CacheKeysDiffer | engine/session/token.go:432-434 | Bindings whose issuers hold no bar share a cache entry exactly when they agree in kind, issuer and key-set URI |
| TokenValidation.FreshForAnHour | engine/session/token.go:400-402 | A cached set is used for one hour after it was fetched |
| Sessions.Manager.CreateSession | engine/session/session.go:153-204 | A session is stored, active, for the full lifetime, exactly when the agent is active with bindings, a binding accepts the token and an id could be drawn; a failure stores none |
| Sessions.Manager.GetSession | engine/session/session.go:207-222 | Answers exactly with known, active sessions not past their expiry |
| Sessions.Manager.CreateRun | engine/session/session.go:225-251 | A run is stored exactly when the session is live, and carries the session's agent |
| Handlers.Server.HandleAuthorize | server/api/server.go:476-540 | One call: one request counted, one verdict or one invalid; the verified identity replaces the claimed one; the decision is one Evaluate may reach on the store's content, the backend's answer and the clock; a grant exactly with an allow whose claims encode; exactly one audit event, recording this answer, or one more write error |
| Handlers.Server.EmitAuditEvent | server/api/server.go:778-826 | Appends one event that names agent and instance, actor, action, resource, run, policies, constraints and grant of the answer; when the sink refuses it, counts one write error instead |
| Handlers.Server.HandleValidateGrant | server/api/server.go:549-579 | Accepts exactly the tokens that verify now |
| Handlers.Server.HandleRegisterAgent | server/api/server.go:601-626 | Registers exactly named agents, as of now, and as active when no state is given |
| Handlers.GrantRefIsHonest | server/api/server.go:517-532 | A token in an answer names exactly issuer, agent, action, resource, run, decision, policies and constraints; it verifies for under two seconds longer than announced, and for at least as long unless its lifetime wraps below zero |
| Handlers.DefaultGrantLasts | server/api/server.go:517-532 | A grant without a lifetime of its own verifies at exactly the instants up to the end of the second in which the issuer's default has passed, and announces it |
| Handlers.ConstrainedGrantLasts | server/api/server.go:517-532 | A grant with a lifetime that fits verifies for exactly that many seconds after the second of its issue, and announces it |
| Handlers.HandlerIsARun | server/api/server.go:476-540 | An uninterrupted call on a store with this content, at this time, is a run of the interleaved machine with the same counts, records and grants |
| Provenance.GrantProvenance | server/api/server.go:493-534 | Over every run, a token that verifies has its whole story in it: a bearer that resolved to the verified identity, a lookup of the agent as the store held it, an allow that Evaluate reached on the registry and by the clock of that moment, with a backend only if one is configured, the issue; it speaks for exactly that agent, action and resource, lets nothing through that rules or backend did not grant, and has not expired |
| Provenance.RulesGrantedIt | engine/evaluator/evaluator.go:180-188 | Without a backend, whatever a verified token lets through was granted by the rules stored at the decision step of the run, within their time windows by the clock of that step |
| Provenance.SubjectWasVouched | server/api/auth.go:72-114 | With auth on, the subject of such a token was vouched for in the run: by a JWT of the issuer, or by a live session opened for that very agent |
| GrantRuns.RunKeepsStories | server/api/server.go:476-540 | At every step, every request in flight and every grant has its steps in the run, in order, each with what the state then gave: identity, agent, registry, backend, time |
| RevocationRuns.RevocationHolds | engine/store/memory/memory.go:68-94 | From a state where an agent is revoked, suspended or gone, until something brings it back: every evaluation that looks it up denies, and it gets no grant and no session, live sessions notwithstanding, pending requests and creations in flight aside |
| RevocationRuns.RevokedTokensAreOld | server/api/server.go:501-534 | A token for such an agent that still verifies was issued before, or for a request that was pending then; and stops verifying after its own expiry |
| RevocationRuns.NewGrantIff | server/api/server.go:501-534 | Some continuation that does not bring the agent back issues it a grant if and only if a request for it is pending: its lookup passed every gate, or it was decided to allow |
| RevocationRuns.GrantAfterRevocation | server/api/server.go:501-534 | Runs in which a request in flight gets its grant after the revocation of its agent |
| RevocationRuns.SessionAfterRevocation | engine/session/session.go:153-204 | Runs in which a session creation in flight opens its session after the revocation of its agent |
| SessionRuns.SessionIdentity | server/api/auth.go:96-107 | When a session token resolves to an agent, a session creation opened it at most one lifetime ago: it had looked the agent up when the store held it active, and presented a token that then passed every check of one of its bindings on a fit key set, however everything interleaves |
| SessionRuns.ResolvesExactly | server/api/auth.go:96-114 | A bearer resolves to an agent exactly when it is a JWT that names it or a session opened for it no longer than one lifetime ago |
| CreationRuns.ValidationIsARun | engine/session/token.go:71-96 | Attempts on all bindings in a row, each with its replay section, do in the interleaved machine what the validator does in one call: same memory, same accepting binding and keys |
| SessionRuns.RunsBelongToSessions | engine/session/session.go:225-251 | Every stored run names a stored session and carries its agent |
| SessionRuns.SessionsAreImmutable | engine/session/session.go:153-251 | Stored sessions and runs never change |
| CounterRuns.CountersBalance | server/api/metrics.go:38-59 | At every step of every interleaving: requests = invalid + decisions + in flight; "other" stays 0; at rest audit writes = decisions |
| CounterRuns.EachCounterIsExact | server/api/metrics.go:38-59 | For each decision on its own: verdicts given = its counter + those of requests still in flight |
| Metrics.ServerMetrics.RecordAuthorize | server/api/metrics.go:38-59 | Adds one to the counter of this decision and to no other |
| Metrics.RecordMovesOne | server/api/metrics.go:38-59 | Every supported decision has its own counter, and recording one moves no other |
| Audit.FilterMeans | engine/audit/sink.go:185-225 | Each filter alone asks for exactly one field of the event, and no filter for none |
| Audit.FiltersCombine | engine/audit/sink.go:185-225 | An event matches a query exactly when it matches each of its filters alone |
| Audit.NormalizeMeans | engine/audit/query.go:32-43 | Limits from 1 to 200 stay, none means 100, more means 200; negative offsets mean 0 |
| Audit.AnswerIsExact | engine/audit/sink.go:153-225 | The answer holds exactly the matching events, as often as written, newest timestamp first and latest written first among equals |
| Audit.PagesPartition | engine/audit/query.go:32-43 | For any requested limit, pages at multiples of the normalised one (1 to 200) concatenate to the answer, nothing lost or repeated |
| Audit.StableSortIsUnique | engine/audit/sink.go:171-173 | A stable sort has one possible outcome, so nothing rests on the algorithm |
| Audit.SortDescIsStable | engine/audit/sink.go:171-173 | The sort puts newer first and keeps the order of equal timestamps |
| Audit.MemorySink.Collect | engine/audit/sink.go:157-169 | The loop from the latest event back collects exactly the matching events, unless the context ends first |
| Audit.MemorySink.Query | engine/audit/sink.go:153-183 | Returns one page of the answer, or an error once the context is done, and changes nothing |
| Migrations.ValidateMigrations | engine/store/postgres/migrations.go:226-253 | Accepts exactly the non-empty lists of named migrations with positive, strictly increasing versions |
| Migrations.Database.EnsureSchema | engine/store/postgres/migrations.go:131-187 | Commits all of the run or nothing; succeeds exactly when the list is valid, every migration goes through and the database answers every statement, begin, lock and commit included |
| Migrations.SucceedsIff | engine/store/postgres/migrations.go:149-181 | A run succeeds exactly when every listed migration is recorded compatibly or its SQL runs |
| Migrations.MigrationsAreSafe | engine/store/postgres/migrations.go:131-187 | Over every interleaving of instances, each with its own list, crashes included: each version's SQL is committed at most once, only for unrecorded versions that some started list has, and non-empty metadata never changes |
| Migrations.OnlyCommitShows | engine/store/postgres/migrations.go:136-186 | Whatever instances do short of a commit, failing and crashing included, the table and the executed SQL stay as they were |
| Migrations.EnsureSchemaIsARun | engine/store/postgres/migrations.go:131-187 | An uninterrupted instance on a free lock is a run of the interleaved instances: it commits what its list makes of the database, or leaves everything as it was |
| Migrations.SuccessIsFinal | engine/store/postgres/migrations.go:131-187 | After one success, whatever lists other instances run later, running that list or any part of it applies nothing and changes nothing |
| Migrations.UpToDateIsFixed | engine/store/postgres/migrations.go:168-180 | On an up-to-date table a run executes no SQL and rewrites every row as it was |

## Left out

- Evaluator.AllowIsExact: with a wavering rule the built-in path is sound but an access that every other rule grants may still be denied, which is what the code does; `PossibleKindsAre` says when.
- Evaluator.NewPolicyNeverWidens: states the built-in evaluator only; an external backend may answer anything to more policies.
- RevocationRuns.RevocationHolds: session creations that had looked the agent up before are set aside as a whole; for grants `NewGrantIff` is exact, for sessions there is only the run of `SessionAfterRevocation`.
- SessionRuns.SessionIdentity: an attempt on one binding is two steps, the checks and the replay section; that cache writes inside the checks interleave too is covered by `CachedKeysAreFit`.
- Provenance.GrantProvenance: rests on an unforgeable MAC and on claims strings that JSON reads back; text that is not valid UTF-8 is not covered.
- Handlers.Server.EmitAuditEvent: the reason text of the event is not modelled.
- The clock is the same for all rules of one evaluation; the code reads it once per time window.
- An agent's lookup and its state check are one step. The code hands out shared records, so a status update between the two is seen; the store class does model that sharing.
- Clock strings are parsed by an unknown function; of the wall clock going backwards only the state machines' own assumption, that it does not, is modelled.
- Reasons, traces and log lines, which do depend on map order; the reason a backend gives.
- Conversion of floats: NaN and infinities, and rounding when a duration is turned into seconds; a float outside 64 bits converts to the smallest integer, as on amd64.
- Wrap-around of the 64-bit counters.
- Dry-run evaluation, listing and health endpoints, HTTP status codes, header and query parsing, strict JSON decoding.
- The resource and tool maps of the store; agent deletion by an endpoint does not exist, so it is an action of the machine only.
- Cryptography, key-set discovery and fetching, token parsing; the gateway, the proxy, the command line, the Python SDK, examples and demos.
- The Postgres store and its audit SQL, the JSON-lines, multi and standard-output sinks.
- Bundle synchronisation and the approval service, which give no guarantee without requests being serialised.
- Resource-side guards: one reads an empty field list as no limit, so the constraint theorems end at the decision and the token.
