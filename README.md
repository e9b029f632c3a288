# Gov-Case-Flow core, modelled in Dafny

Gov-Case-Flow is a case-management back end split into services that exchange events over a broker.
This project models the logic those services decide on:

- the **case workflow**: the seven statuses, the table of allowed transitions, and the case service that creates, reads, re-statuses and deletes cases, writing a history row and publishing an event per change;
- the **auth service**: registration with a normalised e-mail, login with a failed-attempt counter that locks the account for fifteen minutes at the fifth failure, promotion to OFFICER, and refresh tokens that are checked in a fixed order and revoked on use;
- the **audit service**: how an entry is derived from a status-changed, user-registered or user-promoted event, the severity rule, the append-only store and its severity filter;
- **trace ids**: the HTTP interceptor, the broker-listener advice and the audit service's own scoping helper. Each reuses an incoming id when it is acceptable, otherwise uses a fresh one, and keeps it in the logging context (MDC) only while the work runs;
- **request security**: the bearer-token filter that turns JWT roles into `ROLE_` authorities, the provider that strips them again, `CurrentUser.isAdmin`, and the auth service's principal dispatch;
- the **status mapping** from the case service's enum into the shared events enum, which has an extra UNKNOWN.

Each service that keeps state is a class:

- `Cases.CaseService` keeps a case map, a status-history sequence and an outbox of published events.
- `Auth.AuthService` keeps a user map and an event outbox, and holds a `RefreshTokens.RefreshTokenService` with a token map.
- `Audit.AuditService` keeps its entry sequence.
- `Tracing.Mdc` is the logging context.
- `Servlet.HttpResponse` and `Servlet.FilterChain` stand for the servlet objects the filter writes to.

The pure parts are functions, with lemmas about them.

Time is an integer count of nanoseconds. Each operation receives the clock reading, the fresh UUID and the fresh token value as parameters. Three things are modelled as function parameters: UUID parsing (`UuidParser`, standing for `UUID.fromString`), JWT parsing (`JwtParser`), and password matching or encoding.

The files are:

- `base.dfy`: Option, Result, Outcome, UUID and its canonical text.
- `java_text.dfy`: the `String` methods the source relies on. These are `toLowerCase`, `trim`, `isBlank`, `startsWith` and `equalsIgnoreCase`, written out for ASCII.
- `case_status_transitions.dfy`, `case_status_event_mapper.dfy`, `case_service.dfy`
- `refresh_token_service.dfy`, `auth_current_user_provider.dfy`, `auth_service.dfy`
- `audit_service.dfy`
- `servlet.dfy`, `tracing.dfy`, `mdc_trace.dfy`
- `case_security.dfy`

## Model

| member | source | states |
|---|---|---|
| CaseStatusTransitions.IsAllowedTransition | case-service/src/main/java/com/caseservice/domain/CaseStatusTransitions.java:36-38 | `isAllowedTransition`: the looked-up successor set, empty for a status without an entry, contains the target; its meaning is stated by TableMatchesWorkflow and TableIsTotal |
| CaseStatusTransitions.TableMatchesWorkflow | case-service/src/main/java/com/caseservice/domain/CaseStatusTransitions.java:11-38 | a transition is allowed by the table exactly when it is one of the seven workflow edges written out independently |
| CaseStatusTransitions.TableIsTotal | case-service/src/main/java/com/caseservice/domain/CaseStatusTransitions.java:36-38 | every status has a table entry, so the `getOrDefault` fallback (no successor, answer false) is never reached |
| CaseStatusTransitions.ExactlySevenPairs | case-service/src/main/java/com/caseservice/domain/CaseStatusTransitions.java:12-31 | of the 49 status pairs exactly the seven listed are allowed |
| CaseStatusTransitions.ClosedIsTerminal | case-service/src/main/java/com/caseservice/domain/CaseStatusTransitions.java:30-31 | CLOSED has no allowed successor |
| CaseStatusTransitions.ApprovedCannotReopen | case-service/src/test/java/com/caseservice/service/CaseServiceTest.java:163-180 | APPROVED may not go back to IN_REVIEW; its only successor is CLOSED |
| CaseStatusTransitions.NoSelfLoops | case-service/src/main/java/com/caseservice/domain/CaseStatusTransitions.java:12-31 | no status may transition to itself |
| CaseStatusTransitions.OnlyDecisionPendingBranches | case-service/src/main/java/com/caseservice/domain/CaseStatusTransitions.java:21-22 | a status has more than one successor if and only if it is DECISION_PENDING |
| CaseStatusTransitions.EdgeRaisesRank | case-service/src/main/java/com/caseservice/domain/CaseStatusTransitions.java:12-31 | every allowed edge raises the workflow rank by exactly one |
| CaseStatusTransitions.PathRank | case-service/src/main/java/com/caseservice/domain/CaseStatusTransitions.java:12-31 | along any walk of allowed transitions, the i-th status is i ranks above the first |
| CaseStatusTransitions.PathNeverRevisits | case-service/src/main/java/com/caseservice/domain/CaseStatusTransitions.java:12-31 | a walk of allowed transitions never returns to a status it has left (the graph is acyclic) |
| CaseStatusTransitions.PathAtMostFiveSteps | case-service/src/main/java/com/caseservice/domain/CaseStatusTransitions.java:12-31 | a walk of allowed transitions has at most six statuses, i.e. five steps |
| SharedEvents.EventStatusValueOf | gov-case-flow-events/src/main/java/com/govcaseflow/events/cases/CaseStatus.java:3-12 | `valueOf` returns only a constant whose name is exactly the given string |
| SharedEvents.ValueOfName | gov-case-flow-events/src/main/java/com/govcaseflow/events/cases/CaseStatus.java:3-12 | `valueOf(name())` gives back every shared constant, UNKNOWN included |
| CaseStatusEventMapper.ToEvent | case-service/src/main/java/com/caseservice/mapper/CaseStatusEventMapper.java:7-9 | the shared status has the same name as the case status |
| CaseStatusEventMapper.ToEventIsTotal | case-service/src/main/java/com/caseservice/mapper/CaseStatusEventMapper.java:7-9 | `valueOf` succeeds on every case-status name: the mapping never throws |
| CaseStatusEventMapper.ToEventNeverUnknown | case-service/src/main/java/com/caseservice/mapper/CaseStatusEventMapper.java:8 | no case status maps to UNKNOWN |
| CaseStatusEventMapper.ToEventInjective | case-service/src/main/java/com/caseservice/mapper/CaseStatusEventMapper.java:7-9 | distinct case statuses map to distinct shared statuses |
| Cases.ChainExtend | case-service/src/main/java/com/caseservice/service/CaseService.java:95-107 | a history chain followed by a row along an allowed edge from its last status is again a chain |
| Cases.ChainRank | case-service/src/main/java/com/caseservice/service/CaseService.java:95-107 | a chain of n history rows raises the rank by n |
| Cases.ChainFromSubmitted | case-service/src/main/java/com/caseservice/service/CaseService.java:53 | a case whose history chains from SUBMITTED is never DRAFT, has at most four rows, and has four exactly when it is CLOSED |
| Cases.ChainsSurviveAppend | case-service/src/main/java/com/caseservice/service/CaseService.java:99-109 | appending one case's row along an allowed edge keeps every stored case's history a chain from SUBMITTED |
| Cases.ChangeStatusKeepsConsistent | case-service/src/main/java/com/caseservice/service/CaseService.java:86-121 | a permitted status change preserves the service invariant: unique ids and case numbers, every history row announced by its event, and each case's history chaining from SUBMITTED |
| Cases.CaseService.constructor | case-service/src/main/java/com/caseservice/service/CaseService.java:29-41 | the service starts over an empty case store, history and outbox, which satisfy the invariant |
| Cases.CaseService.CreateCase | case-service/src/main/java/com/caseservice/service/CaseService.java:43-61 | fails with CaseAlreadyExists if and only if the case number is taken, and then stores nothing; otherwise stores a SUBMITTED case created by the caller with no officer, and keeps the invariant |
| Cases.CaseService.GetById | case-service/src/main/java/com/caseservice/service/CaseService.java:79-84 | returns the stored case, or CaseNotFound for that id |
| Cases.CaseService.ChangeStatus | case-service/src/main/java/com/caseservice/service/CaseService.java:86-121 | succeeds exactly for a stored case and an allowed transition; CaseNotFound is checked before the transition; a failure changes nothing; a success changes only that case's status, appends one "system" history row and one "SYSTEM" event with the old and new status, and keeps the invariant |
| Cases.CaseService.DeleteCase | case-service/src/main/java/com/caseservice/service/CaseService.java:123-131 | fails with CaseNotFound exactly for an unknown id; otherwise removes only that case, leaving history and events |
| Cases.CaseService.StoredCasesFollowWorkflow | case-service/src/main/java/com/caseservice/service/CaseService.java:53 | under the invariant every stored case is past DRAFT and has at most four history rows |
| RefreshTokens.Validate | auth-service/src/main/java/com/authservice/service/RefreshTokenService.java:36-50 | the three failure checks run in order (unknown, then revoked, then expired strictly before now); success is exactly the stored, unrevoked, unexpired token |
| RefreshTokens.WithRevoked | auth-service/src/main/java/com/authservice/service/RefreshTokenService.java:58 | only the named token changes, and only its revoked flag |
| RefreshTokens.RevokedNeverValidates | auth-service/src/main/java/com/authservice/service/RefreshTokenService.java:41-43 | a revoked token fails with "revoked" at any time |
| RefreshTokens.RevokeIsIdempotent | auth-service/src/main/java/com/authservice/service/RefreshTokenService.java:52-59 | revoking twice equals revoking once |
| RefreshTokens.NewTokenValidForThirtyDays | auth-service/src/main/java/com/authservice/service/RefreshTokenService.java:26-34 | a fresh token validates from its creation up to and including thirty days later |
| RefreshTokens.RefreshTokenService.constructor | auth-service/src/main/java/com/authservice/service/RefreshTokenService.java:20-23 | the token store starts empty |
| RefreshTokens.RefreshTokenService.CreateForUser | auth-service/src/main/java/com/authservice/service/RefreshTokenService.java:25-34 | stores one unrevoked token for the user, created now and expiring thirty days later |
| RefreshTokens.RefreshTokenService.Revoke | auth-service/src/main/java/com/authservice/service/RefreshTokenService.java:52-59 | fails with "invalid" exactly for an unknown token; otherwise marks it revoked |
| AuthCurrentUser.GetUserId | auth-service/src/main/java/com/authservice/service/utils/CurrentUserProvider.java:11-36 | no authentication or an unauthenticated one is refused; a UUID principal is returned unchanged; "anonymousUser" is refused; a string principal that parses gives its UUID; anything else names its type |
| AuthCurrentUser.GetUserIdSucceedsExactly | auth-service/src/main/java/com/authservice/service/utils/CurrentUserProvider.java:14-35 | an id comes back if and only if the principal is a UUID, or a string other than "anonymousUser" that parses |
| AuthCurrentUser.AnonymousAlwaysRefused | auth-service/src/main/java/com/authservice/service/utils/CurrentUserProvider.java:24-26 | "anonymousUser" is refused whatever the UUID parser would say |
| Auth.NormalizeEmail | auth-service/src/main/java/com/authservice/service/AuthService.java:57 | the username an e-mail is stored and looked up under, trimmed then lower-cased; stated by PaddedEmailReadings and Register |
| Auth.DuplicateCheckAsWritten | auth-service/src/main/java/com/authservice/service/AuthService.java:52 | the duplicate check as written: a stored username equal ignoring case to the lower-cased, untrimmed e-mail; stated by UntrimmedDuplicatePassesCheck |
| Auth.PaddedEmailReadings | auth-service/src/main/java/com/authservice/service/AuthService.java:52-57 | " a@b.com" normalises to "a@b.com", while its merely lower-cased form is not equal to "a@b.com" ignoring case |
| Auth.UntrimmedDuplicatePassesCheck | auth-service/src/main/java/com/authservice/service/AuthService.java:52-57 | with "a@b.com" stored, the duplicate check as written lets " a@b.com" through, although that e-mail would be stored under the same username |
| Auth.IsLocked | auth-service/src/main/java/com/authservice/service/AuthService.java:142-146 | `checkAccountLock`: locked while `lockUntil` is set and strictly after now; Login's contract states that a locked account is refused before the password is checked |
| Auth.AfterFailedLogin | auth-service/src/main/java/com/authservice/service/AuthService.java:156-175 | only the counter and lock change; below five failures the counter goes up by one with no event; at the fifth the account locks until now + 15 minutes, the counter resets, and one BRUTE_FORCE AccountLocked event is emitted |
| Auth.AfterSuccessfulLogin | auth-service/src/main/java/com/authservice/service/AuthService.java:148-154 | the lock is cleared, nothing but counter and lock changes, and a non-negative counter ends at zero |
| Auth.FailuresCountUpToLock | auth-service/src/main/java/com/authservice/service/AuthService.java:156-175 | from a counter c, k failures with c + k below five only count up to c + k and emit nothing |
| Auth.FifthFailureLocks | auth-service/src/main/java/com/authservice/service/AuthService.java:156-175 | five failures from a clean counter lock the account until the fifth instant + 15 minutes, leave the counter at zero and emit exactly one AccountLocked event |
| Auth.FailedLoginKeepsCounterBelowThreshold | auth-service/src/main/java/com/authservice/service/AuthService.java:157-164 | a stored counter in [0,4] stays in [0,4] after a failure |
| Auth.NamedUserIsUnique | auth-service/src/main/java/com/authservice/service/AuthService.java:76 | under the invariant at most one user answers to a name ignoring case |
| Auth.UpdateKeepsConsistent | auth-service/src/main/java/com/authservice/service/AuthService.java:148-175 | updating a user's counter or lock, keeping id and username, preserves the invariant |
| Auth.IssueKeepsConsistent | auth-service/src/main/java/com/authservice/service/AuthService.java:89 | issuing a token to a stored user preserves the invariant |
| Auth.AuthService.constructor | auth-service/src/main/java/com/authservice/service/AuthService.java:35-46 | the service starts with no users and no events over an empty token store, which satisfy the invariant |
| Auth.AuthService.Register | auth-service/src/main/java/com/authservice/service/AuthService.java:49-72 | fails with UserAlreadyExists if and only if the normalised e-mail is taken ignoring case, and then changes nothing; otherwise stores an enabled USER under the trimmed, lower-cased e-mail with a zero counter, emits one UserRegistered event with its id, username and creation time, and keeps the invariant |
| Auth.AuthService.Login | auth-service/src/main/java/com/authservice/service/AuthService.java:74-92 | an unknown e-mail fails with InvalidCredentials and changes nothing; a lock still in the future fails with AccountLocked before the password is checked, changing nothing; a wrong password records a failed login on that user only; a right password resets counter and lock, issues one refresh token and returns the access and refresh tokens |
| Auth.AuthService.PromoteToOfficer | auth-service/src/main/java/com/authservice/service/AuthService.java:94-115 | the caller's id is resolved first; an unknown target fails; a target already OFFICER changes nothing and emits nothing; otherwise OFFICER is added to the existing roles and one UserPromoted event names the caller |
| Auth.AuthService.Refresh | auth-service/src/main/java/com/authservice/service/AuthService.java:117-131 | a token that does not validate is rejected with its reason and nothing changes; otherwise the presented token is revoked and a new one for the same user is issued, so the old token no longer validates and the new one does |
| Tracing.ChooseTraceId | gov-case-flow-tracing/src/main/java/com/govcaseflow/infrastructure/tracing/TraceIdInterceptor.java:33-44 | an incoming id that parses as a UUID is kept verbatim; otherwise the fresh id is used |
| Tracing.ChosenTraceIdIsValid | gov-case-flow-tracing/src/main/java/com/govcaseflow/infrastructure/tracing/TraceIdInterceptor.java:36-43 | for a parser that accepts canonical UUID text, the chosen id always parses |
| Tracing.ValidIncomingIdIsKept | gov-case-flow-tracing/src/main/java/com/govcaseflow/infrastructure/tracing/TraceIdInterceptor.java:36-40 | a valid incoming id is chosen whatever fresh id is on offer |
| Tracing.GetHeader | gov-case-flow-tracing/src/main/java/com/govcaseflow/infrastructure/tracing/TraceIdInterceptor.java:34 | `getHeader` finds nothing exactly when no header name equals the asked name ignoring case; otherwise it returns the value of the first such header |
| Tracing.LowerCaseTraceHeaderMatches | gov-case-flow-tracing/src/main/java/com/govcaseflow/infrastructure/tracing/TraceIdInterceptor.java:34 | the lower-case name "x-trace-id" that HTTP/2 sends names the X-Trace-Id header |
| Tracing.FirstMatchingHeaderIsRead | gov-case-flow-tracing/src/main/java/com/govcaseflow/infrastructure/tracing/TraceIdInterceptor.java:34 | a first header whose name is X-Trace-Id in any case is the one read |
| Tracing.ExtractOrGenerateTraceId | gov-case-flow-tracing/src/main/java/com/govcaseflow/infrastructure/tracing/TraceIdInterceptor.java:33-44 | the X-Trace-Id header, looked up ignoring the case of its name, is reused when present and parseable; otherwise the fresh id |
| Tracing.HeaderNameCaseIsIgnored | gov-case-flow-tracing/src/main/java/com/govcaseflow/infrastructure/tracing/TraceIdInterceptor.java:34-40 | a valid id sent under the lower-case name "x-trace-id" is reused, not replaced by the fresh id |
| Tracing.PreHandle | gov-case-flow-tracing/src/main/java/com/govcaseflow/infrastructure/tracing/TraceIdInterceptor.java:12-23 | the request always proceeds; the same chosen id (from the header looked up ignoring case) goes to the MDC under "traceId" and to the response header X-Trace-Id |
| Tracing.AfterCompletion | gov-case-flow-tracing/src/main/java/com/govcaseflow/infrastructure/tracing/TraceIdInterceptor.java:25-31 | the trace key is removed and every other MDC entry stays |
| Tracing.RequestLeavesContextClean | gov-case-flow-tracing/src/main/java/com/govcaseflow/infrastructure/tracing/TraceIdInterceptor.java:19-30 | put then remove leaves the MDC as before, without the trace key |
| Tracing.FirstMessage | gov-case-flow-tracing/src/main/java/com/govcaseflow/infrastructure/tracing/RabbitTraceInterceptorConfig.java:25-31 | no message is found if and only if no argument is a Message; a found one is the first Message argument |
| Tracing.FindMessage | gov-case-flow-tracing/src/main/java/com/govcaseflow/infrastructure/tracing/RabbitTraceInterceptorConfig.java:25-31 | the loop that stops at the first Message argument finds exactly that message |
| Tracing.ExtractTraceId | gov-case-flow-tracing/src/main/java/com/govcaseflow/infrastructure/tracing/RabbitTraceInterceptorConfig.java:46-64 | no message gives the fresh id; a message without properties throws NullPointerException; a String X-Trace-Id header that parses is reused, anything else gives the fresh id |
| Tracing.AdviseListenerCall | gov-case-flow-tracing/src/main/java/com/govcaseflow/infrastructure/tracing/RabbitTraceInterceptorConfig.java:23-41 | the invocation sees the MDC with the chosen id under "traceId" and its result, normal or exceptional, is returned; afterwards the key is removed; an extraction failure propagates with the MDC untouched |
| Tracing.ListenerRunsUnderValidId | gov-case-flow-tracing/src/main/java/com/govcaseflow/infrastructure/tracing/RabbitTraceInterceptorConfig.java:33-37 | when the message has properties, or there is no message, every listener call runs under an id that parses as a UUID |
| MdcTrace.IncomingTraceId | audit-service/src/main/java/com/auditservice/tracing/MdcTrace.java:14-18 | an id is read if and only if message, properties and the "traceId" header are all present, and it is the header's string form |
| MdcTrace.ActionContext | audit-service/src/main/java/com/auditservice/tracing/MdcTrace.java:20-22 | the key is set exactly when the header is present and not blank, to the header's string form; every other entry is untouched |
| MdcTrace.WithTraceId | audit-service/src/main/java/com/auditservice/tracing/MdcTrace.java:13-29 | the action runs once, under that context, and its result is returned; afterwards the key is gone whether or not it was set |
| MdcTrace.BlankHeaderIsIgnored | audit-service/src/main/java/com/auditservice/tracing/MdcTrace.java:20 | a blank header leaves the context exactly as it was |
| MdcTrace.MissingPropertiesIsNoMessage | audit-service/src/main/java/com/auditservice/tracing/MdcTrace.java:15 | a message without properties behaves like no message |
| Audit.ClassifySeverity | audit-service/src/main/java/com/auditservice/service/AuditService.java:143-149 | HIGH if and only if the new status is REJECTED, MEDIUM if and only if it is APPROVED, LOW otherwise, never INFO |
| Audit.CaseDecisionSeverity | audit-service/src/main/java/com/auditservice/service/AuditService.java:143-149 | for events carrying a mapped case status, HIGH means the case was rejected and MEDIUM that it was approved |
| Audit.CaseEntry | audit-service/src/main/java/com/auditservice/service/AuditService.java:35-57 | the entry `save` builds from an event and the MDC's trace id; its fields are stated by CaseEntryRecordsEvent and CaseEntryInjective |
| Audit.UserRegisteredEntry | audit-service/src/main/java/com/auditservice/service/AuditService.java:99-119 | the entry `saveUserRegistered` builds, with a random case id; its fields are stated by UserEntriesWellFormed |
| Audit.UserPromotedEntry | audit-service/src/main/java/com/auditservice/service/AuditService.java:121-141 | the entry `saveUserPromoted` builds, with a random case id; its fields are stated by UserEntriesWellFormed |
| Audit.CaseEntryRecordsEvent | audit-service/src/main/java/com/auditservice/service/AuditService.java:35-57 | the entry from save copies the event's case, statuses, time and actor; sets actor = changedBy, target = the case id's text, type CASE_STATUS_CHANGED and target CASE; and carries the MDC trace id |
| Audit.CaseEntryInjective | audit-service/src/main/java/com/auditservice/service/AuditService.java:39-57 | two different events never produce the same entry |
| Audit.UserEntriesWellFormed | audit-service/src/main/java/com/auditservice/service/AuditService.java:99-141 | the user-registered entry is INFO with actor = target = the user; the promoted entry is MEDIUM with the admin as actor and the promoted user as target; both have UNKNOWN statuses and trace "N/A" |
| Audit.Filtered | audit-service/src/main/java/com/auditservice/service/AuditService.java:91-97 | with no severity the whole store is returned; otherwise an entry is returned if and only if it is stored and has that severity, and the result is never longer than the store |
| Audit.FilteredCounts | audit-service/src/main/java/com/auditservice/service/AuditService.java:91-97 | every entry of the requested severity comes back as many times as it is stored, and no other entry comes back |
| Audit.FilteredSingleton | audit-service/src/main/java/com/auditservice/service/AuditService.java:91-97 | a single entry is kept exactly when it has the requested severity; with FilteredAppend this fixes the result as the stored order |
| Audit.FilteredAppend | audit-service/src/main/java/com/auditservice/service/AuditService.java:91-97 | filtering a concatenation is concatenating the filtered parts |
| Audit.SeveritiesPartitionEntries | audit-service/src/main/java/com/auditservice/service/AuditService.java:91-97 | as multisets, the four severity filters together are exactly the store: every stored entry comes back under its own severity as often as it is stored, and the lengths add up |
| Audit.AuditService.constructor | audit-service/src/main/java/com/auditservice/service/AuditService.java:26-29 | the store starts empty |
| Audit.AuditService.Save | audit-service/src/main/java/com/auditservice/service/AuditService.java:31-64 | appends exactly one case entry, under the MDC's trace id |
| Audit.AuditService.SaveUserRegistered | audit-service/src/main/java/com/auditservice/service/AuditService.java:99-119 | appends exactly the user-registered entry |
| Audit.AuditService.SaveUserPromoted | audit-service/src/main/java/com/auditservice/service/AuditService.java:121-141 | appends exactly the user-promoted entry |
| Audit.AuditService.GetAllFiltered | audit-service/src/main/java/com/auditservice/service/AuditService.java:91-97 | returns the severity filter of the store and changes nothing |
| Audit.SaveDoesNotDeduplicate | audit-service/src/main/java/com/auditservice/service/AuditService.java:31-64 | saving the same event twice stores it twice, and both copies appear under its severity |
| CaseSecurity.HasRole | case-service/src/main/java/com/caseservice/security/CurrentUser.java:11-13 | `hasRole`: exact membership of the role set, with no prefix handling; stated by AdminIsExactMembership and PrefixedAdminIsNotAdmin |
| CaseSecurity.IsAdmin | case-service/src/main/java/com/caseservice/security/CurrentUser.java:14-16 | `isAdmin` is `hasRole("ADMIN")`; stated by AdminIsExactMembership and AdminClaimMakesAdmin |
| CaseSecurity.AdminIsExactMembership | case-service/src/main/java/com/caseservice/security/CurrentUser.java:11-16 | `isAdmin` is `hasRole("ADMIN")`, which is plain membership of "ADMIN" |
| CaseSecurity.PrefixedAdminIsNotAdmin | case-service/src/main/java/com/caseservice/security/CurrentUser.java:11-16 | a role set holding only "ROLE_ADMIN" is not admin, while one holding "ADMIN" is |
| CaseSecurity.BearerToken | case-service/src/main/java/com/caseservice/security/JwtAuthenticationFilter.java:34-41 | a token exists exactly for a present header starting with "Bearer ", and that prefix followed by the token is the header |
| CaseSecurity.Authorities | case-service/src/main/java/com/caseservice/security/JwtAuthenticationFilter.java:48-50 | one authority per role, in order, each "ROLE_" + the role |
| CaseSecurity.RolesOf | case-service/src/main/java/com/caseservice/security/SpringSecurityCurrentUserProvider.java:31-35 | r is a role if and only if "ROLE_" + r is among the authorities |
| CaseSecurity.UnprefixedAuthoritiesAreDropped | case-service/src/main/java/com/caseservice/security/SpringSecurityCurrentUserProvider.java:33 | an authority without the prefix adds no role |
| CaseSecurity.RolesRoundTrip | case-service/src/main/java/com/caseservice/security/SpringSecurityCurrentUserProvider.java:31-35 | the roles read back from the filter's authorities are exactly the token's roles |
| CaseSecurity.GetCurrentUser | case-service/src/main/java/com/caseservice/security/SpringSecurityCurrentUserProvider.java:15-38 | no authentication or no principal gives "Unauthenticated request"; a foreign principal gives "Unsupported principal type: class ..."; a success copies id and username and has exactly the prefixed roles |
| CaseSecurity.Decide | case-service/src/main/java/com/caseservice/security/JwtAuthenticationFilter.java:36-70 | the request passes through untouched if and only if there is no bearer header; every rejection is "Token expired" or "Invalid token" |
| CaseSecurity.DoFilterInternal | case-service/src/main/java/com/caseservice/security/JwtAuthenticationFilter.java:27-73 | no bearer header continues the chain once with no authentication; an expired token writes 401 "Token expired", a malformed token or bad user id writes 401 "Invalid token", and neither continues the chain; a valid token stores the user principal with its authorities and continues the chain once |
| CaseSecurity.FilterThenProviderRoundTrip | case-service/src/main/java/com/caseservice/security/JwtAuthenticationFilter.java:48-60 | what the filter stores for a valid token, the provider reads back as the token's user id, subject and exactly its roles |
| CaseSecurity.AdminClaimMakesAdmin | case-service/src/main/java/com/caseservice/security/CurrentUser.java:14-16 | the current user behind a valid token is admin if and only if the token's roles include "ADMIN" |

## Left out

- Clock: `changeStatus` reads the clock twice, for the history row and for the event, and `createForUser` reads it twice, for creation and expiry. The model reads it once per operation, so those times are equal.
- Text: lower-casing and case-insensitive comparison are modelled for ASCII letters only; Unicode case mapping and locale rules are not modelled. Trimming drops characters up to U+0020, as `String.trim` does. The blank test (`String.isBlank`, through `Character.isWhitespace`) is modelled for ASCII whitespace only; the Unicode space separators (U+1680, U+2000-U+2006, U+2008-U+200A, U+2028, U+2029, U+205F, U+3000) are not. So for a trace header such as U+2003 alone, `MdcTrace.ActionContext` puts the header in the MDC where the source leaves the MDC alone.
- Persistence: JPA ids are parameters (a fresh id is one not yet issued). The `@PrePersist`/`@PreUpdate` hooks, transactions and rollback are not modelled.
- Read queries other than `getAllFiltered` and `getById` are not modelled: `getAll`, `getAllForUser`, `getByTraceId`, `getByCaseId`, `getByUserId`, `getEventStats`, `getUsers` and `countUsers` are repository pass-throughs.
- Pagination is not modelled; reads return the whole filtered sequence.
- Broker: the exchanges, queues, publishers and `@RabbitListener` classes are not modelled. Publication is an append to an outbox sequence. Consumption is a direct call to the audit model.
- Publish-after-commit is not modelled, and neither is any de-duplication of consumed events (the source has none).
- Concurrency is not modelled; everything is sequential.
- JWT signing and parsing, the password encoder, `UUID.randomUUID` and `UUID.fromString` are function parameters. Their own behaviour is not modelled.
- The enums Role, AuditSeverity, AuditAction and AuditTargetType, the AuditConstants class and the UserPrincipal record are not part of this model. Their constants are taken from how the services use them, with the case-service source name taken as "case-service".
- Auth.AuthService.PromoteToOfficer: the `NoSuchElementException` from `orElseThrow()` is modelled as the UserNotFound error.
- MdcTrace.WithTraceId: the action's own changes to the MDC are not modelled. "Runs exactly once" holds because the action is a single call.
- Tracing.AdviseListenerCall: the invocation's own changes to the MDC are not modelled.
- Tracing.ExtractTraceId: a header whose value is null is treated as absent.
- CaseSecurity.DoFilterInternal: the request details attached by `WebAuthenticationDetailsSource` are not modelled, and neither is a token whose username, roles or userId claim is null. A missing userId claim makes `UUID.fromString(null)` throw a NullPointerException, which the filter's catch clauses do not handle: no 401 is written, the chain does not continue and the exception propagates.
- Auth.AfterSuccessfulLogin: the counter is promised to be zero only when it was non-negative. A negative stored counter with no lock is left unchanged by the source, and the service invariant rules that case out.
- The controllers, `@PreAuthorize` rules, exception handlers and the four-argument `changeStatus` overload they call are not modelled.

## Findings

| source | as written | input that shows it | evidently intended | confidence | as-written member | corrected member |
|---|---|---|---|---|---|---|
| auth-service/src/main/java/com/authservice/service/AuthService.java:52 | the duplicate check looks up `email.toLowerCase()`, but the username is stored as `email.trim().toLowerCase()` (line 57) | "a@b.com" is registered; registering " a@b.com" passes the check, so no UserAlreadyExists (409) is raised; the insert of a second "a@b.com" is then refused by the unique username column (User.java:24) with a persistence error instead | check the same trimmed, lower-cased username that would be stored | not executed | Auth.UntrimmedDuplicatePassesCheck | Auth.AuthService.Register |
