# Password reset handler — a Dafny model

This project models the password-reset path of the DBA self-service backend:

- the HTTP handler `UpdatePassword` (`go-backend/internals/handlers/password.go`);
- the credential-store helpers it calls (`go-backend/internals/pkg/auth.go`);
- the audit-log writers (`go-backend/internals/pkg/logging.go`);
- the request record (`go-backend/models/models.go`).

The handler runs one request against three outside parties:

- the audit store (PostgreSQL), which receives `CALL log_updates` and
  `CALL update_pass_reset_logs`;
- the credential store (SQL Server), which validates credentials, checks
  login expiration, discovers related servers and resets the primary;
- the related servers ("replicas"), which it connects to one by one.

The model records everything the handler does to those parties as one
ordered trace of `Events.Event`s. The trace also holds the HTTP responses
it writes, the confirmation e-mails it attempts, and the `log.Fatalf` that
ends the process.

Everything the outside world answers is an input:

- `Handlers.Oracle` holds the scans, driver errors, discovery rows and
  per-replica outcomes;
- `Logging.Effects.auditFault(n)` is the audit store's answer to its n-th
  CALL.

The modules are:

- `Auth` models the gateway helpers as pure decisions over what the driver
  returns. The `FindRelatedServers` row loop is a method proved equal to
  the function `RelatedServers`.
- `Logging` holds the `Effects` class, the handle every writer and the
  handler act through. Its writers append exactly one audit CALL each, and
  a failed CALL goes to the operational log.
- `Handlers` gives the reference trace `Run(decoded, oracle, answers)` as
  functions, stage by stage. The imperative `UpdatePassword` is proved to
  append exactly that trace to its `Effects`.
- `HandlerProperties` proves what that trace guarantees:
  - no credential is reset before every check passes;
  - the primary reset comes first and happens once;
  - replicas are attempted in discovery order, and the loop stops at the
    first failure;
  - which rejections answer 401;
  - an expiration error is fatal;
  - a success response, success log and e-mail are produced per replica.

### Behaviour the model follows

The model reproduces the code as written:

- **Replica credentials.** Each replica connection uses the user's own
  login and old password (password.go:110-115), although the comment at
  password.go:96 speaks of connecting "using admin credentials".
- **Expiration errors are fatal.** An error from the expiration check ends
  the process with `log.Fatalf` (password.go:58). The 500 response and the
  audit entry after it are never reached.
  - `CheckLoginExpiration` (auth.go:71-97) never returns `(false, nil)`.
    So the "Login is invalid or expired" 401 (password.go:79-84) cannot be
    reached.
  - `CheckOldPassword` (auth.go:24-46) never returns `(false, nil)`. So
    the "Old password is invalid" 401 (password.go:73-78) cannot be
    reached.
  - The only 401 is therefore "Invalid user credentials".
- **Success is reported per replica.** The success log, the 200 response
  and the e-mail sit inside the replica loop (password.go:140-155). With n
  replicas that all succeed there are n of each. With no replicas the
  handler writes no response, issues no success log and sends no e-mail.
- **Pending status.** The first audit entry has status "Pending" and the
  message "Password update request received" (password.go:31).
- **Audit entries name the primary.** Every audit CALL of the replica loop
  (password.go:120, 127, 135, 141, 144) carries the request's serverIP,
  never the replica being updated. So the audit trail does not say which
  replica failed; the model's entries carry the request's serverIP too.
- **Shifted decode-failure arguments.** The decode-failure entry passes
  its arguments shifted by one (password.go:25):
  - username is "Password Update";
  - serverIP is the partly decoded username;
  - requestType is the partly decoded serverIP;
  - requestStatus is "Failed to decode request";
  - message is the decoder's error.

## Model

| member | source | states |
|---|---|---|
| Auth.CheckUserCredentials | go-backend/internals/pkg/auth.go:10-23 | a scan failure is returned as the error with `false`; otherwise the scanned @IsValid bit is the verdict with no error |
| Auth.CheckLoginExpiration | go-backend/internals/pkg/auth.go:71-97 | valid exactly when the row says not expired and valid. There is never a `(false, nil)`. A missing row is "login does not exist"; another driver error passes through. A NULL bit is "failed to retrieve login expiration status"; an expired or invalid login is "login expired or invalid" |
| Auth.CheckOldPassword | go-backend/internals/pkg/auth.go:24-46 | valid exactly when the open and the ping both succeed; the error is the open error, otherwise the ping error. It makes exactly one open of a connection to the server as the user with the old password, then one ping only if the open succeeded |
| Auth.ScanAll | go-backend/internals/pkg/auth.go:57-63 | succeeds exactly when every row scans. The result is then every row's value in row order; otherwise it is the error of the first row that fails |
| Auth.RelatedServers | go-backend/internals/pkg/auth.go:48-70 | no error exactly when the query, every scan and the iteration succeed. Then the servers are the rows in order. On an error the list is empty and the error is the query error, the first scan error or the iteration error, in that priority |
| Auth.FindRelatedServers | go-backend/internals/pkg/auth.go:48-70 | the row loop returns exactly what `RelatedServers` specifies |
| Logging.Effects.Exec | go-backend/internals/handlers/password.go:141 | one CALL is appended to the trace and counted; the store's answer to that CALL is returned |
| Logging.Write | go-backend/internals/pkg/logging.go:8-19 | one CALL is appended; a failed CALL adds its error to the operational log and is not returned |
| Logging.LogPasswordUpdate | go-backend/internals/pkg/logging.go:8-13 | appends exactly one `log_updates` CALL with its five arguments in order; the outcome goes only to the operational log |
| Logging.LogStatus | go-backend/internals/pkg/logging.go:14-19 | appends exactly one `update_pass_reset_logs` CALL with its five arguments in order; the outcome goes only to the operational log |
| Handlers.UpdatePassword | go-backend/internals/handlers/password.go:16-156 | the handler appends exactly the reference trace `Run` to the effects. The audit answers it sees are those to its own CALLs, numbered from its first |
| Handlers.RejectUndecodable | go-backend/internals/handlers/password.go:23-27 | a body that does not decode gets a 400 and then one `log_updates` CALL with the shifted arguments. The operational log gains exactly that CALL's failure, if any |
| Handlers.Fail | go-backend/internals/handlers/password.go:37-46 | a rejection writes the error response and then exactly one audit CALL, through the named writer, with the request's username and server. The operational log gains exactly that CALL's failure, if any |
| Handlers.VerifyAndReset | go-backend/internals/handlers/password.go:56-84 | the expiration check, the old-password check and everything after them append exactly the reference trace of what follows the expiration check. An expiration error appends only the `log.Fatalf` |
| Handlers.DiscoverAndReset | go-backend/internals/handlers/password.go:86-156 | discovery, the primary reset and the replica loop append exactly the discovery call followed by the reference trace of what follows discovery |
| Handlers.UpdateReplicas | go-backend/internals/handlers/password.go:109-156 | the loop over the discovered servers appends exactly the reference trace of the replica stage. It has issued one audit CALL per completed replica |
| Handlers.ReplicaIteration | go-backend/internals/handlers/password.go:110-155 | one replica appends exactly its reference step: open, ping, exec, success log, response and e-mail, stopping at the first failure. It continues exactly when the step succeeded |
| Handlers.StoppedStaysStopped | go-backend/internals/handlers/password.go:118-146 | once a replica fails, no later replica adds any event (every failure branch returns) |
| HandlerProperties.SuccessfulStep | go-backend/internals/handlers/password.go:110-153 | a replica whose open, ping, exec and success log all succeed opens one connection with the old password and resets once. It writes one 200 "Password updated successfully", attempts one e-mail and issues one success CALL |
| HandlerProperties.ConnectFails | go-backend/internals/handlers/password.go:117-122 | a failed open stops the loop without resetting the replica. It writes one 500 "Failed to connect to the related server" and exactly one `log_updates` CALL with that status and the driver's error, and sends no e-mail |
| HandlerProperties.PingFails | go-backend/internals/handlers/password.go:125-129 | a failed ping stops the loop without resetting the replica. It writes one 500 "Failed to ping the related server" and exactly one `log_updates` CALL with that status and the driver's error, and sends no e-mail |
| HandlerProperties.ResetFails | go-backend/internals/handlers/password.go:132-137 | a failed exec stops the loop after the one reset attempt. It writes one 500 "Failed to update password on the related server" and exactly one `log_updates` CALL with that status and the driver's error |
| HandlerProperties.SuccessLogFails | go-backend/internals/handlers/password.go:141-146 | a failed success CALL stops the loop after the replica was reset. It writes one 500 "Failed to update pass_reset_logs table", no 200 and no e-mail. Its audit CALLs are the success CALL, then one `update_pass_reset_logs` with "Failed to update access_requests table" and the store's error |
| HandlerProperties.FailedStep | go-backend/internals/handlers/password.go:117-146 | every way a replica can fail stops the loop, with exactly one 500 and no e-mail. The 500's text and the audit CALLs are those of the first step that failed. The replica is reset only when both open and ping succeeded |
| HandlerProperties.AllSucceed | go-backend/internals/handlers/password.go:109-138 | when the first n replicas succeed, the loop continues. Its connections and resets are exactly one per replica, in discovery order, with the old-password credentials |
| HandlerProperties.AllAnswered | go-backend/internals/handlers/password.go:140-153 | when the first n replicas succeed, there are exactly n 200 responses, n e-mails and n success CALLs |
| HandlerProperties.StopsAtFirstFailure | go-backend/internals/handlers/password.go:109-146 | the loop's trace is the successful replicas' events followed by the failing replica's step; later replicas add nothing |
| HandlerProperties.FirstFailure | go-backend/internals/handlers/password.go:109-137 | with replica k failing first, exactly replicas 0..k are contacted, in order. Only those before k, and k itself if its connection succeeded, are reset |
| HandlerProperties.FirstFailureAnswers | go-backend/internals/handlers/password.go:117-153 | with replica k failing first, there are k 200 responses followed by one 500, and exactly k e-mails |
| HandlerProperties.LoopPrefix | go-backend/internals/handlers/password.go:109-156 | the trace after fewer replicas is a prefix of the trace after more |
| HandlerProperties.LoopEvents | go-backend/internals/handlers/password.go:109-156 | the loop emits only replica connections, pings, replica resets, audit CALLs, responses and e-mails. It never resets the primary or queries the credential store |
| HandlerProperties.PreludeSelections | go-backend/internals/handlers/password.go:31-104 | before the loop, a passing request opens one connection (the primary, as the user) and issues only the Pending CALL. It makes no response, no e-mail and no replica reset |
| HandlerProperties.RunReachesReplicas | go-backend/internals/handlers/password.go:31-109 | when every check passes and the primary reset succeeds, the trace is the seven-step prelude followed by the replica loop over the discovered servers |
| HandlerProperties.AllReplicasUpdated | go-backend/internals/handlers/password.go:98-138 | when everything succeeds, the connections are the primary followed by every replica in discovery order, and every replica is reset once |
| HandlerProperties.AllReplicasAnswered | go-backend/internals/handlers/password.go:140-153 | when everything succeeds with n replicas, there are exactly n 200 responses and n e-mails; the audit CALLs are Pending then n success CALLs |
| HandlerProperties.NoReplicaNoResponse | go-backend/internals/handlers/password.go:98-109 | when the checks pass, the primary accepts the reset and there are no related servers, the request ends with the primary reset. It writes no HTTP response and sends no e-mail |
| HandlerProperties.ReplicaFailureStops | go-backend/internals/handlers/password.go:98-146 | a failure at replica k comes after the seven-step prelude that ends with the primary reset, and contacts exactly replicas 0..k. Replicas after k are never reset |
| HandlerProperties.SuccessLogNumbering | go-backend/internals/handlers/password.go:31-141 | replica j's success CALL is the audit store's call number 1 + j of the request |
| HandlerProperties.NoResetWithoutChecks | go-backend/internals/handlers/password.go:23-94 | a request that fails to decode, or fails any check before the primary reset, never resets any credential |
| HandlerProperties.NoResetAfterFailedCheck | go-backend/internals/handlers/password.go:56-94 | when the expiration, old-password or discovery check fails, nothing after the expiration check resets a credential |
| HandlerProperties.ResetsRequireChecks | go-backend/internals/handlers/password.go:23-104 | a reset happens if and only if the request decodes and every check passes; the trace then starts with the seven-step prelude |
| HandlerProperties.PrimaryResetOnce | go-backend/internals/handlers/password.go:98-109 | when the checks pass, event 6 is the primary reset (it always happens), it is the only one, and no reset precedes it |
| HandlerProperties.PrimaryFirst | go-backend/internals/handlers/password.go:96-132 | in every trace the primary reset precedes every replica reset |
| HandlerProperties.OnlyCredentialsGet401 | go-backend/internals/handlers/password.go:42-84 | the only 401 ever written is "Invalid user credentials", and only when the credential check said invalid |
| HandlerProperties.No401AfterExpiration | go-backend/internals/handlers/password.go:64-84 | nothing after the expiration check answers 401: both 401 branches there need a `(false, nil)` that neither helper returns |
| HandlerProperties.No401AfterDiscovery | go-backend/internals/handlers/password.go:86-156 | every response written by discovery, the primary reset and the replica loop has status 200 or 500, never 401 |
| HandlerProperties.ExpirationErrorIsFatal | go-backend/internals/handlers/password.go:56-62 | an expiration-check error ends the request with `log.Fatalf` as its fourth event. No response is written and the only audit CALL is Pending. An expired login is fatal with "login expired or invalid" |
| HandlerProperties.EarlyRejections | go-backend/internals/handlers/password.go:31-54 | a credential error, invalid credentials or an unchanged password touch only the credential check, and the request has exactly four effects. After Pending and the check come the response (500, 401 or 400) and one `update_pass_reset_logs` CALL. Its status and message are, respectively, "Failed to validate user credentials" with the error, "Failed" with "Invalid user credentials", and "Failed" with "New password is the same as old password" |
| HandlerProperties.OldPasswordFails | go-backend/internals/handlers/password.go:64-72 | when the old password cannot open or ping the primary, the open (and the ping, if the open worked) is followed by a 500 "Failed to check old password" and one `update_pass_reset_logs` CALL with the driver's error, and nothing else |
| HandlerProperties.DiscoveryFails | go-backend/internals/handlers/password.go:86-94 | a failed discovery is followed by a 500 "Failed to find related servers" and one `log_updates` CALL with the error, and nothing else; nothing is reset |
| HandlerProperties.PrimaryResetFails | go-backend/internals/handlers/password.go:98-104 | a refused primary reset is followed by a 500 carrying the driver's error and one `update_pass_reset_logs` CALL, and nothing else; no replica is contacted |
| HandlerProperties.UndecodableShiftsAudit | go-backend/internals/handlers/password.go:23-27 | an undecodable body contacts no server and gets one 400. Its only audit CALL has the arguments shifted by one |
| HandlerProperties.PendingFirst | go-backend/internals/handlers/password.go:31 | every decoded request's first effect, and first audit CALL, is the Pending entry |

## Left out

- HTTP transport and JSON:
  - a response is the status and body the handler writes, not the headers or the encoding;
  - the model records what the handler writes, not what the client receives. net/http sends only the first status written (a later `WriteHeader` is ignored), so a 500 after k ≥ 1 successful replicas reaches the client with status 200 and every body written: the k success bodies, then the error body. A handler that writes nothing sends an empty 200;
  - decoding is an input: either the request or the decoder's error with whatever fields were filled.
- SQL text and drivers:
  - the statements are foreign code and their outcomes are inputs;
  - the malformed `@oldpassword` parameter in the replica statement (password.go:132) is therefore only an exec outcome in `Handlers.Oracle`;
  - connection strings are kept as their fields (`Events.Dsn`), so quoting of a ';' inside a password is not modelled.
- `os.Getenv("MS_DB_PORT")` is the field `port` of `Handlers.Oracle`.
- `database.GetDB` and `database.GetMSDB` (the process-wide handles) are the one `Logging.Effects` object and the credential-store events. The connection pools are not part of this model.
- `defer msWithUserCred.Close()`: connection lifetimes are not modelled.
- The `log.Printf`, `log.Println` and `fmt.Println` progress messages are not modelled. Only the writers' failure reports (`reported`) are kept.
- `SendConfirmationEmail` (SMTP) is modelled as the attempt only. Its failure is only printed and never changes the response.
- `log.Fatalf` is the `Fatal` event that ends the trace. The effect of the process exit on other requests is not modelled.
- Concurrent requests are not modelled. The audit store's answers are numbered per request, from the handler's first CALL.
- Handlers.UpdatePassword: states only that the operational-log entries (`reported`) grow, not exactly which entries they gain, because the reference trace describes the outside effects.
- Handlers.VerifyAndReset, Handlers.DiscoverAndReset, Handlers.UpdateReplicas, Handlers.ReplicaIteration: the same weaker statement about `reported`.
- Handlers.UpdatePassword, Handlers.VerifyAndReset, Handlers.DiscoverAndReset, Handlers.UpdateReplicas: the final value of the `audits` counter is not stated (nor after a failed `Handlers.ReplicaIteration`). The counter only repeats the number of `Audit` events in the trace, which the contract does give. A second request on the same `Effects` therefore has no stated starting point for its audit answers.
- The Go handler is one function. The model splits it into `UpdatePassword`, `VerifyAndReset`, `DiscoverAndReset`, `UpdateReplicas` and `ReplicaIteration` to keep each proof small. The effects and their order are the same.
- `Handlers.VerifyAndReset` reaches the two dead 401 branches (password.go:73-84) only through `assert false`. They cannot be taken because neither gateway helper returns `(false, nil)`.
