/**
 * The password-reset handler UpdatePassword
 * (go-backend/internals/handlers/password.go).
 *
 * `Run` is the reference definition of the trace one request produces,
 * given the outside world's answers; the method `UpdatePassword` is the
 * handler itself, step by step against a `Logging.Effects` handle, and is
 * proved to append exactly that trace.
 */
module Handlers {
  import opened Wrappers
  import opened Errors
  import opened Models
  import opened Events
  import opened Auth
  import opened Logging

  /** The requestType argument of every audit CALL the handler makes. */
  const RequestType := "Password Update"

  // The texts the handler writes to responses and audit CALLs.
  const DecodeFailedText := "Failed to decode request"
  const PendingStatus := "Pending"
  const ReceivedMessage := "Password update request received"
  const FailedStatus := "Failed"
  const SuccessStatus := "Success"
  const UpdatedMessage := "Password updated successfully"
  const CredentialsErrorText := "Failed to validate user credentials"
  const InvalidCredentialsText := "Invalid user credentials"
  const SamePasswordText := "New password cannot be the same as the old password"
  const SamePasswordMessage := "New password is the same as old password"
  const OldPasswordErrorText := "Failed to check old password"
  const OldPasswordInvalidText := "Old password is invalid"
  const LoginInvalidText := "Login is invalid or expired"
  const DiscoveryErrorText := "Failed to find related servers"
  const PrimaryErrorText := "Failed to update password on the server"
  const ConnectErrorText := "Failed to connect to the related server"
  const PingErrorText := "Failed to ping the related server"
  const ReplicaErrorText := "Failed to update password on the related server"
  const SuccessLogErrorText := "Failed to update pass_reset_logs table"
  const SuccessLogErrorStatus := "Failed to update access_requests table"

  /** The body decoder's verdict; a failed decode leaves whatever fields it had filled. */
  datatype Decode =
    | Decoded(request: UpdatePasswordRequest)
    | DecodeFailed(partial: UpdatePasswordRequest, error: Error)

  /** The driver's answers for one replica: sql.Open, Ping and the reset Exec. */
  datatype ReplicaOutcome = ReplicaOutcome(open: Option<Error>, ping: Option<Error>, exec: Option<Error>)

  /** Everything the handler learns from outside the process, besides the audit store. */
  datatype Oracle = Oracle(
    port: string,                              // MS_DB_PORT
    credentials: Result<bool, Error>,          // scan of dbo.ValidateUserCredentials
    expiration: Result<ExpirationRow, Error>,  // scan of dbo.CheckLoginExpiration
    oldPasswordOpen: Option<Error>,            // CheckOldPassword's sql.Open
    oldPasswordPing: Option<Error>,            // CheckOldPassword's Ping
    related: ServerRows,                       // EXEC FindRelatedServers
    primaryReset: Option<Error>,               // EXEC dbo.ResetUserPassword on the primary
    replica: nat -> ReplicaOutcome             // the answers for the j-th replica, in discovery order
  )

  /** The audit store's answer to the k-th CALL made while serving the request. */
  type Answers = nat -> Option<Error>

  /** The answers of a store whose first `n` CALLs were made before the request. */
  function Shifted(fault: nat -> Option<Error>, n: nat): Answers
  {
    (k: nat) => fault(n + k)
  }

  function Pending(req: UpdatePasswordRequest): AuditCall
  {
    AuditCall(LogUpdates, req.username, req.serverIP, RequestType, PendingStatus, ReceivedMessage)
  }

  function SuccessLog(req: UpdatePasswordRequest): AuditCall
  {
    AuditCall(UpdatePassResetLogs, req.username, req.serverIP, RequestType, SuccessStatus, UpdatedMessage)
  }

  function ReplicaDsn(req: UpdatePasswordRequest, o: Oracle, server: string): Dsn
  {
    Dsn(server, req.username, req.oldPassword, o.port, req.database)
  }

  /** An error response followed by its audit CALL, the shape of every failure branch. */
  function Reject(req: UpdatePasswordRequest, status: int, text: string, procedure: Procedure,
                  requestStatus: string, message: string): seq<Event>
  {
    [Respond(status, ErrorBody(text)),
     Audit(AuditCall(procedure, req.username, req.serverIP, RequestType, requestStatus, message))]
  }

  /**
   * The trace of a request whose body does not decode. The audit arguments
   * are shifted one place to the right: the username slot gets the request
   * type, the serverIP slot the partly decoded username, the request-type
   * slot the partly decoded serverIP.
   */
  function Undecodable(partial: UpdatePasswordRequest, e: Error): seq<Event>
  {
    [Respond(400, ErrorBody(DecodeFailedText)),
     Audit(AuditCall(LogUpdates, RequestType, partial.username, partial.serverIP, DecodeFailedText, Text(e)))]
  }

  /** The whole trace of one request. */
  function Run(d: Decode, o: Oracle, answers: Answers): seq<Event>
  {
    match d
    case DecodeFailed(partial, e) => Undecodable(partial, e)
    case Decoded(req) =>
      [Audit(Pending(req)), ValidateCredentials(req.username, req.serverIP, req.email)]
      + AfterCredentials(req, o, answers)
  }

  /** From the credential check's verdict on. */
  function AfterCredentials(req: UpdatePasswordRequest, o: Oracle, answers: Answers): seq<Event>
  {
    var valid := CheckUserCredentials(o.credentials);
    if valid.err.Some? then
      Reject(req, 500, CredentialsErrorText, UpdatePassResetLogs,
             CredentialsErrorText, Text(valid.err.value))
    else if !valid.ok then
      Reject(req, 401, InvalidCredentialsText, UpdatePassResetLogs, FailedStatus, InvalidCredentialsText)
    else if req.oldPassword == req.newPassword then
      Reject(req, 400, SamePasswordText, UpdatePassResetLogs,
             FailedStatus, SamePasswordMessage)
    else
      [CheckExpiration(req.username, req.serverIP)] + AfterExpiration(req, o, answers)
  }

  function OldPassword(req: UpdatePasswordRequest, o: Oracle): OldPasswordCheck
  {
    CheckOldPassword(req.username, req.serverIP, req.oldPassword, req.database,
                     o.port, o.oldPasswordOpen, o.oldPasswordPing)
  }

  /** From the expiration check's verdict on; an error there ends the process. */
  function AfterExpiration(req: UpdatePasswordRequest, o: Oracle, answers: Answers): seq<Event>
  {
    var expiration := CheckLoginExpiration(o.expiration);
    if expiration.err.Some? then
      [Fatal(expiration.err.value)]
    else if expiration.ok then
      var previous := OldPassword(req, o);
      previous.calls +
      if previous.result.err.Some? then
        Reject(req, 500, OldPasswordErrorText, UpdatePassResetLogs,
               OldPasswordErrorText, Text(previous.result.err.value))
      else if !previous.result.ok then
        Reject(req, 401, OldPasswordInvalidText, UpdatePassResetLogs, FailedStatus, OldPasswordInvalidText)
      else
        [FindServers(req.serverIP)] + AfterDiscovery(req, o, answers)
    else
      Reject(req, 401, LoginInvalidText, UpdatePassResetLogs, FailedStatus, LoginInvalidText)
  }

  /** From replica discovery on: the primary reset, then the replica loop. */
  function AfterDiscovery(req: UpdatePasswordRequest, o: Oracle, answers: Answers): seq<Event>
  {
    var (servers, err) := RelatedServers(o.related);
    if err.Some? then
      Reject(req, 500, DiscoveryErrorText, LogUpdates, DiscoveryErrorText, Text(err.value))
    else
      [ResetPrimary(req.username, req.newPassword, req.oldPassword)] +
      if o.primaryReset.Some? then
        Reject(req, 500, PrimaryErrorText + ": " + Text(o.primaryReset.value),
               UpdatePassResetLogs, PrimaryErrorText, Text(o.primaryReset.value))
      else
        Replicas(req, o, answers, servers, |servers|).events
  }

  /** A stretch of trace, and whether the loop goes on after it. */
  datatype Stage = Stage(events: seq<Event>, proceed: bool)

  /**
   * One iteration of the replica loop, for the j-th replica. Its success
   * log is the request's (1 + j)-th audit CALL: only the PendingStatus entry
   * and one success log per earlier replica come before it.
   */
  function ReplicaStep(req: UpdatePasswordRequest, o: Oracle, answers: Answers, j: nat, server: string): Stage
  {
    var dsn := ReplicaDsn(req, o, server);
    var outcome := o.replica(j);
    if outcome.open.Some? then
      Stage([Open(dsn)] + Reject(req, 500, ConnectErrorText, LogUpdates,
                                 ConnectErrorText, Text(outcome.open.value)), false)
    else if outcome.ping.Some? then
      Stage([Open(dsn), Ping(dsn)] + Reject(req, 500, PingErrorText, LogUpdates,
                                            PingErrorText, Text(outcome.ping.value)), false)
    else
      var reset := [Open(dsn), Ping(dsn), ResetReplica(dsn, req.username, req.newPassword, req.oldPassword)];
      if outcome.exec.Some? then
        Stage(reset + Reject(req, 500, ReplicaErrorText, LogUpdates,
                             ReplicaErrorText, Text(outcome.exec.value)), false)
      else if answers(1 + j).Some? then
        Stage(reset + [Audit(SuccessLog(req))] +
              Reject(req, 500, SuccessLogErrorText, UpdatePassResetLogs,
                     SuccessLogErrorStatus, Text(answers(1 + j).value)), false)
      else
        Stage(reset + [Audit(SuccessLog(req)), Respond(200, SuccessBody(UpdatedMessage)),
                       Email(req.email, req.username)], true)
  }

  /** The replica loop over servers[..n]; it stops at the first failing replica. */
  function Replicas(req: UpdatePasswordRequest, o: Oracle, answers: Answers, servers: seq<string>, n: nat): Stage
    requires n <= |servers|
  {
    if n == 0 then Stage([], true)
    else
      var done := Replicas(req, o, answers, servers, n - 1);
      if !done.proceed then done
      else
        var step := ReplicaStep(req, o, answers, n - 1, servers[n - 1]);
        Stage(done.events + step.events, step.proceed)
  }

  /** While the loop goes on, one more server appends exactly its step. */
  lemma ReplicasStep(req: UpdatePasswordRequest, o: Oracle, answers: Answers, servers: seq<string>, n: nat)
    requires n < |servers|
    requires Replicas(req, o, answers, servers, n).proceed
    ensures var step := ReplicaStep(req, o, answers, n, servers[n]);
      Replicas(req, o, answers, servers, n + 1) ==
      Stage(Replicas(req, o, answers, servers, n).events + step.events, step.proceed)
  {
  }

  /** Once a replica has failed, later servers add nothing to the loop's trace. */
  lemma {:induction false} StoppedStaysStopped(req: UpdatePasswordRequest, o: Oracle, answers: Answers,
                                               servers: seq<string>, n: nat, m: nat)
    requires n <= m <= |servers|
    requires !Replicas(req, o, answers, servers, n).proceed
    ensures Replicas(req, o, answers, servers, m) == Replicas(req, o, answers, servers, n)
    decreases m
  {
    if m > n {
      StoppedStaysStopped(req, o, answers, servers, n, m - 1);
    }
  }

  /** SendErrorResponse followed by one audit write, as every failure branch does. */
  method Fail(w: Effects, req: UpdatePasswordRequest, status: int, text: string,
              procedure: Procedure, requestStatus: string, message: string)
    modifies w
    ensures w.trace == old(w.trace) + Reject(req, status, text, procedure, requestStatus, message)
    ensures w.audits == old(w.audits) + 1
    ensures w.reported == old(w.reported) + Report(w.auditFault(old(w.audits)))
  {
    w.Record(Respond(status, ErrorBody(text)));
    if procedure == LogUpdates {
      LogPasswordUpdate(w, req.username, req.serverIP, RequestType, requestStatus, message);
    } else {
      LogStatus(w, req.username, req.serverIP, RequestType, requestStatus, message);
    }
  }

  /**
   * UpdatePassword: decode the body, log "Pending", validate the
   * credentials, compare the passwords, check the login's expiration and the
   * old password, discover the replicas, reset the primary, then run the
   * replica loop; every failure responds, writes one audit entry and returns.
   */
  method UpdatePassword(w: Effects, decoded: Decode, o: Oracle)
    modifies w
    ensures w.trace == old(w.trace) + Run(decoded, o, Shifted(w.auditFault, old(w.audits)))
    ensures old(w.reported) <= w.reported
  {
    ghost var n0 := w.audits;

    if decoded.DecodeFailed? {
      RejectUndecodable(w, decoded.partial, decoded.error);
      return;
    }
    var req := decoded.request;

    ghost var opening := [Audit(Pending(req)), ValidateCredentials(req.username, req.serverIP, req.email)];
    LogPasswordUpdate(w, req.username, req.serverIP, RequestType, PendingStatus, ReceivedMessage);
    w.Record(ValidateCredentials(req.username, req.serverIP, req.email));
    assert w.trace == old(w.trace) + opening;
    var isValidUser := CheckUserCredentials(o.credentials);
    if isValidUser.err.Some? {
      Fail(w, req, 500, CredentialsErrorText, UpdatePassResetLogs, CredentialsErrorText, Text(isValidUser.err.value));
      AppendAssoc(old(w.trace), opening, Reject(req, 500, CredentialsErrorText, UpdatePassResetLogs, CredentialsErrorText, Text(isValidUser.err.value)));
      return;
    }
    if !isValidUser.ok {
      Fail(w, req, 401, InvalidCredentialsText, UpdatePassResetLogs, FailedStatus, InvalidCredentialsText);
      AppendAssoc(old(w.trace), opening, Reject(req, 401, InvalidCredentialsText, UpdatePassResetLogs, FailedStatus, InvalidCredentialsText));
      return;
    }

    if req.oldPassword == req.newPassword {
      Fail(w, req, 400, SamePasswordText, UpdatePassResetLogs, FailedStatus, SamePasswordMessage);
      AppendAssoc(old(w.trace), opening, Reject(req, 400, SamePasswordText, UpdatePassResetLogs, FailedStatus, SamePasswordMessage));
      return;
    }

    w.Record(CheckExpiration(req.username, req.serverIP));
    VerifyAndReset(w, req, o, n0);
    AppendAssoc(old(w.trace) + opening, [CheckExpiration(req.username, req.serverIP)], AfterExpiration(req, o, Shifted(w.auditFault, n0)));
    AppendAssoc(old(w.trace), opening, AfterCredentials(req, o, Shifted(w.auditFault, n0)));
  }

  /**
   * The decode-failure branch of UpdatePassword: 400, then a log_updates
   * CALL whose arguments are shifted one place to the right.
   */
  method RejectUndecodable(w: Effects, partial: UpdatePasswordRequest, e: Error)
    modifies w
    ensures w.trace == old(w.trace) + Undecodable(partial, e)
    ensures w.audits == old(w.audits) + 1
    ensures w.reported == old(w.reported) + Report(w.auditFault(old(w.audits)))
  {
    w.Record(Respond(400, ErrorBody(DecodeFailedText)));
    LogPasswordUpdate(w, RequestType, partial.username, partial.serverIP, DecodeFailedText, Text(e));
  }

  /**
   * The rest of UpdatePassword, from the expiration verdict on: the old
   * password check, replica discovery, the primary reset and the replica loop.
   */
  method VerifyAndReset(w: Effects, req: UpdatePasswordRequest, o: Oracle, ghost n0: nat)
    requires w.audits == n0 + 1
    modifies w
    ensures w.trace == old(w.trace) + AfterExpiration(req, o, Shifted(w.auditFault, n0))
    ensures old(w.reported) <= w.reported
  {
    var isValid := CheckLoginExpiration(o.expiration);
    if isValid.err.Some? {
      // log.Fatalf: the response and status log written after it are never reached
      w.Record(Fatal(isValid.err.value));
      return;
    }

    if isValid.ok {
      var oldCheck := CheckOldPassword(req.username, req.serverIP, req.oldPassword, req.database,
                                       o.port, o.oldPasswordOpen, o.oldPasswordPing);
      w.Record(oldCheck.calls[0]);
      if |oldCheck.calls| > 1 {
        w.Record(oldCheck.calls[1]);
      }
      assert w.trace == old(w.trace) + oldCheck.calls;
      if oldCheck.result.err.Some? {
        Fail(w, req, 500, OldPasswordErrorText, UpdatePassResetLogs, OldPasswordErrorText, Text(oldCheck.result.err.value));
        AppendAssoc(old(w.trace), oldCheck.calls,
                    Reject(req, 500, OldPasswordErrorText, UpdatePassResetLogs, OldPasswordErrorText, Text(oldCheck.result.err.value)));
        return;
      }
      if !oldCheck.result.ok {
        // the 401 "Old password is invalid" branch: CheckOldPassword never returns (false, nil)
        assert false;
      }
    } else {
      // the 401 "Login is invalid or expired" branch: CheckLoginExpiration never returns (false, nil)
      assert false;
    }

    ghost var previous := OldPassword(req, o);
    assert w.trace == old(w.trace) + previous.calls;
    DiscoverAndReset(w, req, o, n0);
    AppendAssoc(old(w.trace), previous.calls, [FindServers(req.serverIP)] + AfterDiscovery(req, o, Shifted(w.auditFault, n0)));
  }

  /**
   * From replica discovery on: find the related servers, reset the primary,
   * then update the replicas; a failure responds, writes one audit entry
   * and returns.
   */
  method DiscoverAndReset(w: Effects, req: UpdatePasswordRequest, o: Oracle, ghost n0: nat)
    requires w.audits == n0 + 1
    modifies w
    ensures w.trace == old(w.trace) + ([FindServers(req.serverIP)] + AfterDiscovery(req, o, Shifted(w.auditFault, n0)))
    ensures old(w.reported) <= w.reported
  {
    w.Record(FindServers(req.serverIP));
    var serverReplicas, err := FindRelatedServers(o.related);
    if err.Some? {
      Fail(w, req, 500, DiscoveryErrorText, LogUpdates, DiscoveryErrorText, Text(err.value));
      AppendAssoc(old(w.trace), [FindServers(req.serverIP)],
                  Reject(req, 500, DiscoveryErrorText, LogUpdates, DiscoveryErrorText, Text(err.value)));
      return;
    }

    w.Record(ResetPrimary(req.username, req.newPassword, req.oldPassword));
    ghost var began := [FindServers(req.serverIP), ResetPrimary(req.username, req.newPassword, req.oldPassword)];
    assert w.trace == old(w.trace) + began;
    if o.primaryReset.Some? {
      var sqlErr := Text(o.primaryReset.value);
      Fail(w, req, 500, PrimaryErrorText + ": " + sqlErr, UpdatePassResetLogs, PrimaryErrorText, sqlErr);
      AppendAssoc(old(w.trace), began, Reject(req, 500, PrimaryErrorText + ": " + sqlErr, UpdatePassResetLogs, PrimaryErrorText, sqlErr));
      return;
    }

    UpdateReplicas(w, req, o, serverReplicas, n0);
    ghost var replicas := Replicas(req, o, Shifted(w.auditFault, n0), serverReplicas, |serverReplicas|).events;
    AppendAssoc(old(w.trace), began, replicas);
  }

  /**
   * The replica loop of UpdatePassword: for each server in discovery order,
   * connect with the user's old credentials, ping, run the reset, log the
   * success, respond 200 and send the e-mail; return at the first failure.
   */
  method UpdateReplicas(w: Effects, req: UpdatePasswordRequest, o: Oracle, serverReplicas: seq<string>, ghost n0: nat)
    requires w.audits == n0 + 1
    modifies w
    ensures w.trace == old(w.trace) + Replicas(req, o, Shifted(w.auditFault, n0), serverReplicas, |serverReplicas|).events
    ensures old(w.reported) <= w.reported
  {
    ghost var answers := Shifted(w.auditFault, n0);
    var i := 0;
    while i < |serverReplicas|
      invariant i <= |serverReplicas|
      invariant Replicas(req, o, answers, serverReplicas, i).proceed
      invariant w.trace == old(w.trace) + Replicas(req, o, answers, serverReplicas, i).events
      invariant w.audits == n0 + 1 + i
      invariant old(w.reported) <= w.reported
    {
      ghost var done := Replicas(req, o, answers, serverReplicas, i).events;
      var proceed := ReplicaIteration(w, req, o, i, serverReplicas[i], n0);
      ghost var step := ReplicaStep(req, o, answers, i, serverReplicas[i]).events;
      ReplicasStep(req, o, answers, serverReplicas, i);
      AppendAssoc(old(w.trace), done, step);
      if !proceed {
        StoppedStaysStopped(req, o, answers, serverReplicas, i + 1, |serverReplicas|);
        return;
      }
      i := i + 1;
    }
  }

  /**
   * One pass of the replica loop for the j-th server: connect with the
   * user's old credentials, ping, run the reset, log the success, respond
   * 200 and send the e-mail; `proceed` is false after the first failure.
   */
  method ReplicaIteration(w: Effects, req: UpdatePasswordRequest, o: Oracle, j: nat, server: string, ghost n0: nat)
      returns (proceed: bool)
    requires w.audits == n0 + 1 + j
    modifies w
    ensures w.trace == old(w.trace) + ReplicaStep(req, o, Shifted(w.auditFault, n0), j, server).events
    ensures proceed == ReplicaStep(req, o, Shifted(w.auditFault, n0), j, server).proceed
    ensures proceed ==> w.audits == old(w.audits) + 1
    ensures old(w.reported) <= w.reported
  {
    var dsn := Dsn(server, req.username, req.oldPassword, o.port, req.database);
    var outcome := o.replica(j);
    w.Record(Open(dsn));
    if outcome.open.Some? {
      Fail(w, req, 500, ConnectErrorText, LogUpdates, ConnectErrorText, Text(outcome.open.value));
      return false;
    }
    w.Record(Ping(dsn));
    if outcome.ping.Some? {
      Fail(w, req, 500, PingErrorText, LogUpdates, PingErrorText, Text(outcome.ping.value));
      return false;
    }
    w.Record(ResetReplica(dsn, req.username, req.newPassword, req.oldPassword));
    if outcome.exec.Some? {
      Fail(w, req, 500, ReplicaErrorText, LogUpdates, ReplicaErrorText, Text(outcome.exec.value));
      return false;
    }

    var logErr := w.Exec(SuccessLog(req));
    assert logErr == Shifted(w.auditFault, n0)(1 + j);
    if logErr.Some? {
      Fail(w, req, 500, SuccessLogErrorText, UpdatePassResetLogs, SuccessLogErrorStatus, Text(logErr.value));
      return false;
    }

    w.Record(Respond(200, SuccessBody(UpdatedMessage)));
    // the e-mail's own error is only written to the operational log
    w.Record(Email(req.email, req.username));
    return true;
  }
}
