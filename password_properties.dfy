/**
 * What the password-reset handler promises, stated over the reference trace
 * `Handlers.Run`, which the method `Handlers.UpdatePassword` is proved to
 * produce: when it resets anything, whom it contacts, what it answers, what
 * it audits, and where it stops.
 */
module HandlerProperties {
  import opened Wrappers
  import opened Errors
  import opened Models
  import opened Events
  import opened Auth
  import opened Handlers

  /** `n` copies of `e`. */
  function Copies(e: Event, n: nat): (r: seq<Event>)
    ensures |r| == n
  {
    if n == 0 then [] else Copies(e, n - 1) + [e]
  }

  const Updated := Respond(200, SuccessBody(UpdatedMessage))

  function Confirmation(req: UpdatePasswordRequest): Event
  {
    Email(req.email, req.username)
  }

  function ReplicaUpdate(req: UpdatePasswordRequest, o: Oracle, server: string): Event
  {
    var dsn := ReplicaDsn(req, o, server);
    ResetReplica(dsn, req.username, req.newPassword, req.oldPassword)
  }

  /** The connections opened to `servers`, one each, in order. */
  function Connections(req: UpdatePasswordRequest, o: Oracle, servers: seq<string>): (r: seq<Event>)
    ensures |r| == |servers|
  {
    if servers == [] then []
    else Connections(req, o, servers[..|servers| - 1]) + [Open(ReplicaDsn(req, o, servers[|servers| - 1]))]
  }

  /** The replica resets run on `servers`, one each, in order. */
  function Updates(req: UpdatePasswordRequest, o: Oracle, servers: seq<string>): (r: seq<Event>)
    ensures |r| == |servers|
  {
    if servers == [] then []
    else Updates(req, o, servers[..|servers| - 1]) + [ReplicaUpdate(req, o, servers[|servers| - 1])]
  }

  /** Extending the servers by one extends their connections and resets by one. */
  lemma ConnectionsSnoc(req: UpdatePasswordRequest, o: Oracle, servers: seq<string>, n: nat)
    requires 0 < n <= |servers|
    ensures Connections(req, o, servers[..n]) ==
            Connections(req, o, servers[..n - 1]) + [Open(ReplicaDsn(req, o, servers[n - 1]))]
    ensures Updates(req, o, servers[..n]) ==
            Updates(req, o, servers[..n - 1]) + [ReplicaUpdate(req, o, servers[n - 1])]
  {
    assert servers[..n][..n - 1] == servers[..n - 1];
  }

  /** The selections of a successful replica step's shape. */
  lemma SucceededShape(t: seq<Event>, a: Event, b: Event, c: Event, d: Event, e: Event, f: Event)
    requires t == [a, b, c, d, e, f]
    requires a.Open? && b.Ping? && c.ResetReplica? && d.Audit? && e.Respond? && f.Email?
    ensures Only(t, Opened) == [a] && Only(t, ReplicaReset) == [c] && Only(t, Audited) == [d]
    ensures Only(t, Responded) == [e] && Only(t, Emailed) == [f]
  {
    OnlySix(t, a, b, c, d, e, f);
  }

  /**
   * The selections of a failed replica step: one connection `a`, the resets,
   * the one response `r`, the audit CALLs, no e-mail.
   */
  predicate FailedTrace(t: seq<Event>, a: Event, resets: seq<Event>, r: Event, audits: seq<Event>)
  {
    Only(t, Opened) == [a] && Only(t, ReplicaReset) == resets && Only(t, Responded) == [r] &&
    Only(t, Audited) == audits && Only(t, Emailed) == []
  }

  lemma ConnectFailedShape(t: seq<Event>, a: Event, r: Event, l: Event)
    requires t == [a, r, l] && a.Open? && r.Respond? && l.Audit?
    ensures FailedTrace(t, a, [], r, [l])
  {
    OnlyThree(t, a, r, l);
  }

  lemma PingFailedShape(t: seq<Event>, a: Event, b: Event, r: Event, l: Event)
    requires t == [a, b, r, l] && a.Open? && b.Ping? && r.Respond? && l.Audit?
    ensures FailedTrace(t, a, [], r, [l])
  {
    OnlyFour(t, a, b, r, l);
  }

  lemma ResetFailedShape(t: seq<Event>, a: Event, b: Event, c: Event, r: Event, l: Event)
    requires t == [a, b, c, r, l] && a.Open? && b.Ping? && c.ResetReplica? && r.Respond? && l.Audit?
    ensures FailedTrace(t, a, [c], r, [l])
  {
    OnlyFive(t, a, b, c, r, l);
  }

  lemma LogFailedShape(t: seq<Event>, a: Event, b: Event, c: Event, d: Event, r: Event, l: Event)
    requires t == [a, b, c, d, r, l] && a.Open? && b.Ping? && c.ResetReplica? && d.Audit? && r.Respond? && l.Audit?
    ensures FailedTrace(t, a, [c], r, [d, l])
  {
    OnlySix(t, a, b, c, d, r, l);
  }

  /** The j-th replica accepts the connection, the ping and the reset, and its success log is written. */
  predicate ReplicaSucceeds(o: Oracle, answers: Answers, j: nat)
  {
    o.replica(j) == ReplicaOutcome(None, None, None) && answers(1 + j).None?
  }

  // ---------------------------------------------------------------------
  // One pass of the replica loop
  // ---------------------------------------------------------------------

  /** A replica that succeeds is connected to, reset, answered with 200 and e-mailed, once each. */
  lemma SuccessfulStep(req: UpdatePasswordRequest, o: Oracle, answers: Answers, j: nat, server: string)
    requires ReplicaSucceeds(o, answers, j)
    ensures var s := ReplicaStep(req, o, answers, j, server);
      s.proceed &&
      Only(s.events, Opened) == [Open(ReplicaDsn(req, o, server))] &&
      Only(s.events, ReplicaReset) == [ReplicaUpdate(req, o, server)] &&
      Only(s.events, Responded) == [Updated] &&
      Only(s.events, Emailed) == [Confirmation(req)] &&
      Only(s.events, Audited) == [Audit(SuccessLog(req))]
  {
    var dsn := ReplicaDsn(req, o, server);
    var t := ReplicaStep(req, o, answers, j, server).events;
    var a, b, c := Open(dsn), Ping(dsn), ReplicaUpdate(req, o, server);
    var d, e, f := Audit(SuccessLog(req)), Updated, Confirmation(req);
    assert t == [a, b, c, d, e, f];
    SucceededShape(t, a, b, c, d, e, f);
  }

  /** An error response with the given status. */
  predicate Answered(e: Event, status: int)
  {
    e.Respond? && e.status == status
  }

  /** The audit CALL a failure branch writes with the request's username and server. */
  function Logged(req: UpdatePasswordRequest, procedure: Procedure, requestStatus: string, message: string): Event
  {
    Audit(AuditCall(procedure, req.username, req.serverIP, RequestType, requestStatus, message))
  }

  /**
   * What a failed pass of the loop leaves: one connection, the given resets,
   * one 500 with the given text, the given audit CALLs, and no e-mail.
   */
  predicate FailedPass(s: Stage, dsn: Dsn, resets: seq<Event>, text: string, audits: seq<Event>)
  {
    !s.proceed &&
    Only(s.events, Opened) == [Open(dsn)] &&
    Only(s.events, ReplicaReset) == resets &&
    Only(s.events, Responded) == [Respond(500, ErrorBody(text))] &&
    Only(s.events, Audited) == audits &&
    Only(s.events, Emailed) == []
  }

  /** A failed open: a 500 and one log_updates CALL carrying the driver's error; the replica is not reset. */
  lemma ConnectFails(req: UpdatePasswordRequest, o: Oracle, answers: Answers, j: nat, server: string)
    requires o.replica(j).open.Some?
    ensures FailedPass(ReplicaStep(req, o, answers, j, server), ReplicaDsn(req, o, server), [], ConnectErrorText,
                       [Logged(req, LogUpdates, ConnectErrorText, Text(o.replica(j).open.value))])
  {
    var dsn := ReplicaDsn(req, o, server);
    var t := ReplicaStep(req, o, answers, j, server).events;
    var r := Reject(req, 500, ConnectErrorText, LogUpdates, ConnectErrorText, Text(o.replica(j).open.value));
    assert t == [Open(dsn), r[0], r[1]];
    ConnectFailedShape(t, Open(dsn), r[0], r[1]);
  }

  /** A failed ping: a 500 and one log_updates CALL carrying the driver's error; the replica is not reset. */
  lemma PingFails(req: UpdatePasswordRequest, o: Oracle, answers: Answers, j: nat, server: string)
    requires o.replica(j).open.None? && o.replica(j).ping.Some?
    ensures FailedPass(ReplicaStep(req, o, answers, j, server), ReplicaDsn(req, o, server), [], PingErrorText,
                       [Logged(req, LogUpdates, PingErrorText, Text(o.replica(j).ping.value))])
  {
    var dsn := ReplicaDsn(req, o, server);
    var t := ReplicaStep(req, o, answers, j, server).events;
    var r := Reject(req, 500, PingErrorText, LogUpdates, PingErrorText, Text(o.replica(j).ping.value));
    assert t == [Open(dsn), Ping(dsn), r[0], r[1]];
    PingFailedShape(t, Open(dsn), Ping(dsn), r[0], r[1]);
  }

  /** A failed reset: the one reset attempt, a 500 and one log_updates CALL carrying the driver's error. */
  lemma ResetFails(req: UpdatePasswordRequest, o: Oracle, answers: Answers, j: nat, server: string)
    requires o.replica(j).open.None? && o.replica(j).ping.None? && o.replica(j).exec.Some?
    ensures FailedPass(ReplicaStep(req, o, answers, j, server), ReplicaDsn(req, o, server),
                       [ReplicaUpdate(req, o, server)], ReplicaErrorText,
                       [Logged(req, LogUpdates, ReplicaErrorText, Text(o.replica(j).exec.value))])
  {
    var dsn := ReplicaDsn(req, o, server);
    var t := ReplicaStep(req, o, answers, j, server).events;
    var a, b, c := Open(dsn), Ping(dsn), ReplicaUpdate(req, o, server);
    var r := Reject(req, 500, ReplicaErrorText, LogUpdates, ReplicaErrorText, Text(o.replica(j).exec.value));
    assert t == [a, b, c, r[0], r[1]];
    ResetFailedShape(t, a, b, c, r[0], r[1]);
  }

  /**
   * A failed success log: the replica was reset; the success CALL is
   * followed by a 500 and one update_pass_reset_logs CALL carrying the
   * audit store's error.
   */
  lemma SuccessLogFails(req: UpdatePasswordRequest, o: Oracle, answers: Answers, j: nat, server: string)
    requires o.replica(j) == ReplicaOutcome(None, None, None) && answers(1 + j).Some?
    ensures FailedPass(ReplicaStep(req, o, answers, j, server), ReplicaDsn(req, o, server),
                       [ReplicaUpdate(req, o, server)], SuccessLogErrorText,
                       [Audit(SuccessLog(req)),
                        Logged(req, UpdatePassResetLogs, SuccessLogErrorStatus, Text(answers(1 + j).value))])
  {
    var dsn := ReplicaDsn(req, o, server);
    var t := ReplicaStep(req, o, answers, j, server).events;
    var a, b, c := Open(dsn), Ping(dsn), ReplicaUpdate(req, o, server);
    var r := Reject(req, 500, SuccessLogErrorText, UpdatePassResetLogs, SuccessLogErrorStatus, Text(answers(1 + j).value));
    var d := Audit(SuccessLog(req));
    assert t == [a, b, c, d, r[0], r[1]];
    LogFailedShape(t, a, b, c, d, r[0], r[1]);
  }

  /** The error text a failing replica is answered with, by the first of its steps that failed. */
  function FailureText(o: Oracle, j: nat): string
  {
    var outcome := o.replica(j);
    if outcome.open.Some? then ConnectErrorText
    else if outcome.ping.Some? then PingErrorText
    else if outcome.exec.Some? then ReplicaErrorText
    else SuccessLogErrorText
  }

  /** The audit CALLs a failing replica leaves, by the first of its steps that failed. */
  function FailureAudits(req: UpdatePasswordRequest, o: Oracle, answers: Answers, j: nat): seq<Event>
    requires !ReplicaSucceeds(o, answers, j)
  {
    var outcome := o.replica(j);
    if outcome.open.Some? then [Logged(req, LogUpdates, ConnectErrorText, Text(outcome.open.value))]
    else if outcome.ping.Some? then [Logged(req, LogUpdates, PingErrorText, Text(outcome.ping.value))]
    else if outcome.exec.Some? then [Logged(req, LogUpdates, ReplicaErrorText, Text(outcome.exec.value))]
    else [Audit(SuccessLog(req)), Logged(req, UpdatePassResetLogs, SuccessLogErrorStatus, Text(answers(1 + j).value))]
  }

  /**
   * A replica that fails is connected to once, answered with one 500 and
   * not e-mailed, and the loop stops after it; its reset ran unless the
   * connection or the ping failed, and its audit CALLs are those of the
   * step that failed.
   */
  lemma FailedStep(req: UpdatePasswordRequest, o: Oracle, answers: Answers, j: nat, server: string)
    requires !ReplicaSucceeds(o, answers, j)
    ensures FailedPass(ReplicaStep(req, o, answers, j, server), ReplicaDsn(req, o, server),
                       if o.replica(j).open.Some? || o.replica(j).ping.Some? then [] else [ReplicaUpdate(req, o, server)],
                       FailureText(o, j), FailureAudits(req, o, answers, j))
  {
    var outcome := o.replica(j);
    if outcome.open.Some? {
      ConnectFails(req, o, answers, j, server);
    } else if outcome.ping.Some? {
      PingFails(req, o, answers, j, server);
    } else if outcome.exec.Some? {
      ResetFails(req, o, answers, j, server);
    } else {
      SuccessLogFails(req, o, answers, j, server);
    }
  }

  // ---------------------------------------------------------------------
  // The replica loop
  // ---------------------------------------------------------------------

  /**
   * While every replica succeeds the loop goes on; after n of them it has
   * connected to and reset servers[0..n) in order, with the user's old
   * credentials.
   */
  lemma {:induction false} AllSucceed(req: UpdatePasswordRequest, o: Oracle, answers: Answers,
                                      servers: seq<string>, n: nat)
    requires n <= |servers|
    requires forall j | 0 <= j < n :: ReplicaSucceeds(o, answers, j)
    ensures var t := Replicas(req, o, answers, servers, n).events;
      Replicas(req, o, answers, servers, n).proceed &&
      Only(t, Opened) == Connections(req, o, servers[..n]) &&
      Only(t, ReplicaReset) == Updates(req, o, servers[..n])
    decreases n
  {
    if n > 0 {
      AllSucceed(req, o, answers, servers, n - 1);
      var done := Replicas(req, o, answers, servers, n - 1).events;
      var step := ReplicaStep(req, o, answers, n - 1, servers[n - 1]).events;
      SuccessfulStep(req, o, answers, n - 1, servers[n - 1]);
      assert Replicas(req, o, answers, servers, n).events == done + step;
      ConnectionsSnoc(req, o, servers, n);
      OnlyAppend(done, step, Opened);
      OnlyAppend(done, step, ReplicaReset);
    }
  }

  /**
   * While every replica succeeds, after n of them the handler has written n
   * 200 responses, attempted n e-mails and issued n success logs.
   */
  lemma {:induction false} AllAnswered(req: UpdatePasswordRequest, o: Oracle, answers: Answers,
                                       servers: seq<string>, n: nat)
    requires n <= |servers|
    requires forall j | 0 <= j < n :: ReplicaSucceeds(o, answers, j)
    ensures var t := Replicas(req, o, answers, servers, n).events;
      Replicas(req, o, answers, servers, n).proceed &&
      Only(t, Responded) == Copies(Updated, n) &&
      Only(t, Emailed) == Copies(Confirmation(req), n) &&
      Only(t, Audited) == Copies(Audit(SuccessLog(req)), n)
    decreases n
  {
    if n > 0 {
      AllAnswered(req, o, answers, servers, n - 1);
      var done := Replicas(req, o, answers, servers, n - 1).events;
      var step := ReplicaStep(req, o, answers, n - 1, servers[n - 1]).events;
      SuccessfulStep(req, o, answers, n - 1, servers[n - 1]);
      assert Replicas(req, o, answers, servers, n).events == done + step;
      OnlyAppend(done, step, Responded);
      OnlyAppend(done, step, Emailed);
      OnlyAppend(done, step, Audited);
    }
  }

  /** The loop stops at the first replica that fails: the later ones add nothing. */
  lemma StopsAtFirstFailure(req: UpdatePasswordRequest, o: Oracle, answers: Answers,
                            servers: seq<string>, k: nat, n: nat)
    requires k < n <= |servers|
    requires forall j | 0 <= j < k :: ReplicaSucceeds(o, answers, j)
    requires !ReplicaSucceeds(o, answers, k)
    ensures Replicas(req, o, answers, servers, n) ==
            Stage(Replicas(req, o, answers, servers, k).events + ReplicaStep(req, o, answers, k, servers[k]).events, false)
  {
    AllSucceed(req, o, answers, servers, k);
    assert !Replicas(req, o, answers, servers, k + 1).proceed;
    StoppedStaysStopped(req, o, answers, servers, k + 1, n);
  }

  /**
   * When replica k is the first to fail, servers[k+1..] are never contacted:
   * the password has changed on the primary and on servers[0..k) (and on
   * servers[k] when only its success log failed), and on none of the rest.
   */
  lemma FirstFailure(req: UpdatePasswordRequest, o: Oracle, answers: Answers,
                     servers: seq<string>, k: nat, n: nat)
    requires k < n <= |servers|
    requires forall j | 0 <= j < k :: ReplicaSucceeds(o, answers, j)
    requires !ReplicaSucceeds(o, answers, k)
    ensures var t := Replicas(req, o, answers, servers, n).events;
      Only(t, Opened) == Connections(req, o, servers[..k + 1]) &&
      Only(t, ReplicaReset) ==
        Updates(req, o, servers[..if o.replica(k).open.Some? || o.replica(k).ping.Some? then k else k + 1])
  {
    StopsAtFirstFailure(req, o, answers, servers, k, n);
    AllSucceed(req, o, answers, servers, k);
    var done := Replicas(req, o, answers, servers, k).events;
    var step := ReplicaStep(req, o, answers, k, servers[k]).events;
    FailedStep(req, o, answers, k, servers[k]);
    OnlyAppend(done, step, Opened);
    OnlyAppend(done, step, ReplicaReset);
    ConnectionsSnoc(req, o, servers, k + 1);
  }

  /**
   * When replica k is the first to fail, the handler has written k 200
   * responses followed by one 500, and attempted k e-mails.
   */
  lemma FirstFailureAnswers(req: UpdatePasswordRequest, o: Oracle, answers: Answers,
                            servers: seq<string>, k: nat, n: nat)
    requires k < n <= |servers|
    requires forall j | 0 <= j < k :: ReplicaSucceeds(o, answers, j)
    requires !ReplicaSucceeds(o, answers, k)
    ensures var t := Replicas(req, o, answers, servers, n).events;
      |Only(t, Responded)| == k + 1 &&
      Only(t, Responded)[..k] == Copies(Updated, k) && Answered(Only(t, Responded)[k], 500) &&
      Only(t, Emailed) == Copies(Confirmation(req), k)
  {
    StopsAtFirstFailure(req, o, answers, servers, k, n);
    AllAnswered(req, o, answers, servers, k);
    var done := Replicas(req, o, answers, servers, k).events;
    var step := ReplicaStep(req, o, answers, k, servers[k]).events;
    FailedStep(req, o, answers, k, servers[k]);
    OnlyAppend(done, step, Responded);
    OnlyAppend(done, step, Emailed);
    var answered := Copies(Updated, k) + Only(step, Responded);
    assert answered[..k] == Copies(Updated, k);
    assert answered[k] == Only(step, Responded)[0];
  }

  /** The loop's trace only ever grows: the trace after j replicas is a prefix of the trace after n. */
  lemma {:induction false} LoopPrefix(req: UpdatePasswordRequest, o: Oracle, answers: Answers,
                                      servers: seq<string>, j: nat, n: nat)
    requires j <= n <= |servers|
    ensures Replicas(req, o, answers, servers, j).events <= Replicas(req, o, answers, servers, n).events
    decreases n
  {
    if j < n {
      LoopPrefix(req, o, answers, servers, j, n - 1);
    }
  }

  /** What the loop can write: connections, pings, replica resets, audit CALLs, 200 or 500 responses, e-mails. */
  predicate LoopEvent(e: Event)
  {
    e.Open? || e.Ping? || e.ResetReplica? || e.Audit? || e.Email? || Answered(e, 200) || Answered(e, 500)
  }

  /** The loop never resets the primary, never answers other than 200 or 500, and never ends the process. */
  lemma {:induction false} LoopEvents(req: UpdatePasswordRequest, o: Oracle, answers: Answers,
                                      servers: seq<string>, n: nat)
    requires n <= |servers|
    ensures forall e | e in Replicas(req, o, answers, servers, n).events :: LoopEvent(e)
    decreases n
  {
    if n > 0 {
      LoopEvents(req, o, answers, servers, n - 1);
      var step := ReplicaStep(req, o, answers, n - 1, servers[n - 1]).events;
      assert forall e | e in step :: LoopEvent(e);
    }
  }

  // ---------------------------------------------------------------------
  // One request
  // ---------------------------------------------------------------------

  /** Every check that precedes the first reset passes. */
  predicate ChecksPass(req: UpdatePasswordRequest, o: Oracle)
  {
    o.credentials == Ok(true) && req.oldPassword != req.newPassword &&
    o.expiration == Ok(ExpirationRow(Some(false), Some(true))) &&
    o.oldPasswordOpen.None? && o.oldPasswordPing.None? &&
    RelatedServers(o.related).1.None?
  }

  /** The replicas discovery returned. */
  function Discovered(o: Oracle): seq<string>
  {
    RelatedServers(o.related).0
  }

  /** The connection that proves the old password: the primary, as the user. */
  function PrimaryDsn(req: UpdatePasswordRequest, o: Oracle): Dsn
  {
    Dsn(req.serverIP, req.username, req.oldPassword, o.port, req.database)
  }

  /** The trace of a request whose checks all pass, up to the primary reset. */
  function Prelude(req: UpdatePasswordRequest, o: Oracle): seq<Event>
  {
    [Audit(Pending(req)), ValidateCredentials(req.username, req.serverIP, req.email),
     CheckExpiration(req.username, req.serverIP), Open(PrimaryDsn(req, o)), Ping(PrimaryDsn(req, o)),
     FindServers(req.serverIP), ResetPrimary(req.username, req.newPassword, req.oldPassword)]
  }

  /** The selections of the prelude's shape. */
  lemma PreludeShape(t: seq<Event>, a: Event, b: Event, c: Event, d: Event, e: Event, f: Event, g: Event)
    requires t == [a, b, c, d, e, f, g]
    requires a.Audit? && b.ValidateCredentials? && c.CheckExpiration? && d.Open? && e.Ping? &&
             f.FindServers? && g.ResetPrimary?
    ensures Only(t, Opened) == [d] && Only(t, Audited) == [a]
    ensures Only(t, ReplicaReset) == [] && Only(t, Responded) == [] && Only(t, Emailed) == []
  {
    OnlySeven(t, a, b, c, d, e, f, g);
  }

  /** The selections of a request rejected right after the credential check. */
  lemma RejectedShape(t: seq<Event>, a: Event, b: Event, r: Event, l: Event)
    requires t == [a, b, r, l] && a.Audit? && b.ValidateCredentials? && r.Respond? && l.Audit?
    ensures Only(t, Audited) == [a, l] && Only(t, Responded) == [r]
  {
    OnlyFour(t, a, b, r, l);
  }

  /** The selections of a request ended by the expiration check. */
  lemma FatalShape(t: seq<Event>, a: Event, b: Event, c: Event, f: Event)
    requires t == [a, b, c, f] && a.Audit? && b.ValidateCredentials? && c.CheckExpiration? && f.Fatal?
    ensures Only(t, Audited) == [a] && Only(t, Responded) == []
  {
    OnlyFour(t, a, b, c, f);
  }

  /** Of the prelude, a selection keeps only the old-password connection and the Pending entry. */
  lemma PreludeSelections(req: UpdatePasswordRequest, o: Oracle)
    ensures Only(Prelude(req, o), Opened) == [Open(PrimaryDsn(req, o))]
    ensures Only(Prelude(req, o), Audited) == [Audit(Pending(req))]
    ensures Only(Prelude(req, o), ReplicaReset) == []
    ensures Only(Prelude(req, o), Responded) == []
    ensures Only(Prelude(req, o), Emailed) == []
  {
    var p := Prelude(req, o);
    PreludeShape(p, p[0], p[1], p[2], p[3], p[4], p[5], p[6]);
  }

  /** Once every check passes and the primary accepts the reset, the rest of the request is the replica loop. */
  lemma RunReachesReplicas(req: UpdatePasswordRequest, o: Oracle, answers: Answers)
    requires ChecksPass(req, o) && o.primaryReset.None?
    ensures Run(Decoded(req), o, answers) ==
            Prelude(req, o) + Replicas(req, o, answers, Discovered(o), |Discovered(o)|).events
  {
    var loop := Replicas(req, o, answers, Discovered(o), |Discovered(o)|).events;
    var p := Prelude(req, o);
    assert OldPassword(req, o).calls == [p[3], p[4]];
    assert AfterDiscovery(req, o, answers) == [p[6]] + loop;
    assert AfterExpiration(req, o, answers) == [p[3], p[4]] + ([p[5]] + ([p[6]] + loop));
    assert AfterCredentials(req, o, answers) == [p[2]] + AfterExpiration(req, o, answers);
    assert Run(Decoded(req), o, answers) == [p[0], p[1]] + AfterCredentials(req, o, answers);
    assert p == [p[0], p[1]] + [p[2]] + [p[3], p[4]] + [p[5]] + [p[6]];
  }

  /**
   * When every replica succeeds, the request connects to the primary once
   * (to prove the old password) and then to each replica in discovery
   * order, and resets each replica once.
   */
  lemma AllReplicasUpdated(req: UpdatePasswordRequest, o: Oracle, answers: Answers)
    requires ChecksPass(req, o) && o.primaryReset.None?
    requires forall j | 0 <= j < |Discovered(o)| :: ReplicaSucceeds(o, answers, j)
    ensures var t := Run(Decoded(req), o, answers);
      Only(t, Opened) == [Open(PrimaryDsn(req, o))] + Connections(req, o, Discovered(o)) &&
      Only(t, ReplicaReset) == Updates(req, o, Discovered(o))
  {
    var servers := Discovered(o);
    var loop := Replicas(req, o, answers, servers, |servers|).events;
    RunReachesReplicas(req, o, answers);
    AllSucceed(req, o, answers, servers, |servers|);
    PreludeSelections(req, o);
    OnlyAppend(Prelude(req, o), loop, Opened);
    OnlyAppend(Prelude(req, o), loop, ReplicaReset);
    assert servers[..|servers|] == servers;
  }

  /**
   * When every replica succeeds, the handler writes one 200 response and
   * attempts one e-mail per replica, and the audit store gets the Pending
   * entry followed by one success log per replica. With no replica at all,
   * that is no response written and no e-mail.
   */
  lemma AllReplicasAnswered(req: UpdatePasswordRequest, o: Oracle, answers: Answers)
    requires ChecksPass(req, o) && o.primaryReset.None?
    requires forall j | 0 <= j < |Discovered(o)| :: ReplicaSucceeds(o, answers, j)
    ensures var t := Run(Decoded(req), o, answers);
      var n := |Discovered(o)|;
      Only(t, Responded) == Copies(Updated, n) &&
      Only(t, Emailed) == Copies(Confirmation(req), n) &&
      Only(t, Audited) == [Audit(Pending(req))] + Copies(Audit(SuccessLog(req)), n)
  {
    var servers := Discovered(o);
    var loop := Replicas(req, o, answers, servers, |servers|).events;
    RunReachesReplicas(req, o, answers);
    AllAnswered(req, o, answers, servers, |servers|);
    PreludeSelections(req, o);
    OnlyAppend(Prelude(req, o), loop, Responded);
    OnlyAppend(Prelude(req, o), loop, Emailed);
    OnlyAppend(Prelude(req, o), loop, Audited);
  }

  /**
   * With no replica, a request whose checks pass and whose primary accepts
   * the reset ends with that reset: the handler writes no response.
   */
  lemma NoReplicaNoResponse(req: UpdatePasswordRequest, o: Oracle, answers: Answers)
    requires ChecksPass(req, o) && o.primaryReset.None? && Discovered(o) == []
    ensures var t := Run(Decoded(req), o, answers);
      t == Prelude(req, o) && t[|t| - 1] == ResetPrimary(req.username, req.newPassword, req.oldPassword) &&
      Only(t, Responded) == [] && Only(t, Emailed) == []
  {
    RunReachesReplicas(req, o, answers);
    PreludeSelections(req, o);
    assert Prelude(req, o) + [] == Prelude(req, o);
  }

  /**
   * When replica k is the first to fail, the request has already passed
   * every check and reset the primary (the first seven effects are the
   * prelude); the primary and servers[0..k) (and servers[k] when only its
   * success log failed) have the new password, and no later replica is ever
   * contacted.
   */
  lemma ReplicaFailureStops(req: UpdatePasswordRequest, o: Oracle, answers: Answers, k: nat)
    requires ChecksPass(req, o) && o.primaryReset.None?
    requires k < |Discovered(o)|
    requires forall j | 0 <= j < k :: ReplicaSucceeds(o, answers, j)
    requires !ReplicaSucceeds(o, answers, k)
    ensures var t := Run(Decoded(req), o, answers);
      var servers := Discovered(o);
      t[..7] == Prelude(req, o) &&
      Only(t, Opened) == [Open(PrimaryDsn(req, o))] + Connections(req, o, servers[..k + 1]) &&
      Only(t, ReplicaReset) ==
        Updates(req, o, servers[..if o.replica(k).open.Some? || o.replica(k).ping.Some? then k else k + 1])
  {
    var servers := Discovered(o);
    var p := Prelude(req, o);
    var loop := Replicas(req, o, answers, servers, |servers|).events;
    RunReachesReplicas(req, o, answers);
    FirstFailure(req, o, answers, servers, k, |servers|);
    PreludeSelections(req, o);
    OnlyAppend(p, loop, Opened);
    OnlyAppend(p, loop, ReplicaReset);
    assert (p + loop)[..7] == p;
  }

  /**
   * The audit-store numbering the model relies on: the success log of
   * replica j is preceded, within the request, by exactly 1 + j audit CALLs
   * (the Pending entry and one success log per earlier replica), so its
   * answer is the request's (1 + j)-th.
   */
  lemma SuccessLogNumbering(req: UpdatePasswordRequest, o: Oracle, answers: Answers, j: nat)
    requires ChecksPass(req, o) && o.primaryReset.None?
    requires j < |Discovered(o)|
    requires forall i | 0 <= i < j :: ReplicaSucceeds(o, answers, i)
    ensures var before := Prelude(req, o) + Replicas(req, o, answers, Discovered(o), j).events;
      before <= Run(Decoded(req), o, answers) &&
      |Only(before, Audited)| == 1 + j
  {
    var servers := Discovered(o);
    var done := Replicas(req, o, answers, servers, j).events;
    RunReachesReplicas(req, o, answers);
    LoopPrefix(req, o, answers, servers, j, |servers|);
    AllAnswered(req, o, answers, servers, j);
    PreludeSelections(req, o);
    OnlyAppend(Prelude(req, o), done, Audited);
  }

  /** A request that fails to decode or fails a check resets nothing. */
  lemma NoResetWithoutChecks(d: Decode, o: Oracle, answers: Answers)
    requires !(d.Decoded? && ChecksPass(d.request, o))
    ensures forall e | e in Run(d, o, answers) :: !IsReset(e)
  {
    if d.Decoded? {
      var req := d.request;
      if o.credentials != Ok(true) || req.oldPassword == req.newPassword {
        assert forall e | e in AfterCredentials(req, o, answers) :: !IsReset(e);
      } else {
        NoResetAfterFailedCheck(req, o, answers);
      }
    }
  }

  /** A failed expiration, old-password or discovery check leaves no reset after it. */
  lemma NoResetAfterFailedCheck(req: UpdatePasswordRequest, o: Oracle, answers: Answers)
    requires !(o.expiration == Ok(ExpirationRow(Some(false), Some(true))) &&
               o.oldPasswordOpen.None? && o.oldPasswordPing.None? && RelatedServers(o.related).1.None?)
    ensures forall e | e in AfterExpiration(req, o, answers) :: !IsReset(e)
  {
    var expiration := CheckLoginExpiration(o.expiration);
    var previous := OldPassword(req, o);
    if expiration.err.None? && previous.result.err.None? {
      assert forall e | e in AfterDiscovery(req, o, answers) :: !IsReset(e);
    }
  }

  /**
   * A password is reset (on the primary or on a replica) exactly when the
   * body decoded and every check passed: valid credentials, a different new
   * password, a valid unexpired login, a working old password and a
   * successful discovery. The primary's reset is then the request's seventh
   * effect, whatever the primary answers.
   */
  lemma ResetsRequireChecks(d: Decode, o: Oracle, answers: Answers)
    ensures (exists e | e in Run(d, o, answers) :: IsReset(e)) <==> d.Decoded? && ChecksPass(d.request, o)
    ensures d.Decoded? && ChecksPass(d.request, o) ==>
              Run(d, o, answers)[..7] == Prelude(d.request, o)
  {
    var t := Run(d, o, answers);
    if d.Decoded? && ChecksPass(d.request, o) {
      var req := d.request;
      var p := Prelude(req, o);
      if o.primaryReset.None? {
        RunReachesReplicas(req, o, answers);
      } else {
        var rest := Reject(req, 500, PrimaryErrorText + ": " + Text(o.primaryReset.value),
                           UpdatePassResetLogs, PrimaryErrorText, Text(o.primaryReset.value));
        assert AfterDiscovery(req, o, answers) == [p[6]] + rest;
        assert t == p + rest;
      }
      assert t[..7] == p;
      assert IsReset(t[6]) && t[6] in t;
    } else {
      NoResetWithoutChecks(d, o, answers);
    }
  }

  /** When every check passes, the request's seventh effect is its only primary reset and its first reset. */
  lemma PrimaryResetOnce(req: UpdatePasswordRequest, o: Oracle, answers: Answers)
    requires ChecksPass(req, o)
    ensures var t := Run(Decoded(req), o, answers);
      |t| > 6 && t[6] == ResetPrimary(req.username, req.newPassword, req.oldPassword) &&
      (forall i | 0 <= i < |t| && t[i].ResetPrimary? :: i == 6) &&
      (forall i | 0 <= i < |t| && IsReset(t[i]) :: i >= 6)
  {
    var t := Run(Decoded(req), o, answers);
    var p := Prelude(req, o);
    var servers := Discovered(o);
    if o.primaryReset.None? {
      RunReachesReplicas(req, o, answers);
      LoopEvents(req, o, answers, servers, |servers|);
      var loop := Replicas(req, o, answers, servers, |servers|).events;
      forall i | 7 <= i < |t| ensures LoopEvent(t[i]) {
        assert t[i] == loop[i - 7] && loop[i - 7] in loop;
      }
    } else {
      var rest := Reject(req, 500, PrimaryErrorText + ": " + Text(o.primaryReset.value),
                         UpdatePassResetLogs, PrimaryErrorText, Text(o.primaryReset.value));
      assert AfterDiscovery(req, o, answers) == [p[6]] + rest;
      assert t == p + rest;
    }
    forall i | 0 <= i < 6 ensures !IsReset(t[i]) {
      assert t[i] == p[i];
    }
  }

  /** The primary is reset at most once, and before every replica reset. */
  lemma PrimaryFirst(d: Decode, o: Oracle, answers: Answers)
    ensures var t := Run(d, o, answers);
      forall i, j | 0 <= i < |t| && 0 <= j < |t| && t[i].ResetPrimary? && IsReset(t[j]) :: i <= j
  {
    var t := Run(d, o, answers);
    if d.Decoded? && ChecksPass(d.request, o) {
      PrimaryResetOnce(d.request, o, answers);
    } else {
      NoResetWithoutChecks(d, o, answers);
      assert forall i | 0 <= i < |t| :: t[i] in t;
    }
  }

  /**
   * The only 401 a request can get is "Invalid user credentials": the
   * "Old password is invalid" and "Login is invalid or expired" answers
   * are never written, because their checks never return (false, nil).
   */
  lemma OnlyCredentialsGet401(d: Decode, o: Oracle, answers: Answers)
    ensures forall e | e in Run(d, o, answers) && Answered(e, 401) ::
              e == Respond(401, ErrorBody(InvalidCredentialsText)) && d.Decoded? && o.credentials == Ok(false)
  {
    if d.Decoded? {
      var req := d.request;
      if o.credentials == Ok(true) && req.oldPassword != req.newPassword {
        No401AfterExpiration(req, o, answers);
      }
    }
  }

  /**
   * Past the expiration check nothing answers 401: the two 401 branches
   * there need a `(false, nil)` that neither gateway helper returns.
   */
  lemma No401AfterExpiration(req: UpdatePasswordRequest, o: Oracle, answers: Answers)
    ensures forall e | e in AfterExpiration(req, o, answers) :: !Answered(e, 401)
  {
    var expiration := CheckLoginExpiration(o.expiration);
    if expiration.err.None? {
      var previous := OldPassword(req, o);
      if previous.result.err.None? {
        No401AfterDiscovery(req, o, answers);
      }
    }
  }

  lemma No401AfterDiscovery(req: UpdatePasswordRequest, o: Oracle, answers: Answers)
    ensures forall e | e in AfterDiscovery(req, o, answers) :: !Answered(e, 401)
    ensures forall e | e in AfterDiscovery(req, o, answers) && e.Respond? :: Answered(e, 200) || Answered(e, 500)
  {
    var servers := Discovered(o);
    LoopEvents(req, o, answers, servers, |servers|);
  }

  /**
   * An error from the login-expiration check, an expired or invalid login
   * included, ends the process: no response is written and nothing after
   * the check happens.
   */
  lemma ExpirationErrorIsFatal(req: UpdatePasswordRequest, o: Oracle, answers: Answers)
    requires o.credentials == Ok(true) && req.oldPassword != req.newPassword
    requires CheckLoginExpiration(o.expiration).err.Some?
    ensures var t := Run(Decoded(req), o, answers);
      |t| == 4 && t[3] == Fatal(CheckLoginExpiration(o.expiration).err.value) &&
      Only(t, Responded) == [] && Only(t, Audited) == [Audit(Pending(req))]
    ensures o.expiration.Ok? && o.expiration.value.isValid.Some? && o.expiration.value.isExpired == Some(true) ==>
              Run(Decoded(req), o, answers)[3] == Fatal(Message("login expired or invalid"))
  {
    var t := Run(Decoded(req), o, answers);
    assert t == [t[0], t[1], t[2], t[3]];
    FatalShape(t, t[0], t[1], t[2], t[3]);
  }

  /**
   * Bad credentials and an unchanged password are answered (500, 401 or
   * 400) before any server other than the credential store is contacted,
   * with one update_pass_reset_logs entry after the Pending one, and nothing
   * after it.
   */
  lemma EarlyRejections(req: UpdatePasswordRequest, o: Oracle, answers: Answers)
    requires o.credentials != Ok(true) || req.oldPassword == req.newPassword
    ensures var t := Run(Decoded(req), o, answers);
      |t| == 4 && t[..2] == [Audit(Pending(req)), ValidateCredentials(req.username, req.serverIP, req.email)] &&
      (o.credentials.Failure? ==>
         t[2..] == [Respond(500, ErrorBody(CredentialsErrorText)),
                    Logged(req, UpdatePassResetLogs, CredentialsErrorText, Text(o.credentials.error))]) &&
      (o.credentials == Ok(false) ==>
         t[2..] == [Respond(401, ErrorBody(InvalidCredentialsText)),
                    Logged(req, UpdatePassResetLogs, FailedStatus, InvalidCredentialsText)]) &&
      (o.credentials == Ok(true) ==>
         t[2..] == [Respond(400, ErrorBody(SamePasswordText)),
                    Logged(req, UpdatePassResetLogs, FailedStatus, SamePasswordMessage)])
    ensures var t := Run(Decoded(req), o, answers);
      (forall e | e in t && IsServerCall(e) :: e == ValidateCredentials(req.username, req.serverIP, req.email)) &&
      Only(t, Audited) == [t[0], t[3]] && Only(t, Responded) == [t[2]]
  {
    var t := Run(Decoded(req), o, answers);
    assert t == [t[0], t[1], t[2], t[3]];
    RejectedShape(t, t[0], t[1], t[2], t[3]);
  }

  /** The request's first three effects: the Pending entry, the credential check, the expiration check. */
  function BeforeOldPassword(req: UpdatePasswordRequest): seq<Event>
  {
    [Audit(Pending(req)), ValidateCredentials(req.username, req.serverIP, req.email),
     CheckExpiration(req.username, req.serverIP)]
  }

  /**
   * An old password that cannot open or ping the primary is answered with a
   * 500 and one update_pass_reset_logs entry carrying the driver's error,
   * right after the attempt; nothing is discovered or reset.
   */
  lemma OldPasswordFails(req: UpdatePasswordRequest, o: Oracle, answers: Answers)
    requires o.credentials == Ok(true) && req.oldPassword != req.newPassword
    requires o.expiration == Ok(ExpirationRow(Some(false), Some(true)))
    requires o.oldPasswordOpen.Some? || o.oldPasswordPing.Some?
    ensures var t := Run(Decoded(req), o, answers);
      var attempt := if o.oldPasswordOpen.Some? then [Open(PrimaryDsn(req, o))]
                     else [Open(PrimaryDsn(req, o)), Ping(PrimaryDsn(req, o))];
      var err := if o.oldPasswordOpen.Some? then o.oldPasswordOpen.value else o.oldPasswordPing.value;
      t == BeforeOldPassword(req) + attempt +
           [Respond(500, ErrorBody(OldPasswordErrorText)),
            Logged(req, UpdatePassResetLogs, OldPasswordErrorText, Text(err))]
  {
  }

  /**
   * A failed replica discovery is answered with a 500 and one log_updates
   * entry carrying the error, right after the discovery call; nothing is
   * reset.
   */
  lemma DiscoveryFails(req: UpdatePasswordRequest, o: Oracle, answers: Answers)
    requires o.credentials == Ok(true) && req.oldPassword != req.newPassword
    requires o.expiration == Ok(ExpirationRow(Some(false), Some(true)))
    requires o.oldPasswordOpen.None? && o.oldPasswordPing.None?
    requires RelatedServers(o.related).1.Some?
    ensures var t := Run(Decoded(req), o, answers);
      t == Prelude(req, o)[..6] +
           [Respond(500, ErrorBody(DiscoveryErrorText)),
            Logged(req, LogUpdates, DiscoveryErrorText, Text(RelatedServers(o.related).1.value))]
  {
  }

  /**
   * A primary that refuses the reset is answered with a 500 carrying the
   * driver's error and one update_pass_reset_logs entry; no replica is
   * contacted.
   */
  lemma PrimaryResetFails(req: UpdatePasswordRequest, o: Oracle, answers: Answers)
    requires ChecksPass(req, o) && o.primaryReset.Some?
    ensures var t := Run(Decoded(req), o, answers);
      var sqlErr := Text(o.primaryReset.value);
      |t| == 9 && t[..7] == Prelude(req, o) &&
      t[7] == Respond(500, ErrorBody(PrimaryErrorText + ": " + sqlErr)) &&
      t[8] == Logged(req, UpdatePassResetLogs, PrimaryErrorText, sqlErr)
  {
  }

  /**
   * A body that does not decode is answered 400 without touching any
   * server, and its single audit CALL has its arguments shifted one place:
   * the request type where the username belongs, the username where the
   * server belongs, and so on, with the error text as the message.
   */
  lemma UndecodableShiftsAudit(partial: UpdatePasswordRequest, e: Error, o: Oracle, answers: Answers)
    ensures var t := Run(DecodeFailed(partial, e), o, answers);
      (forall ev | ev in t :: !IsServerCall(ev)) &&
      Only(t, Responded) == [Respond(400, ErrorBody(DecodeFailedText))] &&
      Only(t, Audited) ==
        [Audit(AuditCall(LogUpdates, RequestType, partial.username, partial.serverIP, DecodeFailedText, Text(e)))]
  {
    var t := Run(DecodeFailed(partial, e), o, answers);
    OnlyTwo(t, t[0], t[1]);
  }

  /** Every decoded request's first effect, and first audit CALL, is the Pending entry. */
  lemma PendingFirst(req: UpdatePasswordRequest, o: Oracle, answers: Answers)
    ensures var t := Run(Decoded(req), o, answers);
      t[0] == Audit(Pending(req)) && |Only(t, Audited)| > 0 && Only(t, Audited)[0] == Audit(Pending(req))
  {
    var t := Run(Decoded(req), o, answers);
    var head := [t[0]];
    assert t == head + t[1..];
    OnlyAppend(head, t[1..], Audited);
    OnlyOne(head, t[0]);
  }
}
