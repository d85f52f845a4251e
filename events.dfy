/**
 * The observable effects of one password-reset request, in the order they
 * happen: calls to the audit store, round trips to the credential store and
 * the target servers, HTTP responses, e-mail attempts and process exits.
 */
module Events {
  import opened Wrappers
  import opened Errors

  /** The two stored procedures of the audit store. */
  datatype Procedure =
    | LogUpdates            // CALL log_updates($1, $2, $3, $4, $5)
    | UpdatePassResetLogs   // CALL update_pass_reset_logs($1, $2, $3, $4, $5)

  /** One CALL issued to the audit store, with its five arguments in order. */
  datatype AuditCall = AuditCall(
    procedure: Procedure,
    username: string,
    serverIP: string,
    requestType: string,
    requestStatus: string,
    message: string
  )

  /** The fields of an ad-hoc "server=…;user id=…;password=…;port=…;database=…" connection string. */
  datatype Dsn = Dsn(server: string, userId: string, password: string, port: string, database: string)

  /** A JSON response body: {"message": …} or {"error": …}. */
  datatype Body = SuccessBody(message: string) | ErrorBody(error: string)

  datatype Event =
    | Audit(call: AuditCall)                                  // db.Exec of an audit procedure
    | ValidateCredentials(username: string, serverIP: string, email: string)
    | CheckExpiration(loginName: string, sqlInstance: string)
    | Open(dsn: Dsn)                                          // sql.Open on a connection string
    | Ping(dsn: Dsn)                                          // Ping on that connection
    | FindServers(serverIP: string)                           // EXEC FindRelatedServers
    | ResetPrimary(loginName: string, newPassword: string, oldPassword: string)
    | ResetReplica(dsn: Dsn, username: string, newPassword: string, oldPassword: string)
    | Respond(status: int, body: Body)                        // an HTTP status and body written
    | Email(to: string, username: string)                     // a confirmation e-mail attempt
    | Fatal(error: Error)                                     // log.Fatalf: the process exits

  /** Mutations of a server's credentials. */
  predicate IsReset(e: Event)
  {
    e.ResetPrimary? || e.ResetReplica?
  }

  /** Round trips to the credential store or to a target server. */
  predicate IsServerCall(e: Event)
  {
    e.ValidateCredentials? || e.CheckExpiration? || e.Open? || e.Ping? ||
    e.FindServers? || e.ResetPrimary? || e.ResetReplica?
  }

  /** Concatenation is associative (a step the solver finds costly on its own). */
  lemma AppendAssoc<T>(a: seq<T>, b: seq<T>, c: seq<T>)
    ensures (a + b) + c == a + (b + c)
  {
  }

  /** The kinds of effect the properties single out. */
  datatype Kind = Opened | Responded | Emailed | ReplicaReset | Audited

  predicate Of(e: Event, k: Kind)
  {
    match k
    case Opened => e.Open?
    case Responded => e.Respond?
    case Emailed => e.Email?
    case ReplicaReset => e.ResetReplica?
    case Audited => e.Audit?
  }

  function Keep(e: Event, k: Kind): seq<Event>
  {
    if Of(e, k) then [e] else []
  }

  /** The events of kind `k` in `t`, in trace order. */
  function Only(t: seq<Event>, k: Kind): seq<Event>
  {
    if t == [] then [] else Only(t[..|t| - 1], k) + Keep(t[|t| - 1], k)
  }

  /** Selection distributes over concatenation. */
  lemma {:induction false} OnlyAppend(a: seq<Event>, b: seq<Event>, k: Kind)
    ensures Only(a + b, k) == Only(a, k) + Only(b, k)
    decreases |b|
  {
    if b == [] {
      assert a + b == a;
    } else {
      var b' := b[..|b| - 1];
      assert (a + b)[..|a + b| - 1] == a + b';
      OnlyAppend(a, b', k);
    }
  }

  // Selections of a trace that is a short literal, event by event, for every
  // kind at once. The trace is a parameter so that callers state the facts
  // about their own trace, and establish that it is the literal only once.

  lemma OnlyOne(t: seq<Event>, a: Event)
    requires t == [a]
    ensures forall k: Kind :: Only(t, k) == Keep(a, k)
  {
    assert t[..0] == [];
  }

  lemma OnlyTwo(t: seq<Event>, a: Event, b: Event)
    requires t == [a, b]
    ensures forall k: Kind :: Only(t, k) == Keep(a, k) + Keep(b, k)
  {
    OnlyOne(t[..1], a);
  }

  lemma OnlyThree(t: seq<Event>, a: Event, b: Event, c: Event)
    requires t == [a, b, c]
    ensures forall k: Kind :: Only(t, k) == Keep(a, k) + Keep(b, k) + Keep(c, k)
  {
    OnlyTwo(t[..2], a, b);
  }

  lemma OnlyFour(t: seq<Event>, a: Event, b: Event, c: Event, d: Event)
    requires t == [a, b, c, d]
    ensures forall k: Kind :: Only(t, k) == Keep(a, k) + Keep(b, k) + Keep(c, k) + Keep(d, k)
  {
    OnlyThree(t[..3], a, b, c);
  }

  lemma OnlyFive(t: seq<Event>, a: Event, b: Event, c: Event, d: Event, e: Event)
    requires t == [a, b, c, d, e]
    ensures forall k: Kind :: Only(t, k) == Keep(a, k) + Keep(b, k) + Keep(c, k) + Keep(d, k) + Keep(e, k)
  {
    OnlyFour(t[..4], a, b, c, d);
  }

  lemma OnlySix(t: seq<Event>, a: Event, b: Event, c: Event, d: Event, e: Event, f: Event)
    requires t == [a, b, c, d, e, f]
    ensures forall k: Kind :: Only(t, k) == Keep(a, k) + Keep(b, k) + Keep(c, k) + Keep(d, k) + Keep(e, k) + Keep(f, k)
  {
    OnlyFive(t[..5], a, b, c, d, e);
  }

  lemma OnlySeven(t: seq<Event>, a: Event, b: Event, c: Event, d: Event, e: Event, f: Event, g: Event)
    requires t == [a, b, c, d, e, f, g]
    ensures forall k: Kind :: Only(t, k) == Keep(a, k) + Keep(b, k) + Keep(c, k) + Keep(d, k) + Keep(e, k) + Keep(f, k) + Keep(g, k)
  {
    OnlySix(t[..6], a, b, c, d, e, f);
  }
}
