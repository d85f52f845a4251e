/**
 * The audit writers (go-backend/internals/pkg/logging.go) and the
 * process-wide handles they and the handler act through.
 */
module Logging {
  import opened Wrappers
  import opened Errors
  import opened Events

  /** The operational-log entries a failed write leaves (nothing when it succeeded). */
  function Report(answer: Option<Error>): seq<Error>
  {
    if answer.Some? then [answer.value] else []
  }

  /**
   * Everything outside the handler that its actions reach, kept as one
   * ordered trace: CALLs to the audit store (the PostgreSQL handle `db`),
   * round trips to the credential store and the target servers, responses,
   * e-mails. The audit store's behaviour is an input: `auditFault(n)` is its
   * answer to the n-th CALL it receives; `reported` is what the writers sent
   * to the operational log.
   */
  class Effects {
    const auditFault: nat -> Option<Error>
    var trace: seq<Event>
    var audits: nat            // CALLs issued to the audit store so far
    var reported: seq<Error>   // what the audit writers sent to the operational log

    constructor (auditFault: nat -> Option<Error>)
      ensures this.auditFault == auditFault
      ensures trace == [] && audits == 0 && reported == []
    {
      this.auditFault := auditFault;
      trace := [];
      audits := 0;
      reported := [];
    }

    /** An effect other than an audit CALL. */
    method Record(e: Event)
      requires !e.Audit?
      modifies this
      ensures trace == old(trace) + [e]
      ensures audits == old(audits) && reported == old(reported)
    {
      trace := trace + [e];
    }

    /** db.Exec("CALL <procedure>($1, $2, $3, $4, $5)", …) on the audit store: the error comes back. */
    method Exec(call: AuditCall) returns (err: Option<Error>)
      modifies this
      ensures trace == old(trace) + [Audit(call)]
      ensures audits == old(audits) + 1
      ensures err == auditFault(old(audits))
      ensures reported == old(reported)
    {
      err := auditFault(audits);
      trace := trace + [Audit(call)];
      audits := audits + 1;
    }
  }

  /** One fire-and-forget CALL: a failure is reported to the operational log, never returned. */
  method Write(db: Effects, call: AuditCall)
    modifies db
    ensures db.trace == old(db.trace) + [Audit(call)]
    ensures db.audits == old(db.audits) + 1
    ensures db.reported == old(db.reported) + Report(db.auditFault(old(db.audits)))
  {
    var err := db.Exec(call);
    if err.Some? {
      db.reported := db.reported + [err.value];
    }
  }

  /** LogPasswordUpdate: exactly one CALL log_updates with the five arguments in order. */
  method LogPasswordUpdate(db: Effects, username: string, serverIP: string, requestType: string,
                           requestStatus: string, message: string)
    modifies db
    ensures db.trace == old(db.trace) + [Audit(AuditCall(LogUpdates, username, serverIP, requestType, requestStatus, message))]
    ensures db.audits == old(db.audits) + 1
    ensures db.reported == old(db.reported) + Report(db.auditFault(old(db.audits)))
  {
    Write(db, AuditCall(LogUpdates, username, serverIP, requestType, requestStatus, message));
  }

  /** LogStatus: exactly one CALL update_pass_reset_logs with the five arguments in order. */
  method LogStatus(db: Effects, username: string, serverIP: string, requestType: string,
                   requestStatus: string, message: string)
    modifies db
    ensures db.trace == old(db.trace) + [Audit(AuditCall(UpdatePassResetLogs, username, serverIP, requestType, requestStatus, message))]
    ensures db.audits == old(db.audits) + 1
    ensures db.reported == old(db.reported) + Report(db.auditFault(old(db.audits)))
  {
    Write(db, AuditCall(UpdatePassResetLogs, username, serverIP, requestType, requestStatus, message));
  }
}
