/**
 * The credential-store gateway (go-backend/internals/pkg/auth.go).
 *
 * The SQL each helper sends is foreign code: what the driver hands back
 * (a scanned value, a connection outcome, the rows of a query) is an input
 * here, and each helper is the decision it makes over that input.
 */
module Auth {
  import opened Wrappers
  import opened Errors
  import opened Events

  /** Go's `(bool, error)` result pair. */
  datatype Checked = Checked(ok: bool, err: Option<Error>)

  /**
   * Check_user_credentials: the scan of the @IsValid output bit either fails
   * (no row, NULL, driver error) or yields the bit.
   */
  function CheckUserCredentials(scan: Result<bool, Error>): (r: Checked)
    ensures r.err.Some? <==> scan.Failure?
    ensures scan.Failure? ==> r.err == Some(scan.error) && !r.ok
    ensures r.ok <==> scan == Ok(true)
  {
    match scan
    case Failure(e) => Checked(false, Some(e))
    case Ok(isValidUser) => Checked(isValidUser, None)
  }

  /** The two nullable output bits of dbo.CheckLoginExpiration. */
  datatype ExpirationRow = ExpirationRow(isExpired: Option<bool>, isValid: Option<bool>)

  /**
   * CheckLoginExpiration: a missing row, a driver error, a NULL bit and an
   * expired or invalid login are each an error; there is no (false, nil).
   */
  function CheckLoginExpiration(scan: Result<ExpirationRow, Error>): (r: Checked)
    ensures r.ok <==> scan == Ok(ExpirationRow(Some(false), Some(true)))
    ensures r.ok <==> r.err.None?
    ensures scan == Failure(ErrNoRows) ==> r.err == Some(Message("login does not exist"))
    ensures scan.Failure? && scan.error != ErrNoRows ==> r.err == Some(scan.error)
    ensures scan.Ok? && (scan.value.isExpired.None? || scan.value.isValid.None?) ==>
              r.err == Some(Message("failed to retrieve login expiration status"))
    ensures scan.Ok? && scan.value.isExpired.Some? && scan.value.isValid.Some? && !r.ok ==>
              r.err == Some(Message("login expired or invalid"))
  {
    match scan
    case Failure(e) =>
      if e == ErrNoRows then Checked(false, Some(Message("login does not exist")))
      else Checked(false, Some(e))
    case Ok(row) =>
      if row.isValid.None? || row.isExpired.None? then
        Checked(false, Some(Message("failed to retrieve login expiration status")))
      else if !row.isValid.value || row.isExpired.value then
        Checked(false, Some(Message("login expired or invalid")))
      else
        Checked(true, None)
  }

  /** The verdict of CheckOldPassword and the connection calls it made. */
  datatype OldPasswordCheck = OldPasswordCheck(result: Checked, calls: seq<Event>)

  /**
   * CheckOldPassword: open a connection to `serverIP` as the user with the
   * old password, then ping it; success of both is the proof of validity.
   * `open` and `ping` are the driver's answers, `port` is MS_DB_PORT.
   */
  function CheckOldPassword(username: string, serverIP: string, oldPassword: string, database: string,
                            port: string, open: Option<Error>, ping: Option<Error>): (r: OldPasswordCheck)
    ensures r.result.ok <==> open.None? && ping.None?
    ensures r.result.ok <==> r.result.err.None?
    ensures open.Some? ==> r.result.err == open
    ensures open.None? ==> r.result.err == ping
    ensures var dsn := Dsn(serverIP, username, oldPassword, port, database);
            |r.calls| == (if open.Some? then 1 else 2) && r.calls[0] == Open(dsn) &&
            (forall e | e in r.calls :: e == Open(dsn) || e == Ping(dsn)) &&
            (Ping(dsn) in r.calls <==> open.None?)
  {
    var dsn := Dsn(serverIP, username, oldPassword, port, database);
    if open.Some? then
      OldPasswordCheck(Checked(false, open), [Open(dsn)])
    else if ping.Some? then
      OldPasswordCheck(Checked(false, ping), [Open(dsn), Ping(dsn)])
    else
      OldPasswordCheck(Checked(true, None), [Open(dsn), Ping(dsn)])
  }

  /**
   * What EXEC FindRelatedServers hands back: the query fails outright, or
   * it yields one scan outcome per row followed by rows.Err().
   */
  datatype ServerRows =
    | QueryFailed(error: Error)
    | Fetched(scans: seq<Result<string, Error>>, iterationError: Option<Error>)

  /** Row k is the first row whose scan fails. */
  ghost predicate FirstBadScan(scans: seq<Result<string, Error>>, k: int)
  {
    0 <= k < |scans| && scans[k].Failure? && forall j | 0 <= j < k :: scans[j].Ok?
  }

  /** Every row's value in row order, or the first scan error. */
  function ScanAll(scans: seq<Result<string, Error>>): (r: Result<seq<string>, Error>)
    ensures r.Ok? <==> forall i | 0 <= i < |scans| :: scans[i].Ok?
    ensures r.Ok? ==> |r.value| == |scans| && forall i | 0 <= i < |scans| :: scans[i] == Ok(r.value[i])
    ensures forall k | FirstBadScan(scans, k) :: r == Failure(scans[k].error)
  {
    if scans == [] then Ok([])
    else
      match scans[0]
      case Failure(e) => Failure(e)
      case Ok(server) =>
        var rest := ScanAll(scans[1..]);
        assert forall k | FirstBadScan(scans, k) :: k > 0 && FirstBadScan(scans[1..], k - 1);
        match rest
        case Failure(e) => Failure(e)
        case Ok(servers) => Ok([server] + servers)
  }

  /**
   * The specification of FindRelatedServers: the servers in row order, or
   * (nil, err) on the first error of the query, a scan or the iteration.
   */
  function RelatedServers(query: ServerRows): (r: (seq<string>, Option<Error>))
    ensures r.1.Some? ==> r.0 == []
    ensures r.1.None? <==>
              query.Fetched? && query.iterationError.None? &&
              forall i | 0 <= i < |query.scans| :: query.scans[i].Ok?
    ensures r.1.None? ==>
              |r.0| == |query.scans| && forall i | 0 <= i < |r.0| :: query.scans[i] == Ok(r.0[i])
    ensures query.QueryFailed? ==> r.1 == Some(query.error)
    ensures query.Fetched? ==>
              forall k | FirstBadScan(query.scans, k) :: r.1 == Some(query.scans[k].error)
    ensures query.Fetched? && (forall i | 0 <= i < |query.scans| :: query.scans[i].Ok?) ==>
              r.1 == query.iterationError
  {
    match query
    case QueryFailed(e) => ([], Some(e))
    case Fetched(scans, iterationError) =>
      match ScanAll(scans)
      case Failure(e) => ([], Some(e))
      case Ok(servers) =>
        if iterationError.Some? then ([], iterationError) else (servers, None)
  }

  /** FindRelatedServers: the rows.Next() loop, bailing out on the first error. */
  method FindRelatedServers(query: ServerRows) returns (servers: seq<string>, err: Option<Error>)
    ensures (servers, err) == RelatedServers(query)
  {
    if query.QueryFailed? {
      return [], Some(query.error);
    }
    var scans := query.scans;
    servers := [];
    var i := 0;
    while i < |scans|
      invariant 0 <= i <= |scans|
      invariant |servers| == i
      invariant forall j | 0 <= j < i :: scans[j] == Ok(servers[j])
    {
      match scans[i]
      case Failure(e) =>
        assert FirstBadScan(scans, i);
        return [], Some(e);
      case Ok(server) =>
        servers := servers + [server];
      i := i + 1;
    }
    ghost var all := ScanAll(scans);
    assert all.value == servers by {
      assert forall j | 0 <= j < |scans| :: all.value[j] == servers[j];
    }
    if query.iterationError.Some? {
      return [], query.iterationError;
    }
    err := None;
  }
}
