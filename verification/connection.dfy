/**
 * `get_connection`: the credential check that precedes every connect call,
 * and the call itself, whose outcome (the driver and the network are outside
 * the model) is an input.
 */
module Connection {
  import opened Wrappers

  /** Connection settings; host, port and database name have defaults, user and password none. */
  datatype Config = Config(
    host: string, port: string, dbname: string,
    user: Option<string>, password: Option<string>)

  /** The keyword arguments handed to the driver's connect call. */
  datatype ConnParams = ConnParams(host: string, port: string, dbname: string, user: string, password: string)

  /** What the driver's connect call does once it is reached. */
  datatype ConnectOutcome = Connected | ConnectRaised(message: string)

  /** An open connection, known by the parameters it was opened with. */
  datatype Conn = Conn(params: ConnParams)

  const MissingCredentialsMessage: string := "DB_USER and DB_PASSWORD environment variables must be set."

  /** Why no connection was obtained. */
  datatype ConnError = MissingCredentials | ConnectFailed(params: ConnParams, reason: string) {
    /** The exception text the callers put after their error prefix. */
    function Message(): string {
      match this
      case MissingCredentials => MissingCredentialsMessage
      case ConnectFailed(_, reason) => reason
    }
  }

  /** Python truthiness of an optional string: present and not empty. */
  predicate IsSet(v: Option<string>) {
    v.Some? && v.value != ""
  }

  /** The parameters handed to the driver, if the driver was called at all. */
  function Attempted(r: Result<Conn, ConnError>): Option<ConnParams> {
    match r
    case Success(conn) => Some(conn.params)
    case Failure(ConnectFailed(params, _)) => Some(params)
    case Failure(MissingCredentials) => None
  }

  /**
   * `get_connection`: an unset or empty user or password fails before the
   * driver is called; otherwise the driver is called once with the configured
   * parameters and its outcome decides.
   */
  function GetConnection(cfg: Config, outcome: ConnectOutcome): (r: Result<Conn, ConnError>)
    ensures Attempted(r).None? <==> !IsSet(cfg.user) || !IsSet(cfg.password)
    ensures Attempted(r).None? ==> r == Failure(MissingCredentials)
    ensures Attempted(r).Some? ==>
      Attempted(r).value == ConnParams(cfg.host, cfg.port, cfg.dbname, cfg.user.value, cfg.password.value) &&
      Attempted(r).value.user != "" && Attempted(r).value.password != ""
    ensures r.Success? <==> Attempted(r).Some? && outcome.Connected?
    ensures r.Failure? && Attempted(r).Some? ==> outcome == ConnectRaised(r.error.Message())
  {
    if !IsSet(cfg.user) || !IsSet(cfg.password) then
      Failure(MissingCredentials)
    else
      var params := ConnParams(cfg.host, cfg.port, cfg.dbname, cfg.user.value, cfg.password.value);
      match outcome
      case Connected => Success(Conn(params))
      case ConnectRaised(reason) => Failure(ConnectFailed(params, reason))
  }
}
