/** The browser-side log controller: a local newest-first list of entries and
    a socket to the log server that is opened lazily on the first log, counts
    its failed connection attempts and falls back to offline mode (no socket)
    when the count reaches `MaxReconnectAttempts`.

    The socket library is outside the model. A socket is `Some(connected)`;
    its `connect`, `connect_error` and `disconnect` events arrive as method
    calls. An event arriving while the controller holds no socket comes from
    a socket it has already dropped: its listeners still update the counter. */
module ClientLogs {
  import opened Wrappers
  import opened LogBuffer

  const MaxReconnectAttempts: nat := 5

  /** The connection part of the controller: its socket (absent, or present
      and connected or not), the failed-attempt counter and the flag raised
      while a socket is being created. */
  datatype Conn = Conn(socket: Option<bool>, attempts: nat, connecting: bool)

  /** `handleOfflineMode`: drop the socket and clear the connecting flag;
      the counter is left as it is. */
  function Offline(c: Conn): (r: Conn)
    ensures r.socket.None? && !r.connecting && r.attempts == c.attempts
  {
    c.(socket := None, connecting := false)
  }

  /** `initializeSocket` (which runs to completion without awaiting): nothing
      happens while a socket exists or one is being created; otherwise a new,
      not yet connected socket is made, or offline mode is entered when making
      it throws. The connecting flag is cleared on the way out. */
  function Initialize(c: Conn, creationFails: bool): Conn {
    if c.socket.Some? || c.connecting then c
    else
      var during := c.(connecting := true);
      var after := if creationFails then Offline(during) else during.(socket := Some(false));
      after.(connecting := false)
  }

  /** The `connect` event: the counter restarts at zero. */
  function Connected(c: Conn): Conn {
    c.(attempts := 0, socket := if c.socket.Some? then Some(true) else None)
  }

  /** The `connect_error` event: one more failed attempt, and offline mode
      when the counter becomes exactly `MaxReconnectAttempts`. */
  function ConnectError(c: Conn): Conn {
    var failed := c.(attempts := c.attempts + 1, socket := if c.socket.Some? then Some(false) else None);
    if failed.attempts == MaxReconnectAttempts then Offline(failed) else failed
  }

  /** The `disconnect` event. For a server-side disconnect the socket asks to
      reconnect, which completes later as a `connect` or `connect_error`. */
  function Disconnected(c: Conn): Conn {
    c.(socket := if c.socket.Some? then Some(false) else None)
  }

  /** The guard of `initializeSocket`: with a socket present or one being
      made nothing changes; otherwise the controller ends with a fresh,
      unconnected socket, or with none when creating it throws, and is no
      longer connecting. The counter is never touched. */
  lemma InitializeGuard(c: Conn, creationFails: bool)
    ensures c.socket.Some? || c.connecting ==> Initialize(c, creationFails) == c
    ensures c.socket.None? && !c.connecting ==>
      Initialize(c, creationFails) == c.(socket := if creationFails then None else Some(false))
    ensures Initialize(c, creationFails).attempts == c.attempts
  {
  }

  /** The counter rules: a `connect` restarts it at zero, a `connect_error`
      adds exactly one, and the error drops the socket exactly when the count
      reaches the limit (or there was none). */
  lemma CounterRules(c: Conn)
    ensures Connected(c).attempts == 0
    ensures ConnectError(c).attempts == c.attempts + 1
    ensures ConnectError(c).socket.None? <==> c.socket.None? || c.attempts + 1 == MaxReconnectAttempts
    ensures c.attempts + 1 == MaxReconnectAttempts ==> !ConnectError(c).connecting
  {
  }

  /** `n` consecutive `connect_error` events. */
  function Errors(c: Conn, n: nat): Conn
    decreases n
  {
    if n == 0 then c else Errors(ConnectError(c), n - 1)
  }

  /** Below the limit, failures only count up: the socket is kept. */
  lemma {:induction false} ErrorsBelowLimit(c: Conn, n: nat)
    requires c.attempts + n < MaxReconnectAttempts
    ensures Errors(c, n).attempts == c.attempts + n
    ensures Errors(c, n).socket.Some? == c.socket.Some?
    ensures Errors(c, n).connecting == c.connecting
    decreases n
  {
    if n > 0 {
      ErrorsBelowLimit(ConnectError(c), n - 1);
    }
  }

  /** From a fresh counter, the fifth consecutive failure, and no earlier
      one, drops the socket. */
  lemma FifthFailureGoesOffline(c: Conn)
    requires c.socket.Some? && c.attempts == 0
    ensures forall k :: 0 <= k < MaxReconnectAttempts ==> Errors(c, k).socket.Some?
    ensures Errors(c, MaxReconnectAttempts).socket.None?
    ensures Errors(c, MaxReconnectAttempts).attempts == MaxReconnectAttempts
  {
    forall k | 0 <= k < MaxReconnectAttempts ensures Errors(c, k).socket.Some? {
      ErrorsBelowLimit(c, k);
    }
    ErrorsBelowLimit(c, MaxReconnectAttempts - 1);
    var before := Errors(c, MaxReconnectAttempts - 1);
    ErrorsSnoc(c, MaxReconnectAttempts - 1);
    assert Errors(c, MaxReconnectAttempts) == ConnectError(before);
  }

  lemma {:induction false} ErrorsSnoc(c: Conn, n: nat)
    ensures Errors(c, n + 1) == ConnectError(Errors(c, n))
    decreases n
  {
    if n > 0 {
      ErrorsSnoc(ConnectError(c), n - 1);
    }
  }

  /** Past the limit the counter only grows and the test for exactly
      `MaxReconnectAttempts` never fires again: failures no longer drop the
      socket, however many there are. */
  lemma {:induction false} ErrorsPastLimit(c: Conn, n: nat)
    requires c.attempts >= MaxReconnectAttempts
    ensures Errors(c, n).attempts == c.attempts + n
    ensures Errors(c, n).socket.Some? == c.socket.Some?
    decreases n
  {
    if n > 0 {
      ErrorsPastLimit(ConnectError(c), n - 1);
    }
  }

  /** Offline mode keeps the counter, so after it the next socket never goes
      offline through failures: only a successful `connect` resets the count. */
  lemma OfflineNotReentered(c: Conn, n: nat)
    requires c.attempts >= MaxReconnectAttempts
    ensures var next := Initialize(Offline(c), false);
      next.socket == Some(false) && Errors(next, n).socket.Some?
  {
    ErrorsPastLimit(Initialize(Offline(c), false), n);
  }

  /** The state `addLog` leaves the connection in: it opens a socket when
      there is none and none is being made. */
  function AfterAddLog(c: Conn, creationFails: bool): Conn {
    if c.socket.None? && !c.connecting then Initialize(c, creationFails) else c
  }

  /** `addLog` sends the entry over the socket exactly when a connected
      socket was already there: a socket it opens itself is never connected
      yet, so that entry stays local. */
  lemma AddLogSendsOnlyWhenConnected(c: Conn, creationFails: bool)
    ensures AfterAddLog(c, creationFails).socket == Some(true) <==> c.socket == Some(true)
    ensures !c.connecting ==> AfterAddLog(c, creationFails).socket.Some? == !creationFails || c.socket.Some?
  {
  }

  /** What the controller sends over its socket. */
  datatype Outbound = ClientLog(entry: LogEntry) | ClearLogsRequest

  class LogController {
    var logs: seq<LogEntry>
    var socket: Option<bool>
    var reconnectAttempts: nat
    var isConnecting: bool
    /** Everything emitted over the socket so far, oldest first. */
    var sent: seq<Outbound>

    function State(): Conn
      reads this
    {
      Conn(socket, reconnectAttempts, isConnecting)
    }

    /** Between calls no socket is being created: `initializeSocket` clears
        the flag before it returns. */
    ghost predicate Valid()
      reads this
    {
      |logs| <= MaxLogs && !isConnecting
    }

    constructor()
      ensures Valid()
      ensures logs == [] && State() == Conn(None, 0, false) && sent == []
    {
      logs := [];
      socket := None;
      reconnectAttempts := 0;
      isConnecting := false;
      sent := [];
    }

    /** Also called half-way through `InitializeSocket`, while a socket is
        being created: it ends that attempt, so only the log bound is
        needed on entry. */
    method HandleOfflineMode()
      requires |logs| <= MaxLogs
      modifies this
      ensures Valid()
      ensures State() == Offline(old(State()))
      ensures logs == old(logs) && sent == old(sent)
    {
      socket := None;
      isConnecting := false;
    }

    method InitializeSocket(creationFails: bool)
      requires Valid()
      modifies this
      ensures Valid()
      ensures State() == Initialize(old(State()), creationFails)
      ensures logs == old(logs) && sent == old(sent)
    {
      if socket.Some? || isConnecting {
        return;
      }
      isConnecting := true;
      if creationFails {
        HandleOfflineMode();
      } else {
        socket := Some(false);
      }
      isConnecting := false;
    }

    /** The `connect` listener; `toastShown` is the "reconnected" notice,
        shown when there had been failed attempts. */
    method OnConnect() returns (toastShown: bool)
      requires Valid()
      modifies this
      ensures Valid()
      ensures State() == Connected(old(State()))
      ensures toastShown <==> old(reconnectAttempts) > 0
      ensures logs == old(logs) && sent == old(sent)
    {
      toastShown := reconnectAttempts > 0;
      reconnectAttempts := 0;
      if socket.Some? {
        socket := Some(true);
      }
    }

    /** The `connect_error` listener. */
    method OnConnectError()
      requires Valid()
      modifies this
      ensures Valid()
      ensures State() == ConnectError(old(State()))
      ensures logs == old(logs) && sent == old(sent)
    {
      reconnectAttempts := reconnectAttempts + 1;
      if socket.Some? {
        socket := Some(false);
      }
      if reconnectAttempts == MaxReconnectAttempts {
        HandleOfflineMode();
      }
    }

    /** The `disconnect` listener. */
    method OnDisconnect()
      requires Valid()
      modifies this
      ensures Valid()
      ensures State() == Disconnected(old(State()))
      ensures logs == old(logs) && sent == old(sent)
    {
      if socket.Some? {
        socket := Some(false);
      }
    }

    /** `addLog`: the entry goes in front of the local list (at most
        `MaxLogs` kept), a socket is opened if there is none, the entry is sent
        when the socket is connected, and `toastShown` is the error toast. */
    method AddLog(level: Level, message: string, source: Option<string>,
                  details: Option<string>, now: string, creationFails: bool)
      returns (sentNow: bool, toastShown: bool)
      requires Valid()
      modifies this
      ensures Valid()
      ensures logs == NewestFirst(old(logs), LogEntry(now, level, message, source, details), MaxLogs)
      ensures State() == AfterAddLog(old(State()), creationFails)
      ensures sentNow <==> State().socket == Some(true)
      ensures sent == old(sent) + if sentNow then [ClientLog(LogEntry(now, level, message, source, details))] else []
      ensures toastShown <==> level == Error
    {
      var log := LogEntry(now, level, message, source, details);
      logs := [log] + logs;
      if |logs| > MaxLogs {
        logs := logs[..MaxLogs];
      }
      if socket.None? && !isConnecting {
        InitializeSocket(creationFails);
      }
      sentNow := socket == Some(true);
      if sentNow {
        sent := sent + [ClientLog(log)];
      }
      toastShown := level == Error;
    }

    function GetLogs(): seq<LogEntry>
      reads this
    {
      logs
    }

    /** `clearLogs`: the local list is emptied and, when a socket exists, the
        server is asked to clear its store too. */
    method ClearLogs()
      requires Valid()
      modifies this
      ensures Valid()
      ensures logs == [] && State() == old(State())
      ensures sent == old(sent) + if socket.Some? then [ClearLogsRequest] else []
    {
      logs := [];
      if socket.Some? {
        sent := sent + [ClearLogsRequest];
      }
    }
  }
}
