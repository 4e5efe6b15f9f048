/**
 * The decision logic of the daemon's HTTP front end: who may call a
 * command (`Command.canAccess`), which handler a request reaches
 * (`Command.ServeHTTP`), and how the graceful-shutdown wrapper tracks and
 * evicts connections (`shutdownServer.trackConn` and the first phase of
 * `finishShutdown`).
 */
module Daemon {
  import opened Wrappers

  /** An authenticated user found in the request (the auth store is not modelled). */
  datatype User = User(id: nat)

  /** Outcome of `ucrednetGet(r.RemoteAddr)`: peer credentials of the socket caller. */
  datatype PeerCred =
    | Ucred(pid: int, uid: nat)   // lookup succeeded
    | NoID                         // `errNoID`: no credentials (the snap socket)
    | UcredError                   // any other lookup error

  /** Outcome of `polkitCheckAuthorizationForPid`. */
  datatype PolkitVerdict =
    | Authorized       // err == nil, authorized == true
    | NotAuthorized    // err == nil, authorized == false
    | Dismissed        // polkit.ErrDismissed
    | PolkitError      // any other error

  /** The polkit check as a function of the caller's pid and the action ID. */
  type PolkitCheck = (int, string) -> PolkitVerdict

  /** The parts of an HTTP request the decisions look at. */
  datatype Request = Request(verb: string, peer: PeerCred)

  /** Identifies a per-verb `ResponseFunc`; `None` stands for a nil one. */
  type HandlerId = nat

  datatype Command = Command(
    path: string,
    get: Option<HandlerId>,
    put: Option<HandlerId>,
    post: Option<HandlerId>,
    delete: Option<HandlerId>,
    guestOK: bool,    // can guest GET?
    userOK: bool,     // can non-admin GET?
    snapOK: bool,     // is the path accessible on the snap socket?
    polkitOK: string  // polkit action ID, or "" when polkit cannot grant access
  )

  /** What `ServeHTTP` writes back. `Handled` means the command's handler ran. */
  datatype Response =
    | Unauthorized(message: string)
    | MethodNotAllowed(verb: string)
    | Handled(handler: HandlerId, user: Option<User>)

  /** The final GET-only check of `canAccess`, once the privileged paths are exhausted. */
  predicate ReadAllowed(c: Command, verb: string, isUser: bool)
  {
    verb == "GET" && ((isUser && c.userOK) || c.guestOK)
  }

  /** `Command.canAccess`: decides whether the request is admitted. */
  function CanAccess(c: Command, r: Request, user: Option<User>, polkit: PolkitCheck): (ok: bool)
    // authenticated users do anything
    ensures user.Some? ==> ok
    // the superuser does anything
    ensures r.peer.Ucred? && r.peer.uid == 0 ==> ok
    // an unexpected credential error denies everything but an authenticated user
    ensures r.peer.UcredError? ==> (ok <==> user.Some?)
    // no credentials on a SnapOK command: every method
    ensures r.peer.NoID? && c.snapOK ==> ok
    // polkit can only grant, and only when the command names an action
    ensures ok && user.None? && r.peer.Ucred? && r.peer.uid != 0 && !ReadAllowed(c, r.verb, true) ==>
              c.polkitOK != "" && polkit(r.peer.pid, c.polkitOK) == Authorized
    // apart from the privileged paths only GET gets through
    ensures ok && r.verb != "GET" ==>
              user.Some? || r.peer.Ucred? || (r.peer.NoID? && c.snapOK)
  {
    if user.Some? then true
    else
      match r.peer
      case Ucred(pid, uid) =>
        if uid == 0 then true
        else if c.polkitOK != "" && polkit(pid, c.polkitOK) == Authorized then true
        else ReadAllowed(c, r.verb, true)
      case NoID =>
        if c.snapOK then true else ReadAllowed(c, r.verb, false)
      case UcredError => false
  }

  /**
   * The reasons a request may be admitted, stated each on its own.
   * `CanAccessAdmits` shows `CanAccess` holds exactly when one of them does.
   */
  predicate Admitted(c: Command, r: Request, user: Option<User>, polkit: PolkitCheck)
  {
    || user.Some?
    || (r.peer.Ucred? && r.peer.uid == 0)
    || (r.peer.Ucred? && c.polkitOK != "" && polkit(r.peer.pid, c.polkitOK) == Authorized)
    || (r.peer.NoID? && c.snapOK)
    || (r.verb == "GET" && r.peer.Ucred? && c.userOK)
    || (r.verb == "GET" && !r.peer.UcredError? && c.guestOK)
  }

  lemma CanAccessAdmits(c: Command, r: Request, user: Option<User>, polkit: PolkitCheck)
    ensures CanAccess(c, r, user, polkit) <==> Admitted(c, r, user, polkit)
  {
  }

  /** Every non-GET request from a caller that is neither authenticated, root, polkit-authorized nor a SnapOK snap-socket caller is denied. */
  lemma NonGetNeedsPrivilege(c: Command, r: Request, user: Option<User>, polkit: PolkitCheck)
    requires r.verb != "GET" && user.None?
    requires !(r.peer.Ucred? && r.peer.uid == 0)
    requires !(r.peer.Ucred? && c.polkitOK != "" && polkit(r.peer.pid, c.polkitOK) == Authorized)
    requires !(r.peer.NoID? && c.snapOK)
    ensures !CanAccess(c, r, user, polkit)
  {
  }

  /** For GET, `UserOK` admits only callers with credentials; `GuestOK` admits every caller reaching that check. */
  lemma GetFlags(c: Command, r: Request, polkit: PolkitCheck)
    requires r.verb == "GET"
    ensures r.peer.Ucred? && c.userOK ==> CanAccess(c, r, None, polkit)
    ensures r.peer.NoID? && !c.snapOK ==> (CanAccess(c, r, None, polkit) <==> c.guestOK)
    ensures !r.peer.UcredError? && c.guestOK ==> CanAccess(c, r, None, polkit)
  {
  }

  /** Polkit is never consulted for a command without a polkit action, and its errors never grant access. */
  lemma PolkitOnlyGrants(c: Command, r: Request, user: Option<User>, p1: PolkitCheck, p2: PolkitCheck)
    requires r.peer.Ucred? ==> p1(r.peer.pid, c.polkitOK) != Authorized || c.polkitOK == ""
    requires r.peer.Ucred? ==> p2(r.peer.pid, c.polkitOK) != Authorized || c.polkitOK == ""
    ensures CanAccess(c, r, user, p1) == CanAccess(c, r, user, p2)
  {
  }

  /** The command's handler for a verb; `None` for a nil handler or a verb outside GET/PUT/POST/DELETE. */
  function HandlerFor(c: Command, verb: string): Option<HandlerId>
  {
    if verb == "GET" then c.get
    else if verb == "PUT" then c.put
    else if verb == "POST" then c.post
    else if verb == "DELETE" then c.delete
    else None
  }

  /** `Command.ServeHTTP` after the user lookup: access check, then verb dispatch. */
  function ServeHTTP(c: Command, r: Request, user: Option<User>, polkit: PolkitCheck): (rsp: Response)
    // exactly the denied requests get Unauthorized, and no handler runs for them
    ensures rsp.Unauthorized? <==> !CanAccess(c, r, user, polkit)
    ensures rsp.Unauthorized? ==> rsp.message == "access denied"
    // a handler runs only for an admitted request, with the user passed along
    ensures rsp.Handled? ==>
              CanAccess(c, r, user, polkit) && rsp.user == user &&
              r.verb in {"GET", "PUT", "POST", "DELETE"}
    ensures rsp.Handled? && r.verb == "GET" ==> c.get == Some(rsp.handler)
    ensures rsp.Handled? && r.verb == "PUT" ==> c.put == Some(rsp.handler)
    ensures rsp.Handled? && r.verb == "POST" ==> c.post == Some(rsp.handler)
    ensures rsp.Handled? && r.verb == "DELETE" ==> c.delete == Some(rsp.handler)
    // an admitted request with an unknown verb, or a nil handler, is not allowed
    ensures CanAccess(c, r, user, polkit) && r.verb !in {"GET", "PUT", "POST", "DELETE"} ==>
              rsp == MethodNotAllowed(r.verb)
    ensures CanAccess(c, r, user, polkit) && r.verb == "GET" && c.get.None? ==>
              rsp == MethodNotAllowed(r.verb)
    ensures CanAccess(c, r, user, polkit) && r.verb == "PUT" && c.put.None? ==>
              rsp == MethodNotAllowed(r.verb)
    ensures CanAccess(c, r, user, polkit) && r.verb == "POST" && c.post.None? ==>
              rsp == MethodNotAllowed(r.verb)
    ensures CanAccess(c, r, user, polkit) && r.verb == "DELETE" && c.delete.None? ==>
              rsp == MethodNotAllowed(r.verb)
    // an admitted request with a handler for its verb runs it, with the request's user
    ensures CanAccess(c, r, user, polkit) && r.verb == "GET" && c.get.Some? ==>
              rsp == Handled(c.get.value, user)
    ensures CanAccess(c, r, user, polkit) && r.verb == "PUT" && c.put.Some? ==>
              rsp == Handled(c.put.value, user)
    ensures CanAccess(c, r, user, polkit) && r.verb == "POST" && c.post.Some? ==>
              rsp == Handled(c.post.value, user)
    ensures CanAccess(c, r, user, polkit) && r.verb == "DELETE" && c.delete.Some? ==>
              rsp == Handled(c.delete.value, user)
    ensures rsp.MethodNotAllowed? ==> rsp.verb == r.verb
  {
    if !CanAccess(c, r, user, polkit) then Unauthorized("access denied")
    else
      match HandlerFor(c, r.verb)
      case Some(h) => Handled(h, user)
      case None => MethodNotAllowed(r.verb)
  }

  /** A plain user without an authenticated user and without polkit can never reach a mutating handler. */
  lemma PlainUserCannotMutate(c: Command, r: Request, pid: int, uid: nat, polkit: PolkitCheck)
    requires r.peer == Ucred(pid, uid) && uid != 0
    requires c.polkitOK == ""
    requires r.verb != "GET"
    ensures ServeHTTP(c, r, None, polkit) == Unauthorized("access denied")
  {
  }

  // ---------------------------------------------------------------------
  // Connection tracking for graceful shutdown

  /** `http.ConnState`. */
  datatype ConnState = StateNew | StateActive | StateIdle | StateHijacked | StateClosed

  /** A network connection, identified by what `net.Conn` identity gives. */
  datatype Conn = Conn(id: nat)

  /** The `conns` map after `trackConn(conn, state)`. */
  function Tracked(conns: map<Conn, ConnState>, shuttingDown: bool, conn: Conn, state: ConnState)
    : (m: map<Conn, ConnState>)
    // nothing but the entry for `conn` changes
    ensures forall c :: c != conn ==> (c in m <==> c in conns)
    ensures forall c :: c in m && c != conn ==> m[c] == conns[c]
    // closed and hijacked connections are forgotten, idle ones too once shutting down
    ensures conn in m <==>
              state != StateClosed && state != StateHijacked && !(shuttingDown && state == StateIdle)
    ensures conn in m ==> m[conn] == state
  {
    if state == StateClosed || state == StateHijacked then conns - {conn}
    else if shuttingDown && state == StateIdle then conns - {conn}
    else conns[conn := state]
  }

  /** The connections `trackConn` closes itself: idle ones reported while shutting down. */
  function ClosedByTrack(shuttingDown: bool, conn: Conn, state: ConnState): (s: set<Conn>)
    ensures s == {} || s == {conn}
    ensures conn in s <==> shuttingDown && state == StateIdle
  {
    if state == StateClosed || state == StateHijacked then {}
    else if shuttingDown && state == StateIdle then {conn}
    else {}
  }

  /** The `conns` map once the idle connections have been evicted. */
  function WithoutIdle(conns: map<Conn, ConnState>): (m: map<Conn, ConnState>)
    ensures forall c :: c in m <==> c in conns && conns[c] != StateIdle
    ensures forall c :: c in m ==> m[c] == conns[c]
  {
    map c | c in conns && conns[c] != StateIdle :: conns[c]
  }

  /** The idle connections of `conns`. */
  function IdleConns(conns: map<Conn, ConnState>): (s: set<Conn>)
    ensures forall c :: c in s <==> c in conns && conns[c] == StateIdle
  {
    set c | c in conns && conns[c] == StateIdle
  }

  /**
   * What the tracking keeps true: closed and hijacked connections are never
   * remembered, and once shutting down no idle connection is either.
   */
  predicate TrackingInvariant(conns: map<Conn, ConnState>, shuttingDown: bool)
  {
    forall c :: c in conns ==>
      conns[c] != StateClosed && conns[c] != StateHijacked &&
      (shuttingDown ==> conns[c] != StateIdle)
  }

  lemma TrackedKeepsInvariant(conns: map<Conn, ConnState>, shuttingDown: bool, conn: Conn, state: ConnState)
    requires TrackingInvariant(conns, shuttingDown)
    ensures TrackingInvariant(Tracked(conns, shuttingDown, conn, state), shuttingDown)
  {
  }

  lemma WithoutIdleEstablishesInvariant(conns: map<Conn, ConnState>, shuttingDown: bool)
    requires TrackingInvariant(conns, shuttingDown)
    ensures TrackingInvariant(WithoutIdle(conns), true)
  {
  }

  /** `shutdownServer`: the connection bookkeeping beside an `http.Server`. */
  class ShutdownServer {
    var conns: map<Conn, ConnState>
    var shuttingDown: bool
    /** Connections on which this server has called `Close`. */
    var closed: set<Conn>

    ghost predicate Valid()
      reads this
    {
      TrackingInvariant(conns, shuttingDown)
    }

    /** `newShutdownServer`: an empty connection map, not shutting down. */
    constructor ()
      ensures Valid()
      ensures conns == map[] && !shuttingDown && closed == {}
    {
      conns := map[];
      shuttingDown := false;
      closed := {};
    }

    /** `trackConn`: the `http.Server` reports a connection state change. */
    method TrackConn(conn: Conn, state: ConnState)
      requires Valid()
      modifies this
      ensures Valid()
      ensures conns == Tracked(old(conns), old(shuttingDown), conn, state)
      ensures shuttingDown == old(shuttingDown)
      ensures closed == old(closed) + ClosedByTrack(old(shuttingDown), conn, state)
    {
      if state == StateClosed || state == StateHijacked {
        conns := conns - {conn};
        return;
      }
      if shuttingDown && state == StateIdle {
        closed := closed + {conn};
        conns := conns - {conn};
        return;
      }
      conns := conns[conn := state];
    }

    /**
     * The first phase of `finishShutdown`: mark the server as shutting down
     * and close and forget every idle connection. `drained` is true when no
     * connection is left, in which case `finishShutdown` returns nil at once.
     */
    method FinishShutdown() returns (drained: bool)
      requires Valid()
      modifies this
      ensures Valid() && shuttingDown
      ensures conns == WithoutIdle(old(conns))
      ensures closed == old(closed) + IdleConns(old(conns))
      ensures drained <==> conns == map[]
    {
      shuttingDown := true;
      var pending := conns.Keys;
      while pending != {}
        invariant pending <= old(conns).Keys
        invariant forall c :: c in conns <==> c in old(conns) && (c in pending || old(conns)[c] != StateIdle)
        invariant forall c :: c in conns ==> conns[c] == old(conns)[c]
        invariant closed == old(closed) + (IdleConns(old(conns)) - pending)
        invariant shuttingDown
        decreases pending
      {
        var c :| c in pending;
        if conns[c] == StateIdle {
          closed := closed + {c};
          conns := conns - {c};
        }
        pending := pending - {c};
      }
      drained := |conns| == 0;
    }
  }
}
