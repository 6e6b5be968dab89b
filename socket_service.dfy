/**
 * The client's single socket.io connection: the module holds at most one
 * socket, created on first initialisation, handed out by `getSocket`, and
 * dropped by `disconnectSocket`.
 */
module SocketService {
  import opened Wrappers

  const DefaultBackendUrl := "http://localhost:3000"
  const NotInitialized := "Socket not initialized!"

  /** `import.meta.env.VITE_BACKEND_URL || 'http://localhost:3000'`; None is an unset variable. */
  function BackendUrl(env: Option<string>): (url: string)
    ensures url != ""
    ensures env.Some? && env.value != "" ==> url == env.value
    ensures env.None? || env.value == "" ==> url == DefaultBackendUrl
  {
    if env.Some? && env.value != "" then env.value else DefaultBackendUrl
  }

  /**
   * A socket.io client handle: where it connects, whether it is still open
   * (created by `io` and not yet disconnected; the handshake is not
   * modelled), and the `disconnect` calls it received.
   */
  class Socket {
    const url: string
    var open: bool
    var disconnects: nat

    /** `io(url)` */
    constructor (url: string)
      ensures this.url == url && open && disconnects == 0
    {
      this.url := url;
      open := true;
      disconnects := 0;
    }

    /** `socket.disconnect()` */
    method Disconnect()
      modifies this
      ensures !open && disconnects == old(disconnects) + 1
    {
      open := false;
      disconnects := disconnects + 1;
    }
  }

  /** The module-level `let socket`, and how many times `io` has been called. */
  class SocketHolder {
    var socket: Socket?
    ghost var ioCalls: nat

    constructor ()
      ensures socket == null && ioCalls == 0
    {
      socket := null;
      ioCalls := 0;
    }

    /** initializeSocket: connects only when no socket is held, and returns the held one. */
    method InitializeSocket(env: Option<string>) returns (s: Socket)
      modifies this
      ensures socket == s
      ensures old(socket) != null ==> s == old(socket) && ioCalls == old(ioCalls)
      ensures old(socket) == null ==>
        fresh(s) && s.url == BackendUrl(env) && s.open && s.disconnects == 0
        && ioCalls == old(ioCalls) + 1
    {
      if socket == null {
        socket := new Socket(BackendUrl(env));
        ioCalls := ioCalls + 1;
      }
      s := socket;
    }

    /** getSocket: the held socket, or the "Socket not initialized!" error. */
    method GetSocket() returns (r: Result<Socket, string>)
      ensures socket == null ==> r == Failure(NotInitialized)
      ensures socket != null ==> r == Success(socket)
    {
      if socket == null {
        return Failure(NotInitialized);
      }
      return Success(socket);
    }

    /** disconnectSocket: disconnects the held socket once and forgets it; a no-op when none is held. */
    method DisconnectSocket()
      modifies this, socket
      ensures socket == null && ioCalls == old(ioCalls)
      ensures old(socket) != null ==>
        !old(socket).open && old(socket).disconnects == old(socket.disconnects) + 1
      ensures old(socket) == null ==> unchanged(this)
    {
      if socket != null {
        socket.Disconnect();
        socket := null;
      }
    }
  }

  /** Initialising twice yields one connection, and `getSocket` hands out that very handle. */
  method InitializeTwice(env: Option<string>) returns (first: Socket, second: Socket, got: Result<Socket, string>)
    ensures first == second && first.url == BackendUrl(env) && first.open
    ensures got == Success(first)
  {
    var service := new SocketHolder();
    first := service.InitializeSocket(env);
    second := service.InitializeSocket(env);
    got := service.GetSocket();
  }

  /** `getSocket` before any initialisation fails. */
  method GetBeforeInitialize() returns (r: Result<Socket, string>)
    ensures r == Failure(NotInitialized)
  {
    var service := new SocketHolder();
    r := service.GetSocket();
  }

  /**
   * After a disconnect `getSocket` fails, and the next initialisation opens
   * a new connection while the old handle stays closed.
   */
  method ReconnectCycle(env: Option<string>) returns (first: Socket, second: Socket, between: Result<Socket, string>)
    ensures first != second
    ensures !first.open && first.disconnects == 1
    ensures second.open && second.disconnects == 0
    ensures between == Failure(NotInitialized)
  {
    var service := new SocketHolder();
    first := service.InitializeSocket(env);
    service.DisconnectSocket();
    between := service.GetSocket();
    second := service.InitializeSocket(env);
  }
}
