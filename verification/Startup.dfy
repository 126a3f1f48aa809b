/** The start of a session (sections 55.2.1 and 55.2.10 of the PostgreSQL 16 documentation):
    encryption negotiation with the client, and connecting to the backend. */
module Startup {
  import opened Basics

  datatype Target = Target(network: string, addr: string)

  /** A backend, and whether its CA file, if it names one, can be loaded. */
  datatype DBConfig = DBConfig(addr: string, dbName: string, tlsUsable: bool)

  datatype StartupMessage = StartupMessage(version: nat, params: map<string, string>)

  predicate HasPrefix(s: string, p: string) {
    p <= s
  }

  function TargetFor(addr: string): Target {
    if HasPrefix(addr, "/") then Target("unix", addr)
    else if HasPrefix(addr, "unix:") then Target("unix", addr[5..])
    else Target("tcp", addr)
  }

  /** A path, or anything behind "unix:", is a unix socket; every other address is dialled by TCP. */
  lemma TargetForIs(rest: string, addr: string)
    requires (addr == "" || addr[0] != '/') && (|addr| < 5 || addr[..5] != "unix:")
    ensures TargetFor("/" + rest) == Target("unix", "/" + rest)
    ensures TargetFor("unix:" + rest) == Target("unix", rest)
    ensures TargetFor(addr) == Target("tcp", addr)
  {
    assert ("unix:" + rest)[5..] == rest;
    assert ("unix:" + rest)[0] == 'u';
  }

  /** A start-up parameter; absent is empty. */
  function Param(sm: StartupMessage, name: string): string {
    if name in sm.params then sm.params[name] else ""
  }

  // ---------------------------------------------------------------- with the client

  type Secret = n: nat | n < 0x1_0000_0000

  datatype CancelKey = CancelKey(pid: nat, secret: Secret)

  /** What arrives on a fresh connection, with how the proxy's answer to it fares. */
  datatype Packet =
    | SSLRequest(answered: bool, handshake: bool)
    | GSSEncRequest(answered: bool)
    | StartUp(sm: StartupMessage)
    | Cancel(key: CancelKey)
    | Broken

  datatype Opening = Failed | Opened(packet: Packet)

  /** The TLS handshake that follows an accepted SSLRequest goes through. */
  predicate Shakes(tls: bool, p: Packet) {
    tls && p.SSLRequest? ==> p.handshake
  }

  /** `readStartupMessage`: negotiation requests are answered in order, one byte each, 'S' just
      for an SSLRequest with TLS configured, until the first packet of another kind; that packet
      is the result. The connection is encrypted just when an SSLRequest was accepted. */
  method ReadStartupMessage(tls: bool, packets: seq<Packet>)
    returns (opening: Opening, answers: seq<char>, encrypted: bool)
    ensures |answers| <= |packets|
    ensures forall i | 0 <= i < |answers| ::
              && (packets[i].SSLRequest? || packets[i].GSSEncRequest?) && packets[i].answered
              && answers[i] == (if tls && packets[i].SSLRequest? then 'S' else 'N')
    ensures !tls ==> 'S' !in answers
    ensures forall i | 0 <= i < |answers| - 1 :: Shakes(tls, packets[i])
    ensures opening.Opened? ==>
              && |answers| < |packets| && opening.packet == packets[|answers|]
              && (opening.packet.StartUp? || opening.packet.Cancel?)
    ensures opening.Failed? ==>
              || |answers| == |packets|
              || packets[|answers|].Broken?
              || ((packets[|answers|].SSLRequest? || packets[|answers|].GSSEncRequest?) && !packets[|answers|].answered)
              || (|answers| > 0 && !Shakes(tls, packets[|answers| - 1]))
    ensures opening.Opened? && |answers| > 0 ==> Shakes(tls, packets[|answers| - 1])
    ensures opening.Opened? ==> (encrypted <==> tls && exists i | 0 <= i < |answers| :: packets[i].SSLRequest?)
  {
    answers, encrypted := [], false;
    var i := 0;
    while i < |packets|
      invariant 0 <= i == |answers| <= |packets|
      invariant forall j | 0 <= j < i ::
                  && (packets[j].SSLRequest? || packets[j].GSSEncRequest?) && packets[j].answered
                  && Shakes(tls, packets[j])
                  && answers[j] == if tls && packets[j].SSLRequest? then 'S' else 'N'
      invariant encrypted <==> tls && exists j | 0 <= j < i :: packets[j].SSLRequest?
    {
      match packets[i] {
        case SSLRequest(answered, handshake) =>
          if !answered {
            return Failed, answers, encrypted;
          }
          if !tls {
            answers := answers + ['N'];
          } else {
            answers := answers + ['S'];
            if !handshake {
              return Failed, answers, encrypted;
            }
            encrypted := true;
          }
        case GSSEncRequest(answered) =>
          if !answered {
            return Failed, answers, encrypted;
          }
          answers := answers + ['N'];
        case StartUp(_) => return Opened(packets[i]), answers, encrypted;
        case Cancel(_) => return Opened(packets[i]), answers, encrypted;
        case Broken => return Failed, answers, encrypted;
      }
      i := i + 1;
    }
    return Failed, answers, encrypted;
  }

  // ---------------------------------------------------------------- with the backend

  function Rewritten(sm: StartupMessage, db: DBConfig): StartupMessage {
    if db.dbName == "" then sm else sm.(params := sm.params["database" := db.dbName])
  }

  /** `rewriteStartupMessage`: a copy that differs at most in the database. */
  method RewriteStartupMessage(sm: StartupMessage, db: DBConfig) returns (r: StartupMessage)
    ensures r.version == sm.version
    ensures forall k | k != "database" :: (k in r.params <==> k in sm.params) && Param(r, k) == Param(sm, k)
    ensures db.dbName != "" ==> "database" in r.params && r.params["database"] == db.dbName
    ensures db.dbName == "" ==> r == sm
    ensures r == Rewritten(sm, db)
  {
    var params: map<string, string> := map[];
    var left := sm.params.Keys;
    while left != {}
      invariant left <= sm.params.Keys && params.Keys == sm.params.Keys - left
      invariant forall k <- params.Keys :: params[k] == sm.params[k]
    {
      var k :| k in left;
      params := params[k := sm.params[k]];
      left := left - {k};
    }
    assert params == sm.params;
    if db.dbName != "" {
      params := params["database" := db.dbName];
    }
    r := StartupMessage(sm.version, params);
  }

  /** How much of a message a write gets out; it fails unless that is the whole. */
  datatype Extent = Nothing | Part | Whole

  /** How the backend and the network behave while the proxy connects. */
  datatype Dial = Dial(reachable: bool, requestSent: bool, answer: Option<char>, startup: Extent)

  /** What goes out on a connection to a backend. */
  datatype Sent = SentSSLRequest | SentStartup(sm: StartupMessage, encrypted: bool, extent: Extent)

  datatype Connection = Connection(target: Target, open: bool, sent: seq<Sent>)

  /** `connectBackend`: an SSLRequest, the backend's one-byte answer, then the rewritten start-up
      message, encrypted just when the answer was 'S'. A connection that fails is closed; if
      anything of the client's has gone out on it then only part of that message, written last. */
  method ConnectBackend(db: DBConfig, sm: StartupMessage, d: Dial) returns (ok: bool, conn: Connection)
    ensures conn.target == TargetFor(db.addr)
    ensures ok <==> && d.reachable && d.requestSent && d.answer.Some?
                    && (d.answer == Some('S') ==> db.tlsUsable) && d.startup.Whole?
    ensures conn.open == ok
    ensures conn.sent ==
              if !d.reachable || !d.requestSent then []
              else if d.answer.None? || (d.answer == Some('S') && !db.tlsUsable) || d.startup.Nothing?
              then [SentSSLRequest]
              else [SentSSLRequest, SentStartup(Rewritten(sm, db), d.answer == Some('S'), d.startup)]
  {
    conn := Connection(TargetFor(db.addr), false, []);
    if !d.reachable {
      return false, conn;
    }
    conn := conn.(open := true);
    if !d.requestSent {
      conn := conn.(open := false);
      return false, conn;
    }
    conn := conn.(sent := conn.sent + [SentSSLRequest]);
    if d.answer.None? {
      conn := conn.(open := false);
      return false, conn;
    }
    var encrypted := false;
    if d.answer.value == 'S' {
      if !db.tlsUsable {
        conn := conn.(open := false);
        return false, conn;
      }
      encrypted := true;
    }
    var startup := RewriteStartupMessage(sm, db);
    if !d.startup.Nothing? {
      conn := conn.(sent := conn.sent + [SentStartup(startup, encrypted, d.startup)]);
    }
    if !d.startup.Whole? {
      conn := conn.(open := false);
      return false, conn;
    }
    return true, conn;
  }
}
