/**
 * The SSE transport of `run_sse_server`, run one call at a time: the table
 * of connections (each a FIFO queue of serialised responses and an `active`
 * flag), the purge, stream admission with its cap, the broadcast of every
 * POSTed response, the per-stream drain and idle loop, and the teardown.
 * Threads, locks and the condition variable are left out: each operation is
 * one uninterrupted method call, and the ten-second wait is decided by the
 * state of the queue when the stream takes its next step.
 */
module Sse {
  import opened Json
  import Strings
  import opened Protocol
  import Server

  const MaxConnections: nat := 20
  const MaxIdle: nat := 3
  const EventStream: string := "text/event-stream"
  const EndpointEvent: string := "event: endpoint\ndata: /message\n\n"
  const Keepalive: string := ":keepalive\n\n"
  const HealthBody: string := "{\"status\":\"ok\"}"

  /** An SSE `data` event carrying one message. */
  function DataEvent(message: string): string
  {
    "data: " + message + "\n\n"
  }

  /** `SSEConnection`: the queue of messages waiting for the stream, and whether the stream is alive. */
  class Connection {
    var queue: seq<string>
    var active: bool

    constructor()
      ensures queue == [] && active
    {
      queue := [];
      active := true;
    }
  }

  // ---------------------------------------------------------------- the table

  /** The table without its inactive connections. */
  function Purge(m: map<string, Connection>): map<string, Connection>
    reads m.Values
  {
    map k | k in m && m[k].active :: m[k]
  }

  /** No connection object is listed under two ids. */
  ghost predicate Injective(m: map<string, Connection>)
  {
    forall i, j :: i in m && j in m && i != j ==> m[i] != m[j]
  }

  /** The id a new stream is listed under: the session id when one was sent, otherwise a fresh one. */
  function ConnectionId(sessionId: string, freshId: string): (id: string)
    ensures sessionId != "" ==> id == sessionId
    ensures sessionId == "" ==> id == freshId
  {
    if sessionId != "" then sessionId else freshId
  }

  /** The status a GET of the stream gets: 406 without the event-stream type, 503 at the cap, 200 otherwise. */
  function OpenStatus(accept: string, m: map<string, Connection>): int
    reads m.Values
  {
    if !Strings.Contains(accept, EventStream) then 406
    else if |Purge(m)| >= MaxConnections then 503
    else 200
  }

  lemma {:induction false} SubsetCard(a: set<string>, b: set<string>)
    requires a <= b
    ensures |a| <= |b|
    decreases |b|
  {
    if a != {} {
      var x :| x in a;
      SubsetCard(a - {x}, b - {x});
    }
  }

  /** The purge keeps exactly the active connections, each under its id, and never grows the table. */
  lemma PurgeSpec(m: map<string, Connection>)
    ensures forall k :: k in Purge(m) <==> k in m && m[k].active
    ensures forall k :: k in Purge(m) ==> Purge(m)[k] == m[k]
    ensures |Purge(m)| <= |m|
    ensures Purge(Purge(m)) == Purge(m)
    ensures Injective(m) ==> Injective(Purge(m))
  {
    assert Purge(m).Keys <= m.Keys;
    SubsetCard(Purge(m).Keys, m.Keys);
  }

  /** An admitted stream never takes the table past the cap, whether or not its id was taken. */
  lemma AdmissionRespectsCap(accept: string, m: map<string, Connection>, id: string, c: Connection)
    requires OpenStatus(accept, m) == 200
    ensures |Purge(m)[id := c]| <= MaxConnections
  {
    var p := Purge(m);
    if id in p {
      assert p[id := c].Keys == p.Keys;
    } else {
      assert p[id := c].Keys == p.Keys + {id};
    }
  }

  /** Erasing one id never grows the table. */
  lemma EraseCard(m: map<string, Connection>, id: string)
    ensures |m - {id}| <= |m|
  {
    assert (m - {id}).Keys <= m.Keys;
    SubsetCard((m - {id}).Keys, m.Keys);
  }

  /** The teardown as written: erase whatever is listed under the stream's id. */
  function Erased(m: map<string, Connection>, id: string): map<string, Connection>
  {
    m - {id}
  }

  /** The teardown as intended: erase the stream's id only while it still lists the stream's own connection. */
  function Released(m: map<string, Connection>, id: string, c: Connection): map<string, Connection>
  {
    if id in m && m[id] == c then m - {id} else m
  }

  /**
   * As written, a stream that was superseded under its id (a client that
   * reconnected with the same session id) evicts its successor when it tears
   * down: the successor stays active but is no longer listed, so no
   * broadcast reaches it.
   */
  lemma ErasedEvictsSuccessor(m: map<string, Connection>, id: string, stale: Connection)
    requires id in m && m[id] != stale
    ensures id !in Erased(m, id)
    ensures exists k :: k in m && m[k] != stale && k !in Erased(m, id)
  {
    assert id in m && m[id] != stale && id !in Erased(m, id);
  }

  /**
   * As intended, a teardown removes the stream's own connection and leaves
   * every other entry in place.
   */
  lemma ReleasedKeepsOthers(m: map<string, Connection>, id: string, c: Connection)
    requires Injective(m)
    ensures forall k :: k in m && m[k] != c ==> k in Released(m, id, c) && Released(m, id, c)[k] == m[k]
    ensures forall k :: k in Released(m, id, c) ==> k in m && Released(m, id, c)[k] == m[k]
    ensures id in m && m[id] == c ==> forall k :: k in Released(m, id, c) ==> Released(m, id, c)[k] != c
    ensures |Released(m, id, c)| <= |m|
  {
    EraseCard(m, id);
  }

  // ---------------------------------------------------------------- POST

  const ParseErrorPrefix: string := "Parse error: "

  /**
   * A POST to `/` or `/message`: the status, the body sent back, and the
   * engine state after it. A body that does not parse gets 400 and a parse
   * error envelope; anything else is answered by the engine with 200.
   */
  function PostReply(e: Engine, body: string, parse: Parse, dump: Dump): (int, string, Engine)
  {
    match parse(body)
    case Malformed(w) => (400, dump(ErrorResponse(-1, ParseError, ParseErrorPrefix + w)), e)
    case Parsed(request) =>
      var (response, e') := Respond(e, request, dump);
      (200, dump(response), e')
  }

  /** A body that does not parse leaves the engine as it was and is answered with a -32700 envelope for id -1. */
  lemma MalformedPost(e: Engine, body: string, parse: Parse, dump: Dump)
    requires parse(body).Malformed?
    ensures var (status, content, e') := PostReply(e, body, parse, dump);
      && status == 400 && e' == e
      && content == dump(ErrorResponse(-1, ParseError, ParseErrorPrefix + parse(body).what))
  {
  }

  /** A parsed body is answered with the serialised engine response, and the engine moves as `handle_message` does. */
  lemma ParsedPost(e: Engine, body: string, parse: Parse, dump: Dump)
    requires parse(body).Parsed?
    ensures var (status, content, e') := PostReply(e, body, parse, dump);
      && status == 200
      && content == dump(Respond(e, parse(body).value, dump).0)
      && e' == Respond(e, parse(body).value, dump).1
  {
  }

  // ---------------------------------------------------------------- the stream

  /** Everything one step of a stream reads or writes. */
  datatype StreamState = StreamState(queue: seq<string>, active: bool, idle: nat, output: seq<string>, ended: bool)

  /**
   * The drain loop: each message is taken off the front of the queue and
   * written; the sink accepts `accepted` more writes, and the first write it
   * refuses marks the connection inactive, that message being lost and the
   * rest left queued.
   */
  function Drain(s: StreamState, accepted: nat): StreamState
    decreases |s.queue|
  {
    if s.queue == [] then s
    else if accepted == 0 then s.(queue := s.queue[1..], active := false)
    else Drain(s.(queue := s.queue[1..], output := s.output + [DataEvent(s.queue[0])]), accepted - 1)
  }

  /**
   * One pass of the `while (conn->active)` loop. An inactive connection ends
   * the stream. A non-empty queue wakes the stream, which resets the idle
   * counter and drains; otherwise the wait times out, the counter goes up,
   * and the stream either closes (third idle period, or a refused keepalive)
   * or writes a keepalive. The stream ends when its connection has gone
   * inactive.
   */
  function StreamStep(s: StreamState, accepted: nat): StreamState
  {
    if !s.active then s.(ended := true)
    else if s.queue != [] then
      var d := Drain(s.(idle := 0), accepted);
      d.(ended := !d.active)
    else if s.idle + 1 >= MaxIdle || accepted == 0 then s.(idle := s.idle + 1, active := false, ended := true)
    else s.(idle := s.idle + 1, output := s.output + [Keepalive])
  }

  /** The data events for `q`, in order. */
  function Events(q: seq<string>): seq<string>
    decreases |q|
  {
    if q == [] then [] else [DataEvent(q[0])] + Events(q[1..])
  }

  /**
   * Draining delivers the queue in FIFO order: all of it when the sink
   * accepts enough writes, else the first `accepted` messages, after which
   * the connection is inactive and the refused message is gone.
   */
  lemma {:induction false} DrainSpec(s: StreamState, accepted: nat)
    ensures var d := Drain(s, accepted);
      && d.idle == s.idle && d.ended == s.ended
      && (accepted >= |s.queue| ==> d.queue == [] && d.active == s.active && d.output == s.output + Events(s.queue))
      && (accepted < |s.queue| ==>
            d.queue == s.queue[accepted + 1..] && !d.active && d.output == s.output + Events(s.queue[..accepted]))
    decreases |s.queue|
  {
    if s.queue != [] && accepted > 0 {
      var q := s.queue;
      var next := s.(queue := q[1..], output := s.output + [DataEvent(q[0])]);
      DrainSpec(next, accepted - 1);
      if accepted >= |q| {
        assert Events(q) == [DataEvent(q[0])] + Events(q[1..]);
      } else {
        assert q[1..][accepted - 1 + 1..] == q[accepted + 1..];
        assert q[..accepted][1..] == q[1..][..accepted - 1];
        assert Events(q[..accepted]) == [DataEvent(q[0])] + Events(q[1..][..accepted - 1]);
      }
    } else if s.queue != [] {
      assert s.queue[..0] == [];
    }
  }

  /** A step only appends to the output, and only takes messages off the front of the queue. */
  lemma StepExtends(s: StreamState, accepted: nat)
    ensures var t := StreamStep(s, accepted);
      && |s.output| <= |t.output| && t.output[..|s.output|] == s.output
      && |t.queue| <= |s.queue| && t.queue == s.queue[|s.queue| - |t.queue|..]
  {
    if s.active && s.queue != [] {
      DrainSpec(s.(idle := 0), accepted);
    }
  }

  /** A wake resets the idle counter; a timeout raises it by one. */
  lemma StepIdle(s: StreamState, accepted: nat)
    requires s.active
    ensures s.queue != [] ==> StreamStep(s, accepted).idle == 0
    ensures s.queue == [] ==> StreamStep(s, accepted).idle == s.idle + 1
  {
    if s.queue != [] {
      DrainSpec(s.(idle := 0), accepted);
    }
  }

  /**
   * From a fresh counter, an idle stream whose client takes every write
   * sends a keepalive after the first and the second idle period and is
   * closed at the third, without a keepalive.
   */
  lemma ThirdIdlePeriodEvicts(s: StreamState, a1: nat, a2: nat, a3: nat)
    requires s.active && s.queue == [] && s.idle == 0 && a1 > 0 && a2 > 0
    ensures var s1 := StreamStep(s, a1);
      var s2 := StreamStep(s1, a2);
      var s3 := StreamStep(s2, a3);
      && s1.active && s2.active && !s3.active && s3.ended
      && s1.output == s.output + [Keepalive]
      && s2.output == s.output + [Keepalive, Keepalive]
      && s3.output == s2.output
  {
  }

  /** A refused keepalive closes the stream at once. */
  lemma RefusedKeepaliveCloses(s: StreamState)
    requires s.active && s.queue == []
    ensures var t := StreamStep(s, 0);
      !t.active && t.ended && t.output == s.output
  {
  }

  /** The content provider of one stream: its write position, idle counter and what it has written so far. */
  class Stream {
    const conn: Connection
    const id: string
    var idle: nat
    var output: seq<string>
    var ended: bool

    constructor(conn: Connection, id: string)
      ensures this.conn == conn && this.id == id && idle == 0 && output == [] && !ended
    {
      this.conn := conn;
      this.id := id;
      idle := 0;
      output := [];
      ended := false;
    }

    function Snapshot(): StreamState
      reads this, conn
    {
      StreamState(conn.queue, conn.active, idle, output, ended)
    }

    /**
     * The provider is called: at offset 0 it first writes the endpoint event;
     * the idle counter starts at 0. The result of that write is ignored, so
     * the event is recorded in `output` whether or not the sink took it,
     * unlike the writes of `Step`, which record only what the sink accepted.
     */
    method Begin(offset: nat)
      modifies this
      ensures output == old(output) + (if offset == 0 then [EndpointEvent] else [])
      ensures idle == 0 && ended == old(ended)
    {
      if offset == 0 {
        output := output + [EndpointEvent];
      }
      idle := 0;
    }

    /** One pass of the provider's loop; the sink accepts `accepted` of its writes. */
    method Step(accepted: nat)
      requires !ended
      modifies this, conn
      ensures Snapshot() == StreamStep(old(Snapshot()), accepted)
    {
      if !conn.active {
        ended := true;
        return;
      }
      if conn.queue != [] {
        idle := 0;
        var budget := accepted;
        ghost var target := Drain(Snapshot(), accepted);
        while conn.queue != []
          invariant Drain(Snapshot(), budget) == target
          invariant !ended
          decreases |conn.queue|
        {
          var message := conn.queue[0];
          conn.queue := conn.queue[1..];
          if budget == 0 {
            conn.active := false;
            break;
          }
          output := output + [DataEvent(message)];
          budget := budget - 1;
        }
        ended := !conn.active;
      } else {
        idle := idle + 1;
        if idle >= MaxIdle {
          conn.active := false;
          ended := true;
        } else if accepted == 0 {
          conn.active := false;
          ended := true;
        } else {
          output := output + [Keepalive];
        }
      }
    }
  }

  // ---------------------------------------------------------------- the transport

  /** The connection table of one running SSE server, over the engine it serves. */
  class SseTransport {
    const server: Server.McpServer
    var connections: map<string, Connection>

    /** Each connection is listed once, and the table never exceeds the cap. */
    ghost predicate Valid()
      reads this
    {
      Injective(connections) && |connections| <= MaxConnections
    }

    constructor(server: Server.McpServer)
      ensures this.server == server && connections == map[] && Valid()
    {
      this.server := server;
      connections := map[];
    }

    /** `cleanup_stale_connections` (also run inline before admission): remove every inactive connection. */
    method CleanupStaleConnections()
      modifies this
      ensures connections == Purge(old(connections))
      ensures old(Valid()) ==> Valid()
    {
      ghost var original := connections;
      var rest := connections.Keys;
      while rest != {}
        invariant rest <= original.Keys
        invariant forall k :: k in connections <==> k in original && (k !in rest ==> original[k].active)
        invariant forall k :: k in connections ==> connections[k] == original[k]
        decreases rest
      {
        var k :| k in rest;
        if !connections[k].active {
          connections := connections - {k};
        }
        rest := rest - {k};
      }
      assert connections == Purge(original);
      PurgeSpec(original);
    }

    /** The GET of `/health`: purge the table, then report liveness. */
    method Health() returns (body: string)
      modifies this
      ensures body == HealthBody
      ensures connections == Purge(old(connections))
      ensures old(Valid()) ==> Valid()
    {
      CleanupStaleConnections();
      body := HealthBody;
    }

    /** The GET of `/`: the Accept check, the purge and the cap, then the new connection under its id. */
    method OpenStream(accept: string, sessionId: string, freshId: string) returns (status: int, stream: Stream?)
      requires Valid()
      modifies this
      ensures status == old(OpenStatus(accept, connections))
      ensures status == 406 ==> connections == old(connections) && stream == null
      ensures status == 503 ==> connections == old(Purge(connections)) && stream == null
      ensures status == 200 ==>
        && stream != null && fresh(stream) && fresh(stream.conn)
        && stream.id == ConnectionId(sessionId, freshId)
        && stream.conn.queue == [] && stream.conn.active
        && stream.output == [] && stream.idle == 0 && !stream.ended
        && connections == old(Purge(connections))[stream.id := stream.conn]
      ensures Valid()
    {
      if !Strings.Contains(accept, EventStream) {
        return 406, null;
      }
      CleanupStaleConnections();
      if |connections| >= MaxConnections {
        return 503, null;
      }
      var id := ConnectionId(sessionId, freshId);
      var conn := new Connection();
      AdmissionRespectsCap(accept, old(connections), id, conn);
      connections := connections[id := conn];
      stream := new Stream(conn, id);
      status := 200;
    }

    /** Push the serialised response onto the queue of every listed connection, inactive ones included. */
    method Broadcast(message: string)
      requires Valid()
      modifies connections.Values
      ensures forall k :: k in connections ==> connections[k].queue == old(connections[k].queue) + [message]
      ensures forall k :: k in connections ==> connections[k].active == old(connections[k].active)
    {
      var rest := connections.Keys;
      while rest != {}
        invariant rest <= connections.Keys
        invariant forall k :: k in connections ==> connections[k].queue == old(connections[k].queue) + (if k in rest then [] else [message])
        invariant forall k :: k in connections ==> connections[k].active == old(connections[k].active)
        decreases rest
      {
        var k :| k in rest;
        var conn := connections[k];
        conn.queue := conn.queue + [message];
        rest := rest - {k};
      }
    }

    /** A POST of `/` or `/message`: parse, answer through the engine, broadcast the answer. */
    method HandlePost(body: string, parse: Parse) returns (status: int, content: string)
      requires Valid()
      modifies server, connections.Values
      ensures (status, content, server.State()) == PostReply(old(server.State()), body, parse, server.dump)
      ensures forall k :: k in connections ==>
        connections[k].queue == old(connections[k].queue) + (if status == 200 then [content] else [])
      ensures forall k :: k in connections ==> connections[k].active == old(connections[k].active)
    {
      match parse(body)
      case Malformed(w) =>
        content := server.dump(ErrorResponse(-1, ParseError, ParseErrorPrefix + w));
        status := 400;
      case Parsed(request) =>
        var response := server.HandleMessage(request);
        content := server.dump(response);
        status := 200;
        Broadcast(content);
    }

    /** The teardown as written: mark the stream's connection inactive and erase its id. */
    method TeardownAsWritten(stream: Stream)
      requires Valid()
      modifies this, stream.conn
      ensures !stream.conn.active
      ensures connections == Erased(old(connections), stream.id)
      ensures Valid()
    {
      stream.conn.active := false;
      EraseCard(connections, stream.id);
      connections := connections - {stream.id};
    }

    /** The teardown as intended: mark the connection inactive and erase its id only while it still lists it. */
    method Teardown(stream: Stream)
      requires Valid()
      modifies this, stream.conn
      ensures !stream.conn.active
      ensures connections == Released(old(connections), stream.id, stream.conn)
      ensures Valid()
    {
      stream.conn.active := false;
      ReleasedKeepsOthers(connections, stream.id, stream.conn);
      if stream.id in connections && connections[stream.id] == stream.conn {
        connections := connections - {stream.id};
      }
    }
  }

  /**
   * A client opens a stream with session id "s" and reconnects with the
   * same id; when the first stream tears down as written, the second,
   * still active, is no longer listed.
   */
  method ReconnectThenStaleTeardown(server: Server.McpServer) returns (evicted: bool)
    ensures evicted
  {
    var t := new SseTransport(server);
    assert Strings.OccursAt(EventStream, EventStream, 0);
    var status1, first := t.OpenStream(EventStream, "s", "");
    PurgeSpec(t.connections);
    var status2, second := t.OpenStream(EventStream, "s", "");
    t.TeardownAsWritten(first);
    evicted := second.conn.active && "s" !in t.connections;
  }

  /** The same sequence with the intended teardown keeps the second stream listed. */
  method ReconnectThenOwnTeardown(server: Server.McpServer) returns (kept: bool)
    ensures kept
  {
    var t := new SseTransport(server);
    assert Strings.OccursAt(EventStream, EventStream, 0);
    var status1, first := t.OpenStream(EventStream, "s", "");
    PurgeSpec(t.connections);
    var status2, second := t.OpenStream(EventStream, "s", "");
    t.Teardown(first);
    kept := second.conn.active && "s" in t.connections && t.connections["s"] == second.conn;
  }
}
