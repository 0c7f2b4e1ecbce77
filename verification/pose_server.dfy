/**
 The pose-event relay (server.py) as sequential state updates: the
 per-client rate limiter, the per-connection read loop that frames, decodes
 and echoes records, the clean-up when a connection ends, and `stop`.
 Sockets, threads and the lock are not modelled; a connection's reads are a
 sequence of `Read` results, and JSON decoding and encoding are parameters.
 */
module PoseServer {
  import opened Wrappers
  import LineFraming

  /** A client is identified by "host:port" of its peer. */
  type ClientId = string
  /** An accepted connection. */
  type SocketId = nat
  /** Seconds, as returned by the wall clock. */
  type Time = real

  /** The refresh rate the server is started with. */
  const DefaultRefreshRate: Time := 0.5

  /** A decoded JSON document, kept only as precise as Python's truthiness needs. */
  datatype Json =
    | JNull
    | JBool(b: bool)
    | JNumber(n: real)
    | JString(s: string)
    | JArray(items: seq<Json>)
    | JObject(fields: seq<(string, Json)>)

  /** Python truthiness of a decoded value: `None`, `False`, zero and every
      empty string, list or dict are false. */
  predicate Truthy(v: Json)
  {
    match v
    case JNull => false
    case JBool(b) => b
    case JNumber(n) => n != 0.0
    case JString(s) => s != []
    case JArray(items) => items != []
    case JObject(fields) => fields != []
  }

  /** The relay's shared state: the running flag, the list of accepted
      sockets (`clients`), the last admitted time per client
      (`last_process_time`) and the configured refresh rate. */
  datatype Server = Server(
    running: bool,
    clients: seq<SocketId>,
    lastProcess: map<ClientId, Time>,
    refreshRate: Time)

  /** One connection's handler state: its identity, its socket and the
      receive buffer holding an unterminated record. */
  datatype Session = Session(id: ClientId, sock: SocketId, buffer: string)

  /** True when `last` and `last'` agree on every client other than `id`. */
  predicate OthersUnchanged(last: map<ClientId, Time>, last': map<ClientId, Time>, id: ClientId)
  {
    && last'.Keys - {id} == last.Keys - {id}
    && forall c :: c in last && c != id ==> c in last' && last'[c] == last[c]
  }

  /** Leaving other clients alone composes over consecutive steps. */
  lemma OthersUnchangedTrans(a: map<ClientId, Time>, b: map<ClientId, Time>, c: map<ClientId, Time>, id: ClientId)
    requires OthersUnchanged(a, b, id) && OthersUnchanged(b, c, id)
    ensures OthersUnchanged(a, c, id)
  {
  }

  /** True when no socket occurs twice in the client list. */
  predicate NoDup(xs: seq<SocketId>)
  {
    forall i, j :: 0 <= i < j < |xs| ==> xs[i] != xs[j]
  }

  // ---------------------------------------------------------------------
  // Rate limiter (`process_pose_data`)
  // ---------------------------------------------------------------------

  /** The timestamps after one event, and the record handed back to the
      caller (None when the event is dropped). */
  datatype Processed = Processed(lastProcess: map<ClientId, Time>, result: Option<Json>)

  /** Admits the first event of a client and every event at least
      `refreshRate` after the client's last admitted one; an admitted event
      stamps the client with `now`. */
  function ProcessPoseData(last: map<ClientId, Time>, refreshRate: Time, data: Json, id: ClientId, now: Time)
    : (r: Processed)
    ensures id !in last ==> r.result == Some(data) && r.lastProcess == last[id := now]
    ensures id in last && now - last[id] < refreshRate ==> r.result == None && r.lastProcess == last
    ensures id in last && now - last[id] >= refreshRate ==> r.result == Some(data) && r.lastProcess == last[id := now]
    ensures r.lastProcess.Keys == last.Keys + {id}
    ensures OthersUnchanged(last, r.lastProcess, id)
  {
    if id in last && now - last[id] < refreshRate then Processed(last, None)
    else Processed(last[id := now], Some(data))
  }

  /** The times at which a run of events from one client is admitted. */
  function AdmittedTimes(last: map<ClientId, Time>, refreshRate: Time, id: ClientId, arrivals: seq<Time>)
    : (r: seq<Time>)
    ensures |r| <= |arrivals|
    decreases |arrivals|
  {
    if arrivals == [] then []
    else
      var p := ProcessPoseData(last, refreshRate, JNull, id, arrivals[0]);
      var later := AdmittedTimes(p.lastProcess, refreshRate, id, arrivals[1..]);
      if p.result.Some? then [arrivals[0]] + later else later
  }

  /** The rate limiter's purpose: consecutive admitted events of one client
      are at least `refreshRate` apart, and the first one is at least
      `refreshRate` after the client's previously admitted event. */
  lemma {:induction false} AdmissionsSpaced(last: map<ClientId, Time>, refreshRate: Time, id: ClientId, arrivals: seq<Time>)
    ensures var adm := AdmittedTimes(last, refreshRate, id, arrivals);
            && (id in last && |adm| > 0 ==> adm[0] - last[id] >= refreshRate)
            && forall i :: 0 < i < |adm| ==> adm[i] - adm[i - 1] >= refreshRate
    decreases |arrivals|
  {
    if arrivals != [] {
      var p := ProcessPoseData(last, refreshRate, JNull, id, arrivals[0]);
      AdmissionsSpaced(p.lastProcess, refreshRate, id, arrivals[1..]);
      var later := AdmittedTimes(p.lastProcess, refreshRate, id, arrivals[1..]);
      if p.result.Some? {
        var adm := [arrivals[0]] + later;
        assert p.lastProcess[id] == arrivals[0];
        forall i | 0 < i < |adm|
          ensures adm[i] - adm[i - 1] >= refreshRate
        {
          if i > 1 {
            assert adm[i] == later[i - 1] && adm[i - 1] == later[i - 2];
          }
        }
      }
    }
  }

  // ---------------------------------------------------------------------
  // One record: decode, rate-limit, echo
  // ---------------------------------------------------------------------

  /** The timestamps after one record, and the response written back. */
  datatype LineOutcome = LineOutcome(lastProcess: map<ClientId, Time>, echo: Option<string>)

  /** Handles one complete record: a record that fails to decode is logged
      and skipped; a decoded one goes through the rate limiter; a truthy
      admitted record is echoed as its serialisation followed by '\n'. */
  function HandleLine(
    last: map<ClientId, Time>, refreshRate: Time, id: ClientId, line: string, now: Time,
    decode: string -> Option<Json>, encode: Json -> string): (r: LineOutcome)
    ensures decode(line).None? ==> r == LineOutcome(last, None)
    ensures r.echo.Some? <==>
              && decode(line).Some?
              && Truthy(decode(line).value)
              && (id !in last || now - last[id] >= refreshRate)
    ensures r.echo.Some? ==> r.echo.value == encode(decode(line).value) + "\n"
    ensures (decode(line).Some? && (id !in last || now - last[id] >= refreshRate))
              ==> r.lastProcess == last[id := now]
    ensures (decode(line).Some? && id in last && now - last[id] < refreshRate)
              ==> r.lastProcess == last
    ensures OthersUnchanged(last, r.lastProcess, id)
  {
    match decode(line)
    case None => LineOutcome(last, None)
    case Some(data) =>
      var p := ProcessPoseData(last, refreshRate, data, id, now);
      if p.result.Some? && Truthy(p.result.value) then
        LineOutcome(p.lastProcess, Some(encode(p.result.value) + "\n"))
      else
        LineOutcome(p.lastProcess, None)
  }

  /** The timestamps after a run of records, and every response, in order. */
  datatype LinesOutcome = LinesOutcome(lastProcess: map<ClientId, Time>, echoes: seq<string>)

  /** Handles the records of one read in arrival order; record `i` is
      processed at `clock(i)`. */
  function HandleLines(
    last: map<ClientId, Time>, refreshRate: Time, id: ClientId, lines: seq<string>,
    clock: nat -> Time, decode: string -> Option<Json>, encode: Json -> string): (r: LinesOutcome)
    ensures |r.echoes| <= |lines|
    ensures OthersUnchanged(last, r.lastProcess, id)
    decreases |lines|
  {
    if lines == [] then LinesOutcome(last, [])
    else
      var n := |lines| - 1;
      var before := HandleLines(last, refreshRate, id, lines[..n], clock, decode, encode);
      var step := HandleLine(before.lastProcess, refreshRate, id, lines[n], clock(n), decode, encode);
      LinesOutcome(step.lastProcess, before.echoes + (if step.echo.Some? then [step.echo.value] else []))
  }

  /** `echoes` are the responses to `lines`, one each, in order. */
  predicate AllEchoed(echoes: seq<string>, lines: seq<string>, decode: string -> Option<Json>, encode: Json -> string)
    requires forall i :: 0 <= i < |lines| ==> decode(lines[i]).Some?
  {
    |echoes| == |lines| && forall i :: 0 <= i < |lines| ==> echoes[i] == encode(decode(lines[i]).value) + "\n"
  }

  /** Answering one more record extends the responses by its echo. */
  lemma AllEchoedSnoc(echoes: seq<string>, lines: seq<string>, decode: string -> Option<Json>, encode: Json -> string)
    requires lines != []
    requires forall i :: 0 <= i < |lines| ==> decode(lines[i]).Some?
    requires AllEchoed(echoes, lines[..|lines| - 1], decode, encode)
    ensures AllEchoed(echoes + [encode(decode(lines[|lines| - 1]).value) + "\n"], lines, decode, encode)
  {
    var n := |lines| - 1;
    var e := echoes + [encode(decode(lines[n]).value) + "\n"];
    forall i | 0 <= i < |lines| ensures e[i] == encode(decode(lines[i]).value) + "\n" {
      if i < n {
        assert lines[..n][i] == lines[i];
      }
    }
  }

  /** Well-spaced truthy records are all admitted and echoed, each as its
      serialisation plus '\n', in the order they arrived. */
  lemma {:induction false} SpacedRecordsAllEchoed(
    last: map<ClientId, Time>, refreshRate: Time, id: ClientId, lines: seq<string>,
    clock: nat -> Time, decode: string -> Option<Json>, encode: Json -> string)
    requires forall i :: 0 <= i < |lines| ==> decode(lines[i]).Some? && Truthy(decode(lines[i]).value)
    requires forall i :: 0 < i < |lines| ==> clock(i) - clock(i - 1) >= refreshRate
    requires |lines| > 0 && id in last ==> clock(0) - last[id] >= refreshRate
    ensures var r := HandleLines(last, refreshRate, id, lines, clock, decode, encode);
            && AllEchoed(r.echoes, lines, decode, encode)
            && (|lines| > 0 ==> id in r.lastProcess && r.lastProcess[id] == clock(|lines| - 1))
    decreases |lines|
  {
    if lines != [] {
      var n := |lines| - 1;
      var before := HandleLines(last, refreshRate, id, lines[..n], clock, decode, encode);
      assert AllEchoed(before.echoes, lines[..n], decode, encode)
             && (n > 0 ==> id in before.lastProcess && before.lastProcess[id] == clock(n - 1)) by {
        SpacedRecordsAllEchoed(last, refreshRate, id, lines[..n], clock, decode, encode);
      }
      assert id in before.lastProcess ==> clock(n) - before.lastProcess[id] >= refreshRate by {
        if n == 0 {
          assert before == LinesOutcome(last, []);
        }
      }
      AdmittedLastLine(last, refreshRate, id, lines, clock, decode, encode);
      AllEchoedSnoc(before.echoes, lines, decode, encode);
    }
  }

  /** The last of a run of records, when it is truthy and admitted, adds
      exactly its echo and stamps the client with its time. */
  lemma AdmittedLastLine(
    last: map<ClientId, Time>, refreshRate: Time, id: ClientId, lines: seq<string>,
    clock: nat -> Time, decode: string -> Option<Json>, encode: Json -> string)
    requires lines != []
    requires decode(lines[|lines| - 1]).Some? && Truthy(decode(lines[|lines| - 1]).value)
    requires var before := HandleLines(last, refreshRate, id, lines[..|lines| - 1], clock, decode, encode);
             id in before.lastProcess ==> clock(|lines| - 1) - before.lastProcess[id] >= refreshRate
    ensures var n := |lines| - 1;
            var before := HandleLines(last, refreshRate, id, lines[..n], clock, decode, encode);
            var r := HandleLines(last, refreshRate, id, lines, clock, decode, encode);
            && r.echoes == before.echoes + [encode(decode(lines[n]).value) + "\n"]
            && id in r.lastProcess && r.lastProcess[id] == clock(n)
  {
  }

  /** A burst of decodable records from a new client, all within
      `refreshRate` of the first one, gets at most one echo: every record
      after the first is dropped and the first one's timestamp is kept. */
  lemma {:induction false} BurstEchoedAtMostOnce(
    last: map<ClientId, Time>, refreshRate: Time, id: ClientId, lines: seq<string>,
    clock: nat -> Time, decode: string -> Option<Json>, encode: Json -> string)
    requires id !in last
    requires forall i :: 0 <= i < |lines| ==> decode(lines[i]).Some?
    requires forall i :: 0 < i < |lines| ==> clock(i) - clock(0) < refreshRate
    ensures var r := HandleLines(last, refreshRate, id, lines, clock, decode, encode);
            && |r.echoes| <= 1
            && (|lines| > 0 ==> id in r.lastProcess && r.lastProcess[id] == clock(0))
    decreases |lines|
  {
    if lines != [] {
      var n := |lines| - 1;
      var before := HandleLines(last, refreshRate, id, lines[..n], clock, decode, encode);
      assert |before.echoes| <= 1 && (n > 0 ==> id in before.lastProcess && before.lastProcess[id] == clock(0)) by {
        BurstEchoedAtMostOnce(last, refreshRate, id, lines[..n], clock, decode, encode);
      }
      if n > 0 {
        DroppedLastLine(last, refreshRate, id, lines, clock, decode, encode);
      } else {
        assert before == LinesOutcome(last, []);
      }
    }
  }

  /** The last of a run of records, when it arrives within `refreshRate`
      of the client's stamp, is dropped: no echo, stamp unchanged. */
  lemma DroppedLastLine(
    last: map<ClientId, Time>, refreshRate: Time, id: ClientId, lines: seq<string>,
    clock: nat -> Time, decode: string -> Option<Json>, encode: Json -> string)
    requires lines != []
    requires var before := HandleLines(last, refreshRate, id, lines[..|lines| - 1], clock, decode, encode);
             id in before.lastProcess && clock(|lines| - 1) - before.lastProcess[id] < refreshRate
    ensures var before := HandleLines(last, refreshRate, id, lines[..|lines| - 1], clock, decode, encode);
            HandleLines(last, refreshRate, id, lines, clock, decode, encode)
            == LinesOutcome(before.lastProcess, before.echoes)
  {
  }

  /** The clock of the records after the first `k`. */
  function Shift(clock: nat -> Time, k: nat): (later: nat -> Time)
    ensures forall i: nat :: later(i) == clock(k + i)
  {
    (i: nat) => clock(k + i)
  }

  /** One record on its own is handled by HandleLine at `clock(0)`. */
  lemma HandleOneLine(
    last: map<ClientId, Time>, refreshRate: Time, id: ClientId, line: string,
    clock: nat -> Time, decode: string -> Option<Json>, encode: Json -> string)
    ensures var step := HandleLine(last, refreshRate, id, line, clock(0), decode, encode);
            HandleLines(last, refreshRate, id, [line], clock, decode, encode)
            == LinesOutcome(step.lastProcess, if step.echo.Some? then [step.echo.value] else [])
  {
    assert [line][..0] == [];
  }

  /** Records are handled strictly in arrival order: handling `a + b` is
      handling `a`, then handling `b` from the stamps `a` left, with `b`'s
      clock starting where `a`'s ended; the echoes are `a`'s followed by
      `b`'s. With HandleOneLine this pins every record's outcome to the
      HandleLine of that record. */
  lemma {:induction false} HandleLinesAppend(
    last: map<ClientId, Time>, refreshRate: Time, id: ClientId, a: seq<string>, b: seq<string>,
    clock: nat -> Time, decode: string -> Option<Json>, encode: Json -> string)
    ensures var ra := HandleLines(last, refreshRate, id, a, clock, decode, encode);
            var rb := HandleLines(ra.lastProcess, refreshRate, id, b, Shift(clock, |a|), decode, encode);
            HandleLines(last, refreshRate, id, a + b, clock, decode, encode)
            == LinesOutcome(rb.lastProcess, ra.echoes + rb.echoes)
    decreases |b|
  {
    var later := Shift(clock, |a|);
    var ra := HandleLines(last, refreshRate, id, a, clock, decode, encode);
    if b == [] {
      assert a + b == a;
    } else {
      var b' := b[..|b| - 1];
      HandleLinesAppend(last, refreshRate, id, a, b', clock, decode, encode);
      AppendLastRecord(last, refreshRate, id, a, b, clock, decode, encode);
      ShiftedLastRecord(ra.lastProcess, refreshRate, id, a, b, clock, decode, encode);
      var rb' := HandleLines(ra.lastProcess, refreshRate, id, b', later, decode, encode);
      var step := HandleLine(rb'.lastProcess, refreshRate, id, b[|b| - 1], clock(|a| + |b| - 1), decode, encode);
      var e := if step.echo.Some? then [step.echo.value] else [];
      assert (ra.echoes + rb'.echoes) + e == ra.echoes + (rb'.echoes + e);
    }
  }

  /** The last step of HandleLinesAppend's induction, on the whole run:
      the last record of `b` is the last record of `a + b`. */
  lemma AppendLastRecord(
    last: map<ClientId, Time>, refreshRate: Time, id: ClientId, a: seq<string>, b: seq<string>,
    clock: nat -> Time, decode: string -> Option<Json>, encode: Json -> string)
    requires b != []
    ensures var ab' := HandleLines(last, refreshRate, id, a + b[..|b| - 1], clock, decode, encode);
            var step := HandleLine(ab'.lastProcess, refreshRate, id, b[|b| - 1], clock(|a| + |b| - 1), decode, encode);
            HandleLines(last, refreshRate, id, a + b, clock, decode, encode)
            == LinesOutcome(step.lastProcess, ab'.echoes + if step.echo.Some? then [step.echo.value] else [])
  {
    var x := b[|b| - 1];
    assert a + b == (a + b[..|b| - 1]) + [x] by {
      assert b == b[..|b| - 1] + [x];
    }
    HandleLinesSnoc(last, refreshRate, id, a + b, a + b[..|b| - 1], x, clock, decode, encode);
  }

  /** The last step of HandleLinesAppend's induction, on `b` alone with the
      shifted clock. */
  lemma ShiftedLastRecord(
    last: map<ClientId, Time>, refreshRate: Time, id: ClientId, a: seq<string>, b: seq<string>,
    clock: nat -> Time, decode: string -> Option<Json>, encode: Json -> string)
    requires b != []
    ensures var rb' := HandleLines(last, refreshRate, id, b[..|b| - 1], Shift(clock, |a|), decode, encode);
            var step := HandleLine(rb'.lastProcess, refreshRate, id, b[|b| - 1], clock(|a| + |b| - 1), decode, encode);
            HandleLines(last, refreshRate, id, b, Shift(clock, |a|), decode, encode)
            == LinesOutcome(step.lastProcess, rb'.echoes + if step.echo.Some? then [step.echo.value] else [])
  {
    var x := b[|b| - 1];
    assert b == b[..|b| - 1] + [x];
    assert Shift(clock, |a|)(|b| - 1) == clock(|a| + |b| - 1);
    HandleLinesSnoc(last, refreshRate, id, b, b[..|b| - 1], x, Shift(clock, |a|), decode, encode);
  }

  /** A record after a run is handled after all of the run, at its own
      clock reading, and adds its echo if it has one. */
  lemma HandleLinesSnoc(
    last: map<ClientId, Time>, refreshRate: Time, id: ClientId, lines: seq<string>, init: seq<string>, x: string,
    clock: nat -> Time, decode: string -> Option<Json>, encode: Json -> string)
    requires lines == init + [x]
    ensures var before := HandleLines(last, refreshRate, id, init, clock, decode, encode);
            var step := HandleLine(before.lastProcess, refreshRate, id, x, clock(|init|), decode, encode);
            HandleLines(last, refreshRate, id, lines, clock, decode, encode)
            == LinesOutcome(step.lastProcess, before.echoes + if step.echo.Some? then [step.echo.value] else [])
  {
    assert lines[..|init|] == init;
  }

  // ---------------------------------------------------------------------
  // The per-connection read loop (`handle_client`)
  // ---------------------------------------------------------------------

  /** State after one successful read. */
  datatype Received = Received(server: Server, session: Session, echoes: seq<string>)

  /** Appends the received text to the buffer, drains every complete record
      through HandleLines and keeps the unterminated tail buffered. */
  function Receive(
    srv: Server, sess: Session, data: string, clock: nat -> Time,
    decode: string -> Option<Json>, encode: Json -> string): (r: Received)
    ensures LineFraming.NoNewline(r.session.buffer)
    ensures LineFraming.Join(LineFraming.Drain(sess.buffer + data).lines) + r.session.buffer == sess.buffer + data
    ensures r.session.id == sess.id && r.session.sock == sess.sock
    ensures |r.echoes| <= |LineFraming.Drain(sess.buffer + data).lines|
    ensures r.server.running == srv.running && r.server.clients == srv.clients
    ensures r.server.refreshRate == srv.refreshRate
    ensures OthersUnchanged(srv.lastProcess, r.server.lastProcess, sess.id)
    ensures var out := HandleLines(srv.lastProcess, srv.refreshRate, sess.id,
                                   LineFraming.Drain(sess.buffer + data).lines, clock, decode, encode);
            r.echoes == out.echoes && r.server.lastProcess == out.lastProcess
  {
    var framed := LineFraming.Drain(sess.buffer + data);
    LineFraming.DrainLossless(sess.buffer + data);
    var out := HandleLines(srv.lastProcess, srv.refreshRate, sess.id, framed.lines, clock, decode, encode);
    Received(srv.(lastProcess := out.lastProcess), sess.(buffer := framed.rest), out.echoes)
  }

  /** Every complete record of a read is answered: when the drained records
      are truthy and arrive `refreshRate` apart, starting that far from the
      client's stamp, each gets its echo, in order. */
  lemma ReceiveSpacedAllEchoed(
    srv: Server, sess: Session, data: string, clock: nat -> Time,
    decode: string -> Option<Json>, encode: Json -> string)
    requires var lines := LineFraming.Drain(sess.buffer + data).lines;
             && (forall i :: 0 <= i < |lines| ==> decode(lines[i]).Some? && Truthy(decode(lines[i]).value))
             && (forall i :: 0 < i < |lines| ==> clock(i) - clock(i - 1) >= srv.refreshRate)
             && (|lines| > 0 && sess.id in srv.lastProcess ==> clock(0) - srv.lastProcess[sess.id] >= srv.refreshRate)
    ensures AllEchoed(Receive(srv, sess, data, clock, decode, encode).echoes,
                      LineFraming.Drain(sess.buffer + data).lines, decode, encode)
  {
    SpacedRecordsAllEchoed(srv.lastProcess, srv.refreshRate, sess.id,
                           LineFraming.Drain(sess.buffer + data).lines, clock, decode, encode);
  }

  /** What one blocking `recv` call produced: text (empty when the peer
      closed the connection) stamped by the clock used for its records, a
      timeout, or a transport error. */
  datatype Read = Data(chunk: string, clock: nat -> Time) | Timeout | TransportError

  /** Removes the first occurrence of `x` (Python's `list.remove`). */
  function RemoveFirst(xs: seq<SocketId>, x: SocketId): (r: seq<SocketId>)
    ensures x !in xs ==> r == xs
    ensures x in xs ==> |r| == |xs| - 1
    ensures multiset(r) == multiset(xs) - multiset{x}
  {
    if xs == [] then []
    else if xs[0] == x then
      assert xs == [xs[0]] + xs[1..];
      xs[1..]
    else
      var tail := RemoveFirst(xs[1..], x);
      assert xs == [xs[0]] + xs[1..];
      [xs[0]] + tail
  }

  /** On a list without repeats, removing the first occurrence removes the
      socket altogether and keeps the list free of repeats. */
  lemma {:induction false} RemoveFirstNoDup(xs: seq<SocketId>, x: SocketId)
    ensures NoDup(xs) ==> NoDup(RemoveFirst(xs, x)) && x !in RemoveFirst(xs, x)
    decreases |xs|
  {
    if NoDup(xs) && xs != [] {
      NoDupTail(xs);
      if xs[0] != x {
        RemoveFirstNoDup(xs[1..], x);
        var tail := RemoveFirst(xs[1..], x);
        SubMultisetMembers(tail, xs[1..]);
        NoDupCons(xs[0], tail);
      }
    }
  }

  lemma NoDupTail(xs: seq<SocketId>)
    requires NoDup(xs) && xs != []
    ensures NoDup(xs[1..]) && xs[0] !in xs[1..]
  {
    forall i, j | 0 <= i < j < |xs[1..]| ensures xs[1..][i] != xs[1..][j] {
      assert xs[1..][i] == xs[i + 1] && xs[1..][j] == xs[j + 1];
    }
    forall j | 0 <= j < |xs[1..]| ensures xs[1..][j] != xs[0] {
      assert xs[1..][j] == xs[j + 1];
    }
  }

  lemma NoDupCons(h: SocketId, t: seq<SocketId>)
    requires NoDup(t) && h !in t
    ensures NoDup([h] + t)
  {
    var r := [h] + t;
    forall i, j | 0 <= i < j < |r| ensures r[i] != r[j] {
      assert r[j] == t[j - 1];
      if i > 0 {
        assert r[i] == t[i - 1];
      }
    }
  }

  lemma SubMultisetMembers(a: seq<SocketId>, b: seq<SocketId>)
    requires multiset(a) <= multiset(b)
    ensures forall y :: y in a ==> y in b
  {
    forall y | y in a ensures y in b {
      assert y in multiset(a);
    }
  }

  /** The `finally` block of the handler: the socket leaves `clients` and
      the client's timestamp is deleted; both steps do nothing when there is
      nothing to remove. */
  function Cleanup(srv: Server, sess: Session): (r: Server)
    ensures sess.id !in r.lastProcess
    ensures r.lastProcess.Keys == srv.lastProcess.Keys - {sess.id}
    ensures OthersUnchanged(srv.lastProcess, r.lastProcess, sess.id)
    ensures multiset(r.clients) == multiset(srv.clients) - multiset{sess.sock}
    ensures sess.sock !in srv.clients ==> r.clients == srv.clients
    ensures NoDup(srv.clients) ==> NoDup(r.clients) && sess.sock !in r.clients
    ensures r.running == srv.running && r.refreshRate == srv.refreshRate
  {
    var clients := if sess.sock in srv.clients then RemoveFirst(srv.clients, sess.sock) else srv.clients;
    RemoveFirstNoDup(srv.clients, sess.sock);
    var last := if sess.id in srv.lastProcess then srv.lastProcess - {sess.id} else srv.lastProcess;
    srv.(clients := clients, lastProcess := last)
  }

  /** Cleaning up a session a second time changes nothing. */
  lemma CleanupIdempotent(srv: Server, sess: Session)
    requires NoDup(srv.clients)
    ensures Cleanup(Cleanup(srv, sess), sess) == Cleanup(srv, sess)
  {
  }

  /** The outcome of a handler: the server state, the session as the loop
      last saw it, every response written, and whether the handler reached
      its clean-up. */
  datatype SessionEnd = SessionEnd(server: Server, session: Session, echoes: seq<string>, closed: bool)

  /** The handler loop: while the server runs, each read either feeds the
      buffer, times out (loop again), reports end of stream (empty data) or
      fails; the last two, and a stopped server, end in Cleanup. When the
      reads run out the handler is still waiting. */
  function RunSession(
    srv: Server, sess: Session, recvs: seq<Read>,
    decode: string -> Option<Json>, encode: Json -> string): (r: SessionEnd)
    ensures !srv.running ==> r.closed && r.echoes == []
    ensures r.closed ==> sess.id !in r.server.lastProcess
    ensures r.closed ==> multiset(r.server.clients) == multiset(srv.clients) - multiset{sess.sock}
    ensures r.closed && NoDup(srv.clients) ==> sess.sock !in r.server.clients
    ensures !r.closed ==> r.server.clients == srv.clients
    ensures r.session.id == sess.id && r.session.sock == sess.sock
    ensures r.server.running == srv.running && r.server.refreshRate == srv.refreshRate
    ensures OthersUnchanged(srv.lastProcess, r.server.lastProcess, sess.id)
    decreases |recvs|
  {
    if !srv.running then SessionEnd(Cleanup(srv, sess), sess, [], true)
    else if recvs == [] then SessionEnd(srv, sess, [], false)
    else
      match recvs[0]
      case Timeout => RunSession(srv, sess, recvs[1..], decode, encode)
      case TransportError => SessionEnd(Cleanup(srv, sess), sess, [], true)
      case Data(chunk, clock) =>
        if chunk == [] then SessionEnd(Cleanup(srv, sess), sess, [], true)
        else
          var got := Receive(srv, sess, chunk, clock, decode, encode);
          var rest := RunSession(got.server, got.session, recvs[1..], decode, encode);
          OthersUnchangedTrans(srv.lastProcess, got.server.lastProcess, rest.server.lastProcess, sess.id);
          SessionEnd(rest.server, rest.session, got.echoes + rest.echoes, rest.closed)
  }

  /** While the handler is open, one more non-empty read is handled exactly
      like `Receive` on the state the loop has reached: its responses are
      written after all earlier ones, and the server's stamps and the
      session's buffer are what that `Receive` leaves. */
  lemma RunSessionSnoc(
    srv: Server, sess: Session, recvs: seq<Read>, chunk: string, clock: nat -> Time,
    decode: string -> Option<Json>, encode: Json -> string)
    requires !RunSession(srv, sess, recvs, decode, encode).closed
    requires chunk != []
    ensures var r := RunSession(srv, sess, recvs, decode, encode);
            var got := Receive(r.server, r.session, chunk, clock, decode, encode);
            var r' := RunSession(srv, sess, recvs + [Data(chunk, clock)], decode, encode);
            && r'.echoes == r.echoes + got.echoes
            && r'.server == got.server && r'.session == got.session && !r'.closed
  {
    RunSessionSnocAt(srv, sess, recvs, recvs + [Data(chunk, clock)], Data(chunk, clock), decode, encode);
  }

  /** `r'` is `r` followed by the outcome `got` of one more read. */
  predicate ExtendedBy(r: SessionEnd, r': SessionEnd, got: Received)
  {
    r'.echoes == r.echoes + got.echoes && r'.server == got.server && r'.session == got.session && !r'.closed
  }

  /** RunSessionSnoc with the extended reads named, so the induction does not
      rewrite `recvs + [x]` inside RunSession. */
  lemma {:induction false} RunSessionSnocAt(
    srv: Server, sess: Session, recvs: seq<Read>, all: seq<Read>, x: Read,
    decode: string -> Option<Json>, encode: Json -> string)
    requires all == recvs + [x] && x.Data? && x.chunk != []
    requires !RunSession(srv, sess, recvs, decode, encode).closed
    ensures var r := RunSession(srv, sess, recvs, decode, encode);
            ExtendedBy(r, RunSession(srv, sess, all, decode, encode),
                       Receive(r.server, r.session, x.chunk, x.clock, decode, encode))
    decreases |recvs|
  {
    if recvs == [] {
      assert all == [x] && all[1..] == [];
    } else {
      assert all[0] == recvs[0] && all[1..] == recvs[1..] + [x];
      match recvs[0]
      case Timeout =>
        RunSessionSnocAt(srv, sess, recvs[1..], all[1..], x, decode, encode);
      case Data(c0, clock0) =>
        var got0 := Receive(srv, sess, c0, clock0, decode, encode);
        RunSessionSnocAt(got0.server, got0.session, recvs[1..], all[1..], x, decode, encode);
        RunSessionFirstRead(srv, sess, recvs, decode, encode);
        RunSessionFirstRead(srv, sess, all, decode, encode);
        var rest := RunSession(got0.server, got0.session, recvs[1..], decode, encode);
        ExtendAfterRead(RunSession(srv, sess, recvs, decode, encode), RunSession(srv, sess, all, decode, encode),
                        got0, rest, RunSession(got0.server, got0.session, all[1..], decode, encode),
                        Receive(rest.server, rest.session, x.chunk, x.clock, decode, encode));
    }
  }

  /** A non-empty first read on a running server is handled by `Receive`,
      and the loop carries on from the state it leaves. */
  lemma RunSessionFirstRead(
    srv: Server, sess: Session, recvs: seq<Read>,
    decode: string -> Option<Json>, encode: Json -> string)
    requires srv.running && recvs != [] && recvs[0].Data? && recvs[0].chunk != []
    ensures var got := Receive(srv, sess, recvs[0].chunk, recvs[0].clock, decode, encode);
            AfterRead(RunSession(srv, sess, recvs, decode, encode), got,
                      RunSession(got.server, got.session, recvs[1..], decode, encode))
  {
  }

  /** `r` is the outcome `got` of a read followed by the loop's `rest`. */
  predicate AfterRead(r: SessionEnd, got: Received, rest: SessionEnd)
  {
    r.echoes == got.echoes + rest.echoes && r.server == rest.server
    && r.session == rest.session && r.closed == rest.closed
  }

  lemma ExtendAfterRead(r: SessionEnd, r': SessionEnd, got0: Received, rest: SessionEnd, rest': SessionEnd, g: Received)
    requires AfterRead(r, got0, rest) && AfterRead(r', got0, rest') && ExtendedBy(rest, rest', g)
    ensures ExtendedBy(r, r', g)
  {
    assert got0.echoes + (rest.echoes + g.echoes) == (got0.echoes + rest.echoes) + g.echoes;
  }

  /** A read that makes the loop break: end of stream or a failure. */
  predicate EndsSession(rd: Read)
  {
    rd.TransportError? || (rd.Data? && rd.chunk == [])
  }

  /** Some read of `recvs` ends the session. */
  predicate SomeReadEnds(recvs: seq<Read>)
  {
    exists i :: 0 <= i < |recvs| && EndsSession(recvs[i])
  }

  /** The handler reaches its clean-up exactly when the server is stopped or
      one of the reads reports end of stream or a failure; `running` does
      not change during a session. */
  lemma {:induction false} SessionClosedIff(
    srv: Server, sess: Session, recvs: seq<Read>,
    decode: string -> Option<Json>, encode: Json -> string)
    ensures RunSession(srv, sess, recvs, decode, encode).closed <==> !srv.running || SomeReadEnds(recvs)
    decreases |recvs|
  {
    if srv.running && recvs != [] {
      assert SomeReadEnds(recvs) <==> EndsSession(recvs[0]) || SomeReadEnds(recvs[1..]) by {
        if SomeReadEnds(recvs) && !EndsSession(recvs[0]) {
          var i :| 0 <= i < |recvs| && EndsSession(recvs[i]);
          assert recvs[1..][i - 1] == recvs[i];
        }
        if SomeReadEnds(recvs[1..]) {
          var i :| 0 <= i < |recvs[1..]| && EndsSession(recvs[1..][i]);
          assert recvs[i + 1] == recvs[1..][i];
        }
      }
      match recvs[0]
      case Timeout =>
        SessionClosedIff(srv, sess, recvs[1..], decode, encode);
      case TransportError =>
      case Data(chunk, clock) =>
        if chunk != [] {
          var got := Receive(srv, sess, chunk, clock, decode, encode);
          SessionClosedIff(got.server, got.session, recvs[1..], decode, encode);
        }
    }
  }

  /** A read that times out changes nothing: the loop just polls again. */
  lemma TimeoutIgnored(
    srv: Server, sess: Session, recvs: seq<Read>,
    decode: string -> Option<Json>, encode: Json -> string)
    ensures RunSession(srv, sess, [Timeout] + recvs, decode, encode) == RunSession(srv, sess, recvs, decode, encode)
  {
    assert ([Timeout] + recvs)[1..] == recvs;
  }

  /** Once the handler has closed, later reads never happen: appending reads
      changes nothing. */
  lemma {:induction false} ReadsAfterCloseIgnored(
    srv: Server, sess: Session, recvs: seq<Read>, more: seq<Read>,
    decode: string -> Option<Json>, encode: Json -> string)
    requires RunSession(srv, sess, recvs, decode, encode).closed
    ensures RunSession(srv, sess, recvs + more, decode, encode) == RunSession(srv, sess, recvs, decode, encode)
    decreases |recvs|
  {
    if srv.running {
      assert (recvs + more)[0] == recvs[0];
      assert (recvs + more)[1..] == recvs[1..] + more;
      match recvs[0]
      case Timeout =>
        ReadsAfterCloseIgnored(srv, sess, recvs[1..], more, decode, encode);
      case TransportError =>
      case Data(chunk, clock) =>
        if chunk != [] {
          var got := Receive(srv, sess, chunk, clock, decode, encode);
          ReadsAfterCloseIgnored(got.server, got.session, recvs[1..], more, decode, encode);
        }
    }
  }

  // ---------------------------------------------------------------------
  // Accept loop and shutdown
  // ---------------------------------------------------------------------

  /** Registers a newly accepted socket while the server runs. */
  function Accept(srv: Server, sock: SocketId): (r: Server)
    ensures srv.running ==> r.clients == srv.clients + [sock] && sock in r.clients
    ensures !srv.running ==> r == srv
    ensures NoDup(srv.clients) && sock !in srv.clients ==> NoDup(r.clients)
    ensures r.lastProcess == srv.lastProcess && r.running == srv.running
  {
    if srv.running then srv.(clients := srv.clients + [sock]) else srv
  }

  /** `stop`: clears the running flag and the client list. The timestamps
      in `last_process_time` are left as they are. */
  function Stop(srv: Server): (r: Server)
    ensures !r.running && r.clients == []
    ensures r.lastProcess == srv.lastProcess && r.refreshRate == srv.refreshRate
  {
    srv.(running := false, clients := [])
  }

  /** Stopping is safe to repeat. */
  lemma StopIdempotent(srv: Server)
    ensures Stop(Stop(srv)) == Stop(srv)
  {
  }

  /** After `stop`, a handler leaves its loop at once: it echoes nothing
      and cleans up. */
  lemma StoppedSessionCloses(srv: Server, sess: Session, recvs: seq<Read>,
                             decode: string -> Option<Json>, encode: Json -> string)
    ensures var r := RunSession(Stop(srv), sess, recvs, decode, encode);
            r.closed && r.echoes == [] && r.server.clients == [] && sess.id !in r.server.lastProcess
  {
  }

  // ---------------------------------------------------------------------
  // Scenarios
  // ---------------------------------------------------------------------

  /** An admitted empty record `{}` stamps the client but is not echoed,
      because an empty dict is falsy. */
  lemma EmptyRecordStampedNotEchoed(
    last: map<ClientId, Time>, refreshRate: Time, id: ClientId, line: string, now: Time,
    decode: string -> Option<Json>, encode: Json -> string)
    requires decode(line) == Some(JObject([]))
    requires id !in last || now - last[id] >= refreshRate
    ensures var r := HandleLine(last, refreshRate, id, line, now, decode, encode);
            r.echo == None && id in r.lastProcess && r.lastProcess[id] == now
  {
  }

  /** A malformed record is skipped without touching the timestamp, so a
      well-formed record right after it is still admitted and echoed. */
  lemma MalformedThenWellFormed(
    last: map<ClientId, Time>, refreshRate: Time, id: ClientId, bad: string, good: string,
    clock: nat -> Time, decode: string -> Option<Json>, encode: Json -> string)
    requires id !in last
    requires decode(bad).None?
    requires decode(good).Some? && Truthy(decode(good).value)
    ensures HandleLines(last, refreshRate, id, [bad, good], clock, decode, encode).echoes
            == [encode(decode(good).value) + "\n"]
  {
    assert [bad, good][..1] == [bad];
    assert [bad][..0] == [];
    assert HandleLines(last, refreshRate, id, [], clock, decode, encode) == LinesOutcome(last, []);
    assert HandleLine(last, refreshRate, id, bad, clock(0), decode, encode) == LineOutcome(last, None);
    var first := HandleLines(last, refreshRate, id, [bad], clock, decode, encode);
    assert first == LinesOutcome(last, []);
    var second := HandleLine(last, refreshRate, id, good, clock(1), decode, encode);
    assert second.echo == Some(encode(decode(good).value) + "\n");
  }

  /** Two decodable records from a new client closer together than the
      refresh rate: only the first is echoed. */
  lemma TwoRecordBurst(
    last: map<ClientId, Time>, refreshRate: Time, id: ClientId, l1: string, l2: string,
    clock: nat -> Time, decode: string -> Option<Json>, encode: Json -> string)
    requires id !in last
    requires decode(l1).Some? && Truthy(decode(l1).value) && decode(l2).Some?
    requires clock(1) - clock(0) < refreshRate
    ensures HandleLines(last, refreshRate, id, [l1, l2], clock, decode, encode).echoes
            == [encode(decode(l1).value) + "\n"]
  {
    assert [l1, l2][..1] == [l1];
    assert [l1][..0] == [];
    assert HandleLines(last, refreshRate, id, [], clock, decode, encode) == LinesOutcome(last, []);
    var one := HandleLine(last, refreshRate, id, l1, clock(0), decode, encode);
    assert one.echo == Some(encode(decode(l1).value) + "\n");
    var first := HandleLines(last, refreshRate, id, [l1], clock, decode, encode);
    assert first == LinesOutcome(one.lastProcess, [encode(decode(l1).value) + "\n"]);
    var two := HandleLine(one.lastProcess, refreshRate, id, l2, clock(1), decode, encode);
    assert two.echo == None;
  }

  /** Two records in a single write are framed as two records, but with the
      default refresh rate the second one, processed a moment after the
      first, is dropped: only the first is echoed. */
  lemma SingleWriteTwoRecords(
    srv: Server, id: ClientId, sock: SocketId, l1: string, l2: string,
    clock: nat -> Time, decode: string -> Option<Json>, encode: Json -> string)
    requires srv.refreshRate == DefaultRefreshRate && id !in srv.lastProcess
    requires LineFraming.NoNewline(l1) && LineFraming.NoNewline(l2)
    requires decode(l1).Some? && Truthy(decode(l1).value) && decode(l2).Some?
    requires clock(1) - clock(0) < DefaultRefreshRate
    ensures var r := Receive(srv, Session(id, sock, ""), l1 + "\n" + l2 + "\n", clock, decode, encode);
            r.echoes == [encode(decode(l1).value) + "\n"] && r.session.buffer == ""
  {
    var lines := [l1, l2];
    TwoLineWire(l1, l2);
    LineFraming.DrainJoin(lines, "");
    TwoRecordBurst(srv.lastProcess, srv.refreshRate, id, l1, l2, clock, decode, encode);
  }

  /** The wire form of two records. */
  lemma TwoLineWire(l1: string, l2: string)
    ensures LineFraming.Join([l1, l2]) + "" == "" + (l1 + "\n" + l2 + "\n")
  {
    assert [l1, l2][1..] == [l2];
    assert [l2][1..] == [];
    assert LineFraming.Join([l2]) == l2 + "\n";
    assert LineFraming.Join([l1, l2]) == l1 + "\n" + (l2 + "\n");
  }

  /** Records processed at 0, 0.1 and 0.6 seconds with the default refresh
      rate: the first and the third are echoed, the second is dropped. */
  lemma JumpSitStandTimeline(
    last: map<ClientId, Time>, id: ClientId, jump: string, sit: string, stand: string,
    decode: string -> Option<Json>, encode: Json -> string)
    requires id !in last
    requires decode(jump).Some? && Truthy(decode(jump).value)
    requires decode(sit).Some? && Truthy(decode(sit).value)
    requires decode(stand).Some? && Truthy(decode(stand).value)
    ensures var clock := (i: nat) => if i == 0 then 0.0 else if i == 1 then 0.1 else 0.6;
            HandleLines(last, DefaultRefreshRate, id, [jump, sit, stand], clock, decode, encode).echoes
            == [encode(decode(jump).value) + "\n", encode(decode(stand).value) + "\n"]
  {
    var clock := (i: nat) => if i == 0 then 0.0 else if i == 1 then 0.1 else 0.6;
    var lines := [jump, sit, stand];
    assert lines[..2] == [jump, sit];
    TwoRecordBurst(last, DefaultRefreshRate, id, jump, sit, clock, decode, encode);
    BurstEchoedAtMostOnce(last, DefaultRefreshRate, id, [jump, sit], clock, decode, encode);
    var two := HandleLines(last, DefaultRefreshRate, id, [jump, sit], clock, decode, encode);
    assert two.lastProcess[id] == 0.0;
    var three := HandleLine(two.lastProcess, DefaultRefreshRate, id, stand, clock(2), decode, encode);
    assert three.echo == Some(encode(decode(stand).value) + "\n");
  }
}
