/**
 The detached host of one agent process: it frames the process's output, keeps the last lines in a ring,
 sends every line to every connected client, and replays the ring to each client that connects.
 */
module AgentHost {
  import opened Framing
  import opened TextLines
  import opened Wrappers

  const RING_MAX: nat := 4000
  const REPLAY_COMPLETE: string := "{\"__sq\":\"replay_complete\"}"

  type ClientId = nat

  /** What the host is told from outside: how it renders its meta frame, which output line makes it
      ready, and which client line asks it to shut down. */
  datatype Protocol = Protocol(meta: (bool, Option<int>) -> string, readies: string -> bool, shutdown: string -> bool)

  datatype Client = Client(buf: string, wire: seq<string>)

  /** `sent` is every line broadcast so far; `commands` what was forwarded to the process, with its
      sender; `kills` counts shutdown requests. */
  datatype Host = Host(ready: bool, exited: Option<int>, buf: string, ring: seq<string>, clients: map<ClientId, Client>,
                       sent: seq<string>, commands: seq<(ClientId, string)>, kills: nat)

  const STARTED := Host(false, None, "", [], map[], [], [], 0)

  function Last(lines: seq<string>, n: nat): seq<string> {
    if |lines| <= n then lines else lines[|lines| - n..]
  }

  function Wired(clients: map<ClientId, Client>, line: string): map<ClientId, Client> {
    map c | c in clients :: clients[c].(wire := clients[c].wire + [line])
  }

  function Broadcast(h: Host, line: string): Host {
    var ring := h.ring + [line];
    h.(ring := if |ring| > RING_MAX then ring[1..] else ring, clients := Wired(h.clients, line), sent := h.sent + [line])
  }

  function Meta(p: Protocol, h: Host): string {
    p.meta(h.ready, h.exited)
  }

  function HandleLine(p: Protocol, h: Host, line: string): Host {
    if !h.ready && p.readies(line) then
      var r := h.(ready := true);
      Broadcast(Broadcast(r, Meta(p, r)), line)
    else Broadcast(h, line)
  }

  function HandleLines(p: Protocol, h: Host, lines: seq<string>): Host
    decreases |lines|
  {
    if lines == [] then h else HandleLines(p, HandleLine(p, h, lines[0]), lines[1..])
  }

  function Forwarded(p: Protocol, c: ClientId, lines: seq<string>): seq<(ClientId, string)> {
    if lines == [] then []
    else (if p.shutdown(lines[0]) then [] else [(c, lines[0])]) + Forwarded(p, c, lines[1..])
  }

  function Kills(p: Protocol, lines: seq<string>): nat {
    if lines == [] then 0 else (if p.shutdown(lines[0]) then 1 else 0) + Kills(p, lines[1..])
  }

  datatype Event =
    | Output(chunk: string)
    | Connect(c: ClientId)
    | Close(c: ClientId)
    | Data(c: ClientId, chunk: string)
    | Exit(code: int)

  function Step(p: Protocol, h: Host, e: Event): Host {
    match e
    case Output(chunk) =>
      var f := Receive(h.buf, chunk);
      HandleLines(p, h, f.lines).(buf := f.buf)
    case Connect(c) => h.(clients := h.clients[c := Client("", [Meta(p, h)] + h.ring + [REPLAY_COMPLETE])])
    case Close(c) => h.(clients := h.clients - {c})
    case Data(c, chunk) =>
      if c !in h.clients then h
      else
        var f := Receive(h.clients[c].buf, chunk);
        h.(clients := h.clients[c := h.clients[c].(buf := f.buf)],
           commands := h.commands + Forwarded(p, c, f.lines), kills := h.kills + Kills(p, f.lines))
    case Exit(code) =>
      var g := h.(exited := Some(code));
      Broadcast(g, Meta(p, g))
  }

  /** A connection is a new socket. */
  predicate Possible(h: Host, e: Event) {
    e.Connect? ==> e.c !in h.clients
  }

  ghost predicate Runs(p: Protocol, h: Host, es: seq<Event>, t: Host)
    decreases |es|
  {
    if es == [] then h == t else Possible(h, es[0]) && Runs(p, Step(p, h, es[0]), es[1..], t)
  }

  // ---------------------------------------------------------------------------------------------
  // The ring and the wires

  predicate RingHolds(h: Host) {
    h.ring == Last(h.sent, RING_MAX)
  }

  /** The ring is always the last lines broadcast. */
  lemma BroadcastKeepsRing(h: Host, line: string)
    requires RingHolds(h)
    ensures RingHolds(Broadcast(h, line))
  {
  }

  /** A client's wire since a point of the run: what it had then, and every line since. */
  ghost predicate Followed(h: Host, t: Host, c: ClientId) {
    && |h.sent| <= |t.sent| && t.sent[..|h.sent|] == h.sent
    && (c in h.clients && c in t.clients ==> t.clients[c].wire == h.clients[c].wire + t.sent[|h.sent|..])
  }

  lemma FollowedTrans(h: Host, g: Host, t: Host, c: ClientId)
    requires Followed(h, g, c) && Followed(g, t, c)
    requires c in h.clients && c in t.clients ==> c in g.clients
    ensures Followed(h, t, c)
  {
    assert t.sent[..|h.sent|] == t.sent[..|g.sent|][..|h.sent|];
    assert t.sent[|h.sent|..] == g.sent[|h.sent|..] + t.sent[|g.sent|..];
  }

  lemma BroadcastFollowed(h: Host, line: string, c: ClientId)
    ensures Followed(h, Broadcast(h, line), c) && (c in Broadcast(h, line).clients <==> c in h.clients)
  {
  }

  lemma HandleLineFollowed(p: Protocol, h: Host, line: string, c: ClientId)
    requires RingHolds(h)
    ensures var t := HandleLine(p, h, line); RingHolds(t) && Followed(h, t, c) && (c in t.clients <==> c in h.clients)
  {
    if !h.ready && p.readies(line) {
      var r := h.(ready := true);
      var g := Broadcast(r, Meta(p, r));
      BroadcastFollowed(r, Meta(p, r), c);
      BroadcastKeepsRing(r, Meta(p, r));
      BroadcastFollowed(g, line, c);
      BroadcastKeepsRing(g, line);
      FollowedTrans(r, g, Broadcast(g, line), c);
    } else {
      BroadcastFollowed(h, line, c);
      BroadcastKeepsRing(h, line);
    }
  }

  lemma {:induction false} HandleLinesFollowed(p: Protocol, h: Host, lines: seq<string>, c: ClientId)
    requires RingHolds(h)
    ensures var t := HandleLines(p, h, lines); RingHolds(t) && Followed(h, t, c) && (c in t.clients <==> c in h.clients)
    decreases |lines|
  {
    if lines == [] {
      assert h.sent[|h.sent|..] == [];
    } else {
      var g := HandleLine(p, h, lines[0]);
      HandleLineFollowed(p, h, lines[0], c);
      HandleLinesFollowed(p, g, lines[1..], c);
      FollowedTrans(h, g, HandleLines(p, g, lines[1..]), c);
    }
  }

  lemma StepFollowed(p: Protocol, h: Host, e: Event, c: ClientId)
    requires RingHolds(h) && Possible(h, e)
    ensures RingHolds(Step(p, h, e)) && Followed(h, Step(p, h, e), c)
  {
    match e
    case Output(chunk) => HandleLinesFollowed(p, h, Receive(h.buf, chunk).lines, c);
    case Exit(code) =>
      var g := h.(exited := Some(code));
      BroadcastFollowed(g, Meta(p, g), c);
      BroadcastKeepsRing(g, Meta(p, g));
    case _ => assert h.sent[|h.sent|..] == [];
  }

  /** A client that stays connected is still there. */
  predicate Stays(es: seq<Event>, c: ClientId) {
    forall e :: e in es ==> !(e.Close? && e.c == c)
  }

  lemma StepStays(p: Protocol, h: Host, e: Event, c: ClientId)
    requires RingHolds(h) && c in h.clients && !(e.Close? && e.c == c)
    ensures c in Step(p, h, e).clients
  {
    if e.Output? {
      HandleLinesFollowed(p, h, Receive(h.buf, e.chunk).lines, c);
    }
  }

  lemma {:induction false} RunFollowed(p: Protocol, h: Host, es: seq<Event>, t: Host, c: ClientId)
    requires RingHolds(h) && Runs(p, h, es, t) && c in h.clients && Stays(es, c)
    ensures RingHolds(t) && c in t.clients && Followed(h, t, c)
    decreases |es|
  {
    if es == [] {
      assert h.sent[|h.sent|..] == [];
    } else {
      var next := Step(p, h, es[0]);
      assert es[0] in es;
      StepFollowed(p, h, es[0], c);
      StepStays(p, h, es[0], c);
      RunFollowed(p, next, es[1..], t, c);
      FollowedTrans(h, next, t, c);
    }
  }

  /** All the lines, or the last 4000. */
  function LastLines(lines: seq<string>): seq<string> {
    if |lines| <= 4000 then lines else lines[|lines| - 4000..]
  }

  /** Whatever happens after a client connects and until it leaves, it has received exactly: the meta
      frame of the moment, the last lines broadcast before (all of them, or the last 4000) in order, the
      replay marker, and every line broadcast since, with no gap and no repeat. */
  lemma ClientReceives(p: Protocol, h: Host, c: ClientId, es: seq<Event>, t: Host)
    requires RingHolds(h) && c !in h.clients && Runs(p, Step(p, h, Connect(c)), es, t) && Stays(es, c)
    ensures c in t.clients && |h.sent| <= |t.sent| && t.sent[..|h.sent|] == h.sent
    ensures t.clients[c].wire == [p.meta(h.ready, h.exited)] + LastLines(t.sent[..|h.sent|]) + [REPLAY_COMPLETE] + t.sent[|h.sent|..]
  {
    RunFollowed(p, Step(p, h, Connect(c)), es, t, c);
  }

  lemma {:induction false} RunKeepsRing(p: Protocol, h: Host, es: seq<Event>, t: Host)
    requires RingHolds(h) && Runs(p, h, es, t)
    ensures t.ring == LastLines(t.sent)
    decreases |es|
  {
    if es != [] {
      StepFollowed(p, h, es[0], 0);
      RunKeepsRing(p, Step(p, h, es[0]), es[1..], t);
    }
  }

  // ---------------------------------------------------------------------------------------------
  // What is broadcast

  /** The output lines with one readiness frame slipped in just before the line that brought it. */
  function Announced(p: Protocol, ready: bool, exited: Option<int>, lines: seq<string>): seq<string>
    decreases |lines|
  {
    if lines == [] then []
    else if !ready && p.readies(lines[0]) then [p.meta(true, exited), lines[0]] + Announced(p, true, exited, lines[1..])
    else [lines[0]] + Announced(p, ready, exited, lines[1..])
  }

  predicate AnyReadies(p: Protocol, lines: seq<string>) {
    exists l :: l in lines && p.readies(l)
  }

  lemma AnyReadiesConcat(p: Protocol, a: seq<string>, b: seq<string>)
    ensures AnyReadies(p, a + b) <==> AnyReadies(p, a) || AnyReadies(p, b)
  {
    assert forall l :: l in a + b <==> l in a || l in b;
  }

  lemma HandleLineSends(p: Protocol, h: Host, line: string)
    ensures var t := HandleLine(p, h, line);
            && t.sent == h.sent + (if !h.ready && p.readies(line) then [p.meta(true, h.exited), line] else [line])
            && (t.ready <==> h.ready || p.readies(line))
            && t.exited == h.exited && t.buf == h.buf
  {
  }

  lemma {:induction false} HandleLinesSends(p: Protocol, h: Host, lines: seq<string>)
    ensures var t := HandleLines(p, h, lines);
            && t.sent == h.sent + Announced(p, h.ready, h.exited, lines)
            && (t.ready <==> h.ready || AnyReadies(p, lines))
            && t.exited == h.exited && t.buf == h.buf
    decreases |lines|
  {
    if lines != [] {
      HandleLineSends(p, h, lines[0]);
      HandleLinesSends(p, HandleLine(p, h, lines[0]), lines[1..]);
      AnyReadiesHead(p, lines);
    }
  }

  lemma AnyReadiesHead(p: Protocol, lines: seq<string>)
    requires lines != []
    ensures AnyReadies(p, lines) <==> p.readies(lines[0]) || AnyReadies(p, lines[1..])
  {
    assert lines == [lines[0]] + lines[1..];
    AnyReadiesConcat(p, [lines[0]], lines[1..]);
    assert AnyReadies(p, [lines[0]]) <==> p.readies(lines[0]);
  }

  lemma {:induction false} AnnouncedConcat(p: Protocol, ready: bool, exited: Option<int>, a: seq<string>, b: seq<string>)
    ensures Announced(p, ready, exited, a + b)
            == Announced(p, ready, exited, a) + Announced(p, ready || AnyReadies(p, a), exited, b)
    decreases |a|
  {
    if a == [] {
      assert a + b == b;
    } else {
      AnnouncedConcat(p, ready || p.readies(a[0]), exited, a[1..], b);
      assert (a + b)[0] == a[0] && (a + b)[1..] == a[1..] + b;
      AnyReadiesHead(p, a);
      var first := if !ready && p.readies(a[0]) then [p.meta(true, exited), a[0]] else [a[0]];
      var next := ready || p.readies(a[0]);
      assert Announced(p, ready, exited, a) == first + Announced(p, next, exited, a[1..]);
      Regroup(first, Announced(p, next, exited, a[1..]), Announced(p, next || AnyReadies(p, a[1..]), exited, b));
    }
  }

  function OutputsOf(es: seq<Event>): seq<string> {
    if es == [] then [] else (if es[0].Output? then [es[0].chunk] else []) + OutputsOf(es[1..])
  }

  lemma OtherStepKeeps(p: Protocol, h: Host, e: Event)
    requires e.Connect? || e.Close? || e.Data?
    ensures var t := Step(p, h, e); t.sent == h.sent && t.ready == h.ready && t.exited == h.exited && t.buf == h.buf
  {
  }

  lemma OutputStep(p: Protocol, h: Host, chunk: string, text: string)
    requires '\n' !in h.buf
    ensures var g := Step(p, h, Output(chunk));
            && '\n' !in g.buf && g.exited == h.exited
            && g.sent + Announced(p, g.ready, g.exited, Receive(g.buf, text).lines)
               == h.sent + Announced(p, h.ready, h.exited, Receive(h.buf, chunk + text).lines)
            && Receive(g.buf, text).buf == Receive(h.buf, chunk + text).buf
  {
    var first := Receive(h.buf, chunk);
    HandleLinesSends(p, h, first.lines);
    RemainderHasNone(h.buf + chunk, '\n');
    TwoChunks(h.buf, chunk, text);
    SendsCompose(p, h, Step(p, h, Output(chunk)), first.lines, Receive(first.buf, text).lines);
  }

  lemma SendsCompose(p: Protocol, h: Host, g: Host, a: seq<string>, b: seq<string>)
    requires g.sent == h.sent + Announced(p, h.ready, h.exited, a)
    requires (g.ready <==> h.ready || AnyReadies(p, a)) && g.exited == h.exited
    ensures g.sent + Announced(p, g.ready, g.exited, b) == h.sent + Announced(p, h.ready, h.exited, a + b)
  {
    AnnouncedConcat(p, h.ready, h.exited, a, b);
  }

  /** What is broadcast depends only on the text the process wrote, not on how it was chunked nor on
      what clients did meanwhile: its lines in order, with one readiness frame. */
  lemma {:induction false} BroadcastsTheLines(p: Protocol, h: Host, es: seq<Event>, t: Host)
    requires Runs(p, h, es, t) && '\n' !in h.buf && forall e :: e in es ==> !e.Exit?
    ensures t.sent == h.sent + Announced(p, h.ready, h.exited, Receive(h.buf, Joined(OutputsOf(es))).lines)
    ensures t.buf == Receive(h.buf, Joined(OutputsOf(es))).buf
    decreases |es|
  {
    if es == [] {
      assert h.buf + [] == h.buf;
      NoMoreLines(h.buf);
    } else {
      assert es[0] in es;
      var text := Joined(OutputsOf(es[1..]));
      if es[0].Output? {
        OutputStep(p, h, es[0].chunk, text);
        assert ([es[0].chunk] + OutputsOf(es[1..]))[1..] == OutputsOf(es[1..]);
      } else {
        OtherStepKeeps(p, h, es[0]);
        assert OutputsOf(es) == OutputsOf(es[1..]);
      }
      BroadcastsTheLines(p, Step(p, h, es[0]), es[1..], t);
    }
  }

  // ---------------------------------------------------------------------------------------------
  // What clients ask for, and the end of the process

  /** The lines that ask for no shutdown. */
  function Kept(p: Protocol, lines: seq<string>): seq<string> {
    if lines == [] then []
    else if p.shutdown(lines[|lines| - 1]) then Kept(p, lines[..|lines| - 1])
    else Kept(p, lines[..|lines| - 1]) + [lines[|lines| - 1]]
  }

  lemma {:induction false} KeptConcat(p: Protocol, a: seq<string>, b: seq<string>)
    ensures Kept(p, a + b) == Kept(p, a) + Kept(p, b)
  {
    if b == [] {
      assert a + b == a;
    } else {
      var init, last := b[..|b| - 1], b[|b| - 1];
      assert (a + b)[..|a + b| - 1] == a + init;
      KeptConcat(p, a, init);
    }
  }

  /** What came from one client, in order. */
  function SentBy(c: ClientId, commands: seq<(ClientId, string)>): seq<string> {
    if commands == [] then []
    else SentBy(c, commands[..|commands| - 1])
         + if commands[|commands| - 1].0 == c then [commands[|commands| - 1].1] else []
  }

  lemma {:induction false} SentByConcat(c: ClientId, a: seq<(ClientId, string)>, b: seq<(ClientId, string)>)
    ensures SentBy(c, a + b) == SentBy(c, a) + SentBy(c, b)
  {
    if b == [] {
      assert a + b == a;
    } else {
      assert (a + b)[..|a + b| - 1] == a + b[..|b| - 1];
      SentByConcat(c, a, b[..|b| - 1]);
    }
  }

  lemma {:induction false} ForwardedIsKept(p: Protocol, c: ClientId, lines: seq<string>, other: ClientId)
    ensures SentBy(other, Forwarded(p, c, lines)) == if other == c then Kept(p, lines) else []
    ensures Kills(p, lines) == |lines| - |Kept(p, lines)|
    ensures |Forwarded(p, c, lines)| == |Kept(p, lines)|
  {
    if lines != [] {
      ForwardedIsKept(p, c, lines[1..], other);
      KeptConcat(p, [lines[0]], lines[1..]);
      assert lines == [lines[0]] + lines[1..] && [lines[0]][..0] == [];
      var one := [(c, lines[0])];
      assert one[..0] == [];
      SentByConcat(other, if p.shutdown(lines[0]) then [] else one, Forwarded(p, c, lines[1..]));
    }
  }

  /** One chunk from a client: each of its complete lines goes to the process, in order, or kills it if it asks
      for that; nothing is broadcast. */
  lemma DataObeyed(p: Protocol, h: Host, c: ClientId, chunk: string)
    requires c in h.clients
    ensures var t, lines := Step(p, h, Data(c, chunk)), Receive(h.clients[c].buf, chunk).lines;
            && |t.commands| == |h.commands| + |Kept(p, lines)| && t.commands[..|h.commands|] == h.commands
            && SentBy(c, t.commands) == SentBy(c, h.commands) + Kept(p, lines)
            && t.kills == h.kills + |lines| - |Kept(p, lines)|
            && t == h.(clients := t.clients, commands := t.commands, kills := t.kills)
  {
    var lines := Receive(h.clients[c].buf, chunk).lines;
    ForwardedIsKept(p, c, lines, c);
    SentByConcat(c, h.commands, Forwarded(p, c, lines));
  }

  /** Everything one client wrote. */
  function DataOf(c: ClientId, es: seq<Event>): seq<string> {
    if es == [] then [] else (if es[0].Data? && es[0].c == c then [es[0].chunk] else []) + DataOf(c, es[1..])
  }

  lemma HandlesCommandsAlike(p: Protocol, h: Host, e: Event, c: ClientId)
    requires RingHolds(h) && c in h.clients && Possible(h, e) && !(e.Close? && e.c == c) && !(e.Data? && e.c == c)
    ensures var t := Step(p, h, e);
            c in t.clients && t.clients[c].buf == h.clients[c].buf && SentBy(c, t.commands) == SentBy(c, h.commands)
  {
    match e
    case Output(chunk) => LinesKeepClients(p, h, Receive(h.buf, chunk).lines, c);
    case Data(other, chunk) =>
      if other in h.clients {
        ForwardedIsKept(p, other, Receive(h.clients[other].buf, chunk).lines, c);
        SentByConcat(c, h.commands, Forwarded(p, other, Receive(h.clients[other].buf, chunk).lines));
      }
    case _ =>
  }

  lemma {:induction false} LinesKeepClients(p: Protocol, h: Host, lines: seq<string>, c: ClientId)
    requires c in h.clients
    ensures var t := HandleLines(p, h, lines);
            c in t.clients && t.clients[c].buf == h.clients[c].buf && t.commands == h.commands
    decreases |lines|
  {
    if lines != [] {
      LinesKeepClients(p, HandleLine(p, h, lines[0]), lines[1..], c);
    }
  }

  /** One chunk more or less at a time. */
  lemma DataStep(p: Protocol, h: Host, c: ClientId, chunk: string, text: string)
    requires c in h.clients && '\n' !in h.clients[c].buf
    ensures var t := Step(p, h, Data(c, chunk));
            && c in t.clients && '\n' !in t.clients[c].buf
            && SentBy(c, t.commands) + Kept(p, Receive(t.clients[c].buf, text).lines)
               == SentBy(c, h.commands) + Kept(p, Receive(h.clients[c].buf, chunk + text).lines)
  {
    var buf := h.clients[c].buf;
    var first := Receive(buf, chunk);
    DataObeyed(p, h, c, chunk);
    RemainderHasNone(buf + chunk, '\n');
    TwoChunks(buf, chunk, text);
    KeptConcat(p, first.lines, Receive(first.buf, text).lines);
    Regroup(SentBy(c, h.commands), Kept(p, first.lines), Kept(p, Receive(first.buf, text).lines));
  }

  lemma DataOfHead(c: ClientId, es: seq<Event>)
    requires es != []
    ensures Joined(DataOf(c, es)) == (if es[0].Data? && es[0].c == c then es[0].chunk else []) + Joined(DataOf(c, es[1..]))
  {
    var rest := DataOf(c, es[1..]);
    if es[0].Data? && es[0].c == c {
      assert ([es[0].chunk] + rest)[1..] == rest;
    } else {
      assert [] + rest == rest && [] + Joined(rest) == Joined(rest);
    }
  }

  /** Whatever else happens, and however its text is chunked: what is forwarded for a client is the lines it
      wrote, in order, without those that ask for a shutdown. */
  lemma {:induction false} ForwardsTheLines(p: Protocol, h: Host, c: ClientId, es: seq<Event>, t: Host)
    requires RingHolds(h) && Runs(p, h, es, t) && c in h.clients && Stays(es, c) && '\n' !in h.clients[c].buf
    ensures SentBy(c, t.commands)
            == SentBy(c, h.commands) + Kept(p, Receive(h.clients[c].buf, Joined(DataOf(c, es))).lines)
    decreases |es|
  {
    if es == [] {
      assert h.clients[c].buf + [] == h.clients[c].buf;
      NoMoreLines(h.clients[c].buf);
    } else {
      assert es[0] in es;
      StepFollowed(p, h, es[0], c);
      DataOfHead(c, es);
      ForwardsOne(p, h, c, es[0], Joined(DataOf(c, es[1..])));
      ForwardsTheLines(p, Step(p, h, es[0]), c, es[1..], t);
    }
  }

  lemma ForwardsOne(p: Protocol, h: Host, c: ClientId, e: Event, text: string)
    requires RingHolds(h) && Possible(h, e) && c in h.clients && !(e.Close? && e.c == c) && '\n' !in h.clients[c].buf
    ensures var t := Step(p, h, e);
            && c in t.clients && '\n' !in t.clients[c].buf
            && SentBy(c, t.commands) + Kept(p, Receive(t.clients[c].buf, text).lines)
               == SentBy(c, h.commands)
                  + Kept(p, Receive(h.clients[c].buf, (if e.Data? && e.c == c then e.chunk else []) + text).lines)
  {
    if e.Data? && e.c == c {
      DataStep(p, h, c, e.chunk, text);
    } else {
      HandlesCommandsAlike(p, h, e, c);
      assert [] + text == text;
    }
  }

  /** The exit is recorded, and told to everyone connected in one frame. */
  lemma ExitIsTold(p: Protocol, h: Host, code: int)
    ensures var t, frame := Step(p, h, Exit(code)), p.meta(h.ready, Some(code));
            && t.exited == Some(code) && t.sent == h.sent + [frame] && t.clients.Keys == h.clients.Keys
            && forall c :: c in h.clients ==> t.clients[c].wire == h.clients[c].wire + [frame]
  {
  }

  /** And stays recorded for whoever connects later. */
  lemma {:induction false} ExitStands(p: Protocol, h: Host, es: seq<Event>, t: Host)
    requires Runs(p, h, es, t) && forall e :: e in es ==> !e.Exit?
    ensures t.exited == h.exited
    decreases |es|
  {
    if es != [] {
      assert es[0] in es;
      if es[0].Output? {
        HandleLinesSends(p, h, Receive(h.buf, es[0].chunk).lines);
      }
      ExitStands(p, Step(p, h, es[0]), es[1..], t);
    }
  }

  /** A client that left gets nothing more, and stays away until it connects again. */
  lemma {:induction false} LeftIsGone(p: Protocol, h: Host, c: ClientId, es: seq<Event>, t: Host)
    requires RingHolds(h) && Runs(p, Step(p, h, Close(c)), es, t) && Connect(c) !in es
    ensures c !in t.clients
  {
    StaysAway(p, Step(p, h, Close(c)), c, es, t);
  }

  lemma {:induction false} StaysAway(p: Protocol, h: Host, c: ClientId, es: seq<Event>, t: Host)
    requires RingHolds(h) && c !in h.clients && Runs(p, h, es, t) && Connect(c) !in es
    ensures c !in t.clients
    decreases |es|
  {
    if es != [] {
      assert es[0] in es;
      StepFollowed(p, h, es[0], c);
      if es[0].Output? {
        HandleLinesFollowed(p, h, Receive(h.buf, es[0].chunk).lines, c);
      }
      StaysAway(p, Step(p, h, es[0]), c, es[1..], t);
    }
  }

  lemma TwoChunks(buf: string, first: string, text: string)
    requires '\n' !in buf
    ensures Receive(buf, first + text).lines == Receive(buf, first).lines + Receive(Receive(buf, first).buf, text).lines
    ensures Receive(buf, first + text).buf == Receive(Receive(buf, first).buf, text).buf
  {
    assert buf + (first + text) == buf + first + text;
    SplitResumes(buf + first, text, '\n');
    CleanedConcat(Complete(buf + first, '\n'), Complete(Remainder(buf + first, '\n') + text, '\n'));
  }

  // ---------------------------------------------------------------------------------------------
  // The reading loops

  /** The host once every complete line in its buffer is handled. */
  function Pumped(p: Protocol, h: Host): Host {
    HandleLines(p, h, Cleaned(Complete(h.buf, '\n'))).(buf := Remainder(h.buf, '\n'))
  }

  /** Handling lines neither reads nor changes the buffer. */
  lemma {:induction false} BufferIsInert(p: Protocol, h: Host, buf: string, lines: seq<string>)
    ensures HandleLines(p, h.(buf := buf), lines) == HandleLines(p, h, lines).(buf := buf)
    decreases |lines|
  {
    if lines != [] {
      BufferIsInert(p, HandleLine(p, h, lines[0]), buf, lines[1..]);
      assert HandleLine(p, h.(buf := buf), lines[0]) == HandleLine(p, h, lines[0]).(buf := buf);
    }
  }

  lemma PumpStarts(p: Protocol, h: Host, chunk: string)
    ensures Pumped(p, h.(buf := h.buf + chunk)) == Step(p, h, Output(chunk))
  {
    BufferIsInert(p, h, h.buf + chunk, Receive(h.buf, chunk).lines);
  }

  lemma PumpOne(p: Protocol, h: Host, nl: nat)
    requires nl < |h.buf| && h.buf[nl] == '\n' && '\n' !in h.buf[..nl]
    ensures var line, cut := Trim(h.buf[..nl]), h.(buf := h.buf[nl + 1..]);
            Pumped(p, if line == "" then cut else HandleLine(p, cut, line)) == Pumped(p, h)
  {
    var line, rest := Trim(h.buf[..nl]), Cleaned(Complete(h.buf[nl + 1..], '\n'));
    NextLine(h.buf, nl);
    if line == "" {
      assert [] + rest == rest;
      BufferIsInert(p, h, h.buf[nl + 1..], rest);
    } else {
      assert ([line] + rest)[1..] == rest;
      BufferIsInert(p, h, h.buf[nl + 1..], [line] + rest);
      LineKeepsBuffer(p, h.(buf := h.buf[nl + 1..]), line);
    }
  }

  lemma LineKeepsBuffer(p: Protocol, h: Host, line: string)
    ensures HandleLine(p, h, line).buf == h.buf
  {
  }

  /** What has been forwarded and how often the process was killed, and what is left unread. */
  datatype Obeyed = Obeyed(commands: seq<(ClientId, string)>, kills: nat, left: string)

  /** The same once every complete line in the text is dealt with. */
  function ObeyAll(p: Protocol, c: ClientId, o: Obeyed): Obeyed {
    var lines := Cleaned(Complete(o.left, '\n'));
    Obeyed(o.commands + Forwarded(p, c, lines), o.kills + Kills(p, lines), Remainder(o.left, '\n'))
  }

  function ObeyLine(p: Protocol, c: ClientId, o: Obeyed, line: string): Obeyed {
    if line == "" then o else if p.shutdown(line) then o.(kills := o.kills + 1) else o.(commands := o.commands + [(c, line)])
  }

  lemma ObeyOne(p: Protocol, c: ClientId, o: Obeyed, nl: nat)
    requires nl < |o.left| && o.left[nl] == '\n' && '\n' !in o.left[..nl]
    ensures ObeyAll(p, c, ObeyLine(p, c, o.(left := o.left[nl + 1..]), Trim(o.left[..nl]))) == ObeyAll(p, c, o)
  {
    var rest := Cleaned(Complete(o.left[nl + 1..], '\n'));
    NextLine(o.left, nl);
    if Trim(o.left[..nl]) == "" {
      assert [] + rest == rest;
    } else {
      assert ([Trim(o.left[..nl])] + rest)[1..] == rest;
    }
  }

  // ---------------------------------------------------------------------------------------------
  // The host object

  class DetachedHost {
    const protocol: Protocol
    var ready: bool
    var exited: Option<int>
    var buf: string
    var ring: seq<string>
    var clients: map<ClientId, Client>
    ghost var sent: seq<string>
    var commands: seq<(ClientId, string)>
    var kills: nat

    ghost function View(): Host
      reads this
    {
      Host(ready, exited, buf, ring, clients, sent, commands, kills)
    }

    constructor (protocol: Protocol)
      ensures View() == STARTED && this.protocol == protocol
    {
      this.protocol := protocol;
      ready, exited, buf, ring, clients, sent, commands, kills := false, None, "", [], map[], [], [], 0;
    }

    method SendToAll(line: string)
      modifies this`ring, this`clients, this`sent
      ensures View() == Broadcast(old(View()), line)
    {
      ring := ring + [line];
      if |ring| > RING_MAX {
        ring := ring[1..];
      }
      clients := Wired(clients, line);
      sent := sent + [line];
    }

    method OnLine(line: string)
      modifies this`ready, this`ring, this`clients, this`sent
      ensures View() == HandleLine(protocol, old(View()), line)
    {
      if !ready && protocol.readies(line) {
        ready := true;
        SendToAll(protocol.meta(ready, exited));
      }
      SendToAll(line);
    }

    method OnOutput(chunk: string)
      modifies this
      ensures View() == Step(protocol, old(View()), Output(chunk))
    {
      PumpStarts(protocol, View(), chunk);
      buf := buf + chunk;
      ghost var start := View();
      var nl := IndexOfNewline(buf);
      while nl >= 0
        invariant nl == IndexOfNewline(buf)
        invariant Pumped(protocol, View()) == Pumped(protocol, start)
        decreases |buf|
      {
        PumpOne(protocol, View(), nl);
        var line := Trim(buf[..nl]);
        buf := buf[nl + 1..];
        if line != "" {
          OnLine(line);
        }
        nl := IndexOfNewline(buf);
      }
      NoMoreLines(buf);
    }

    method OnConnect(c: ClientId)
      requires c !in clients
      modifies this`clients
      ensures View() == Step(protocol, old(View()), Connect(c))
    {
      var wire := [protocol.meta(ready, exited)];
      for i := 0 to |ring|
        invariant wire == [protocol.meta(ready, exited)] + ring[..i]
      {
        wire := wire + [ring[i]];
      }
      assert ring[..|ring|] == ring;
      clients := clients[c := Client("", wire + [REPLAY_COMPLETE])];
    }

    method OnClose(c: ClientId)
      modifies this`clients
      ensures View() == Step(protocol, old(View()), Close(c))
    {
      clients := clients - {c};
    }

    /** Forwards or obeys every complete line of a client's buffer. */
    method ForwardLines(c: ClientId, text: string) returns (left: string)
      modifies this`commands, this`kills
      ensures commands == old(commands) + Forwarded(protocol, c, Cleaned(Complete(text, '\n')))
      ensures kills == old(kills) + Kills(protocol, Cleaned(Complete(text, '\n')))
      ensures left == Remainder(text, '\n')
    {
      left := text;
      var nl := IndexOfNewline(left);
      while nl >= 0
        invariant nl == IndexOfNewline(left)
        invariant ObeyAll(protocol, c, Obeyed(commands, kills, left)) == ObeyAll(protocol, c, Obeyed(old(commands), old(kills), text))
        decreases |left|
      {
        ObeyOne(protocol, c, Obeyed(commands, kills, left), nl);
        var line := Trim(left[..nl]);
        left := left[nl + 1..];
        if line != "" {
          if protocol.shutdown(line) {
            kills := kills + 1;
          } else {
            commands := commands + [(c, line)];
          }
        }
        nl := IndexOfNewline(left);
      }
      NoMoreLines(left);
    }

    method OnData(c: ClientId, chunk: string)
      modifies this`clients, this`commands, this`kills
      ensures View() == Step(protocol, old(View()), Data(c, chunk))
    {
      if c !in clients {
        return;
      }
      var left := ForwardLines(c, clients[c].buf + chunk);
      clients := clients[c := clients[c].(buf := left)];
    }

    method OnExit(code: int)
      modifies this
      ensures View() == Step(protocol, old(View()), Exit(code))
    {
      exited := Some(code);
      SendToAll(protocol.meta(ready, exited));
    }
  }
}
