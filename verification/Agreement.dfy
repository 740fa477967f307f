/** A dialling and an answering mailer shaking hands: under every interleaving the two
    sides agree on whether the session is authenticated. */
module Agreement {
  import opened GoStrings
  import opened Address
  import opened Frames
  import opened SessionState
  import opened Handshake

  datatype Phase = Talking | Ready | Broken

  /** unsent: what is left of its greeting; read: how many frames of the other side it
      has read. */
  datatype Party = Party(ctx: Context, auth: Auth, unsent: seq<Frame>, wire: seq<Frame>, read: nat, phase: Phase)

  datatype World = World(client: Party, server: Party)

  /** Who meets whom: the contexts of both sides, the server's challenge, the keyed hash. */
  datatype Meeting = Meeting(client: Context, server: Context, challenge: string, mac: Mac) {
    function ClientGreeting(): seq<Frame> {
      Greeting(client, "")
    }

    function ServerGreeting(): seq<Frame> {
      Greeting(server, challenge)
    }

    function Target(): Link
      requires client.remoteLink.Some?
    {
      client.remoteLink.value
    }

    /** The server's link for the client's address. */
    function ServerLink(): Option<Link> {
      FindLink(server.cfg.links, [client.cfg.parsedAddress], None)
    }

    function Response(): Frame
      requires client.remoteLink.Some?
    {
      CramFrame(mac, Target().password, challenge)
    }
  }

  ghost predicate Proper(m: Meeting) {
    m.client.remoteLink.Some? && m.server.remoteLink.None? && IsToken(m.challenge)
  }

  /** The server checks a password for this client, and the client sends one. */
  predicate Examined(m: Meeting)
    requires m.client.remoteLink.Some?
  {
    m.ServerLink().Some? && m.ServerLink().value.password != "" && m.Target().password != ""
  }

  predicate Accepted(m: Meeting)
    requires m.client.remoteLink.Some?
  {
    Examined(m) && Accepts(m.mac, m.ServerLink().value.password, m.challenge, m.Response().payload[1..])
  }

  /** Both sides hold no password for this link, or the server accepts the client's. */
  predicate Matching(m: Meeting)
    requires m.client.remoteLink.Some?
  {
    Accepted(m) || (m.ServerLink().Some? && m.ServerLink().value.password == "" && m.Target().password == "")
  }

  /* ---- Steps ---- */

  /** What a side writes once its own handshake is over. */
  predicate IsTransfer(f: Frame) {
    !f.isCmd || (f.payload != "" && f.payload[0] in {M_FILE, M_EOB, M_GOT, M_SKIP})
  }

  ghost predicate Greets(p: Party, p': Party) {
    p.unsent != [] && p' == p.(wire := p.wire + [p.unsent[0]], unsent := p.unsent[1..])
  }

  predicate CanHear(p: Party, q: Party) {
    p.unsent == [] && p.phase == Talking && p.read < |q.wire|
  }

  function Hearing(mac: Mac, p: Party, q: Party): Party
    requires CanHear(p, q)
  {
    var t := Act(p.ctx, mac, p.auth, Understand(p.ctx.cfg.parsedAddress.zone, q.wire[p.read]));
    p.(auth := t.auth, wire := p.wire + t.replies, read := p.read + 1,
       phase := if !t.Ok() then Broken else if t.auth.Resolved() then Ready else Talking)
  }

  ghost predicate Transfers(p: Party, p': Party, f: Frame) {
    p.phase == Ready && IsTransfer(f) && p' == p.(wire := p.wire + [f])
  }

  /** A step of the handshake proper. */
  ghost predicate Shakes(mac: Mac, p: Party, q: Party, p': Party) {
    Greets(p, p') || (CanHear(p, q) && p' == Hearing(mac, p, q))
  }

  ghost predicate Moves(mac: Mac, p: Party, q: Party, p': Party) {
    Shakes(mac, p, q, p') || exists f :: Transfers(p, p', f)
  }

  ghost predicate Next(m: Meeting, w: World, w': World) {
    || (Moves(m.mac, w.client, w.server, w'.client) && w'.server == w.server)
    || (Moves(m.mac, w.server, w.client, w'.server) && w'.client == w.client)
  }

  function Start(m: Meeting): World {
    World(Party(m.client, Fresh(""), m.ClientGreeting(), [], 0, Talking),
          Party(m.server, Fresh(m.challenge), m.ServerGreeting(), [], 0, Talking))
  }

  ghost predicate IsRun(m: Meeting, ws: seq<World>) {
    && ws != [] && ws[0] == Start(m)
    && forall i :: 0 <= i < |ws| - 1 ==> Next(m, ws[i], ws[i + 1])
  }

  /* ---- How the frames are understood ---- */

  /** An information line that offers no challenge. */
  predicate IsInfo(f: Frame) {
    f.isCmd && |f.payload| >= 2 && f.payload[0] == M_NUL && f.payload[1] != 'C' && f.payload[1] != 'O'
  }

  lemma UnderstandInfo(zone: uint16, f: Frame)
    requires IsInfo(f)
    ensures Understand(zone, f) == Ignored
  {
    var data := f.payload[1..];
    assert data[0] == f.payload[1];
    assert CRAM[0] == 'C' && "OPT "[0] == 'O';
  }

  lemma UnderstandChallenge(zone: uint16, challenge: string)
    requires IsToken(challenge)
    ensures Understand(zone, Cmd(M_NUL, "OPT " + CRAM + challenge)) == Offer(challenge)
  {
    var data := "OPT " + CRAM + challenge;
    assert Cmd(M_NUL, data).payload[1..] == data;
    var tokens := ["OPT", CRAM + challenge];
    FieldsOfJoin(tokens);
    assert Join(tokens[1..]) == CRAM + challenge;
    assert Join(tokens) == "OPT" + " " + (CRAM + challenge) == data;
    assert data[..4] == "OPT ";
    assert data[0] != CRAM[0];
    assert (CRAM + challenge)[|CRAM|..] == challenge;
    assert FirstChallenge(tokens) == FirstChallenge(tokens[1..]) == challenge;
  }

  lemma OneAddress(p: string, zone: uint16, a: FidoAddress)
    requires '@' !in p && Parse(p, zone) == Some(a)
    ensures AddressesIn([p], zone) == [a]
  {
    IndexAbsent(p, '@');
    assert p[..|p|] == p;
    assert [p][1..] == [];
  }

  lemma UnderstandAddress(zone: uint16, a: FidoAddress)
    ensures Understand(zone, Cmd(M_ADR, Print(a))) == Addresses([a])
  {
    PrintIsToken(a);
    PrintParse(a, zone);
    OneAddress(Print(a), zone, a);
    UnderstandToken(zone, Print(a), a);
  }

  lemma UnderstandToken(zone: uint16, data: string, a: FidoAddress)
    requires IsToken(data) && AddressesIn([data], zone) == [a]
    ensures Understand(zone, Cmd(M_ADR, data)) == Addresses([a])
  {
    assert Cmd(M_ADR, data).payload[1..] == data;
    FieldsOfJoin([data]);
  }

  function InfoLines(cfg: Config): seq<Frame> {
    Line("SYS ", cfg.systemName) + Line("ZYZ ", cfg.sysop) + Line("LOC ", cfg.location)
    + [Cmd(M_NUL, "NDL " + cfg.nodelistFlags), Cmd(M_NUL, "VER momail v" + cfg.version + " binkp/1.0")]
  }

  lemma LineIsInfo(keyword: string, value: string)
    requires keyword != "" && keyword[0] != 'C' && keyword[0] != 'O'
    ensures forall f :: f in Line(keyword, value) ==> IsInfo(f)
    ensures IsInfo(Cmd(M_NUL, keyword + value))
  {
  }

  lemma InfoLinesAreInfo(cfg: Config)
    ensures forall f :: f in InfoLines(cfg) ==> IsInfo(f)
  {
    LineIsInfo("SYS ", cfg.systemName);
    LineIsInfo("ZYZ ", cfg.sysop);
    LineIsInfo("LOC ", cfg.location);
    LineIsInfo("NDL ", cfg.nodelistFlags);
    LineIsInfo("VER momail v", cfg.version + " binkp/1.0");
    assert "VER momail v" + (cfg.version + " binkp/1.0") == "VER momail v" + cfg.version + " binkp/1.0";
  }

  lemma GreetingShape(ctx: Context, challenge: string)
    ensures Greeting(ctx, challenge)
            == (if ctx.IsOutgoing() then [] else [Cmd(M_NUL, "OPT " + CRAM + challenge)])
               + InfoLines(ctx.cfg) + [Cmd(M_ADR, Print(ctx.cfg.parsedAddress))]
  {
  }

  /** The n-th frame of a greeting, as the other side understands it. */
  lemma UnderstandGreeting(ctx: Context, challenge: string, zone: uint16, n: nat)
    requires n < |Greeting(ctx, challenge)|
    requires ctx.IsOutgoing() || IsToken(challenge)
    ensures Understand(zone, Greeting(ctx, challenge)[n])
            == if !ctx.IsOutgoing() && n == 0 then Offer(challenge)
               else if n == |Greeting(ctx, challenge)| - 1 then Addresses([ctx.cfg.parsedAddress])
               else Ignored
    ensures |Greeting(ctx, challenge)| >= 3
  {
    var g, lines := Greeting(ctx, challenge), InfoLines(ctx.cfg);
    GreetingShape(ctx, challenge);
    var k := if ctx.IsOutgoing() then 0 else 1;
    if n == |g| - 1 {
      UnderstandAddress(zone, ctx.cfg.parsedAddress);
    } else if n < k {
      UnderstandChallenge(zone, challenge);
    } else {
      InfoLinesAreInfo(ctx.cfg);
      assert g[n] == lines[n - k] && lines[n - k] in lines;
      UnderstandInfo(zone, g[n]);
    }
  }

  lemma UnderstandTransfer(zone: uint16, f: Frame)
    requires IsTransfer(f)
    ensures Understand(zone, f).Abort? || Understand(zone, f) == Ignored
  {
  }

  /* ---- Where each side stands after reading n frames ---- */

  function ClientAuth(m: Meeting, n: nat): Auth
    requires m.client.remoteLink.Some?
  {
    var last, open := n >= |m.ServerGreeting()|, m.Target().password == "";
    Auth(if last then [m.server.cfg.parsedAddress] else [], if last && open then m.client.remoteLink else None, "",
         if n >= 1 then m.challenge else "", n >= 1 && !open, last, last && open)
  }

  function ServerAuth(m: Meeting, n: nat): Auth {
    var last, link := n >= |m.ClientGreeting()|, m.ServerLink();
    var free := link.None? || link.value.password == "";
    Auth(if last then [m.client.cfg.parsedAddress] else [], if last && free then link else None,
         m.challenge, "", false, last, last && free)
  }

  function ClientTail(m: Meeting, n: nat): seq<Frame>
    requires m.client.remoteLink.Some?
  {
    if n >= 1 && m.Target().password != "" then [m.Response()] else []
  }

  function ServerTail(m: Meeting, n: nat): seq<Frame>
    requires m.client.remoteLink.Some?
  {
    if n > |m.ClientGreeting()| && Examined(m) then
      [if Accepted(m) then Cmd(M_OK, "Password accepted") else Cmd(M_ERR, "Bad password")]
    else []
  }

  ghost predicate ClientStands(m: Meeting, p: Party)
    requires m.client.remoteLink.Some?
  {
    var n := |m.ServerGreeting()|;
    && p.ctx == m.client
    && if p.read <= n then
         p.auth == ClientAuth(m, p.read) && p.phase == (if p.auth.Resolved() then Ready else Talking)
       else if Accepted(m) then
         && p.read == n + 1 && p.phase == Ready
         && p.auth == ClientAuth(m, n).(activeLink := m.client.remoteLink, authDone := true)
       else
         && p.auth == ClientAuth(m, n) && !p.auth.Resolved() && p.phase != Ready
         && (Examined(m) ==> p.phase == Broken)
  }

  ghost predicate ServerStands(m: Meeting, p: Party)
    requires m.client.remoteLink.Some?
  {
    var n := |m.ClientGreeting()|;
    && p.ctx == m.server
    && if p.read <= n then
         p.auth == ServerAuth(m, p.read) && p.phase == (if p.auth.Resolved() then Ready else Talking)
       else if Accepted(m) then
         && p.read == n + 1 && p.phase == Ready
         && p.auth == ServerAuth(m, n).(activeLink := m.ServerLink(), authDone := true)
       else
         && p.auth == ServerAuth(m, n) && !p.auth.Resolved() && p.phase != Ready
         && (Examined(m) ==> p.phase == Broken)
  }

  /** The wire holds the greeting, then the replies, then transfer frames, which are
      written only once the handshake is over. */
  ghost predicate Written(p: Party, greeting: seq<Frame>, tail: seq<Frame>) {
    && (p.unsent != [] ==> p.read == 0 && p.wire + p.unsent == greeting)
    && (p.unsent == [] ==> greeting + tail <= p.wire)
    && (|p.wire| > |greeting| + |tail| ==> p.phase == Ready)
    && forall j :: |greeting| + |tail| <= j < |p.wire| ==> IsTransfer(p.wire[j])
  }

  ghost predicate Inv(m: Meeting, w: World) {
    && Proper(m) && ClientStands(m, w.client) && ServerStands(m, w.server)
    && w.client.read <= |w.server.wire| && w.server.read <= |w.client.wire|
    && Written(w.client, m.ClientGreeting(), ClientTail(m, w.client.read))
    && Written(w.server, m.ServerGreeting(), ServerTail(m, w.server.read))
  }

  lemma GreetingLengths(m: Meeting)
    requires Proper(m)
    ensures |m.ClientGreeting()| >= 3 && |m.ServerGreeting()| >= 3
  {
    UnderstandGreeting(m.client, "", 0, 0);
    UnderstandGreeting(m.server, m.challenge, 0, 0);
  }

  lemma StartInv(m: Meeting)
    requires Proper(m)
    ensures Inv(m, Start(m))
  {
    GreetingLengths(m);
  }

  /** The client hears an event of the server's greeting. */
  lemma ClientHearsGreeting(m: Meeting, n: nat, e: Event)
    requires Proper(m) && n < |m.ServerGreeting()| && |m.ServerGreeting()| >= 3
    requires e == if n == 0 then Offer(m.challenge)
                  else if n == |m.ServerGreeting()| - 1 then Addresses([m.server.cfg.parsedAddress]) else Ignored
    ensures var t := Act(m.client, m.mac, ClientAuth(m, n), e);
            t.Ok() && t.auth == ClientAuth(m, n + 1) && ClientTail(m, n) + t.replies == ClientTail(m, n + 1)
  {
    assert [] + [m.server.cfg.parsedAddress] == [m.server.cfg.parsedAddress];
  }

  lemma ServerHearsGreeting(m: Meeting, n: nat, e: Event)
    requires Proper(m) && n < |m.ClientGreeting()| && |m.ClientGreeting()| >= 3
    requires e == if n == |m.ClientGreeting()| - 1 then Addresses([m.client.cfg.parsedAddress]) else Ignored
    ensures var t := Act(m.server, m.mac, ServerAuth(m, n), e);
            t.Ok() && t.auth == ServerAuth(m, n + 1) && t.replies == []
  {
    assert [] + [m.client.cfg.parsedAddress] == [m.client.cfg.parsedAddress];
  }

  lemma ServerHearsResponse(m: Meeting)
    requires Proper(m) && Examined(m)
    ensures var n := |m.ClientGreeting()|;
            var t := Act(m.server, m.mac, ServerAuth(m, n), Password(m.Response().payload[1..]));
            && t.replies == ServerTail(m, n + 1)
            && (if Accepted(m)
                then t.Ok() && t.auth == ServerAuth(m, n).(activeLink := m.ServerLink(), authDone := true)
                else !t.Ok() && t.auth == ServerAuth(m, n))
  {
  }

  lemma WireAt(p: Party, greeting: seq<Frame>, tail: seq<Frame>, n: nat)
    requires Written(p, greeting, tail) && n < |p.wire|
    ensures n < |greeting| ==> p.wire[n] == greeting[n]
    ensures |greeting| <= n < |greeting| + |tail| ==> p.wire[n] == tail[n - |greeting|]
    ensures n >= |greeting| + |tail| ==> p.phase == Ready && IsTransfer(p.wire[n])
    ensures n >= |greeting| ==> p.unsent == []
  {
    if p.unsent != [] {
      assert p.wire[n] == (p.wire + p.unsent)[n];
      assert |p.wire| < |greeting|;
    } else {
      assert forall j :: 0 <= j < |greeting + tail| ==> p.wire[j] == (greeting + tail)[j];
    }
  }

  /** A side that has heard one more event stands where it should. */
  ghost predicate Goes(mac: Mac, p: Party, p': Party, e: Event) {
    var t := Act(p.ctx, mac, p.auth, e);
    p' == p.(auth := t.auth, wire := p.wire + t.replies, read := p.read + 1,
             phase := if !t.Ok() then Broken else if t.auth.Resolved() then Ready else Talking)
  }

  lemma ClientGoes(m: Meeting, p: Party, p': Party, e: Event)
    requires Proper(m) && |m.ServerGreeting()| >= 3
    requires ClientStands(m, p) && p.phase == Talking && Goes(m.mac, p, p', e)
    requires var n := |m.ServerGreeting()|;
             if p.read < n then
               e == if p.read == 0 then Offer(m.challenge)
                    else if p.read == n - 1 then Addresses([m.server.cfg.parsedAddress]) else Ignored
             else if Examined(m) then (if Accepted(m) then e == Approval else e.Abort?)
             else e.Abort? || e == Ignored
    ensures ClientStands(m, p')
    ensures p'.wire == p.wire + Act(p.ctx, m.mac, p.auth, e).replies
    ensures ClientTail(m, p.read) + Act(p.ctx, m.mac, p.auth, e).replies == ClientTail(m, p'.read)
  {
    if p.read < |m.ServerGreeting()| {
      ClientHearsGreeting(m, p.read, e);
    }
  }

  lemma ServerGoes(m: Meeting, p: Party, p': Party, e: Event)
    requires Proper(m) && |m.ClientGreeting()| >= 3
    requires ServerStands(m, p) && p.phase == Talking && Goes(m.mac, p, p', e)
    requires var n := |m.ClientGreeting()|;
             if p.read < n then
               e == if p.read == n - 1 then Addresses([m.client.cfg.parsedAddress]) else Ignored
             else if m.Target().password != "" then p.read == n && e == Password(m.Response().payload[1..])
             else e.Abort? || e == Ignored
    ensures ServerStands(m, p')
    ensures p'.wire == p.wire + Act(p.ctx, m.mac, p.auth, e).replies
    ensures ServerTail(m, p.read) + Act(p.ctx, m.mac, p.auth, e).replies == ServerTail(m, p'.read)
  {
    if p.read < |m.ClientGreeting()| {
      ServerHearsGreeting(m, p.read, e);
    } else if Examined(m) {
      ServerHearsResponse(m);
    }
  }

  lemma StillWritten(p: Party, p': Party, greeting: seq<Frame>, tail: seq<Frame>, replies: seq<Frame>)
    requires Written(p, greeting, tail) && p.unsent == [] && p.phase != Ready
    requires p'.unsent == [] && p'.wire == p.wire + replies
    ensures Written(p', greeting, tail + replies)
  {
    assert p.wire == greeting + tail;
    assert p'.wire == greeting + (tail + replies);
  }

  lemma UnderstandVerdict(zone: uint16, text: string)
    ensures Understand(zone, Cmd(M_OK, text)) == Approval && Understand(zone, Cmd(M_ERR, text)).Abort?
  {
  }

  /** What the client can hear next. */
  lemma ClientEvent(m: Meeting, w: World)
    requires Inv(m, w) && CanHear(w.client, w.server)
    ensures var n, read := |m.ServerGreeting()|, w.client.read;
            var e := Understand(w.client.ctx.cfg.parsedAddress.zone, w.server.wire[read]);
            if read < n then
              e == if read == 0 then Offer(m.challenge)
                   else if read == n - 1 then Addresses([m.server.cfg.parsedAddress]) else Ignored
            else if Examined(m) then (if Accepted(m) then e == Approval else e.Abort?)
            else e.Abort? || e == Ignored
  {
    var q, n, zone := w.server, w.client.read, w.client.ctx.cfg.parsedAddress.zone;
    WireAt(q, m.ServerGreeting(), ServerTail(m, q.read), n);
    UnderstandVerdict(zone, "Password accepted");
    UnderstandVerdict(zone, "Bad password");
    if n < |m.ServerGreeting()| {
      UnderstandGreeting(m.server, m.challenge, zone, n);
    } else if n >= |m.ServerGreeting()| + |ServerTail(m, q.read)| {
      UnderstandTransfer(zone, q.wire[n]);
    }
  }

  lemma ClientHears(m: Meeting, w: World)
    requires Inv(m, w) && CanHear(w.client, w.server)
    ensures Inv(m, World(Hearing(m.mac, w.client, w.server), w.server))
  {
    GreetingLengths(m);
    var p, p' := w.client, Hearing(m.mac, w.client, w.server);
    var e := Understand(p.ctx.cfg.parsedAddress.zone, w.server.wire[p.read]);
    ClientEvent(m, w);
    ClientGoes(m, p, p', e);
    StillWritten(p, p', m.ClientGreeting(), ClientTail(m, p.read), Act(p.ctx, m.mac, p.auth, e).replies);
  }

  lemma ServerHears(m: Meeting, w: World)
    requires Inv(m, w) && CanHear(w.server, w.client)
    ensures Inv(m, World(w.client, Hearing(m.mac, w.server, w.client)))
  {
    GreetingLengths(m);
    var p, q := w.server, w.client;
    var n, g, zone := p.read, |m.ClientGreeting()|, p.ctx.cfg.parsedAddress.zone;
    var e := Understand(zone, q.wire[n]);
    WireAt(q, m.ClientGreeting(), ClientTail(m, q.read), n);
    if n < g {
      UnderstandGreeting(m.client, "", zone, n);
    } else if n >= g + |ClientTail(m, q.read)| {
      UnderstandTransfer(zone, q.wire[n]);
    }
    var p' := Hearing(m.mac, p, q);
    ServerGoes(m, p, p', e);
    StillWritten(p, p', m.ServerGreeting(), ServerTail(m, n), Act(p.ctx, m.mac, p.auth, e).replies);
  }

  lemma GreetingStep(m: Meeting, p: Party, p': Party, greeting: seq<Frame>, tail: seq<Frame>)
    requires Written(p, greeting, tail) && Greets(p, p') && (p.read == 0 ==> tail == [])
    ensures Written(p', greeting, tail)
  {
    assert p'.wire + p'.unsent == p.wire + p.unsent;
    if p'.unsent == [] {
      assert p'.wire + p'.unsent == p'.wire;
    }
  }

  lemma TransferStep(p: Party, p': Party, f: Frame, greeting: seq<Frame>, tail: seq<Frame>)
    requires Written(p, greeting, tail) && Transfers(p, p', f) && p.unsent == []
    ensures Written(p', greeting, tail)
  {
  }

  lemma NextKeepsInv(m: Meeting, w: World, w': World)
    requires Inv(m, w) && Next(m, w, w')
    ensures Inv(m, w')
  {
    GreetingLengths(m);
    if Moves(m.mac, w.client, w.server, w'.client) && w'.server == w.server {
      if CanHear(w.client, w.server) && w'.client == Hearing(m.mac, w.client, w.server) {
        ClientHears(m, w);
      } else if Greets(w.client, w'.client) {
        GreetingStep(m, w.client, w'.client, m.ClientGreeting(), ClientTail(m, w.client.read));
      } else {
        var f :| Transfers(w.client, w'.client, f);
        TransferStep(w.client, w'.client, f, m.ClientGreeting(), ClientTail(m, w.client.read));
      }
    } else {
      if CanHear(w.server, w.client) && w'.server == Hearing(m.mac, w.server, w.client) {
        ServerHears(m, w);
      } else if Greets(w.server, w'.server) {
        GreetingStep(m, w.server, w'.server, m.ServerGreeting(), ServerTail(m, w.server.read));
      } else {
        var f :| Transfers(w.server, w'.server, f);
        TransferStep(w.server, w'.server, f, m.ServerGreeting(), ServerTail(m, w.server.read));
      }
    }
  }

  lemma {:induction false} RunKeepsInv(m: Meeting, ws: seq<World>)
    requires Proper(m) && IsRun(m, ws)
    ensures Inv(m, ws[|ws| - 1])
    decreases |ws|
  {
    if |ws| == 1 {
      StartInv(m);
    } else {
      var n := |ws| - 1;
      ShorterRun(m, ws);
      RunKeepsInv(m, ws[..n]);
      NextKeepsInv(m, ws[n - 1], ws[n]);
    }
  }

  lemma ShorterRun(m: Meeting, ws: seq<World>)
    requires IsRun(m, ws) && |ws| > 1
    ensures IsRun(m, ws[..|ws| - 1]) && Next(m, ws[|ws| - 2], ws[|ws| - 1])
  {
    var n := |ws| - 1;
    var init := ws[..n];
    assert Next(m, ws[n - 1], ws[n - 1 + 1]);
    forall i | 0 <= i < |init| - 1
      ensures Next(m, init[i], init[i + 1])
    {
      assert Next(m, ws[i], ws[i + 1]);
    }
  }

  /* ---- The results ---- */

  /** No side can take another step of the handshake. */
  ghost predicate Quiescent(w: World) {
    && w.client.unsent == [] && w.server.unsent == []
    && !CanHear(w.client, w.server) && !CanHear(w.server, w.client)
  }

  ghost predicate BothAuthenticated(w: World) {
    && w.client.phase == Ready && w.client.auth.activeLink.Some?
    && w.server.phase == Ready && w.server.auth.activeLink.Some?
  }

  /** The handshake steps still possible; every handshake step uses up one, transfer
      frames none. */
  function StepsLeft(m: Meeting, w: World): int
    requires m.client.remoteLink.Some?
  {
    |w.client.unsent| + |w.server.unsent|
    + (|m.ServerGreeting()| + 1 - w.client.read) + (|m.ClientGreeting()| + 1 - w.server.read)
  }

  ghost predicate HandshakeStep(m: Meeting, w: World, w': World) {
    || (Shakes(m.mac, w.client, w.server, w'.client) && w'.server == w.server)
    || (Shakes(m.mac, w.server, w.client, w'.server) && w'.client == w.client)
  }

  lemma HandshakeStepsAreUsedUp(m: Meeting, w: World, w': World)
    requires Inv(m, w) && Next(m, w, w')
    ensures StepsLeft(m, w') == if HandshakeStep(m, w, w') then StepsLeft(m, w) - 1 else StepsLeft(m, w)
  {
  }

  /** How many steps of a run are handshake steps. */
  ghost function StepsTaken(m: Meeting, ws: seq<World>): nat
    requires m.client.remoteLink.Some?
    decreases |ws|
  {
    var n := |ws| - 1;
    if n < 1 then 0 else StepsTaken(m, ws[..n]) + (if HandshakeStep(m, ws[n - 1], ws[n]) then 1 else 0)
  }

  /** With matching passwords no run takes more handshake steps than there are at its start,
      however many transfer frames are written in between. */
  lemma {:induction false} HandshakeEnds(m: Meeting, ws: seq<World>)
    requires Proper(m) && IsRun(m, ws)
    ensures StepsTaken(m, ws) + StepsLeft(m, ws[|ws| - 1]) == StepsLeft(m, Start(m))
    ensures Matching(m) ==> StepsTaken(m, ws) <= StepsLeft(m, Start(m))
    decreases |ws|
  {
    if |ws| > 1 {
      var n := |ws| - 1;
      ShorterRun(m, ws);
      HandshakeEnds(m, ws[..n]);
      RunKeepsInv(m, ws[..n]);
      HandshakeStepsAreUsedUp(m, ws[n - 1], ws[n]);
    }
    if Matching(m) {
      MatchingSidesAgree(m, ws);
    }
  }

  /** With matching passwords, under every interleaving: neither side ever fails, only so
      many handshake steps are possible, and when none is left both sides have finished
      with an authenticated link. */
  lemma MatchingSidesAgree(m: Meeting, ws: seq<World>)
    requires Proper(m) && Matching(m) && IsRun(m, ws)
    ensures var w := ws[|ws| - 1];
            && w.client.phase != Broken && w.server.phase != Broken
            && StepsLeft(m, w) >= 0
            && (Quiescent(w) ==> && BothAuthenticated(w)
                                 && w.client.auth.activeLink == m.client.remoteLink
                                 && w.server.auth.activeLink == m.ServerLink())
  {
    RunKeepsInv(m, ws);
    GreetingLengths(m);
  }

  /** Both sides end authenticated exactly when the passwords match; in particular a
      client with a password and a server link without one, or the reverse, do not agree. */
  lemma AgreementExactlyWhenMatching(m: Meeting, ws: seq<World>)
    requires Proper(m) && IsRun(m, ws) && Quiescent(ws[|ws| - 1])
    ensures BothAuthenticated(ws[|ws| - 1]) <==> Matching(m)
  {
    RunKeepsInv(m, ws);
    GreetingLengths(m);
    if Matching(m) {
      MatchingSidesAgree(m, ws);
    }
  }

  /** If the server checks the client's digest and it differs, no side is ever
      authenticated, and both end with an error. */
  lemma MismatchAuthenticatesNobody(m: Meeting, ws: seq<World>)
    requires Proper(m) && Examined(m) && !Accepted(m) && IsRun(m, ws)
    ensures var w := ws[|ws| - 1];
            && w.client.auth.activeLink.None? && w.server.auth.activeLink.None?
            && (Quiescent(w) ==> w.client.phase == Broken && w.server.phase == Broken)
  {
    RunKeepsInv(m, ws);
    GreetingLengths(m);
  }

  /** With the challenge that the answering side really makes: the meeting is a proper one,
      and the server accepts exactly the digests over its random bytes, or over the text
      of its challenge, that its own password gives. */
  lemma GeneratedChallenge(client: Context, server: Context, random: string, mac: Mac)
    requires client.remoteLink.Some? && server.remoteLink.None?
    requires |random| == 16 && forall i :: 0 <= i < |random| ==> random[i] as int < 256
    ensures var m := Meeting(client, server, GenerateChallenge(random), mac);
            && Proper(m)
            && (Examined(m) ==>
                  var sent := HexEncode(mac(m.Target().password, random));
                  Accepted(m) <==> || EqualFold(sent, HexEncode(mac(m.ServerLink().value.password, random)))
                                   || EqualFold(sent, HexEncode(mac(m.ServerLink().value.password, m.challenge))))
  {
    var m := Meeting(client, server, GenerateChallenge(random), mac);
    ChallengeIsHashed(mac, m.Target().password, random);
    if Examined(m) {
      ChallengeIsHashed(mac, m.ServerLink().value.password, random);
      var data := m.Response().payload[1..];
      assert data == CRAM + Digest(mac, m.Target().password, m.challenge);
      assert data[|CRAM|..] == Digest(mac, m.Target().password, m.challenge);
    }
  }

  /** The same password on both sides is always accepted. */
  lemma SamePasswordIsAccepted(m: Meeting)
    requires Proper(m) && Examined(m) && m.ServerLink().value.password == m.Target().password
    ensures Accepted(m)
  {
    var data := m.Response().payload[1..];
    assert data == CRAM + Digest(m.mac, m.Target().password, m.challenge);
    assert data[|CRAM|..] == Digest(m.mac, m.Target().password, m.challenge);
  }

  /** The server finds its link by the address the client has, when it has such a link. */
  lemma ServerLinkHasClientAddress(m: Meeting)
    ensures m.ServerLink().Some? <==> exists l :: l in m.server.cfg.links && l.parsedAddress == m.client.cfg.parsedAddress
    ensures m.ServerLink().Some? ==> m.ServerLink().value in m.server.cfg.links
                                     && m.ServerLink().value.parsedAddress == m.client.cfg.parsedAddress
  {
    FindLinkFinds(m.server.cfg.links, [m.client.cfg.parsedAddress], None);
  }
}
