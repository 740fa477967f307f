/** The session setup stage of binkp/session.go: performHandshake with CRAM-MD5
    authentication (FTS-1027). The keyed hash is a parameter. */
module Handshake {
  import opened GoStrings
  import opened Address
  import opened Frames
  import opened SessionState

  /** HMAC-MD5 of a key and a message, as raw bytes. */
  type Mac = (string, string) -> string

  const CRAM: string := "CRAM-MD5-"

  /** The authentication fields of Session and the two flags of the handshake loop. */
  datatype Auth = Auth(remoteAddrs: seq<FidoAddress>, activeLink: Option<Link>, ourChallenge: string,
                       remoteChallenge: string, pwdSent: bool, sawAdr: bool, authDone: bool) {
    /** The loop goes on until the address is known and authentication is resolved. */
    predicate Resolved() {
      sawAdr && authDone
    }
  }

  /** What makes performHandshake return an error while it runs. */
  datatype Failure = BadPassword | DataFrame | RemoteError(text: string) | RemoteBusy

  datatype Turn = Turn(auth: Auth, replies: seq<Frame>, failure: Option<Failure>) {
    predicate Ok() {
      failure.None?
    }
  }

  /** generateChallenge, over the bytes that the random source gives. */
  function GenerateChallenge(random: string): string {
    HexEncode(random)
  }

  function Bytes(challenge: string): string {
    match HexDecode(challenge)
    case Some(b) => b
    case None => challenge
  }

  function Digest(mac: Mac, password: string, challenge: string): string {
    HexEncode(mac(password, Bytes(challenge)))
  }

  /** Sixteen random bytes make a challenge that M_NUL carries as one word, and what is
      hashed over it are those bytes. */
  lemma ChallengeIsHashed(mac: Mac, password: string, random: string)
    requires |random| == 16 && forall i :: 0 <= i < |random| ==> random[i] as int < 256
    ensures IsToken(GenerateChallenge(random)) && |GenerateChallenge(random)| == 32
    ensures Digest(mac, password, GenerateChallenge(random)) == HexEncode(mac(password, random))
  {
    HexIsToken(random);
    HexRoundTrip(random);
  }

  /** sendCramResponse. */
  function CramFrame(mac: Mac, password: string, challenge: string): Frame {
    Cmd(M_PWD, CRAM + Digest(mac, password, challenge))
  }

  /** The password test of the M_PWD case. */
  predicate Accepts(mac: Mac, password: string, ourChallenge: string, data: string) {
    if HasPrefix(data, CRAM) then
      var digest := data[|CRAM|..];
      || EqualFold(digest, Digest(mac, password, ourChallenge))
      || EqualFold(digest, HexEncode(mac(password, ourChallenge)))
    else data == password
  }

  function FirstChallenge(parts: seq<string>): string {
    if parts == [] then ""
    else if HasPrefix(parts[0], CRAM) then parts[0][|CRAM|..]
    else FirstChallenge(parts[1..])
  }

  /** The challenge offered by an M_NUL line, or nothing. */
  function ChallengeIn(data: string): string {
    if HasPrefix(data, CRAM) then data[|CRAM|..]
    else if HasPrefix(data, "OPT ") then FirstChallenge(Fields(data))
    else ""
  }

  /** One address of M_ADR: its domain is cut off; if it does not parse it is dropped. */
  function AddressIn(part: string, zone: uint16): seq<FidoAddress> {
    match Parse(part[..Index(part, '@')], zone)
    case Some(a) => [a]
    case None => []
  }

  function AddressesIn(parts: seq<string>, zone: uint16): seq<FidoAddress> {
    if parts == [] then [] else AddressIn(parts[0], zone) + AddressesIn(parts[1..], zone)
  }

  lemma AddressesStep(parts: seq<string>, i: nat, zone: uint16)
    requires i < |parts|
    ensures AddressesIn(parts[i..], zone) == AddressIn(parts[i], zone) + AddressesIn(parts[i + 1..], zone)
  {
    assert parts[i..][1..] == parts[i + 1..];
  }

  /** A frame as the handshake loop understands it. */
  datatype Event = Offer(challenge: string) | Addresses(addrs: seq<FidoAddress>) | Password(data: string)
                 | Approval | Abort(why: Failure) | Ignored

  /** Data frames, M_ERR and M_BSY end the handshake; M_NUL lines without a challenge,
      empty commands and other commands are passed over. */
  function Understand(zone: uint16, f: Frame): Event {
    if !f.isCmd then Abort(DataFrame)
    else if f.payload == "" then Ignored
    else
      var cmd, data := f.payload[0], f.payload[1..];
      if cmd == M_NUL then (if ChallengeIn(data) == "" then Ignored else Offer(ChallengeIn(data)))
      else if cmd == M_ADR then Addresses(AddressesIn(Fields(data), zone))
      else if cmd == M_PWD then Password(data)
      else if cmd == M_OK then Approval
      else if cmd == M_ERR then Abort(RemoteError(data))
      else if cmd == M_BSY then Abort(RemoteBusy)
      else Ignored
  }

  function Heard(zone: uint16, frames: seq<Frame>): (events: seq<Event>)
    ensures |events| == |frames|
    ensures forall i :: 0 <= i < |frames| ==> events[i] == Understand(zone, frames[i])
  {
    seq(|frames|, i requires 0 <= i < |frames| => Understand(zone, frames[i]))
  }

  function OnOffer(ctx: Context, mac: Mac, a: Auth, challenge: string): Turn {
    var b := a.(remoteChallenge := challenge);
    if ctx.remoteLink.Some? && !a.pwdSent && ctx.remoteLink.value.password != "" then
      Turn(b.(pwdSent := true), [CramFrame(mac, ctx.remoteLink.value.password, challenge)], None)
    else Turn(b, [], None)
  }

  function OnAddresses(ctx: Context, mac: Mac, a: Auth, addrs: seq<FidoAddress>): Turn {
    var b := a.(remoteAddrs := a.remoteAddrs + addrs, sawAdr := true);
    if ctx.IsOutgoing() then
      var link := ctx.remoteLink.value;
      if a.pwdSent then Turn(b, [], None)
      else if a.remoteChallenge == "" && link.password != "" then
        Turn(b.(pwdSent := true), [Cmd(M_PWD, link.password)], None)
      else if link.password == "" then Turn(b.(activeLink := Some(link), authDone := true), [], None)
      else Turn(b, [], None)
    else
      match FindLink(ctx.cfg.links, b.remoteAddrs, None)
      case None => Turn(b.(authDone := true), [], None)
      case Some(link) =>
        if link.password == "" then Turn(b.(activeLink := Some(link), authDone := true), [], None)
        else if a.remoteChallenge != "" && !a.pwdSent then
          Turn(b.(pwdSent := true), [CramFrame(mac, link.password, a.remoteChallenge)], None)
        else Turn(b, [], None)
  }

  function OnPassword(ctx: Context, mac: Mac, a: Auth, data: string): Turn {
    match FindLink(ctx.cfg.links, a.remoteAddrs, ctx.remoteLink)
    case None => Turn(a.(authDone := true), [Cmd(M_OK, "Unprotected session")], None)
    case Some(link) =>
      if link.password == "" then
        Turn(a.(activeLink := Some(link), authDone := true), [Cmd(M_OK, "Password not required")], None)
      else if Accepts(mac, link.password, a.ourChallenge, data) then
        Turn(a.(activeLink := Some(link), authDone := true), [Cmd(M_OK, "Password accepted")], None)
      else Turn(a, [Cmd(M_ERR, "Bad password")], Some(BadPassword))
  }

  /** The body of the handshake loop for one frame. */
  function Act(ctx: Context, mac: Mac, a: Auth, e: Event): Turn {
    match e
    case Offer(challenge) => OnOffer(ctx, mac, a, challenge)
    case Addresses(addrs) => OnAddresses(ctx, mac, a, addrs)
    case Password(data) => OnPassword(ctx, mac, a, data)
    case Approval =>
      if ctx.remoteLink.Some? && a.pwdSent && a.activeLink.None? then
        Turn(a.(activeLink := ctx.remoteLink, authDone := true), [], None)
      else Turn(a, [], None)
    case Abort(why) => Turn(a, [], Some(why))
    case Ignored => Turn(a, [], None)
  }

  /** readFrame fails, or a turn does. */
  datatype End = Complete | ReadFailed | Refused(why: Failure)

  /** What the connection takes of the frames; the errors of later writes are dropped. */
  function Capped(frames: seq<Frame>, capacity: nat): (r: seq<Frame>)
    ensures |r| <= capacity
    ensures |frames| <= capacity ==> r == frames
  {
    if |frames| <= capacity then frames else frames[..capacity]
  }

  lemma CappedTwice(a: seq<Frame>, b: seq<Frame>, capacity: nat)
    ensures Capped(Capped(a, capacity) + b, capacity) == Capped(a + b, capacity)
  {
    if |a| > capacity {
      assert (a[..capacity] + b)[..capacity] == (a + b)[..capacity];
      assert b == [] ==> a[..capacity] + b == a[..capacity];
    }
  }

  datatype Outcome = Outcome(auth: Auth, replies: seq<Frame>, end: End)

  /** The handshake loop over what it reads; running out of frames, a refusal or a
      protocol error makes it return an error. */
  function Converse(ctx: Context, mac: Mac, a: Auth, events: seq<Event>): Outcome
    decreases |events|
  {
    if a.Resolved() then Outcome(a, [], Complete)
    else if events == [] then Outcome(a, [], ReadFailed)
    else
      var t := Act(ctx, mac, a, events[0]);
      if !t.Ok() then Outcome(t.auth, t.replies, Refused(t.failure.value))
      else
        var o := Converse(ctx, mac, t.auth, events[1..]);
        Outcome(o.auth, t.replies + o.replies, o.end)
  }

  /** performHandshake after its own greeting. */
  function Loop(ctx: Context, mac: Mac, a: Auth, frames: seq<Frame>): Outcome {
    Converse(ctx, mac, a, Heard(ctx.cfg.parsedAddress.zone, frames))
  }

  /** After i frames and the replies so far, the loop from a goes on as from b over the rest. */
  ghost predicate Follows(ctx: Context, mac: Mac, a: Auth, frames: seq<Frame>, b: Auth, i: nat, replies: seq<Frame>)
    requires i <= |frames|
  {
    var left := Converse(ctx, mac, b, Heard(ctx.cfg.parsedAddress.zone, frames)[i..]);
    Loop(ctx, mac, a, frames) == Outcome(left.auth, replies + left.replies, left.end)
  }

  lemma Starts(ctx: Context, mac: Mac, a: Auth, frames: seq<Frame>)
    ensures Follows(ctx, mac, a, frames, a, 0, [])
  {
    var events := Heard(ctx.cfg.parsedAddress.zone, frames);
    var o := Converse(ctx, mac, a, events);
    assert events[0..] == events && [] + o.replies == o.replies;
  }

  lemma StepFollows(ctx: Context, mac: Mac, a: Auth, frames: seq<Frame>, b: Auth, i: nat, replies: seq<Frame>, e: Event)
    requires i < |frames| && Follows(ctx, mac, a, frames, b, i, replies) && !b.Resolved()
    requires e == Understand(ctx.cfg.parsedAddress.zone, frames[i])
    ensures var t := Act(ctx, mac, b, e);
            if t.Ok() then Follows(ctx, mac, a, frames, t.auth, i + 1, replies + t.replies)
            else Loop(ctx, mac, a, frames) == Outcome(t.auth, replies + t.replies, Refused(t.failure.value))
  {
    var rest := Heard(ctx.cfg.parsedAddress.zone, frames)[i..];
    Unroll(ctx, mac, b, rest, replies);
    assert rest[1..] == Heard(ctx.cfg.parsedAddress.zone, frames)[i + 1..];
  }

  /** One turn of the loop, after earlier replies. */
  lemma Unroll(ctx: Context, mac: Mac, b: Auth, rest: seq<Event>, replies: seq<Frame>)
    requires rest != [] && !b.Resolved()
    ensures var t := Act(ctx, mac, b, rest[0]);
            var o, left := Converse(ctx, mac, b, rest), Converse(ctx, mac, t.auth, rest[1..]);
            if t.Ok() then
              && o.auth == left.auth && o.end == left.end
              && replies + o.replies == replies + t.replies + left.replies
            else o == Outcome(t.auth, t.replies, Refused(t.failure.value))
  {
    var t := Act(ctx, mac, b, rest[0]);
    Assoc(replies, t.replies, Converse(ctx, mac, t.auth, rest[1..]).replies);
  }

  lemma Stops(ctx: Context, mac: Mac, a: Auth, frames: seq<Frame>, b: Auth, i: nat, replies: seq<Frame>)
    requires i <= |frames| && Follows(ctx, mac, a, frames, b, i, replies) && (b.Resolved() || i == |frames|)
    ensures Loop(ctx, mac, a, frames) == Outcome(b, replies, if b.Resolved() then Complete else ReadFailed)
  {
    assert replies + [] == replies;
  }

  function Line(keyword: string, value: string): seq<Frame> {
    if value == "" then [] else [Cmd(M_NUL, keyword + value)]
  }

  /** sendHandshake: the challenge of an incoming session, the information lines, the address. */
  function Greeting(ctx: Context, challenge: string): seq<Frame> {
    var cfg := ctx.cfg;
    (if ctx.IsOutgoing() then [] else [Cmd(M_NUL, "OPT " + CRAM + challenge)])
    + Line("SYS ", cfg.systemName) + Line("ZYZ ", cfg.sysop) + Line("LOC ", cfg.location)
    + [Cmd(M_NUL, "NDL " + cfg.nodelistFlags), Cmd(M_NUL, "VER momail v" + cfg.version + " binkp/1.0"),
       Cmd(M_ADR, Print(cfg.parsedAddress))]
  }

  function Fresh(challenge: string): Auth {
    Auth([], None, challenge, "", false, false, false)
  }

  /* ---- Incoming sessions ---- */

  /** The event presents a password that the link accepts. */
  predicate Presents(mac: Mac, link: Link, ourChallenge: string, e: Event) {
    e.Password? && Accepts(mac, link.password, ourChallenge, e.data)
  }

  /** The authenticated link is configured, has an address the other side presented, and
      has no password or was given an acceptable one. */
  ghost predicate Earned(ctx: Context, mac: Mac, a: Auth, seen: seq<Event>) {
    a.activeLink.Some? ==>
      var link := a.activeLink.value;
      && link in ctx.cfg.links && link.parsedAddress in a.remoteAddrs
      && (link.password == "" || exists e :: e in seen && Presents(mac, link, a.ourChallenge, e))
  }

  /** Every address on record was presented by the other side. */
  ghost predicate AddressesHeard(a: Auth, seen: seq<Event>) {
    forall x :: x in a.remoteAddrs ==> exists e :: e in seen && e.Addresses? && x in e.addrs
  }

  lemma LinkIsEarned(ctx: Context, mac: Mac, a: Auth, seen: seq<Event>, link: Link)
    requires FindLink(ctx.cfg.links, a.remoteAddrs, None) == Some(link)
    requires link.password == "" || exists e :: e in seen && Presents(mac, link, a.ourChallenge, e)
    ensures Earned(ctx, mac, a.(activeLink := Some(link)), seen)
  {
    FindLinkFinds(ctx.cfg.links, a.remoteAddrs, None);
  }

  lemma EarnedLater(ctx: Context, mac: Mac, a: Auth, seen: seq<Event>, more: seq<Event>)
    requires Earned(ctx, mac, a, seen) && AddressesHeard(a, seen)
    ensures Earned(ctx, mac, a, seen + more) && AddressesHeard(a, seen + more)
  {
    assert forall e :: e in seen ==> e in seen + more;
  }

  /** An incoming session sets its link only to the one found for the presented
      addresses, and with a password only after the check. */
  lemma ActSetsLink(ctx: Context, mac: Mac, a: Auth, e: Event)
    requires ctx.remoteLink.None?
    ensures var b := Act(ctx, mac, a, e).auth;
            && b.ourChallenge == a.ourChallenge
            && (b.activeLink == a.activeLink
                || (&& b.activeLink.Some? && FindLink(ctx.cfg.links, b.remoteAddrs, None) == b.activeLink
                    && (b.activeLink.value.password == "" || Presents(mac, b.activeLink.value, a.ourChallenge, e))))
            && b.remoteAddrs == a.remoteAddrs + (if e.Addresses? then e.addrs else [])
  {
    assert a.remoteAddrs + [] == a.remoteAddrs;
  }

  lemma ActKeepsEarned(ctx: Context, mac: Mac, a: Auth, seen: seq<Event>, e: Event)
    requires ctx.remoteLink.None? && Earned(ctx, mac, a, seen) && AddressesHeard(a, seen)
    ensures var b := Act(ctx, mac, a, e).auth; Earned(ctx, mac, b, seen + [e]) && AddressesHeard(b, seen + [e])
  {
    EarnedLater(ctx, mac, a, seen, [e]);
    ActSetsLink(ctx, mac, a, e);
    assert e in seen + [e];
    var b := Act(ctx, mac, a, e).auth;
    if b.activeLink != a.activeLink {
      LinkIsEarned(ctx, mac, b, seen + [e], b.activeLink.value);
    }
  }

  /** How many of the events the loop acts upon. */
  function Consumed(ctx: Context, mac: Mac, a: Auth, events: seq<Event>): (n: nat)
    ensures n <= |events|
    decreases |events|
  {
    if a.Resolved() || events == [] then 0
    else
      var t := Act(ctx, mac, a, events[0]);
      if t.Ok() then 1 + Consumed(ctx, mac, t.auth, events[1..]) else 1
  }

  /** Over any input of an incoming session, finished or not: its link is earned by what the
      loop has acted upon, and the addresses on record were presented in it. */
  lemma {:induction false} IncomingLinkIsEarned(ctx: Context, mac: Mac, a: Auth, seen: seq<Event>, events: seq<Event>)
    requires ctx.remoteLink.None? && Earned(ctx, mac, a, seen) && AddressesHeard(a, seen)
    ensures var b, heard := Converse(ctx, mac, a, events).auth, seen + events[..Consumed(ctx, mac, a, events)];
            Earned(ctx, mac, b, heard) && AddressesHeard(b, heard)
    decreases |events|
  {
    if a.Resolved() || events == [] {
      assert seen + events[..0] == seen;
    } else {
      ActKeepsEarned(ctx, mac, a, seen, events[0]);
      var t := Act(ctx, mac, a, events[0]);
      if t.Ok() {
        var n := Consumed(ctx, mac, t.auth, events[1..]);
        IncomingLinkIsEarned(ctx, mac, t.auth, seen + [events[0]], events[1..]);
        assert [events[0]] + events[1..][..n] == events[..n + 1];
        Assoc(seen, [events[0]], events[1..][..n]);
      } else {
        assert events[..1] == [events[0]];
      }
    }
  }

  /** So is the link that the transfer stage falls back to. */
  lemma SettledLinkIsEarned(ctx: Context, mac: Mac, a: Auth, seen: seq<Event>)
    requires ctx.remoteLink.None? && Earned(ctx, mac, a, seen)
    ensures Earned(ctx, mac, a.(activeLink := Settled(ctx, a.remoteAddrs, a.activeLink)), seen)
  {
    FindLinkFinds(ctx.cfg.links, a.remoteAddrs, None);
  }

  /** The whole handshake of an incoming session, over whatever frames come in: the link it
      ends with, or falls back to later, is earned by the frames it has acted upon. */
  lemma IncomingSession(ctx: Context, mac: Mac, challenge: string, frames: seq<Frame>)
    requires ctx.remoteLink.None?
    ensures var events := Heard(ctx.cfg.parsedAddress.zone, frames);
            var heard := events[..Consumed(ctx, mac, Fresh(challenge), events)];
            var a := Loop(ctx, mac, Fresh(challenge), frames).auth;
            && Earned(ctx, mac, a, heard) && AddressesHeard(a, heard)
            && Earned(ctx, mac, a.(activeLink := Settled(ctx, a.remoteAddrs, a.activeLink)), heard)
  {
    var events := Heard(ctx.cfg.parsedAddress.zone, frames);
    var heard := events[..Consumed(ctx, mac, Fresh(challenge), events)];
    IncomingLinkIsEarned(ctx, mac, Fresh(challenge), [], events);
    assert [] + heard == heard;
    SettledLinkIsEarned(ctx, mac, Loop(ctx, mac, Fresh(challenge), frames).auth, heard);
  }

  /* ---- Outgoing sessions ---- */

  predicate IsPwd(f: Frame) {
    f.isCmd && f.payload != "" && f.payload[0] == M_PWD
  }

  /** The link of an outgoing session is set when, and only when, authentication is done;
      the stored challenge says whether one was offered. */
  ghost predicate OutgoingState(a: Auth, seen: seq<Event>) {
    && (a.activeLink.Some? <==> a.authDone)
    && (a.remoteChallenge != "" <==> exists e :: e in seen && IsOffer(e))
  }

  /** Understand never makes an offer of an empty challenge. */
  predicate IsOffer(e: Event) {
    e.Offer? && e.challenge != ""
  }

  ghost predicate ProperOffers(events: seq<Event>) {
    forall e :: e in events && e.Offer? ==> e.challenge != ""
  }

  lemma HeardIsProper(zone: uint16, frames: seq<Frame>)
    ensures ProperOffers(Heard(zone, frames))
  {
  }

  lemma ActKeepsOutgoing(ctx: Context, mac: Mac, a: Auth, seen: seq<Event>, e: Event)
    requires ctx.remoteLink.Some? && OutgoingState(a, seen) && (e.Offer? ==> e.challenge != "")
    ensures OutgoingState(Act(ctx, mac, a, e).auth, seen + [e])
  {
    FindLinkFinds(ctx.cfg.links, a.remoteAddrs, ctx.remoteLink);
    assert e in seen + [e];
    assert forall g :: g in seen ==> g in seen + [e];
    assert forall g :: g in seen + [e] ==> g in seen || g == e;
  }

  /** How many M_PWD frames there are. */
  function Passwords(frames: seq<Frame>): nat {
    if frames == [] then 0 else (if IsPwd(frames[0]) then 1 else 0) + Passwords(frames[1..])
  }

  lemma {:induction false} PasswordsAppend(a: seq<Frame>, b: seq<Frame>)
    ensures Passwords(a + b) == Passwords(a) + Passwords(b)
  {
    if a == [] {
      assert a + b == b;
    } else {
      assert (a + b)[1..] == a[1..] + b;
      PasswordsAppend(a[1..], b);
    }
  }

  lemma ActPasswords(ctx: Context, mac: Mac, a: Auth, e: Event)
    ensures var t := Act(ctx, mac, a, e);
            && (a.pwdSent ==> t.auth.pwdSent)
            && Passwords(t.replies) == (if t.auth.pwdSent && !a.pwdSent then 1 else 0)
  {
    var t := Act(ctx, mac, a, e);
    assert t.replies == [] || t.replies == [t.replies[0]];
  }

  /** Over any input of an outgoing session: while it runs, its link is set exactly when
      authentication is done; it completes only with an authenticated link; at most one
      password frame is written, and pwdSent says whether one was. */
  lemma {:induction false} OutgoingHandshake(ctx: Context, mac: Mac, a: Auth, seen: seq<Event>, events: seq<Event>)
    requires ctx.remoteLink.Some? && OutgoingState(a, seen) && ProperOffers(events)
    ensures var o := Converse(ctx, mac, a, events);
            && (o.end == Complete ==> o.auth.activeLink.Some?)
            && (o.end == ReadFailed ==> OutgoingState(o.auth, seen + events))
            && (a.pwdSent ==> o.auth.pwdSent)
            && Passwords(o.replies) == (if o.auth.pwdSent && !a.pwdSent then 1 else 0)
    decreases |events|
  {
    if events == [] {
      assert seen + [] == seen;
    } else if !a.Resolved() {
      ActKeepsOutgoing(ctx, mac, a, seen, events[0]);
      ActPasswords(ctx, mac, a, events[0]);
      var t := Act(ctx, mac, a, events[0]);
      if t.Ok() {
        OutgoingHandshake(ctx, mac, t.auth, seen + [events[0]], events[1..]);
        PasswordsAppend(t.replies, Converse(ctx, mac, t.auth, events[1..]).replies);
        assert [events[0]] + events[1..] == events;
        Assoc(seen, [events[0]], events[1..]);
      }
    }
  }

  /** While the handshake of an outgoing session goes on, a link that is set is the target. */
  ghost predicate OnTarget(ctx: Context, a: Auth) {
    && (!a.sawAdr ==> a.remoteAddrs == [])
    && a.activeLink == if a.authDone then ctx.remoteLink else None
  }

  /** What the event that completes the handshake of an outgoing session makes the link. */
  function LinkAfter(ctx: Context, addrs: seq<FidoAddress>, last: Event): Option<Link> {
    if last.Password? then FindLink(ctx.cfg.links, addrs, ctx.remoteLink) else ctx.remoteLink
  }

  lemma ActKeepsTarget(ctx: Context, mac: Mac, a: Auth, e: Event)
    requires ctx.remoteLink.Some? && OnTarget(ctx, a) && !a.Resolved()
    ensures var t := Act(ctx, mac, a, e);
            && t.auth.ourChallenge == a.ourChallenge
            && (t.Ok() && !t.auth.Resolved() ==> OnTarget(ctx, t.auth))
            && (t.Ok() && t.auth.Resolved()
                ==> && t.auth.activeLink == LinkAfter(ctx, t.auth.remoteAddrs, e) && t.auth.activeLink.Some?
                    && (e.Password? ==> t.auth.activeLink.value.password == ""
                                        || Presents(mac, t.auth.activeLink.value, a.ourChallenge, e)))
  {
    FindLinkFinds(ctx.cfg.links, a.remoteAddrs, ctx.remoteLink);
  }

  /** The link that an outgoing handshake completes with, over any input: the target, unless
      the last frame it acted upon was M_PWD; then the link found for the presented
      addresses, if that has no password or the frame had the right one. */
  lemma {:induction false} OutgoingLink(ctx: Context, mac: Mac, a: Auth, events: seq<Event>)
    requires ctx.remoteLink.Some? && OnTarget(ctx, a) && !a.Resolved()
    ensures var o, n := Converse(ctx, mac, a, events), Consumed(ctx, mac, a, events);
            o.end == Complete
            ==> && n > 0 && o.auth.activeLink == LinkAfter(ctx, o.auth.remoteAddrs, events[n - 1])
                && o.auth.activeLink.Some?
                && (events[n - 1].Password?
                    ==> o.auth.activeLink.value.password == ""
                        || Presents(mac, o.auth.activeLink.value, a.ourChallenge, events[n - 1]))
    decreases |events|
  {
    if events != [] {
      ActKeepsTarget(ctx, mac, a, events[0]);
      var t := Act(ctx, mac, a, events[0]);
      if t.Ok() && !t.auth.Resolved() {
        OutgoingLink(ctx, mac, t.auth, events[1..]);
      }
    }
  }

  /** The whole handshake of an outgoing session, over whatever frames come in. It completes
      with the target, or with a configured link that has an address the other side
      presented; the latter exactly when M_PWD ends it and such a link is found. */
  lemma OutgoingSession(ctx: Context, mac: Mac, frames: seq<Frame>)
    requires ctx.remoteLink.Some?
    ensures var events := Heard(ctx.cfg.parsedAddress.zone, frames);
            var o, n := Loop(ctx, mac, Fresh(""), frames), Consumed(ctx, mac, Fresh(""), events);
            && Passwords(o.replies) == (if o.auth.pwdSent then 1 else 0)
            && (o.end == Complete ==>
                  && o.auth.activeLink.Some? && n > 0
                  && var link, last := o.auth.activeLink.value, events[n - 1];
                  && (link == ctx.remoteLink.value
                      || (link in ctx.cfg.links && link.parsedAddress in o.auth.remoteAddrs))
                  && (link != ctx.remoteLink.value
                      <==> last.Password? && FindLink(ctx.cfg.links, o.auth.remoteAddrs, None).Some?
                           && FindLink(ctx.cfg.links, o.auth.remoteAddrs, None) != ctx.remoteLink)
                  && (last.Password? ==> link.password == "" || Presents(mac, link, "", last)))
  {
    var zone := ctx.cfg.parsedAddress.zone;
    var events := Heard(zone, frames);
    HeardIsProper(zone, frames);
    OutgoingHandshake(ctx, mac, Fresh(""), [], events);
    OutgoingLink(ctx, mac, Fresh(""), events);
    var addrs := Loop(ctx, mac, Fresh(""), frames).auth.remoteAddrs;
    FindLinkFinds(ctx.cfg.links, addrs, None);
    TargetStandsIn(ctx.cfg.links, addrs, ctx.remoteLink);
  }

  lemma {:induction false} TargetStandsIn(links: seq<Link>, addrs: seq<FidoAddress>, target: Option<Link>)
    ensures FindLink(links, addrs, target)
            == if FindLink(links, addrs, None).Some? then FindLink(links, addrs, None) else target
  {
    if addrs != [] {
      TargetStandsIn(links, addrs[1..], target);
    }
  }

  /** A password frame is a digest over the stored challenge, or plain without one. */
  lemma PasswordReply(ctx: Context, mac: Mac, a: Auth, e: Event, i: nat)
    requires ctx.remoteLink.Some? && (e.Offer? ==> e.challenge != "")
    requires i < |Act(ctx, mac, a, e).replies| && IsPwd(Act(ctx, mac, a, e).replies[i])
    ensures var t, password := Act(ctx, mac, a, e), ctx.remoteLink.value.password;
            t.replies[i] == if t.auth.remoteChallenge != "" then CramFrame(mac, password, t.auth.remoteChallenge)
                            else Cmd(M_PWD, password)
  {
  }

  /** The password frame of an outgoing session: a digest over a challenge that was
      offered, or the plain password, and then no challenge had been offered before. */
  lemma PlainPasswordOnlyUnchallenged(ctx: Context, mac: Mac, before: seq<Event>, e: Event, i: nat)
    requires ctx.remoteLink.Some? && ProperOffers(before) && (e.Offer? ==> e.challenge != "")
    requires Converse(ctx, mac, Fresh(""), before).end == ReadFailed
    requires var t := Act(ctx, mac, Converse(ctx, mac, Fresh(""), before).auth, e); i < |t.replies| && IsPwd(t.replies[i])
    ensures var t := Act(ctx, mac, Converse(ctx, mac, Fresh(""), before).auth, e);
            var password := ctx.remoteLink.value.password;
            if exists g :: g in before + [e] && IsOffer(g)
            then t.replies[i] == CramFrame(mac, password, t.auth.remoteChallenge)
            else t.replies[i] == Cmd(M_PWD, password)
  {
    OutgoingHandshake(ctx, mac, Fresh(""), [], before);
    assert [] + before == before;
    var a := Converse(ctx, mac, Fresh(""), before).auth;
    ActKeepsOutgoing(ctx, mac, a, before, e);
    PasswordReply(ctx, mac, a, e, i);
  }
}
