/** The state of one BinkP session and the lookups every part of it shares
    (binkp/session.go, config/config.go). */
module SessionState {
  import opened GoStrings
  import opened Address
  import opened Frames

  datatype Link = Link(address: string, host: string, password: string, lookupMethod: string,
                       parsedAddress: FidoAddress)

  datatype Config = Config(parsedAddress: FidoAddress, systemName: string, sysop: string, location: string,
                           nodelistFlags: string, version: string, refuseInsecureSending: bool,
                           links: seq<Link>, secureInbound: string, insecureInbound: string,
                           outbound: string, defaultZone: uint16)

  /** What NewSession fixes: the configuration and, for an outgoing session, its target. */
  datatype Context = Context(cfg: Config, remoteLink: Option<Link>) {
    predicate IsOutgoing() {
      remoteLink.Some?
    }
  }

  /** A file in an inbound directory. */
  datatype Slot = Slot(dir: string, name: string)

  datatype Moved = Moved(slot: Slot, content: string)

  datatype SentInfo = SentInfo(path: string, deleteAfter: bool)

  /** How the operating system treats a file that is about to be sent. */
  datatype Fault = NoFault | StatDenied | OpenVanished | OpenDenied | SeekFails | ReadFails(readable: nat)

  datatype Source = Source(content: string, mtime: int, fault: Fault)

  /** The receiving half of the source's Session, with the directories it writes to. The
      fields moved and lost are a history: the files renamed into an inbound directory,
      and the names whose rename failed. */
  datatype Reception = Reception(
    file: Option<nat>,            // write position in the open temporary file recvName
    recvName: string,
    recvTimestamp: string,
    recvSize: int,
    recvBytes: int,
    temp: map<string, string>,    // the temporary inbound directory
    inbound: map<Slot, string>,
    moved: seq<Moved>,
    lost: set<string>,
    filesReceived: nat,
    bytesReceived: int
  )

  /** The sending half, with the files it reads. */
  datatype Dispatch = Dispatch(
    sources: map<string, Source>, // files named by the outbound queue
    flows: map<string, string>,   // flow files: path to content
    sent: map<string, SentInfo>,
    filesSent: nat,
    bytesSent: int
  )

  /** A session in the transfer stage, and the frames it has written. */
  datatype State = State(
    remoteAddrs: seq<FidoAddress>,
    activeLink: Option<Link>,
    rx: Reception,
    tx: Dispatch,
    weSentEOB: bool,
    theySentEOB: bool,
    wire: seq<Frame>
  )

  function LinkFor(links: seq<Link>, a: FidoAddress): Option<Link> {
    if links == [] then None
    else if links[0].parsedAddress == a then Some(links[0])
    else LinkFor(links[1..], a)
  }

  /** Session.findLink: the first presented address that has a link decides. */
  function FindLink(links: seq<Link>, addrs: seq<FidoAddress>, remoteLink: Option<Link>): Option<Link> {
    if addrs == [] then remoteLink
    else if LinkFor(links, addrs[0]).Some? then LinkFor(links, addrs[0])
    else FindLink(links, addrs[1..], remoteLink)
  }

  lemma {:induction false} LinkForFinds(links: seq<Link>, a: FidoAddress)
    ensures var r := LinkFor(links, a);
            && (r.Some? ==> r.value in links && r.value.parsedAddress == a)
            && (r.None? <==> forall l :: l in links ==> l.parsedAddress != a)
  {
    if links != [] && links[0].parsedAddress != a {
      LinkForFinds(links[1..], a);
    }
  }

  /** A configured link is found exactly when one has a presented address; otherwise the
      target of an outgoing session stands in. */
  lemma {:induction false} FindLinkFinds(links: seq<Link>, addrs: seq<FidoAddress>, remoteLink: Option<Link>)
    ensures var r := FindLink(links, addrs, remoteLink);
            if exists l :: l in links && l.parsedAddress in addrs
            then r.Some? && r.value in links && r.value.parsedAddress in addrs
            else r == remoteLink
  {
    if addrs != [] {
      LinkForFinds(links, addrs[0]);
      if LinkFor(links, addrs[0]).None? {
        FindLinkFinds(links, addrs[1..], remoteLink);
        assert forall l :: l in links && l.parsedAddress in addrs ==> l.parsedAddress in addrs[1..];
      }
    }
  }

  /** The late fallback of finishCurrentFile and sendFiles: a matching link without
      password authenticates the session. */
  function Settled(ctx: Context, addrs: seq<FidoAddress>, active: Option<Link>): Option<Link> {
    var l := FindLink(ctx.cfg.links, addrs, ctx.remoteLink);
    if active.None? && l.Some? && l.value.password == "" then l else active
  }

  /** The inbound directory for the files of a session. */
  function Destination(ctx: Context, addrs: seq<FidoAddress>, active: Option<Link>): string {
    if Settled(ctx, addrs, active).Some? && ctx.cfg.secureInbound != "" then ctx.cfg.secureInbound
    else ctx.cfg.insecureInbound
  }
}
