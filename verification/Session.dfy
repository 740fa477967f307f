/** The Session object of binkp/session.go: its fields and the methods that update
    them, each proved against the specification functions of Handshake, Receive and
    Sending, about which the results are stated. */
module BinkpSession {
  import opened GoStrings
  import opened Address
  import opened Frames
  import opened SessionState
  import opened Receive
  import opened Sending
  import opened Mailboxes
  import Handshake

  class Session {
    const ctx: Context
    const mac: Handshake.Mac
    /** Where the mail for an address waits. */
    const box: Boxes
    /** The connection takes this many frames before a write fails. */
    const capacity: nat

    var remoteAddrs: seq<FidoAddress>
    var activeLink: Option<Link>
    var ourChallenge: string
    var remoteChallenge: string
    var pwdSent: bool

    var currentFile: Option<nat>
    var recvName: string
    var recvTimestamp: string
    var recvSize: int
    var recvBytes: int
    var temp: map<string, string>
    var inbound: map<Slot, string>
    ghost var moved: seq<Moved>
    ghost var lost: set<string>
    var filesReceived: nat
    var bytesReceived: int

    var sources: map<string, Source>
    var flows: map<string, string>
    var sentFileMap: map<string, SentInfo>
    var filesSent: nat
    var bytesSent: int

    var weSentEOB: bool
    var theySentEOB: bool
    var wire: seq<Frame>

    constructor (ctx: Context, mac: Handshake.Mac, capacity: nat, temp: map<string, string>,
                 inbound: map<Slot, string>, sources: map<string, Source>, flows: map<string, string>)
      ensures this.ctx == ctx && this.mac == mac && this.capacity == capacity && box == BoxesOf(ctx.cfg)
      ensures View() == State([], None, Reception(None, "", "", 0, 0, temp, inbound, [], {}, 0, 0),
                              Dispatch(sources, flows, map[], 0, 0), false, false, [])
      ensures AuthView(false, false) == Handshake.Fresh("")
    {
      this.ctx, this.mac, this.capacity, box := ctx, mac, capacity, BoxesOf(ctx.cfg);
      remoteAddrs, activeLink, ourChallenge, remoteChallenge, pwdSent := [], None, "", "", false;
      currentFile, recvName, recvTimestamp, recvSize, recvBytes := None, "", "", 0, 0;
      this.temp, this.inbound, moved, lost, filesReceived, bytesReceived := temp, inbound, [], {}, 0, 0;
      this.sources, this.flows, sentFileMap, filesSent, bytesSent := sources, flows, map[], 0, 0;
      weSentEOB, theySentEOB, wire := false, false, [];
    }

    /** The receiving half of the transfer state. */
    ghost function Rx(): Reception
      reads this`currentFile, this`recvName, this`recvTimestamp, this`recvSize, this`recvBytes, this`temp, this`inbound
      reads this`moved, this`lost, this`filesReceived, this`bytesReceived
    {
      Reception(currentFile, recvName, recvTimestamp, recvSize, recvBytes, temp, inbound, moved, lost,
                filesReceived, bytesReceived)
    }

    ghost function Tx(): Dispatch
      reads this`sources, this`flows, this`sentFileMap, this`filesSent, this`bytesSent
    {
      Dispatch(sources, flows, sentFileMap, filesSent, bytesSent)
    }

    /** The transfer state. */
    ghost function View(): State
      reads this
    {
      State(remoteAddrs, activeLink, Rx(), Tx(), weSentEOB, theySentEOB, wire)
    }

    /** The object is in the given transfer state. */
    ghost predicate Is(s: State)
      reads this
    {
      && remoteAddrs == s.remoteAddrs && activeLink == s.activeLink
      && Rx() == s.rx && Tx() == s.tx
      && weSentEOB == s.weSentEOB && theySentEOB == s.theySentEOB && wire == s.wire
    }

    /** The handshake state, with the two flags that performHandshake keeps in variables. */
    ghost function AuthView(sawAdr: bool, authDone: bool): Handshake.Auth
      reads this
    {
      Handshake.Auth(remoteAddrs, activeLink, ourChallenge, remoteChallenge, pwdSent, sawAdr, authDone)
    }

    method FindLink() returns (r: Option<Link>)
      ensures r == SessionState.FindLink(ctx.cfg.links, remoteAddrs, ctx.remoteLink)
    {
      var i := 0;
      while i < |remoteAddrs|
        invariant i <= |remoteAddrs|
        invariant SessionState.FindLink(ctx.cfg.links, remoteAddrs, ctx.remoteLink)
               == SessionState.FindLink(ctx.cfg.links, remoteAddrs[i..], ctx.remoteLink)
      {
        var j := 0;
        while j < |ctx.cfg.links|
          invariant j <= |ctx.cfg.links|
          invariant LinkFor(ctx.cfg.links, remoteAddrs[i]) == LinkFor(ctx.cfg.links[j..], remoteAddrs[i])
        {
          var l := ctx.cfg.links[j].parsedAddress;
          var a := remoteAddrs[i];
          if l.zone == a.zone && l.net == a.net && l.node == a.node && l.point == a.point {
            assert ctx.cfg.links[j..][0] == ctx.cfg.links[j];
            return Some(ctx.cfg.links[j]);
          }
          assert ctx.cfg.links[j..][1..] == ctx.cfg.links[j + 1..];
          j := j + 1;
        }
        assert remoteAddrs[i..][1..] == remoteAddrs[i + 1..];
        i := i + 1;
      }
      return ctx.remoteLink;
    }

    /** finishCurrentFile and sendFiles fall back to a matching link without a password. */
    method SettleLink()
      modifies this`activeLink
      ensures activeLink == Settled(ctx, remoteAddrs, old(activeLink))
    {
      if activeLink.None? {
        var l := FindLink();
        if l.Some? && l.value.password == "" {
          activeLink := l;
        }
      }
    }

    method CloseCurrentFile() returns (destDir: string)
      modifies this
      ensures Is(Closing(ctx, old(View()))) && destDir == Destination(ctx, remoteAddrs, old(activeLink))
    {
      currentFile := None;
      SettleLink();
      destDir := ctx.cfg.insecureInbound;
      if activeLink.Some? && ctx.cfg.secureInbound != "" {
        destDir := ctx.cfg.secureInbound;
      }
    }

    method FinishCurrentFile(io: Io) returns (status: Status)
      modifies this
      ensures var r := FinishFile(ctx, old(View()), io); Is(r.state) && status == r.status
    {
      var destDir := CloseCurrentFile();
      if io.inboxDirOk {
        status := RenameAndConfirm(destDir, io);
      } else {
        status := Failed;
      }
    }

    method RenameAndConfirm(destDir: string, io: Io) returns (status: Status)
      modifies this
      ensures var r := Rename(old(View()), destDir, io); Is(r.state) && status == r.status
    {
      if !io.renameOk || recvName !in temp {
        lost := lost + {recvName};
        return Continue;
      }
      MoveToInbound(destDir);
      if io.sendOk {
        wire := wire + [GotFrame(recvName, recvBytes, recvTimestamp)];
        return Continue;
      }
      return Failed;
    }

    /** The rename into the inbound directory and the counters. */
    method MoveToInbound(destDir: string)
      requires recvName in temp
      modifies this`temp, this`inbound, this`moved, this`filesReceived, this`bytesReceived
      ensures Rx() == MovedTo(old(Rx()), destDir)
    {
      var content := temp[recvName];
      inbound, temp := inbound[Slot(destDir, recvName) := content], temp - {recvName};
      moved := moved + [Moved(Slot(destDir, recvName), content)];
      filesReceived, bytesReceived := filesReceived + 1, bytesReceived + recvBytes;
    }

    method HandleFile(args: string, io: Io) returns (status: Status)
      modifies this
      ensures var r := Receive.HandleFile(ctx, old(View()), args, io); Is(r.state) && status == r.status
    {
      if currentFile.Some? {
        status := FinishCurrentFile(io);
        if status != Continue {
          return;
        }
      }
      status := OpenNewFile(args, io);
    }

    method OpenNewFile(args: string, io: Io) returns (status: Status)
      modifies this
      ensures var r := OpenFile(old(View()), args, io); Is(r.state) && status == r.status
    {
      var a := ParseArguments(args);
      if a.None? {
        return Failed;
      }
      status := OpenAnnounced(a.value, io);
    }

    method OpenAnnounced(a: Announcement, io: Io) returns (status: Status)
      modifies this
      ensures var r := OpenTemp(old(View()), a, io); Is(r.state) && status == r.status
    {
      if !io.tempDirOk {
        return Failed;
      }
      if !io.openOk || NamesDirectory(a.baseName) {
        if io.sendOk {
          wire := wire + [Cmd(M_SKIP, a.name)];
        }
        return Failed;
      }
      OpenTempFile(a);
      return Continue;
    }

    /** The arguments of M_FILE: name, size, and optionally timestamp and offset. */
    method ParseArguments(args: string) returns (a: Option<Announcement>)
      ensures a == ParseFile(args)
    {
      var parts := Fields(args);
      if |parts| < 2 {
        return None;
      }
      var timestamp := "0";
      if |parts| > 2 {
        timestamp := parts[2];
      }
      var offset := 0;
      if |parts| > 3 {
        offset := ParseInt64(parts[3]);
      }
      return Some(Announcement(parts[0], Base(parts[0]), ParseInt64(parts[1]), timestamp, offset));
    }

    /** os.Create, or os.OpenFile and Seek when the partial file has the announced length. */
    method OpenTempFile(a: Announcement)
      modifies this`currentFile, this`recvName, this`recvTimestamp, this`recvSize, this`recvBytes, this`temp
      ensures Rx() == Opened(old(Rx()), a)
    {
      var position, offset := 0, a.offset;
      if a.offset > 0 && a.baseName in temp && |temp[a.baseName]| == a.offset {
        position := a.offset;
      } else {
        if a.offset > 0 {
          offset := 0;
        }
        temp := temp[a.baseName := ""];
      }
      currentFile, recvName, recvTimestamp := Some(position), a.baseName, a.timestamp;
      recvSize, recvBytes := a.size, offset;
    }

    method WriteToFile(part: string, counted: nat)
      requires currentFile.Some? && recvName in temp
      modifies this
      ensures Is(Store(old(View()), part, counted))
    {
      var pos := currentFile.value;
      temp := temp[recvName := Overwrite(temp[recvName], pos, part)];
      currentFile := Some(pos + |part|);
      recvBytes := recvBytes + counted;
    }

    method HandleData(data: string, io: Io) returns (status: Status)
      modifies this
      ensures var r := Receive.HandleData(ctx, old(View()), data, io); Is(r.state) && status == r.status
    {
      if currentFile.None? || recvName !in temp {
        return Continue;
      }
      if !io.writeOk {
        WriteToFile(if io.stored > |data| then data else data[..io.stored], 0);
        return Failed;
      }
      WriteToFile(data, |data|);
      if recvSize > 0 && recvBytes >= recvSize {
        status := FinishCurrentFile(io);
      } else {
        status := Continue;
      }
    }

    method HandleEOB(io: Io) returns (status: Status)
      modifies this
      ensures var r := Receive.HandleEOB(ctx, old(View()), io); Is(r.state) && status == r.status
    {
      if currentFile.Some? {
        status := FinishCurrentFile(io);
        if status != Continue {
          return;
        }
      }
      theySentEOB := true;
      var weAreDone := weSentEOB;
      return if weAreDone then Finished else Continue;
    }

    method HandleGot(args: string, io: Io)
      modifies this
      ensures View() == Receive.HandleGot(old(View()), args, io)
    {
      var parts := Fields(args);
      if |parts| == 0 {
        return;
      }
      var filename := parts[0];
      if filename in sentFileMap {
        var info := sentFileMap[filename];
        if info.deleteAfter && io.removeOk {
          sources := sources - {info.path};
        }
      }
    }

    method HandleCommand(payload: string, io: Io) returns (status: Status)
      modifies this
      ensures var r := Receive.HandleCommand(ctx, old(View()), payload, io); Is(r.state) && status == r.status
    {
      if |payload| == 0 {
        return Continue;
      }
      var cmd, data := payload[0], payload[1..];
      if cmd == M_FILE {
        status := HandleFile(data, io);
      } else if cmd == M_EOB {
        status := HandleEOB(io);
      } else if cmd == M_ERR || cmd == M_BSY {
        status := Failed;
      } else if cmd == M_GOT {
        HandleGot(data, io);
        status := Continue;
      } else {
        status := Continue;
      }
    }

    /** The read loop, over the frames that arrive before a read fails. */
    method FileReader(arrivals: seq<Arrival>, err: ReadError) returns (reason: Reason)
      modifies this
      ensures var r := ReadLoop(ctx, old(View()), arrivals, err); Is(r.0) && reason == r.1
    {
      var status := HandleFrames(arrivals);
      if status == Finished {
        return SessionFinished;
      } else if status == Failed {
        return Error;
      }
      if err == StreamEnd {
        return RemoteClosed;
      }
      var isFinished := weSentEOB && theySentEOB;
      if isFinished && err == LocallyClosed {
        return ExpectedClose;
      }
      return Error;
    }

    method HandleFrames(arrivals: seq<Arrival>) returns (status: Status)
      modifies this
      ensures var r := Run(ctx, old(View()), arrivals); Is(r.state) && status == r.status
    {
      var i := 0;
      status := Continue;
      while i < |arrivals|
        invariant i <= |arrivals| && status == Continue
        invariant Run(ctx, old(View()), arrivals) == Run(ctx, View(), arrivals[i..])
      {
        var a := arrivals[i];
        assert arrivals[i..][0] == a && arrivals[i..][1..] == arrivals[i + 1..];
        if a.frame.isCmd {
          status := HandleCommand(a.frame.payload, a.io);
        } else {
          status := HandleData(a.frame.payload, a.io);
        }
        if status != Continue {
          return;
        }
        i := i + 1;
      }
    }

    /* ---- Sending ---- */

    method WriteFrame(f: Frame) returns (ok: bool)
      requires |wire| <= capacity
      modifies this`wire
      ensures ok <==> |old(wire)| < capacity
      ensures wire == if ok then old(wire) + [f] else old(wire)
    {
      ok := |wire| < capacity;
      if ok {
        wire := wire + [f];
      }
    }

    /** The copy loop of sendFile: a buffer of 4096 bytes, one data frame for each read. */
    method CopyChunks(bytes: string) returns (ok: bool, ghost n: nat)
      requires |wire| <= capacity
      modifies this`wire, this`bytesSent
      ensures n <= |Chunks(bytes)| && wire == old(wire) + Chunks(bytes)[..n] && |wire| <= capacity
      ensures bytesSent == old(bytesSent) + TotalBytes(Chunks(bytes)[..n])
      ensures if ok then n == |Chunks(bytes)| else n < |Chunks(bytes)| && |wire| == capacity
    {
      var pos := 0;
      ghost var done: seq<Frame> := [];
      while pos < |bytes|
        invariant pos <= |bytes| && |wire| <= capacity
        invariant Chunks(bytes) == done + Chunks(bytes[pos..])
        invariant wire == old(wire) + done && bytesSent == old(bytesSent) + TotalBytes(done)
      {
        var k := if |bytes| - pos < CHUNK then |bytes| - pos else CHUNK;
        var f := Data(bytes[pos..pos + k]);
        NextChunk(bytes, pos, k);
        ok := WriteFrame(f);
        if !ok {
          n := |done|;
          assert (done + Chunks(bytes[pos..]))[..n] == done;
          return;
        }
        Assoc(done, [f], Chunks(bytes[pos + k..]));
        Assoc(old(wire), done, [f]);
        TotalBytesAppend(done, f);
        done := done + [f];
        bytesSent := bytesSent + k;
        pos := pos + k;
      }
      ok, n := true, |done|;
      assert done + [] == done && done[..n] == done;
    }

    static lemma TotalBytesAppend(frames: seq<Frame>, f: Frame)
      ensures TotalBytes(frames + [f]) == TotalBytes(frames) + |f.payload|
    {
      assert (frames + [f])[..|frames|] == frames;
    }

    static lemma NextChunk(bytes: string, pos: nat, k: nat)
      requires pos < |bytes| && k == if |bytes| - pos < CHUNK then |bytes| - pos else CHUNK
      ensures Chunks(bytes[pos..]) == [Data(bytes[pos..pos + k])] + Chunks(bytes[pos + k..])
    {
      assert bytes[pos..][..k] == bytes[pos..pos + k] && bytes[pos..][k..] == bytes[pos + k..];
      assert pos + k == |bytes| ==> bytes[pos..] == bytes[pos..pos + k] && bytes[pos + k..] == "";
    }

    /** The announcement, then the bytes of the file. */
    method WriteAnnounced(announce: Frame, bytes: string) returns (ok: bool, ghost n: nat)
      requires |wire| <= capacity
      modifies this`wire, this`bytesSent
      ensures var frames := [announce] + Chunks(bytes);
              && n <= |frames| && wire == old(wire) + frames[..n] && |wire| <= capacity
              && bytesSent == old(bytesSent) + (if n == 0 then 0 else TotalBytes(frames[1..n]))
              && (if ok then n == |frames| else n < |frames| && |wire| == capacity)
    {
      ok := WriteFrame(announce);
      if !ok {
        n := 0;
        assert old(wire) + ([announce] + Chunks(bytes))[..0] == old(wire);
        return;
      }
      ok, n := CopyChunks(bytes);
      BehindAnnouncement(announce, Chunks(bytes), n);
      assert old(wire) + [announce] + Chunks(bytes)[..n] == old(wire) + ([announce] + Chunks(bytes)[..n]);
      n := n + 1;
    }

    static lemma BehindAnnouncement(announce: Frame, chunks: seq<Frame>, n: nat)
      requires n <= |chunks|
      ensures var frames := [announce] + chunks;
              && frames[..1 + n] == [announce] + chunks[..n] && frames[1..1 + n] == chunks[..n]
    {
    }

    /** A file that cannot be opened after its announcement contributes no bytes. */
    static lemma FramesToWrite(sources: map<string, Source>, item: Item)
      requires item.path in sources && sources[item.path].fault != StatDenied
      ensures var src := sources[item.path];
              ItemFrames(sources, item)
              == [FileFrame(item.Name(), |src.content|, src.mtime, item.offset)]
                 + Chunks(if CannotOpen(src, item.offset) then "" else Readable(src, item.offset))
    {
    }

    method SendFile(item: Item) returns (status: SendStatus)
      requires |wire| <= capacity
      modifies this`sentFileMap, this`wire, this`bytesSent, this`filesSent
      ensures var r := Sending.SendFile(old(View()), item, capacity); View() == r.state && status == r.status
      ensures |wire| <= capacity
    {
      if item.path !in sources || sources[item.path].fault == StatDenied {
        return if item.path !in sources then Missing else Aborted;
      }
      status := SendKnownFile(item, sources[item.path]);
    }

    /** sendFile after os.Stat has found the file. */
    method SendKnownFile(item: Item, src: Source) returns (status: SendStatus)
      requires |wire| <= capacity && item.path in sources && sources[item.path] == src && src.fault != StatDenied
      modifies this`sentFileMap, this`wire, this`bytesSent, this`filesSent
      ensures var r := Sending.SendFile(old(View()), item, capacity);
              wire == r.state.wire && Tx() == r.state.tx && status == r.status
      ensures |wire| <= capacity
    {
      sentFileMap := sentFileMap[item.Name() := SentInfo(item.path, item.deleteAfter)];
      var announce := FileFrame(item.Name(), |src.content|, src.mtime, item.offset);
      var bytes := if CannotOpen(src, item.offset) then "" else Readable(src, item.offset);
      FramesToWrite(sources, item);
      ghost var n;
      var ok;
      ok, n := WriteAnnounced(announce, bytes);
      SendFileIs(old(View()), item, src, capacity, n);
      if ok && src.fault == OpenVanished {
        return Missing;
      }
      if !ok || CannotOpen(src, item.offset) || src.fault.ReadFails? {
        return Aborted;
      }
      filesSent := filesSent + 1;
      return Sent;
    }

    /** A loop over requests or netmail; only a tolerant one skips missing files. */
    method SendAll(items: seq<Item>, tolerant: bool) returns (status: SendStatus)
      requires |wire| <= capacity
      modifies this`sentFileMap, this`wire, this`bytesSent, this`filesSent
      ensures var r := SendItems(old(View()), items, tolerant, capacity); View() == r.state && status == r.status
      ensures |wire| <= capacity && status != Missing
    {
      var i := 0;
      while i < |items|
        invariant i <= |items| && |wire| <= capacity
        invariant SendItems(old(View()), items, tolerant, capacity) == SendItems(View(), items[i..], tolerant, capacity)
      {
        SendItemsStep(View(), items, i, tolerant, capacity);
        status := SendFile(items[i]);
        if status == Aborted || (status == Missing && !tolerant) {
          return Aborted;
        }
        i := i + 1;
      }
      return Sent;
    }

    method ParseLine(rawLine: string) returns (item: Option<Item>)
      ensures item == LineItem(rawLine)
    {
      var line := TrimSpace(rawLine);
      if line == "" || HasPrefix(line, "#") {
        return None;
      }
      var deleteAfter := false;
      var path := line;
      if HasPrefix(line, "^") {
        deleteAfter := true;
        path := line[1..];
      }
      return Some(Item(path, "", 0, deleteAfter));
    }

    /** processFlowFile: line by line, then the flow file itself is removed. */
    method ProcessFlowFile(flow: string) returns (status: SendStatus)
      requires |wire| <= capacity
      modifies this`sentFileMap, this`wire, this`bytesSent, this`filesSent, this`flows
      ensures var r := SendFlow(old(View()), flow, capacity); View() == r.state && status == r.status
      ensures |wire| <= capacity
    {
      if flow !in flows {
        return Sent;
      }
      status := SendLines(Scannable(RawLines(flows[flow])));
      if status == Sent {
        flows := flows - {flow};
      }
    }

    method SendLines(lines: seq<string>) returns (status: SendStatus)
      requires |wire| <= capacity
      modifies this`sentFileMap, this`wire, this`bytesSent, this`filesSent
      ensures var r := SendItems(old(View()), FlowItems(lines), true, capacity); View() == r.state && status == r.status
      ensures |wire| <= capacity
    {
      var i := 0;
      while i < |lines|
        invariant i <= |lines| && |wire| <= capacity
        invariant SendItems(old(View()), FlowItems(lines), true, capacity)
               == SendItems(View(), FlowItems(lines[i..]), true, capacity)
      {
        assert lines[i..][0] == lines[i] && lines[i..][1..] == lines[i + 1..];
        var item := ParseLine(lines[i]);
        if item.Some? {
          status := SendFile(item.value);
          if status == Aborted {
            return;
          }
        }
        i := i + 1;
      }
      return Sent;
    }

    /** processNetmail: the packets that are there, with names made up for them. */
    method ProcessNetmail(a: FidoAddress, packets: Packets, k: nat) returns (items: seq<Item>)
      ensures items == NetmailFor(sources, box.netmail(a), packets, k, 0)
    {
      var places := box.netmail(a);
      items := [];
      var i := 0;
      while i < |places|
        invariant 0 <= i <= |places|
        invariant NetmailFor(sources, places, packets, k, 0) == items + NetmailFor(sources, places, packets, k, i)
      {
        NetmailStep(sources, places, packets, k, i, items);
        if CanStat(sources, places[i]) {
          items := items + [Item(places[i], packets(k, i), 0, true)];
        }
        i := i + 1;
      }
    }

    method FindFlowFiles(a: FidoAddress) returns (found: seq<string>)
      ensures found == Existing(flows, box.flows(a))
    {
      var places := box.flows(a);
      assert places[0..] == places;
      found := [];
      var i := 0;
      while i < |places|
        invariant 0 <= i <= |places|
        invariant Existing(flows, places) == found + Existing(flows, places[i..])
      {
        ExistingStep(flows, places, i, found);
        if places[i] in flows {
          found := found + [places[i]];
        }
        i := i + 1;
      }
    }

    /** The netmail and the flow files of one address. */
    method SendFilesFor(a: FidoAddress, packets: Packets, k: nat) returns (status: SendStatus)
      requires |wire| <= capacity
      modifies this`sentFileMap, this`wire, this`bytesSent, this`filesSent, this`flows
      ensures var r := SendAddress(old(View()), MailFor(box, sources, a, packets, k), capacity);
              View() == r.state && status == r.status
      ensures |wire| <= capacity
    {
      var netmails := ProcessNetmail(a, packets, k);
      status := SendAll(netmails, true);
      if status != Sent {
        return;
      }
      var flowFiles := FindFlowFiles(a);
      ExistingSuffice(View(), flows, box.flows(a), capacity);
      status := ProcessFlowFiles(flowFiles);
    }

    method ProcessFlowFiles(flowFiles: seq<string>) returns (status: SendStatus)
      requires |wire| <= capacity
      modifies this`sentFileMap, this`wire, this`bytesSent, this`filesSent, this`flows
      ensures var r := SendFlows(old(View()), flowFiles, capacity); View() == r.state && status == r.status
      ensures |wire| <= capacity
    {
      status := Sent;
      var i := 0;
      while i < |flowFiles|
        invariant i <= |flowFiles| && |wire| <= capacity && status == Sent
        invariant SendFlows(old(View()), flowFiles, capacity) == SendFlows(View(), flowFiles[i..], capacity)
      {
        assert flowFiles[i..][0] == flowFiles[i] && flowFiles[i..][1..] == flowFiles[i + 1..];
        status := ProcessFlowFile(flowFiles[i]);
        if status != Sent {
          return;
        }
        i := i + 1;
      }
    }

    method SendOutbound(requested: seq<Item>, packets: Packets) returns (status: SendStatus)
      requires |wire| <= capacity
      modifies this`sentFileMap, this`wire, this`bytesSent, this`filesSent, this`flows
      ensures var mail := MailOf(box, sources, remoteAddrs, packets);
              var r := SendQueue(old(View()), requested, mail, capacity); View() == r.state && status == r.status
      ensures |wire| <= capacity
    {
      status := SendAll(requested, false);
      if status == Sent {
        status := SendWaiting(packets);
      }
    }

    /** The loop over the addresses that the other side claims to have. */
    method SendWaiting(packets: Packets) returns (status: SendStatus)
      requires |wire| <= capacity
      modifies this`sentFileMap, this`wire, this`bytesSent, this`filesSent, this`flows
      ensures var mail := MailOf(box, sources, remoteAddrs, packets);
              var r := SendMail(old(View()), mail, capacity); View() == r.state && status == r.status
      ensures |wire| <= capacity
    {
      status := Sent;
      ghost var mail := MailOf(box, sources, remoteAddrs, packets);
      var i := 0;
      while i < |remoteAddrs|
        invariant i <= |remoteAddrs| && |wire| <= capacity && status == Sent
        invariant SendMail(old(View()), mail, capacity) == SendMail(View(), mail[i..], capacity)
      {
        assert mail[i..][0] == mail[i] && mail[i..][1..] == mail[i + 1..];
        status := SendFilesFor(remoteAddrs[i], packets, i);
        if status != Sent {
          return;
        }
        i := i + 1;
      }
    }

    method SendFiles(requested: seq<Item>, packets: Packets) returns (status: SendStatus)
      requires |wire| <= capacity
      modifies this`activeLink, this`sentFileMap, this`wire, this`bytesSent, this`filesSent, this`flows
      ensures var mail := MailOf(box, sources, remoteAddrs, packets);
              var r := Sending.SendFiles(ctx, old(View()), requested, mail, capacity);
              View() == r.state && status == r.status
    {
      SettleLink();
      status := SendUnlessRefused(requested, packets);
    }

    method SendUnlessRefused(requested: seq<Item>, packets: Packets) returns (status: SendStatus)
      requires |wire| <= capacity
      modifies this`sentFileMap, this`wire, this`bytesSent, this`filesSent, this`flows
      ensures var mail := MailOf(box, sources, remoteAddrs, packets);
              var r := SendSettled(ctx, old(View()), requested, mail, capacity); View() == r.state && status == r.status
    {
      var ok;
      if ctx.cfg.refuseInsecureSending && activeLink.None? && ctx.remoteLink.None? {
        ok := WriteFrame(EOB_FRAME);
        return Aborted;
      }
      status := SendOutbound(requested, packets);
      if status != Sent {
        return Aborted;
      }
      ok := WriteFrame(EOB_FRAME);
      return if ok then Sent else Aborted;
    }

    /** The goroutine fileSender: after a complete send, its critical section tells whether
        both sides are done, and then the connection is to be closed. */
    method FileSender(requested: seq<Item>, packets: Packets) returns (closeConnection: bool)
      requires |wire| <= capacity
      modifies this`activeLink, this`sentFileMap, this`wire, this`bytesSent, this`filesSent, this`flows, this`weSentEOB
      ensures var mail := MailOf(box, sources, remoteAddrs, packets);
              var r := Sending.SendFiles(ctx, old(View()), requested, mail, capacity);
              && weSentEOB == (r.status == Sent || old(weSentEOB))
              && Is(r.state.(weSentEOB := weSentEOB))
              && closeConnection == (r.status != Sent || theySentEOB)
    {
      var status := SendFiles(requested, packets);
      if status != Sent {
        return true;
      }
      weSentEOB := true;
      var theyAreDone := theySentEOB;
      return theyAreDone;
    }

    /* ---- Handshake ---- */

    /** A write of the handshake whose error the source drops. */
    method Put(f: Frame)
      requires |wire| <= capacity
      modifies this`wire
      ensures wire == Handshake.Capped(old(wire) + [f], capacity)
    {
      var ok := WriteFrame(f);
      assert !ok ==> (old(wire) + [f])[..capacity] == old(wire);
    }

    /** The errors of all writes but the last one, M_ADR, are dropped. */
    method SendHandshake(random: string) returns (ok: bool)
      requires |wire| <= capacity
      modifies this`ourChallenge, this`wire
      ensures var all := old(wire) + Handshake.Greeting(ctx, Handshake.GenerateChallenge(random));
              wire == Handshake.Capped(all, capacity) && (ok <==> |all| <= capacity)
      ensures ourChallenge == if ctx.IsOutgoing() then old(ourChallenge) else Handshake.GenerateChallenge(random)
    {
      var cfg := ctx.cfg;
      var lines := [];
      if !ctx.IsOutgoing() {
        ourChallenge := Handshake.GenerateChallenge(random);
        lines := lines + [Cmd(M_NUL, "OPT " + Handshake.CRAM + ourChallenge)];
      }
      if cfg.systemName != "" {
        lines := lines + [Cmd(M_NUL, "SYS " + cfg.systemName)];
      }
      if cfg.sysop != "" {
        lines := lines + [Cmd(M_NUL, "ZYZ " + cfg.sysop)];
      }
      if cfg.location != "" {
        lines := lines + [Cmd(M_NUL, "LOC " + cfg.location)];
      }
      lines := lines + [Cmd(M_NUL, "NDL " + cfg.nodelistFlags),
                        Cmd(M_NUL, "VER momail v" + cfg.version + " binkp/1.0"),
                        Cmd(M_ADR, Print(cfg.parsedAddress))];
      assert lines == Handshake.Greeting(ctx, Handshake.GenerateChallenge(random));
      ok := PutAll(lines);
    }

    /** The writes one by one, and whether the last one succeeded. */
    method PutAll(lines: seq<Frame>) returns (ok: bool)
      requires |wire| <= capacity && lines != []
      modifies this`wire
      ensures wire == Handshake.Capped(old(wire) + lines, capacity) && (ok <==> |old(wire) + lines| <= capacity)
    {
      ok := true;
      var i := 0;
      assert old(wire) + lines[..0] == old(wire);
      while i < |lines|
        invariant i <= |lines| && |wire| <= capacity
        invariant wire == Handshake.Capped(old(wire) + lines[..i], capacity)
        invariant i > 0 ==> (ok <==> |old(wire)| + i <= capacity)
      {
        Handshake.CappedTwice(old(wire) + lines[..i], [lines[i]], capacity);
        Assoc(old(wire), lines[..i], [lines[i]]);
        assert lines[..i + 1] == lines[..i] + [lines[i]];
        assert |wire| < capacity <==> |old(wire)| + i < capacity;
        ghost var before := wire;
        ok := WriteFrame(lines[i]);
        assert !ok ==> (before + [lines[i]])[..capacity] == before;
        i := i + 1;
      }
      assert lines[..|lines|] == lines;
    }

    method FindChallenge(data: string) returns (challenge: string)
      ensures challenge == Handshake.ChallengeIn(data)
    {
      if HasPrefix(data, Handshake.CRAM) {
        return data[|Handshake.CRAM|..];
      }
      if !HasPrefix(data, "OPT ") {
        return "";
      }
      var parts := Fields(data);
      var i := 0;
      while i < |parts|
        invariant i <= |parts|
        invariant Handshake.FirstChallenge(parts) == Handshake.FirstChallenge(parts[i..])
      {
        if HasPrefix(parts[i], Handshake.CRAM) {
          return parts[i][|Handshake.CRAM|..];
        }
        assert parts[i..][1..] == parts[i + 1..];
        i := i + 1;
      }
      return "";
    }

    method ParseAddress(part: string) returns (addrs: seq<FidoAddress>)
      ensures addrs == Handshake.AddressIn(part, ctx.cfg.parsedAddress.zone)
    {
      var p := part;
      var at := Index(p, '@');
      if at < |p| {
        p := p[..at];
      } else {
        assert p[..at] == p;
      }
      var addr := Parse(p, ctx.cfg.parsedAddress.zone);
      return if addr.Some? then [addr.value] else [];
    }

    method ParseAddresses(data: string) returns (addrs: seq<FidoAddress>)
      ensures addrs == Handshake.AddressesIn(Fields(data), ctx.cfg.parsedAddress.zone)
    {
      var parts := Fields(data);
      addrs := [];
      var i := 0;
      while i < |parts|
        invariant i <= |parts|
        invariant Handshake.AddressesIn(parts, ctx.cfg.parsedAddress.zone)
               == addrs + Handshake.AddressesIn(parts[i..], ctx.cfg.parsedAddress.zone)
      {
        var a := ParseAddress(parts[i]);
        Handshake.AddressesStep(parts, i, ctx.cfg.parsedAddress.zone);
        Assoc(addrs, a, Handshake.AddressesIn(parts[i + 1..], ctx.cfg.parsedAddress.zone));
        addrs := addrs + a;
        i := i + 1;
      }
    }

    /** What a received frame means to the handshake. */
    method Understand(f: Frame) returns (e: Handshake.Event)
      ensures e == Handshake.Understand(ctx.cfg.parsedAddress.zone, f)
    {
      if !f.isCmd {
        return Handshake.Abort(Handshake.DataFrame);
      }
      if |f.payload| == 0 {
        return Handshake.Ignored;
      }
      var cmd, data := f.payload[0], f.payload[1..];
      if cmd == M_NUL {
        var challenge := FindChallenge(data);
        return if challenge == "" then Handshake.Ignored else Handshake.Offer(challenge);
      } else if cmd == M_ADR {
        var addrs := ParseAddresses(data);
        return Handshake.Addresses(addrs);
      } else if cmd == M_PWD {
        return Handshake.Password(data);
      } else if cmd == M_OK {
        return Handshake.Approval;
      } else if cmd == M_ERR {
        return Handshake.Abort(Handshake.RemoteError(data));
      }
      return if cmd == M_BSY then Handshake.Abort(Handshake.RemoteBusy) else Handshake.Ignored;
    }

    method SendCramResponse(password: string)
      requires |wire| <= capacity
      modifies this`pwdSent, this`wire
      ensures pwdSent == (old(pwdSent) || password != "")
      ensures wire == if password == "" then old(wire)
                      else Handshake.Capped(old(wire) + [Handshake.CramFrame(mac, password, remoteChallenge)], capacity)
    {
      if password == "" {
        return;
      }
      pwdSent := true;
      Put(Handshake.CramFrame(mac, password, remoteChallenge));
    }

    /** What a turn writes, as far as the connection takes it. */
    ghost predicate Replied(before: seq<Frame>, replies: seq<Frame>)
      reads this`wire
    {
      wire == Handshake.Capped(before + replies, capacity)
    }

    method OnAddresses(addrs: seq<FidoAddress>, authDone: bool) returns (done: bool)
      requires |wire| <= capacity
      modifies this`remoteAddrs, this`activeLink, this`pwdSent, this`wire
      ensures forall sawAdr :: var t := Handshake.OnAddresses(ctx, mac, old(AuthView(sawAdr, authDone)), addrs);
                               AuthView(true, done) == t.auth && Replied(old(wire), t.replies) && t.Ok()
    {
      remoteAddrs := remoteAddrs + addrs;
      done := authDone;
      assert wire + [] == wire;
      if ctx.IsOutgoing() {
        if !pwdSent {
          var link := ctx.remoteLink.value;
          if remoteChallenge == "" && link.password != "" {
            Put(Cmd(M_PWD, link.password));
            pwdSent := true;
          } else if link.password == "" {
            activeLink := Some(link);
            done := true;
          }
        }
      } else {
        var link := FindLink();
        if link.None? {
          done := true;
        } else if link.value.password == "" {
          activeLink := link;
          done := true;
        } else if remoteChallenge != "" && !pwdSent {
          SendCramResponse(link.value.password);
        }
      }
    }

    method OnPassword(data: string, authDone: bool) returns (failure: Option<Handshake.Failure>, done: bool)
      requires |wire| <= capacity
      modifies this`activeLink, this`wire
      ensures forall sawAdr :: var t := Handshake.OnPassword(ctx, mac, old(AuthView(sawAdr, authDone)), data);
                               AuthView(sawAdr, done) == t.auth && Replied(old(wire), t.replies) && failure == t.failure
    {
      failure, done := None, true;
      var link := FindLink();
      if link.None? {
        Put(Cmd(M_OK, "Unprotected session"));
      } else if link.value.password == "" {
        activeLink := link;
        Put(Cmd(M_OK, "Password not required"));
      } else if Handshake.Accepts(mac, link.value.password, ourChallenge, data) {
        activeLink := link;
        Put(Cmd(M_OK, "Password accepted"));
      } else {
        Put(Cmd(M_ERR, "Bad password"));
        failure, done := Some(Handshake.BadPassword), authDone;
      }
    }

    /** The body of the handshake loop. */
    method Act(e: Handshake.Event, sawAdr: bool, authDone: bool)
      returns (failure: Option<Handshake.Failure>, saw: bool, done: bool)
      requires |wire| <= capacity
      modifies this`remoteAddrs, this`activeLink, this`remoteChallenge, this`pwdSent, this`wire
      ensures var t := Handshake.Act(ctx, mac, old(AuthView(sawAdr, authDone)), e);
              AuthView(saw, done) == t.auth && Replied(old(wire), t.replies) && failure == t.failure
    {
      failure, saw, done := None, sawAdr, authDone;
      assert wire + [] == wire;
      match e
      case Offer(challenge) =>
        remoteChallenge := challenge;
        if ctx.remoteLink.Some? && !pwdSent {
          SendCramResponse(ctx.remoteLink.value.password);
        }
      case Addresses(addrs) =>
        done := OnAddresses(addrs, authDone);
        saw := true;
      case Password(data) =>
        failure, done := OnPassword(data, authDone);
      case Approval =>
        if ctx.remoteLink.Some? && pwdSent && activeLink.None? {
          activeLink := ctx.remoteLink;
          done := true;
        }
      case Abort(why) =>
        failure := Some(why);
      case Ignored =>
    }

    /** performHandshake, over the random bytes it draws and the frames that can be read;
        None means that the greeting could not be sent. */
    method PerformHandshake(random: string, frames: seq<Frame>) returns (end: Option<Handshake.End>)
      requires AuthView(false, false) == Handshake.Fresh("") && |wire| <= capacity
      modifies this`remoteAddrs, this`activeLink, this`ourChallenge, this`remoteChallenge, this`pwdSent, this`wire
      ensures var challenge := Handshake.GenerateChallenge(random);
              var o := Handshake.Loop(ctx, mac, Handshake.Fresh(if ctx.IsOutgoing() then "" else challenge), frames);
              var greeted := old(wire) + Handshake.Greeting(ctx, challenge);
              if |greeted| <= capacity then
                && end == Some(o.end) && AuthView(o.auth.sawAdr, o.auth.authDone) == o.auth
                && Replied(greeted, o.replies)
              else end == None && wire == Handshake.Capped(greeted, capacity)
    {
      var ok := SendHandshake(random);
      if !ok {
        return None;
      }
      assert AuthView(false, false)
          == Handshake.Fresh(if ctx.IsOutgoing() then "" else Handshake.GenerateChallenge(random));
      var e := HandshakeLoop(frames);
      return Some(e);
    }

    method HandshakeLoop(frames: seq<Frame>) returns (end: Handshake.End)
      requires |wire| <= capacity
      modifies this`remoteAddrs, this`activeLink, this`remoteChallenge, this`pwdSent, this`wire
      ensures var o := Handshake.Loop(ctx, mac, old(AuthView(false, false)), frames);
              end == o.end && AuthView(o.auth.sawAdr, o.auth.authDone) == o.auth && Replied(old(wire), o.replies)
    {
      ghost var start := AuthView(false, false);
      ghost var replies: seq<Frame> := [];
      var sawAdr, authDone, i := false, false, 0;
      var failure: Option<Handshake.Failure> := None;
      Handshake.Starts(ctx, mac, start, frames);
      assert wire + [] == wire;
      while failure.None? && i < |frames| && (!sawAdr || !authDone)
        invariant i <= |frames| && Replied(old(wire), replies) && |wire| <= capacity
        invariant if failure.None? then Handshake.Follows(ctx, mac, start, frames, AuthView(sawAdr, authDone), i, replies)
                  else Handshake.Loop(ctx, mac, start, frames)
                       == Handshake.Outcome(AuthView(sawAdr, authDone), replies, Handshake.Refused(failure.value))
        decreases |frames| - i
      {
        failure, sawAdr, authDone, replies := HandshakeTurn(frames, i, sawAdr, authDone, start, replies, old(wire));
        i := i + 1;
      }
      if failure.None? {
        Handshake.Stops(ctx, mac, start, frames, AuthView(sawAdr, authDone), i, replies);
        end := if sawAdr && authDone then Handshake.Complete else Handshake.ReadFailed;
      } else {
        end := Handshake.Refused(failure.value);
      }
    }

    /** One turn of the handshake loop: frame i is read and acted upon. */
    method HandshakeTurn(frames: seq<Frame>, i: nat, sawAdr: bool, authDone: bool, ghost start: Handshake.Auth,
                         ghost replies: seq<Frame>, ghost before: seq<Frame>)
      returns (failure: Option<Handshake.Failure>, saw: bool, done: bool, ghost all: seq<Frame>)
      requires i < |frames| && !(sawAdr && authDone)
      requires Handshake.Follows(ctx, mac, start, frames, AuthView(sawAdr, authDone), i, replies)
      requires Replied(before, replies) && |wire| <= capacity
      modifies this`remoteAddrs, this`activeLink, this`remoteChallenge, this`pwdSent, this`wire
      ensures Replied(before, all) && |wire| <= capacity
      ensures if failure.None? then Handshake.Follows(ctx, mac, start, frames, AuthView(saw, done), i + 1, all)
              else Handshake.Loop(ctx, mac, start, frames)
                   == Handshake.Outcome(AuthView(saw, done), all, Handshake.Refused(failure.value))
    {
      ghost var a := AuthView(sawAdr, authDone);
      var e := Understand(frames[i]);
      Handshake.StepFollows(ctx, mac, start, frames, a, i, replies, e);
      failure, saw, done := Act(e, sawAdr, authDone);
      ghost var more := Handshake.Act(ctx, mac, a, e).replies;
      Handshake.CappedTwice(before + replies, more, capacity);
      Assoc(before, replies, more);
      all := replies + more;
    }
  }
}
