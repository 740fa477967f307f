/** The receive state machine of binkp/session.go: what each frame does to a session
    in the file transfer stage, for every behaviour of the file system. */
module Receive {
  import opened GoStrings
  import opened Frames
  import opened SessionState

  /** The operating system's answers while one frame is handled. */
  datatype Io = Io(tempDirOk: bool, openOk: bool, writeOk: bool, stored: nat,
                   inboxDirOk: bool, renameOk: bool, sendOk: bool, removeOk: bool)

  const ALL_OK: Io := Io(true, true, true, 0, true, true, true, true)

  datatype Status = Continue | Finished | Failed

  datatype Reaction = Reaction(state: State, status: Status)

  /** A frame and how the system behaves while it is handled. */
  datatype Arrival = Arrival(frame: Frame, io: Io)

  function Send(s: State, f: Frame, io: Io): State {
    if io.sendOk then s.(wire := s.wire + [f]) else s
  }

  /** Writing at a position of a file; a gap reads as zero bytes. */
  function Overwrite(content: string, pos: nat, data: string): (r: string)
    ensures pos == |content| ==> r == content + data
    ensures |r| == if |content| < pos + |data| then pos + |data| else |content|
  {
    if pos > |content| then content + seq(pos - |content|, _ => 0 as char) + data
    else if pos + |data| <= |content| then content[..pos] + data + content[pos + |data|..]
    else content[..pos] + data
  }

  function GotFrame(name: string, size: int, timestamp: string): Frame {
    Cmd(M_GOT, Join([name, SignedDecimal(size), timestamp]))
  }

  /** The reception after the rename of its file into a directory has succeeded. */
  function MovedTo(rx: Reception, dir: string): Reception
    requires rx.recvName in rx.temp
  {
    var slot, content := Slot(dir, rx.recvName), rx.temp[rx.recvName];
    rx.(temp := rx.temp - {rx.recvName},
        inbound := rx.inbound[slot := content],
        moved := rx.moved + [Moved(slot, content)],
        filesReceived := rx.filesReceived + 1,
        bytesReceived := rx.bytesReceived + rx.recvBytes)
  }

  /** finishCurrentFile up to the choice of the inbound directory. */
  function Closing(ctx: Context, s: State): State {
    s.(activeLink := Settled(ctx, s.remoteAddrs, s.activeLink), rx := s.rx.(file := None))
  }

  /** Its rename and, when that succeeds, the confirmation. */
  function Rename(s: State, dir: string, io: Io): Reaction {
    if !io.renameOk || s.rx.recvName !in s.rx.temp then
      Reaction(s.(rx := s.rx.(lost := s.rx.lost + {s.rx.recvName})), Continue)
    else
      Reaction(Send(s.(rx := MovedTo(s.rx, dir)), GotFrame(s.rx.recvName, s.rx.recvBytes, s.rx.recvTimestamp), io),
               if io.sendOk then Continue else Failed)
  }

  /** finishCurrentFile. */
  function FinishFile(ctx: Context, s: State, io: Io): Reaction {
    if io.inboxDirOk then Rename(Closing(ctx, s), Destination(ctx, s.remoteAddrs, s.activeLink), io)
    else Reaction(Closing(ctx, s), Failed)
  }

  /** What handleFile reads from the arguments of M_FILE. */
  datatype Announcement = Announcement(name: string, baseName: string, size: int, timestamp: string, offset: int)

  function ParseFile(args: string): Option<Announcement> {
    var parts := Fields(args);
    if |parts| < 2 then None
    else Some(Announcement(parts[0], Base(parts[0]), ParseInt64(parts[1]),
                           if |parts| > 2 then parts[2] else "0", OffsetOf(args)))
  }

  function OffsetOf(args: string): int {
    var parts := Fields(args);
    if |parts| > 3 then ParseInt64(parts[3]) else 0
  }

  predicate NamesDirectory(name: string) {
    name == "." || name == ".." || name == "/"
  }

  /** The reception with the announced file open, anew or to resume. */
  function Opened(rx: Reception, a: Announcement): (r: Reception)
    ensures r.moved == rx.moved && r.inbound == rx.inbound && r.lost == rx.lost
  {
    var resume := a.offset > 0 && a.baseName in rx.temp && |rx.temp[a.baseName]| == a.offset;
    rx.(file := Some(if resume then a.offset else 0),
        recvName := a.baseName,
        recvTimestamp := a.timestamp,
        recvSize := a.size,
        recvBytes := if a.offset > 0 && !resume then 0 else a.offset,
        temp := if resume then rx.temp else rx.temp[a.baseName := ""])
  }

  /** Names that denote a directory cannot be opened for writing. */
  function OpenTemp(s: State, a: Announcement, io: Io): Reaction {
    if !io.tempDirOk then Reaction(s, Failed)
    else if !io.openOk || NamesDirectory(a.baseName) then Reaction(Send(s, Cmd(M_SKIP, a.name), io), Failed)
    else Reaction(s.(rx := Opened(s.rx, a)), Continue)
  }

  /** The rest of handleFile, once no file is open. */
  function OpenFile(s: State, args: string, io: Io): Reaction {
    match ParseFile(args)
    case None => Reaction(s, Failed)
    case Some(a) => OpenTemp(s, a, io)
  }

  function HandleFile(ctx: Context, s: State, args: string, io: Io): Reaction {
    if s.rx.file.None? then OpenFile(s, args, io)
    else
      var r := FinishFile(ctx, s, io);
      if r.status == Continue then OpenFile(r.state, args, io) else r
  }

  /** The file write of handleData: part reaches the file, of which counted bytes are counted. */
  function Stored(rx: Reception, part: string, counted: nat): Reception
    requires rx.file.Some? && rx.recvName in rx.temp
  {
    rx.(file := Some(rx.file.value + |part|),
        temp := rx.temp[rx.recvName := Overwrite(rx.temp[rx.recvName], rx.file.value, part)],
        recvBytes := rx.recvBytes + counted)
  }

  function Store(s: State, part: string, counted: nat): State
    requires s.rx.file.Some? && s.rx.recvName in s.rx.temp
  {
    s.(rx := Stored(s.rx, part, counted))
  }

  /** handleData. An open file is always in the temporary directory (FileCounted). */
  function HandleData(ctx: Context, s: State, data: string, io: Io): Reaction {
    if s.rx.file.None? || s.rx.recvName !in s.rx.temp then Reaction(s, Continue)
    else if !io.writeOk then
      Reaction(Store(s, if io.stored > |data| then data else data[..io.stored], 0), Failed)
    else
      var t := Store(s, data, |data|);
      if t.rx.recvSize > 0 && t.rx.recvBytes >= t.rx.recvSize then FinishFile(ctx, t, io) else Reaction(t, Continue)
  }

  function HandleEOB(ctx: Context, s: State, io: Io): Reaction {
    var r := if s.rx.file.None? then Reaction(s, Continue) else FinishFile(ctx, s, io);
    if r.status != Continue then r
    else Reaction(r.state.(theySentEOB := true), if r.state.weSentEOB then Finished else Continue)
  }

  /** handleGot: a confirmed file that was marked for deletion is removed; a removal that
      fails is only logged. */
  function HandleGot(s: State, args: string, io: Io): State {
    var parts := Fields(args);
    if parts == [] || parts[0] !in s.tx.sent || !s.tx.sent[parts[0]].deleteAfter || !io.removeOk then s
    else s.(tx := s.tx.(sources := s.tx.sources - {s.tx.sent[parts[0]].path}))
  }

  /** handleCommand. M_GET only queues a request, which is not part of the state. */
  function HandleCommand(ctx: Context, s: State, payload: string, io: Io): Reaction {
    if payload == "" then Reaction(s, Continue)
    else
      var cmd, args := payload[0], payload[1..];
      if cmd == M_FILE then HandleFile(ctx, s, args, io)
      else if cmd == M_EOB then HandleEOB(ctx, s, io)
      else if cmd == M_ERR || cmd == M_BSY then Reaction(s, Failed)
      else if cmd == M_GOT then Reaction(HandleGot(s, args, io), Continue)
      else Reaction(s, Continue)
  }

  function Handle(ctx: Context, s: State, a: Arrival): Reaction {
    if a.frame.isCmd then HandleCommand(ctx, s, a.frame.payload, a.io)
    else HandleData(ctx, s, a.frame.payload, a.io)
  }

  /** The loop of fileReader over the frames that arrive, until one ends the session. */
  function Run(ctx: Context, s: State, arrivals: seq<Arrival>): Reaction
    decreases |arrivals|
  {
    if arrivals == [] then Reaction(s, Continue)
    else
      var r := Handle(ctx, s, arrivals[0]);
      if r.status == Continue then Run(ctx, r.state, arrivals[1..]) else r
  }

  /** Why a read fails: io.EOF, net.ErrClosed, anything else. */
  datatype ReadError = StreamEnd | LocallyClosed | OtherError

  /** Why fileReader returns: errSessionFinished; net.ErrClosed with both flags set; io.EOF;
      any other error. */
  datatype Reason = SessionFinished | ExpectedClose | RemoteClosed | Error

  /** A close by the own sender, when both sides are done, is no error. */
  function AfterReadError(s: State, err: ReadError): Reason {
    if err == StreamEnd then RemoteClosed
    else if err == LocallyClosed && s.weSentEOB && s.theySentEOB then ExpectedClose
    else Error
  }

  /** fileReader over the frames that arrive before a read fails. */
  function ReadLoop(ctx: Context, s: State, arrivals: seq<Arrival>, err: ReadError): (State, Reason) {
    var r := Run(ctx, s, arrivals);
    (r.state, match r.status
              case Continue => AfterReadError(r.state, err)
              case Finished => SessionFinished
              case Failed => Error)
  }

  /* ---- What every reachable state keeps ---- */

  function TotalMoved(moved: seq<Moved>): nat {
    if moved == [] then 0 else TotalMoved(moved[..|moved| - 1]) + |moved[|moved| - 1].content|
  }

  predicate IsGot(f: Frame) {
    f.isCmd && f.payload != "" && f.payload[0] == M_GOT
  }

  /** The M_GOT frames among those written. */
  function Confirmations(wire: seq<Frame>): seq<Frame> {
    if wire == [] then []
    else Confirmations(wire[..|wire| - 1]) + (if IsGot(wire[|wire| - 1]) then [wire[|wire| - 1]] else [])
  }

  /** The counters of an open file agree with the file itself. */
  ghost predicate FileCounted(s: State) {
    s.rx.file.Some? ==> s.rx.recvName in s.rx.temp && |s.rx.temp[s.rx.recvName]| == s.rx.file.value == s.rx.recvBytes
  }

  /** M_GOT number i names moved file i and its true length. */
  ghost predicate Confirms(f: Frame, m: Moved) {
    exists timestamp :: f == GotFrame(m.slot.name, |m.content|, timestamp)
  }

  ghost predicate Counted(s: State) {
    && FileCounted(s)
    && s.rx.filesReceived == |s.rx.moved|
    && s.rx.bytesReceived == TotalMoved(s.rx.moved)
  }

  ghost predicate Confirmed(s: State) {
    && |Confirmations(s.wire)| == |s.rx.moved|
    && forall i :: 0 <= i < |s.rx.moved| ==> Confirms(Confirmations(s.wire)[i], s.rx.moved[i])
  }

  ghost predicate NonNegativeOffset(f: Frame) {
    f.isCmd && f.payload != "" && f.payload[0] == M_FILE ==> OffsetOf(f.payload[1..]) >= 0
  }

  lemma ConfirmationsAppend(wire: seq<Frame>, f: Frame)
    ensures Confirmations(wire + [f]) == Confirmations(wire) + (if IsGot(f) then [f] else [])
  {
    assert (wire + [f])[..|wire|] == wire;
  }

  lemma FinishKeepsCounts(ctx: Context, s: State, io: Io)
    requires Counted(s) && Confirmed(s) && s.rx.file.Some?
    ensures var r := FinishFile(ctx, s, io);
            Counted(r.state) && r.state.rx.file.None? && (r.status == Continue ==> Confirmed(r.state))
  {
    var r := FinishFile(ctx, s, io);
    if io.inboxDirOk && io.renameOk {
      var m := r.state.rx.moved[|s.rx.moved|];
      assert r.state.rx.moved[..|s.rx.moved|] == s.rx.moved;
      var got := GotFrame(s.rx.recvName, s.rx.recvBytes, s.rx.recvTimestamp);
      ConfirmationsAppend(s.wire, got);
      assert Confirms(got, m);
    }
  }

  /** Opening a file keeps the counters right exactly when its offset is not negative. */
  lemma OpenKeepsCounts(s: State, args: string, io: Io)
    requires Counted(s) && Confirmed(s) && s.rx.file.None?
    ensures var r := OpenFile(s, args, io);
            && (r.status != Continue ==> r.state.rx.file.None?)
            && (r.status == Continue ==> (Counted(r.state) <==> OffsetOf(args) >= 0))
            && (OffsetOf(args) >= 0 ==> Counted(r.state))
            && (r.status == Continue ==> Confirmed(r.state))
  {
  }

  lemma StoreKeepsCounts(s: State, data: string)
    requires Counted(s) && Confirmed(s) && s.rx.file.Some?
    ensures var t := Store(s, data, |data|);
            Counted(t) && Confirmed(t) && t.rx.file.Some?
  {
  }

  lemma DataKeepsCounts(ctx: Context, s: State, data: string, io: Io)
    requires Counted(s) && Confirmed(s)
    ensures var r := HandleData(ctx, s, data, io);
            r.status != Failed ==> Counted(r.state) && Confirmed(r.state)
  {
    if s.rx.file.Some? && io.writeOk {
      StoreKeepsCounts(s, data);
      FinishKeepsCounts(ctx, Store(s, data, |data|), io);
    }
  }

  lemma FileKeepsCounts(ctx: Context, s: State, args: string, io: Io)
    requires Counted(s) && Confirmed(s) && OffsetOf(args) >= 0
    ensures var r := HandleFile(ctx, s, args, io);
            r.status != Failed ==> Counted(r.state) && Confirmed(r.state)
  {
    if s.rx.file.Some? {
      FinishKeepsCounts(ctx, s, io);
      var r := FinishFile(ctx, s, io);
      if r.status == Continue {
        OpenKeepsCounts(r.state, args, io);
      }
    } else {
      OpenKeepsCounts(s, args, io);
    }
  }

  lemma EobKeepsCounts(ctx: Context, s: State, io: Io)
    requires Counted(s) && Confirmed(s)
    ensures var r := HandleEOB(ctx, s, io);
            r.status != Failed ==> Counted(r.state) && Confirmed(r.state)
  {
    if s.rx.file.Some? {
      FinishKeepsCounts(ctx, s, io);
    }
  }

  lemma HandleKeepsCounts(ctx: Context, s: State, a: Arrival)
    requires Counted(s) && Confirmed(s) && NonNegativeOffset(a.frame)
    ensures var r := Handle(ctx, s, a);
            r.status != Failed ==> Counted(r.state) && Confirmed(r.state)
  {
    var payload := a.frame.payload;
    if !a.frame.isCmd {
      DataKeepsCounts(ctx, s, payload, a.io);
    } else if payload != "" && payload[0] == M_FILE {
      FileKeepsCounts(ctx, s, payload[1..], a.io);
    } else if payload != "" && payload[0] == M_EOB {
      EobKeepsCounts(ctx, s, a.io);
    }
  }

  /** Over any input with non-negative offsets, whatever the file system does: the byte
      counter is the length and write position of the open file, and the M_GOT frames
      written are, one for one, the files delivered with their true lengths. */
  lemma {:induction false} RunKeepsCounts(ctx: Context, s: State, arrivals: seq<Arrival>)
    requires Counted(s) && Confirmed(s)
    requires forall i :: 0 <= i < |arrivals| ==> NonNegativeOffset(arrivals[i].frame)
    ensures var r := Run(ctx, s, arrivals);
            r.status != Failed ==> Counted(r.state) && Confirmed(r.state)
    decreases |arrivals|
  {
    if arrivals != [] {
      HandleKeepsCounts(ctx, s, arrivals[0]);
      var r := Handle(ctx, s, arrivals[0]);
      if r.status == Continue {
        RunKeepsCounts(ctx, r.state, arrivals[1..]);
      }
    }
  }

  /* ---- Authentication during the transfer stage ---- */

  /** What a step may do to the facts that decide where files go. */
  ghost predicate SameDestination(ctx: Context, s: State, r: State) {
    && r.remoteAddrs == s.remoteAddrs
    && (r.activeLink == s.activeLink || r.activeLink == Settled(ctx, s.remoteAddrs, s.activeLink))
    && s.rx.moved <= r.rx.moved
    && forall i :: |s.rx.moved| <= i < |r.rx.moved|
                   ==> r.rx.moved[i].slot.dir == Destination(ctx, s.remoteAddrs, s.activeLink)
  }

  lemma FinishDestination(ctx: Context, s: State, io: Io)
    ensures SameDestination(ctx, s, FinishFile(ctx, s, io).state)
  {
  }

  lemma DataDestination(ctx: Context, s: State, data: string, io: Io)
    ensures SameDestination(ctx, s, HandleData(ctx, s, data, io).state)
  {
    if s.rx.file.Some? && s.rx.recvName in s.rx.temp && io.writeOk {
      FinishDestination(ctx, Store(s, data, |data|), io);
    }
  }

  lemma FileDestination(ctx: Context, s: State, args: string, io: Io)
    ensures SameDestination(ctx, s, HandleFile(ctx, s, args, io).state)
  {
    if s.rx.file.Some? {
      FinishDestination(ctx, s, io);
      var r := FinishFile(ctx, s, io);
      if r.status == Continue {
        assert OpenFile(r.state, args, io).state.rx.moved == r.state.rx.moved;
      }
    } else {
      assert OpenFile(s, args, io).state.rx.moved == s.rx.moved;
    }
  }

  lemma HandleDestination(ctx: Context, s: State, a: Arrival)
    ensures SameDestination(ctx, s, Handle(ctx, s, a).state)
  {
    var payload := a.frame.payload;
    if !a.frame.isCmd {
      DataDestination(ctx, s, payload, a.io);
    } else if payload != "" && payload[0] == M_FILE {
      FileDestination(ctx, s, payload[1..], a.io);
    } else if payload != "" && payload[0] == M_EOB {
      FinishDestination(ctx, s, a.io);
    }
  }

  /** Whatever arrives, all files of one session go to one inbound directory. */
  lemma {:induction false} OneDestination(ctx: Context, s: State, arrivals: seq<Arrival>)
    ensures SameDestination(ctx, s, Run(ctx, s, arrivals).state)
    decreases |arrivals|
  {
    if arrivals != [] {
      var r := Handle(ctx, s, arrivals[0]);
      HandleDestination(ctx, s, arrivals[0]);
      if r.status == Continue {
        OneDestination(ctx, r.state, arrivals[1..]);
      }
    }
  }
}
