/** Two mailers joined by a connection: each runs a sender and a reader, and their steps
    interleave in any order, one system call or frame at a time. The wire log of a side
    together with the other side's read position is the queue of frames in flight. */
module Peers {
  import opened GoStrings
  import opened Frames
  import opened SessionState
  import opened Receive
  import opened Sending
  import opened Transfer

  /** What a side starts with: its context, the items it will send, its source files, and
      the inbound directory that its own session uses. */
  datatype Setup = Setup(ctx: Context, plan: seq<Item>, files: map<string, Source>, dest: string)

  /** Where sendFile is: before item next; after os.Stat, which saw src; with the name noted
      in sentFileMap; with M_FILE written; in the copy loop, with the rest of the file open. */
  datatype Progress = Idle(next: nat) | Found(next: nat, src: Source) | Noted(next: nat, src: Source)
                    | Opening(next: nat) | Copying(next: nat, rest: string) | Ended

  /** held: a reply the reader has not written yet; read: frames read from the other side;
      stop: how the reader ended, if it did. The items announced so far are a history. */
  datatype Side = Side(setup: Setup, s: State, progress: Progress, held: seq<Frame>, read: nat, stop: Status,
                       announced: set<nat>)

  datatype World = World(a: Side, b: Side)

  /* ---- Steps ---- */

  function Wrote(x: Side, f: Frame): Side {
    x.(s := x.s.(wire := x.s.wire + [f]))
  }

  /** os.Stat: a missing file is skipped. */
  ghost predicate Stats(x: Side, x': Side) {
    && x.progress.Idle? && x.progress.next < |x.setup.plan|
    && var path := x.setup.plan[x.progress.next].path;
    && x' == x.(progress := if path in x.s.tx.sources then Found(x.progress.next, x.s.tx.sources[path])
                            else Idle(x.progress.next + 1))
  }

  /** The entry in sentFileMap, which replaces an older one of the same name. */
  ghost predicate Notes(x: Side, x': Side) {
    && x.progress.Found? && x.progress.next < |x.setup.plan|
    && var item := x.setup.plan[x.progress.next];
    && x' == x.(s := x.s.(tx := x.s.tx.(sent := x.s.tx.sent[item.Name() := SentInfo(item.path, item.deleteAfter)])),
                progress := Noted(x.progress.next, x.progress.src))
  }

  /** M_FILE, with the size and time that os.Stat saw. */
  ghost predicate Announces(x: Side, x': Side) {
    && x.progress.Noted? && x.progress.next < |x.setup.plan|
    && var item, src := x.setup.plan[x.progress.next], x.progress.src;
    && x' == Wrote(x, FileFrame(item.Name(), |src.content|, src.mtime, item.offset)).(
               progress := Opening(x.progress.next), announced := x.announced + {x.progress.next})
  }

  /** os.Open and Seek: by now the session itself may have removed the file, or it has vanished
      otherwise, and then it is skipped although it has been announced. */
  ghost predicate Opens(x: Side, x': Side) {
    && x.progress.Opening? && x.progress.next < |x.setup.plan|
    && var item := x.setup.plan[x.progress.next];
    && x' == x.(progress := if IsThere(x.s.tx.sources, item.path)
                            then Copying(x.progress.next, From(x.s.tx.sources[item.path].content, item.offset))
                            else Idle(x.progress.next + 1))
  }

  predicate IsThere(sources: map<string, Source>, path: string) {
    path in sources && sources[path].fault != OpenVanished
  }

  /** One read of the copy loop may return any positive number of bytes up to the buffer size. */
  ghost predicate Copies(x: Side, x': Side, n: nat) {
    && x.progress.Copying? && 0 < n <= CHUNK && n <= |x.progress.rest|
    && x' == x.(
         s := x.s.(wire := x.s.wire + [Data(x.progress.rest[..n])],
                   tx := x.s.tx.(bytesSent := x.s.tx.bytesSent + n)),
         progress := x.progress.(rest := x.progress.rest[n..]))
  }

  /** Steps of the sender that neither write nor look at the item in hand. */
  ghost predicate Quietly(x: Side, x': Side) {
    // sendFiles settles the link before it starts
    || x' == x.(s := x.s.(activeLink := Settled(x.setup.ctx, x.s.remoteAddrs, x.s.activeLink)))
    // a flow file has been processed
    || (x.progress.Idle? && x' == x.(s := x.s.(tx := x.s.tx.(flows := x'.s.tx.flows))))
    // end of file
    || (&& x.progress.Copying? && x.progress.rest == ""
        && x' == x.(s := x.s.(tx := x.s.tx.(filesSent := x.s.tx.filesSent + 1)),
                    progress := Idle(x.progress.next + 1)))
    // the critical section of fileSender
    || (x.progress.Ended? && x' == x.(s := x.s.(weSentEOB := true)))
  }

  ghost predicate EndsSending(x: Side, x': Side) {
    x.progress == Idle(|x.setup.plan|) && x' == Wrote(x, EOB_FRAME).(progress := Ended)
  }

  ghost predicate SenderStep(x: Side, x': Side) {
    || Stats(x, x') || Notes(x, x') || Announces(x, x') || Opens(x, x')
    || (exists n :: Copies(x, x', n)) || Quietly(x, x') || EndsSending(x, x')
  }

  /** The reader takes the next frame of the other side; its reply is written later. */
  ghost predicate Reads(x: Side, y: Side, x': Side, io: Io) {
    && x.stop == Continue && x.held == [] && x.read < |y.s.wire|
    && var r := Handle(x.setup.ctx, x.s, Arrival(y.s.wire[x.read], io));
    && x.s.wire <= r.state.wire
    && x' == x.(s := r.state.(wire := x.s.wire), held := r.state.wire[|x.s.wire|..],
                read := x.read + 1, stop := r.status)
  }

  ghost predicate Flushes(x: Side, x': Side) {
    x.held != [] && x' == Wrote(x, x.held[0]).(held := x.held[1..])
  }

  ghost predicate ReaderStep(x: Side, y: Side, x': Side) {
    (exists io :: Reads(x, y, x', io)) || Flushes(x, x')
  }

  ghost predicate Next(w: World, w': World) {
    || ((SenderStep(w.a, w'.a) || ReaderStep(w.a, w.b, w'.a)) && w'.b == w.b)
    || ((SenderStep(w.b, w'.b) || ReaderStep(w.b, w.a, w'.b)) && w'.a == w.a)
  }

  /* ---- Initial worlds ---- */

  /** Item i names a file that is there when the session starts. */
  ghost predicate Exists(u: Setup, i: nat) {
    i < |u.plan| && u.plan[i].path in u.files
  }

  ghost function FileAt(u: Setup, i: nat): File
    requires Exists(u, i)
  {
    File(u.plan[i].Name(), u.files[u.plan[i].path].content, u.files[u.plan[i].path].mtime)
  }

  /** No other file is sent under the name of item i. */
  ghost predicate Alone(u: Setup, i: nat) {
    i < |u.plan| && forall j: nat :: Exists(u, j) && u.plan[j].Name() == u.plan[i].Name() ==> j == i
  }

  /** A file that is to be deleted has its send name to itself, and M_FILE can carry each name
      and size. Source files change only through the session itself. */
  ghost predicate WellSetUp(u: Setup) {
    && (forall i: nat :: Exists(u, i) ==> u.plan[i].offset == 0 && Sendable(FileAt(u, i))
                                          && u.files[u.plan[i].path].fault != OpenVanished)
    && (forall i: nat :: Exists(u, i) && u.plan[i].deleteAfter ==> Alone(u, i))
  }

  /** A side that is about to start, whatever it is going to send. */
  ghost predicate Begins(x: Side) {
    && x.s.tx.sources == x.setup.files && x.s.tx.sent == map[]
    && x.s.rx.file.None? && !x.s.theySentEOB && x.s.wire == []
    && Destination(x.setup.ctx, x.s.remoteAddrs, x.s.activeLink) == x.setup.dest
    && x.progress == Idle(0) && x.held == [] && x.read == 0 && x.stop == Continue && x.announced == {}
  }

  ghost predicate IsRun(ws: seq<World>) {
    && ws != [] && Begins(ws[0].a) && Begins(ws[0].b)
    && forall i :: 0 <= i < |ws| - 1 ==> Next(ws[i], ws[i + 1])
  }

  /* ---- The stream of one direction ---- */

  /** What a receiver of the stream is in the middle of: before item next, or with part of
      item i. */
  datatype Cur = Between(next: nat) | Receiving(i: nat, got: string) | Over

  function Bound(cur: Cur, u: Setup): nat {
    match cur
    case Between(next) => next
    case Receiving(i, _) => i + 1
    case Over => |u.plan|
  }

  /** The stream is done with item i. */
  predicate Past(i: nat, cur: Cur) {
    match cur
    case Between(next) => i < next
    case Receiving(j, _) => i < j
    case Over => true
  }

  predicate Gone(u: Setup, sources: map<string, Source>, i: nat) {
    i < |u.plan| && u.plan[i].path !in sources
  }

  ghost predicate AllGone(u: Setup, sources: map<string, Source>, from: nat, to: nat) {
    forall i :: from <= i < to && i < |u.plan| ==> Gone(u, sources, i)
  }

  /** The file being received may be finished: it is complete, or it is empty because it
      was gone when the sender opened it. */
  ghost predicate Closable(cur: Cur, u: Setup, sources: map<string, Source>) {
    match cur
    case Between(_) => true
    case Receiving(i, got) => Exists(u, i) && (got == FileAt(u, i).content || (got == "" && Gone(u, sources, i)))
    case Over => false
  }

  ghost function AnnouncementAt(u: Setup, i: nat): Frame
    requires Exists(u, i)
  {
    var f := FileAt(u, i);
    FileFrame(f.name, |f.content|, f.mtime, 0)
  }

  /** Item j is the next one that is announced, by the log of announcements. */
  ghost predicate IsNext(cur: Cur, u: Setup, j: nat, log: set<nat>) {
    && Bound(cur, u) <= j && j in log
    && forall k :: k in log && Bound(cur, u) <= k ==> j <= k
  }

  /** The frame announces item j, and every item left out before it is gone. */
  ghost predicate CanStart(cur: Cur, f: Frame, u: Setup, sources: map<string, Source>, j: nat, log: set<nat>) {
    && Exists(u, j) && Closable(cur, u, sources) && IsNext(cur, u, j, log)
    && AllGone(u, sources, Bound(cur, u), j) && f == AnnouncementAt(u, j)
  }

  ghost predicate Startable(cur: Cur, f: Frame, u: Setup, sources: map<string, Source>, log: set<nat>) {
    exists j :: CanStart(cur, f, u, sources, j, log)
  }

  ghost function Started(cur: Cur, f: Frame, u: Setup, sources: map<string, Source>, log: set<nat>): (j: nat)
    requires Startable(cur, f, u, sources, log)
    ensures CanStart(cur, f, u, sources, j, log)
  {
    var j :| CanStart(cur, f, u, sources, j, log);
    j
  }

  ghost function TrackData(cur: Cur, data: string, u: Setup): Option<Cur> {
    if cur.Receiving? && Exists(u, cur.i) && data != "" && cur.got + data <= FileAt(u, cur.i).content then
      Some(if cur.got + data == FileAt(u, cur.i).content then Between(cur.i + 1) else Receiving(cur.i, cur.got + data))
    else None
  }

  /** One frame of a well-formed stream; None when the frame does not fit. */
  ghost function TrackOne(cur: Cur, f: Frame, u: Setup, sources: map<string, Source>, log: set<nat>): Option<Cur> {
    if !f.isCmd then TrackData(cur, f.payload, u)
    else if IsReply(f) then Some(cur)
    else if Startable(cur, f, u, sources, log) then Some(Receiving(Started(cur, f, u, sources, log), ""))
    else if f == EOB_FRAME && Closable(cur, u, sources) && AllGone(u, sources, Bound(cur, u), |u.plan|) then Some(Over)
    else None
  }

  ghost function Track(fs: seq<Frame>, u: Setup, sources: map<string, Source>, log: set<nat>): Option<Cur>
    decreases |fs|
  {
    if fs == [] then Some(Between(0))
    else
      match Track(fs[..|fs| - 1], u, sources, log)
      case None => None
      case Some(cur) => TrackOne(cur, fs[|fs| - 1], u, sources, log)
  }

  ghost predicate IsReply(f: Frame) {
    f.isCmd && f.payload != "" && (f.payload[0] == M_GOT || f.payload[0] == M_SKIP)
  }

  lemma TrackAppend(fs: seq<Frame>, f: Frame, u: Setup, sources: map<string, Source>, log: set<nat>)
    requires Track(fs, u, sources, log).Some?
    ensures Track(fs + [f], u, sources, log) == TrackOne(Track(fs, u, sources, log).value, f, u, sources, log)
  {
    assert (fs + [f])[..|fs|] == fs;
  }

  lemma {:induction false} TrackPrefix(fs: seq<Frame>, k: nat, u: Setup, sources: map<string, Source>, log: set<nat>)
    requires k <= |fs| && Track(fs, u, sources, log).Some?
    ensures Track(fs[..k], u, sources, log).Some?
    ensures k < |fs| ==> Track(fs[..k + 1], u, sources, log)
                         == TrackOne(Track(fs[..k], u, sources, log).value, fs[k], u, sources, log)
    ensures k < |fs| ==> Track(fs[..k + 1], u, sources, log).Some?
    decreases |fs|
  {
    if k == |fs| {
      assert fs[..k] == fs;
    } else {
      var init := fs[..|fs| - 1];
      TrackPrefix(init, k, u, sources, log);
      assert init[..k] == fs[..k];
      if k == |fs| - 1 {
        assert fs[..k + 1] == fs && init == fs[..k];
      } else {
        assert init[..k + 1] == fs[..k + 1];
      }
    }
  }

  ghost predicate Shrinks(sources: map<string, Source>, fewer: map<string, Source>) {
    forall p :: p in fewer ==> p in sources && fewer[p] == sources[p]
  }

  lemma StartIs(cur: Cur, f: Frame, u: Setup, sources: map<string, Source>, j: nat, log: set<nat>)
    requires CanStart(cur, f, u, sources, j, log)
    ensures Startable(cur, f, u, sources, log) && Started(cur, f, u, sources, log) == j
  {
  }

  lemma GoneShrinks(u: Setup, sources: map<string, Source>, fewer: map<string, Source>, from: nat, to: nat)
    requires Shrinks(sources, fewer) && AllGone(u, sources, from, to)
    ensures AllGone(u, fewer, from, to)
  {
    forall i | from <= i < to && i < |u.plan|
      ensures Gone(u, fewer, i)
    {
      assert Gone(u, sources, i);
    }
  }

  lemma TrackOneShrinks(cur: Cur, f: Frame, u: Setup, sources: map<string, Source>, fewer: map<string, Source>,
                        log: set<nat>)
    requires Shrinks(sources, fewer) && TrackOne(cur, f, u, sources, log).Some?
    ensures TrackOne(cur, f, u, fewer, log) == TrackOne(cur, f, u, sources, log)
  {
    if f.isCmd && !IsReply(f) {
      if Startable(cur, f, u, sources, log) {
        var j := Started(cur, f, u, sources, log);
        GoneShrinks(u, sources, fewer, Bound(cur, u), j);
        StartIs(cur, f, u, fewer, j, log);
      } else {
        GoneShrinks(u, sources, fewer, Bound(cur, u), |u.plan|);
        EobStartsNothing(cur, u, fewer, log);
      }
    }
  }

  lemma EobStartsNothing(cur: Cur, u: Setup, sources: map<string, Source>, log: set<nat>)
    ensures !Startable(cur, EOB_FRAME, u, sources, log)
  {
    forall j | Exists(u, j)
      ensures AnnouncementAt(u, j) != EOB_FRAME
    {
      assert AnnouncementAt(u, j).payload[0] == M_FILE;
    }
  }

  lemma {:induction false} TrackShrinks(fs: seq<Frame>, u: Setup, sources: map<string, Source>, fewer: map<string,
                                        Source>, log: set<nat>)
    requires Shrinks(sources, fewer) && Track(fs, u, sources, log).Some?
    ensures Track(fs, u, fewer, log) == Track(fs, u, sources, log)
    decreases |fs|
  {
    if fs != [] {
      var init := fs[..|fs| - 1];
      TrackShrinks(init, u, sources, fewer, log);
      TrackOneShrinks(Track(init, u, sources, log).value, fs[|fs| - 1], u, sources, fewer, log);
    }
  }

  /** The log goes on with later items. */
  ghost predicate LogGrows(log: set<nat>, more: set<nat>) {
    log <= more && forall k, m :: k in log && m in more && m !in log ==> k < m
  }

  lemma TrackOneGrows(cur: Cur, f: Frame, u: Setup, sources: map<string, Source>, log: set<nat>, more: set<nat>)
    requires LogGrows(log, more) && TrackOne(cur, f, u, sources, log).Some?
    ensures TrackOne(cur, f, u, sources, more) == TrackOne(cur, f, u, sources, log)
  {
    if f.isCmd && !IsReply(f) {
      if Startable(cur, f, u, sources, log) {
        StartIs(cur, f, u, sources, Started(cur, f, u, sources, log), more);
      } else {
        EobStartsNothing(cur, u, sources, more);
      }
    }
  }

  lemma {:induction false} TrackGrows(fs: seq<Frame>, u: Setup, sources: map<string, Source>, log: set<nat>,
                                      more: set<nat>)
    requires LogGrows(log, more) && Track(fs, u, sources, log).Some?
    ensures Track(fs, u, sources, more) == Track(fs, u, sources, log)
    decreases |fs|
  {
    if fs != [] {
      var init := fs[..|fs| - 1];
      TrackGrows(init, u, sources, log, more);
      TrackOneGrows(Track(init, u, sources, log).value, fs[|fs| - 1], u, sources, log, more);
    }
  }

  /* ---- What one step of the receiver does ---- */

  /** The receiver's state is in the middle of cur. */
  ghost predicate IsAt(s: State, cur: Cur, u: Setup) {
    match cur
    case Between(_) => s.rx.file.None? && !s.theySentEOB
    case Over => s.rx.file.None? && s.theySentEOB
    case Receiving(i, got) =>
      && !s.theySentEOB && Exists(u, i)
      && var f := FileAt(u, i);
      && s.rx.recvName == f.name && IsOpen(s, |got|) && s.rx.temp[f.name] == got && got <= f.content
      && (|got| < |f.content| || f.content == "")
      && s.rx.recvSize == |f.content| && s.rx.recvTimestamp == SignedDecimal(f.mtime)
  }

  /** The inbound directory has the file of item i under its name, content and all. */
  ghost predicate Has(s: State, dest: string, u: Setup, i: nat) {
    && Exists(u, i)
    && Slot(dest, u.plan[i].Name()) in s.rx.inbound
    && s.rx.inbound[Slot(dest, u.plan[i].Name())] == u.files[u.plan[i].path].content
  }

  /** Item i is dealt with: delivered, or its rename failed, or the sender no longer had it. */
  ghost predicate DealtWith(s: State, dest: string, u: Setup, sources: map<string, Source>, i: nat) {
    Has(s, dest, u, i) || (i < |u.plan| && u.plan[i].Name() in s.rx.lost) || Gone(u, sources, i)
  }

  ghost predicate IsCurrent(cur: Cur, i: nat) {
    cur.Receiving? && cur.i == i
  }

  /** A reply that confirms anything confirms the file being received, and that has then
      been delivered or was gone. */
  ghost predicate Honest(f: Frame, r: State, dest: string, cur: Cur, u: Setup, sources: map<string, Source>) {
    IsGot(f) ==> && cur.Receiving? && Exists(u, cur.i) && NamesFile(f, u.plan[cur.i].Name())
                 && (Has(r, dest, u, cur.i) || Gone(u, sources, cur.i))
  }

  /** The first argument of the confirmation. */
  ghost predicate NamesFile(f: Frame, name: string) {
    f.payload != "" && Fields(f.payload[1..]) != [] && Fields(f.payload[1..])[0] == name
  }

  /** How a handled frame changes the receiver: its inbound directory changes at most under
      the name being received, and then a confirmation may follow. */
  ghost predicate Effect(s: State, r: State, dest: string, cur: Cur, u: Setup, sources: map<string, Source>) {
    && (forall i: nat :: Has(s, dest, u, i) && Alone(u, i) && !IsCurrent(cur, i) ==> Has(r, dest, u, i))
    && s.rx.lost <= r.rx.lost
    && s.wire <= r.wire
    && (forall k :: |s.wire| <= k < |r.wire| ==> Honest(r.wire[k], r, dest, cur, u, sources))
    && r.remoteAddrs == s.remoteAddrs
  }

  lemma GotNames(name: string, size: int, mtime: int)
    requires IsToken(name)
    ensures var f := GotFrame(name, size, SignedDecimal(mtime));
            IsGot(f) && NamesFile(f, name)
  {
    var tokens := [name, SignedDecimal(size), SignedDecimal(mtime)];
    FieldsOfJoin(tokens);
    assert GotFrame(name, size, SignedDecimal(mtime)).payload[1..] == Join(tokens);
  }

  /** What one side's confirmation does to the other: it removes the file sent under that
      name, if it was to be deleted and os.Remove works, and nothing else. */
  lemma ConfirmationDeletes(ctx: Context, s: State, name: string, size: int, mtime: int, io: Io)
    requires IsToken(name)
    ensures var r := Handle(ctx, s, Arrival(GotFrame(name, size, SignedDecimal(mtime)), io));
            && r.status == Continue && r.state == s.(tx := s.tx.(sources := r.state.tx.sources))
            && forall p :: p in r.state.tx.sources
                           <==> p in s.tx.sources
                                && !(io.removeOk && name in s.tx.sent && s.tx.sent[name] == SentInfo(p, true))
  {
    GotNames(name, size, mtime);
    var f := GotFrame(name, size, SignedDecimal(mtime));
    assert Handle(ctx, s, Arrival(f, io)) == Reaction(HandleGot(s, f.payload[1..], io), Continue);
  }

  /** finishCurrentFile either leaves the inbound directory and the wire alone or moves
      the file and, if the connection holds, confirms it. */
  lemma FinishShape(ctx: Context, s: State, io: Io)
    requires s.rx.file.Some? && s.rx.recvName in s.rx.temp
    ensures var r := FinishFile(ctx, s, io);
            var slot := Slot(Destination(ctx, s.remoteAddrs, s.activeLink), s.rx.recvName);
            && r.state.rx.file.None? && r.state.theySentEOB == s.theySentEOB && r.state.weSentEOB == s.weSentEOB
            && r.state.tx == s.tx && r.state.remoteAddrs == s.remoteAddrs
            && r.status != Finished
            && s.rx.lost <= r.state.rx.lost
            && Destination(ctx, r.state.remoteAddrs, r.state.activeLink) == slot.dir
            && (|| (&& r.state.rx.inbound == s.rx.inbound && r.state.wire == s.wire
                    && (r.status == Continue ==> s.rx.recvName in r.state.rx.lost))
                || (&& r.state.rx.inbound == s.rx.inbound[slot := s.rx.temp[s.rx.recvName]]
                    && (|| r.state.wire == s.wire
                        || r.state.wire == s.wire + [GotFrame(s.rx.recvName, s.rx.recvBytes, s.rx.recvTimestamp)])))
  {
  }

  /** The open file holds got, which is what there is to receive of item i. */
  ghost predicate HoldsAll(s: State, i: nat, got: string, u: Setup, sources: map<string, Source>) {
    && Closable(Receiving(i, got), u, sources)
    && s.rx.file.Some? && s.rx.recvName == u.plan[i].Name() && s.rx.recvName in s.rx.temp
    && s.rx.temp[s.rx.recvName] == got && s.rx.recvTimestamp == SignedDecimal(FileAt(u, i).mtime)
  }

  lemma FinishEffect(ctx: Context, s: State, dest: string, i: nat, got: string, u: Setup, sources: map<string, Source>,
                     io: Io)
    requires WellSetUp(u) && Destination(ctx, s.remoteAddrs, s.activeLink) == dest && HoldsAll(s, i, got, u, sources)
    ensures var r := FinishFile(ctx, s, io);
            && Effect(s, r.state, dest, Receiving(i, got), u, sources)
            && (r.status == Continue ==> DealtWith(r.state, dest, u, sources, i))
  {
    FinishShape(ctx, s, io);
    GotNames(s.rx.recvName, s.rx.recvBytes, FileAt(u, i).mtime);
    InboundKeeps(s, FinishFile(ctx, s, io).state, dest, i, got, u, sources);
  }

  /** A move under the name of item i leaves the files of the other items alone. */
  lemma InboundKeeps(s: State, r: State, dest: string, i: nat, got: string, u: Setup, sources: map<string, Source>)
    requires Closable(Receiving(i, got), u, sources)
    requires r.rx.inbound == s.rx.inbound || r.rx.inbound == s.rx.inbound[Slot(dest, u.plan[i].Name()) := got]
    ensures forall k: nat :: Has(s, dest, u, k) && Alone(u, k) && k != i ==> Has(r, dest, u, k)
    ensures r.rx.inbound == s.rx.inbound[Slot(dest, u.plan[i].Name()) := got] ==> Has(r, dest, u, i) || Gone(u, sources, i)
  {
    assert forall k: nat :: Exists(u, k) && Alone(u, k) && k != i ==> u.plan[k].Name() != u.plan[i].Name();
  }

  /** One frame of a well-formed stream, read in step with the stream. */
  ghost predicate ReadsWell(ctx: Context, s: State, r: Reaction, dest: string, cur: Cur, cur': Cur, u: Setup,
                            sources: map<string, Source>) {
    && Effect(s, r.state, dest, cur, u, sources)
    && Destination(ctx, r.state.remoteAddrs, r.state.activeLink) == dest
    && (r.status != Failed ==> IsAt(r.state, cur', u))
    && (r.status != Failed && cur.Receiving? ==> IsCurrent(cur', cur.i) || DealtWith(r.state, dest, u, sources, cur.i))
  }

  lemma StoreAdvances(s: State, cur: Cur, data: string, u: Setup)
    requires cur.Receiving? && IsAt(s, cur, u) && data != "" && cur.got + data <= FileAt(u, cur.i).content
    ensures var t, name := Store(s, data, |data|), u.plan[cur.i].Name();
            && IsOpen(t, |cur.got| + |data|) && t.rx.temp[name] == cur.got + data
            && t.rx == s.rx.(file := t.rx.file, temp := t.rx.temp, recvBytes := t.rx.recvBytes)
            && t == s.(rx := t.rx)
            && (t.rx.recvSize > 0 && t.rx.recvBytes >= t.rx.recvSize <==> cur.got + data == FileAt(u, cur.i).content)
  {
    var whole := FileAt(u, cur.i).content;
    if |cur.got + data| == |whole| {
      assert whole[..|whole|] == whole;
    }
  }

  lemma ReadData(ctx: Context, s: State, dest: string, cur: Cur, f: Frame, io: Io, u: Setup, sources: map<string,
                 Source>, log: set<nat>)
    requires WellSetUp(u) && Destination(ctx, s.remoteAddrs, s.activeLink) == dest
    requires IsAt(s, cur, u) && !f.isCmd && TrackOne(cur, f, u, sources, log).Some?
    ensures var r := HandleData(ctx, s, f.payload, io);
            ReadsWell(ctx, s, r, dest, cur, TrackOne(cur, f, u, sources, log).value, u, sources) && r.state.tx == s.tx
  {
    var data := f.payload;
    StoreAdvances(s, cur, data, u);
    var t := Store(s, data, |data|);
    if io.writeOk && cur.got + data == FileAt(u, cur.i).content {
      FinishEffect(ctx, t, dest, cur.i, cur.got + data, u, sources, io);
      FinishShape(ctx, t, io);
    }
  }

  /** A step after which the inbound directory is as before and no confirmation is added. */
  ghost predicate Quiet(s: State, r: State) {
    && r.rx.inbound == s.rx.inbound && r.rx.lost == s.rx.lost && s.wire <= r.wire
    && (forall i :: |s.wire| <= i < |r.wire| ==> !IsGot(r.wire[i]))
    && r.remoteAddrs == s.remoteAddrs
  }

  lemma EffectThenQuiet(s: State, c: State, r: State, dest: string, cur: Cur, u: Setup, sources: map<string, Source>)
    requires Effect(s, c, dest, cur, u, sources) && Quiet(c, r)
    ensures Effect(s, r, dest, cur, u, sources)
    ensures forall i: nat :: DealtWith(c, dest, u, sources, i) ==> DealtWith(r, dest, u, sources, i)
  {
    assert forall i: nat :: Has(c, dest, u, i) ==> Has(r, dest, u, i);
    forall k | |s.wire| <= k < |r.wire|
      ensures Honest(r.wire[k], r, dest, cur, u, sources)
    {
      if k < |c.wire| {
        assert r.wire[k] == c.wire[k];
        assert Honest(c.wire[k], c, dest, cur, u, sources);
      }
    }
  }

  lemma ReadFile(ctx: Context, s: State, dest: string, cur: Cur, j: nat, io: Io, u: Setup, sources: map<string,
                 Source>, log: set<nat>)
    requires WellSetUp(u) && Destination(ctx, s.remoteAddrs, s.activeLink) == dest
    requires IsAt(s, cur, u) && Exists(u, j) && CanStart(cur, AnnouncementAt(u, j), u, sources, j, log)
    ensures var r := HandleFile(ctx, s, AnnouncementAt(u, j).payload[1..], io);
            ReadsWell(ctx, s, r, dest, cur, Receiving(j, ""), u, sources) && r.state.tx == s.tx
  {
    var args := AnnouncementAt(u, j).payload[1..];
    if s.rx.file.Some? {
      FinishEffect(ctx, s, dest, cur.i, cur.got, u, sources, io);
      FinishShape(ctx, s, io);
      var c := FinishFile(ctx, s, io);
      if c.status == Continue {
        OpenAnnounced(c.state, u, j, io);
        EffectThenQuiet(s, c.state, OpenFile(c.state, args, io).state, dest, cur, u, sources);
      }
    } else {
      OpenAnnounced(s, u, j, io);
      NothingOpen(s, OpenFile(s, args, io).state, dest, cur, u, sources);
    }
  }

  lemma NothingOpen(s: State, r: State, dest: string, cur: Cur, u: Setup, sources: map<string, Source>)
    requires Quiet(s, r)
    ensures Effect(s, r, dest, cur, u, sources)
  {
    assert forall i: nat :: Has(s, dest, u, i) ==> Has(r, dest, u, i);
  }

  lemma OpenAnnounced(s: State, u: Setup, j: nat, io: Io)
    requires WellSetUp(u) && Exists(u, j) && s.rx.file.None? && !s.theySentEOB
    ensures var r := OpenFile(s, AnnouncementAt(u, j).payload[1..], io);
            && r.status != Finished
            && (r.status == Continue ==> IsAt(r.state, Receiving(j, ""), u))
            && r.state.tx == s.tx && r.state.activeLink == s.activeLink && Quiet(s, r.state)
  {
    FileArguments(FileAt(u, j), 0);
  }

  lemma ReadEob(ctx: Context, s: State, dest: string, cur: Cur, io: Io, u: Setup, sources: map<string, Source>)
    requires WellSetUp(u) && Destination(ctx, s.remoteAddrs, s.activeLink) == dest
    requires IsAt(s, cur, u) && Closable(cur, u, sources)
    ensures var r := HandleEOB(ctx, s, io);
            ReadsWell(ctx, s, r, dest, cur, Over, u, sources) && r.state.tx == s.tx
  {
    if s.rx.file.Some? {
      FinishEffect(ctx, s, dest, cur.i, cur.got, u, sources, io);
      FinishShape(ctx, s, io);
      var c := FinishFile(ctx, s, io);
      if c.status == Continue {
        EffectThenQuiet(s, c.state, HandleEOB(ctx, s, io).state, dest, cur, u, sources);
      }
    } else {
      NothingOpen(s, HandleEOB(ctx, s, io).state, dest, cur, u, sources);
    }
  }

  lemma ReadReply(ctx: Context, s: State, dest: string, cur: Cur, f: Frame, io: Io, u: Setup, sources: map<string,
                  Source>)
    requires Destination(ctx, s.remoteAddrs, s.activeLink) == dest && IsAt(s, cur, u) && IsReply(f)
    ensures ReadsWell(ctx, s, Handle(ctx, s, Arrival(f, io)), dest, cur, cur, u, sources)
    ensures !IsGot(f) ==> Handle(ctx, s, Arrival(f, io)).state.tx == s.tx
  {
    NothingOpen(s, Handle(ctx, s, Arrival(f, io)).state, dest, cur, u, sources);
  }

  lemma ReadFrame(ctx: Context, s: State, dest: string, cur: Cur, f: Frame, io: Io, u: Setup, sources: map<string,
                  Source>, log: set<nat>)
    requires WellSetUp(u) && Destination(ctx, s.remoteAddrs, s.activeLink) == dest
    requires IsAt(s, cur, u) && TrackOne(cur, f, u, sources, log).Some?
    ensures var r := Handle(ctx, s, Arrival(f, io));
            && ReadsWell(ctx, s, r, dest, cur, TrackOne(cur, f, u, sources, log).value, u, sources)
            && (!IsGot(f) ==> r.state.tx == s.tx)
  {
    if !f.isCmd {
      ReadData(ctx, s, dest, cur, f, io, u, sources, log);
    } else if IsReply(f) {
      ReadReply(ctx, s, dest, cur, f, io, u, sources);
    } else if Startable(cur, f, u, sources, log) {
      var j := Started(cur, f, u, sources, log);
      assert f.payload[0] == M_FILE;
      ReadFile(ctx, s, dest, cur, j, io, u, sources, log);
    } else {
      ReadEob(ctx, s, dest, cur, io, u, sources);
    }
  }

  /* ---- The invariant of one direction, from sender x to receiver y ---- */

  /** What the receiver is in the middle of, by what it has read. */
  ghost function CurOf(x: Side, y: Side): Cur
    requires y.read <= |x.s.wire|
  {
    match Track(x.s.wire[..y.read], x.setup, x.s.tx.sources, x.announced)
    case Some(cur) => cur
    case None => Between(0)
  }

  /** The stream written so far may go on with item k. */
  ghost predicate ReadyFor(x: Side, cur: Cur, k: nat) {
    && Closable(cur, x.setup, x.s.tx.sources) && Bound(cur, x.setup) <= k
    && AllGone(x.setup, x.s.tx.sources, Bound(cur, x.setup), k)
  }

  /** The stream written so far ends where the sender's program stands. */
  ghost predicate EndsAt(x: Side, cur: Cur) {
    match x.progress
    case Idle(k) => ReadyFor(x, cur, k)
    case Found(k, src) => ReadyFor(x, cur, k) && Exists(x.setup, k) && src == x.setup.files[x.setup.plan[k].path]
    case Noted(k, src) => ReadyFor(x, cur, k) && Exists(x.setup, k) && src == x.setup.files[x.setup.plan[k].path]
    case Opening(k) => Exists(x.setup, k) && cur == Receiving(k, "")
    case Copying(k, rest) =>
      && Exists(x.setup, k)
      && var whole := FileAt(x.setup, k).content;
      && |rest| <= |whole| && whole[|whole| - |rest|..] == rest
      && cur == (if rest == "" && whole != "" then Between(k + 1) else Receiving(k, whole[..|whole| - |rest|]))
    case Ended => cur == Over
  }

  /** What the sender has written is a well-formed stream. */
  ghost predicate Written(x: Side) {
    && var end := Track(x.s.wire, x.setup, x.s.tx.sources, x.announced);
    && end.Some? && EndsAt(x, end.value) && forall k :: k in x.announced ==> k < Bound(end.value, x.setup)
  }

  /** The receiver is in step with what it has read. */
  ghost predicate InStep(x: Side, y: Side) {
    y.read <= |x.s.wire| && (y.stop != Failed ==> IsAt(y.s, CurOf(x, y), x.setup))
  }

  ghost predicate IsSentAs(x: Side, n: string, i: nat) {
    && Exists(x.setup, i) && n in x.s.tx.sent
    && var item := x.setup.plan[i];
    && item.Name() == n && x.s.tx.sent[n] == SentInfo(item.path, item.deleteAfter)
  }

  ghost predicate Books(x: Side) {
    && Shrinks(x.setup.files, x.s.tx.sources)
    && (forall n :: n in x.s.tx.sent ==> exists i :: IsSentAs(x, n, i))
    && (forall k :: 0 <= k < |x.held| ==> IsReply(x.held[k]))
  }

  /** The other side has item i, which the stream is done with. */
  ghost predicate Arrived(x: Side, y: Side, i: nat)
    requires y.read <= |x.s.wire|
  {
    Past(i, CurOf(x, y)) && Has(y.s, y.setup.dest, x.setup, i)
  }

  /** A source file is gone only if it was to be deleted and the other side has it. */
  ghost predicate Excuse(x: Side, y: Side, p: string, i: nat)
    requires y.read <= |x.s.wire|
  {
    Exists(x.setup, i) && x.setup.plan[i].path == p && x.setup.plan[i].deleteAfter && Arrived(x, y, i)
  }

  ghost predicate SafeRemovals(x: Side, y: Side)
    requires y.read <= |x.s.wire|
  {
    forall p :: p in x.setup.files && p !in x.s.tx.sources ==> exists i :: Excuse(x, y, p, i)
  }

  /** A confirmation names an item that the stream is done with, and that, if it has its name
      to itself, was delivered or gone when it was opened. */
  ghost predicate Backs(f: Frame, x: Side, y: Side, i: nat)
    requires y.read <= |x.s.wire|
  {
    && Exists(x.setup, i) && NamesFile(f, x.setup.plan[i].Name()) && Past(i, CurOf(x, y))
    && (!Alone(x.setup, i) || Has(y.s, y.setup.dest, x.setup, i) || Gone(x.setup, x.s.tx.sources, i))
  }

  ghost predicate Backed(f: Frame, x: Side, y: Side)
    requires y.read <= |x.s.wire|
  {
    IsGot(f) ==> exists i :: Backs(f, x, y, i)
  }

  ghost predicate AllBacked(x: Side, y: Side)
    requires y.read <= |x.s.wire|
  {
    && (forall j :: 0 <= j < |y.s.wire| ==> Backed(y.s.wire[j], x, y))
    && (forall j :: 0 <= j < |y.held| ==> Backed(y.held[j], x, y))
  }

  /** Everything the stream is done with is dealt with, if it has its name to itself. */
  ghost predicate Accounts(x: Side, y: Side)
    requires y.read <= |x.s.wire|
  {
    y.stop != Failed ==>
      forall i: nat :: Exists(x.setup, i) && Alone(x.setup, i) && Past(i, CurOf(x, y))
                       ==> DealtWith(y.s, y.setup.dest, x.setup, x.s.tx.sources, i)
  }

  ghost predicate Dir(x: Side, y: Side) {
    && WellSetUp(x.setup) && Destination(y.setup.ctx, y.s.remoteAddrs, y.s.activeLink) == y.setup.dest
    && Written(x) && Books(x) && InStep(x, y)
    && SafeRemovals(x, y) && AllBacked(x, y) && Accounts(x, y)
  }

  /* ---- Steps of the sender x ---- */

  /** The sender went on without losing files or touching what was written. */
  ghost predicate GoesOn(x: Side, x': Side) {
    && x'.setup == x.setup && x'.s.tx.sources == x.s.tx.sources && x.s.wire <= x'.s.wire
    && LogGrows(x.announced, x'.announced)
  }

  lemma CurStays(x: Side, x': Side, y: Side)
    requires Written(x) && GoesOn(x, x') && y.read <= |x.s.wire|
    ensures CurOf(x', y) == CurOf(x, y)
  {
    assert x'.s.wire[..y.read] == x.s.wire[..y.read];
    TrackPrefix(x.s.wire, y.read, x.setup, x.s.tx.sources, x.announced);
    TrackGrows(x.s.wire[..y.read], x.setup, x.s.tx.sources, x.announced, x'.announced);
  }

  /** Then nothing changes for the receiver's side of the invariant. */
  lemma ReceiverIsUnmoved(x: Side, x': Side, y: Side)
    requires Dir(x, y) && GoesOn(x, x') && Written(x') && Books(x')
    ensures Dir(x', y)
  {
    CurStays(x, x', y);
    forall p | p in x'.setup.files && p !in x'.s.tx.sources
      ensures exists i :: Excuse(x', y, p, i)
    {
      var i :| Excuse(x, y, p, i);
      assert Excuse(x', y, p, i);
    }
    forall f | Backed(f, x, y)
      ensures Backed(f, x', y)
    {
      if IsGot(f) {
        var i :| Backs(f, x, y, i);
        assert Backs(f, x', y, i);
      }
    }
  }

  lemma SameBooks(x: Side, x': Side)
    requires Books(x) && x'.setup == x.setup && x'.s.tx.sources == x.s.tx.sources && x'.s.tx.sent == x.s.tx.sent
    requires forall k :: 0 <= k < |x'.held| ==> IsReply(x'.held[k])
    ensures Books(x')
  {
    forall n | n in x'.s.tx.sent
      ensures exists i :: IsSentAs(x', n, i)
    {
      var i :| IsSentAs(x, n, i);
      assert IsSentAs(x', n, i);
    }
  }

  /** A frame that fits the stream leads from one end of it to the next. */
  lemma WriteKeepsWritten(x: Side, x': Side, f: Frame)
    requires Written(x) && x'.setup == x.setup && x'.s.tx.sources == x.s.tx.sources && x'.s.wire == x.s.wire + [f]
    requires LogGrows(x.announced, x'.announced)
    requires var end := Track(x.s.wire, x.setup, x.s.tx.sources, x.announced).value;
             var next := TrackOne(end, f, x.setup, x.s.tx.sources, x'.announced);
             next.Some? && EndsAt(x', next.value) && forall k :: k in x'.announced ==> k < Bound(next.value, x.setup)
    ensures Written(x')
  {
    TrackGrows(x.s.wire, x.setup, x.s.tx.sources, x.announced, x'.announced);
    TrackAppend(x.s.wire, f, x.setup, x.s.tx.sources, x'.announced);
  }

  lemma StatsEnds(x: Side, x': Side, cur: Cur)
    requires Stats(x, x') && EndsAt(x, cur) && Shrinks(x.setup.files, x.s.tx.sources)
    ensures EndsAt(x', cur)
  {
  }

  lemma StatsKeeps(x: Side, x': Side, y: Side)
    requires Dir(x, y) && Stats(x, x')
    ensures Dir(x', y)
  {
    StatsEnds(x, x', Track(x.s.wire, x.setup, x.s.tx.sources, x.announced).value);
    SameBooks(x, x');
    ReceiverIsUnmoved(x, x', y);
  }

  lemma NotesKeeps(x: Side, x': Side, y: Side)
    requires Dir(x, y) && Notes(x, x')
    ensures Dir(x', y)
  {
    var k := x.progress.next;
    forall n | n in x'.s.tx.sent
      ensures exists i :: IsSentAs(x', n, i)
    {
      if n == x.setup.plan[k].Name() {
        assert IsSentAs(x', n, k);
      } else {
        var i :| IsSentAs(x, n, i);
        assert IsSentAs(x', n, i);
      }
    }
    ReceiverIsUnmoved(x, x', y);
  }

  lemma AnnouncesKeeps(x: Side, x': Side, y: Side)
    requires Dir(x, y) && Announces(x, x')
    ensures Dir(x', y)
  {
    AnnouncesWritten(x, x');
    SameBooks(x, x');
    ReceiverIsUnmoved(x, x', y);
  }

  lemma AnnouncesWritten(x: Side, x': Side)
    requires WellSetUp(x.setup) && Written(x) && Announces(x, x')
    ensures Written(x') && LogGrows(x.announced, x'.announced)
  {
    var k := x.progress.next;
    var end := Track(x.s.wire, x.setup, x.s.tx.sources, x.announced).value;
    var f := AnnouncementAt(x.setup, k);
    assert CanStart(end, f, x.setup, x.s.tx.sources, k, x'.announced);
    StartIs(end, f, x.setup, x.s.tx.sources, k, x'.announced);
    assert f.payload[0] == M_FILE;
    WriteKeepsWritten(x, x', f);
  }

  lemma OpensKeeps(x: Side, x': Side, y: Side)
    requires Dir(x, y) && Opens(x, x')
    ensures Dir(x', y)
  {
    var whole := FileAt(x.setup, x.progress.next).content;
    assert whole[0..] == whole && whole[..0] == "" && From(whole, 0) == whole;
    SameBooks(x, x');
    ReceiverIsUnmoved(x, x', y);
  }

  lemma SplitTail(whole: string, k: nat, n: nat)
    requires k + n <= |whole|
    ensures whole[..k] + whole[k..][..n] == whole[..k + n] <= whole && whole[k..][n..] == whole[k + n..]
    ensures whole[..k + n] == whole <==> k + n == |whole|
  {
    if whole[..k + n] == whole {
      assert |whole[..k + n]| == |whole|;
    }
  }

  lemma CopyTracks(x: Side, x': Side, cur: Cur, n: nat)
    requires Copies(x, x', n) && EndsAt(x, cur)
    ensures var next := TrackOne(cur, Data(x.progress.rest[..n]), x.setup, x.s.tx.sources, x.announced);
            next.Some? && EndsAt(x', next.value)
  {
    var rest, whole := x.progress.rest, FileAt(x.setup, x.progress.next).content;
    SplitTail(whole, |whole| - |rest|, n);
  }

  lemma CopiesKeeps(x: Side, x': Side, y: Side, n: nat)
    requires Dir(x, y) && Copies(x, x', n)
    ensures Dir(x', y)
  {
    CopyTracks(x, x', Track(x.s.wire, x.setup, x.s.tx.sources, x.announced).value, n);
    WriteKeepsWritten(x, x', Data(x.progress.rest[..n]));
    SameBooks(x, x');
    ReceiverIsUnmoved(x, x', y);
  }

  lemma QuietlyKeeps(x: Side, x': Side, y: Side)
    requires Dir(x, y) && Quietly(x, x')
    ensures Dir(x', y)
  {
    QuietlyEnds(x, x', Track(x.s.wire, x.setup, x.s.tx.sources, x.announced).value);
    SameBooks(x, x');
    ReceiverIsUnmoved(x, x', y);
  }

  lemma QuietlyEnds(x: Side, x': Side, cur: Cur)
    requires Quietly(x, x') && EndsAt(x, cur)
    ensures EndsAt(x', cur)
  {
    if x.progress.Copying? && x'.progress.Idle? {
      EndOfFileEnds(x, x', cur, x.progress.next);
    }
  }

  lemma EndOfFileEnds(x: Side, x': Side, cur: Cur, k: nat)
    requires x.progress == Copying(k, "") && EndsAt(x, cur)
    requires x'.setup == x.setup && x'.s.tx.sources == x.s.tx.sources
    ensures ReadyFor(x', cur, k + 1)
  {
    var whole := FileAt(x.setup, k).content;
    assert whole[..|whole| - 0] == whole;
  }

  lemma EndsSendingKeeps(x: Side, x': Side, y: Side)
    requires Dir(x, y) && EndsSending(x, x')
    ensures Dir(x', y)
  {
    var end := Track(x.s.wire, x.setup, x.s.tx.sources, x.announced).value;
    EobStartsNothing(end, x.setup, x.s.tx.sources, x.announced);
    assert EOB_FRAME.payload[0] == M_EOB;
    WriteKeepsWritten(x, x', EOB_FRAME);
    SameBooks(x, x');
    ReceiverIsUnmoved(x, x', y);
  }

  lemma SenderKeepsDir(x: Side, x': Side, y: Side)
    requires Dir(x, y) && SenderStep(x, x')
    ensures Dir(x', y)
  {
    if Stats(x, x') {
      StatsKeeps(x, x', y);
    } else if Notes(x, x') {
      NotesKeeps(x, x', y);
    } else if Announces(x, x') {
      AnnouncesKeeps(x, x', y);
    } else if Opens(x, x') {
      OpensKeeps(x, x', y);
    } else if exists n :: Copies(x, x', n) {
      var n :| Copies(x, x', n);
      CopiesKeeps(x, x', y, n);
    } else if Quietly(x, x') {
      QuietlyKeeps(x, x', y);
    } else {
      EndsSendingKeeps(x, x', y);
    }
  }

  /* ---- Steps of the reader of x ---- */

  /** A handled frame adds nothing to the wire but confirmations and M_SKIP, and only
      M_GOT touches the sending half. */
  lemma HandleReplies(ctx: Context, s: State, a: Arrival)
    ensures var r := Handle(ctx, s, a).state;
            && s.wire <= r.wire
            && (forall i :: |s.wire| <= i < |r.wire| ==> IsReply(r.wire[i]))
            && (if IsGot(a.frame) then r == HandleGot(s, a.frame.payload[1..], a.io) else r.tx == s.tx)
  {
    var payload := a.frame.payload;
    if !a.frame.isCmd {
      DataReplies(ctx, s, payload, a.io);
    } else if payload != "" && payload[0] == M_FILE {
      FileReplies(ctx, s, payload[1..], a.io);
    } else if payload != "" && payload[0] == M_EOB {
      FinishReplies(ctx, s, a.io);
    }
  }

  ghost predicate Replied(s: State, r: State) {
    && r.tx == s.tx && s.wire <= r.wire
    && (forall i :: |s.wire| <= i < |r.wire| ==> IsReply(r.wire[i]))
  }

  lemma FinishReplies(ctx: Context, s: State, io: Io)
    ensures Replied(s, FinishFile(ctx, s, io).state)
  {
  }

  lemma DataReplies(ctx: Context, s: State, data: string, io: Io)
    ensures Replied(s, HandleData(ctx, s, data, io).state)
  {
    if s.rx.file.Some? && s.rx.recvName in s.rx.temp {
      FinishReplies(ctx, Store(s, data, |data|), io);
    }
  }

  lemma OpenReplies(s: State, args: string, io: Io)
    ensures Replied(s, OpenFile(s, args, io).state)
  {
  }

  lemma FileReplies(ctx: Context, s: State, args: string, io: Io)
    ensures Replied(s, HandleFile(ctx, s, args, io).state)
  {
    FinishReplies(ctx, s, io);
    OpenReplies(s, args, io);
    OpenReplies(FinishFile(ctx, s, io).state, args, io);
  }

  /** Files may go, but nothing is written and no name is noted. */
  ghost predicate OnlyRemoves(x: Side, x': Side) {
    && x'.setup == x.setup && x'.progress == x.progress && x'.s.wire == x.s.wire && x'.announced == x.announced
    && x'.s.tx.sent == x.s.tx.sent && Shrinks(x.s.tx.sources, x'.s.tx.sources)
    && forall k :: 0 <= k < |x'.held| ==> IsReply(x'.held[k])
  }

  /** The stream may be cut off at more places when more files are gone. */
  lemma RemovalKeepsWritten(x: Side, x': Side, y: Side)
    requires Written(x) && OnlyRemoves(x, x') && y.read <= |x.s.wire|
    ensures Written(x') && CurOf(x', y) == CurOf(x, y)
  {
    var u, sources, fewer, log := x.setup, x.s.tx.sources, x'.s.tx.sources, x.announced;
    TrackShrinks(x.s.wire, u, sources, fewer, log);
    TrackPrefix(x.s.wire, y.read, u, sources, log);
    TrackShrinks(x.s.wire[..y.read], u, sources, fewer, log);
    var end := Track(x.s.wire, u, sources, log).value;
    if x.progress.Idle? || x.progress.Found? || x.progress.Noted? {
      GoneShrinks(u, sources, fewer, Bound(end, u), x.progress.next);
    }
  }

  /** With more files gone, the rest of the invariant stays as well, as long as the
      removals themselves are safe. */
  lemma RemovalKeepsDir(x: Side, x': Side, y: Side)
    requires Dir(x, y) && OnlyRemoves(x, x')
    requires forall p :: p in x.s.tx.sources && p !in x'.s.tx.sources ==> exists i :: Excuse(x, y, p, i)
    ensures Dir(x', y)
  {
    RemovalKeepsWritten(x, x', y);
    forall p | p in x'.setup.files && p !in x'.s.tx.sources
      ensures exists i :: Excuse(x', y, p, i)
    {
      var i :| Excuse(x, y, p, i);
      assert Excuse(x', y, p, i);
    }
    forall f | Backed(f, x, y)
      ensures Backed(f, x', y)
    {
      if IsGot(f) {
        var i :| Backs(f, x, y, i);
        assert Backs(f, x', y, i);
      }
    }
    RemovalKeepsBooks(x, x');
    RemovalKeepsAccounts(x, x', y);
  }

  lemma RemovalKeepsBooks(x: Side, x': Side)
    requires Books(x) && OnlyRemoves(x, x')
    ensures Books(x')
  {
    forall n | n in x'.s.tx.sent
      ensures exists i :: IsSentAs(x', n, i)
    {
      var i :| IsSentAs(x, n, i);
      assert IsSentAs(x', n, i);
    }
  }

  lemma RemovalKeepsAccounts(x: Side, x': Side, y: Side)
    requires y.read <= |x.s.wire| && Accounts(x, y) && OnlyRemoves(x, x') && CurOf(x', y) == CurOf(x, y)
    ensures Accounts(x', y)
  {
    if y.stop != Failed {
      forall i: nat | Exists(x'.setup, i) && Alone(x'.setup, i) && Past(i, CurOf(x', y))
        ensures DealtWith(y.s, y.setup.dest, x'.setup, x'.s.tx.sources, i)
      {
        assert DealtWith(y.s, y.setup.dest, x.setup, x.s.tx.sources, i);
      }
    }
  }

  lemma RemovedByName(s: State, args: string, io: Io, p: string)
    requires p in s.tx.sources && p !in HandleGot(s, args, io).tx.sources
    ensures Fields(args) != []
    ensures var n := Fields(args)[0]; n in s.tx.sent && s.tx.sent[n] == SentInfo(p, true)
  {
  }

  /** What a confirmation removes is what it was backed by, or it was gone already. */
  lemma ConfirmedRemoval(x: Side, y: Side, f: Frame, io: Io, p: string)
    requires Dir(x, y) && IsGot(f) && Backed(f, x, y)
    requires p in x.s.tx.sources && p !in HandleGot(x.s, f.payload[1..], io).tx.sources
    ensures exists i :: Excuse(x, y, p, i)
  {
    RemovedByName(x.s, f.payload[1..], io, p);
    var i: nat :| Backs(f, x, y, i);
    var n := x.setup.plan[i].Name();
    var k: nat :| IsSentAs(x, n, k);
    SameItem(x.setup, i, k);
    assert Excuse(x, y, p, i);
  }

  lemma SameItem(u: Setup, i: nat, k: nat)
    requires WellSetUp(u) && Exists(u, i) && Exists(u, k) && u.plan[i].Name() == u.plan[k].Name() && u.plan[k].deleteAfter
    ensures i == k
  {
  }

  lemma ReadKeepsDir(x: Side, x': Side, y: Side, io: Io)
    requires Dir(x, y) && Reads(x, y, x', io)
    ensures Dir(x', y)
  {
    var f := y.s.wire[x.read];
    HandleReplies(x.setup.ctx, x.s, Arrival(f, io));
    var r := Handle(x.setup.ctx, x.s, Arrival(f, io)).state;
    assert forall k :: 0 <= k < |x'.held| ==> x'.held[k] == r.wire[|x.s.wire| + k];
    forall p | p in x.s.tx.sources && p !in x'.s.tx.sources
      ensures exists i :: Excuse(x, y, p, i)
    {
      ConfirmedRemoval(x, y, f, io, p);
    }
    RemovalKeepsDir(x, x', y);
  }

  lemma FlushKeepsDir(x: Side, x': Side, y: Side)
    requires Dir(x, y) && Flushes(x, x')
    ensures Dir(x', y)
  {
    FlushKeepsWritten(x, x');
    assert forall k :: 0 <= k < |x'.held| ==> x'.held[k] == x.held[k + 1];
    SameBooks(x, x');
    ReceiverIsUnmoved(x, x', y);
  }

  lemma FlushKeepsWritten(x: Side, x': Side)
    requires Written(x) && Books(x) && Flushes(x, x')
    ensures Written(x')
  {
    assert IsReply(x.held[0]);
    WriteKeepsWritten(x, x', x.held[0]);
  }

  lemma ReplyKeepsDir(x: Side, x': Side, y: Side)
    requires Dir(x, y) && ReaderStep(x, y, x')
    ensures Dir(x', y)
  {
    if exists io :: Reads(x, y, x', io) {
      var io :| Reads(x, y, x', io);
      ReadKeepsDir(x, x', y, io);
    } else {
      FlushKeepsDir(x, x', y);
    }
  }

  /* ---- Steps of the reader of y ---- */

  /** The receiver reads the next frame, in step with the stream. */
  lemma NextCur(x: Side, y: Side, y': Side, io: Io)
    requires Dir(x, y) && Reads(y, x, y', io)
    ensures var cur, f := CurOf(x, y), x.s.wire[y.read];
            && TrackOne(cur, f, x.setup, x.s.tx.sources, x.announced) == Some(CurOf(x, y'))
            && forall i: nat :: Past(i, cur) ==> Past(i, CurOf(x, y'))
  {
    TrackPrefix(x.s.wire, y.read, x.setup, x.s.tx.sources, x.announced);
    PastGrows(CurOf(x, y), x.s.wire[y.read], x.setup, x.s.tx.sources, x.announced);
  }

  lemma PastGrows(cur: Cur, f: Frame, u: Setup, sources: map<string, Source>, log: set<nat>)
    requires TrackOne(cur, f, u, sources, log).Some?
    ensures forall i: nat :: Past(i, cur) ==> Past(i, TrackOne(cur, f, u, sources, log).value)
  {
  }

  lemma ReceiverHandles(x: Side, y: Side, y': Side, io: Io)
    requires Dir(x, y) && Reads(y, x, y', io)
    ensures var r := Handle(y.setup.ctx, y.s, Arrival(x.s.wire[y.read], io));
            && ReadsWell(y.setup.ctx, y.s, r, y.setup.dest, CurOf(x, y), CurOf(x, y'), x.setup, x.s.tx.sources)
            && y'.s == r.state.(wire := y.s.wire) && y'.held == r.state.wire[|y.s.wire|..] && y'.stop == r.status
  {
    NextCur(x, y, y', io);
    ReadFrame(y.setup.ctx, y.s, y.setup.dest, CurOf(x, y), x.s.wire[y.read], io, x.setup, x.s.tx.sources, x.announced);
  }

  /** The items that the stream is done with are not being received. */
  lemma PastIsNotCurrent(i: nat, cur: Cur)
    requires Past(i, cur)
    ensures !IsCurrent(cur, i)
  {
  }

  lemma ReceiverKeepsRemovals(x: Side, y: Side, y': Side, io: Io)
    requires Dir(x, y) && Reads(y, x, y', io)
    ensures SafeRemovals(x, y')
    ensures forall f :: Backed(f, x, y) ==> Backed(f, x, y')
  {
    NextCur(x, y, y', io);
    ReceiverHandles(x, y, y', io);
    forall i: nat | Past(i, CurOf(x, y)) && Alone(x.setup, i) && Has(y.s, y.setup.dest, x.setup, i)
      ensures Has(y'.s, y.setup.dest, x.setup, i)
    {
      PastIsNotCurrent(i, CurOf(x, y));
    }
    forall p | p in x.setup.files && p !in x.s.tx.sources
      ensures exists i :: Excuse(x, y', p, i)
    {
      var i :| Excuse(x, y, p, i);
      assert Excuse(x, y', p, i);
    }
    forall f | Backed(f, x, y)
      ensures Backed(f, x, y')
    {
      if IsGot(f) {
        var i :| Backs(f, x, y, i);
        assert Backs(f, x, y', i);
      }
    }
  }

  lemma ReceiverBacksReplies(x: Side, y: Side, y': Side, io: Io, j: nat)
    requires Dir(x, y) && Reads(y, x, y', io) && j < |y'.held|
    ensures Backed(y'.held[j], x, y')
  {
    ReceiverHandles(x, y, y', io);
    NextCur(x, y, y', io);
    var r := Handle(y.setup.ctx, y.s, Arrival(x.s.wire[y.read], io)).state;
    var f, cur := y'.held[j], CurOf(x, y);
    assert f == r.wire[|y.s.wire| + j];
    assert Honest(f, r, y.setup.dest, cur, x.setup, x.s.tx.sources);
    if IsGot(f) {
      ConfirmedIsPast(x, y, y', io);
      assert Backs(f, x, y', cur.i);
    }
  }

  /** Nothing is written while a file is still being received. */
  lemma CurrentIsQuiet(x: Side, y: Side, y': Side, io: Io)
    requires Dir(x, y) && Reads(y, x, y', io)
    requires CurOf(x, y).Receiving? && IsCurrent(CurOf(x, y'), CurOf(x, y).i)
    ensures y'.held == []
  {
    NextCur(x, y, y', io);
    var cur, f := CurOf(x, y), x.s.wire[y.read];
    if f.isCmd {
      CommandIsQuiet(y.setup.ctx, y.s, cur, f, io, x.setup, x.s.tx.sources, x.announced);
    } else {
      PartialIsQuiet(y.setup.ctx, y.s, cur, f.payload, io, x.setup);
    }
  }

  lemma CommandIsQuiet(ctx: Context, s: State, cur: Cur, f: Frame, io: Io, u: Setup, sources: map<string, Source>,
                       log: set<nat>)
    requires f.isCmd && cur.Receiving? && TrackOne(cur, f, u, sources, log).Some?
    requires IsCurrent(TrackOne(cur, f, u, sources, log).value, cur.i)
    ensures Handle(ctx, s, Arrival(f, io)).state.wire == s.wire
  {
    assert IsReply(f);
  }

  /** So a confirmation is written only when the file being received is finished. */
  lemma ConfirmedIsPast(x: Side, y: Side, y': Side, io: Io)
    requires Dir(x, y) && Reads(y, x, y', io) && y'.held != [] && CurOf(x, y).Receiving?
    ensures Past(CurOf(x, y).i, CurOf(x, y'))
  {
    NextCur(x, y, y', io);
    if IsCurrent(CurOf(x, y'), CurOf(x, y).i) {
      CurrentIsQuiet(x, y, y', io);
    }
  }

  lemma PartialIsQuiet(ctx: Context, s: State, cur: Cur, data: string, io: Io, u: Setup)
    requires IsAt(s, cur, u) && TrackData(cur, data, u).Some? && IsCurrent(TrackData(cur, data, u).value, cur.i)
    ensures HandleData(ctx, s, data, io).state.wire == s.wire
  {
    StoreAdvances(s, cur, data, u);
  }

  lemma ReceiverAccounts(x: Side, y: Side, y': Side, io: Io)
    requires Dir(x, y) && Reads(y, x, y', io)
    ensures Accounts(x, y')
  {
    var cur, cur', f := CurOf(x, y), CurOf(x, y'), x.s.wire[y.read];
    NextCur(x, y, y', io);
    ReceiverHandles(x, y, y', io);
    if y'.stop != Failed {
      forall i: nat | Exists(x.setup, i) && Alone(x.setup, i) && Past(i, cur')
        ensures DealtWith(y'.s, y.setup.dest, x.setup, x.s.tx.sources, i)
      {
        if Past(i, cur) {
          PastIsNotCurrent(i, cur);
          assert DealtWith(y.s, y.setup.dest, x.setup, x.s.tx.sources, i);
        } else if !IsCurrent(cur, i) {
          SkippedIsGone(cur, f, cur', x.setup, x.s.tx.sources, i, x.announced);
        }
      }
    }
  }

  /** An item that the stream leaves out is gone. */
  lemma SkippedIsGone(cur: Cur, f: Frame, cur': Cur, u: Setup, sources: map<string, Source>, i: nat, log: set<nat>)
    requires TrackOne(cur, f, u, sources, log) == Some(cur') && i < |u.plan|
    requires !Past(i, cur) && !IsCurrent(cur, i) && Past(i, cur')
    ensures Gone(u, sources, i)
  {
  }

  lemma ReceiverReadKeepsDir(x: Side, y: Side, y': Side, io: Io)
    requires Dir(x, y) && Reads(y, x, y', io)
    ensures Dir(x, y')
  {
    ReceiverHandles(x, y, y', io);
    ReceiverKeepsRemovals(x, y, y', io);
    ReceiverAccounts(x, y, y', io);
    forall j | 0 <= j < |y'.held|
      ensures Backed(y'.held[j], x, y')
    {
      ReceiverBacksReplies(x, y, y', io, j);
    }
    WireDoesNotMatter(y'.s, Handle(y.setup.ctx, y.s, Arrival(x.s.wire[y.read], io)).state, CurOf(x, y'), x.setup);
  }

  lemma WireDoesNotMatter(s: State, r: State, cur: Cur, u: Setup)
    requires s.rx == r.rx && s.theySentEOB == r.theySentEOB
    ensures IsAt(s, cur, u) <==> IsAt(r, cur, u)
  {
  }

  /** The other side goes on without receiving anything. */
  ghost predicate Unchanged(y: Side, y': Side) {
    && y'.setup == y.setup && y'.s.rx == y.s.rx && y'.s.theySentEOB == y.s.theySentEOB && y'.read == y.read
    && y'.stop == y.stop && y'.s.remoteAddrs == y.s.remoteAddrs
    && Destination(y.setup.ctx, y'.s.remoteAddrs, y'.s.activeLink)
       == Destination(y.setup.ctx, y.s.remoteAddrs, y.s.activeLink)
  }

  lemma OtherKeepsDir(x: Side, y: Side, y': Side)
    requires Dir(x, y) && Unchanged(y, y')
    requires forall j :: 0 <= j < |y'.s.wire| ==> y'.s.wire[j] in y.s.wire + y.held || !IsGot(y'.s.wire[j])
    requires forall j :: 0 <= j < |y'.held| ==> y'.held[j] in y.held
    ensures Dir(x, y')
  {
    WireDoesNotMatter(y'.s, y.s, CurOf(x, y), x.setup);
    forall p | p in x.setup.files && p !in x.s.tx.sources
      ensures exists i :: Excuse(x, y', p, i)
    {
      var i :| Excuse(x, y, p, i);
      assert Excuse(x, y', p, i);
    }
    forall f | Backed(f, x, y)
      ensures Backed(f, x, y')
    {
      if IsGot(f) {
        var i :| Backs(f, x, y, i);
        assert Backs(f, x, y', i);
      }
    }
    OtherAccounts(x, y, y');
  }

  lemma OtherAccounts(x: Side, y: Side, y': Side)
    requires y.read <= |x.s.wire| && Accounts(x, y) && Unchanged(y, y')
    ensures Accounts(x, y')
  {
    if y'.stop != Failed {
      forall i: nat | Exists(x.setup, i) && Alone(x.setup, i) && Past(i, CurOf(x, y'))
        ensures DealtWith(y'.s, y'.setup.dest, x.setup, x.s.tx.sources, i)
      {
        assert DealtWith(y.s, y.setup.dest, x.setup, x.s.tx.sources, i);
      }
    }
  }

  lemma ReceiverKeepsDir(x: Side, y: Side, y': Side)
    requires Dir(x, y) && ReaderStep(y, x, y')
    ensures Dir(x, y')
  {
    if exists io :: Reads(y, x, y', io) {
      var io :| Reads(y, x, y', io);
      ReceiverReadKeepsDir(x, y, y', io);
    } else {
      assert forall j :: 0 <= j < |y'.s.wire| ==> y'.s.wire[j] in y.s.wire + y.held;
      assert forall j :: 0 <= j < |y'.held| ==> y'.held[j] == y.held[j + 1];
      OtherKeepsDir(x, y, y');
    }
  }

  /** The other side's sender does not touch what it receives, nor does it confirm. */
  lemma PeerSenderKeepsDir(x: Side, y: Side, y': Side)
    requires Dir(x, y) && SenderStep(y, y')
    ensures Dir(x, y')
  {
    SenderConfirmsNothing(y, y');
    SenderReceivesNothing(y, y');
    OtherKeepsDir(x, y, y');
  }

  lemma SenderReceivesNothing(y: Side, y': Side)
    requires SenderStep(y, y')
    ensures Unchanged(y, y') && y'.held == y.held
  {
  }

  lemma SenderConfirmsNothing(y: Side, y': Side)
    requires SenderStep(y, y')
    ensures forall j :: 0 <= j < |y'.s.wire| ==> y'.s.wire[j] in y.s.wire + y.held || !IsGot(y'.s.wire[j])
  {
    assert forall j :: 0 <= j < |y.s.wire| ==> y.s.wire[j] in y.s.wire + y.held;
    assert y'.s.wire == y.s.wire
           || (|y'.s.wire| == |y.s.wire| + 1 && y.s.wire <= y'.s.wire && !IsGot(y'.s.wire[|y.s.wire|]));
  }

  /* ---- Every run ---- */

  lemma StartIsSafe(x: Side, y: Side)
    requires WellSetUp(x.setup) && Begins(x) && Begins(y)
    ensures Dir(x, y)
  {
    assert x.s.wire[..0] == [];
  }

  /** One side of a world and the other one. */
  function This(w: World, first: bool): Side {
    if first then w.a else w.b
  }

  lemma NextKeepsDir(w: World, w': World, first: bool)
    requires Dir(This(w, first), This(w, !first)) && Next(w, w')
    ensures Dir(This(w', first), This(w', !first))
  {
    var x, y, x', y' := This(w, first), This(w, !first), This(w', first), This(w', !first);
    if y' == y && SenderStep(x, x') {
      SenderKeepsDir(x, x', y);
    } else if y' == y && ReaderStep(x, y, x') {
      ReplyKeepsDir(x, x', y);
    } else if SenderStep(y, y') {
      PeerSenderKeepsDir(x, y, y');
    } else {
      ReceiverKeepsDir(x, y, y');
    }
  }

  lemma NextKeepsSetup(w: World, w': World, first: bool)
    requires Next(w, w')
    ensures This(w', first).setup == This(w, first).setup
  {
  }

  lemma ShorterRun(ws: seq<World>)
    requires IsRun(ws) && |ws| > 1
    ensures IsRun(ws[..|ws| - 1]) && Next(ws[|ws| - 2], ws[|ws| - 1])
  {
    var n := |ws| - 1;
    var init := ws[..n];
    assert Next(ws[n - 1], ws[n - 1 + 1]);
    forall i | 0 <= i < |init| - 1
      ensures Next(init[i], init[i + 1])
    {
      assert Next(ws[i], ws[i + 1]);
    }
  }

  lemma {:induction false} RunIsSafe(ws: seq<World>, first: bool)
    requires IsRun(ws) && WellSetUp(This(ws[|ws| - 1], first).setup)
    ensures Dir(This(ws[|ws| - 1], first), This(ws[|ws| - 1], !first))
    decreases |ws|
  {
    if |ws| == 1 {
      StartIsSafe(This(ws[0], first), This(ws[0], !first));
    } else {
      var n := |ws| - 1;
      ShorterRun(ws);
      NextKeepsSetup(ws[n - 1], ws[n], first);
      RunIsSafe(ws[..n], first);
      NextKeepsDir(ws[n - 1], ws[n], first);
    }
  }

  /** x and y are the two sides of the last world of a run. */
  ghost predicate Sides(ws: seq<World>, x: Side, y: Side) {
    && IsRun(ws)
    && var w := ws[|ws| - 1]; (x, y) == (w.a, w.b) || (x, y) == (w.b, w.a)
  }

  lemma SidesAreSafe(ws: seq<World>, x: Side, y: Side)
    requires Sides(ws, x, y) && WellSetUp(x.setup)
    ensures Dir(x, y)
  {
    RunIsSafe(ws, (x, y) == (ws[|ws| - 1].a, ws[|ws| - 1].b));
  }

  /** Item i is one by which the path was sent to be deleted, and the other side has a file
      of the name it was sent under, with exactly its content, in its inbound directory. */
  ghost predicate KeptBy(x: Side, y: Side, path: string, i: nat) {
    && Exists(x.setup, i) && x.setup.plan[i].path == path && x.setup.plan[i].deleteAfter
    && Has(y.s, y.setup.dest, x.setup, i)
  }

  /** Under every interleaving of both senders and both readers, and whatever goes wrong
      in either file system or on the connection, if every file to be deleted has its send
      name to itself: once a side has removed a source file, the file was marked for deletion and the other
      side has it. */
  lemma DeletionIsSafe(ws: seq<World>, x: Side, y: Side, path: string) returns (i: nat)
    requires Sides(ws, x, y) && WellSetUp(x.setup)
    requires path in x.setup.files && path !in x.s.tx.sources
    ensures i < |x.setup.plan| && x.setup.plan[i].path == path && x.setup.plan[i].deleteAfter
    ensures var slot := Slot(y.setup.dest, x.setup.plan[i].Name());
            slot in y.s.rx.inbound && y.s.rx.inbound[slot] == x.setup.files[path].content
    ensures KeptBy(x, y, path, i)
  {
    SidesAreSafe(ws, x, y);
    i :| Excuse(x, y, path, i);
  }

  /** A session whose reader has taken M_EOB without an error has everything: each file of
      the other side's plan that has its send name to itself is in its inbound directory
      under that name with its content, unless moving it there failed or the sender had
      removed it before. */
  lemma CleanEndIsComplete(ws: seq<World>, x: Side, y: Side, i: nat)
    requires Sides(ws, x, y) && WellSetUp(x.setup) && Alone(x.setup, i)
    requires y.s.theySentEOB && y.stop != Failed
    requires i < |x.setup.plan| && x.setup.plan[i].path in x.setup.files
    ensures var item := x.setup.plan[i];
            var slot := Slot(y.setup.dest, item.Name());
            || (slot in y.s.rx.inbound && y.s.rx.inbound[slot] == x.setup.files[item.path].content)
            || item.Name() in y.s.rx.lost
            || item.path !in x.s.tx.sources
  {
    SidesAreSafe(ws, x, y);
    assert CurOf(x, y) == Over;
    assert DealtWith(y.s, y.setup.dest, x.setup, x.s.tx.sources, i);
  }
}
