/** The two mailers of module Peers on a real connection: the frames they exchange fit the
    wire format, so the bytes in flight decode to them. */
module Bytes {
  import opened GoStrings
  import opened Frames
  import opened SessionState
  import opened Receive
  import opened Sending
  import opened Transfer
  import opened Peers

  /** Longer than any file name of a file system; short enough for every frame that names it. */
  const MAX_NAME: nat := 32000

  /** A modification time as Unix gives it, in 64 bits. */
  predicate IsTime(mtime: int) {
    -0x7FFF_FFFF_FFFF_FFFF <= mtime <= 0x7FFF_FFFF_FFFF_FFFF
  }

  ghost predicate ShortNames(u: Setup) {
    forall i: nat :: Exists(u, i) ==> |u.plan[i].Name()| <= MAX_NAME && IsTime(FileAt(u, i).mtime)
  }

  predicate Fits(f: Frame) {
    |f.payload| <= MAX_PAYLOAD
  }

  predicate AllFit(fs: seq<Frame>) {
    forall k :: 0 <= k < |fs| ==> Fits(fs[k])
  }

  lemma TenToNineteen()
    ensures Power(10, 19) == 10_000_000_000_000_000_000
  {
    assert Power(10, 4) == 10 * Power(10, 3) == 100 * Power(10, 2) == 1000 * Power(10, 1) == 10_000;
    assert Power(10, 8) == 10 * Power(10, 7) == 100 * Power(10, 6) == 1000 * Power(10, 5) == 100_000_000;
    assert Power(10, 12) == 10 * Power(10, 11) == 100 * Power(10, 10) == 1000 * Power(10, 9) == 1_000_000_000_000;
    assert Power(10, 16) == 10 * Power(10, 15) == 100 * Power(10, 14) == 1000 * Power(10, 13) == 10_000_000_000_000_000;
    assert Power(10, 19) == 10 * Power(10, 18) == 100 * Power(10, 17) == 1000 * Power(10, 16);
  }

  lemma ShortDecimal(n: int)
    requires IsTime(n)
    ensures |SignedDecimal(n)| <= 20
  {
    TenToNineteen();
    NumeralShort(if n < 0 then -n else n, 10, 19);
  }

  lemma JoinedLength(a: string, b: string, c: string)
    ensures |Join([a, b, c])| == |a| + |b| + |c| + 2
  {
    assert [a, b, c][1..] == [b, c] && [b, c][1..] == [c];
    assert Join([b, c]) == b + " " + Join([c]);
    assert Join([a, b, c]) == a + " " + Join([b, c]);
  }

  lemma GotFits(name: string, size: nat, mtime: int)
    requires |name| <= MAX_NAME && size <= MAX_INT64 && IsTime(mtime)
    ensures Fits(GotFrame(name, size, SignedDecimal(mtime)))
  {
    ShortDecimal(size);
    ShortDecimal(mtime);
    JoinedLength(name, SignedDecimal(size), SignedDecimal(mtime));
  }

  lemma AnnouncementFits(u: Setup, i: nat)
    requires WellSetUp(u) && ShortNames(u) && Exists(u, i)
    ensures Fits(AnnouncementAt(u, i))
  {
    var f := FileAt(u, i);
    ShortDecimal(|f.content|);
    ShortDecimal(f.mtime);
    ShortDecimal(0);
    var tokens := [f.name, Decimal(|f.content|), SignedDecimal(f.mtime), SignedDecimal(0)];
    JoinedLength(Decimal(|f.content|), SignedDecimal(f.mtime), SignedDecimal(0));
    assert tokens[1..] == [Decimal(|f.content|), SignedDecimal(f.mtime), SignedDecimal(0)];
    assert Join(tokens) == f.name + " " + Join(tokens[1..]);
  }

  /* ---- Replies ---- */

  /** What a handled frame adds to the wire fits. */
  ghost predicate RepliesFit(s: State, r: State) {
    s.wire <= r.wire && forall k :: |s.wire| <= k < |r.wire| ==> Fits(r.wire[k])
  }

  lemma FinishFits(ctx: Context, s: State, i: nat, got: string, u: Setup, sources: map<string, Source>, io: Io)
    requires WellSetUp(u) && ShortNames(u) && HoldsAll(s, i, got, u, sources) && s.rx.recvBytes == |got|
    ensures RepliesFit(s, FinishFile(ctx, s, io).state)
  {
    FinishShape(ctx, s, io);
    GotFits(s.rx.recvName, |got|, FileAt(u, i).mtime);
  }

  lemma DataFits(ctx: Context, s: State, cur: Cur, f: Frame, io: Io, u: Setup, sources: map<string, Source>,
                 log: set<nat>)
    requires WellSetUp(u) && ShortNames(u) && IsAt(s, cur, u) && !f.isCmd && TrackOne(cur, f, u, sources, log).Some?
    ensures RepliesFit(s, HandleData(ctx, s, f.payload, io).state)
  {
    var data := f.payload;
    StoreAdvances(s, cur, data, u);
    if io.writeOk && cur.got + data == FileAt(u, cur.i).content {
      FinishFits(ctx, Store(s, data, |data|), cur.i, cur.got + data, u, sources, io);
    }
  }

  lemma OpenFits(s: State, u: Setup, j: nat, io: Io)
    requires WellSetUp(u) && ShortNames(u) && Exists(u, j)
    ensures RepliesFit(s, OpenFile(s, AnnouncementAt(u, j).payload[1..], io).state)
  {
    FileArguments(FileAt(u, j), 0);
  }

  lemma FileFits(ctx: Context, s: State, cur: Cur, j: nat, io: Io, u: Setup, sources: map<string, Source>, log: set<nat>)
    requires WellSetUp(u) && ShortNames(u) && IsAt(s, cur, u)
    requires Exists(u, j) && CanStart(cur, AnnouncementAt(u, j), u, sources, j, log)
    ensures RepliesFit(s, HandleFile(ctx, s, AnnouncementAt(u, j).payload[1..], io).state)
  {
    if s.rx.file.Some? {
      FinishFits(ctx, s, cur.i, cur.got, u, sources, io);
      var c := FinishFile(ctx, s, io);
      if c.status == Continue {
        OpenFits(c.state, u, j, io);
      }
    } else {
      OpenFits(s, u, j, io);
    }
  }

  lemma HandledFits(ctx: Context, s: State, cur: Cur, f: Frame, io: Io, u: Setup, sources: map<string, Source>,
                    log: set<nat>)
    requires WellSetUp(u) && ShortNames(u) && IsAt(s, cur, u) && TrackOne(cur, f, u, sources, log).Some?
    ensures RepliesFit(s, Handle(ctx, s, Arrival(f, io)).state)
  {
    if !f.isCmd {
      DataFits(ctx, s, cur, f, io, u, sources, log);
    } else if IsReply(f) {
      ReplyFits(ctx, s, f, io);
    } else if Startable(cur, f, u, sources, log) {
      assert f.payload[0] == M_FILE;
      FileFits(ctx, s, cur, Started(cur, f, u, sources, log), io, u, sources, log);
    } else {
      EobFits(ctx, s, cur, io, u, sources);
    }
  }

  lemma ReplyFits(ctx: Context, s: State, f: Frame, io: Io)
    requires IsReply(f)
    ensures RepliesFit(s, Handle(ctx, s, Arrival(f, io)).state)
  {
  }

  lemma EobFits(ctx: Context, s: State, cur: Cur, io: Io, u: Setup, sources: map<string, Source>)
    requires WellSetUp(u) && ShortNames(u) && IsAt(s, cur, u) && Closable(cur, u, sources)
    ensures RepliesFit(s, Handle(ctx, s, Arrival(EOB_FRAME, io)).state)
  {
    assert EOB_FRAME.payload[0] == M_EOB;
    if s.rx.file.Some? {
      FinishFits(ctx, s, cur.i, cur.got, u, sources, io);
    }
  }

  /* ---- Every run ---- */

  ghost predicate SideFits(x: Side) {
    AllFit(x.s.wire) && AllFit(x.held)
  }

  ghost predicate Proper(u: Setup) {
    WellSetUp(u) && ShortNames(u)
  }

  lemma SenderFits(x: Side, x': Side, y: Side)
    requires Dir(x, y) && ShortNames(x.setup) && SideFits(x) && SenderStep(x, x')
    ensures SideFits(x')
  {
    if Announces(x, x') {
      AnnouncedFits(x, x', y);
    } else if exists n :: Copies(x, x', n) {
      var n :| Copies(x, x', n);
      CopiedFits(x, x', n);
    }
  }

  lemma AnnouncedFits(x: Side, x': Side, y: Side)
    requires Dir(x, y) && ShortNames(x.setup) && SideFits(x) && Announces(x, x')
    ensures SideFits(x')
  {
    AnnouncementFits(x.setup, x.progress.next);
  }

  lemma CopiedFits(x: Side, x': Side, n: nat)
    requires SideFits(x) && Copies(x, x', n)
    ensures SideFits(x')
  {
    assert Fits(Data(x.progress.rest[..n]));
  }

  lemma ReaderFits(x: Side, x': Side, y: Side)
    requires Dir(y, x) && Proper(y.setup) && SideFits(x) && ReaderStep(x, y, x')
    ensures SideFits(x')
  {
    if exists io :: Reads(x, y, x', io) {
      var io :| Reads(x, y, x', io);
      NextCur(y, x, x', io);
      HandledFits(x.setup.ctx, x.s, CurOf(y, x), y.s.wire[x.read], io, y.setup, y.s.tx.sources, y.announced);
      var r := Handle(x.setup.ctx, x.s, Arrival(y.s.wire[x.read], io)).state;
      assert forall k :: 0 <= k < |x'.held| ==> x'.held[k] == r.wire[|x.s.wire| + k];
    } else {
      assert forall k :: 0 <= k < |x'.held| ==> x'.held[k] == x.held[k + 1];
    }
  }

  lemma {:induction false} RunFits(ws: seq<World>)
    requires IsRun(ws) && Proper(ws[|ws| - 1].a.setup) && Proper(ws[|ws| - 1].b.setup)
    ensures SideFits(ws[|ws| - 1].a) && SideFits(ws[|ws| - 1].b)
    decreases |ws|
  {
    var n := |ws| - 1;
    if n > 0 {
      ShorterRun(ws);
      NextKeepsSetup(ws[n - 1], ws[n], true);
      NextKeepsSetup(ws[n - 1], ws[n], false);
      RunFits(ws[..n]);
      RunIsSafe(ws[..n], true);
      RunIsSafe(ws[..n], false);
      NextFits(ws[n - 1], ws[n]);
    }
  }

  lemma NextFits(w: World, w': World)
    requires Dir(w.a, w.b) && Dir(w.b, w.a) && Proper(w.a.setup) && Proper(w.b.setup) && Next(w, w')
    requires SideFits(w.a) && SideFits(w.b)
    ensures SideFits(w'.a) && SideFits(w'.b)
  {
    if SenderStep(w.a, w'.a) && w'.b == w.b {
      SenderFits(w.a, w'.a, w.b);
    } else if ReaderStep(w.a, w.b, w'.a) && w'.b == w.b {
      ReaderFits(w.a, w'.a, w.b);
    } else if SenderStep(w.b, w'.b) {
      SenderFits(w.b, w'.b, w.a);
    } else {
      ReaderFits(w.b, w'.b, w.a);
    }
  }

  /** Under every interleaving, the bytes a side has written decode to its frames, and any
      first part of them that has arrived decodes to the frames that are whole in it: the
      frame queues of module Peers are what the connection carries. */
  lemma BytesCarryTheFrames(ws: seq<World>, x: Side, y: Side, cut: nat)
    requires Sides(ws, x, y) && Proper(x.setup) && Proper(y.setup) && cut <= |EncodeAll(x.s.wire)|
    ensures DecodeAll(EncodeAll(x.s.wire)) == (x.s.wire, Eof)
    ensures DecodeAll(EncodeAll(x.s.wire)[..cut]).0 == x.s.wire[..Whole(x.s.wire, cut)]
  {
    RunFits(ws);
    assert forall i :: 0 <= i < |x.s.wire| ==> Fits(x.s.wire[i]);
    StreamRoundTrip(x.s.wire);
    TruncatedStream(x.s.wire, cut);
  }
}
