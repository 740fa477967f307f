/** Why module Peers wants a file that is to be deleted to have its send name to itself:
    sentFileMap and the inbound directory are keyed by the name, so another file of the same
    name takes over the confirmation, or the place in the directory. */
module NameClash {
  import opened GoStrings
  import opened Frames
  import opened SessionState
  import opened Receive
  import opened Sending
  import opened Transfer
  import opened Peers
  import opened SenderRuns
  import Address

  /* ---- Runs of the two sides ---- */

  /** A run leads from w to w'. */
  ghost predicate Leads(w: World, w': World) {
    exists ws :: IsWay(ws, w, w')
  }

  ghost predicate IsWay(ws: seq<World>, w: World, w': World) {
    && ws != [] && ws[0] == w && ws[|ws| - 1] == w'
    && forall i :: 0 <= i < |ws| - 1 ==> Next(ws[i], ws[i + 1])
  }

  lemma LeadsOn(u: World, v: World, w: World)
    requires Leads(u, v) && Leads(v, w)
    ensures Leads(u, w)
  {
    var us :| IsWay(us, u, v);
    var vs :| IsWay(vs, v, w);
    WaysJoin(us, vs, u, v, w);
  }

  lemma WaysJoin(us: seq<World>, vs: seq<World>, u: World, v: World, w: World)
    requires IsWay(us, u, v) && IsWay(vs, v, w)
    ensures IsWay(us + vs[1..], u, w)
  {
    var ws := us + vs[1..];
    forall i | 0 <= i < |ws| - 1
      ensures Next(ws[i], ws[i + 1])
    {
      StepOfJoined(us, vs, u, v, w, i);
    }
    if |vs| > 1 {
      assert ws[|ws| - 1] == vs[|vs| - 1];
    }
  }

  lemma StepOfJoined(us: seq<World>, vs: seq<World>, u: World, v: World, w: World, i: nat)
    requires IsWay(us, u, v) && IsWay(vs, v, w) && i + 1 < |us + vs[1..]|
    ensures Next((us + vs[1..])[i], (us + vs[1..])[i + 1])
  {
    var ws, k := us + vs[1..], i + 1 - |us|;
    if k < 0 {
      assert ws[i] == us[i] && ws[i + 1] == us[i + 1];
    } else {
      assert ws[i] == vs[k] && ws[i + 1] == vs[k + 1];
    }
  }

  lemma StepLeads(w: World, w': World)
    requires Next(w, w')
    ensures Leads(w, w')
  {
    assert IsWay([w, w'], w, w');
  }

  lemma SenderMoves(x: Side, x': Side, y: Side)
    requires SenderStep(x, x')
    ensures Next(World(x, y), World(x', y))
  {
  }

  /** The sender's own runs are runs of the world. */
  lemma SenderLeads(x: Side, x': Side, y: Side)
    requires Reaches(x, x')
    ensures Leads(World(x, y), World(x', y))
  {
    var xs: seq<Side> :| IsPath(xs, x, x');
    var ws := seq(|xs|, i requires 0 <= i < |xs| => World(xs[i], y));
    forall i | 0 <= i < |ws| - 1
      ensures Next(ws[i], ws[i + 1])
    {
      assert SenderStep(xs[i + 1 - 1], xs[i + 1]);
      SenderMoves(xs[i], xs[i + 1], y);
    }
    assert IsWay(ws, World(x, y), World(x', y));
  }

  /** The reader of x after it has taken the next frame of y. */
  function Read(x: Side, y: Side): Side
    requires x.read < |y.s.wire|
  {
    var r := Handle(x.setup.ctx, x.s, Arrival(y.s.wire[x.read], ALL_OK));
    x.(s := r.state.(wire := x.s.wire), read := x.read + 1, stop := r.status,
       held := if x.s.wire <= r.state.wire then r.state.wire[|x.s.wire|..] else [])
  }

  lemma ReadStep(x: Side, y: Side)
    requires x.stop == Continue && x.held == [] && x.read < |y.s.wire|
    ensures ReaderStep(x, y, Read(x, y))
  {
    HandleReplies(x.setup.ctx, x.s, Arrival(y.s.wire[x.read], ALL_OK));
    assert Reads(x, y, Read(x, y), ALL_OK);
  }

  lemma SenderReads(x: Side, y: Side)
    requires x.stop == Continue && x.held == [] && x.read < |y.s.wire|
    ensures Leads(World(x, y), World(Read(x, y), y))
  {
    ReadStep(x, y);
    StepLeads(World(x, y), World(Read(x, y), y));
  }

  lemma ReceiverReads(x: Side, y: Side)
    requires y.stop == Continue && y.held == [] && y.read < |x.s.wire|
    ensures Leads(World(x, y), World(x, Read(y, x)))
  {
    ReadStep(y, x);
    StepLeads(World(x, y), World(x, Read(y, x)));
  }

  /* ---- What the receiver does ---- */

  /** A small file is opened by its announcement and delivered by its only data frame. */
  lemma SmallFileIsDelivered(ctx: Context, s: State, f: File) returns (open: State, done: State)
    requires s.rx.file.None? && Sendable(f) && f.content != ""
    ensures Handle(ctx, s, Arrival(FileFrame(f.name, |f.content|, f.mtime, 0), ALL_OK)) == Reaction(open, Continue)
    ensures Handle(ctx, open, Arrival(Data(f.content), ALL_OK)) == Reaction(done, Continue)
    ensures open.wire == s.wire && done == Delivered(ctx, s, f)
  {
    ReceiveAnnouncement(ctx, s, f, 0);
    open := s.(rx := Opened(s.rx, AnnouncementOf(f, 0)));
    done := Handle(ctx, open, Arrival(Data(f.content), ALL_OK)).state;
    FinishWhole(ctx, s, open, f);
    assert Store(open, f.content, |f.content|).rx.recvBytes == |f.content|;
  }

  /** An announcement without data before M_EOB puts an empty file in the place of the name. */
  lemma EmptyFileOverwrites(ctx: Context, s: State, f: File) returns (open: State)
    requires s.rx.file.None? && Sendable(f)
    ensures Handle(ctx, s, Arrival(FileFrame(f.name, |f.content|, f.mtime, 0), ALL_OK)) == Reaction(open, Continue)
    ensures open.wire == s.wire
    ensures Handle(ctx, open, Arrival(EOB_FRAME, ALL_OK)).state.rx.inbound
            == s.rx.inbound[Slot(Destination(ctx, s.remoteAddrs, s.activeLink), f.name) := ""]
  {
    ReceiveAnnouncement(ctx, s, f, 0);
    open := s.(rx := Opened(s.rx, AnnouncementOf(f, 0)));
  }

  /* ---- What the sender does ---- */

  /** Items whose files are missing are passed over. */
  lemma {:induction false} SkipMissing(x: Side, m: nat)
    requires x.progress.Idle? && x.progress.next <= m <= |x.setup.plan|
    requires forall k :: x.progress.next <= k < m ==> x.setup.plan[k].path !in x.s.tx.sources
    ensures Reaches(x, At(x, Idle(m)))
    decreases m - x.progress.next
  {
    if x.progress.next == m {
      ReachesItself(x);
    } else {
      var next := At(x, Idle(x.progress.next + 1));
      assert Stats(x, next);
      ReachesNext(x, next);
      SkipMissing(next, m);
      ReachesOn(x, next, At(x, Idle(m)));
    }
  }

  /** The side after it has sent a small file. */
  function SentSmall(x: Side, item: Item, content: string): Side
    requires x.progress.Idle? && item.path in x.s.tx.sources
  {
    var z := OpenedItem(x, item);
    z.(s := z.s.(wire := z.s.wire + [Data(content)],
                 tx := z.s.tx.(bytesSent := z.s.tx.bytesSent + |content|, filesSent := z.s.tx.filesSent + 1)),
       progress := Idle(x.progress.next + 1))
  }

  lemma SendSmall(x: Side, item: Item, content: string)
    requires x.progress.Idle? && x.progress.next < |x.setup.plan| && x.setup.plan[x.progress.next] == item
    requires IsThere(x.s.tx.sources, item.path) && x.s.tx.sources[item.path].content == content
    requires item.offset == 0 && 0 < |content| <= CHUNK
    ensures Reaches(x, SentSmall(x, item, content))
  {
    var z := OpenedItem(x, item);
    OpenItem(x, item);
    var copied := z.(s := z.s.(wire := z.s.wire + [Data(content)],
                               tx := z.s.tx.(bytesSent := z.s.tx.bytesSent + |content|)),
                     progress := Copying(x.progress.next, ""));
    assert content[..|content|] == content && content[|content|..] == "";
    assert Copies(z, copied, |content|);
    ReachesNext(z, copied);
    ReachesOn(x, z, copied);
    ReachesNext(copied, SentSmall(x, item, content));
    ReachesOn(x, copied, SentSmall(x, item, content));
  }

  /** Two items of a plan with one send name; the other items of the plan have no files. */
  ghost predicate Clash(u: Setup, i: nat, j: nat, f: File, g: File) {
    && i < j < |u.plan| && g.name == f.name && Sendable(f) && 0 < |f.content| <= CHUNK && Sendable(g)
    && u.plan[i] == Item(u.plan[i].path, f.name, 0, u.plan[i].deleteAfter)
    && u.plan[j] == Item(u.plan[j].path, f.name, 0, u.plan[j].deleteAfter)
    && u.files == map[u.plan[i].path := Source(f.content, f.mtime, NoFault),
                      u.plan[j].path := Source(g.content, g.mtime, NoFault)]
    && forall k :: 0 <= k < |u.plan| && k != i && k != j ==> u.plan[k].path !in u.files
  }

  /** The sender sends the first file and announces the second one. */
  lemma SenderGoesFirst(x: Side, y: Side, i: nat, j: nat, f: File, g: File) returns (x': Side)
    requires Begins(x) && Clash(x.setup, i, j, f, g) && x.s.tx.sources[x.setup.plan[i].path].content == f.content
    requires x.s.tx.sources[x.setup.plan[i].path].mtime == f.mtime
    ensures Leads(World(x, y), World(x', y))
    ensures x'.setup == x.setup && x'.s.tx.sources == x.setup.files && x'.progress == Opening(j)
    ensures x'.s.tx.sent == map[f.name := SentInfo(x.setup.plan[j].path, x.setup.plan[j].deleteAfter)]
    ensures x'.s.wire == [FileFrame(f.name, |f.content|, f.mtime, 0), Data(f.content),
                          FileFrame(f.name, |g.content|, g.mtime, 0)]
    ensures x'.held == [] && x'.read == 0 && x'.stop == Continue
  {
    var b := FirstGoesOut(x, i, j, f, g);
    var c := At(b, Idle(j));
    SkipMissing(b, j);
    ReachesOn(x, b, c);
    x' := AnnouncedItem(c, x.setup.plan[j]);
    AnnounceItem(c, x.setup.plan[j]);
    ReachesOn(x, c, x');
    SenderLeads(x, x', y);
  }

  lemma FirstGoesOut(x: Side, i: nat, j: nat, f: File, g: File) returns (b: Side)
    requires Begins(x) && Clash(x.setup, i, j, f, g) && x.s.tx.sources[x.setup.plan[i].path].content == f.content
    requires x.s.tx.sources[x.setup.plan[i].path].mtime == f.mtime
    ensures Reaches(x, b) && b == SentSmall(At(x, Idle(i)), x.setup.plan[i], f.content)
    ensures b.s.wire == [FileFrame(f.name, |f.content|, f.mtime, 0), Data(f.content)]
  {
    var a := At(x, Idle(i));
    SkipMissing(x, i);
    b := SentSmall(a, x.setup.plan[i], f.content);
    SendSmall(a, x.setup.plan[i], f.content);
    ReachesOn(x, a, b);
  }

  /** The receiver after each of the two frames of a small file, with the confirmation held. */
  lemma ReceiverTakes(x: Side, y: Side, f: File) returns (y1: Side, y2: Side)
    requires y.s.rx.file.None? && y.held == [] && y.stop == Continue && Sendable(f) && f.content != ""
    requires y.read + 2 <= |x.s.wire| && x.s.wire[y.read] == FileFrame(f.name, |f.content|, f.mtime, 0)
    requires x.s.wire[y.read + 1] == Data(f.content)
    ensures y1 == Read(y, x) && y1.held == [] && y1.stop == Continue && y1.read == y.read + 1 && y2 == Read(y1, x)
    ensures var got := GotFrame(f.name, |f.content|, SignedDecimal(f.mtime));
            && Transfer.Delivered(y.setup.ctx, y.s, f).wire == y.s.wire + [got]
            && y2 == y.(s := Transfer.Delivered(y.setup.ctx, y.s, f).(wire := y.s.wire), held := [got], read := y.read + 2)
  {
    var open, done := SmallFileIsDelivered(y.setup.ctx, y.s, f);
    var got := GotFrame(f.name, |f.content|, SignedDecimal(f.mtime));
    assert done.wire == y.s.wire + [got] && done.wire[|y.s.wire|..] == [got];
    assert open.wire[|y.s.wire|..] == [] && open.(wire := y.s.wire) == open;
    y1 := y.(s := open, read := y.read + 1);
    y2 := y.(s := done.(wire := y.s.wire), held := [got], read := y.read + 2);
    assert y1 == Read(y, x);
  }

  /** The receiver takes a small file and confirms it. */
  lemma ReceiverConfirms(x: Side, y: Side, f: File) returns (y': Side)
    requires y.s.rx.file.None? && y.held == [] && y.stop == Continue && Sendable(f) && f.content != ""
    requires y.read + 2 <= |x.s.wire| && x.s.wire[y.read] == FileFrame(f.name, |f.content|, f.mtime, 0)
    requires x.s.wire[y.read + 1] == Data(f.content)
    ensures Leads(World(x, y), World(x, y'))
    ensures y'.s == Transfer.Delivered(y.setup.ctx, y.s, f) && y'.setup == y.setup
    ensures y'.held == [] && y'.read == y.read + 2 && y'.stop == Continue
  {
    var got := GotFrame(f.name, |f.content|, SignedDecimal(f.mtime));
    var y1, y2 := ReceiverTakes(x, y, f);
    ReceiverReads(x, y);
    ReceiverReads(x, y1);
    LeadsOn(World(x, y), World(x, y1), World(x, y2));
    y' := Wrote(y2, got).(held := []);
    assert Flushes(y2, y');
    StepLeads(World(x, y2), World(x, y'));
    LeadsOn(World(x, y), World(x, y2), World(x, y'));
  }

  /** The confirmation removes the file that the name stands for by now. */
  lemma ConfirmationRemoves(x: Side, y: Side, path: string, f: File) returns (x': Side)
    requires x.read == 0 && x.held == [] && x.stop == Continue && Sendable(f)
    requires x.s.tx.sent == map[f.name := SentInfo(path, true)]
    requires y.s.wire == [GotFrame(f.name, |f.content|, SignedDecimal(f.mtime))]
    ensures Leads(World(x, y), World(x', y)) && x'.setup == x.setup && x'.progress == x.progress
    ensures x'.s.tx.sources == x.s.tx.sources - {path} && x'.s.wire == x.s.wire && x'.held == []
  {
    SentIsRemoved(x.setup.ctx, x.s, path, f);
    x' := Read(x, y);
    SenderReads(x, y);
    assert x.s.wire[|x.s.wire|..] == [];
  }

  lemma SentIsRemoved(ctx: Context, s: State, path: string, f: File)
    requires s.tx.sent == map[f.name := SentInfo(path, true)] && Sendable(f)
    ensures Handle(ctx, s, Arrival(GotFrame(f.name, |f.content|, SignedDecimal(f.mtime)), ALL_OK))
            == Reaction(s.(tx := s.tx.(sources := s.tx.sources - {path})), Continue)
  {
    ConfirmationDeletes(ctx, s, f.name, |f.content|, f.mtime, ALL_OK);
    var r := Handle(ctx, s, Arrival(GotFrame(f.name, |f.content|, SignedDecimal(f.mtime)), ALL_OK)).state;
    assert forall p :: p in r.tx.sources <==> p in s.tx.sources && p != path;
    assert r.tx.sources == s.tx.sources - {path};
  }

  /** Up to the removal the two stories are one. */
  lemma BothStories(x: Side, y: Side, i: nat, j: nat, f: File, g: File) returns (x': Side, y': Side)
    requires Begins(x) && Begins(y) && Clash(x.setup, i, j, f, g) && x.setup.plan[j].deleteAfter
    requires x.s.tx.sources[x.setup.plan[i].path].content == f.content
    requires x.s.tx.sources[x.setup.plan[i].path].mtime == f.mtime
    ensures Leads(World(x, y), World(x', y'))
    ensures x'.setup == x.setup && x'.progress == Opening(j) && x'.held == []
    ensures x'.s.tx.sources == x.setup.files - {x.setup.plan[j].path}
    ensures x'.s.wire == [FileFrame(f.name, |f.content|, f.mtime, 0), Data(f.content),
                          FileFrame(f.name, |g.content|, g.mtime, 0)]
    ensures y'.s == Transfer.Delivered(y.setup.ctx, y.s, f) && y'.setup == y.setup
    ensures y'.held == [] && y'.read == 2 && y'.stop == Continue
  {
    var x1 := SenderGoesFirst(x, y, i, j, f, g);
    y' := ReceiverConfirms(x1, y, f);
    LeadsOn(World(x, y), World(x1, y), World(x1, y'));
    assert y'.s.wire == [GotFrame(f.name, |f.content|, SignedDecimal(f.mtime))];
    x' := ConfirmationRemoves(x1, y', x.setup.plan[j].path, f);
    LeadsOn(World(x, y), World(x1, y'), World(x', y'));
  }

  /* ---- The stories ---- */

  /** The directory of the delivered file stays the one the side started with. */
  lemma DeliveredInPlace(y: Side, f: File)
    requires Destination(y.setup.ctx, y.s.remoteAddrs, y.s.activeLink) == y.setup.dest
    ensures var s := Transfer.Delivered(y.setup.ctx, y.s, f);
            && Destination(y.setup.ctx, s.remoteAddrs, s.activeLink) == y.setup.dest
            && Slot(y.setup.dest, f.name) in s.rx.inbound && s.rx.inbound[Slot(y.setup.dest, f.name)] == f.content
            && s.rx.file.None?
  {
    DeliveredKeepsDestination(y.setup.ctx, y.s, f);
  }

  /** Nothing in the plan says that the other side has the removed file. */
  ghost predicate Unkept(x: Side, y: Side, path: string) {
    path in x.setup.files && path !in x.s.tx.sources && forall k: nat :: !KeptBy(x, y, path, k)
  }

  /** Two files with different contents under one name: the confirmation of the first
      removes the second, which the other side does not have. */
  lemma SameNameLosesMail(x: Side, y: Side, i: nat, j: nat, f: File, g: File) returns (x': Side, y': Side)
    requires Begins(x) && Begins(y) && Clash(x.setup, i, j, f, g)
    requires x.setup.plan[i].path != x.setup.plan[j].path && f.content != g.content && x.setup.plan[j].deleteAfter
    ensures Leads(World(x, y), World(x', y')) && x'.setup == x.setup && Unkept(x', y', x.setup.plan[j].path)
  {
    x', y' := BothStories(x, y, i, j, f, g);
    DeliveredInPlace(y, f);
    assert x.setup.plan[j].path in x.setup.files;
    forall k: nat
      ensures !KeptBy(x', y', x.setup.plan[j].path, k)
    {
      assert Exists(x.setup, k) && x.setup.plan[k].path == x.setup.plan[j].path ==> k == j;
    }
  }

  /** The first file is confirmed and removed before the second one is looked at. */
  lemma FirstIsRemoved(x: Side, y: Side, i: nat, j: nat, f: File, g: File) returns (x': Side, y': Side)
    requires Begins(x) && Begins(y) && Clash(x.setup, i, j, f, g) && x.setup.plan[i].deleteAfter
    requires x.setup.plan[i].path != x.setup.plan[j].path
    ensures Leads(World(x, y), World(x', y')) && x'.setup == x.setup && x'.progress == Idle(i + 1)
    ensures x'.s.tx.sources == x.setup.files - {x.setup.plan[i].path} && |x'.s.wire| == 2
    ensures y'.s == Transfer.Delivered(y.setup.ctx, y.s, f) && y'.setup == y.setup
    ensures y'.held == [] && y'.read == 2 && y'.stop == Continue
  {
    var b := FirstGoesOut(x, i, j, f, g);
    SenderLeads(x, b, y);
    y' := ReceiverConfirms(b, y, f);
    LeadsOn(World(x, y), World(b, y), World(b, y'));
    assert y'.s.wire == [GotFrame(f.name, |f.content|, SignedDecimal(f.mtime))];
    x' := ConfirmationRemoves(b, y', x.setup.plan[i].path, f);
    LeadsOn(World(x, y), World(b, y'), World(x', y'));
  }

  lemma SecondGoesOut(x: Side, y: Side, i: nat, j: nat, f: File, g: File) returns (x': Side)
    requires Clash(x.setup, i, j, f, g) && x.progress == Idle(i + 1) && 0 < |g.content| <= CHUNK
    requires x.setup.plan[i].path != x.setup.plan[j].path
    requires x.s.tx.sources == x.setup.files - {x.setup.plan[i].path} && |x.s.wire| == 2
    ensures Leads(World(x, y), World(x', y)) && x'.setup == x.setup && x'.s.tx.sources == x.s.tx.sources
    ensures |x'.s.wire| == 4 && x'.s.wire[2] == FileFrame(g.name, |g.content|, g.mtime, 0) && x'.s.wire[3] == Data(g.content)
  {
    SkipMissing(x, j);
    var c := At(x, Idle(j));
    SendSmall(c, x.setup.plan[j], g.content);
    x' := SentSmall(c, x.setup.plan[j], g.content);
    ReachesOn(x, c, x');
    SenderLeads(x, x', y);
  }

  /** A file to be deleted, and later another one under its name, to be deleted or not: the
      first is confirmed and removed, and then overwritten where it was received. */
  lemma LaterFileOverwrites(x: Side, y: Side, i: nat, j: nat, f: File, g: File) returns (x': Side, y': Side)
    requires Begins(x) && Begins(y) && Clash(x.setup, i, j, f, g) && x.setup.plan[i].deleteAfter
    requires x.setup.plan[i].path != x.setup.plan[j].path && f.content != g.content && 0 < |g.content| <= CHUNK
    ensures Leads(World(x, y), World(x', y')) && x'.setup == x.setup && Unkept(x', y', x.setup.plan[i].path)
  {
    var x1, y1 := FirstIsRemoved(x, y, i, j, f, g);
    DeliveredInPlace(y, f);
    x' := SecondGoesOut(x1, y1, i, j, f, g);
    LeadsOn(World(x, y), World(x1, y1), World(x', y1));
    y' := ReceiverConfirms(x', y1, g);
    DeliveredInPlace(y1, g);
    LeadsOn(World(x, y), World(x', y1), World(x', y'));
    forall k: nat
      ensures !KeptBy(x', y', x.setup.plan[i].path, k)
    {
      assert Exists(x.setup, k) && x.setup.plan[k].path == x.setup.plan[i].path ==> k == i;
    }
  }

  /** The sender finds the second file gone and ends. */
  lemma SenderFindsNothing(x: Side, y: Side, j: nat) returns (x': Side)
    requires j < |x.setup.plan| && x.progress == Opening(j)
    requires forall k :: j <= k < |x.setup.plan| ==> x.setup.plan[k].path !in x.s.tx.sources
    ensures Leads(World(x, y), World(x', y)) && x'.setup == x.setup && x'.s.tx.sources == x.s.tx.sources
    ensures x'.s.wire == x.s.wire + [EOB_FRAME]
  {
    var a := At(x, Idle(j + 1));
    assert Opens(x, a);
    ReachesNext(x, a);
    SkipMissing(a, |x.setup.plan|);
    var b := At(a, Idle(|x.setup.plan|));
    ReachesOn(x, a, b);
    x' := EndRun(x, b);
    PathKeepsSetup(x, x');
    SenderLeads(x, x', y);
  }

  /** The receiver then puts an empty file in the place of the first one. */
  lemma ReceiverTakesEmpty(x: Side, y: Side, f: File) returns (y': Side)
    requires y.s.rx.file.None? && Sendable(f) && y.held == [] && y.read == 2 && y.stop == Continue && |x.s.wire| == 4
    requires x.s.wire[2] == FileFrame(f.name, |f.content|, f.mtime, 0) && x.s.wire[3] == EOB_FRAME
    ensures Leads(World(x, y), World(x, y')) && y'.setup == y.setup
    ensures y'.s.rx.inbound
            == y.s.rx.inbound[Slot(Destination(y.setup.ctx, y.s.remoteAddrs, y.s.activeLink), f.name) := ""]
  {
    var open := EmptyFileOverwrites(y.setup.ctx, y.s, f);
    var y1 := Read(y, x);
    assert open.wire[|y.s.wire|..] == [] && y1.s == open.(wire := y.s.wire) == open && y1.held == [];
    y' := Read(y1, x);
    ReceiverReads(x, y);
    ReceiverReads(x, y1);
    LeadsOn(World(x, y), World(x, y1), World(x, y'));
  }

  /** One file listed twice, the second time to be deleted: the confirmation of the first copy removes it
      between the second M_FILE and os.Open, and the other side ends with an empty file. */
  lemma SameFileTwice(x: Side, y: Side, i: nat, j: nat, f: File) returns (x': Side, y': Side)
    requires Begins(x) && Begins(y) && Clash(x.setup, i, j, f, f) && x.setup.plan[i].path == x.setup.plan[j].path
    requires x.setup.plan[j].deleteAfter
    ensures Leads(World(x, y), World(x', y')) && x'.setup == x.setup && Unkept(x', y', x.setup.plan[j].path)
    ensures y'.s.rx.inbound[Slot(y.setup.dest, f.name) := ""] == y'.s.rx.inbound
  {
    var x1, y1 := BothStories(x, y, i, j, f, f);
    DeliveredInPlace(y, f);
    assert forall k :: 0 <= k < |x.setup.plan| ==> x.setup.plan[k].path !in x1.s.tx.sources;
    x' := SenderFindsNothing(x1, y1, j);
    LeadsOn(World(x, y), World(x1, y1), World(x', y1));
    y' := ReceiverTakesEmpty(x', y1, f);
    LeadsOn(World(x, y), World(x', y1), World(x', y'));
    EmptyIsUnkept(x', y', j, f);
  }

  lemma EmptyIsUnkept(x: Side, y: Side, j: nat, f: File)
    requires Exists(x.setup, j) && x.setup.plan[j].path !in x.s.tx.sources && f.content != ""
    requires forall k: nat :: Exists(x.setup, k) ==> FileAt(x.setup, k) == f
    requires Slot(y.setup.dest, f.name) in y.s.rx.inbound && y.s.rx.inbound[Slot(y.setup.dest, f.name)] == ""
    ensures Unkept(x, y, x.setup.plan[j].path)
  {
    forall k: nat
      ensures !KeptBy(x, y, x.setup.plan[j].path, k)
    {
      if Exists(x.setup, k) {
        assert FileAt(x.setup, k) == f;
      }
    }
  }

  /* ---- The exact condition ---- */

  /** What a line of the plan says apart from the path: the send name and whether the file is
      to be deleted. */
  datatype Line = Line(name: string, deleteAfter: bool)

  /** The plan sends, in this order, files that M_FILE can announce. */
  ghost predicate Uses(u: Setup, lines: seq<Line>) {
    && |u.plan| == |lines|
    && (forall i: nat :: i < |lines| ==> u.plan[i].Name() == lines[i].name && u.plan[i].deleteAfter == lines[i].deleteAfter)
    && forall i: nat :: Exists(u, i) ==> u.plan[i].offset == 0 && Sendable(FileAt(u, i))
                                         && u.files[u.plan[i].path].fault != OpenVanished
  }

  /** In no run of a session that sends such files, whatever their paths and contents, is a
      file removed that the other side does not have. */
  ghost predicate SafeFor(lines: seq<Line>) {
    forall ws, x, y, path :: Sides(ws, x, y) && Uses(x.setup, lines) ==> !Unkept(x, y, path)
  }

  /** A line that marks a file for deletion has its send name to itself. */
  ghost predicate MarkedAlone(lines: seq<Line>) {
    forall i, j :: 0 <= i < |lines| && 0 <= j < |lines| && i != j && lines[i].deleteAfter ==> lines[i].name != lines[j].name
  }

  const BLANK_ADDRESS: Address.FidoAddress := Address.FidoAddress(0, 0, 0, 0)
  const BLANK: Context := Context(Config(BLANK_ADDRESS, "", "", "", "", "", false, [], "in", "in", "out", 0), None)

  function Starting(plan: seq<Item>, files: map<string, Source>): Side {
    Side(Setup(BLANK, plan, files, "in"),
         State([], None, Reception(None, "", "", 0, 0, map[], map[], [], {}, 0, 0), Dispatch(files, map[], map[], 0, 0),
               false, false, []),
         Idle(0), [], 0, Continue, {})
  }

  lemma StartingBegins(plan: seq<Item>, files: map<string, Source>)
    ensures Begins(Starting(plan, files))
  {
  }

  /** A plan in which only lines i and j name files that are there. */
  function PlanOfTwo(lines: seq<Line>, i: nat, j: nat): seq<Item> {
    seq(|lines|, k requires 0 <= k < |lines| =>
      Item(if k == i then "one" else if k == j then "two" else "none", lines[k].name, 0, lines[k].deleteAfter))
  }

  lemma SharedNameIsUnsafe(lines: seq<Line>, i: nat, j: nat)
    requires forall k :: 0 <= k < |lines| ==> CleanName(lines[k].name)
    requires i < j < |lines| && lines[i].name == lines[j].name && (lines[i].deleteAfter || lines[j].deleteAfter)
    ensures !SafeFor(lines)
  {
    var f, g := File(lines[i].name, "x", 0), File(lines[i].name, "y", 0);
    var plan, files := PlanOfTwo(lines, i, j), map["one" := Source("x", 0, NoFault), "two" := Source("y", 0, NoFault)];
    var x, y := Starting(plan, files), Starting([], map[]);
    StartingBegins(plan, files);
    StartingBegins([], map[]);
    assert plan[i].path == "one" && plan[j].path == "two";
    var x', y';
    if lines[j].deleteAfter {
      x', y' := SameNameLosesMail(x, y, i, j, f, g);
    } else {
      x', y' := LaterFileOverwrites(x, y, i, j, f, g);
    }
    var ws :| IsWay(ws, World(x, y), World(x', y'));
    assert IsRun(ws) && Sides(ws, x', y');
    assert forall k: nat :: k < |lines| ==> plan[k].Name() == lines[k].name;
    assert Uses(x'.setup, lines);
    assert Unkept(x', y', if lines[j].deleteAfter then plan[j].path else plan[i].path);
  }

  /** Deletion is safe in all runs, whatever the paths and contents of the files, exactly when
      every file to be deleted has its send name to itself. */
  lemma SafeExactlyWhenMarkedAlone(lines: seq<Line>)
    requires forall k :: 0 <= k < |lines| ==> CleanName(lines[k].name)
    ensures SafeFor(lines) <==> MarkedAlone(lines)
  {
    if MarkedAlone(lines) {
      forall ws, x, y, path | Sides(ws, x, y) && Uses(x.setup, lines)
        ensures !Unkept(x, y, path)
      {
        MarkedAloneIsWellSetUp(x.setup, lines);
        if path in x.setup.files && path !in x.s.tx.sources {
          var i := DeletionIsSafe(ws, x, y, path);
        }
      }
    } else {
      var i, j :| 0 <= i < |lines| && 0 <= j < |lines| && i != j && lines[i].deleteAfter && lines[i].name == lines[j].name;
      SharedNameIsUnsafe(lines, if i < j then i else j, if i < j then j else i);
    }
  }

  lemma MarkedAloneIsWellSetUp(u: Setup, lines: seq<Line>)
    requires Uses(u, lines) && MarkedAlone(lines)
    ensures WellSetUp(u)
  {
    forall i: nat | Exists(u, i) && u.plan[i].deleteAfter
      ensures Alone(u, i)
    {
      assert lines[i].deleteAfter && lines[i].name == u.plan[i].Name();
      assert forall j: nat :: Exists(u, j) ==> u.plan[j].Name() == lines[j].name;
    }
  }
}
