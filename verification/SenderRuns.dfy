/** The sequential sender of module Sending, step by step: whatever it does in one go, with
    any outcome, is one of the step sequences that module Peers interleaves with everything
    else. */
module SenderRuns {
  import opened GoStrings
  import opened Frames
  import opened SessionState
  import opened Sending
  import opened Peers
  import Transfer

  /** A sequence of sender steps from x to y. */
  ghost predicate IsPath(xs: seq<Side>, x: Side, y: Side) {
    && xs != [] && xs[0] == x && xs[|xs| - 1] == y
    && forall i :: 0 < i < |xs| ==> SenderStep(xs[i - 1], xs[i])
  }

  /** There is such a sequence. */
  ghost predicate Reaches(x: Side, y: Side) {
    exists xs :: IsPath(xs, x, y)
  }

  lemma ReachesItself(x: Side)
    ensures Reaches(x, x)
  {
    assert IsPath([x], x, x);
  }

  lemma ReachesNext(x: Side, y: Side)
    requires SenderStep(x, y)
    ensures Reaches(x, y)
  {
    assert IsPath([x, y], x, y);
  }

  lemma ReachesOn(x: Side, y: Side, z: Side)
    requires Reaches(x, y) && Reaches(y, z)
    ensures Reaches(x, z)
  {
    var xs :| IsPath(xs, x, y);
    var ys :| IsPath(ys, y, z);
    var zs := xs + ys[1..];
    forall i | 0 < i < |zs|
      ensures SenderStep(zs[i - 1], zs[i])
    {
      if i >= |xs| {
        assert zs[i] == ys[i - |xs| + 1] && zs[i - 1] == ys[i - |xs|];
      }
    }
    if |ys| > 1 {
      assert zs[|zs| - 1] == ys[|ys| - 1];
    }
    assert IsPath(zs, x, z);
  }

  /* ---- One file ---- */

  function At(x: Side, progress: Progress): Side {
    x.(progress := progress)
  }

  /** The side after some frames of the copy loop. */
  function Copied(x: Side, frames: seq<Frame>, rest: string): Side
    requires x.progress.Copying?
  {
    x.(s := x.s.(wire := x.s.wire + frames, tx := x.s.tx.(bytesSent := x.s.tx.bytesSent + TotalBytes(frames))),
       progress := x.progress.(rest := rest))
  }

  lemma FirstChunk(bytes: string, k: nat)
    requires bytes != "" && k == if |bytes| <= CHUNK then |bytes| else CHUNK
    ensures Chunks(bytes) == [Data(bytes[..k])] + Chunks(bytes[k..])
  {
    if k == |bytes| {
      assert bytes[..k] == bytes && bytes[k..] == "";
    }
  }

  lemma CopiedMore(x: Side, f: Frame, frames: seq<Frame>, between: string, rest: string)
    requires x.progress.Copying?
    ensures Copied(Copied(x, [f], between), frames, rest) == Copied(x, [f] + frames, rest)
  {
    Assoc(x.s.wire, [f], frames);
    Transfer.TotalBytesPrepend(f, frames);
    Transfer.TotalBytesPrepend(f, []);
    assert [f] + [] == [f];
  }

  /** The first m frames of the readable part of the file can be copied. */
  lemma {:induction false} CopySome(x: Side, bytes: string, m: nat) returns (y: Side)
    requires x.progress.Copying? && bytes <= x.progress.rest && m <= |Chunks(bytes)|
    ensures Reaches(x, y) && exists rest :: y == Copied(x, Chunks(bytes)[..m], rest)
    ensures m == |Chunks(bytes)| ==> y == Copied(x, Chunks(bytes), x.progress.rest[|bytes|..])
    decreases m
  {
    if m == 0 {
      y := x;
      assert x.s.wire + [] == x.s.wire && Chunks(bytes)[..0] == [];
      assert y == Copied(x, [], x.progress.rest);
      assert bytes == "" ==> x.progress.rest[|bytes|..] == x.progress.rest;
      ReachesItself(x);
    } else {
      var k := if |bytes| <= CHUNK then |bytes| else CHUNK;
      FirstChunk(bytes, k);
      var f, later := Data(bytes[..k]), Chunks(bytes[k..]);
      var z := Copied(x, [f], x.progress.rest[k..]);
      OneChunkIsAStep(x, bytes, k);
      ReachesNext(x, z);
      y := CopySome(z, bytes[k..], m - 1);
      var rest :| y == Copied(z, later[..m - 1], rest);
      CopiedMore(x, f, later[..m - 1], x.progress.rest[k..], rest);
      assert Chunks(bytes)[..m] == [f] + later[..m - 1];
      if m == |Chunks(bytes)| {
        assert later[..m - 1] == later;
        CopiedMore(x, f, later, x.progress.rest[k..], z.progress.rest[|bytes[k..]|..]);
        assert z.progress.rest[|bytes| - k..] == x.progress.rest[|bytes|..];
      }
      ReachesOn(x, z, y);
    }
  }

  lemma OneChunkIsAStep(x: Side, bytes: string, k: nat)
    requires x.progress.Copying? && bytes <= x.progress.rest && 0 < k <= CHUNK && k <= |bytes|
    ensures SenderStep(x, Copied(x, [Data(bytes[..k])], x.progress.rest[k..]))
    ensures bytes[k..] <= x.progress.rest[k..]
  {
    var f := Data(bytes[..k]);
    assert x.progress.rest[..k] == bytes[..k];
    assert TotalBytes([f]) == k by {
      Transfer.TotalBytesPrepend(f, []);
      assert [f] + [] == [f];
    }
    assert Copies(x, Copied(x, [f], x.progress.rest[k..]), k);
  }

  function NotedItem(x: Side, item: Item): Side
    requires x.progress.Idle? && item.path in x.s.tx.sources
  {
    x.(s := x.s.(tx := x.s.tx.(sent := x.s.tx.sent[item.Name() := SentInfo(item.path, item.deleteAfter)])),
       progress := Noted(x.progress.next, x.s.tx.sources[item.path]))
  }

  function AnnouncedItem(x: Side, item: Item): Side
    requires x.progress.Idle? && item.path in x.s.tx.sources
  {
    var src, y := x.s.tx.sources[item.path], NotedItem(x, item);
    y.(s := y.s.(wire := y.s.wire + [FileFrame(item.Name(), |src.content|, src.mtime, item.offset)]),
       progress := Opening(x.progress.next), announced := y.announced + {x.progress.next})
  }

  lemma NoteItem(x: Side, item: Item)
    requires x.progress.Idle? && x.progress.next < |x.setup.plan| && x.setup.plan[x.progress.next] == item
    requires item.path in x.s.tx.sources
    ensures Reaches(x, NotedItem(x, item))
  {
    var found := At(x, Found(x.progress.next, x.s.tx.sources[item.path]));
    assert Stats(x, found) && Notes(found, NotedItem(x, item));
    ReachesNext(x, found);
    ReachesNext(found, NotedItem(x, item));
    ReachesOn(x, found, NotedItem(x, item));
  }

  lemma AnnounceItem(x: Side, item: Item)
    requires x.progress.Idle? && x.progress.next < |x.setup.plan| && x.setup.plan[x.progress.next] == item
    requires item.path in x.s.tx.sources
    ensures Reaches(x, AnnouncedItem(x, item))
  {
    NoteItem(x, item);
    assert Announces(NotedItem(x, item), AnnouncedItem(x, item));
    ReachesNext(NotedItem(x, item), AnnouncedItem(x, item));
    ReachesOn(x, NotedItem(x, item), AnnouncedItem(x, item));
  }

  /** A file that cannot be opened: its announcement at most; one that has vanished is skipped. */
  lemma UnopenedRun(x: Side, item: Item, src: Source, capacity: nat, n: nat) returns (y: Side)
    requires x.progress.Idle? && x.progress.next < |x.setup.plan| && x.setup.plan[x.progress.next] == item
    requires item.path in x.s.tx.sources && x.s.tx.sources[item.path] == src && src.fault != StatDenied
    requires |x.s.wire| <= capacity && n == Fitting(x.s, ItemFrames(x.s.tx.sources, item), capacity)
    requires n == 0 || CannotOpen(src, item.offset)
    ensures Reaches(x, y) && SendFile(x.s, item, capacity).state == y.s
    ensures SendFile(x.s, item, capacity).status != Sent
    ensures SendFile(x.s, item, capacity).status == Missing ==> y.progress == Idle(x.progress.next + 1)
  {
    SendFileIs(x.s, item, src, capacity, n);
    var frames := ItemFrames(x.s.tx.sources, item);
    if n == 0 {
      y := NotedItem(x, item);
      NoteItem(x, item);
      assert x.s.wire + frames[..0] == x.s.wire;
    } else {
      y := AnnouncedItem(x, item);
      AnnounceItem(x, item);
      assert frames[..1] == frames && frames[1..1] == [];
      if src.fault == OpenVanished {
        var z := At(y, Idle(x.progress.next + 1));
        assert Opens(y, z);
        ReachesNext(y, z);
        ReachesOn(x, y, z);
        y := z;
      }
    }
  }

  function OpenedItem(x: Side, item: Item): Side
    requires x.progress.Idle? && item.path in x.s.tx.sources
  {
    At(AnnouncedItem(x, item), Copying(x.progress.next, From(x.s.tx.sources[item.path].content, item.offset)))
  }

  lemma OpenItem(x: Side, item: Item)
    requires x.progress.Idle? && x.progress.next < |x.setup.plan| && x.setup.plan[x.progress.next] == item
    requires IsThere(x.s.tx.sources, item.path)
    ensures Reaches(x, OpenedItem(x, item))
  {
    AnnounceItem(x, item);
    assert Opens(AnnouncedItem(x, item), OpenedItem(x, item));
    ReachesNext(AnnouncedItem(x, item), OpenedItem(x, item));
    ReachesOn(x, AnnouncedItem(x, item), OpenedItem(x, item));
  }

  /** The frames of a file that is opened, as far as the connection takes them. */
  lemma OpenedFrames(wire: seq<Frame>, sources: map<string, Source>, item: Item, n: nat)
    requires item.path in sources && sources[item.path].fault != StatDenied && !CannotOpen(sources[item.path], item.offset)
    requires 0 < n <= |ItemFrames(sources, item)|
    ensures var src, frames := sources[item.path], ItemFrames(sources, item);
            var announce := FileFrame(item.Name(), |src.content|, src.mtime, item.offset);
            var data := Chunks(Readable(src, item.offset));
            && n - 1 <= |data| && |frames| == 1 + |data| && frames[1..n] == data[..n - 1]
            && wire + frames[..n] == wire + [announce] + data[..n - 1]
            && Readable(src, item.offset) <= From(src.content, item.offset)
  {
    var src, frames := sources[item.path], ItemFrames(sources, item);
    var announce := FileFrame(item.Name(), |src.content|, src.mtime, item.offset);
    var data := Chunks(Readable(src, item.offset));
    assert frames == [announce] + data;
    assert frames[..n] == [announce] + data[..n - 1] && frames[1..n] == data[..n - 1];
    Assoc(wire, [announce], data[..n - 1]);
  }

  /** A file that is opened: its announcement, and then as much as can be read and written. */
  lemma OpenedRun(x: Side, item: Item, src: Source, capacity: nat, n: nat) returns (y: Side)
    requires x.progress.Idle? && x.progress.next < |x.setup.plan| && x.setup.plan[x.progress.next] == item
    requires item.path in x.s.tx.sources && x.s.tx.sources[item.path] == src && src.fault != StatDenied
    requires |x.s.wire| <= capacity && n == Fitting(x.s, ItemFrames(x.s.tx.sources, item), capacity)
    requires n > 0 && !CannotOpen(src, item.offset)
    ensures Reaches(x, y) && SendFile(x.s, item, capacity).state == y.s
    ensures SendFile(x.s, item, capacity).status == Sent ==> y.progress == Idle(x.progress.next + 1)
    ensures SendFile(x.s, item, capacity).status != Missing
  {
    SendFileIs(x.s, item, src, capacity, n);
    OpenedFrames(x.s.wire, x.s.tx.sources, item, n);
    var bytes, z := Readable(src, item.offset), OpenedItem(x, item);
    OpenItem(x, item);
    y := CopySome(z, bytes, n - 1);
    ReachesOn(x, z, y);
    if SendFile(x.s, item, capacity).status == Sent {
      y := EndOfFile(x, y);
    }
  }

  /** The end of the file is reached, and the file counted. */
  lemma EndOfFile(x: Side, y: Side) returns (z: Side)
    requires Reaches(x, y) && y.progress.Copying? && y.progress.rest == ""
    ensures Reaches(x, z) && z.s == y.s.(tx := y.s.tx.(filesSent := y.s.tx.filesSent + 1))
    ensures z.progress == Idle(y.progress.next + 1)
  {
    z := y.(s := y.s.(tx := y.s.tx.(filesSent := y.s.tx.filesSent + 1)), progress := Idle(y.progress.next + 1));
    assert Quietly(y, z);
    ReachesNext(y, z);
    ReachesOn(x, y, z);
  }

  /** sendFile, with every outcome. */
  lemma FileRun(x: Side, item: Item, capacity: nat) returns (y: Side)
    requires x.progress.Idle? && x.progress.next < |x.setup.plan| && x.setup.plan[x.progress.next] == item
    requires |x.s.wire| <= capacity
    ensures Reaches(x, y) && SendFile(x.s, item, capacity).state == y.s
    ensures SendFile(x.s, item, capacity).status != Aborted ==> y.progress == Idle(x.progress.next + 1)
  {
    if item.path !in x.s.tx.sources {
      y := At(x, Idle(x.progress.next + 1));
      assert Stats(x, y) && x.s.wire + [] == x.s.wire;
      ReachesNext(x, y);
    } else {
      var src := x.s.tx.sources[item.path];
      if src.fault == StatDenied {
        y := x;
        assert x.s.wire + [] == x.s.wire;
        ReachesItself(x);
      } else {
        var n := Fitting(x.s, ItemFrames(x.s.tx.sources, item), capacity);
        if n == 0 || CannotOpen(src, item.offset) {
          y := UnopenedRun(x, item, src, capacity, n);
        } else {
          y := OpenedRun(x, item, src, capacity, n);
        }
      }
    }
  }

  /* ---- The whole sender ---- */

  /** The plan of the side goes on with these items. */
  ghost predicate Plans(x: Side, items: seq<Item>) {
    && x.progress.Idle? && x.progress.next + |items| <= |x.setup.plan|
    && x.setup.plan[x.progress.next..x.progress.next + |items|] == items
  }

  lemma PlansParts(x: Side, a: seq<Item>, b: seq<Item>)
    requires Plans(x, a + b)
    ensures Plans(x, a)
    ensures forall y: Side :: && y.setup == x.setup && y.progress == Idle(x.progress.next + |a|)
                              && y.s.tx.sources == x.s.tx.sources
                              ==> Plans(y, b)
  {
    var k, plan := x.progress.next, x.setup.plan;
    assert plan[k..k + |a|] == (a + b)[..|a|] == a;
    assert plan[k + |a|..k + |a| + |b|] == (a + b)[|a|..] == b;
  }

  /** From x the sender gets to a side with the result's state, and past the items if the
      result is a success. */
  ghost predicate Yields(x: Side, y: Side, r: SendResult, items: nat) {
    && Reaches(x, y) && y.setup == x.setup && y.s == r.state && y.s.tx.sources == x.s.tx.sources
    && (r.status == Sent ==> x.progress.Idle? && y.progress == Idle(x.progress.next + items))
  }

  /** The first of the items. */
  lemma ItemRun(x: Side, items: seq<Item>, tolerant: bool, capacity: nat) returns (y: Side)
    requires items != [] && Plans(x, items) && |x.s.wire| <= capacity
    ensures var r := SendFile(x.s, items[0], capacity);
            && Reaches(x, y) && y.setup == x.setup && y.s == r.state && y.s.tx.sources == x.s.tx.sources
            && |y.s.wire| <= capacity
            && (Passes(r, tolerant) ==> y.progress == Idle(x.progress.next + 1) && Plans(y, items[1..]))
  {
    assert items == [items[0]] + items[1..];
    PlansParts(x, [items[0]], items[1..]);
    SendFileSummary(x.s, items[0], tolerant, capacity);
    y := FileRun(x, items[0], capacity);
    PathKeepsSetup(x, y);
  }

  lemma {:induction false} ItemsRun(x: Side, items: seq<Item>, tolerant: bool, capacity: nat) returns (y: Side)
    requires Plans(x, items) && |x.s.wire| <= capacity
    ensures Yields(x, y, SendItems(x.s, items, tolerant, capacity), |items|) && |y.s.wire| <= capacity
    decreases |items|
  {
    if items == [] {
      y := x;
      ReachesItself(x);
    } else {
      y := ItemRun(x, items, tolerant, capacity);
      if Passes(SendFile(x.s, items[0], capacity), tolerant) {
        var z := ItemsRun(y, items[1..], tolerant, capacity);
        ReachesOn(x, y, z);
        y := z;
      }
    }
  }

  lemma PathKeepsSetup(x: Side, y: Side)
    requires Reaches(x, y)
    ensures y.setup == x.setup
  {
    var xs: seq<Side> :| IsPath(xs, x, y);
    var i := 0;
    while i < |xs| - 1
      invariant 0 <= i < |xs| && xs[i].setup == x.setup
    {
      assert SenderStep(xs[i], xs[i + 1]);
      i := i + 1;
    }
  }

  lemma FlowRun(x: Side, flow: string, capacity: nat) returns (y: Side)
    requires |x.s.wire| <= capacity
    requires flow in x.s.tx.flows && Plans(x, FlowItems(Scannable(RawLines(x.s.tx.flows[flow]))))
    ensures Yields(x, y, SendFlow(x.s, flow, capacity), |FlowItems(Scannable(RawLines(x.s.tx.flows[flow])))|)
    ensures |y.s.wire| <= capacity
  {
    y := ItemsRun(x, FlowItems(Scannable(RawLines(x.s.tx.flows[flow]))), true, capacity);
    if SendItems(x.s, FlowItems(Scannable(RawLines(x.s.tx.flows[flow]))), true, capacity).status == Sent {
      var z := y.(s := y.s.(tx := y.s.tx.(flows := y.s.tx.flows - {flow})));
      assert Quietly(y, z);
      ReachesNext(y, z);
      ReachesOn(x, y, z);
      y := z;
    }
  }

  lemma {:induction false} FlowsRun(x: Side, flows: seq<string>, capacity: nat) returns (y: Side)
    requires |x.s.wire| <= capacity && Plans(x, PlanFlows(x.s.tx.flows, flows))
    ensures Yields(x, y, SendFlows(x.s, flows, capacity), |PlanFlows(x.s.tx.flows, flows)|) && |y.s.wire| <= capacity
    ensures SendFlows(x.s, flows, capacity).status == Sent ==> y.s.tx.flows == x.s.tx.flows - Names(flows)
    decreases |flows|
  {
    if flows == [] {
      y := x;
      assert x.s.tx.flows == x.s.tx.flows - Names(flows);
      ReachesItself(x);
    } else {
      NamesOf(x.s.tx.flows, flows);
      if flows[0] !in x.s.tx.flows {
        y := FlowsRun(x, flows[1..], capacity);
      } else {
        var now := FlowItems(Scannable(RawLines(x.s.tx.flows[flows[0]])));
        PlansParts(x, now, PlanFlows(x.s.tx.flows - {flows[0]}, flows[1..]));
        y := FlowRun(x, flows[0], capacity);
        if SendFlow(x.s, flows[0], capacity).status == Sent {
          FlowLeaves(x.s, flows[0], capacity);
          var z := FlowsRun(y, flows[1..], capacity);
          ReachesOn(x, y, z);
          y := z;
        }
      }
    }
  }

  lemma NamesOf(all: map<string, string>, flows: seq<string>)
    requires flows != []
    ensures all - Names(flows) == all - {flows[0]} - Names(flows[1..])
    ensures flows[0] !in all ==> all - {flows[0]} == all
  {
    assert Names(flows) == {flows[0]} + Names(flows[1..]);
  }

  lemma FlowLeaves(s: State, flow: string, capacity: nat)
    requires flow in s.tx.flows && |s.wire| <= capacity && SendFlow(s, flow, capacity).status == Sent
    ensures SendFlow(s, flow, capacity).state.tx.flows == s.tx.flows - {flow}
  {
    var n := SendItemsPrefix(s, FlowItems(Scannable(RawLines(s.tx.flows[flow]))), true, capacity);
  }

  lemma AddressRun(x: Side, m: Mail, capacity: nat) returns (y: Side)
    requires |x.s.wire| <= capacity && Plans(x, m.netmail + PlanFlows(x.s.tx.flows, m.flows))
    ensures Yields(x, y, SendAddress(x.s, m, capacity), |m.netmail + PlanFlows(x.s.tx.flows, m.flows)|)
    ensures |y.s.wire| <= capacity
    ensures SendAddress(x.s, m, capacity).status == Sent ==> y.s.tx.flows == x.s.tx.flows - Names(m.flows)
  {
    PlansParts(x, m.netmail, PlanFlows(x.s.tx.flows, m.flows));
    var n := SendItemsPrefix(x.s, m.netmail, true, capacity);
    y := ItemsRun(x, m.netmail, true, capacity);
    if SendItems(x.s, m.netmail, true, capacity).status == Sent {
      var z := FlowsRun(y, m.flows, capacity);
      ReachesOn(x, y, z);
      y := z;
    }
  }

  lemma {:induction false} MailRun(x: Side, mail: seq<Mail>, capacity: nat) returns (y: Side)
    requires |x.s.wire| <= capacity && Plans(x, Plan(x.s.tx.flows, mail))
    ensures Yields(x, y, SendMail(x.s, mail, capacity), |Plan(x.s.tx.flows, mail)|) && |y.s.wire| <= capacity
    decreases |mail|
  {
    if mail == [] {
      y := x;
      ReachesItself(x);
    } else {
      var now := mail[0].netmail + PlanFlows(x.s.tx.flows, mail[0].flows);
      PlansParts(x, now, Plan(x.s.tx.flows - Names(mail[0].flows), mail[1..]));
      y := AddressRun(x, mail[0], capacity);
      if SendAddress(x.s, mail[0], capacity).status == Sent {
        var z := MailRun(y, mail[1..], capacity);
        ReachesOn(x, y, z);
        y := z;
      }
    }
  }

  lemma QueueRun(x: Side, requested: seq<Item>, mail: seq<Mail>, capacity: nat) returns (y: Side)
    requires |x.s.wire| <= capacity && Plans(x, requested + Plan(x.s.tx.flows, mail))
    ensures Yields(x, y, SendQueue(x.s, requested, mail, capacity), |requested + Plan(x.s.tx.flows, mail)|)
    ensures |y.s.wire| <= capacity
  {
    PlansParts(x, requested, Plan(x.s.tx.flows, mail));
    var n := SendItemsPrefix(x.s, requested, false, capacity);
    y := ItemsRun(x, requested, false, capacity);
    if SendItems(x.s, requested, false, capacity).status == Sent {
      var z := MailRun(y, mail, capacity);
      ReachesOn(x, y, z);
      y := z;
    }
  }

  /** What a session will try to send: nothing if it refuses. */
  function PlanOf(ctx: Context, s: State, requested: seq<Item>, mail: seq<Mail>): seq<Item> {
    if RefusesToSend(ctx, s) then [] else requested + Plan(s.tx.flows, mail)
  }

  lemma EndRun(x: Side, y: Side) returns (z: Side)
    requires Reaches(x, y) && y.progress == Idle(|y.setup.plan|)
    ensures Reaches(x, z) && z.s == Write(y.s, EOB_FRAME) && z.progress == Ended
  {
    z := Wrote(y, EOB_FRAME).(progress := Ended);
    assert EndsSending(y, z);
    ReachesNext(y, z);
    ReachesOn(x, y, z);
  }

  /** sendFiles with requests, netmail and flow files, wherever it fails or ends: its outcome
      is the end of a run of the interleaved sender, so nothing it does is left out of the
      results about all interleavings. */
  lemma SendingIsARun(x: Side, requested: seq<Item>, mail: seq<Mail>, capacity: nat) returns (y: Side)
    requires x.progress == Idle(0) && |x.s.wire| <= capacity
    requires var settled := x.s.(activeLink := Settled(x.setup.ctx, x.s.remoteAddrs, x.s.activeLink));
             x.setup.plan == PlanOf(x.setup.ctx, settled, requested, mail)
    ensures var r := SendFiles(x.setup.ctx, x.s, requested, mail, capacity);
            Reaches(x, y) && y.s == r.state && (r.status == Sent ==> y.progress == Ended)
  {
    var ctx := x.setup.ctx;
    var settled := x.(s := x.s.(activeLink := Settled(ctx, x.s.remoteAddrs, x.s.activeLink)));
    assert Quietly(x, settled);
    ReachesNext(x, settled);
    if RefusesToSend(ctx, settled.s) {
      y := settled;
      if CanWrite(settled.s, capacity) {
        y := EndRun(x, settled);
      }
    } else {
      assert x.setup.plan[0..|x.setup.plan|] == x.setup.plan;
      y := QueueRun(settled, requested, mail, capacity);
      ReachesOn(x, settled, y);
      if SendQueue(settled.s, requested, mail, capacity).status == Sent && CanWrite(y.s, capacity) {
        y := EndRun(x, y);
      }
    }
  }
}
