/** The sending half of binkp/session.go: files, flow files and the whole outbound
    queue, over a connection that may fail after any number of frames. */
module Sending {
  import opened GoStrings
  import opened Frames
  import opened SessionState

  const CHUNK: nat := 4096

  /** A file to send: RequestedFile, a netmail item or a line of a flow file. */
  datatype Item = Item(path: string, sendAs: string, offset: int, deleteAfter: bool) {
    function Name(): string {
      if sendAs == "" then Base(path) else sendAs
    }
  }

  datatype SendStatus = Sent | Missing | Aborted

  datatype SendResult = SendResult(state: State, status: SendStatus)

  function FileFrame(name: string, size: nat, mtime: int, offset: int): Frame {
    Cmd(M_FILE, Join([name, Decimal(size), SignedDecimal(mtime), SignedDecimal(offset)]))
  }

  const EOB_FRAME: Frame := Cmd(M_EOB, "")

  function Chunks(bytes: string): (frames: seq<Frame>)
    ensures forall i :: 0 <= i < |frames| ==> !frames[i].isCmd && 0 < |frames[i].payload| <= CHUNK
  {
    if bytes == "" then []
    else if |bytes| <= CHUNK then [Data(bytes)]
    else [Data(bytes[..CHUNK])] + Chunks(bytes[CHUNK..])
  }

  /** The bytes of a file from a position on; seeking past the end finds none. */
  function From(content: string, offset: int): string {
    if offset <= 0 then content else if offset > |content| then "" else content[offset..]
  }

  /** conn.Write of one frame; the connection takes capacity frames in all. */
  predicate CanWrite(s: State, capacity: nat) {
    |s.wire| < capacity
  }

  function Write(s: State, f: Frame): State {
    s.(wire := s.wire + [f])
  }

  /** How many of the frames the connection still takes. */
  function Fitting(s: State, frames: seq<Frame>, capacity: nat): (n: nat)
    ensures n <= |frames|
  {
    if |s.wire| + |frames| <= capacity then |frames|
    else if |s.wire| < capacity then capacity - |s.wire|
    else 0
  }

  function TotalBytes(frames: seq<Frame>): nat {
    if frames == [] then 0 else TotalBytes(frames[..|frames| - 1]) + |frames[|frames| - 1].payload|
  }

  /** The part of the file that can be read before a read error. */
  function Readable(src: Source, offset: int): string {
    var bytes := From(src.content, offset);
    if src.fault.ReadFails? && src.fault.readable < |bytes| then bytes[..src.fault.readable] else bytes
  }

  predicate CannotOpen(src: Source, offset: int) {
    src.fault == OpenVanished || src.fault == OpenDenied || (offset > 0 && src.fault == SeekFails)
  }

  /** The frames sendFile tries to write: the announcement and what can be read of the
      file, only the announcement when it cannot be opened, nothing when it is missing. */
  function ItemFrames(sources: map<string, Source>, item: Item): seq<Frame> {
    if item.path !in sources || sources[item.path].fault == StatDenied then []
    else
      var src := sources[item.path];
      var announce := [FileFrame(item.Name(), |src.content|, src.mtime, item.offset)];
      if CannotOpen(src, item.offset) then announce
      else announce + Chunks(Readable(src, item.offset))
  }

  /** Nothing hinders the file from going out whole. */
  predicate SentInFull(sources: map<string, Source>, item: Item) {
    && item.path in sources
    && (sources[item.path].fault == NoFault || (sources[item.path].fault == SeekFails && item.offset <= 0))
  }

  /** The file is missing, either when its size is looked up or when it is opened. */
  predicate NamesMissingFile(sources: map<string, Source>, item: Item) {
    item.path !in sources || sources[item.path].fault == OpenVanished
  }

  /** sendFile: the name is remembered, then the frames are written in order until the
      connection fails. */
  function SendFile(s: State, item: Item, capacity: nat): SendResult {
    var frames := ItemFrames(s.tx.sources, item);
    var n := Fitting(s, frames, capacity);
    var known := if frames == [] then s.tx.sent else s.tx.sent[item.Name() := SentInfo(item.path, item.deleteAfter)];
    var full := SentInFull(s.tx.sources, item) && n == |frames|;
    SendResult(
      s.(wire := s.wire + frames[..n],
         tx := s.tx.(
         sent := known,
         bytesSent := s.tx.bytesSent + (if n == 0 then 0 else TotalBytes(frames[1..n])),
         filesSent := if full then s.tx.filesSent + 1 else s.tx.filesSent)),
      if full then Sent else if NamesMissingFile(s.tx.sources, item) && n == |frames| then Missing else Aborted)
  }

  /** sendFile, given how many of its frames the connection took. */
  lemma SendFileIs(s: State, item: Item, src: Source, capacity: nat, n: nat)
    requires item.path in s.tx.sources && s.tx.sources[item.path] == src && src.fault != StatDenied
    requires |s.wire| <= capacity && n == Fitting(s, ItemFrames(s.tx.sources, item), capacity)
    ensures var frames, r := ItemFrames(s.tx.sources, item), SendFile(s, item, capacity);
            && r.state.wire == s.wire + frames[..n]
            && r.state.tx.sources == s.tx.sources && r.state.tx.flows == s.tx.flows
            && r.state.tx.sent == s.tx.sent[item.Name() := SentInfo(item.path, item.deleteAfter)]
            && r.state.tx.bytesSent == s.tx.bytesSent + (if n == 0 then 0 else TotalBytes(frames[1..n]))
            && r.state.tx.filesSent == s.tx.filesSent + (if r.status == Sent then 1 else 0)
            && r.status == if n < |frames| then Aborted
                           else if src.fault == OpenVanished then Missing
                           else if CannotOpen(src, item.offset) || src.fault.ReadFails? then Aborted
                           else Sent
  {
  }

  /** A run of items; a missing file is skipped when the caller tolerates it. */
  function SendItems(s: State, items: seq<Item>, tolerant: bool, capacity: nat): SendResult
    decreases |items|
  {
    if items == [] then SendResult(s, Sent)
    else
      var r := SendFile(s, items[0], capacity);
      if r.status == Sent || (tolerant && r.status == Missing) then SendItems(r.state, items[1..], tolerant, capacity)
      else SendResult(r.state, Aborted)
  }

  /** One line of a flow file: blank lines and comments name nothing, a caret marks a file
      for deletion after it has been sent. */
  function LineItem(rawLine: string): Option<Item> {
    var line := TrimSpace(rawLine);
    if line == "" || HasPrefix(line, "#") then None
    else if HasPrefix(line, "^") then Some(Item(line[1..], "", 0, true))
    else Some(Item(line, "", 0, false))
  }

  function FlowItems(lines: seq<string>): seq<Item> {
    if lines == [] then []
    else
      match LineItem(lines[0])
      case None => FlowItems(lines[1..])
      case Some(item) => [item] + FlowItems(lines[1..])
  }

  /** processFlowFile: the scanner's own error is not looked at. */
  function SendFlow(s: State, flow: string, capacity: nat): SendResult {
    if flow !in s.tx.flows then SendResult(s, Sent)
    else
      var r := SendItems(s, FlowItems(Scannable(RawLines(s.tx.flows[flow]))), true, capacity);
      if r.status == Sent then SendResult(r.state.(tx := r.state.tx.(flows := r.state.tx.flows - {flow})), Sent) else r
  }

  function SendFlows(s: State, flows: seq<string>, capacity: nat): SendResult
    decreases |flows|
  {
    if flows == [] then SendResult(s, Sent)
    else
      var r := SendFlow(s, flows[0], capacity);
      if r.status == Sent then SendFlows(r.state, flows[1..], capacity) else r
  }

  /** The mail waiting for one address: packets with their made-up names, flow files. */
  datatype Mail = Mail(netmail: seq<Item>, flows: seq<string>)

  function SendAddress(s: State, m: Mail, capacity: nat): SendResult {
    var r := SendItems(s, m.netmail, true, capacity);
    if r.status == Sent then SendFlows(r.state, m.flows, capacity) else r
  }

  function SendMail(s: State, mail: seq<Mail>, capacity: nat): SendResult
    decreases |mail|
  {
    if mail == [] then SendResult(s, Sent)
    else
      var r := SendAddress(s, mail[0], capacity);
      if r.status == Sent then SendMail(r.state, mail[1..], capacity) else r
  }

  /** sendFiles, for the requests queued when it starts and the mail of each address. */
  function SendFiles(ctx: Context, s: State, requested: seq<Item>, mail: seq<Mail>, capacity: nat): SendResult {
    SendSettled(ctx, s.(activeLink := Settled(ctx, s.remoteAddrs, s.activeLink)), requested, mail, capacity)
  }

  /** The session is insecure and the configuration forbids sending. */
  predicate RefusesToSend(ctx: Context, s: State) {
    ctx.cfg.refuseInsecureSending && s.activeLink.None? && ctx.remoteLink.None?
  }

  function SendSettled(ctx: Context, s: State, requested: seq<Item>, mail: seq<Mail>, capacity: nat): SendResult {
    if RefusesToSend(ctx, s) then SendResult(if CanWrite(s, capacity) then Write(s, EOB_FRAME) else s, Aborted)
    else
      var r := SendQueue(s, requested, mail, capacity);
      if r.status == Sent && CanWrite(r.state, capacity) then SendResult(Write(r.state, EOB_FRAME), Sent)
      else SendResult(r.state, Aborted)
  }

  function SendQueue(s: State, requested: seq<Item>, mail: seq<Mail>, capacity: nat): SendResult {
    var r := SendItems(s, requested, false, capacity);
    if r.status == Sent then SendMail(r.state, mail, capacity) else r
  }

  /* ---- What the sender puts on the wire ---- */

  function ItemsFrames(sources: map<string, Source>, items: seq<Item>): seq<Frame> {
    if items == [] then [] else ItemFrames(sources, items[0]) + ItemsFrames(sources, items[1..])
  }

  /** The item goes out whole, or is missing and may be skipped. */
  predicate Passable(sources: map<string, Source>, item: Item, tolerant: bool) {
    SentInFull(sources, item) || (tolerant && NamesMissingFile(sources, item))
  }

  /** What an item that goes out whole contributes: every byte from its offset on. */
  lemma FullFrames(sources: map<string, Source>, item: Item)
    requires SentInFull(sources, item)
    ensures var src := sources[item.path];
            ItemFrames(sources, item)
            == [FileFrame(item.Name(), |src.content|, src.mtime, item.offset)] + Chunks(From(src.content, item.offset))
  {
  }

  /** The loop over items goes on after this one. */
  predicate Passes(r: SendResult, tolerant: bool) {
    r.status == Sent || (tolerant && r.status == Missing)
  }

  /** One turn of the loop over items. */
  lemma SendItemsStep(s: State, items: seq<Item>, i: nat, tolerant: bool, capacity: nat)
    requires i < |items|
    ensures var r := SendFile(s, items[i], capacity);
            SendItems(s, items[i..], tolerant, capacity)
            == if Passes(r, tolerant) then SendItems(r.state, items[i + 1..], tolerant, capacity)
               else SendResult(r.state, Aborted)
  {
    assert items[i..][0] == items[i] && items[i..][1..] == items[i + 1..];
  }

  lemma SendFileSummary(s: State, item: Item, tolerant: bool, capacity: nat)
    requires |s.wire| <= capacity
    ensures var r, frames := SendFile(s, item, capacity), ItemFrames(s.tx.sources, item);
            var n := Fitting(s, frames, capacity);
            && r.state.wire == s.wire + frames[..n] && |r.state.wire| <= capacity
            && r.state.tx.sources == s.tx.sources && r.state.tx.flows == s.tx.flows
            && (Passes(r, tolerant) <==> Passable(s.tx.sources, item, tolerant) && n == |frames|)
  {
  }

  /** The wire grew by the first n of the frames. */
  predicate Grew(before: seq<Frame>, after: seq<Frame>, frames: seq<Frame>, n: nat) {
    n <= |frames| && after == before + frames[..n]
  }

  lemma GrewMore(w0: seq<Frame>, w1: seq<Frame>, w2: seq<Frame>, a: seq<Frame>, b: seq<Frame>, m: nat)
    requires Grew(w0, w1, a, |a|) && Grew(w1, w2, b, m)
    ensures Grew(w0, w2, a + b, |a| + m)
  {
    assert (a + b)[..|a| + m] == a + b[..m];
    assert a[..|a|] == a;
  }

  lemma GrewLess(w0: seq<Frame>, w1: seq<Frame>, a: seq<Frame>, b: seq<Frame>, n: nat)
    requires Grew(w0, w1, a, n)
    ensures Grew(w0, w1, a + b, n)
  {
    assert (a + b)[..n] == a[..n];
  }

  /** A run of items puts a prefix of their frames on the wire, in order. */
  lemma {:induction false} SendItemsPrefix(s: State, items: seq<Item>, tolerant: bool, capacity: nat) returns (n: nat)
    requires |s.wire| <= capacity
    ensures var r, frames := SendItems(s, items, tolerant, capacity), ItemsFrames(s.tx.sources, items);
            && Grew(s.wire, r.state.wire, frames, n) && |r.state.wire| <= capacity
            && r.state.tx.sources == s.tx.sources && r.state.tx.flows == s.tx.flows
            && r.status != Missing && (r.status == Sent ==> n == |frames|)
    decreases |items|
  {
    n := 0;
    if items != [] {
      var first, rest := ItemFrames(s.tx.sources, items[0]), ItemsFrames(s.tx.sources, items[1..]);
      var r := SendFile(s, items[0], capacity);
      SendFileSummary(s, items[0], tolerant, capacity);
      n := Fitting(s, first, capacity);
      if Passes(r, tolerant) {
        var m := SendItemsPrefix(r.state, items[1..], tolerant, capacity);
        GrewMore(s.wire, r.state.wire, SendItems(r.state, items[1..], tolerant, capacity).state.wire, first, rest, m);
        n := n + m;
      } else {
        GrewLess(s.wire, r.state.wire, first, rest, n);
      }
    }
  }

  /** It ends well exactly when every item may pass and the connection takes all frames. */
  lemma {:induction false} SendItemsSucceeds(s: State, items: seq<Item>, tolerant: bool, capacity: nat)
    requires |s.wire| <= capacity
    ensures SendItems(s, items, tolerant, capacity).status == Sent
            <==> && |s.wire| + |ItemsFrames(s.tx.sources, items)| <= capacity
                 && forall i :: 0 <= i < |items| ==> Passable(s.tx.sources, items[i], tolerant)
    decreases |items|
  {
    if items != [] {
      var first := ItemFrames(s.tx.sources, items[0]);
      var r := SendFile(s, items[0], capacity);
      SendFileSummary(s, items[0], tolerant, capacity);
      assert forall i :: 1 <= i < |items| ==> items[i] == items[1..][i - 1];
      if Passes(r, tolerant) {
        SendItemsSucceeds(r.state, items[1..], tolerant, capacity);
        assert forall i :: 0 <= i < |items[1..]| ==> items[1..][i] == items[i + 1];
      }
    }
  }

  /* ---- Flow files ---- */

  lemma {:induction false} FlowItemsAppend(a: seq<string>, b: seq<string>)
    ensures FlowItems(a + b) == FlowItems(a) + FlowItems(b)
  {
    if a == [] {
      assert a + b == b;
    } else {
      assert (a + b)[1..] == a[1..] + b;
      FlowItemsAppend(a[1..], b);
    }
  }

  /** The lines of a flow file that the scanner never delivers. */
  function Unscanned(content: string): seq<string> {
    RawLines(content)[|Scannable(RawLines(content))|..]
  }

  /** A flow file is removed exactly when the connection took the frames of every scanned
      line and each of them was sent in full or named a missing file; then those frames
      are on the wire in file order. */
  lemma FlowRemoval(s: State, flow: string, capacity: nat)
    requires flow in s.tx.flows && |s.wire| <= capacity
    ensures var r, items := SendFlow(s, flow, capacity), FlowItems(Scannable(RawLines(s.tx.flows[flow])));
            && (flow !in r.state.tx.flows <==> r.status == Sent)
            && (flow !in r.state.tx.flows
                <==> && |s.wire| + |ItemsFrames(s.tx.sources, items)| <= capacity
                     && forall i :: 0 <= i < |items|
                                    ==> SentInFull(s.tx.sources, items[i]) || NamesMissingFile(s.tx.sources, items[i]))
            && (flow !in r.state.tx.flows ==> r.state.wire == s.wire + ItemsFrames(s.tx.sources, items))
  {
    var items := FlowItems(Scannable(RawLines(s.tx.flows[flow])));
    var n := SendItemsPrefix(s, items, true, capacity);
    SendItemsSucceeds(s, items, true, capacity);
    var frames := ItemsFrames(s.tx.sources, items);
    assert frames[..|frames|] == frames;
    assert n == |frames| ==> SendFlow(s, flow, capacity).state.wire == s.wire + frames;
    if forall i :: 0 <= i < |items| ==> Passable(s.tx.sources, items[i], true) {
    } else {
      var i :| 0 <= i < |items| && !Passable(s.tx.sources, items[i], true);
      assert !SentInFull(s.tx.sources, items[i]) && !NamesMissingFile(s.tx.sources, items[i]);
    }
  }

  /** The scanned lines stand for the whole flow file exactly when no line from the first
      overlong one on names a file. */
  lemma ScannedLinesSuffice(content: string)
    ensures FlowItems(Scannable(RawLines(content))) == FlowItems(RawLines(content))
            <==> FlowItems(Unscanned(content)) == []
    ensures Unscanned(content) == [] <==> forall i :: 0 <= i < |RawLines(content)| ==> |RawLines(content)[i]| < MAX_TOKEN
  {
    var lines := RawLines(content);
    var scanned := Scannable(lines);
    assert lines == scanned + lines[|scanned|..];
    FlowItemsAppend(scanned, lines[|scanned|..]);
    ScannableIsAll(lines);
    assert Unscanned(content) == [] <==> scanned == lines;
  }

  /** The other case does occur: an overlong first line makes the sender drop the whole
      flow file and send nothing, whatever files the file still names. */
  lemma LongLineDropsFlow(s: State, flow: string, capacity: nat)
    requires flow in s.tx.flows
    requires RawLines(s.tx.flows[flow]) != [] && |RawLines(s.tx.flows[flow])[0]| >= MAX_TOKEN
    ensures var r := SendFlow(s, flow, capacity);
            flow !in r.state.tx.flows && r.state.wire == s.wire && r.status == Sent
  {
  }

  lemma LongLineExample(path: string)
    requires IsToken(path) && '\n' !in path && !HasPrefix(path, "#") && !HasPrefix(path, "^")
    ensures var content := seq(MAX_TOKEN, _ => 'x') + "\n" + path;
            && |RawLines(content)| == 2 && |RawLines(content)[0]| >= MAX_TOKEN
            && FlowItems(Unscanned(content))[|FlowItems(Unscanned(content))| - 1..] == [Item(path, "", 0, false)]
  {
    var long := seq(MAX_TOKEN, _ => 'x');
    var content := long + "\n" + path;
    IndexIs(long, '\n', path);
    assert content == long + ['\n'] + path;
    assert content[..|long|] == long && content[|long| + 1..] == path;
    IndexAbsent(path, '\n');
    assert RawLines(path) == [path];
    assert RawLines(content) == [long] + RawLines(path);
    assert RawLines(content) == [long, path];
    assert Unscanned(content) == [long] + [path];
    FlowItemsAppend([long], [path]);
    assert TrimSpace(path) == path;
    assert FlowItems([path]) == [Item(path, "", 0, false)] + FlowItems([path][1..]);
  }

  /* ---- The whole queue ---- */

  function Names(paths: seq<string>): set<string> {
    set p | p in paths
  }

  function PlanFlows(flows: map<string, string>, paths: seq<string>): seq<Item>
    decreases |paths|
  {
    if paths == [] then []
    else if paths[0] !in flows then PlanFlows(flows, paths[1..])
    else FlowItems(Scannable(RawLines(flows[paths[0]]))) + PlanFlows(flows - {paths[0]}, paths[1..])
  }

  /** The items of the whole mail, in sending order; a flow file is read once. */
  function Plan(flows: map<string, string>, mail: seq<Mail>): seq<Item>
    decreases |mail|
  {
    if mail == [] then []
    else
      mail[0].netmail + PlanFlows(flows, mail[0].flows)
      + Plan(flows - Names(mail[0].flows), mail[1..])
  }

  lemma {:induction false} ItemsFramesAppend(sources: map<string, Source>, a: seq<Item>, b: seq<Item>)
    ensures ItemsFrames(sources, a + b) == ItemsFrames(sources, a) + ItemsFrames(sources, b)
  {
    if a == [] {
      assert a + b == b;
    } else {
      assert (a + b)[1..] == a[1..] + b;
      ItemsFramesAppend(sources, a[1..], b);
    }
  }

  lemma {:induction false} SendFlowsPrefix(s: State, paths: seq<string>, capacity: nat) returns (n: nat)
    requires |s.wire| <= capacity
    ensures var r, frames := SendFlows(s, paths, capacity), ItemsFrames(s.tx.sources, PlanFlows(s.tx.flows, paths));
            && Grew(s.wire, r.state.wire, frames, n) && |r.state.wire| <= capacity
            && r.state.tx.sources == s.tx.sources && r.status != Missing
            && (r.status == Sent ==> n == |frames| && r.state.tx.flows == s.tx.flows - Names(paths))
    decreases |paths|
  {
    n := 0;
    if paths == [] {
      assert s.tx.flows == s.tx.flows - Names(paths);
    } else {
      var r := SendFlow(s, paths[0], capacity);
      var rest := PlanFlows(s.tx.flows - {paths[0]}, paths[1..]);
      assert Names(paths) == {paths[0]} + Names(paths[1..]);
      assert s.tx.flows - Names(paths) == s.tx.flows - {paths[0]} - Names(paths[1..]);
      if paths[0] !in s.tx.flows {
        assert s.tx.flows - {paths[0]} == s.tx.flows;
        n := SendFlowsPrefix(s, paths[1..], capacity);
      } else {
        var items := FlowItems(Scannable(RawLines(s.tx.flows[paths[0]])));
        var a, b := ItemsFrames(s.tx.sources, items), ItemsFrames(s.tx.sources, rest);
        n := SendItemsPrefix(s, items, true, capacity);
        ItemsFramesAppend(s.tx.sources, items, rest);
        if r.status == Sent {
          var m := SendFlowsPrefix(r.state, paths[1..], capacity);
          GrewMore(s.wire, r.state.wire, SendFlows(r.state, paths[1..], capacity).state.wire, a, b, m);
          n := n + m;
        } else {
          GrewLess(s.wire, r.state.wire, a, b, n);
        }
      }
    }
  }

  lemma SendAddressPrefix(s: State, m: Mail, capacity: nat) returns (n: nat)
    requires |s.wire| <= capacity
    ensures var r := SendAddress(s, m, capacity);
            var frames := ItemsFrames(s.tx.sources, m.netmail + PlanFlows(s.tx.flows, m.flows));
            && Grew(s.wire, r.state.wire, frames, n) && |r.state.wire| <= capacity
            && r.state.tx.sources == s.tx.sources && r.status != Missing
            && (r.status == Sent ==> n == |frames| && r.state.tx.flows == s.tx.flows - Names(m.flows))
  {
    var plan := PlanFlows(s.tx.flows, m.flows);
    var a, b := ItemsFrames(s.tx.sources, m.netmail), ItemsFrames(s.tx.sources, plan);
    ItemsFramesAppend(s.tx.sources, m.netmail, plan);
    n := SendItemsPrefix(s, m.netmail, true, capacity);
    var r := SendItems(s, m.netmail, true, capacity);
    if r.status == Sent {
      var k := SendFlowsPrefix(r.state, m.flows, capacity);
      GrewMore(s.wire, r.state.wire, SendFlows(r.state, m.flows, capacity).state.wire, a, b, k);
      n := n + k;
    } else {
      GrewLess(s.wire, r.state.wire, a, b, n);
    }
  }

  lemma {:induction false} SendMailPrefix(s: State, mail: seq<Mail>, capacity: nat) returns (n: nat)
    requires |s.wire| <= capacity
    ensures var r, frames := SendMail(s, mail, capacity), ItemsFrames(s.tx.sources, Plan(s.tx.flows, mail));
            && Grew(s.wire, r.state.wire, frames, n) && |r.state.wire| <= capacity
            && r.status != Missing && (r.status == Sent ==> n == |frames|)
    decreases |mail|
  {
    n := 0;
    if mail != [] {
      var now := mail[0].netmail + PlanFlows(s.tx.flows, mail[0].flows);
      var later := Plan(s.tx.flows - Names(mail[0].flows), mail[1..]);
      var a, b := ItemsFrames(s.tx.sources, now), ItemsFrames(s.tx.sources, later);
      ItemsFramesAppend(s.tx.sources, now, later);
      n := SendAddressPrefix(s, mail[0], capacity);
      var r := SendAddress(s, mail[0], capacity);
      if r.status == Sent {
        var k := SendMailPrefix(r.state, mail[1..], capacity);
        GrewMore(s.wire, r.state.wire, SendMail(r.state, mail[1..], capacity).state.wire, a, b, k);
        n := n + k;
      } else {
        GrewLess(s.wire, r.state.wire, a, b, n);
      }
    }
  }

  predicate IsEob(f: Frame) {
    f == EOB_FRAME
  }

  lemma {:induction false} ItemsFramesNotEob(sources: map<string, Source>, items: seq<Item>)
    ensures forall i :: 0 <= i < |ItemsFrames(sources, items)| ==> !IsEob(ItemsFrames(sources, items)[i])
  {
    if items != [] {
      ItemsFramesNotEob(sources, items[1..]);
      var first := ItemFrames(sources, items[0]);
      forall i | 0 <= i < |first|
        ensures !IsEob(first[i])
      {
        if i > 0 {
          assert first[i] == first[1..][i - 1];
        } else {
          assert first[0].payload[0] == M_FILE;
        }
      }
    }
  }

  /** The whole sender, for every point at which the connection may fail: the frames of
      the requests and of the mail go out in order, M_EOB is written at most once and
      nothing follows it; a normal end means that everything was written. */
  lemma SendFilesWire(ctx: Context, s: State, requested: seq<Item>, mail: seq<Mail>, capacity: nat)
    returns (n: nat, ended: bool)
    requires |s.wire| <= capacity
    ensures var r := SendFiles(ctx, s, requested, mail, capacity);
            var frames := ItemsFrames(s.tx.sources, requested + Plan(s.tx.flows, mail));
            && n <= |frames| && r.state.wire == s.wire + frames[..n] + (if ended then [EOB_FRAME] else [])
            && (forall i :: 0 <= i < n ==> !IsEob(frames[i]))
            && (r.status == Sent ==> ended && n == |frames|)
            && (ended && r.status != Sent ==> n == 0)
  {
    var s0 := s.(activeLink := Settled(ctx, s.remoteAddrs, s.activeLink));
    ItemsFramesNotEob(s.tx.sources, requested + Plan(s.tx.flows, mail));
    if RefusesToSend(ctx, s0) {
      n, ended := 0, CanWrite(s0, capacity);
    } else {
      n := SendQueuePrefix(s0, requested, mail, capacity);
      ended := SendQueue(s0, requested, mail, capacity).status == Sent
               && CanWrite(SendQueue(s0, requested, mail, capacity).state, capacity);
    }
  }

  lemma SendQueuePrefix(s: State, requested: seq<Item>, mail: seq<Mail>, capacity: nat) returns (n: nat)
    requires |s.wire| <= capacity
    ensures var r := SendQueue(s, requested, mail, capacity);
            var frames := ItemsFrames(s.tx.sources, requested + Plan(s.tx.flows, mail));
            Grew(s.wire, r.state.wire, frames, n) && r.status != Missing && (r.status == Sent ==> n == |frames|)
  {
    var plan := Plan(s.tx.flows, mail);
    var a, b := ItemsFrames(s.tx.sources, requested), ItemsFrames(s.tx.sources, plan);
    ItemsFramesAppend(s.tx.sources, requested, plan);
    n := SendItemsPrefix(s, requested, false, capacity);
    var r := SendItems(s, requested, false, capacity);
    if r.status == Sent {
      var k := SendMailPrefix(r.state, mail, capacity);
      GrewMore(s.wire, r.state.wire, SendMail(r.state, mail, capacity).state.wire, a, b, k);
      n := n + k;
    } else {
      GrewLess(s.wire, r.state.wire, a, b, n);
    }
  }
}
