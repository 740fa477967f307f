/** scanOutbound of scheduler/scheduler.go: the walk over the outbound directory and the
    aggregation of what it finds into one queue entry for each address string. */
module OutboundScan {
  import opened GoStrings
  import opened Address
  import opened OutboundNames
  import Sending

  /** A directory entry; gone and unreadable stand for failing Stat, Open and ReadDir calls. */
  datatype Entry = RegularFile(name: string, content: string, gone: bool)
                 | Directory(name: string, unreadable: bool, entries: seq<Entry>)

  /** What one file contributes to the queue. */
  datatype Finding = Finding(address: string, priority: nat, state: string, netmail: nat, echomail: nat, files: nat)

  datatype QueueData = QueueData(flavor: string, priority: nat, netmail: nat, echomail: nat, files: nat) {
    /** updateFlow on the data of one address. */
    function Plus(f: Finding): QueueData {
      QueueData(if f.priority < priority then f.state else flavor,
                if f.priority < priority then f.priority else priority,
                netmail + f.netmail, echomail + f.echomail, files + f.files)
    }
  }

  const EMPTY: QueueData := QueueData("", 99, 0, 0, 0)

  function Update(m: map<string, QueueData>, f: Finding): map<string, QueueData> {
    m[f.address := (if f.address in m then m[f.address] else EMPTY).Plus(f)]
  }

  /* ---- What the walk finds ---- */

  /** calculateTotalSizeInFlow; sizes are those of the files that exist. */
  function ListedSize(items: seq<Sending.Item>, sizes: map<string, nat>): nat {
    if items == [] then 0
    else (if items[0].path in sizes then sizes[items[0].path] else 0) + ListedSize(items[1..], sizes)
  }

  function Measure(h: Hit, content: string, gone: bool, sizes: map<string, nat>): Finding {
    var empty := Finding(h.Text(), PriorityFromExt(h.ext), StateFromExt(h.ext), 0, 0, 0);
    if gone then empty
    else if HasSuffix(h.ext, "ut") then empty.(netmail := |content|, files := 1)
    else
      var items := Sending.FlowItems(Scannable(RawLines(content)));
      empty.(echomail := ListedSize(items, sizes), files := |items|)
  }

  /** Where the walk is: the outbound root, a zone directory or a point directory. */
  datatype Level = Root(defaultZone: uint16) | Zone(zone: uint16) | Point(zone: uint16, net: uint16, node: uint16)

  function Enter(level: Level, name: string): Option<Level> {
    match level
    case Root(defaultZone) =>
      (match ZoneOf(name, defaultZone)
       case Some(z) => Some(Zone(z))
       case None => None)
    case Zone(zone) =>
      (match PointDirOf(name)
       case Some(nn) => Some(Point(zone, nn.0, nn.1))
       case None => None)
    case Point(_, _, _) => None
  }

  function Recognize(level: Level, name: string): Option<Hit> {
    match level
    case Root(_) => None
    case Zone(zone) => ScanNodeFile(zone, name)
    case Point(zone, net, node) => ScanPointFile(zone, net, node, name)
  }

  /** The finding of a regular file, if any. */
  function FileFindings(level: Level, name: string, content: string, gone: bool, sizes: map<string, nat>): seq<Finding> {
    match Recognize(level, name)
    case None => []
    case Some(h) => [Measure(h, content, gone, sizes)]
  }

  function FindingsOf(level: Level, e: Entry, sizes: map<string, nat>): seq<Finding>
    decreases e
  {
    match e
    case RegularFile(name, content, gone) => FileFindings(level, name, content, gone, sizes)
    case Directory(name, unreadable, entries) =>
      if Enter(level, name).None? || unreadable then [] else Findings(Enter(level, name).value, entries, sizes)
  }

  function Findings(level: Level, entries: seq<Entry>, sizes: map<string, nat>): seq<Finding>
    decreases entries
  {
    if entries == [] then [] else FindingsOf(level, entries[0], sizes) + Findings(level, entries[1..], sizes)
  }

  /** The aggregation of findings, in the order in which they are made. */
  function Absorb(m: map<string, QueueData>, fs: seq<Finding>): map<string, QueueData>
    decreases |fs|
  {
    if fs == [] then m else Absorb(Update(m, fs[0]), fs[1..])
  }

  lemma {:induction false} AbsorbAppend(m: map<string, QueueData>, a: seq<Finding>, b: seq<Finding>)
    ensures Absorb(m, a + b) == Absorb(Absorb(m, a), b)
    decreases |a|
  {
    if a == [] {
      assert a + b == b;
    } else {
      assert (a + b)[0] == a[0] && (a + b)[1..] == a[1..] + b;
      AbsorbAppend(Update(m, a[0]), a[1..], b);
    }
  }

  /** One entry of a directory, then the others. */
  lemma AbsorbEntry(m: map<string, QueueData>, level: Level, entries: seq<Entry>, i: nat, sizes: map<string, nat>)
    requires i < |entries|
    ensures Absorb(m, Findings(level, entries[i..], sizes))
            == Absorb(Absorb(m, FindingsOf(level, entries[i], sizes)), Findings(level, entries[i + 1..], sizes))
  {
    assert entries[i..][0] == entries[i] && entries[i..][1..] == entries[i + 1..];
    AbsorbAppend(m, FindingsOf(level, entries[i], sizes), Findings(level, entries[i + 1..], sizes));
  }

  /* ---- The walk itself ---- */

  method UpdateFlow(data: map<string, QueueData>, level: Level, e: Entry, sizes: map<string, nat>)
    returns (r: map<string, QueueData>)
    requires e.RegularFile?
    ensures r == Absorb(data, FindingsOf(level, e, sizes))
  {
    var h := Recognize(level, e.name);
    r := data;
    if h.Some? {
      var f := Measure(h.value, e.content, e.gone, sizes);
      r := Update(data, f);
      assert FindingsOf(level, e, sizes) == [f] && [f][1..] == [];
    }
  }

  method ScanPointDir(data: map<string, QueueData>, level: Level, entries: seq<Entry>, sizes: map<string, nat>)
    returns (r: map<string, QueueData>)
    requires level.Point?
    ensures r == Absorb(data, Findings(level, entries, sizes))
  {
    r := data;
    var i := 0;
    while i < |entries|
      invariant i <= |entries|
      invariant Absorb(data, Findings(level, entries, sizes)) == Absorb(r, Findings(level, entries[i..], sizes))
    {
      AbsorbEntry(r, level, entries, i, sizes);
      if entries[i].RegularFile? {
        r := UpdateFlow(r, level, entries[i], sizes);
      }
      i := i + 1;
    }
  }

  method ScanZoneDir(data: map<string, QueueData>, level: Level, entries: seq<Entry>, sizes: map<string, nat>)
    returns (r: map<string, QueueData>)
    requires level.Zone?
    ensures r == Absorb(data, Findings(level, entries, sizes))
  {
    r := data;
    var i := 0;
    while i < |entries|
      invariant i <= |entries|
      invariant Absorb(data, Findings(level, entries, sizes)) == Absorb(r, Findings(level, entries[i..], sizes))
    {
      AbsorbEntry(r, level, entries, i, sizes);
      match entries[i] {
        case RegularFile(_, _, _) =>
          r := UpdateFlow(r, level, entries[i], sizes);
        case Directory(name, unreadable, inner) =>
          var point := Enter(level, name);
          if point.Some? && !unreadable {
            r := ScanPointDir(r, point.value, inner, sizes);
          }
      }
      i := i + 1;
    }
  }

  /** The loops of scanOutbound over root, zone and point directories. */
  method ScanRoot(defaultZone: uint16, entries: seq<Entry>, sizes: map<string, nat>)
    returns (r: map<string, QueueData>)
    ensures r == Absorb(map[], Findings(Root(defaultZone), entries, sizes))
  {
    r := map[];
    var level := Root(defaultZone);
    var i := 0;
    while i < |entries|
      invariant i <= |entries|
      invariant Absorb(map[], Findings(level, entries, sizes)) == Absorb(r, Findings(level, entries[i..], sizes))
    {
      AbsorbEntry(r, level, entries, i, sizes);
      if entries[i].Directory? && !entries[i].unreadable {
        var zone := Enter(level, entries[i].name);
        if zone.Some? {
          r := ScanZoneDir(r, zone.value, entries[i].entries, sizes);
        }
      }
      i := i + 1;
    }
  }

  /* ---- Order does not matter ---- */

  function StateOfPriority(priority: nat): string {
    if priority == 0 then "Crash" else if priority == 1 then "Direct" else if priority == 2 then "Hold" else "Normal"
  }

  /** The state of a finding is the name of its priority. */
  predicate Graded(f: Finding) {
    f.priority < 99 && f.state == StateOfPriority(f.priority)
  }

  predicate AllGraded(fs: seq<Finding>) {
    forall i :: 0 <= i < |fs| ==> Graded(fs[i])
  }

  lemma ExtIsGraded(ext: string)
    requires IsValidFlowExt(ext)
    ensures PriorityFromExt(ext) < 99 && StateFromExt(ext) == StateOfPriority(PriorityFromExt(ext))
  {
  }

  lemma RecognizedIsGraded(level: Level, name: string, content: string, gone: bool, sizes: map<string, nat>)
    ensures AllGraded(FileFindings(level, name, content, gone, sizes))
  {
    var h := Recognize(level, name);
    if h.Some? {
      ExtIsGraded(h.value.ext);
    }
  }

  lemma {:induction false} EntryIsGraded(level: Level, e: Entry, sizes: map<string, nat>)
    ensures AllGraded(FindingsOf(level, e, sizes))
    decreases e
  {
    match e
    case RegularFile(name, content, gone) => RecognizedIsGraded(level, name, content, gone, sizes);
    case Directory(name, unreadable, entries) =>
      if Enter(level, name).Some? && !unreadable {
        FindingsAreGraded(Enter(level, name).value, entries, sizes);
      }
  }

  lemma {:induction false} FindingsAreGraded(level: Level, entries: seq<Entry>, sizes: map<string, nat>)
    ensures AllGraded(Findings(level, entries, sizes))
    decreases entries
  {
    if entries != [] {
      EntryIsGraded(level, entries[0], sizes);
      FindingsAreGraded(level, entries[1..], sizes);
    }
  }

  lemma PlusCommutes(d: QueueData, f: Finding, g: Finding)
    requires Graded(f) && Graded(g)
    ensures d.Plus(f).Plus(g) == d.Plus(g).Plus(f)
  {
  }

  lemma UpdateCommutes(m: map<string, QueueData>, f: Finding, g: Finding)
    requires Graded(f) && Graded(g)
    ensures Update(Update(m, f), g) == Update(Update(m, g), f)
  {
    PlusCommutes(if f.address in m then m[f.address] else EMPTY, f, g);
  }

  lemma RestWithout<T>(xs: seq<T>, i: nat)
    requires 0 < i < |xs|
    ensures var rest := xs[..i] + xs[i + 1..];
            rest == [xs[0]] + (xs[1..][..i - 1] + xs[1..][i..]) && xs[1..][i - 1] == xs[i]
  {
  }

  lemma AbsorbOne(m: map<string, QueueData>, f: Finding, rest: seq<Finding>)
    ensures Absorb(m, [f] + rest) == Absorb(Update(m, f), rest)
  {
    assert ([f] + rest)[1..] == rest;
  }

  lemma {:induction false} UpdateFirst(m: map<string, QueueData>, fs: seq<Finding>, i: nat)
    requires i < |fs| && AllGraded(fs)
    ensures Absorb(m, fs) == Absorb(Update(m, fs[i]), fs[..i] + fs[i + 1..])
    decreases i
  {
    if i == 0 {
      assert fs[..0] + fs[1..] == fs[1..];
    } else {
      var tail := fs[1..];
      var rest := tail[..i - 1] + tail[i..];
      RestWithout(fs, i);
      UpdateFirst(Update(m, fs[0]), tail, i - 1);
      UpdateCommutes(m, fs[0], fs[i]);
      AbsorbOne(Update(m, fs[i]), fs[0], rest);
    }
  }

  /** The aggregation does not depend on the order of the findings. */
  lemma {:induction false} AbsorbPermuted(m: map<string, QueueData>, fs: seq<Finding>, gs: seq<Finding>)
    requires multiset(fs) == multiset(gs) && AllGraded(fs)
    ensures Absorb(m, fs) == Absorb(m, gs)
    decreases |fs|
  {
    if fs == [] {
      assert |multiset(gs)| == 0;
    } else {
      var i := FirstIn(fs, gs);
      GradedPermuted(fs, gs);
      UpdateFirst(m, gs, i);
      AbsorbPermuted(Update(m, fs[0]), fs[1..], gs[..i] + gs[i + 1..]);
    }
  }

  lemma GradedPermuted(fs: seq<Finding>, gs: seq<Finding>)
    requires multiset(fs) == multiset(gs) && AllGraded(fs)
    ensures AllGraded(gs)
  {
    forall i | 0 <= i < |gs|
      ensures Graded(gs[i])
    {
      assert gs[i] in multiset(fs);
    }
  }

  /** The place of the first element in a permutation, and what is left of both. */
  lemma FirstIn<T>(xs: seq<T>, ys: seq<T>) returns (i: nat)
    requires multiset(xs) == multiset(ys) && xs != []
    ensures i < |ys| && ys[i] == xs[0] && multiset(xs[1..]) == multiset(ys[..i] + ys[i + 1..])
  {
    assert xs[0] in multiset(ys);
    i :| 0 <= i < |ys| && ys[i] == xs[0];
    assert xs == [xs[0]] + xs[1..];
    assert ys == ys[..i] + ([ys[i]] + ys[i + 1..]);
    var x := multiset{xs[0]};
    calc {
      multiset(xs[1..]);
      x + multiset(xs[1..]) - x;
      multiset(xs) - x;
      multiset(ys) - x;
      multiset(ys[..i]) + (x + multiset(ys[i + 1..])) - x;
      multiset(ys[..i]) + multiset(ys[i + 1..]);
    }
  }

  lemma {:induction false} FindingsAppend(level: Level, a: seq<Entry>, b: seq<Entry>, sizes: map<string, nat>)
    ensures Findings(level, a + b, sizes) == Findings(level, a, sizes) + Findings(level, b, sizes)
    decreases |a|
  {
    if a == [] {
      assert a + b == b;
    } else {
      assert (a + b)[0] == a[0] && (a + b)[1..] == a[1..] + b;
      FindingsAppend(level, a[1..], b, sizes);
      Assoc(FindingsOf(level, a[0], sizes), Findings(level, a[1..], sizes), Findings(level, b, sizes));
    }
  }

  /** Listing a directory in another order permutes its findings. */
  lemma {:induction false} FindingsPermuted(level: Level, a: seq<Entry>, b: seq<Entry>, sizes: map<string, nat>)
    requires multiset(a) == multiset(b)
    ensures multiset(Findings(level, a, sizes)) == multiset(Findings(level, b, sizes))
    decreases |a|
  {
    if a == [] {
      assert |multiset(b)| == 0;
    } else {
      var i := FirstIn(a, b);
      FindingsPermuted(level, a[1..], b[..i] + b[i + 1..], sizes);
      FindingsAppend(level, b[..i], b[i + 1..], sizes);
      FindingsAppend(level, b[..i], b[i..], sizes);
      assert b[..i] + b[i..] == b && b[i..][1..] == b[i + 1..];
    }
  }

  /** The same directory tree, with the entries of each directory in any order. */
  ghost predicate SameTree(a: Entry, b: Entry)
    decreases a
  {
    if a.Directory? && b.Directory? then
      && a.name == b.name && a.unreadable == b.unreadable
      && exists c :: multiset(c) == multiset(b.entries) && SameTrees(a.entries, c)
    else a == b
  }

  ghost predicate SameTrees(a: seq<Entry>, b: seq<Entry>)
    decreases a
  {
    |a| == |b| && (a != [] ==> SameTree(a[0], b[0]) && SameTrees(a[1..], b[1..]))
  }

  lemma {:induction false} SameTreeFindings(level: Level, a: Entry, b: Entry, sizes: map<string, nat>)
    requires SameTree(a, b)
    ensures multiset(FindingsOf(level, a, sizes)) == multiset(FindingsOf(level, b, sizes))
    decreases a
  {
    if a.Directory? && b.Directory? && Enter(level, a.name).Some? && !a.unreadable {
      var c :| multiset(c) == multiset(b.entries) && SameTrees(a.entries, c);
      var inner := Enter(level, a.name).value;
      SameTreesFindings(inner, a.entries, c, sizes);
      FindingsPermuted(inner, c, b.entries, sizes);
    }
  }

  lemma {:induction false} SameTreesFindings(level: Level, a: seq<Entry>, b: seq<Entry>, sizes: map<string, nat>)
    requires SameTrees(a, b)
    ensures multiset(Findings(level, a, sizes)) == multiset(Findings(level, b, sizes))
    decreases a
  {
    if a != [] {
      SameTreeFindings(level, a[0], b[0], sizes);
      SameTreesFindings(level, a[1..], b[1..], sizes);
    }
  }

  /** Whatever order the directories are listed in, at every level, the aggregation comes
      out the same. */
  lemma OrderIndependent(defaultZone: uint16, a: seq<Entry>, b: seq<Entry>, c: seq<Entry>, sizes: map<string, nat>)
    requires SameTrees(a, c) && multiset(c) == multiset(b)
    ensures Absorb(map[], Findings(Root(defaultZone), a, sizes)) == Absorb(map[], Findings(Root(defaultZone), b, sizes))
  {
    var level := Root(defaultZone);
    SameTreesFindings(level, a, c, sizes);
    FindingsPermuted(level, c, b, sizes);
    FindingsAreGraded(level, a, sizes);
    AbsorbPermuted(map[], Findings(level, a, sizes), Findings(level, b, sizes));
  }

  /* ---- What an entry of the aggregation says ---- */

  /** The priority is the lowest there is, and the flavour is that of a finding that has it. */
  ghost predicate IsLowest(d: QueueData, address: string, fs: seq<Finding>) {
    && (exists f :: f in fs && f.address == address && f.priority == d.priority && f.state == d.flavor)
    && (forall f :: f in fs && f.address == address ==> d.priority <= f.priority)
  }

  lemma {:induction false} AbsorbLowest(fs: seq<Finding>, address: string)
    requires AllGraded(fs)
    ensures var r := Absorb(map[], fs);
            && (address in r <==> exists f :: f in fs && f.address == address)
            && (address in r ==> IsLowest(r[address], address, fs))
    decreases |fs|
  {
    if fs != [] {
      var init, last := fs[..|fs| - 1], fs[|fs| - 1];
      assert fs == init + [last];
      AbsorbLowest(init, address);
      AbsorbAppend(map[], init, [last]);
      assert [last][1..] == [];
      var m := Absorb(map[], init);
      assert Absorb(map[], fs) == Update(m, last);
      assert last in fs && forall f :: f in fs <==> f in init || f == last;
    }
  }

  /* ---- The queue ---- */

  datatype QueueEntry = QueueEntry(address: string, flavor: string, files: nat, netmail: nat, echomail: nat,
                                   isBusy: bool, isSuspended: bool)

  /** The addresses that have a busy flag and a hold flag. */
  datatype Flags = Flags(busy: set<FidoAddress>, hold: set<FidoAddress>)

  predicate Flagged(flags: set<FidoAddress>, address: string) {
    match Parse(address, 0)
    case Some(a) => a in flags
    case None => false
  }

  /** The entry carries the aggregated data. */
  predicate Shows(e: QueueEntry, d: QueueData) {
    e.flavor == d.flavor && e.files == d.files && e.netmail == d.netmail && e.echomail == d.echomail
  }

  /** The queue lists the aggregation, one entry for each address, in some order. */
  ghost predicate IsQueueOf(queue: seq<QueueEntry>, m: map<string, QueueData>) {
    AllShow(queue, m) && Distinct(queue) && Covers(queue, m)
  }

  ghost predicate AllShow(queue: seq<QueueEntry>, m: map<string, QueueData>) {
    forall i :: 0 <= i < |queue| ==> queue[i].address in m && Shows(queue[i], m[queue[i].address])
  }

  ghost predicate Distinct(queue: seq<QueueEntry>) {
    forall i, j :: 0 <= i < j < |queue| ==> queue[i].address != queue[j].address
  }

  ghost predicate Covers(queue: seq<QueueEntry>, m: map<string, QueueData>) {
    forall a :: a in m ==> Lists(queue, a)
  }

  ghost predicate Lists(queue: seq<QueueEntry>, address: string) {
    exists i :: 0 <= i < |queue| && queue[i].address == address
  }

  ghost predicate ShowsFlags(queue: seq<QueueEntry>, flags: Flags) {
    forall i :: 0 <= i < |queue|
      ==> && queue[i].isBusy == Flagged(flags.busy, queue[i].address)
          && queue[i].isSuspended == Flagged(flags.hold, queue[i].address)
  }

  lemma ListsMore(queue: seq<QueueEntry>, e: QueueEntry)
    ensures forall a :: Lists(queue + [e], a) <==> Lists(queue, a) || a == e.address
  {
    var more := queue + [e];
    assert more[|queue|] == e;
    forall a | Lists(queue, a)
      ensures Lists(more, a)
    {
      var i :| 0 <= i < |queue| && queue[i].address == a;
      assert more[i].address == a;
    }
  }

  /** The loop over the map, which visits the keys in no particular order. */
  method BuildQueue(data: map<string, QueueData>, flags: Flags) returns (queue: seq<QueueEntry>)
    ensures IsQueueOf(queue, data) && ShowsFlags(queue, flags)
  {
    queue := [];
    var todo := data.Keys;
    while todo != {}
      invariant todo <= data.Keys
      invariant AllShow(queue, data) && Distinct(queue) && ShowsFlags(queue, flags)
      invariant forall a :: a in data ==> (a in todo <==> !Lists(queue, a))
      decreases |todo|
    {
      var address :| address in todo;
      var d := data[address];
      var e := QueueEntry(address, d.flavor, d.files, d.netmail, d.echomail,
                          Flagged(flags.busy, address), Flagged(flags.hold, address));
      ListsMore(queue, e);
      Appended(queue, e, data, flags);
      queue := queue + [e];
      todo := todo - {address};
    }
  }

  lemma Appended(queue: seq<QueueEntry>, e: QueueEntry, m: map<string, QueueData>, flags: Flags)
    requires AllShow(queue, m) && Distinct(queue) && ShowsFlags(queue, flags)
    requires e.address in m && Shows(e, m[e.address]) && !Lists(queue, e.address)
    requires e.isBusy == Flagged(flags.busy, e.address) && e.isSuspended == Flagged(flags.hold, e.address)
    ensures AllShow(queue + [e], m) && Distinct(queue + [e]) && ShowsFlags(queue + [e], flags)
  {
  }

  /** scanOutbound; an unreadable root gives an empty queue. */
  method ScanOutbound(defaultZone: uint16, root: Option<seq<Entry>>, sizes: map<string, nat>, flags: Flags)
    returns (queue: seq<QueueEntry>)
    ensures root.None? ==> queue == []
    ensures root.Some? ==> IsQueueOf(queue, Absorb(map[], Findings(Root(defaultZone), root.value, sizes)))
    ensures ShowsFlags(queue, flags)
  {
    if root.None? {
      return [];
    }
    var data := ScanRoot(defaultZone, root.value, sizes);
    queue := BuildQueue(data, flags);
  }

  /* ---- Conservation ---- */

  datatype Totals = Totals(netmail: nat, echomail: nat, files: nat) {
    function Plus(t: Totals): Totals {
      Totals(netmail + t.netmail, echomail + t.echomail, files + t.files)
    }
  }

  function TotalsFound(f: Finding): Totals {
    Totals(f.netmail, f.echomail, f.files)
  }

  function FoundTotals(fs: seq<Finding>): Totals {
    if fs == [] then Totals(0, 0, 0) else FoundTotals(fs[..|fs| - 1]).Plus(TotalsFound(fs[|fs| - 1]))
  }

  function TotalsOf(e: QueueEntry): Totals {
    Totals(e.netmail, e.echomail, e.files)
  }

  function QueueTotals(queue: seq<QueueEntry>): Totals {
    if queue == [] then Totals(0, 0, 0) else TotalsOf(queue[0]).Plus(QueueTotals(queue[1..]))
  }

  lemma {:induction false} QueueTotalsAppend(a: seq<QueueEntry>, b: seq<QueueEntry>)
    ensures QueueTotals(a + b) == QueueTotals(a).Plus(QueueTotals(b))
  {
    if a == [] {
      assert a + b == b;
    } else {
      assert (a + b)[0] == a[0] && (a + b)[1..] == a[1..] + b;
      QueueTotalsAppend(a[1..], b);
    }
  }

  lemma SplitAround<T>(xs: seq<T>, i: nat)
    requires i < |xs|
    ensures xs == xs[..i] + xs[i..] && xs[i..][0] == xs[i] && xs[i..][1..] == xs[i + 1..]
  {
  }

  /** One entry counts separately from the others. */
  lemma QueueTotalsWithout(queue: seq<QueueEntry>, i: nat)
    requires i < |queue|
    ensures QueueTotals(queue) == QueueTotals(queue[..i] + queue[i + 1..]).Plus(TotalsOf(queue[i]))
  {
    SplitAround(queue, i);
    QueueTotalsAppend(queue[..i], queue[i..]);
    QueueTotalsAppend(queue[..i], queue[i + 1..]);
  }

  lemma QueueTotalsWith(queue: seq<QueueEntry>, i: nat, e: QueueEntry, t: Totals)
    requires i < |queue| && TotalsOf(queue[i]) == TotalsOf(e).Plus(t)
    ensures QueueTotals(queue) == QueueTotals(queue[i := e]).Plus(t)
  {
    QueueTotalsWithout(queue, i);
    QueueTotalsWithout(queue[i := e], i);
    assert queue[i := e][..i] == queue[..i] && queue[i := e][i + 1..] == queue[i + 1..];
  }

  /** The queue before a finding was absorbed: its entry is older, or not there yet. */
  lemma QueueBefore(queue: seq<QueueEntry>, m: map<string, QueueData>, f: Finding) returns (before: seq<QueueEntry>)
    requires IsQueueOf(queue, Update(m, f))
    ensures IsQueueOf(before, m)
    ensures QueueTotals(queue) == QueueTotals(before).Plus(TotalsFound(f))
  {
    if f.address in m {
      before := QueueBeforeUpdate(queue, m, f);
    } else {
      before := QueueBeforeNew(queue, m, f);
    }
  }

  lemma QueueBeforeUpdate(queue: seq<QueueEntry>, m: map<string, QueueData>, f: Finding) returns (before: seq<QueueEntry>)
    requires IsQueueOf(queue, Update(m, f)) && f.address in m
    ensures IsQueueOf(before, m)
    ensures QueueTotals(queue) == QueueTotals(before).Plus(TotalsFound(f))
  {
    var i := IndexOf(queue, Update(m, f), f.address);
    var d := m[f.address];
    var e := QueueEntry(f.address, d.flavor, d.files, d.netmail, d.echomail, false, false);
    before := queue[i := e];
    WithOlderEntry(queue, m, f, i, e);
    QueueTotalsWith(queue, i, e, TotalsFound(f));
  }

  lemma QueueBeforeNew(queue: seq<QueueEntry>, m: map<string, QueueData>, f: Finding) returns (before: seq<QueueEntry>)
    requires IsQueueOf(queue, Update(m, f)) && f.address !in m
    ensures IsQueueOf(before, m)
    ensures QueueTotals(queue) == QueueTotals(before).Plus(TotalsFound(f))
  {
    var i := IndexOf(queue, Update(m, f), f.address);
    before := queue[..i] + queue[i + 1..];
    WithoutEntry(queue, m, f, i);
    NewEntryTotals(queue[i], m, f);
    QueueTotalsWithout(queue, i);
  }

  lemma NewEntryTotals(e: QueueEntry, m: map<string, QueueData>, f: Finding)
    requires f.address !in m && Shows(e, Update(m, f)[f.address])
    ensures TotalsOf(e) == TotalsFound(f)
  {
  }

  lemma IndexOf(queue: seq<QueueEntry>, m: map<string, QueueData>, address: string) returns (i: nat)
    requires AllShow(queue, m) && Covers(queue, m) && address in m
    ensures i < |queue| && queue[i].address == address && Shows(queue[i], m[address])
  {
    assert Lists(queue, address);
    i :| 0 <= i < |queue| && queue[i].address == address;
  }

  lemma WithOlderEntry(queue: seq<QueueEntry>, m: map<string, QueueData>, f: Finding, i: nat, e: QueueEntry)
    requires IsQueueOf(queue, Update(m, f)) && i < |queue| && queue[i].address == f.address == e.address
    requires f.address in m && Shows(e, m[f.address])
    ensures IsQueueOf(queue[i := e], m)
  {
    var before := queue[i := e];
    assert forall j :: 0 <= j < |queue| ==> before[j].address == queue[j].address;
    forall a | a in m
      ensures Lists(before, a)
    {
      var k := IndexOf(queue, Update(m, f), a);
      assert before[k].address == a;
    }
  }

  lemma WithoutEntry(queue: seq<QueueEntry>, m: map<string, QueueData>, f: Finding, i: nat)
    requires IsQueueOf(queue, Update(m, f)) && i < |queue| && queue[i].address == f.address && f.address !in m
    ensures IsQueueOf(queue[..i] + queue[i + 1..], m)
  {
    RemovalShows(queue, Update(m, f), i);
    RemovalKeepsDistinct(queue, i);
    forall a | a in m
      ensures Lists(queue[..i] + queue[i + 1..], a)
    {
      var k := IndexOf(queue, Update(m, f), a);
      assert (queue[..i] + queue[i + 1..])[if k < i then k else k - 1].address == a;
    }
  }

  lemma RemovalShows(queue: seq<QueueEntry>, m: map<string, QueueData>, i: nat)
    requires AllShow(queue, m) && Distinct(queue) && i < |queue|
    ensures AllShow(queue[..i] + queue[i + 1..], m - {queue[i].address})
  {
    var before := queue[..i] + queue[i + 1..];
    forall j | 0 <= j < |before|
      ensures before[j].address in m - {queue[i].address} && Shows(before[j], m[before[j].address])
    {
      var k := if j < i then j else j + 1;
      assert before[j] == queue[k] && queue[k].address != queue[i].address;
    }
  }

  lemma RemovalKeepsDistinct(queue: seq<QueueEntry>, i: nat)
    requires Distinct(queue) && i < |queue|
    ensures Distinct(queue[..i] + queue[i + 1..])
  {
    var before := queue[..i] + queue[i + 1..];
    assert forall j :: 0 <= j < |before| ==> before[j] == queue[if j < i then j else j + 1];
  }

  /** Nothing is lost or counted twice: netmail bytes, bundle bytes and file counts over
      the queue, in whatever order it was built, are those over all findings. */
  lemma {:induction false} QueueConserves(queue: seq<QueueEntry>, fs: seq<Finding>)
    requires IsQueueOf(queue, Absorb(map[], fs))
    ensures QueueTotals(queue) == FoundTotals(fs)
    decreases |fs|
  {
    if fs == [] {
      assert Absorb(map[], fs) == map[];
    } else {
      var init, last := fs[..|fs| - 1], fs[|fs| - 1];
      assert fs == init + [last] && [last][1..] == [];
      AbsorbAppend(map[], init, [last]);
      var before := QueueBefore(queue, Absorb(map[], init), last);
      QueueConserves(before, init);
    }
  }

  lemma RecognizedIsProper(level: Level, name: string)
    ensures var h := Recognize(level, name); h.Some? ==> h.value.inPointDir || h.value.addr.point == 0
  {
  }

  lemma RecognizedParses(level: Level, name: string, content: string, gone: bool, sizes: map<string, nat>)
    ensures var fs := FileFindings(level, name, content, gone, sizes);
            forall i :: 0 <= i < |fs| ==> Parse(fs[i].address, 0).Some?
  {
    var h := Recognize(level, name);
    RecognizedIsProper(level, name);
    if h.Some? {
      HitParses(h.value);
      assert Measure(h.value, content, gone, sizes).address == h.value.Text();
    }
  }

  lemma HitParses(h: Hit)
    requires h.inPointDir || h.addr.point == 0
    ensures Parse(h.Text(), 0).Some?
  {
    TextParses(h, 0);
  }

  /** Every queued string is one that parses. */
  lemma {:induction false} EntryAddressesParse(level: Level, e: Entry, sizes: map<string, nat>)
    ensures forall i :: 0 <= i < |FindingsOf(level, e, sizes)| ==> Parse(FindingsOf(level, e, sizes)[i].address, 0).Some?
    decreases e
  {
    match e
    case RegularFile(name, content, gone) => RecognizedParses(level, name, content, gone, sizes);
    case Directory(name, unreadable, entries) =>
      if Enter(level, name).Some? && !unreadable {
        AddressesParse(Enter(level, name).value, entries, sizes);
      }
  }

  lemma {:induction false} AddressesParse(level: Level, entries: seq<Entry>, sizes: map<string, nat>)
    ensures forall i :: 0 <= i < |Findings(level, entries, sizes)|
                        ==> Parse(Findings(level, entries, sizes)[i].address, 0).Some?
    decreases entries
  {
    if entries != [] {
      EntryAddressesParse(level, entries[0], sizes);
      AddressesParse(level, entries[1..], sizes);
    }
  }

  /** Among the findings of the address there is a most urgent one, and it has the state. */
  ghost predicate Urgent(fs: seq<Finding>, address: string, state: string) {
    exists f :: f in fs && f.address == address && f.state == state && IsMostUrgent(f, fs)
  }

  ghost predicate IsMostUrgent(f: Finding, fs: seq<Finding>) {
    forall g :: g in fs && g.address == f.address ==> f.priority <= g.priority
  }

  /** What the poll loop relies on: the queued addresses are distinct and parse, and each
      comes with the flavour of its most urgent file. */
  lemma QueueIsSound(queue: seq<QueueEntry>, defaultZone: uint16, root: seq<Entry>, sizes: map<string, nat>)
    requires IsQueueOf(queue, Absorb(map[], Findings(Root(defaultZone), root, sizes)))
    ensures Distinct(queue)
    ensures forall i :: 0 <= i < |queue| ==> Parse(queue[i].address, 0).Some?
    ensures forall i :: 0 <= i < |queue|
                        ==> Urgent(Findings(Root(defaultZone), root, sizes), queue[i].address, queue[i].flavor)
  {
    var fs := Findings(Root(defaultZone), root, sizes);
    FindingsAreGraded(Root(defaultZone), root, sizes);
    AddressesParse(Root(defaultZone), root, sizes);
    forall i | 0 <= i < |queue|
      ensures Parse(queue[i].address, 0).Some? && Urgent(fs, queue[i].address, queue[i].flavor)
    {
      AbsorbLowest(fs, queue[i].address);
      var d := Absorb(map[], fs)[queue[i].address];
      var f :| f in fs && f.address == queue[i].address && f.priority == d.priority && f.state == d.flavor;
      assert IsMostUrgent(f, fs);
    }
  }
}
