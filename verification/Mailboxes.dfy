/** Whose mail a session sends: the netmail and the flow files that sendFiles looks up for
    each address the other side has presented. */
module Mailboxes {
  import opened GoStrings
  import opened Address
  import opened SessionState
  import opened Sending
  import opened OutboundNames

  /** Where netmail and flow files for an address are looked for, in order. */
  datatype Boxes = Boxes(netmail: FidoAddress -> seq<string>, flows: FidoAddress -> seq<string>)

  /** The packet names made up from the clock, by numbers of address and place. */
  type Packets = (nat, nat) -> string

  /** os.Stat finds the file. */
  predicate CanStat(sources: map<string, Source>, path: string) {
    path in sources && sources[path].fault != StatDenied
  }

  /** processNetmail, from place number i on: the packets that are there. */
  function NetmailFor(sources: map<string, Source>, places: seq<string>, packets: Packets, k: nat, i: nat): seq<Item>
    decreases |places| - i
  {
    if i >= |places| then []
    else
      (if CanStat(sources, places[i]) then [Item(places[i], packets(k, i), 0, true)] else [])
      + NetmailFor(sources, places, packets, k, i + 1)
  }

  /** The mail of an address: a flow file that is not there is passed over when its turn comes. */
  function MailFor(box: Boxes, sources: map<string, Source>, a: FidoAddress, packets: Packets, k: nat): Mail {
    Mail(NetmailFor(sources, box.netmail(a), packets, k, 0), box.flows(a))
  }

  /** The mail of the presented addresses. */
  function MailOf(box: Boxes, sources: map<string, Source>, addrs: seq<FidoAddress>, packets: Packets): seq<Mail> {
    seq(|addrs|, k requires 0 <= k < |addrs| => MailFor(box, sources, addrs[k], packets, k))
  }

  lemma NetmailStep(sources: map<string, Source>, places: seq<string>, packets: Packets, k: nat, i: nat, items: seq<Item>)
    requires i < |places|
    ensures var rest := NetmailFor(sources, places, packets, k, i + 1);
            items + NetmailFor(sources, places, packets, k, i)
            == if CanStat(sources, places[i]) then items + [Item(places[i], packets(k, i), 0, true)] + rest else items + rest
  {
    var rest := NetmailFor(sources, places, packets, k, i + 1);
    Assoc(items, [Item(places[i], packets(k, i), 0, true)], rest);
    assert [] + rest == rest;
  }

  /* ---- Flow files that are not there ---- */

  /** The flow files that exist when they are looked up. */
  function Existing(flows: map<string, string>, places: seq<string>): seq<string> {
    if places == [] then []
    else (if places[0] in flows then [places[0]] else []) + Existing(flows, places[1..])
  }

  lemma ExistingStep(flows: map<string, string>, places: seq<string>, i: nat, found: seq<string>)
    requires i < |places|
    ensures var rest := Existing(flows, places[i + 1..]);
            found + Existing(flows, places[i..])
            == if places[i] in flows then found + [places[i]] + rest else found + rest
  {
    var rest := Existing(flows, places[i + 1..]);
    assert places[i..][1..] == places[i + 1..];
    Assoc(found, [places[i]], rest);
    assert [] + rest == rest;
  }

  /** To send the flow files that exist is to try all of them. */
  lemma {:induction false} ExistingSuffice(s: State, flows: map<string, string>, places: seq<string>, capacity: nat)
    requires forall p :: p in s.tx.flows ==> p in flows
    ensures SendFlows(s, Existing(flows, places), capacity) == SendFlows(s, places, capacity)
    decreases |places|
  {
    if places != [] {
      var rest := Existing(flows, places[1..]);
      assert places == [places[0]] + places[1..];
      FlowFirst(s, places[0], places[1..], capacity);
      SendFlowKeeps(s, places[0], capacity);
      ExistingSuffice(SendFlow(s, places[0], capacity).state, flows, places[1..], capacity);
      if places[0] in flows {
        FlowFirst(s, places[0], rest, capacity);
      } else {
        assert [] + rest == rest;
      }
    }
  }

  function Places(cfg: Config, found: seq<FlowFile>): seq<string> {
    seq(|found|, k requires 0 <= k < |found| => Location(cfg, found[k].path))
  }

  lemma PlacesFirst(cfg: Config, f: FlowFile, rest: seq<FlowFile>)
    ensures Places(cfg, [f] + rest) == [Location(cfg, f.path)] + Places(cfg, rest)
    ensures Places(cfg, [] + rest) == Places(cfg, rest)
  {
    assert [] + rest == rest;
  }

  lemma ExistingFirst(flows: map<string, string>, place: string, rest: seq<string>)
    ensures Existing(flows, [place] + rest) == (if place in flows then [place] else []) + Existing(flows, rest)
  {
    assert ([place] + rest)[1..] == rest;
  }

  /** In priority order these are the flow files that FindFlowFiles finds by their paths. */
  lemma {:induction false} ExistingAreFound(cfg: Config, flows: map<string, string>, existing: set<Path>, a: FidoAddress,
                                           i: nat)
    requires i <= |FLOW_EXTS|
    requires forall p :: p in FlowCandidates(a, cfg.defaultZone) ==> (p in existing <==> Location(cfg, p) in flows)
    ensures Existing(flows, BoxesOf(cfg).flows(a)[i..]) == Places(cfg, FlowsFrom(existing, a, cfg.defaultZone, i))
    decreases |FLOW_EXTS| - i
  {
    if i < |FLOW_EXTS| {
      var places, p := BoxesOf(cfg).flows(a), FlowCandidates(a, cfg.defaultZone)[i];
      var later := FlowsFrom(existing, a, cfg.defaultZone, i + 1);
      assert p in FlowCandidates(a, cfg.defaultZone);
      assert places[i..] == [Location(cfg, p)] + places[i + 1..];
      ExistingFirst(flows, Location(cfg, p), places[i + 1..]);
      ExistingAreFound(cfg, flows, existing, a, i + 1);
      PlacesFirst(cfg, FlowFile(p, StateFromExt(FLOW_EXTS[i])), later);
    }
  }

  lemma FlowFirst(s: State, flow: string, rest: seq<string>, capacity: nat)
    ensures var r := SendFlow(s, flow, capacity);
            SendFlows(s, [flow] + rest, capacity) == if r.status == Sent then SendFlows(r.state, rest, capacity) else r
  {
    assert ([flow] + rest)[1..] == rest;
  }

  lemma SendFlowKeeps(s: State, flow: string, capacity: nat)
    ensures forall p :: p in SendFlow(s, flow, capacity).state.tx.flows ==> p in s.tx.flows
  {
    if flow in s.tx.flows {
      ItemsKeepFlows(s, FlowItems(Scannable(RawLines(s.tx.flows[flow]))), capacity);
    }
  }

  lemma {:induction false} ItemsKeepFlows(s: State, items: seq<Item>, capacity: nat)
    ensures SendItems(s, items, true, capacity).state.tx.flows == s.tx.flows
    decreases |items|
  {
    if items != [] {
      ItemsKeepFlows(SendFile(s, items[0], capacity).state, items[1..], capacity);
    }
  }

  /* ---- What is planned is the mail of the presented addresses ---- */

  /** One of the flow files names the item. */
  ghost predicate Lists(flows: map<string, string>, paths: seq<string>, item: Item) {
    exists path :: path in paths && path in flows && item in FlowItems(Scannable(RawLines(flows[path])))
  }

  /** The item, whatever packet name it gets, is a packet in one of these places. */
  ghost predicate IsPacket(sources: map<string, Source>, places: seq<string>, item: Item) {
    exists i :: 0 <= i < |places| && CanStat(sources, places[i]) && item == Item(places[i], "", 0, true)
  }

  /** The item is netmail of the address, or one of its flow files names it. */
  ghost predicate IsMailOf(box: Boxes, sources: map<string, Source>, flows: map<string, string>, a: FidoAddress,
                           item: Item) {
    IsPacket(sources, box.netmail(a), item) || Lists(flows, box.flows(a), item)
  }

  /** Apart from packet names the item is among these. */
  ghost predicate Has(items: seq<Item>, item: Item) {
    exists it :: it in items && it.(sendAs := "") == item
  }

  lemma HasAppend(a: seq<Item>, b: seq<Item>, item: Item)
    ensures Has(a + b, item) <==> Has(a, item) || Has(b, item)
  {
    if Has(a, item) {
      var it :| it in a && it.(sendAs := "") == item;
      assert it in a + b;
    }
    if Has(b, item) {
      var it :| it in b && it.(sendAs := "") == item;
      assert it in a + b;
    }
  }

  lemma {:induction false} FlowItemsAreUnnamed(lines: seq<string>, item: Item)
    ensures Has(FlowItems(lines), item) <==> item in FlowItems(lines)
    ensures item in FlowItems(lines) ==> item.sendAs == ""
  {
    if lines != [] {
      FlowItemsAreUnnamed(lines[1..], item);
      if LineItem(lines[0]).Some? {
        HasAppend([LineItem(lines[0]).value], FlowItems(lines[1..]), item);
        assert LineItem(lines[0]).value in [LineItem(lines[0]).value];
      }
    }
  }

  lemma {:induction false} NetmailIs(sources: map<string, Source>, places: seq<string>, packets: Packets, k: nat, i: nat,
                                    item: Item)
    requires i <= |places|
    ensures Has(NetmailFor(sources, places, packets, k, i), item) <==> IsPacket(sources, places[i..], item)
    decreases |places| - i
  {
    if i < |places| {
      NetmailIs(sources, places, packets, k, i + 1, item);
      var named := Item(places[i], packets(k, i), 0, true);
      var first := if CanStat(sources, places[i]) then [named] else [];
      HasAppend(first, NetmailFor(sources, places, packets, k, i + 1), item);
      assert Has(first, item) <==> first != [] && named.(sendAs := "") == item by {
        assert first != [] ==> named in first;
      }
      assert places[i..] == [places[i]] + places[i + 1..];
      PacketFirst(sources, places[i], places[i + 1..], item);
    }
  }

  lemma PacketFirst(sources: map<string, Source>, place: string, rest: seq<string>, item: Item)
    ensures IsPacket(sources, [place] + rest, item)
            <==> (CanStat(sources, place) && item == Item(place, "", 0, true)) || IsPacket(sources, rest, item)
  {
    var all := [place] + rest;
    if CanStat(sources, place) && item == Item(place, "", 0, true) {
      assert all[0] == place;
    }
    if IsPacket(sources, rest, item) {
      var i :| 0 <= i < |rest| && CanStat(sources, rest[i]) && item == Item(rest[i], "", 0, true);
      assert all[i + 1] == rest[i];
    }
  }

  lemma {:induction false} FlowsPlanned(flows: map<string, string>, paths: seq<string>, item: Item)
    ensures Has(PlanFlows(flows, paths), item) <==> Lists(flows, paths, item)
    decreases |paths|
  {
    if paths != [] {
      var path, rest := paths[0], paths[1..];
      assert paths == [path] + rest;
      if path !in flows {
        FlowsPlanned(flows, rest, item);
        ListsLater(flows, path, rest, item);
      } else {
        var items := FlowItems(Scannable(RawLines(flows[path])));
        FlowsPlanned(flows - {path}, rest, item);
        HasAppend(items, PlanFlows(flows - {path}, rest), item);
        FlowItemsAreUnnamed(Scannable(RawLines(flows[path])), item);
        ListsFirst(flows, path, rest, item);
      }
    }
  }

  lemma ListsLater(flows: map<string, string>, path: string, rest: seq<string>, item: Item)
    requires path !in flows
    ensures Lists(flows, [path] + rest, item) <==> Lists(flows, rest, item)
  {
    forall p | p in rest
      ensures p in [path] + rest
    {
    }
  }

  lemma ListsFirst(flows: map<string, string>, path: string, rest: seq<string>, item: Item)
    requires path in flows
    ensures Lists(flows, [path] + rest, item)
            <==> item in FlowItems(Scannable(RawLines(flows[path]))) || Lists(flows - {path}, rest, item)
  {
    assert path in [path] + rest;
    if Lists(flows - {path}, rest, item) {
      var p :| p in rest && p in flows - {path} && item in FlowItems(Scannable(RawLines(flows[p])));
      assert p in [path] + rest;
    }
    if Lists(flows, [path] + rest, item) {
      var p :| p in [path] + rest && p in flows && item in FlowItems(Scannable(RawLines(flows[p])));
      assert p == path || (p in rest && p in flows - {path});
    }
  }

  ghost predicate IsMailOfSome(box: Boxes, sources: map<string, Source>, flows: map<string, string>,
                               addrs: seq<FidoAddress>, k: nat, item: Item) {
    exists j :: k <= j < |addrs| && IsMailOf(box, sources, flows, addrs[j], item)
  }

  lemma AddressPlanned(box: Boxes, sources: map<string, Source>, flows: map<string, string>, a: FidoAddress,
                       packets: Packets, k: nat, item: Item)
    ensures var m := MailFor(box, sources, a, packets, k);
            && (Lists(flows, m.flows, item) ==> IsMailOf(box, sources, flows, a, item))
            && (Has(m.netmail + PlanFlows(flows, m.flows), item) <==> IsMailOf(box, sources, flows, a, item))
  {
    var m, places := MailFor(box, sources, a, packets, k), box.netmail(a);
    HasAppend(m.netmail, PlanFlows(flows, m.flows), item);
    NetmailIs(sources, places, packets, k, 0, item);
    assert places[0..] == places;
    FlowsPlanned(flows, m.flows, item);
  }

  /** What is left of the mail when the flow files of an earlier address are gone. */
  lemma LaterMail(box: Boxes, sources: map<string, Source>, flows: map<string, string>, done: seq<string>,
                  addrs: seq<FidoAddress>, k: nat, item: Item)
    ensures IsMailOfSome(box, sources, flows - Names(done), addrs, k, item) ==> IsMailOfSome(box, sources, flows, addrs, k, item)
    ensures IsMailOfSome(box, sources, flows, addrs, k, item)
            ==> IsMailOfSome(box, sources, flows - Names(done), addrs, k, item) || Lists(flows, done, item)
  {
    forall j | k <= j < |addrs|
      ensures IsMailOf(box, sources, flows - Names(done), addrs[j], item) ==> IsMailOf(box, sources, flows, addrs[j], item)
      ensures IsMailOf(box, sources, flows, addrs[j], item)
              ==> IsMailOf(box, sources, flows - Names(done), addrs[j], item) || Lists(flows, done, item)
    {
      FewerList(flows, done, box.flows(addrs[j]), item);
    }
  }

  lemma FewerList(flows: map<string, string>, done: seq<string>, paths: seq<string>, item: Item)
    ensures Lists(flows - Names(done), paths, item) ==> Lists(flows, paths, item)
    ensures Lists(flows, paths, item) ==> Lists(flows - Names(done), paths, item) || Lists(flows, done, item)
  {
  }

  lemma SomeFirst(box: Boxes, sources: map<string, Source>, flows: map<string, string>, addrs: seq<FidoAddress>, k: nat,
                  item: Item)
    requires k < |addrs|
    ensures IsMailOfSome(box, sources, flows, addrs, k, item)
            <==> IsMailOf(box, sources, flows, addrs[k], item) || IsMailOfSome(box, sources, flows, addrs, k + 1, item)
  {
  }

  lemma PlanParts(flows: map<string, string>, m: Mail, rest: seq<Mail>, item: Item)
    ensures Has(Plan(flows, [m] + rest), item)
            <==> Has(m.netmail + PlanFlows(flows, m.flows), item) || Has(Plan(flows - Names(m.flows), rest), item)
  {
    assert ([m] + rest)[1..] == rest;
    HasAppend(m.netmail + PlanFlows(flows, m.flows), Plan(flows - Names(m.flows), rest), item);
  }

  /** The items that sendFiles plans to send, packet names apart, are exactly the mail of the
      presented addresses. */
  lemma {:induction false} PlannedForPresented(box: Boxes, sources: map<string, Source>, flows: map<string, string>,
                                              addrs: seq<FidoAddress>, packets: Packets, k: nat, item: Item)
    requires k <= |addrs|
    ensures Has(Plan(flows, MailOf(box, sources, addrs, packets)[k..]), item)
            <==> IsMailOfSome(box, sources, flows, addrs, k, item)
    decreases |addrs| - k
  {
    if k < |addrs| {
      var m, rest := MailFor(box, sources, addrs[k], packets, k), MailOf(box, sources, addrs, packets)[k + 1..];
      assert MailOf(box, sources, addrs, packets)[k..] == [m] + rest;
      PlanParts(flows, m, rest, item);
      AddressPlanned(box, sources, flows, addrs[k], packets, k, item);
      PlannedForPresented(box, sources, flows - Names(m.flows), addrs, packets, k + 1, item);
      LaterMail(box, sources, flows, m.flows, addrs, k + 1, item);
      SomeFirst(box, sources, flows, addrs, k, item);
    }
  }

  /* ---- The places in the outbound directory ---- */

  /** filepath.Join below the outbound directory. */
  function Location(cfg: Config, p: Path): string {
    cfg.outbound + "/" + (p.zoneDir + "/" + BelowZone(p))
  }

  function BelowZone(p: Path): string {
    match p.pointDir
    case None => p.file
    case Some(dir) => dir + "/" + p.file
  }

  function Locations(cfg: Config, paths: seq<Path>): seq<string> {
    seq(|paths|, i requires 0 <= i < |paths| => Location(cfg, paths[i]))
  }

  /** Where the session looks, by the naming scheme of the outbound directory. */
  function BoxesOf(cfg: Config): Boxes {
    Boxes(a => Locations(cfg, NetmailCandidates(a, cfg.defaultZone)),
          a => Locations(cfg, FlowCandidates(a, cfg.defaultZone)))
  }

  /* ---- Places of files are distinct ---- */

  lemma {:induction false} PadZeroHasNoSlash(width: nat, s: string)
    requires '/' !in s
    ensures '/' !in PadZero(width, s)
    decreases width - |s|
  {
    if |s| < width {
      PadZeroHasNoSlash(width, "0" + s);
    }
  }

  lemma NumeralHasNoSlash(n: nat, width: nat)
    ensures '/' !in PadZero(width, Numeral(n, 16))
  {
    PadZeroHasNoSlash(width, Numeral(n, 16));
  }

  ghost predicate NoSlash(p: Path) {
    '/' !in p.zoneDir && '/' !in p.file && (p.pointDir.Some? ==> '/' !in p.pointDir.value)
  }

  lemma BsoHasNoSlash(a: FidoAddress, defaultZone: uint16, ext: string)
    requires '/' !in ext
    ensures NoSlash(BsoPath(a, defaultZone, ext))
  {
    NumeralHasNoSlash(a.zone as nat, 3);
    NumeralHasNoSlash(a.net as nat, 4);
    NumeralHasNoSlash(a.node as nat, 4);
    NumeralHasNoSlash(a.point as nat, 4);
  }

  lemma FirstPart(a: string, b: string, u: string, v: string)
    requires '/' !in a && '/' !in b && a + "/" + u == b + "/" + v
    ensures a == b && u == v
  {
    IndexIs(a, '/', u);
    IndexIs(b, '/', v);
    assert (a + "/" + u)[..|a|] == a && (b + "/" + v)[..|b|] == b;
    assert (a + "/" + u)[|a| + 1..] == u && (b + "/" + v)[|b| + 1..] == v;
  }

  lemma LocationInjective(cfg: Config, p: Path, q: Path)
    requires NoSlash(p) && NoSlash(q) && Location(cfg, p) == Location(cfg, q)
    ensures p == q
  {
    var prefix, u, v := cfg.outbound + "/", BelowZone(p), BelowZone(q);
    SlashBelow(p);
    SlashBelow(q);
    assert Location(cfg, p)[|prefix|..] == p.zoneDir + "/" + u && Location(cfg, q)[|prefix|..] == q.zoneDir + "/" + v;
    FirstPart(p.zoneDir, q.zoneDir, u, v);
    if p.pointDir.Some? {
      FirstPart(p.pointDir.value, q.pointDir.value, p.file, q.file);
    }
  }

  lemma SlashBelow(p: Path)
    requires NoSlash(p)
    ensures '/' in BelowZone(p) <==> p.pointDir.Some?
  {
    if p.pointDir.Some? {
      assert BelowZone(p)[|p.pointDir.value|] == '/';
    }
  }

  lemma CandidateHasNoSlash(a: FidoAddress, defaultZone: uint16, p: Path)
    requires SenderLooksAt(a, defaultZone, p)
    ensures NoSlash(p)
  {
    var ext := CandidateExt(a, defaultZone, p);
    BsoHasNoSlash(a, defaultZone, ext);
  }

  /* ---- Whose mail it is ---- */

  /** sendFiles looks for mail at this place. */
  ghost predicate LooksAt(box: Boxes, addrs: seq<FidoAddress>, place: string) {
    exists a :: a in addrs && (place in box.netmail(a) || place in box.flows(a))
  }

  lemma PlacesAre(cfg: Config, a: FidoAddress, place: string)
    ensures place in BoxesOf(cfg).netmail(a) || place in BoxesOf(cfg).flows(a)
            <==> exists p :: SenderLooksAt(a, cfg.defaultZone, p) && place == Location(cfg, p)
  {
    LocationsHave(cfg, NetmailCandidates(a, cfg.defaultZone), place);
    LocationsHave(cfg, FlowCandidates(a, cfg.defaultZone), place);
  }

  lemma LocationsHave(cfg: Config, paths: seq<Path>, place: string)
    ensures place in Locations(cfg, paths) <==> exists p :: p in paths && place == Location(cfg, p)
  {
    forall p | p in paths
      ensures Location(cfg, p) in Locations(cfg, paths)
    {
      var i :| 0 <= i < |paths| && paths[i] == p;
      assert Locations(cfg, paths)[i] == Location(cfg, p);
    }
  }

  /** The mail of an address is looked for exactly when the address is among those presented. */
  lemma ServedExactlyWhenPresented(cfg: Config, addrs: seq<FidoAddress>, a: FidoAddress, p: Path)
    requires SenderLooksAt(a, cfg.defaultZone, p)
    ensures LooksAt(BoxesOf(cfg), addrs, Location(cfg, p)) <==> a in addrs
  {
    PlacesAre(cfg, a, Location(cfg, p));
    if LooksAt(BoxesOf(cfg), addrs, Location(cfg, p)) {
      var b :| b in addrs && (Location(cfg, p) in BoxesOf(cfg).netmail(b) || Location(cfg, p) in BoxesOf(cfg).flows(b));
      PlacesAre(cfg, b, Location(cfg, p));
      var q :| SenderLooksAt(b, cfg.defaultZone, q) && Location(cfg, p) == Location(cfg, q);
      CandidateHasNoSlash(a, cfg.defaultZone, p);
      CandidateHasNoSlash(b, cfg.defaultZone, q);
      LocationInjective(cfg, p, q);
      CandidatesAreOwn(a, b, cfg.defaultZone, p);
    }
  }

  /** The mail at a place of the address is looked for. */
  ghost predicate Served(cfg: Config, addrs: seq<FidoAddress>, a: FidoAddress) {
    exists p :: SenderLooksAt(a, cfg.defaultZone, p) && LooksAt(BoxesOf(cfg), addrs, Location(cfg, p))
  }

  lemma ServedIsPresented(cfg: Config, addrs: seq<FidoAddress>, a: FidoAddress)
    ensures Served(cfg, addrs, a) <==> a in addrs
  {
    var p := FlowCandidates(a, cfg.defaultZone)[0];
    ServedExactlyWhenPresented(cfg, addrs, a, p);
    if Served(cfg, addrs, a) {
      var q :| SenderLooksAt(a, cfg.defaultZone, q) && LooksAt(BoxesOf(cfg), addrs, Location(cfg, q));
      ServedExactlyWhenPresented(cfg, addrs, a, q);
    }
  }

  /** Only one address is served exactly when no other one is presented; to be authenticated
      for it is not enough. */
  lemma OnlyOneIsServed(cfg: Config, addrs: seq<FidoAddress>, link: FidoAddress)
    ensures (forall a :: Served(cfg, addrs, a) ==> a == link) <==> forall a :: a in addrs ==> a == link
  {
    forall a
      ensures Served(cfg, addrs, a) <==> a in addrs
    {
      ServedIsPresented(cfg, addrs, a);
    }
  }
}
