/** From an address to something to dial: the nodelist index of nodelist/nodelist.go and
    findLink of scheduler/scheduler.go. */
module Lookup {
  import opened GoStrings
  import opened Address
  import opened SessionState

  datatype Node = Node(address: FidoAddress, name: string, location: string, sysop: string, phone: string,
                       baud: int, flags: seq<string>)

  /* ---- Parsing a nodelist ---- */

  /** The local variables of parseFile. */
  datatype Parser = Parser(zone: uint16, net: uint16, nodes: map<string, Node>)

  const START: Parser := Parser(1, 0, map[])

  const END_MARK: string := [0x1A as char]

  function Unscore(s: string): (r: string)
    ensures |r| == |s| && '_' !in r
  {
    if s == "" then "" else [if s[0] == '_' then ' ' else s[0]] + Unscore(s[1..])
  }

  /** What the keyword makes of the number: the new zone and net, and the node's address. */
  function Place(p: Parser, keyword: string, number: uint16): Option<(uint16, uint16, FidoAddress)> {
    if keyword == "zone" then Some((number, number, FidoAddress(number, number, 0, 0)))
    else if keyword == "region" then Some((p.zone, p.net, FidoAddress(p.zone, number, 0, 0)))
    else if keyword == "host" || keyword == "hub" then Some((p.zone, number, FidoAddress(p.zone, number, 0, 0)))
    else if keyword == "pvt" || keyword == "hold" || keyword == "down" || keyword == "" then
      Some((p.zone, p.net, FidoAddress(p.zone, p.net, number, 0)))
    else None
  }

  function NodeAt(address: FidoAddress, fields: seq<string>): Node
    requires |fields| >= 7
  {
    Node(address, Unscore(fields[2]), Unscore(fields[3]), Unscore(fields[4]), fields[5],
         match Atoi(fields[6]) case Some(n) => n case None => 0, fields[7..])
  }

  /** A line that is neither empty nor a comment. */
  function TakeFields(p: Parser, fields: seq<string>): Parser {
    if |fields| < 7 then p
    else
      match ParsePart(fields[1])
      case None => p
      case Some(number) =>
        match Place(p, ToLower(fields[0]), number)
        case None => p
        case Some(at) => Parser(at.0, at.1, p.nodes[Print(at.2) := NodeAt(at.2, fields)])
  }

  predicate Skipped(line: string) {
    line == "" || HasPrefix(line, ";")
  }

  function TakeLines(p: Parser, lines: seq<string>): Parser
    decreases |lines|
  {
    if lines == [] then p
    else
      var line := TrimSpace(lines[0]);
      if Skipped(line) then TakeLines(p, lines[1..])
      else if line == END_MARK then p
      else TakeLines(TakeFields(p, Split(line, ',')), lines[1..])
  }

  lemma SkippedIsNotEnd(line: string)
    ensures Skipped(line) ==> line != END_MARK
  {
    assert line == END_MARK ==> |line| == 1 && line[0] == END_MARK[0] != ';';
  }

  /** parseFile: the lines up to the end mark, which must come before any overlong line; no
      content stands for a file that cannot be opened. */
  method ParseFile(content: Option<string>) returns (nodes: Option<map<string, Node>>)
    ensures nodes.Some? ==> content.Some? && nodes.value == TakeLines(START, Scannable(RawLines(content.value))).nodes
    ensures nodes.None? <==> content.None? || TooLong(content.value)
  {
    if content.None? {
      return None;
    }
    var rawLines := RawLines(content.value);
    var lines := Scannable(rawLines);
    ScannableIsAll(rawLines);
    var p := START;
    var i := 0;
    while i < |lines|
      invariant i <= |lines|
      invariant TakeLines(START, lines) == TakeLines(p, lines[i..])
      invariant forall j :: 0 <= j < i ==> TrimSpace(lines[j]) != END_MARK
    {
      var line := TrimSpace(lines[i]);
      assert lines[i..][0] == lines[i] && lines[i..][1..] == lines[i + 1..];
      SkippedIsNotEnd(line);
      if !Skipped(line) {
        if line == END_MARK {
          return Some(p.nodes);
        }
        p := TakeFields(p, Split(line, ','));
      }
      i := i + 1;
    }
    return if |lines| < |rawLines| then None else Some(p.nodes);
  }

  /** Some line is overlong, and no line before the first such one is the end mark. */
  ghost predicate TooLong(content: string) {
    var lines := RawLines(content);
    && (exists i :: 0 <= i < |lines| && |lines[i]| >= MAX_TOKEN)
    && forall i :: 0 <= i < |Scannable(lines)| ==> TrimSpace(Scannable(lines)[i]) != END_MARK
  }

  /** Every node is stored under its own address. */
  ghost predicate WellKeyed(nodes: map<string, Node>) {
    forall k :: k in nodes ==> k == Print(nodes[k].address)
  }

  lemma TakeFieldsKeepsKeys(p: Parser, fields: seq<string>)
    requires WellKeyed(p.nodes)
    ensures WellKeyed(TakeFields(p, fields).nodes)
  {
  }

  lemma {:induction false} ParsedIsWellKeyed(p: Parser, lines: seq<string>)
    requires WellKeyed(p.nodes)
    ensures WellKeyed(TakeLines(p, lines).nodes)
    decreases |lines|
  {
    if lines != [] {
      var line := TrimSpace(lines[0]);
      if Skipped(line) {
        ParsedIsWellKeyed(p, lines[1..]);
      } else if line != END_MARK {
        TakeFieldsKeepsKeys(p, Split(line, ','));
        ParsedIsWellKeyed(TakeFields(p, Split(line, ',')), lines[1..]);
      }
    }
  }

  /** The nodelist that the scheduler holds. */
  class List {
    var nodes: map<string, Node>

    constructor ()
      ensures nodes == map[]
    {
      nodes := map[];
    }

    /** Merge, in whatever order the other map is visited. */
    method Merge(other: map<string, Node>)
      modifies this
      ensures nodes == old(nodes) + other
      ensures WellKeyed(old(nodes)) && WellKeyed(other) ==> WellKeyed(nodes)
    {
      var todo := other.Keys;
      ghost var done := {};
      MergedNone(nodes, other);
      while todo != {}
        invariant todo + done == other.Keys && todo !! done
        invariant nodes == Merged(old(nodes), other, done)
        decreases |todo|
      {
        var k :| k in todo;
        MergedMore(old(nodes), other, done, k);
        nodes := nodes[k := other[k]];
        todo, done := todo - {k}, done + {k};
      }
      assert done == other.Keys;
      MergedAll(old(nodes), other);
    }
  }

  /** The nodes with the entries of other whose key is in done. */
  ghost function Merged(nodes: map<string, Node>, other: map<string, Node>, done: set<string>): map<string, Node> {
    nodes + map k | k in other && k in done :: other[k]
  }

  lemma MergedNone(nodes: map<string, Node>, other: map<string, Node>)
    ensures Merged(nodes, other, {}) == nodes
  {
  }

  lemma MergedMore(nodes: map<string, Node>, other: map<string, Node>, done: set<string>, k: string)
    requires k in other
    ensures Merged(nodes, other, done + {k}) == Merged(nodes, other, done)[k := other[k]]
  {
  }

  lemma MergedAll(nodes: map<string, Node>, other: map<string, Node>)
    ensures Merged(nodes, other, other.Keys) == nodes + other
  {
    assert (map k | k in other && k in other.Keys :: other[k]) == other;
  }

  /** Any number of nodelist files, merged in order. */
  function LoadAll(nodes: map<string, Node>, files: seq<seq<string>>): map<string, Node>
    decreases |files|
  {
    if files == [] then nodes else LoadAll(nodes + TakeLines(START, files[0]).nodes, files[1..])
  }

  /** So a node found under the string of an address has exactly that address. */
  lemma {:induction false} LoadedIsSound(nodes: map<string, Node>, files: seq<seq<string>>, target: FidoAddress)
    requires WellKeyed(nodes)
    ensures var all := LoadAll(nodes, files);
            WellKeyed(all) && (Print(target) in all ==> all[Print(target)].address == target)
    decreases |files|
  {
    if files != [] {
      ParsedIsWellKeyed(START, files[0]);
      LoadedIsSound(nodes + TakeLines(START, files[0]).nodes, files[1..], target);
    } else if Print(target) in nodes {
      PrintInjective(target, nodes[Print(target)].address);
    }
  }

  /* ---- Finding a link ---- */

  /** The parts of the configuration that findLink looks at. */
  datatype LookupConfig = LookupConfig(links: seq<Link>, lookupMethod: string, disableDNS: bool, dnsRoot: string)

  const BINKP_PORT: nat := 24554

  function UpperChar(c: char): char {
    if 'a' <= c <= 'z' then (c as int - 32) as char else c
  }

  function ToUpper(s: string): (r: string)
    ensures |r| == |s|
  {
    if s == "" then "" else [UpperChar(s[0])] + ToUpper(s[1..])
  }

  /** A nodelist flag: IBN announces BinkP, INA:host names the host. */
  predicate IsIbn(flag: string) {
    HasPrefix(ToUpper(flag), "IBN")
  }

  predicate IsIna(flag: string) {
    !IsIbn(flag) && HasPrefix(ToUpper(flag), "INA:")
  }

  /** The host of the last INA flag. */
  function InaHost(flags: seq<string>): string {
    if flags == [] then ""
    else if IsIna(flags[|flags| - 1]) then flags[|flags| - 1][4..]
    else InaHost(flags[..|flags| - 1])
  }

  predicate SupportsBinkp(flags: seq<string>) {
    exists i :: 0 <= i < |flags| && IsIbn(flags[i])
  }

  method GetBinkpAddress(flags: seq<string>) returns (host: string, port: nat, supportsBinkp: bool)
    ensures host == InaHost(flags) && port == BINKP_PORT && supportsBinkp == SupportsBinkp(flags)
  {
    host, port, supportsBinkp := "", BINKP_PORT, false;
    var i := 0;
    while i < |flags|
      invariant i <= |flags|
      invariant host == InaHost(flags[..i]) && supportsBinkp == SupportsBinkp(flags[..i])
    {
      assert flags[..i + 1][..i] == flags[..i];
      if IsIbn(flags[i]) {
        supportsBinkp := true;
        assert IsIbn(flags[..i + 1][i]);
      } else if IsIna(flags[i]) {
        host := flags[i][4..];
      }
      assert forall j :: 0 <= j < i ==> flags[..i + 1][j] == flags[..i][j];
      i := i + 1;
    }
    assert flags[..|flags|] == flags;
  }

  /** A link to the host: the configured one with its password, or a public one. */
  function LinkTo(conf: Option<Link>, address: FidoAddress, host: string, port: nat): Link {
    match conf
    case Some(l) => l.(host := host + ":" + Decimal(port))
    case None => Link(Print(address), host + ":" + Decimal(port), "", "", address)
  }

  function LookupNodelist(nodes: map<string, Node>, conf: Option<Link>, target: FidoAddress): Option<Link> {
    if Print(target) in nodes && SupportsBinkp(nodes[Print(target)].flags) then
      Some(LinkTo(conf, nodes[Print(target)].address, InaHost(nodes[Print(target)].flags), BINKP_PORT))
    else None
  }

  /** The name LookupBinkpNet asks for. */
  function Domain(a: FidoAddress, root: string): string {
    var rest := "f" + Decimal(a.node as nat) + ".n" + Decimal(a.net as nat) + ".z" + Decimal(a.zone as nat) + "." + root;
    if a.point > 0 then "p" + Decimal(a.point as nat) + "." + rest else rest
  }

  /** Hosts as the domain name system resolves them. */
  function LookupDNS(cfg: LookupConfig, dns: map<string, string>, conf: Option<Link>, target: FidoAddress): Option<Link> {
    if !cfg.disableDNS && Domain(target, cfg.dnsRoot) in dns then
      Some(LinkTo(conf, target, dns[Domain(target, cfg.dnsRoot)], BINKP_PORT))
    else None
  }

  predicate PrefersDNS(cfg: LookupConfig, conf: Option<Link>) {
    var m := ToLower(if conf.Some? && conf.value.lookupMethod != "" then conf.value.lookupMethod else cfg.lookupMethod);
    m == "dns" || m == "binkp" || m == "binkp.net"
  }

  function FirstOf(a: Option<Link>, b: Option<Link>): Option<Link> {
    if a.Some? then a else b
  }

  /** findLink for a parsed address. */
  function Resolve(cfg: LookupConfig, nodes: map<string, Node>, dns: map<string, string>,
                   target: FidoAddress): Option<Link>
  {
    var conf := LinkFor(cfg.links, target);
    if conf.Some? && conf.value.host != "" then conf
    else if PrefersDNS(cfg, conf) then FirstOf(LookupDNS(cfg, dns, conf, target), LookupNodelist(nodes, conf, target))
    else FirstOf(LookupNodelist(nodes, conf, target), LookupDNS(cfg, dns, conf, target))
  }

  /** The fallback for a queue string that does not parse. */
  function LinkNamed(links: seq<Link>, address: string): Option<Link> {
    if links == [] then None
    else if links[0].address == address then (if links[0].host != "" then Some(links[0]) else None)
    else LinkNamed(links[1..], address)
  }

  method FindLink(cfg: LookupConfig, nodes: map<string, Node>, dns: map<string, string>, address: string)
    returns (link: Option<Link>)
    ensures link == match Parse(address, 0)
                    case None => LinkNamed(cfg.links, address)
                    case Some(target) => Resolve(cfg, nodes, dns, target)
  {
    var target := Parse(address, 0);
    if target.None? {
      link := FindByName(cfg.links, address);
    } else {
      link := FindByAddress(cfg, nodes, dns, target.value);
    }
  }

  method FindByName(links: seq<Link>, address: string) returns (link: Option<Link>)
    ensures link == LinkNamed(links, address)
  {
    var i := 0;
    while i < |links|
      invariant i <= |links|
      invariant LinkNamed(links, address) == LinkNamed(links[i..], address)
    {
      if links[i].address == address {
        return if links[i].host != "" then Some(links[i]) else None;
      }
      assert links[i..][1..] == links[i + 1..];
      i := i + 1;
    }
    return None;
  }

  method FindByAddress(cfg: LookupConfig, nodes: map<string, Node>, dns: map<string, string>, target: FidoAddress)
    returns (link: Option<Link>)
    ensures link == Resolve(cfg, nodes, dns, target)
  {
    var conf: Option<Link> := None;
    var i := 0;
    while i < |cfg.links|
      invariant i <= |cfg.links| && conf == None
      invariant LinkFor(cfg.links, target) == LinkFor(cfg.links[i..], target)
    {
      var l := cfg.links[i];
      if l.parsedAddress == target {
        conf := Some(l);
        break;
      }
      assert cfg.links[i..][1..] == cfg.links[i + 1..];
      i := i + 1;
    }
    assert conf == LinkFor(cfg.links, target);
    if conf.Some? && conf.value.host != "" {
      return conf;
    }
    var viaNodelist := ViaNodelist(nodes, conf, target);
    var viaDNS := LookupDNS(cfg, dns, conf, target);
    return if PrefersDNS(cfg, conf) then FirstOf(viaDNS, viaNodelist) else FirstOf(viaNodelist, viaDNS);
  }

  method ViaNodelist(nodes: map<string, Node>, conf: Option<Link>, target: FidoAddress) returns (link: Option<Link>)
    ensures link == LookupNodelist(nodes, conf, target)
  {
    var key := Print(target);
    if key !in nodes {
      return None;
    }
    var host, port, supportsBinkp := GetBinkpAddress(nodes[key].flags);
    return if supportsBinkp then Some(LinkTo(conf, nodes[key].address, host, port)) else None;
  }

  /** The link has the address, and the password of its configuration, if it has one. */
  predicate IsFor(link: Link, conf: Option<Link>, target: FidoAddress) {
    link.parsedAddress == target && link.password == if conf.Some? then conf.value.password else ""
  }

  /** Whatever the nodelist and the domain name system say, and in whatever order they are
      asked: a link found for an address has exactly that address, and the password that is
      configured for the address, or none. */
  lemma LookupIsSound(cfg: LookupConfig, nodes: map<string, Node>, dns: map<string, string>, target: FidoAddress)
    requires WellKeyed(nodes)
    ensures var r, conf := Resolve(cfg, nodes, dns, target), LinkFor(cfg.links, target);
            r.Some? ==> IsFor(r.value, conf, target)
  {
    var conf := LinkFor(cfg.links, target);
    LinkForFinds(cfg.links, target);
    NodelistIsSound(nodes, conf, target);
    DNSIsSound(cfg, dns, conf, target);
  }

  lemma DNSIsSound(cfg: LookupConfig, dns: map<string, string>, conf: Option<Link>, target: FidoAddress)
    requires conf.Some? ==> conf.value.parsedAddress == target
    ensures var r := LookupDNS(cfg, dns, conf, target);
            r.Some? ==> IsFor(r.value, conf, target)
  {
  }

  lemma NodelistIsSound(nodes: map<string, Node>, conf: Option<Link>, target: FidoAddress)
    requires WellKeyed(nodes) && (conf.Some? ==> conf.value.parsedAddress == target)
    ensures var r := LookupNodelist(nodes, conf, target);
            r.Some? ==> IsFor(r.value, conf, target)
  {
    if Print(target) in nodes {
      PrintInjective(target, nodes[Print(target)].address);
    }
  }

  /** The lookup method decides which host is dialled but not whether there is one. */
  lemma OrderFindsTheSame(cfg: LookupConfig, nodes: map<string, Node>, dns: map<string, string>, target: FidoAddress)
    ensures var conf := LinkFor(cfg.links, target);
            Resolve(cfg, nodes, dns, target).Some?
            <==> || (conf.Some? && conf.value.host != "")
                 || (Print(target) in nodes && SupportsBinkp(nodes[Print(target)].flags))
                 || (!cfg.disableDNS && Domain(target, cfg.dnsRoot) in dns)
  {
  }

  /** A node of the nodelist without an INA flag is dialled at an empty host name. */
  lemma {:induction false} EmptyHost(flags: seq<string>)
    ensures InaHost(flags) == ""
            <==> (forall i :: 0 <= i < |flags| ==> !IsIna(flags[i]))
                 || exists i :: 0 <= i < |flags| && IsIna(flags[i]) && |flags[i]| == 4
                                && forall j :: i < j < |flags| ==> !IsIna(flags[j])
  {
    if flags != [] {
      var n := |flags| - 1;
      EmptyHost(flags[..n]);
      assert forall i :: 0 <= i < n ==> flags[..n][i] == flags[i];
    }
  }
}
