/** The dialling decisions of ScanAndPoll in scheduler/scheduler.go: retry spacing, failure
    counting, timed suspension and busy flags, as a state machine over a clock. */
module Poll {
  import opened GoStrings
  import opened Address
  import OutboundScan
  import opened QueueStrings

  /** All durations in one unit. */
  datatype Policy = Policy(rescanPeriod: int, holdTime: int, staleBusyTimeout: int, maxDialAttempts: int) {
    /** Consecutive failures after which an address is suspended; below one it is every one. */
    function Attempts(): nat {
      if maxDialAttempts < 1 then 1 else maxDialAttempts
    }
  }

  datatype Dial = Attempt(address: string, at: int, ok: bool)

  /** The scheduler's maps and the flag files, which hold their modification times. A flag
      file belongs to an address, for no two addresses share a path. The dials are a history. */
  datatype Sched = Sched(failures: map<string, nat>, lastAttempt: map<string, int>, lastLog: map<string, string>,
                         hold: map<FidoAddress, int>, busy: map<FidoAddress, int>, dials: seq<Dial>)

  /** One queue entry and everything the loop body learns from outside while it handles it:
      the clock at each reading, and whether each operation on a flag file succeeds. */
  datatype Visit = Visit(address: string, flavor: string, now: int, active: bool,
                         holdPathOk: bool, holdNow: int, holdRemoved: bool,
                         busyPathOk: bool, busyNow: int, busyRemoved: bool,
                         linkFound: bool, busyCreated: bool, dialAt: int, dialOk: bool,
                         holdWritten: bool, holdAt: int, doneAt: int, busyDeleted: bool)

  function Failures(st: Sched, address: string): nat {
    if address in st.failures then st.failures[address] else 0
  }

  predicate TooSoon(cfg: Policy, st: Sched, v: Visit) {
    v.address in st.lastAttempt && v.now - st.lastAttempt[v.address] < cfg.rescanPeriod
  }

  predicate Suspended(cfg: Policy, st: Sched, a: FidoAddress, v: Visit) {
    v.holdPathOk && a in st.hold && v.holdNow - st.hold[a] < cfg.holdTime
  }

  /** The hold flag is absent or has expired; an expired one is removed and the count starts again. */
  function ClearHold(st: Sched, a: FidoAddress, v: Visit): Sched {
    if v.holdPathOk && a in st.hold then
      st.(hold := if v.holdRemoved then st.hold - {a} else st.hold, failures := st.failures[v.address := 0])
    else st
  }

  predicate IsBusy(cfg: Policy, st: Sched, a: FidoAddress, v: Visit) {
    && v.busyPathOk && a in st.busy
    && !(cfg.staleBusyTimeout > 0 && v.busyNow - st.busy[a] > cfg.staleBusyTimeout && v.busyRemoved)
  }

  function ClearBusy(st: Sched, a: FidoAddress, v: Visit): Sched {
    if v.busyPathOk then st.(busy := st.busy - {a}) else st
  }

  /** The flags of a called address: whether its busy and hold flag have a path. */
  datatype Target = Target(addr: FidoAddress, busyPathOk: bool, holdPathOk: bool) | Unknown

  function Failed(cfg: Policy, st: Sched, target: Target, v: Visit): Sched {
    var n := Failures(st, v.address) + 1;
    if n < cfg.maxDialAttempts then st.(failures := st.failures[v.address := n])
    else
      st.(failures := st.failures[v.address := 0],
          hold := if target.Target? && target.holdPathOk && v.holdWritten then st.hold[target.addr := v.holdAt] else st.hold)
  }

  /** The busy flag is created and the attempt noted, then the node is dialled. */
  function Dialled(st: Sched, target: Target, v: Visit): Sched {
    var flagged := target.Target? && target.busyPathOk && v.busyCreated;
    st.(busy := if flagged then st.busy[target.addr := v.dialAt] else st.busy,
        lastLog := st.lastLog[v.address := v.flavor],
        lastAttempt := st.lastAttempt[v.address := v.dialAt],
        dials := st.dials + [Attempt(v.address, v.dialAt, v.dialOk)])
  }

  /** The end of the attempt is noted and the busy flag removed. */
  function HungUp(st: Sched, target: Target, v: Visit): Sched {
    var flagged := target.Target? && target.busyPathOk && v.busyDeleted;
    st.(lastAttempt := st.lastAttempt[v.address := v.doneAt],
        busy := if flagged then st.busy - {target.addr} else st.busy)
  }

  function Call(cfg: Policy, st: Sched, target: Target, v: Visit): Sched {
    var s := Dialled(st, target, v);
    HungUp(if v.dialOk then s.(failures := s.failures[v.address := 0]) else Failed(cfg, s, target, v), target, v)
  }

  function Decide(cfg: Policy, st: Sched, target: Target, v: Visit): Sched {
    if !v.linkFound then st
    else if v.flavor == "Hold" then st.(lastLog := st.lastLog[v.address := v.flavor])
    else Call(cfg, st, target, v)
  }

  /** The loop body for an entry whose address parses to a. */
  function VisitNode(cfg: Policy, st: Sched, a: FidoAddress, v: Visit): Sched {
    if Suspended(cfg, st, a, v) then st.(lastLog := st.lastLog[v.address := "Suspended"])
    else
      var cleared := ClearHold(st, a, v);
      if IsBusy(cfg, cleared, a, v) then cleared
      else Decide(cfg, ClearBusy(cleared, a, v), Target(a, v.busyPathOk, v.holdPathOk), v)
  }

  function VisitEntry(cfg: Policy, st: Sched, key: Option<FidoAddress>, v: Visit): Sched {
    if TooSoon(cfg, st, v) || v.active then st
    else
      match key
      case None => Decide(cfg, st, Unknown, v)
      case Some(a) => VisitNode(cfg, st, a, v)
  }

  /** How address strings parse; most results below hold for every such function. */
  type Keys = string -> Option<FidoAddress>

  /** ScanAndPoll parses the queued strings with default zone 0. */
  function Key(address: string): Option<FidoAddress> {
    Parse(address, 0)
  }

  function VisitAll(cfg: Policy, st: Sched, keys: Keys, visits: seq<Visit>): Sched
    decreases |visits|
  {
    if visits == [] then st
    else VisitAll(cfg, VisitEntry(cfg, st, keys(visits[0].address), visits[0]), keys, visits[1..])
  }

  lemma VisitAllStep(cfg: Policy, st: Sched, keys: Keys, visits: seq<Visit>, i: nat)
    requires i < |visits|
    ensures VisitAll(cfg, st, keys, visits[i..])
            == VisitAll(cfg, VisitEntry(cfg, st, keys(visits[i].address), visits[i]), keys, visits[i + 1..])
  {
    assert visits[i..][0] == visits[i] && visits[i..][1..] == visits[i + 1..];
  }

  function Seen(visits: seq<Visit>): set<string> {
    set v | v in visits :: v.address
  }

  /** The clean-up at the end forgets addresses without mail, but not their failure counts. */
  function Pruned(st: Sched, seen: set<string>): Sched {
    st.(lastLog := map a | a in st.lastLog && a in seen :: st.lastLog[a],
        lastAttempt := map a | a in st.lastAttempt && a in seen :: st.lastAttempt[a])
  }

  /** ScanAndPoll over the entries of one queue. */
  function Scan(cfg: Policy, st: Sched, keys: Keys, visits: seq<Visit>): Sched {
    Pruned(VisitAll(cfg, st, keys, visits), Seen(visits))
  }

  /** A life of the scheduler: one scan after the other; a muted scan is not among them. */
  function Scans(cfg: Policy, st: Sched, keys: Keys, scans: seq<seq<Visit>>): Sched
    decreases |scans|
  {
    if scans == [] then st else Scans(cfg, Scan(cfg, st, keys, scans[0]), keys, scans[1..])
  }

  /** A scheduler that has just started: its maps are empty, flags may be around. */
  ghost predicate JustStarted(st: Sched) {
    st.failures == map[] && st.lastAttempt == map[] && st.lastLog == map[] && st.dials == []
  }

  /* ---- One visit ---- */

  /** What keeps a dial from being made. */
  predicate Allowed(cfg: Policy, st: Sched, key: Option<FidoAddress>, v: Visit) {
    && !TooSoon(cfg, st, v) && !v.active && v.linkFound && v.flavor != "Hold"
    && (key.Some? ==> !Suspended(cfg, st, key.value, v) && !IsBusy(cfg, st, key.value, v))
  }

  lemma CallDials(cfg: Policy, st: Sched, target: Target, v: Visit)
    ensures Call(cfg, st, target, v).dials == st.dials + [Attempt(v.address, v.dialAt, v.dialOk)]
  {
  }

  lemma DecideDials(cfg: Policy, st: Sched, target: Target, v: Visit)
    ensures Decide(cfg, st, target, v).dials
            == if v.linkFound && v.flavor != "Hold" then st.dials + [Attempt(v.address, v.dialAt, v.dialOk)] else st.dials
  {
    CallDials(cfg, st, target, v);
  }

  lemma ClearKeeps(st: Sched, a: FidoAddress, v: Visit)
    ensures var c, d := ClearHold(st, a, v), ClearBusy(ClearHold(st, a, v), a, v);
            c.dials == st.dials && d.dials == st.dials && c.busy == st.busy
  {
  }

  lemma NodeDials(cfg: Policy, st: Sched, a: FidoAddress, v: Visit)
    ensures VisitNode(cfg, st, a, v).dials
            == if !Suspended(cfg, st, a, v) && !IsBusy(cfg, st, a, v) && v.linkFound && v.flavor != "Hold"
               then st.dials + [Attempt(v.address, v.dialAt, v.dialOk)] else st.dials
  {
    ClearKeeps(st, a, v);
    DecideDials(cfg, ClearBusy(ClearHold(st, a, v), a, v), Target(a, v.busyPathOk, v.holdPathOk), v);
  }

  /** The scheduler dials exactly when nothing forbids it: not before the retry delay has
      passed, not while the node is active, suspended or busy, and not for mail on hold. */
  lemma DialsExactlyWhenAllowed(cfg: Policy, st: Sched, key: Option<FidoAddress>, v: Visit)
    ensures VisitEntry(cfg, st, key, v).dials
            == if Allowed(cfg, st, key, v) then st.dials + [Attempt(v.address, v.dialAt, v.dialOk)] else st.dials
  {
    if key.Some? {
      NodeDials(cfg, st, key.value, v);
    } else {
      CallDials(cfg, st, Unknown, v);
    }
  }

  /** No flag of later was not there earlier, with the same time. */
  ghost predicate NoNewFlag(earlier: map<FidoAddress, int>, later: map<FidoAddress, int>) {
    forall a :: a in later ==> a in earlier && later[a] == earlier[a]
  }

  lemma CallBusy(cfg: Policy, st: Sched, target: Target, v: Visit)
    ensures v.busyDeleted || !v.busyCreated ==> NoNewFlag(st.busy, Call(cfg, st, target, v).busy)
    ensures target.Target? && target.busyPathOk && target.addr !in st.busy
            ==> (target.addr in Call(cfg, st, target, v).busy <==> v.busyCreated && !v.busyDeleted)
  {
  }

  lemma ClearedBusy(st: Sched, a: FidoAddress, v: Visit)
    ensures var busy := ClearBusy(ClearHold(st, a, v), a, v).busy;
            NoNewFlag(st.busy, busy) && (v.busyPathOk ==> a !in busy)
    ensures ClearHold(st, a, v).busy == st.busy
  {
  }

  lemma NodeBusy(cfg: Policy, st: Sched, a: FidoAddress, v: Visit)
    ensures var busy := VisitNode(cfg, st, a, v).busy;
            && (v.busyDeleted || !v.busyCreated ==> NoNewFlag(st.busy, busy))
            && (!Suspended(cfg, st, a, v) && !IsBusy(cfg, st, a, v) && v.linkFound && v.flavor != "Hold" && v.busyPathOk
                ==> (a in busy <==> v.busyCreated && !v.busyDeleted))
  {
    ClearedBusy(st, a, v);
    CallBusy(cfg, ClearBusy(ClearHold(st, a, v), a, v), Target(a, v.busyPathOk, v.holdPathOk), v);
  }

  /** A visit leaves no busy flag behind that was not there before, and after a call the
      flag is there exactly when it was created and its removal failed. */
  lemma NoBusyFlagLeft(cfg: Policy, st: Sched, key: Option<FidoAddress>, v: Visit)
    ensures var busy := VisitEntry(cfg, st, key, v).busy;
            && (v.busyDeleted || !v.busyCreated ==> NoNewFlag(st.busy, busy))
            && (Allowed(cfg, st, key, v) && key.Some? && v.busyPathOk
                ==> (key.value in busy <==> v.busyCreated && !v.busyDeleted))
  {
    if key.Some? {
      NodeBusy(cfg, st, key.value, v);
    } else {
      CallBusy(cfg, st, Unknown, v);
    }
  }

  /** Nothing kept under the address string x differs. */
  ghost predicate SameFor(st: Sched, st': Sched, x: string) {
    && Failures(st', x) == Failures(st, x)
    && (x in st'.lastAttempt <==> x in st.lastAttempt)
    && (x in st.lastAttempt ==> st'.lastAttempt[x] == st.lastAttempt[x])
    && (x in st'.lastLog <==> x in st.lastLog) && (x in st.lastLog ==> st'.lastLog[x] == st.lastLog[x])
  }

  /** Neither flag file of the address b differs. */
  ghost predicate SameFlags(st: Sched, st': Sched, b: FidoAddress) {
    && (b in st'.hold <==> b in st.hold) && (b in st.hold ==> st'.hold[b] == st.hold[b])
    && (b in st'.busy <==> b in st.busy) && (b in st.busy ==> st'.busy[b] == st.busy[b])
  }

  lemma CallKeepsString(cfg: Policy, st: Sched, target: Target, v: Visit, x: string)
    requires x != v.address
    ensures SameFor(st, Call(cfg, st, target, v), x)
  {
  }

  lemma CallKeepsFlags(cfg: Policy, st: Sched, target: Target, v: Visit, b: FidoAddress)
    requires !target.Target? || target.addr != b
    ensures SameFlags(st, Call(cfg, st, target, v), b)
  {
  }

  lemma DecideKeepsString(cfg: Policy, st: Sched, target: Target, v: Visit, x: string)
    requires x != v.address
    ensures SameFor(st, Decide(cfg, st, target, v), x)
  {
    CallKeepsString(cfg, st, target, v, x);
  }

  lemma ClearKeepsString(st: Sched, a: FidoAddress, v: Visit, x: string)
    requires x != v.address
    ensures SameFor(st, ClearHold(st, a, v), x) && SameFor(st, ClearBusy(ClearHold(st, a, v), a, v), x)
  {
  }

  lemma NodeKeepsString(cfg: Policy, st: Sched, a: FidoAddress, v: Visit, x: string)
    requires x != v.address
    ensures SameFor(st, VisitNode(cfg, st, a, v), x)
  {
    ClearKeepsString(st, a, v, x);
    var ready, target := ClearBusy(ClearHold(st, a, v), a, v), Target(a, v.busyPathOk, v.holdPathOk);
    DecideKeepsString(cfg, ready, target, v, x);
    SameForTwice(st, ready, Decide(cfg, ready, target, v), x);
  }

  lemma SameForTwice(st: Sched, mid: Sched, st': Sched, x: string)
    requires SameFor(st, mid, x) && SameFor(mid, st', x)
    ensures SameFor(st, st', x)
  {
  }

  lemma DecideKeepsFlags(cfg: Policy, st: Sched, target: Target, v: Visit, b: FidoAddress)
    requires !target.Target? || target.addr != b
    ensures SameFlags(st, Decide(cfg, st, target, v), b)
  {
    CallKeepsFlags(cfg, st, target, v, b);
  }

  lemma ClearKeepsFlags(st: Sched, a: FidoAddress, v: Visit, b: FidoAddress)
    requires a != b
    ensures SameFlags(st, ClearHold(st, a, v), b) && SameFlags(st, ClearBusy(ClearHold(st, a, v), a, v), b)
  {
  }

  lemma NodeKeepsFlags(cfg: Policy, st: Sched, a: FidoAddress, v: Visit, b: FidoAddress)
    requires a != b
    ensures SameFlags(st, VisitNode(cfg, st, a, v), b)
  {
    ClearKeepsFlags(st, a, v, b);
    var ready, target := ClearBusy(ClearHold(st, a, v), a, v), Target(a, v.busyPathOk, v.holdPathOk);
    DecideKeepsFlags(cfg, ready, target, v, b);
    SameFlagsTwice(st, ready, Decide(cfg, ready, target, v), b);
  }

  lemma SameFlagsTwice(st: Sched, mid: Sched, st': Sched, b: FidoAddress)
    requires SameFlags(st, mid, b) && SameFlags(mid, st', b)
    ensures SameFlags(st, st', b)
  {
  }

  /** A visit changes nothing under other address strings and no dial under them is made. */
  lemma OtherStringsUntouched(cfg: Policy, st: Sched, key: Option<FidoAddress>, v: Visit, x: string)
    requires x != v.address
    ensures var st' := VisitEntry(cfg, st, key, v);
            SameFor(st, st', x) && DialsTo(st'.dials, iset{x}) == DialsTo(st.dials, iset{x})
  {
    VisitDials(cfg, st, key, v, iset{x});
    if key.Some? {
      NodeKeepsString(cfg, st, key.value, v, x);
    } else {
      CallKeepsString(cfg, st, Unknown, v, x);
    }
  }

  /** Nor does it change the flag files of another address. */
  lemma OtherFlagsUntouched(cfg: Policy, st: Sched, key: Option<FidoAddress>, v: Visit, b: FidoAddress)
    requires key != Some(b)
    ensures SameFlags(st, VisitEntry(cfg, st, key, v), b)
  {
    if key.Some? {
      NodeKeepsFlags(cfg, st, key.value, v, b);
    } else {
      CallKeepsFlags(cfg, st, Unknown, v, b);
    }
  }

  /* ---- The dials to one address ---- */

  /** The dials made under one of the names. */
  ghost function DialsTo(dials: seq<Dial>, names: iset<string>): seq<Dial> {
    if dials == [] then []
    else
      var last := dials[|dials| - 1];
      DialsTo(dials[..|dials| - 1], names) + (if last.address in names then [last] else [])
  }

  /** The strings that stand for an address; the dials to the address are those made under them. */
  ghost function StringsOf(keys: Keys, a: FidoAddress): iset<string> {
    iset x: string | keys(x) == Some(a)
  }

  lemma DialsToAppend(dials: seq<Dial>, d: Dial, names: iset<string>)
    ensures DialsTo(dials + [d], names) == DialsTo(dials, names) + (if d.address in names then [d] else [])
  {
    assert (dials + [d])[..|dials|] == dials;
  }

  lemma VisitDials(cfg: Policy, st: Sched, key: Option<FidoAddress>, v: Visit, names: iset<string>)
    ensures DialsTo(VisitEntry(cfg, st, key, v).dials, names)
            == if Allowed(cfg, st, key, v) && v.address in names
               then DialsTo(st.dials, names) + [Attempt(v.address, v.dialAt, v.dialOk)] else DialsTo(st.dials, names)
  {
    DialsExactlyWhenAllowed(cfg, st, key, v);
    DialsToAppend(st.dials, Attempt(v.address, v.dialAt, v.dialOk), names);
  }

  /* ---- One scan ---- */

  /** How many entries have one of the names and are not on hold. */
  ghost function Callable(visits: seq<Visit>, names: iset<string>): nat
    decreases |visits|
  {
    if visits == [] then 0
    else (if visits[0].address in names && visits[0].flavor != "Hold" then 1 else 0) + Callable(visits[1..], names)
  }

  /** One scan dials at most once for each entry. */
  lemma {:induction false} DialsPerEntry(cfg: Policy, st: Sched, keys: Keys, visits: seq<Visit>, names: iset<string>)
    ensures var ds, ds' := DialsTo(st.dials, names), DialsTo(VisitAll(cfg, st, keys, visits).dials, names);
            ds <= ds' && |ds'| <= |ds| + Callable(visits, names)
    decreases |visits|
  {
    if visits != [] {
      var v := visits[0];
      VisitDials(cfg, st, keys(v.address), v, names);
      DialsPerEntry(cfg, VisitEntry(cfg, st, keys(v.address), v), keys, visits[1..], names);
    }
  }

  ghost predicate Apart(visits: seq<Visit>) {
    forall i, j :: 0 <= i < j < |visits| ==> visits[i].address != visits[j].address
  }

  /** Whether an entry with this string is not on hold. */
  ghost predicate HasCallable(visits: seq<Visit>, x: string) {
    exists i :: 0 <= i < |visits| && visits[i].address == x && visits[i].flavor != "Hold"
  }

  lemma {:induction false} CallableOnce(visits: seq<Visit>, x: string)
    requires Apart(visits)
    ensures Callable(visits, iset{x}) <= if HasCallable(visits, x) then 1 else 0
    decreases |visits|
  {
    if visits != [] {
      var rest := visits[1..];
      assert forall i :: 0 <= i < |rest| ==> rest[i] == visits[i + 1];
      CallableOnce(rest, x);
      if HasCallable(rest, x) {
        var i :| 0 <= i < |rest| && rest[i].address == x && rest[i].flavor != "Hold";
        assert visits[i + 1].address == x && visits[0].address != visits[i + 1].address;
      } else if visits[0].address == x && visits[0].flavor != "Hold" {
        assert HasCallable(visits, x);
      }
    }
  }

  lemma {:induction false} CallableSum(visits: seq<Visit>, names: iset<string>, x: string, y: string)
    requires forall v :: v in visits && v.address in names ==> v.address == x || v.address == y
    ensures Callable(visits, names) <= Callable(visits, iset{x}) + Callable(visits, iset{y})
    decreases |visits|
  {
    if visits != [] {
      assert visits == [visits[0]] + visits[1..];
      CallableSum(visits[1..], names, x, y);
    }
  }

  /** One scan dials an address at most once for each of its strings in the queue: once, if
      all its entries have one string, and at most twice, if they have two. */
  lemma DialsPerString(cfg: Policy, st: Sched, keys: Keys, visits: seq<Visit>, a: FidoAddress, x: string, y: string)
    requires Apart(visits)
    requires forall v :: v in visits && keys(v.address) == Some(a) ==> v.address == x || v.address == y
    ensures var names := StringsOf(keys, a);
            var ds, ds' := DialsTo(st.dials, names), DialsTo(Scan(cfg, st, keys, visits).dials, names);
            && ds <= ds'
            && |ds'| <= |ds| + (if HasCallable(visits, x) then 1 else 0)
                             + (if HasCallable(visits, y) && x != y then 1 else 0)
  {
    var names := StringsOf(keys, a);
    DialsPerEntry(cfg, st, keys, visits, names);
    CallableSum(visits, names, x, y);
    CallableOnce(visits, x);
    CallableOnce(visits, y);
    if x == y {
      OneStringSum(visits, names, x);
    }
  }

  lemma {:induction false} OneStringSum(visits: seq<Visit>, names: iset<string>, x: string)
    requires forall v :: v in visits && v.address in names ==> v.address == x
    ensures Callable(visits, names) <= Callable(visits, iset{x})
    decreases |visits|
  {
    if visits != [] {
      assert visits == [visits[0]] + visits[1..];
      OneStringSum(visits[1..], names, x);
    }
  }

  /* ---- From the outbound directory to the dials of one scan ---- */

  /** The visits are those of the queue entries, in their order. */
  ghost predicate Follows(visits: seq<Visit>, queue: seq<OutboundScan.QueueEntry>) {
    && |visits| == |queue|
    && forall i :: 0 <= i < |visits| ==> visits[i].address == queue[i].address && visits[i].flavor == queue[i].flavor
  }

  /** The queue is one of this directory. */
  ghost predicate IsQueueOfTree(queue: seq<OutboundScan.QueueEntry>, defaultZone: uint16, root: seq<OutboundScan.Entry>,
                                sizes: map<string, nat>) {
    OutboundScan.IsQueueOf(queue,
      OutboundScan.Absorb(map[], OutboundScan.Findings(OutboundScan.Root(defaultZone), root, sizes)))
  }

  ghost predicate WantsCall(defaultZone: uint16, root: seq<OutboundScan.Entry>, sizes: map<string, nat>, x: string) {
    exists state :: state != "Hold"
      && OutboundScan.Urgent(OutboundScan.Findings(OutboundScan.Root(defaultZone), root, sizes), x, state)
  }

  /** The entries of an address have one of its two strings. */
  lemma VisitedStrings(visits: seq<Visit>, queue: seq<OutboundScan.QueueEntry>, defaultZone: uint16,
                       root: seq<OutboundScan.Entry>, sizes: map<string, nat>, a: FidoAddress, v: Visit)
    requires Follows(visits, queue) && IsQueueOfTree(queue, defaultZone, root, sizes)
    requires v in visits && Key(v.address) == Some(a)
    ensures || (v.address == Print(a) && HasMail(root, defaultZone, a, false))
            || (v.address == ZeroName(a) && HasMail(root, defaultZone, a, true))
  {
    var i :| 0 <= i < |visits| && visits[i] == v;
    assert queue[i].address == v.address;
    QueuedStrings(queue, defaultZone, root, sizes, a, v.address);
  }

  lemma CallableIsWanted(visits: seq<Visit>, queue: seq<OutboundScan.QueueEntry>, defaultZone: uint16,
                         root: seq<OutboundScan.Entry>, sizes: map<string, nat>, a: FidoAddress, x: string)
    requires Follows(visits, queue) && IsQueueOfTree(queue, defaultZone, root, sizes)
    requires Key(x) == Some(a) && HasCallable(visits, x)
    ensures WantsCall(defaultZone, root, sizes, x)
    ensures || (x == Print(a) && HasMail(root, defaultZone, a, false))
            || (x == ZeroName(a) && HasMail(root, defaultZone, a, true))
  {
    var i :| 0 <= i < |visits| && visits[i].address == x && visits[i].flavor != "Hold";
    OutboundScan.QueueIsSound(queue, defaultZone, root, sizes);
    assert queue[i].flavor == visits[i].flavor;
    VisitedStrings(visits, queue, defaultZone, root, sizes, a, visits[i]);
  }

  lemma VisitsAreApart(visits: seq<Visit>, queue: seq<OutboundScan.QueueEntry>)
    requires Follows(visits, queue) && OutboundScan.Distinct(queue)
    ensures Apart(visits)
  {
  }

  /** From the outbound directory to the dial: a scan dials an address at most once for its
      proper mail and once more for mail with point number zero, each time only if there is
      such mail and the most urgent of it is not on hold. */
  lemma DialledForUrgentMail(cfg: Policy, st: Sched, visits: seq<Visit>, queue: seq<OutboundScan.QueueEntry>,
                             defaultZone: uint16, root: seq<OutboundScan.Entry>, sizes: map<string, nat>, a: FidoAddress)
    requires Follows(visits, queue) && IsQueueOfTree(queue, defaultZone, root, sizes)
    ensures var names := StringsOf(Key, a);
            var ds, ds' := DialsTo(st.dials, names), DialsTo(Scan(cfg, st, Key, visits).dials, names);
            var proper := HasMail(root, defaultZone, a, false) && WantsCall(defaultZone, root, sizes, Print(a));
            var zero := HasMail(root, defaultZone, a, true) && WantsCall(defaultZone, root, sizes, ZeroName(a));
            ds <= ds' && |ds'| <= |ds| + (if proper then 1 else 0) + (if zero then 1 else 0)
  {
    var x, y := Print(a), if HasMail(root, defaultZone, a, true) then ZeroName(a) else Print(a);
    forall v | v in visits && Key(v.address) == Some(a)
      ensures v.address == x || v.address == y
    {
      VisitedStrings(visits, queue, defaultZone, root, sizes, a, v);
    }
    VisitsAreApart(visits, queue);
    DialsPerString(cfg, st, Key, visits, a, x, y);
    PrintParse(a, 0);
    if HasMail(root, defaultZone, a, true) {
      ZeroNameParses(a);
    }
    if HasCallable(visits, x) {
      CallableIsWanted(visits, queue, defaultZone, root, sizes, a, x);
    }
    if HasCallable(visits, y) {
      CallableIsWanted(visits, queue, defaultZone, root, sizes, a, y);
    }
  }

  /* ---- The scheduler itself ---- */

  class Scheduler {
    const cfg: Policy
    var failureCounts: map<string, nat>
    var lastAttemptTime: map<string, int>
    var lastLogState: map<string, string>
    var holdFiles: map<FidoAddress, int>
    var busyFiles: map<FidoAddress, int>
    ghost var dials: seq<Dial>

    constructor (cfg: Policy, holdFiles: map<FidoAddress, int>, busyFiles: map<FidoAddress, int>)
      ensures this.cfg == cfg && JustStarted(View())
      ensures this.holdFiles == holdFiles && this.busyFiles == busyFiles
    {
      this.cfg, this.holdFiles, this.busyFiles := cfg, holdFiles, busyFiles;
      failureCounts, lastAttemptTime, lastLogState, dials := map[], map[], map[], [];
    }

    ghost function View(): Sched
      reads this
    {
      Sched(failureCounts, lastAttemptTime, lastLogState, holdFiles, busyFiles, dials)
    }

    /** The hold flag: an unexpired one ends the visit, an expired one is removed. */
    method CheckHold(a: FidoAddress, v: Visit) returns (go: bool)
      modifies this`lastLogState, this`holdFiles, this`failureCounts
      ensures go <==> !Suspended(cfg, old(View()), a, v)
      ensures View() == if go then ClearHold(old(View()), a, v)
                        else old(View()).(lastLog := old(lastLogState)[v.address := "Suspended"])
    {
      if !v.holdPathOk || a !in holdFiles {
        return true;
      }
      if v.holdNow - holdFiles[a] < cfg.holdTime {
        lastLogState := lastLogState[v.address := "Suspended"];
        return false;
      }
      if v.holdRemoved {
        holdFiles := holdFiles - {a};
      }
      failureCounts := failureCounts[v.address := 0];
      return true;
    }

    /** The busy flag: only a stale one that can be removed lets the visit go on. */
    method CheckBusy(a: FidoAddress, v: Visit) returns (go: bool)
      modifies this`busyFiles
      ensures go <==> !IsBusy(cfg, old(View()), a, v)
      ensures busyFiles == if go then ClearBusy(old(View()), a, v).busy else old(busyFiles)
    {
      if !v.busyPathOk || a !in busyFiles {
        assert busyFiles - {a} == busyFiles || a in busyFiles;
        return true;
      }
      if cfg.staleBusyTimeout > 0 && v.busyNow - busyFiles[a] > cfg.staleBusyTimeout {
        if !v.busyRemoved {
          return false;
        }
        busyFiles := busyFiles - {a};
        return true;
      }
      return false;
    }

    method CountFailure(target: Target, v: Visit)
      modifies this`failureCounts, this`holdFiles
      ensures View() == Failed(cfg, old(View()), target, v)
    {
      var n := (if v.address in failureCounts then failureCounts[v.address] else 0) + 1;
      failureCounts := failureCounts[v.address := n];
      if n >= cfg.maxDialAttempts {
        if target.Target? && target.holdPathOk && v.holdWritten {
          holdFiles := holdFiles[target.addr := v.holdAt];
        }
        failureCounts := failureCounts[v.address := 0];
      }
    }

    method Dial(target: Target, v: Visit)
      modifies this
      ensures View() == Dialled(old(View()), target, v)
    {
      if target.Target? && target.busyPathOk && v.busyCreated {
        busyFiles := busyFiles[target.addr := v.dialAt];
      }
      lastLogState := lastLogState[v.address := v.flavor];
      lastAttemptTime := lastAttemptTime[v.address := v.dialAt];
      dials := dials + [Attempt(v.address, v.dialAt, v.dialOk)];
    }

    method Connect(target: Target, v: Visit)
      modifies this
      ensures View() == Call(cfg, old(View()), target, v)
    {
      Dial(target, v);
      if v.dialOk {
        failureCounts := failureCounts[v.address := 0];
      } else {
        CountFailure(target, v);
      }
      HangUp(target, v);
    }

    method HangUp(target: Target, v: Visit)
      modifies this
      ensures View() == HungUp(old(View()), target, v)
    {
      lastAttemptTime := lastAttemptTime[v.address := v.doneAt];
      if target.Target? && target.busyPathOk && v.busyDeleted {
        busyFiles := busyFiles - {target.addr};
      }
    }

    method Handle(v: Visit)
      modifies this
      ensures View() == VisitEntry(cfg, old(View()), Key(v.address), v)
    {
      if v.address in lastAttemptTime && v.now - lastAttemptTime[v.address] < cfg.rescanPeriod {
        return;
      }
      if v.active {
        return;
      }
      var a := Parse(v.address, 0);
      HandleNode(a, v);
    }

    method HandleNode(key: Option<FidoAddress>, v: Visit)
      modifies this
      ensures View() == if key.Some? then VisitNode(cfg, old(View()), key.value, v) else Decide(cfg, old(View()), Unknown, v)
    {
      var target := Unknown;
      if key.Some? {
        var go := CheckHold(key.value, v);
        if !go {
          return;
        }
        go := CheckBusy(key.value, v);
        if !go {
          return;
        }
        target := Target(key.value, v.busyPathOk, v.holdPathOk);
      }
      if v.linkFound {
        if v.flavor != "Hold" {
          Connect(target, v);
        } else {
          lastLogState := lastLogState[v.address := v.flavor];
        }
      }
    }

    /** ScanAndPoll over the entries of the queue. */
    method ScanAndPoll(muted: bool, visits: seq<Visit>)
      modifies this
      ensures View() == if muted then old(View()) else Scan(cfg, old(View()), Key, visits)
    {
      if muted {
        return;
      }
      var seen := {};
      var i := 0;
      while i < |visits|
        invariant i <= |visits|
        invariant VisitAll(cfg, old(View()), Key, visits) == VisitAll(cfg, View(), Key, visits[i..])
        invariant seen == Seen(visits[..i])
      {
        SeenMore(visits, i);
        VisitAllStep(cfg, View(), Key, visits, i);
        seen := seen + {visits[i].address};
        Handle(visits[i]);
        i := i + 1;
      }
      assert visits[..|visits|] == visits;
      Forget(seen);
    }

    /** The clean-up after a scan: only what was seen is remembered. */
    method Forget(seen: set<string>)
      modifies this`lastLogState, this`lastAttemptTime
      ensures View() == Pruned(old(View()), seen)
    {
      lastLogState := map a | a in lastLogState && a in seen :: lastLogState[a];
      lastAttemptTime := map a | a in lastAttemptTime && a in seen :: lastAttemptTime[a];
    }

    static lemma SeenMore(visits: seq<Visit>, i: nat)
      requires i < |visits|
      ensures Seen(visits[..i + 1]) == Seen(visits[..i]) + {visits[i].address}
    {
      assert visits[..i + 1] == visits[..i] + [visits[i]];
    }
  }
}
