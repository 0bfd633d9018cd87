/** Value-level model of the network scanner (Smb4KScanner): the cache of
    lookup workers, the state changes of the lookup functions, and the
    reconciliation of a worker's transient result list with the registry.
    The Scanner class in scanner.dfy performs these changes step by step
    and is proved to end in the states computed here.

    Network items are represented in the cache and in the signals by their
    key (Smb4KBasicNetworkItem::key()), which callers supply; None stands
    for a NULL item. */
module ScanModel {
  import opened Common
  import opened Text
  import opened NetworkItems
  import opened Topology

  // ---------------------------------------------------------------------
  // Workers and signals
  // ---------------------------------------------------------------------

  /** The lookup kinds of Smb4KScanner (also the Smb4KProcess types). */
  datatype Process = LookupDomains | LookupDomainMembers | LookupShares | LookupInfo

  datatype ProcessState = NotRunning | Starting | Running

  /** What the scanner sees of a worker thread: the kind of its process,
      the item it works for, whether it has a process yet, that process's
      state and abort flag, and whether the thread has finished. */
  datatype Worker = Worker(kind: Process, item: Option<string>, hasProcess: bool,
                           state: ProcessState, aborted: bool, finished: bool)

  /** The m_state values. */
  datatype ScanState = Stop | LookupDomainsState | QueryMasterBrowser | ScanBroadcastAreas
                     | OpenWorkgroup | OpenHost | QueryInfo

  /** Signals and error messages, recorded in order. */
  datatype Event =
    | CommandNotFound(program: string)
    | AboutToStart(item: Option<string>, process: Process)
    | Finished(item: Option<string>, process: Process)
    | WorkgroupsReported(workgroups: seq<Workgroup>)
    | HostsReported(workgroup: Option<Workgroup>, hosts: seq<Host>)
    | SharesReported(host: Host, shares: seq<Share>)
    | InfoReported(host: Host)
    | HostInserted(host: Host)
    | HostListChanged
    | IpLookupRequested(hosts: seq<Host>, wait: bool)

  /** The scanner's fields together with the registry lists. */
  datatype World = World(cache: map<string, Worker>, state: ScanState, working: bool,
                         events: seq<Event>, lists: Lists)

  /** A freshly started worker. */
  function NewWorker(kind: Process, item: Option<string>): Worker {
    Worker(kind, item, true, Starting, false, false)
  }

  // ---------------------------------------------------------------------
  // abort, isAborted, isRunning, abortAll
  // ---------------------------------------------------------------------

  /** The case labels of the switch in abort, isAborted and isRunning: the
      LookupShares case has no break and falls into the LookupInfo case. */
  predicate Matches(kind: Process, process: Process) {
    kind == process || (kind == LookupShares && process == LookupInfo)
  }

  predicate Active(w: Worker) {
    w.hasProcess && (w.state == Running || w.state == Starting)
  }

  function Aborted(w: Worker): Worker {
    w.(aborted := true)
  }

  /** abort(item, process): the worker cached under the item's key when
      its process is running or starting; with a NULL item every worker
      whose process kind matches, whatever its state. */
  function AbortCache(c: map<string, Worker>, item: Option<string>, process: Process): map<string, Worker> {
    match item
    case Some(k) =>
      if k in c && Active(c[k]) then c[k := Aborted(c[k])] else c
    case None =>
      map k | k in c :: if c[k].hasProcess && Matches(c[k].kind, process) then Aborted(c[k]) else c[k]
  }

  /** isAborted(item, process). */
  predicate IsAbortedIn(c: map<string, Worker>, item: Option<string>, process: Process) {
    match item
    case Some(k) => k in c && c[k].hasProcess && c[k].aborted
    case None => exists k :: k in c && c[k].hasProcess && Matches(c[k].kind, process) && c[k].aborted
  }

  /** isRunning(item, process). */
  predicate IsRunningIn(c: map<string, Worker>, item: Option<string>, process: Process) {
    match item
    case Some(k) => k in c && c[k].hasProcess && c[k].state == Running
    case None => exists k :: k in c && c[k].hasProcess && Matches(c[k].kind, process) && c[k].state == Running
  }

  /** abortAll: every running or starting worker, unless the application
      is closing down. */
  function AbortAllCache(c: map<string, Worker>, closingDown: bool): map<string, Worker> {
    if closingDown then c
    else map k | k in c :: if Active(c[k]) then Aborted(c[k]) else c[k]
  }

  // ---------------------------------------------------------------------
  // slotThreadFinished
  // ---------------------------------------------------------------------

  function FinishedKeys(c: map<string, Worker>): set<string> {
    set k | k in c && c[k].finished
  }

  function Unfinished(c: map<string, Worker>): map<string, Worker> {
    map k | k in c && !c[k].finished :: c[k]
  }

  function FinishedEvent(w: Worker): Event {
    Finished(w.item, w.kind)
  }

  /** The fields after slotThreadFinished: the scanner stops working when
      the cache has become empty. */
  function AfterThreadsFinished(w: World): World {
    var c := Unfinished(w.cache);
    w.(cache := c,
       working := if |c| == 0 then false else w.working,
       state := if |c| == 0 then Stop else w.state)
  }

  // ---------------------------------------------------------------------
  // Starting a lookup
  // ---------------------------------------------------------------------

  /** The common tail of every lookup: set the state, start working when
      the cache was empty, announce aboutToStart and cache the worker
      (replacing any worker under the same key). */
  function Started(w: World, key: string, st: ScanState, item: Option<string>, kind: Process): World {
    w.(state := st,
       working := if |w.cache| == 0 then true else w.working,
       events := w.events + [AboutToStart(item, kind)],
       cache := w.cache[key := NewWorker(kind, item)])
  }

  /** The first program of `programs` that is not available. */
  function FirstMissing(programs: seq<string>, available: set<string>): (r: Option<string>)
    ensures r.Some? ==> r.value in programs && r.value !in available
    ensures r.None? <==> forall p :: p in programs ==> p in available
  {
    if programs == [] then None
    else if programs[0] !in available then Some(programs[0])
    else FirstMissing(programs[1..], available)
  }

  /** The settings that choose how lookupDomains finds the workgroups. */
  datatype BrowseSettings = BrowseSettings(lookupDomains: bool, queryCurrentMaster: bool,
                                           queryCustomMaster: bool, scanBroadcastAreas: bool)

  datatype Strategy = NmbLookup | CurrentMaster | CustomMaster | BroadcastAreas

  function ChooseStrategy(s: BrowseSettings): Option<Strategy> {
    if s.lookupDomains then Some(NmbLookup)
    else if s.queryCurrentMaster then Some(CurrentMaster)
    else if s.queryCustomMaster then Some(CustomMaster)
    else if s.scanBroadcastAreas then Some(BroadcastAreas)
    else None
  }

  /** The programs each strategy looks up, in the order it looks. */
  function Programs(st: Strategy): seq<string> {
    match st
    case NmbLookup => ["nmblookup", "grep", "awk", "xargs"]
    case CurrentMaster => ["net", "xargs"]
    case CustomMaster => ["net", "xargs"]
    case BroadcastAreas => ["nmblookup", "awk", "sed", "xargs"]
  }

  function StateOf(st: Strategy): ScanState {
    match st
    case NmbLookup => LookupDomainsState
    case CurrentMaster => QueryMasterBrowser
    case CustomMaster => QueryMasterBrowser
    case BroadcastAreas => ScanBroadcastAreas
  }

  /** lookupDomains; `key` is the random number the worker is cached under. */
  function LookupDomainsStep(w: World, s: BrowseSettings, available: set<string>, key: string): World {
    match ChooseStrategy(s)
    case None => w
    case Some(st) =>
      match FirstMissing(Programs(st), available)
      case Some(p) => w.(events := w.events + [CommandNotFound(p)])
      case None => Started(w, key, StateOf(st), None, LookupDomains)
  }

  /** lookupDomainMembers: without a known master browser the registry's
      members are reported at once and nothing is started. */
  function LookupDomainMembersStep(w: World, wg: Workgroup, key: string, available: set<string>): World {
    if "net" !in available then w.(events := w.events + [CommandNotFound("net")])
    else if FindHost(w.lists.hosts, wg.masterName, wg.name).Some? then
      Started(w, key, OpenWorkgroup, Some(key), LookupDomainMembers)
    else
      w.(events := w.events + [HostsReported(Some(wg), WorkgroupMembers(w.lists.hosts, wg)), HostListChanged])
  }

  /** lookupShares. */
  function LookupSharesStep(w: World, key: string, available: set<string>): World {
    if "net" !in available then w.(events := w.events + [CommandNotFound("net")])
    else Started(w, key, OpenHost, Some(key), LookupShares)
  }

  /** lookupInfo: a registry copy whose information was already checked
      is reported instead of starting a lookup. */
  function LookupInfoStep(w: World, h: Host, key: string, available: set<string>): World {
    var known := FindHost(w.lists.hosts, HostName(h), h.workgroup);
    if known.Some? && w.lists.hosts[known.value].infoChecked then
      w.(events := w.events + [InfoReported(w.lists.hosts[known.value])])
    else if "smbclient" !in available then w.(events := w.events + [CommandNotFound("smbclient")])
    else Started(w, key, QueryInfo, Some(key), LookupInfo)
  }

  // ---------------------------------------------------------------------
  // insertHost
  // ---------------------------------------------------------------------

  /** The pseudo master browser workgroup made for a host whose workgroup
      is unknown. */
  function PseudoWorkgroup(h: Host): Workgroup {
    WithMasterBrowser(NewWorkgroup(h.workgroup), HostName(h), h.ip, true)
  }

  /** insertHost: a copy is added unless the registry already has the
      host; an unknown workgroup is created with the host as its pseudo
      master browser; an unchecked IP address is looked up. */
  function InsertHostStep(w: World, h: Host): World {
    var c := CopyHost(h);
    var l := w.lists;
    if FindHost(l.hosts, HostName(c), c.workgroup).Some? then w
    else
      var unknown := FindWorkgroup(l.workgroups, c.workgroup).None?;
      var c2 := if unknown then c.(isMaster := true) else c;
      var ws := if unknown then l.workgroups + [PseudoWorkgroup(c)] else l.workgroups;
      w.(lists := l.(hosts := l.hosts + [c2], workgroups := ws),
         events := w.events
                   + (if unknown then [WorkgroupsReported(ws)] else [])
                   + (if !c2.ipChecked then [IpLookupRequested([c2], false)] else [])
                   + [HostInserted(c2), HostListChanged])
  }

  // ---------------------------------------------------------------------
  // slotWorkgroups
  // ---------------------------------------------------------------------

  /** A new master browser host for a transient workgroup entry. */
  function NewMasterBrowser(e: Workgroup): Host {
    var h := WithHostName(DefaultHost, e.masterName);
    var h1 := if HasMasterIP(e) then WithIP(h, e.masterIP) else h;
    h1.(workgroup := e.name, isMaster := true)
  }

  /** The entry's master browser is promoted (taking the entry's IP when
      it has one) or created and added. */
  function PromoteMaster(hs: seq<Host>, e: Workgroup): seq<Host> {
    match FindHost(hs, e.masterName, e.name)
    case Some(j) =>
      hs[j := (if HasMasterIP(e) then WithIP(hs[j], e.masterIP) else hs[j]).(isMaster := true)]
    case None => WithHost(hs, NewMasterBrowser(e))
  }

  /** The old master browser of a workgroup, if known, is demoted. */
  function DemoteMaster(hs: seq<Host>, name: string, workgroup: string): seq<Host> {
    match FindHost(hs, name, workgroup)
    case Some(j) => hs[j := hs[j].(isMaster := false)]
    case None => hs
  }

  /** One pass of the first loop of slotWorkgroups for entry `e`. */
  function MergeEntry(l: Lists, e: Workgroup): Lists {
    match FindWorkgroup(l.workgroups, e.name)
    case Some(k) =>
      var known := l.workgroups[k];
      var hs := if !EqualsIgnoreCase(known.masterName, e.masterName)
                then PromoteMaster(DemoteMaster(l.hosts, known.masterName, known.name), e)
                else l.hosts;
      l.(hosts := hs, workgroups := RemoveFirst(l.workgroups, known))
    case None =>
      l.(hosts := PromoteMaster(l.hosts, e))
  }

  function MergeEntries(l: Lists, es: seq<Workgroup>): Lists
    decreases |es|
  {
    if es == [] then l else MergeEntry(MergeEntries(l, es[..|es| - 1]), es[|es| - 1])
  }

  /** The second loop: until the workgroup list is empty, take its first
      workgroup, remove its members one by one, then remove it. */
  function Prune(l: Lists): Lists
    decreases |l.workgroups|
  {
    if l.workgroups == [] then l
    else
      var w := l.workgroups[0];
      Prune(l.(hosts := RemoveEach(l.hosts, WorkgroupMembers(l.hosts, w)),
               workgroups := l.workgroups[1..]))
  }

  /** The third loop: addWorkgroup of a copy of every entry, in order. */
  function AddWorkgroups(ws: seq<Workgroup>, es: seq<Workgroup>): seq<Workgroup>
    decreases |es|
  {
    if es == [] then ws else WithWorkgroup(AddWorkgroups(ws, es[..|es| - 1]), es[|es| - 1])
  }

  /** The fourth loop, for one workgroup: without a master browser IP it
      takes the registry master browser's address. */
  function FillMasterIP(w: Workgroup, hs: seq<Host>): Workgroup {
    if HasMasterIP(w) then w
    else match FindHost(hs, w.masterName, w.name)
      case Some(j) => w.(masterIP := hs[j].ip)
      case None => w
  }

  /** The blocking IP lookup the fourth loop asks for, for one workgroup. */
  function MasterLookup(w: Workgroup, hs: seq<Host>): seq<Event> {
    if HasMasterIP(w) then []
    else match FindHost(hs, w.masterName, w.name)
      case Some(j) => if !HasIP(hs[j]) then [IpLookupRequested([hs[j]], true)] else []
      case None => []
  }

  function MasterLookups(ws: seq<Workgroup>, hs: seq<Host>): seq<Event>
    decreases |ws|
  {
    if ws == [] then [] else MasterLookups(ws[..|ws| - 1], hs) + MasterLookup(ws[|ws| - 1], hs)
  }

  /** One more pass of the fourth loop of slotWorkgroups. */
  lemma MasterLookupsStep(ws: seq<Workgroup>, hs: seq<Host>, i: nat)
    requires i < |ws|
    ensures MasterLookups(ws[..i + 1], hs) == MasterLookups(ws[..i], hs) + MasterLookup(ws[i], hs)
  {
    assert ws[..i + 1][..i] == ws[..i];
  }

  function FillMasterIPs(ws: seq<Workgroup>, hs: seq<Host>): (r: seq<Workgroup>)
    ensures |r| == |ws|
  {
    seq(|ws|, i requires 0 <= i < |ws| => FillMasterIP(ws[i], hs))
  }

  /** Filling in entry i of a list whose first i entries are filled. */
  lemma FillMasterIPsStep(ws: seq<Workgroup>, hs: seq<Host>, i: nat)
    requires i < |ws|
    ensures (FillMasterIPs(ws[..i], hs) + ws[i..])[i := FillMasterIP(ws[i], hs)] ==
            FillMasterIPs(ws[..i + 1], hs) + ws[i + 1..]
  {
    var a := (FillMasterIPs(ws[..i], hs) + ws[i..])[i := FillMasterIP(ws[i], hs)];
    var b := FillMasterIPs(ws[..i + 1], hs) + ws[i + 1..];
    assert forall k :: 0 <= k < |ws| ==> a[k] == b[k];
  }

  /** slotWorkgroups. */
  function WorkgroupsStep(w: World, es: seq<Workgroup>): World {
    var l1 := MergeEntries(w.lists, es);
    var l2 := Prune(l1);
    var ws := AddWorkgroups(l2.workgroups, es);
    var ws2 := FillMasterIPs(ws, l2.hosts);
    w.(lists := l2.(workgroups := ws2),
       events := w.events + MasterLookups(ws, l2.hosts) + [HostListChanged, WorkgroupsReported(ws2)])
  }

  // ---------------------------------------------------------------------
  // slotHosts
  // ---------------------------------------------------------------------

  /** A transient host completed from its registry copy `k`: an empty
      comment is filled, the protocol is always taken, the information and
      the IP address only when unchecked. */
  function EnrichFrom(t: Host, k: Host): Host {
    var t1 := if t.comment == "" && k.comment != "" then t.(comment := k.comment) else t;
    var t2 := if t1.protocol != k.protocol then t1.(protocol := k.protocol) else t1;
    var t3 := if !t2.infoChecked && k.infoChecked then WithInfo(t2, k.serverString, k.osString) else t2;
    if !t3.ipChecked && k.ipChecked then WithIP(t3, k.ip) else t3
  }

  function Enrich(t: Host, hs: seq<Host>): Host {
    match FindHost(hs, HostName(t), t.workgroup)
    case Some(j) => EnrichFrom(t, hs[j])
    case None => t
  }

  function EnrichAll(ts: seq<Host>, hs: seq<Host>): (r: seq<Host>)
    ensures |r| == |ts|
  {
    seq(|ts|, i requires 0 <= i < |ts| => Enrich(ts[i], hs))
  }

  /** Remove the registry copy of `t`, if any, then add a copy of `t`. */
  function ReplaceHost(hs: seq<Host>, t: Host): seq<Host> {
    var hs1 := match FindHost(hs, HostName(t), t.workgroup)
               case Some(j) => RemoveFirst(hs, hs[j])
               case None => hs;
    WithHost(hs1, CopyHost(t))
  }

  function ReplaceHosts(hs: seq<Host>, ts: seq<Host>): seq<Host>
    decreases |ts|
  {
    if ts == [] then hs else ReplaceHost(ReplaceHosts(hs, ts[..|ts| - 1]), ts[|ts| - 1])
  }

  /** One more pass of the replacing loop. */
  lemma ReplaceHostsStep(hs: seq<Host>, ts: seq<Host>, i: nat)
    requires i < |ts|
    ensures ReplaceHosts(hs, ts[..i + 1]) == ReplaceHost(ReplaceHosts(hs, ts[..i]), ts[i])
  {
    assert ts[..i + 1][..i] == ts[..i];
  }

  /** addHost of a copy of every entry, in order. */
  function AddHostCopies(hs: seq<Host>, ts: seq<Host>): seq<Host>
    decreases |ts|
  {
    if ts == [] then hs else WithHost(AddHostCopies(hs, ts[..|ts| - 1]), CopyHost(ts[|ts| - 1]))
  }

  /** One more pass of the adding loop. */
  lemma AddHostCopiesStep(hs: seq<Host>, ts: seq<Host>, i: nat)
    requires i < |ts|
    ensures AddHostCopies(hs, ts[..i + 1]) == WithHost(AddHostCopies(hs, ts[..i]), CopyHost(ts[i]))
  {
    assert ts[..i + 1][..i] == ts[..i];
  }

  /** The host list slotHosts leaves for a workgroup: the hosts that
      arrived replace their namesakes, or, when none arrived, the
      workgroup's members are removed. */
  function WorkgroupHostsAfter(hs: seq<Host>, g: Workgroup, ts2: seq<Host>): seq<Host> {
    if ts2 != [] then ReplaceHosts(hs, ts2) else RemoveEach(hs, WorkgroupMembers(hs, g))
  }

  /** slotHosts(workgroup, list). */
  function HostsStep(w: World, wg: Option<Workgroup>, ts: seq<Host>): World {
    var ts2 := EnrichAll(ts, w.lists.hosts);
    match wg
    case Some(g) =>
      var hs := WorkgroupHostsAfter(w.lists.hosts, g, ts2);
      w.(lists := w.lists.(hosts := hs),
         events := w.events + [IpLookupRequested(hs, false), HostsReported(wg, WorkgroupMembers(hs, g)),
                               HostListChanged])
    case None =>
      var hs := AddHostCopies([], ts2);
      w.(lists := w.lists.(hosts := hs),
         events := w.events + [HostsReported(None, hs), HostListChanged])
  }

  // ---------------------------------------------------------------------
  // slotShares
  // ---------------------------------------------------------------------

  /** The mount a listed share takes its mount data from: the first one
      that is not foreign, otherwise the first one. */
  function PickMount(ms: seq<Share>): Share
    requires ms != []
  {
    match FindFirst(ms, (m: Share) => !m.foreign)
    case Some(j) => ms[j]
    case None => ms[0]
  }

  function WithMounts(s: Share, mounted: seq<Share>): Share {
    var ms := FindShareByUNC(mounted, ShareUnc(s));
    if ms == [] then s else WithMountData(s, PickMount(ms))
  }

  /** Remove the registry share with the same name, host and workgroup,
      if any, then add the share. */
  function ReplaceShare(ss: seq<Share>, s: Share): seq<Share> {
    var ss1 := match FindShare(ss, s.name, s.host, s.workgroup)
               case Some(j) => RemoveFirst(ss, ss[j])
               case None => ss;
    WithShare(ss1, s)
  }

  /** The loop of slotShares over a non-empty list. */
  function MergeShares(ss: seq<Share>, ts: seq<Share>, mounted: seq<Share>): seq<Share>
    decreases |ts|
  {
    if ts == [] then ss
    else ReplaceShare(MergeShares(ss, ts[..|ts| - 1], mounted), WithMounts(ts[|ts| - 1], mounted))
  }

  /** One more pass of the loop of slotShares. */
  lemma MergeSharesStep(ss: seq<Share>, ts: seq<Share>, mounted: seq<Share>, i: nat)
    requires i < |ts|
    ensures MergeShares(ss, ts[..i + 1], mounted) == ReplaceShare(MergeShares(ss, ts[..i], mounted), WithMounts(ts[i], mounted))
  {
    assert ts[..i + 1][..i] == ts[..i];
  }

  /** slotShares(host, list). */
  function SharesStep(w: World, h: Host, ts: seq<Share>): World {
    var l := w.lists;
    var ss := if ts != [] then MergeShares(l.shares, ts, l.mountedShares)
              else RemoveEach(l.shares, SharedResources(l.shares, h));
    w.(lists := l.(shares := ss), events := w.events + [SharesReported(h, SharedResources(ss, h))])
  }

  // ---------------------------------------------------------------------
  // slotInformation
  // ---------------------------------------------------------------------

  /** slotInformation(host): checked information is stored on the
      registry copy, or a copy of the host is added. */
  function InformationStep(w: World, h: Host): World {
    var l := w.lists;
    var hs := if !h.infoChecked then l.hosts
              else match FindHost(l.hosts, HostName(h), h.workgroup)
                case Some(j) => l.hosts[j := WithInfo(l.hosts[j], h.serverString, h.osString)]
                case None => WithHost(l.hosts, CopyHost(h));
    w.(lists := l.(hosts := hs), events := w.events + [InfoReported(h)])
  }

  // ---------------------------------------------------------------------
  // Properties: starting lookups
  // ---------------------------------------------------------------------

  /** lookupDomains takes exactly one strategy, in the fixed order
      lookupDomains, queryCurrentMaster, queryCustomMaster,
      scanBroadcastAreas, and none when no setting is on. */
  lemma StrategyPrecedence(s: BrowseSettings)
    ensures ChooseStrategy(s) == Some(NmbLookup) <==> s.lookupDomains
    ensures ChooseStrategy(s) == Some(CurrentMaster) <==> !s.lookupDomains && s.queryCurrentMaster
    ensures ChooseStrategy(s) == Some(CustomMaster)
            <==> !s.lookupDomains && !s.queryCurrentMaster && s.queryCustomMaster
    ensures ChooseStrategy(s) == Some(BroadcastAreas)
            <==> !s.lookupDomains && !s.queryCurrentMaster && !s.queryCustomMaster && s.scanBroadcastAreas
    ensures ChooseStrategy(s).None?
            <==> !s.lookupDomains && !s.queryCurrentMaster && !s.queryCustomMaster && !s.scanBroadcastAreas
  {
  }

  /** The reported program is the first missing one of the strategy. */
  lemma {:induction false} FirstMissingIsFirst(programs: seq<string>, available: set<string>, i: nat)
    requires FirstMissing(programs, available).Some?
    requires i < |programs| && programs[i] == FirstMissing(programs, available).value
    requires forall j :: 0 <= j < i ==> programs[j] != programs[i]
    ensures forall j :: 0 <= j < i ==> programs[j] in available
  {
    if programs[0] in available && i > 0 {
      FirstMissingIsFirst(programs[1..], available, i - 1);
      forall j | 0 <= j < i ensures programs[j] in available {
        if j > 0 { assert programs[j] == programs[1..][j - 1]; }
      }
    }
  }

  /** lookupDomains with a missing program reports it and returns before
      announcing, caching or starting anything; otherwise it caches a new
      worker under the key, announces it and sets the strategy's state. */
  lemma LookupDomainsContract(w: World, s: BrowseSettings, available: set<string>, key: string)
    ensures ChooseStrategy(s).None? ==> LookupDomainsStep(w, s, available, key) == w
    ensures ChooseStrategy(s).Some? && FirstMissing(Programs(ChooseStrategy(s).value), available).Some? ==>
      var r := LookupDomainsStep(w, s, available, key);
      var p := FirstMissing(Programs(ChooseStrategy(s).value), available).value;
      && r == w.(events := w.events + [CommandNotFound(p)])
      && p in Programs(ChooseStrategy(s).value) && p !in available
    ensures ChooseStrategy(s).Some? && FirstMissing(Programs(ChooseStrategy(s).value), available).None? ==>
      var r := LookupDomainsStep(w, s, available, key);
      && r.cache == w.cache[key := NewWorker(LookupDomains, None)]
      && r.state == StateOf(ChooseStrategy(s).value)
      && r.working == (w.working || |w.cache| == 0)
      && r.events == w.events + [AboutToStart(None, LookupDomains)]
      && r.lists == w.lists
  {
  }

  /** The member, share and information lookups likewise start nothing
      when their program is missing. */
  lemma MissingProgramStartsNothing(w: World, wg: Workgroup, h: Host, key: string, available: set<string>)
    ensures "net" !in available ==>
      LookupDomainMembersStep(w, wg, key, available) == w.(events := w.events + [CommandNotFound("net")])
      && LookupSharesStep(w, key, available) == w.(events := w.events + [CommandNotFound("net")])
    ensures "smbclient" !in available ==>
      var r := LookupInfoStep(w, h, key, available);
      r.cache == w.cache && r.state == w.state && r.working == w.working && r.lists == w.lists
  {
  }

  /** lookupDomainMembers starts a worker only for a workgroup whose
      master browser is a known host; otherwise it reports the known
      members. */
  lemma LookupDomainMembersContract(w: World, wg: Workgroup, key: string, available: set<string>)
    requires "net" in available
    ensures var r := LookupDomainMembersStep(w, wg, key, available);
      if FindHost(w.lists.hosts, wg.masterName, wg.name).Some? then
        r.cache == w.cache[key := NewWorker(LookupDomainMembers, Some(key))] && r.state == OpenWorkgroup
        && r.working == (w.working || |w.cache| == 0)
      else
        r.cache == w.cache && r.state == w.state
        && r.events == w.events + [HostsReported(Some(wg), WorkgroupMembers(w.lists.hosts, wg)), HostListChanged]
  {
  }

  /** lookupInfo answers from the registry when the host's information
      is already known there, and then starts nothing. */
  lemma LookupInfoKnown(w: World, h: Host, key: string, available: set<string>, j: nat)
    requires FindHost(w.lists.hosts, HostName(h), h.workgroup) == Some(j)
    requires w.lists.hosts[j].infoChecked
    ensures LookupInfoStep(w, h, key, available) == w.(events := w.events + [InfoReported(w.lists.hosts[j])])
  {
  }

  /** Nothing rejects a second lookup under a key that is already cached:
      the new worker replaces the old one (lookupInfo after lookupShares
      on the same host keeps only the information lookup). */
  lemma SecondLookupReplaces(w: World, key: string, available: set<string>, h: Host)
    requires "net" in available && "smbclient" in available
    requires FindHost(w.lists.hosts, HostName(h), h.workgroup).None?
    ensures var r := LookupInfoStep(LookupSharesStep(w, key, available), h, key, available);
      r.cache == w.cache[key := NewWorker(LookupInfo, Some(key))]
      && |r.events| == |w.events| + 2
  {
  }

  // ---------------------------------------------------------------------
  // Properties: abort, isAborted, isRunning, abortAll
  // ---------------------------------------------------------------------

  /** abort only ever raises abort flags and never adds or drops workers. */
  lemma AbortOnlyFlags(c: map<string, Worker>, item: Option<string>, process: Process)
    ensures AbortCache(c, item, process).Keys == c.Keys
    ensures forall k :: k in c ==>
      AbortCache(c, item, process)[k] == c[k] || AbortCache(c, item, process)[k] == Aborted(c[k])
  {
  }

  /** The missing break: abort(NULL, LookupInfo) also aborts share
      lookups, while abort(NULL, LookupShares) leaves information lookups
      alone. isAborted and isRunning fall through the same way. */
  lemma ShareLookupsFallThrough(c: map<string, Worker>, k: string)
    requires k in c && c[k].hasProcess
    ensures c[k].kind == LookupShares ==> AbortCache(c, None, LookupInfo)[k].aborted
    ensures c[k].kind == LookupInfo ==> AbortCache(c, None, LookupShares)[k] == c[k]
    ensures c[k].kind == LookupShares && c[k].aborted ==> IsAbortedIn(c, None, LookupInfo)
    ensures c[k].kind == LookupShares && c[k].state == Running ==> IsRunningIn(c, None, LookupInfo)
  {
  }

  /** After abort(NULL, p), isAborted(NULL, p) holds exactly when some
      cached worker with a process matches p. */
  lemma AbortThenAborted(c: map<string, Worker>, process: Process)
    ensures IsAbortedIn(AbortCache(c, None, process), None, process)
            <==> exists k :: k in c && c[k].hasProcess && Matches(c[k].kind, process)
  {
    var a := AbortCache(c, None, process);
    if exists k :: k in c && c[k].hasProcess && Matches(c[k].kind, process) {
      var k :| k in c && c[k].hasProcess && Matches(c[k].kind, process);
      assert a[k].aborted;
    }
  }

  /** abort(item) raises the flag exactly when the item's worker is
      running or starting. */
  lemma AbortItem(c: map<string, Worker>, k: string, process: Process)
    requires k in c
    ensures IsAbortedIn(AbortCache(c, Some(k), process), Some(k), process)
            <==> (c[k].hasProcess && (c[k].aborted || Active(c[k])))
  {
  }

  /** abortAll aborts every running or starting worker and leaves the
      others as they were; while the application closes it does nothing. */
  lemma AbortAllContract(c: map<string, Worker>, closingDown: bool)
    ensures AbortAllCache(c, closingDown).Keys == c.Keys
    ensures closingDown ==> AbortAllCache(c, closingDown) == c
    ensures !closingDown ==> forall k :: k in c ==>
      (Active(c[k]) ==> IsAbortedIn(AbortAllCache(c, closingDown), Some(k), LookupDomains))
      && (!Active(c[k]) ==> AbortAllCache(c, closingDown)[k] == c[k])
  {
  }

  // ---------------------------------------------------------------------
  // Properties: slotThreadFinished
  // ---------------------------------------------------------------------

  /** slotThreadFinished keeps exactly the unfinished workers, unchanged;
      the cache shrinks by the number of finished ones; an empty cache
      stops the scanner. */
  lemma ThreadsFinishedContract(w: World)
    ensures var r := AfterThreadsFinished(w);
      && r.cache.Keys == w.cache.Keys - FinishedKeys(w.cache)
      && (forall k :: k in r.cache ==> r.cache[k] == w.cache[k] && !r.cache[k].finished)
      && |r.cache| == |w.cache| - |FinishedKeys(w.cache)|
      && (|r.cache| == 0 ==> !r.working && r.state == Stop)
      && (|r.cache| > 0 ==> r.working == w.working && r.state == w.state)
      && r.events == w.events && r.lists == w.lists
  {
    var r := AfterThreadsFinished(w);
    assert r.cache.Keys == w.cache.Keys - FinishedKeys(w.cache);
    assert FinishedKeys(w.cache) <= w.cache.Keys;
  }

  // ---------------------------------------------------------------------
  // Properties: insertHost
  // ---------------------------------------------------------------------

  /** insertHost adds a copy exactly when findHost fails for the host's
      own name and workgroup; afterwards the host is found. An unknown
      workgroup is created with the host as its pseudo master browser,
      and the host is marked as master browser. */
  lemma InsertHostContract(w: World, h: Host)
    requires WellFormed(h.url)
    ensures var r := InsertHostStep(w, h);
      && (FindHost(w.lists.hosts, HostName(h), h.workgroup).Some? ==> r == w)
      && (FindHost(w.lists.hosts, HostName(h), h.workgroup).None? ==>
            && |r.lists.hosts| == |w.lists.hosts| + 1
            && r.lists.hosts[..|w.lists.hosts|] == w.lists.hosts
            && HostIdentified(r.lists.hosts[|w.lists.hosts|], HostName(h), h.workgroup)
            && FindWorkgroup(r.lists.workgroups, h.workgroup).Some?
            && (FindWorkgroup(w.lists.workgroups, h.workgroup).None? ==>
                  && r.lists.hosts[|w.lists.hosts|].isMaster
                  && r.lists.workgroups == w.lists.workgroups + [PseudoWorkgroup(CopyHost(h))]
                  && PseudoWorkgroup(CopyHost(h)).masterName == HostName(h)
                  && PseudoWorkgroup(CopyHost(h)).pseudoMaster)
            && (FindWorkgroup(w.lists.workgroups, h.workgroup).Some? ==>
                  r.lists.workgroups == w.lists.workgroups))
  {
    CopyHostKeepsKey(h);
    CopyHostKeepsFields(h);
    var c := CopyHost(h);
    assert c.workgroup == h.workgroup;
    if FindHost(w.lists.hosts, HostName(h), h.workgroup).None? {
      var r := InsertHostStep(w, h);
      var n := |w.lists.hosts|;
      assert r.lists.hosts[..n] == w.lists.hosts;
      if FindWorkgroup(w.lists.workgroups, h.workgroup).None? {
        assert WorkgroupNamed(r.lists.workgroups[|w.lists.workgroups|], h.workgroup);
      }
    }
  }

  // ---------------------------------------------------------------------
  // Properties: slotHosts
  // ---------------------------------------------------------------------

  /** Enrichment from the registry copy: an empty comment is filled, the
      protocol is always copied, the information and the IP address are
      copied only when the transient host has not checked them; the URL,
      workgroup and master flag are kept. */
  lemma EnrichFromContract(t: Host, k: Host)
    ensures var r := EnrichFrom(t, k);
      && r.url == t.url && r.workgroup == t.workgroup && r.isMaster == t.isMaster
      && r.comment == (if t.comment == "" then k.comment else t.comment)
      && r.protocol == k.protocol
      && r.infoChecked == (t.infoChecked || k.infoChecked)
      && (r.serverString, r.osString)
         == (if !t.infoChecked && k.infoChecked then (k.serverString, k.osString) else (t.serverString, t.osString))
      && r.ipChecked == (t.ipChecked || k.ipChecked)
      && r.ip == (if !t.ipChecked && k.ipChecked then k.ip else t.ip)
  {
  }

  lemma EnrichAllKeys(ts: seq<Host>, hs: seq<Host>)
    ensures forall i :: 0 <= i < |ts| ==>
      EnrichAll(ts, hs)[i].url == ts[i].url && EnrichAll(ts, hs)[i].workgroup == ts[i].workgroup
    ensures PairwiseApart(ts, HostHides) ==> PairwiseApart(EnrichAll(ts, hs), HostHides)
  {
    var ts2 := EnrichAll(ts, hs);
    forall i | 0 <= i < |ts| ensures ts2[i].url == ts[i].url && ts2[i].workgroup == ts[i].workgroup {
      match FindHost(hs, HostName(ts[i]), ts[i].workgroup)
      case Some(j) => EnrichFromContract(ts[i], hs[j]);
      case None =>
    }
  }

  /** One replacement: afterwards the copy is in the list, hosts with
      another key are kept, nothing else is added, and keys stay unique. */
  lemma ReplaceHostContract(hs: seq<Host>, t: Host)
    requires PairwiseApart(hs, HostHides)
    requires WellFormed(t.url) && t.workgroup != ""
    ensures var r := ReplaceHost(hs, t);
      && CopyHost(t) in r
      && PairwiseApart(r, HostHides)
      && (forall g :: g in hs && !HostHides(g, t) ==> g in r)
      && (forall g :: g in r ==> g in hs || g == CopyHost(t))
  {
    var c := CopyHost(t);
    CopyHostKeepsKey(t);
    HostKeyFacts(t);
    var found := FindHost(hs, HostName(t), t.workgroup);
    var hs1 := if found.Some? then RemoveFirst(hs, hs[found.value]) else hs;
    if found.Some? {
      RemoveMatch(hs, found.value, t, HostHides);
      RemoveFirstApart(hs, hs[found.value], HostHides);
      forall j | 0 <= j < |hs1| ensures !HostIdentified(hs1[j], HostName(t), t.workgroup) {
        assert hs1[j] in hs1;
      }
      forall g | g in hs1 ensures g in hs {
        assert g in multiset(hs1);
      }
    }
    assert FindHost(hs1, HostName(c), c.workgroup).None?;
    AddHostContract(hs1, c);
    assert ReplaceHost(hs, t) == hs1 + [c];
  }

  /** A copy already in the list survives replacing a host with another
      key. */
  lemma CopyKeptByReplace(r0: seq<Host>, t: Host, last: Host)
    requires PairwiseApart(r0, HostHides)
    requires WellFormed(last.url) && last.workgroup != "" && WellFormed(t.url)
    requires CopyHost(t) in r0 && !HostHides(t, last)
    ensures CopyHost(t) in ReplaceHost(r0, last)
  {
    ReplaceHostContract(r0, last);
    CopyHostKeepsKey(t);
  }

  /** An element other than the last is in the list without its last. */
  lemma InInit<T>(ts: seq<T>, t: T)
    requires t in ts && t != ts[|ts| - 1]
    ensures t in ts[..|ts| - 1]
  {
    var i :| 0 <= i < |ts| && ts[i] == t;
    assert ts[..|ts| - 1][i] == t;
  }

  lemma InitApart<T>(ts: seq<T>, r: (T, T) -> bool)
    requires ts != [] && PairwiseApart(ts, r)
    ensures PairwiseApart(ts[..|ts| - 1], r)
    ensures forall i :: 0 <= i < |ts| - 1 ==> !r(ts[i], ts[|ts| - 1])
  {
    var init := ts[..|ts| - 1];
    forall i, j | 0 <= i < j < |init| ensures !r(init[i], init[j]) {
      assert init[i] == ts[i] && init[j] == ts[j];
    }
  }

  /** The loop over a non-empty list whose keys are unique and whose
      workgroups are given: every listed host ends up in the registry as
      a copy, and hosts matching no listed key are left in place. */
  lemma {:induction false} ReplaceHostsContract(hs: seq<Host>, ts: seq<Host>)
    requires PairwiseApart(hs, HostHides)
    requires forall t :: t in ts ==> WellFormed(t.url) && t.workgroup != ""
    requires PairwiseApart(ts, HostHides)
    ensures PairwiseApart(ReplaceHosts(hs, ts), HostHides)
    ensures forall t :: t in ts ==> CopyHost(t) in ReplaceHosts(hs, ts)
    ensures forall g :: g in hs && (forall t :: t in ts ==> !HostHides(g, t)) ==> g in ReplaceHosts(hs, ts)
    decreases |ts|
  {
    if ts != [] {
      var init := ts[..|ts| - 1];
      var last := ts[|ts| - 1];
      InitApart(ts, HostHides);
      assert forall t :: t in init ==> t in ts;
      ReplaceHostsContract(hs, init);
      var r0 := ReplaceHosts(hs, init);
      assert ReplaceHosts(hs, ts) == ReplaceHost(r0, last);
      ReplaceHostContract(r0, last);
      forall t | t in ts ensures CopyHost(t) in ReplaceHost(r0, last) {
        if t != last {
          InInit(ts, t);
          CopyKeptByReplace(r0, t, last);
        }
      }
    }
  }

  /** slotHosts for a workgroup with a non-empty list (unique keys, given
      workgroups): a copy of every enriched entry is in the registry
      afterwards, and hosts with no listed key are left in place. */
  lemma HostsStepListed(w: World, g: Workgroup, ts: seq<Host>)
    requires ts != []
    requires PairwiseApart(w.lists.hosts, HostHides)
    requires forall t :: t in ts ==> WellFormed(t.url) && t.workgroup != ""
    requires PairwiseApart(ts, HostHides)
    ensures var r := HostsStep(w, Some(g), ts).lists;
      && (forall i :: 0 <= i < |ts| ==> CopyHost(Enrich(ts[i], w.lists.hosts)) in r.hosts)
      && (forall h :: h in w.lists.hosts && (forall t :: t in ts ==> !HostHides(h, t)) ==> h in r.hosts)
      && PairwiseApart(r.hosts, HostHides)
      && r.workgroups == w.lists.workgroups && r.shares == w.lists.shares
  {
    var hs := w.lists.hosts;
    var ts2 := EnrichAll(ts, hs);
    assert HostsStep(w, Some(g), ts).lists == w.lists.(hosts := ReplaceHosts(hs, ts2));
    EnrichAllKeys(ts, hs);
    EnrichedWellFormed(ts, hs);
    ReplaceHostsContract(hs, ts2);
    forall i | 0 <= i < |ts| ensures CopyHost(Enrich(ts[i], hs)) in ReplaceHosts(hs, ts2) {
      assert ts2[i] in ts2;
    }
    forall h | h in hs && (forall t :: t in ts ==> !HostHides(h, t)) ensures h in ReplaceHosts(hs, ts2) {
      NotHiddenByEnriched(h, ts, hs);
    }
  }

  /** Enriching keeps the addresses well formed and the workgroups given. */
  lemma EnrichedWellFormed(ts: seq<Host>, hs: seq<Host>)
    requires forall t :: t in ts ==> WellFormed(t.url) && t.workgroup != ""
    ensures forall t :: t in EnrichAll(ts, hs) ==> WellFormed(t.url) && t.workgroup != ""
  {
    var ts2 := EnrichAll(ts, hs);
    EnrichAllKeys(ts, hs);
    forall t | t in ts2 ensures WellFormed(t.url) && t.workgroup != "" {
      var i :| 0 <= i < |ts2| && ts2[i] == t;
      assert ts[i] in ts;
    }
  }

  /** A host no entry of the list hides is hidden by no enriched entry
      either, since enriching keeps the keys. */
  lemma NotHiddenByEnriched(h: Host, ts: seq<Host>, hs: seq<Host>)
    requires forall t :: t in ts ==> !HostHides(h, t)
    ensures forall t :: t in EnrichAll(ts, hs) ==> !HostHides(h, t)
  {
    var ts2 := EnrichAll(ts, hs);
    EnrichAllKeys(ts, hs);
    forall t | t in ts2 ensures !HostHides(h, t) {
      var i :| 0 <= i < |ts2| && ts2[i] == t;
      assert ts[i] in ts;
    }
  }

  /** slotHosts for a workgroup with an empty list removes exactly the
      workgroup's members. */
  lemma HostsStepEmpty(w: World, g: Workgroup)
    ensures var r := HostsStep(w, Some(g), []).lists;
      && (forall x :: x in r.hosts <==> x in w.lists.hosts && !IsMember(x, g))
      && r.workgroups == w.lists.workgroups && r.shares == w.lists.shares
  {
    RemoveMembers(w.lists.hosts, g);
  }

  // ---------------------------------------------------------------------
  // Properties: slotShares
  // ---------------------------------------------------------------------

  /** The mount data comes from the first mount that is not foreign, and
      from the first mount when all are foreign. */
  lemma PickMountContract(ms: seq<Share>)
    requires ms != []
    ensures PickMount(ms) in ms
    ensures (forall i :: 0 <= i < |ms| ==> ms[i].foreign) ==> PickMount(ms) == ms[0]
    ensures (exists i :: 0 <= i < |ms| && !ms[i].foreign) ==>
      !PickMount(ms).foreign
      && exists j :: 0 <= j < |ms| && PickMount(ms) == ms[j] && forall i :: 0 <= i < j ==> ms[i].foreign
  {
    match FindFirst(ms, (m: Share) => !m.foreign)
    case Some(j) =>
      assert PickMount(ms) == ms[j];
    case None =>
  }

  /** A listed share keeps its name, host and workgroup when it takes
      mount data; the mount data is that of a mount with the same UNC. */
  lemma WithMountsContract(s: Share, mounted: seq<Share>)
    ensures var r := WithMounts(s, mounted);
      r.name == s.name && r.host == s.host && r.workgroup == s.workgroup && r.isHomes == s.isHomes
    ensures FindShareByUNC(mounted, ShareUnc(s)) == [] ==> WithMounts(s, mounted) == s
    ensures FindShareByUNC(mounted, ShareUnc(s)) != [] ==>
      var m := PickMount(FindShareByUNC(mounted, ShareUnc(s)));
      && m in mounted && HasUnc(m, ShareUnc(s))
      && WithMounts(s, mounted) == s.(mountPath := m.mountPath, mounted := m.mounted, foreign := m.foreign)
  {
    var ms := FindShareByUNC(mounted, ShareUnc(s));
    if ms != [] {
      PickMountContract(ms);
      FindShareByUNCExactly(mounted, ShareUnc(s), PickMount(ms));
    }
  }

  lemma ReplaceShareContract(ss: seq<Share>, s: Share)
    requires PairwiseApart(ss, ShareHides)
    requires s.workgroup != ""
    ensures var r := ReplaceShare(ss, s);
      && s in r
      && PairwiseApart(r, ShareHides)
      && (forall g :: g in ss && !ShareHides(g, s) ==> g in r)
  {
    ShareKeyFacts(s);
    var found := FindShare(ss, s.name, s.host, s.workgroup);
    var ss1 := if found.Some? then RemoveFirst(ss, ss[found.value]) else ss;
    if found.Some? {
      RemoveMatch(ss, found.value, s, ShareHides);
      RemoveFirstApart(ss, ss[found.value], ShareHides);
      forall j | 0 <= j < |ss1| ensures !ShareIdentified(ss1[j], s.name, s.host, s.workgroup) {
        assert ss1[j] in ss1;
      }
    }
    AddShareContract(ss1, s);
    assert ReplaceShare(ss, s) == ss1 + [s];
  }

  lemma ShareKeptByReplace(r0: seq<Share>, t: Share, last: Share, mounted: seq<Share>)
    requires PairwiseApart(r0, ShareHides)
    requires last.workgroup != ""
    requires WithMounts(t, mounted) in r0 && !ShareHides(t, last)
    ensures WithMounts(t, mounted) in ReplaceShare(r0, WithMounts(last, mounted))
  {
    WithMountsContract(t, mounted);
    WithMountsContract(last, mounted);
    ReplaceShareContract(r0, WithMounts(last, mounted));
  }

  /** The loop of slotShares over a non-empty list with unique keys and
      given workgroups: every listed share, with its mount data, is in the
      registry afterwards; shares with no listed key stay. */
  lemma {:induction false} MergeSharesContract(ss: seq<Share>, ts: seq<Share>, mounted: seq<Share>)
    requires PairwiseApart(ss, ShareHides)
    requires forall t :: t in ts ==> t.workgroup != ""
    requires PairwiseApart(ts, ShareHides)
    ensures PairwiseApart(MergeShares(ss, ts, mounted), ShareHides)
    ensures forall t :: t in ts ==> WithMounts(t, mounted) in MergeShares(ss, ts, mounted)
    ensures forall g :: g in ss && (forall t :: t in ts ==> !ShareHides(g, t)) ==> g in MergeShares(ss, ts, mounted)
    decreases |ts|
  {
    if ts != [] {
      var init := ts[..|ts| - 1];
      var last := ts[|ts| - 1];
      InitApart(ts, ShareHides);
      assert forall t :: t in init ==> t in ts;
      MergeSharesContract(ss, init, mounted);
      var r0 := MergeShares(ss, init, mounted);
      var r := ReplaceShare(r0, WithMounts(last, mounted));
      assert MergeShares(ss, ts, mounted) == r;
      WithMountsContract(last, mounted);
      ReplaceShareContract(r0, WithMounts(last, mounted));
      forall t | t in ts ensures WithMounts(t, mounted) in r {
        if t != last {
          InInit(ts, t);
          ShareKeptByReplace(r0, t, last, mounted);
        }
      }
      forall g | g in ss && (forall t :: t in ts ==> !ShareHides(g, t)) ensures g in r {
        assert last in ts;
        assert g in r0;
      }
    }
  }

  /** slotShares with a non-empty list. */
  lemma SharesStepListed(w: World, h: Host, ts: seq<Share>)
    requires ts != []
    requires PairwiseApart(w.lists.shares, ShareHides)
    requires forall t :: t in ts ==> t.workgroup != ""
    requires PairwiseApart(ts, ShareHides)
    ensures var r := SharesStep(w, h, ts).lists;
      && (forall t :: t in ts ==> WithMounts(t, w.lists.mountedShares) in r.shares)
      && (forall g :: g in w.lists.shares && (forall t :: t in ts ==> !ShareHides(g, t)) ==> g in r.shares)
      && PairwiseApart(r.shares, ShareHides)
      && r.hosts == w.lists.hosts && r.workgroups == w.lists.workgroups
  {
    MergeSharesContract(w.lists.shares, ts, w.lists.mountedShares);
  }

  /** slotShares with an empty list removes every share of the host and
      nothing else; the host itself stays. */
  lemma SharesStepEmpty(w: World, h: Host)
    ensures var r := SharesStep(w, h, []).lists;
      && (forall x :: x in r.shares <==> x in w.lists.shares && !IsSharedBy(x, h))
      && r.hosts == w.lists.hosts && r.workgroups == w.lists.workgroups
    ensures SharesStep(w, h, []).events == w.events + [SharesReported(h, [])]
  {
    var r := SharesStep(w, h, []).lists;
    RemoveSharedResources(w.lists.shares, h);
    forall i | 0 <= i < |r.shares| ensures !IsSharedBy(r.shares[i], h) {
      assert r.shares[i] in r.shares;
    }
    assert SharedResources(r.shares, h) == [] by {
      if SharedResources(r.shares, h) != [] {
        SharedResourcesExactly(r.shares, h, SharedResources(r.shares, h)[0]);
      }
    }
  }

  // ---------------------------------------------------------------------
  // Properties: slotInformation
  // ---------------------------------------------------------------------

  /** Checked information ends up on a registry host with the same key;
      unchecked information changes nothing but is reported. */
  lemma InformationContract(w: World, h: Host)
    requires WellFormed(h.url)
    ensures var r := InformationStep(w, h);
      && r.events == w.events + [InfoReported(h)]
      && (!h.infoChecked ==> r.lists == w.lists)
      && (h.infoChecked ==>
            exists j :: 0 <= j < |r.lists.hosts| && HostIdentified(r.lists.hosts[j], HostName(h), h.workgroup)
              && r.lists.hosts[j].infoChecked
              && r.lists.hosts[j].serverString == h.serverString && r.lists.hosts[j].osString == h.osString)
      && r.lists.workgroups == w.lists.workgroups
  {
    var hs := w.lists.hosts;
    if h.infoChecked {
      var r := InformationStep(w, h);
      match FindHost(hs, HostName(h), h.workgroup)
      case Some(j) =>
        assert HostIdentified(r.lists.hosts[j], HostName(h), h.workgroup);
      case None =>
        CopyHostKeepsKey(h);
        AddHostContract(hs, CopyHost(h));
        assert HostIdentified(r.lists.hosts[|hs|], HostName(h), h.workgroup);
    }
  }

  // ---------------------------------------------------------------------
  // Properties: slotWorkgroups
  // ---------------------------------------------------------------------

  lemma DemoteMasterContract(hs: seq<Host>, name: string, workgroup: string)
    ensures var r := DemoteMaster(hs, name, workgroup);
      && |r| == |hs|
      && (forall i :: 0 <= i < |hs| ==> r[i].(isMaster := hs[i].isMaster) == hs[i])
      && (forall i :: 0 <= i < |hs| && !HostIdentified(hs[i], name, workgroup) ==> r[i] == hs[i])
      && (FindHost(hs, name, workgroup).Some? ==> !r[FindHost(hs, name, workgroup).value].isMaster)
  {
  }

  /** Afterwards the entry's master browser is a registry host marked as
      master browser (with the entry's IP when it has one); other hosts
      are kept in place and at most one host is added. */
  lemma PromoteMasterContract(hs: seq<Host>, e: Workgroup)
    ensures var r := PromoteMaster(hs, e);
      && |hs| <= |r| <= |hs| + 1
      && FindHost(r, e.masterName, e.name).Some?
      && r[FindHost(r, e.masterName, e.name).value].isMaster
      && (HasMasterIP(e) ==> r[FindHost(r, e.masterName, e.name).value].ip == e.masterIP)
      && (forall i :: 0 <= i < |hs| && !HostIdentified(hs[i], e.masterName, e.name) ==> r[i] == hs[i])
  {
    var r := PromoteMaster(hs, e);
    match FindHost(hs, e.masterName, e.name)
    case Some(j) =>
      assert HostIdentified(r[j], e.masterName, e.name);
      assert forall i :: 0 <= i < j ==> r[i] == hs[i];
      assert FindHost(r, e.masterName, e.name) == Some(j);
    case None =>
      var nm := NewMasterBrowser(e);
      ToUpperIdempotent(e.masterName);
      assert HostName(nm) == ToUpper(e.masterName);
      forall i | 0 <= i < |hs| ensures !HostIdentified(hs[i], HostName(nm), nm.workgroup) {
        assert !HostIdentified(hs[i], e.masterName, e.name);
      }
      assert r == hs + [nm];
      assert HostIdentified(r[|hs|], e.masterName, e.name);
      var f := FindHost(r, e.masterName, e.name);
      assert f.Some?;
      assert f.value >= |hs|;
  }

  /** For a known workgroup whose master browser changed (compared
      case-insensitively) the old master browser is demoted and the new
      one promoted or created; an unchanged master browser leaves the
      hosts untouched. The known workgroup leaves the list either way. */
  lemma KnownWorkgroupMerge(l: Lists, e: Workgroup, k: nat)
    requires FindWorkgroup(l.workgroups, e.name) == Some(k)
    ensures var known := l.workgroups[k];
      var r := MergeEntry(l, e);
      && r.workgroups == RemoveFirst(l.workgroups, known)
      && (EqualsIgnoreCase(known.masterName, e.masterName) ==> r.hosts == l.hosts)
      && (!EqualsIgnoreCase(known.masterName, e.masterName) ==>
            && (FindHost(l.hosts, known.masterName, known.name).Some? ==>
                  !r.hosts[FindHost(l.hosts, known.masterName, known.name).value].isMaster)
            && FindHost(r.hosts, e.masterName, e.name).Some?
            && r.hosts[FindHost(r.hosts, e.masterName, e.name).value].isMaster)
  {
    var known := l.workgroups[k];
    if !EqualsIgnoreCase(known.masterName, e.masterName) {
      var hs1 := DemoteMaster(l.hosts, known.masterName, known.name);
      DemoteMasterContract(l.hosts, known.masterName, known.name);
      PromoteMasterContract(hs1, e);
      match FindHost(l.hosts, known.masterName, known.name)
      case Some(j) =>
        assert HostIdentified(hs1[j], known.masterName, known.name);
        assert !HostIdentified(hs1[j], e.masterName, e.name);
      case None =>
    }
  }

  /** An entry for an unknown workgroup promotes or creates its master
      browser and leaves the workgroup list alone. */
  lemma NewWorkgroupMerge(l: Lists, e: Workgroup)
    requires FindWorkgroup(l.workgroups, e.name).None?
    ensures var r := MergeEntry(l, e);
      && r.workgroups == l.workgroups
      && FindHost(r.hosts, e.masterName, e.name).Some?
      && r.hosts[FindHost(r.hosts, e.masterName, e.name).value].isMaster
  {
    PromoteMasterContract(l.hosts, e);
  }

  lemma {:induction false} MergeKeepsAbsent(l: Lists, es: seq<Workgroup>, v: Workgroup)
    requires v in l.workgroups
    requires forall e :: e in es ==> !WorkgroupNamed(v, e.name)
    ensures v in MergeEntries(l, es).workgroups
    decreases |es|
  {
    if es != [] {
      var init := es[..|es| - 1];
      var e := es[|es| - 1];
      assert forall x :: x in init ==> x in es;
      MergeKeepsAbsent(l, init, v);
      var l0 := MergeEntries(l, init);
      match FindWorkgroup(l0.workgroups, e.name)
      case Some(k) =>
        assert v != l0.workgroups[k];
        assert v in multiset(l0.workgroups);
        assert v in multiset(RemoveFirst(l0.workgroups, l0.workgroups[k]));
      case None =>
    }
  }

  /** The pruning loop empties the workgroup list, only removes hosts, and
      leaves no member of any workgroup it went through. */
  lemma {:induction false} PruneContract(l: Lists)
    ensures Prune(l).workgroups == []
    ensures Prune(l).shares == l.shares && Prune(l).mountedShares == l.mountedShares
    ensures forall x :: x in Prune(l).hosts ==> x in l.hosts
    ensures forall v, x :: v in l.workgroups && x in Prune(l).hosts ==> !IsMember(x, v)
    decreases |l.workgroups|
  {
    if l.workgroups != [] {
      var v0 := l.workgroups[0];
      var l1 := l.(hosts := RemoveEach(l.hosts, WorkgroupMembers(l.hosts, v0)),
                   workgroups := l.workgroups[1..]);
      PruneContract(l1);
      RemoveMembers(l.hosts, v0);
      forall v, x | v in l.workgroups && x in Prune(l).hosts ensures !IsMember(x, v) {
        if v != v0 {
          assert v in l1.workgroups by {
            var i :| 0 <= i < |l.workgroups| && l.workgroups[i] == v;
            assert l1.workgroups[i - 1] == v;
          }
        }
      }
    }
  }

  /** The re-added workgroups come from the list or from the entries. */
  lemma {:induction false} AddWorkgroupsFrom(ws: seq<Workgroup>, es: seq<Workgroup>)
    ensures forall v :: v in AddWorkgroups(ws, es) ==> v in ws || v in es
    decreases |es|
  {
    if es != [] {
      var init := es[..|es| - 1];
      AddWorkgroupsFrom(ws, init);
      assert forall x :: x in init ==> x in es;
    }
  }

  /** Every entry's name is in the list after the entries are added. */
  lemma {:induction false} AddWorkgroupsNamed(ws: seq<Workgroup>, es: seq<Workgroup>)
    ensures forall e :: e in es ==> FindWorkgroup(AddWorkgroups(ws, es), e.name).Some?
    decreases |es|
  {
    if es != [] {
      var init := es[..|es| - 1];
      var e := es[|es| - 1];
      AddWorkgroupsNamed(ws, init);
      var r0 := AddWorkgroups(ws, init);
      AddWorkgroupContract(r0, e);
      var r := AddWorkgroups(ws, es);
      assert r == WithWorkgroup(r0, e);
      assert r[..|r0|] == r0;
      forall x | x in es ensures FindWorkgroup(r, x.name).Some? {
        if x != e {
          var m :| 0 <= m < |es| && es[m] == x;
          assert init[m] == x;
          var i := FindWorkgroup(r0, x.name).value;
          assert r[i] == r0[i];
        }
      }
    }
  }

  lemma FillMasterIPsKeepNames(ws: seq<Workgroup>, hs: seq<Host>)
    ensures forall i :: 0 <= i < |ws| ==> FillMasterIPs(ws, hs)[i].(masterIP := ws[i].masterIP) == ws[i]
    ensures forall i :: 0 <= i < |ws| && HasMasterIP(ws[i]) ==> FillMasterIPs(ws, hs)[i] == ws[i]
  {
  }

  /** After slotWorkgroups, a registry workgroup that no entry names is
      gone, and so is every one of its member hosts. */
  lemma AbsentWorkgroupRemoved(w: World, es: seq<Workgroup>, v: Workgroup)
    requires v in w.lists.workgroups
    requires forall e :: e in es ==> !WorkgroupNamed(v, e.name)
    ensures var r := WorkgroupsStep(w, es).lists;
      && (forall x :: x in r.hosts ==> !IsMember(x, v))
      && (forall u :: u in r.workgroups ==> !WorkgroupNamed(u, v.name))
  {
    var l1 := MergeEntries(w.lists, es);
    MergeKeepsAbsent(w.lists, es, v);
    PruneContract(l1);
    var ws := AddWorkgroups(Prune(l1).workgroups, es);
    AddWorkgroupsFrom(Prune(l1).workgroups, es);
    var r := WorkgroupsStep(w, es).lists;
    assert r.hosts == Prune(l1).hosts;
    forall u | u in r.workgroups ensures !WorkgroupNamed(u, v.name) {
      var i :| 0 <= i < |r.workgroups| && r.workgroups[i] == u;
      FillMasterIPsKeepNames(ws, Prune(l1).hosts);
      assert ws[i] in ws;
      assert u.name == ws[i].name;
      assert !WorkgroupNamed(v, ws[i].name);
    }
  }

  /** After slotWorkgroups the workgroup list holds fresh copies of the
      entries: every entry's name is present, every workgroup is an entry
      up to the master browser IP filled in from the registry (an entry
      that had an IP is copied unchanged), and an empty result list
      empties the workgroup list. */
  lemma WorkgroupsCopied(w: World, es: seq<Workgroup>)
    ensures var r := WorkgroupsStep(w, es).lists;
      && (forall e :: e in es ==> FindWorkgroup(r.workgroups, e.name).Some?)
      && (forall u :: u in r.workgroups ==>
            exists e :: e in es && u.(masterIP := e.masterIP) == e && (HasMasterIP(e) ==> u == e))
      && (es == [] ==> r.workgroups == [])
  {
    var l1 := MergeEntries(w.lists, es);
    PruneContract(l1);
    var hs := Prune(l1).hosts;
    assert WorkgroupsStep(w, es).lists.workgroups == FillMasterIPs(AddWorkgroups([], es), hs);
    FilledWorkgroups(es, hs);
  }

  /** The workgroups of a reply, added to an empty list and given their
      master browsers' addresses from `hs`. */
  lemma FilledWorkgroups(es: seq<Workgroup>, hs: seq<Host>)
    ensures var r := FillMasterIPs(AddWorkgroups([], es), hs);
      && (forall e :: e in es ==> FindWorkgroup(r, e.name).Some?)
      && (forall u :: u in r ==>
            exists e :: e in es && u.(masterIP := e.masterIP) == e && (HasMasterIP(e) ==> u == e))
      && (es == [] ==> r == [])
  {
    var ws := AddWorkgroups([], es);
    AddWorkgroupsFrom([], es);
    AddWorkgroupsNamed([], es);
    FillMasterIPsKeepNames(ws, hs);
    var r := FillMasterIPs(ws, hs);
    forall e | e in es ensures FindWorkgroup(r, e.name).Some? {
      var i := FindWorkgroup(ws, e.name).value;
      assert r[i].name == ws[i].name;
      assert WorkgroupNamed(r[i], e.name);
    }
    forall u | u in r
      ensures exists e :: e in es && u.(masterIP := e.masterIP) == e && (HasMasterIP(e) ==> u == e)
    {
      var i :| 0 <= i < |r| && r[i] == u;
      assert ws[i] in ws;
      assert ws[i] in es;
    }
    if es == [] {
      assert ws == [];
    }
  }
}
