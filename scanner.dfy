/** The network scanner object (Smb4KScanner). It owns the cache of
    lookup workers, the scanner state and the working flag, records the
    signals it emits, and changes the global lists only through the
    registry's own operations. Every method is proved to end in the state
    the corresponding function of ScanModel computes. */
module Scanning {
  import opened Common
  import opened Text
  import opened NetworkItems
  import opened Topology
  import opened ScanModel

  class Scanner {
    var cache: map<string, Worker>
    var state: ScanState
    var working: bool
    var events: seq<Event>
    const reg: Registry

    /** The scanner's fields together with the registry lists. */
    function Snapshot(): World
      reads this, reg
    {
      World(cache, state, working, events, reg.State())
    }

    predicate Valid()
      reads this, reg
    {
      reg.Valid()
    }

    /** A scanner that is not working and has no workers. */
    constructor (r: Registry)
      requires r.Valid()
      ensures reg == r
      ensures Snapshot() == World(map[], Stop, false, [], r.State())
      ensures Valid()
    {
      reg := r;
      cache := map[];
      state := Stop;
      working := false;
      events := [];
    }

    // -------------------------------------------------------------------
    // abort, isAborted, isRunning, abortAll, slotAboutToQuit
    // -------------------------------------------------------------------

    method Abort(item: Option<string>, process: Process)
      modifies this
      ensures Snapshot() == old(Snapshot()).(cache := AbortCache(old(cache), item, process))
    {
      match item {
        case Some(k) =>
          if k in cache && Active(cache[k]) {
            cache := cache[k := Aborted(cache[k])];
          }
        case None =>
          ghost var target := AbortCache(cache, None, process);
          var c := cache;
          var keys := c.Keys;
          while keys != {}
            invariant keys <= c.Keys == cache.Keys
            invariant forall k :: k in c ==> c[k] == if k in keys then cache[k] else target[k]
            decreases keys
          {
            var k :| k in keys;
            if c[k].hasProcess && Matches(c[k].kind, process) {
              c := c[k := Aborted(c[k])];
            }
            keys := keys - {k};
          }
          assert c == target;
          cache := c;
      }
    }

    method IsAborted(item: Option<string>, process: Process) returns (aborted: bool)
      ensures aborted == IsAbortedIn(cache, item, process)
    {
      match item {
        case Some(k) =>
          aborted := k in cache && cache[k].hasProcess && cache[k].aborted;
        case None =>
          aborted := false;
          var keys := cache.Keys;
          while keys != {} && !aborted
            invariant keys <= cache.Keys
            invariant aborted ==> IsAbortedIn(cache, None, process)
            invariant !aborted ==> forall k :: k in cache && k !in keys ==>
                        !(cache[k].hasProcess && Matches(cache[k].kind, process) && cache[k].aborted)
            decreases keys
          {
            var k :| k in keys;
            aborted := cache[k].hasProcess && Matches(cache[k].kind, process) && cache[k].aborted;
            keys := keys - {k};
          }
      }
    }

    method IsRunning(item: Option<string>, process: Process) returns (running: bool)
      ensures running == IsRunningIn(cache, item, process)
    {
      match item {
        case Some(k) =>
          running := k in cache && cache[k].hasProcess && cache[k].state == Running;
        case None =>
          running := false;
          var keys := cache.Keys;
          while keys != {} && !running
            invariant keys <= cache.Keys
            invariant running ==> IsRunningIn(cache, None, process)
            invariant !running ==> forall k :: k in cache && k !in keys ==>
                        !(cache[k].hasProcess && Matches(cache[k].kind, process) && cache[k].state == Running)
            decreases keys
          {
            var k :| k in keys;
            running := cache[k].hasProcess && Matches(cache[k].kind, process) && cache[k].state == Running;
            keys := keys - {k};
          }
      }
    }

    method AbortAll(closingDown: bool)
      modifies this
      ensures Snapshot() == old(Snapshot()).(cache := AbortAllCache(old(cache), closingDown))
    {
      if !closingDown {
        ghost var target := AbortAllCache(cache, false);
        var c := cache;
        var keys := c.Keys;
        while keys != {}
          invariant keys <= c.Keys == cache.Keys
          invariant forall k :: k in c ==> c[k] == if k in keys then cache[k] else target[k]
          decreases keys
        {
          var k :| k in keys;
          if Active(c[k]) {
            c := c[k := Aborted(c[k])];
          }
          keys := keys - {k};
        }
        assert c == target;
        cache := c;
      }
    }

    /** slotAboutToQuit: abort every running lookup. */
    method AboutToQuit(closingDown: bool)
      modifies this
      ensures Snapshot() == old(Snapshot()).(cache := AbortAllCache(old(cache), closingDown))
    {
      AbortAll(closingDown);
    }

    // -------------------------------------------------------------------
    // slotThreadFinished
    // -------------------------------------------------------------------

    /** Every finished worker leaves the cache with one finished signal,
        in the cache's key order; the scanner stops when the cache is
        empty afterwards. */
    method ThreadFinished()
      modifies this
      ensures Snapshot().(events := old(events)) == AfterThreadsFinished(old(Snapshot()))
      ensures |events| == |old(events)| + |FinishedKeys(old(cache))|
      ensures events[..|old(events)|] == old(events)
      ensures forall k :: k in FinishedKeys(old(cache)) ==> FinishedEvent(old(cache)[k]) in events[|old(events)|..]
      ensures forall e :: e in events[|old(events)|..] ==>
                exists k :: k in FinishedKeys(old(cache)) && e == FinishedEvent(old(cache)[k])
    {
      var c, ev := SweepFinished(cache);
      cache, events := c, events + ev;
      if |cache| == 0 {
        working := false;
        state := Stop;
      }
    }

    // -------------------------------------------------------------------
    // Starting lookups
    // -------------------------------------------------------------------

    /** The common tail of every lookup. */
    method Start(key: string, st: ScanState, item: Option<string>, kind: Process)
      modifies this
      ensures Snapshot() == Started(old(Snapshot()), key, st, item, kind)
    {
      state := st;
      if |cache| == 0 {
        working := true;
      }
      events := events + [AboutToStart(item, kind)];
      cache := cache[key := NewWorker(kind, item)];
    }

    /** lookupDomains. */
    method ScanDomains(s: BrowseSettings, available: set<string>, key: string)
      modifies this
      ensures Snapshot() == LookupDomainsStep(old(Snapshot()), s, available, key)
    {
      match ChooseStrategy(s) {
        case None =>
        case Some(st) =>
          match FirstMissing(Programs(st), available) {
            case Some(p) => events := events + [CommandNotFound(p)];
            case None => Start(key, StateOf(st), None, LookupDomains);
          }
      }
    }

    /** lookupDomainMembers. */
    method ScanDomainMembers(wg: Workgroup, key: string, available: set<string>)
      modifies this
      ensures Snapshot() == LookupDomainMembersStep(old(Snapshot()), wg, key, available)
    {
      if "net" !in available {
        events := events + [CommandNotFound("net")];
      } else if FindHost(reg.hosts, wg.masterName, wg.name).Some? {
        Start(key, OpenWorkgroup, Some(key), LookupDomainMembers);
      } else {
        events := events + [HostsReported(Some(wg), WorkgroupMembers(reg.hosts, wg)), HostListChanged];
      }
    }

    /** lookupShares. */
    method ScanShares(key: string, available: set<string>)
      modifies this
      ensures Snapshot() == LookupSharesStep(old(Snapshot()), key, available)
    {
      if "net" !in available {
        events := events + [CommandNotFound("net")];
      } else {
        Start(key, OpenHost, Some(key), LookupShares);
      }
    }

    /** lookupInfo. */
    method ScanInfo(h: Host, key: string, available: set<string>)
      modifies this
      ensures Snapshot() == LookupInfoStep(old(Snapshot()), h, key, available)
    {
      var known := FindHost(reg.hosts, HostName(h), h.workgroup);
      if known.Some? && reg.hosts[known.value].infoChecked {
        events := events + [InfoReported(reg.hosts[known.value])];
      } else if "smbclient" !in available {
        events := events + [CommandNotFound("smbclient")];
      } else {
        Start(key, QueryInfo, Some(key), LookupInfo);
      }
    }

    // -------------------------------------------------------------------
    // insertHost
    // -------------------------------------------------------------------

    method InsertHost(h: Host)
      requires Valid()
      modifies this, reg
      ensures Snapshot() == InsertHostStep(old(Snapshot()), h)
      ensures Valid()
    {
      ghost var w0, l := Snapshot(), reg.State();
      var c := CopyHost(h);
      ghost var c0 := c;
      var added := reg.AddHost(c);
      if added {
        assert reg.State() == l.(hosts := l.hosts + [c]);
        var reported: seq<Event> := [];
        if FindWorkgroup(reg.workgroups, c.workgroup).None? {
          AddPseudoWorkgroup(reg, c);
          c := c.(isMaster := true);
          assert (l.hosts + [c0])[|l.hosts| := c] == l.hosts + [c];
          assert reg.State() == l.(hosts := l.hosts + [c], workgroups := l.workgroups + [PseudoWorkgroup(c0)]);
          reported := [WorkgroupsReported(reg.workgroups)];
        }
        var lookup: seq<Event> := [];
        if !c.ipChecked {
          lookup := [IpLookupRequested([c], false)];
        }
        events := events + reported + lookup + [HostInserted(c), HostListChanged];
        assert Snapshot() == w0.(lists := reg.State(), events := w0.events + reported + lookup + [HostInserted(c), HostListChanged]);
      } else {
        assert reg.State() == l;
      }
    }

    // -------------------------------------------------------------------
    // The result slots
    // -------------------------------------------------------------------

    /** slotWorkgroups. */
    method SlotWorkgroups(es: seq<Workgroup>)
      requires Valid()
      modifies this, reg
      ensures Snapshot() == WorkgroupsStep(old(Snapshot()), es)
      ensures Valid()
    {
      MergeEntriesIn(reg, es);
      PruneIn(reg);
      AddWorkgroupsIn(reg, es);
      var lookups := FillMasterIPsIn(reg);
      events := events + lookups + [HostListChanged, WorkgroupsReported(reg.workgroups)];
    }

    /** slotHosts. */
    method SlotHosts(wg: Option<Workgroup>, ts: seq<Host>)
      requires Valid()
      modifies this, reg
      ensures Snapshot() == HostsStep(old(Snapshot()), wg, ts)
      ensures Valid()
    {
      var ts2 := EnrichIn(ts, reg.hosts);
      match wg {
        case Some(g) =>
          WorkgroupHostsIn(reg, g, ts2);
          events := events + [IpLookupRequested(reg.hosts, false), HostsReported(wg, WorkgroupMembers(reg.hosts, g)),
                              HostListChanged];
        case None =>
          reg.ClearHostsList();
          AddHostCopiesIn(reg, ts2);
          events := events + [HostsReported(None, reg.hosts), HostListChanged];
      }
    }

    /** slotShares. */
    method SlotShares(h: Host, ts: seq<Share>)
      requires Valid()
      modifies this, reg
      ensures Snapshot() == SharesStep(old(Snapshot()), h, ts)
      ensures Valid()
    {
      if ts != [] {
        MergeSharesIn(reg, ts);
      } else {
        RemoveSharesIn(reg, SharedResources(reg.shares, h));
      }
      events := events + [SharesReported(h, SharedResources(reg.shares, h))];
    }

    /** slotInformation. */
    method SlotInformation(h: Host)
      requires Valid()
      modifies this, reg
      ensures Snapshot() == InformationStep(old(Snapshot()), h)
      ensures Valid()
    {
      if h.infoChecked {
        match FindHost(reg.hosts, HostName(h), h.workgroup) {
          case Some(j) =>
            reg.UpdateHost(j, WithInfo(reg.hosts[j], h.serverString, h.osString));
          case None =>
            var _ := reg.AddHost(CopyHost(h));
        }
      }
      events := events + [InfoReported(h)];
    }
  }

  /** The loop of slotThreadFinished over the cache keys: the unfinished
      workers stay, and each finished one gives its finished signal. */
  method SweepFinished(c0: map<string, Worker>) returns (c: map<string, Worker>, ev: seq<Event>)
    ensures c == Unfinished(c0)
    ensures |ev| == |FinishedKeys(c0)|
    ensures forall k :: k in FinishedKeys(c0) ==> FinishedEvent(c0[k]) in ev
    ensures forall e :: e in ev ==> exists k :: k in FinishedKeys(c0) && e == FinishedEvent(c0[k])
  {
    c, ev := c0, [];
    ghost var order: seq<string> := [];
    var keys := c.Keys;
    while keys != {}
      invariant keys <= c0.Keys
      invariant forall k :: k in c <==> k in c0 && (k in keys || !c0[k].finished)
      invariant forall k :: k in c ==> c[k] == c0[k]
      invariant forall k :: k in order <==> k in FinishedKeys(c0) && k !in keys
      invariant Distinct(order)
      invariant ev == FinishedEvents(c0, order)
      decreases keys
    {
      var k :| k in keys;
      if c[k].finished {
        assert k !in order;
        assert (order + [k])[..|order|] == order;
        AppendDistinct(order, k);
        ev := ev + [FinishedEvent(c[k])];
        c := c - {k};
        order := order + [k];
      }
      keys := keys - {k};
    }
    FinishedOrder(c0, order);
    FinishedEventsAt(c0, order);
    FinishedEventsListed(c0, order);
  }

  lemma AppendDistinct<T>(s: seq<T>, x: T)
    requires Distinct(s) && x !in s
    ensures Distinct(s + [x])
  {
    forall i, j | 0 <= i < j < |s| + 1 ensures (s + [x])[i] != (s + [x])[j] {
      if j == |s| {
        assert (s + [x])[i] == s[i];
      } else {
        assert (s + [x])[i] == s[i] && (s + [x])[j] == s[j];
      }
    }
  }

  /** The finished signals of the workers under `order`, in that order. */
  ghost function FinishedEvents(c: map<string, Worker>, order: seq<string>): seq<Event>
    requires forall k :: k in order ==> k in c
    decreases |order|
  {
    if order == [] then []
    else FinishedEvents(c, order[..|order| - 1]) + [FinishedEvent(c[order[|order| - 1]])]
  }

  lemma {:induction false} FinishedEventsAt(c: map<string, Worker>, order: seq<string>)
    requires forall k :: k in order ==> k in c
    ensures |FinishedEvents(c, order)| == |order|
    ensures forall i :: 0 <= i < |order| ==> FinishedEvents(c, order)[i] == FinishedEvent(c[order[i]])
    decreases |order|
  {
    if order != [] {
      FinishedEventsAt(c, order[..|order| - 1]);
    }
  }

  /** The signals for a listing of the finished keys are exactly the
      finished signals of those workers. */
  lemma FinishedEventsListed(c: map<string, Worker>, order: seq<string>)
    requires forall k :: k in order <==> k in FinishedKeys(c)
    ensures forall k :: k in FinishedKeys(c) ==> FinishedEvent(c[k]) in FinishedEvents(c, order)
    ensures forall e :: e in FinishedEvents(c, order) ==>
              exists k :: k in FinishedKeys(c) && e == FinishedEvent(c[k])
  {
    FinishedEventsAt(c, order);
    forall k | k in FinishedKeys(c) ensures FinishedEvent(c[k]) in FinishedEvents(c, order) {
      var i :| 0 <= i < |order| && order[i] == k;
      assert FinishedEvents(c, order)[i] == FinishedEvent(c[k]);
    }
    forall e | e in FinishedEvents(c, order)
      ensures exists k :: k in FinishedKeys(c) && e == FinishedEvent(c[k])
    {
      var i :| 0 <= i < |FinishedEvents(c, order)| && FinishedEvents(c, order)[i] == e;
      assert order[i] in order;
    }
  }

  /** A repetition-free listing of the finished keys has as many entries
      as there are finished workers. */
  lemma FinishedOrder(c: map<string, Worker>, order: seq<string>)
    requires Distinct(order)
    requires forall k :: k in order <==> k in FinishedKeys(c)
    ensures |order| == |FinishedKeys(c)|
  {
    DistinctCard(order);
    assert (set k | k in order) == FinishedKeys(c);
  }

  lemma {:induction false} DistinctCard(s: seq<string>)
    requires Distinct(s)
    ensures |set k | k in s| == |s|
  {
    if s != [] {
      var t := s[..|s| - 1];
      assert Distinct(t) by {
        forall i, j | 0 <= i < j < |t| ensures t[i] != t[j] {
          assert t[i] == s[i] && t[j] == s[j];
        }
      }
      DistinctCard(t);
      assert s == t + [s[|s| - 1]];
      assert s[|s| - 1] !in t by {
        forall i | 0 <= i < |t| ensures t[i] != s[|s| - 1] {
          assert t[i] == s[i];
        }
      }
      assert (set k | k in s) == (set k | k in t) + {s[|s| - 1]};
    }
  }

  // ---------------------------------------------------------------------
  // The loops of the result slots, on the registry
  // ---------------------------------------------------------------------

  /** The part of insertHost for an unknown workgroup: the workgroup is
      added with the host just added as its pseudo master browser. */
  method AddPseudoWorkgroup(reg: Registry, c: Host)
    requires reg.Valid() && reg.hosts != [] && reg.hosts[|reg.hosts| - 1] == c
    requires FindWorkgroup(reg.workgroups, c.workgroup).None?
    modifies reg
    ensures reg.State() == old(reg.State()).(hosts := old(reg.hosts)[|old(reg.hosts)| - 1 := c.(isMaster := true)],
                                             workgroups := old(reg.workgroups) + [PseudoWorkgroup(c)])
    ensures reg.Valid()
  {
    var _ := reg.AddWorkgroup(PseudoWorkgroup(c));
    reg.UpdateHost(|reg.hosts| - 1, c.(isMaster := true));
  }

  /** Demote the old master browser, if the registry knows it. */
  method DemoteMasterIn(reg: Registry, name: string, workgroup: string)
    requires reg.Valid()
    modifies reg
    ensures reg.State() == old(reg.State()).(hosts := DemoteMaster(old(reg.hosts), name, workgroup))
    ensures reg.Valid()
  {
    match FindHost(reg.hosts, name, workgroup) {
      case Some(j) => reg.UpdateHost(j, reg.hosts[j].(isMaster := false));
      case None =>
    }
  }

  /** Promote the entry's master browser, or create and add it. */
  method PromoteMasterIn(reg: Registry, e: Workgroup)
    requires reg.Valid()
    modifies reg
    ensures reg.State() == old(reg.State()).(hosts := PromoteMaster(old(reg.hosts), e))
    ensures reg.Valid()
  {
    match FindHost(reg.hosts, e.masterName, e.name) {
      case Some(j) =>
        var mb := if HasMasterIP(e) then WithIP(reg.hosts[j], e.masterIP) else reg.hosts[j];
        reg.UpdateHost(j, mb.(isMaster := true));
      case None =>
        var _ := reg.AddHost(NewMasterBrowser(e));
    }
  }

  /** The first loop of slotWorkgroups. */
  method MergeEntriesIn(reg: Registry, es: seq<Workgroup>)
    requires reg.Valid()
    modifies reg
    ensures reg.State() == MergeEntries(old(reg.State()), es)
    ensures reg.Valid()
  {
    var i := 0;
    while i < |es|
      invariant 0 <= i <= |es|
      invariant reg.Valid()
      invariant reg.State() == MergeEntries(old(reg.State()), es[..i])
    {
      MergeEntryIn(reg, es[i]);
      assert es[..i + 1][..i] == es[..i];
      i := i + 1;
    }
    assert es[..i] == es;
  }

  /** One pass of the first loop of slotWorkgroups. */
  method MergeEntryIn(reg: Registry, e: Workgroup)
    requires reg.Valid()
    modifies reg
    ensures reg.State() == MergeEntry(old(reg.State()), e)
    ensures reg.Valid()
  {
    match FindWorkgroup(reg.workgroups, e.name) {
      case Some(k) =>
        var known := reg.workgroups[k];
        if !EqualsIgnoreCase(known.masterName, e.masterName) {
          DemoteMasterIn(reg, known.masterName, known.name);
          PromoteMasterIn(reg, e);
        }
        var _ := reg.RemoveWorkgroup(known);
      case None =>
        PromoteMasterIn(reg, e);
    }
  }

  /** Remove the given hosts one by one. */
  method RemoveHostsIn(reg: Registry, xs: seq<Host>)
    requires reg.Valid()
    modifies reg
    ensures reg.State() == old(reg.State()).(hosts := RemoveEach(old(reg.hosts), xs))
    ensures reg.Valid()
  {
    var i := 0;
    while i < |xs|
      invariant 0 <= i <= |xs|
      invariant reg.Valid()
      invariant reg.State() == old(reg.State()).(hosts := reg.hosts)
      invariant RemoveEach(reg.hosts, xs[i..]) == RemoveEach(old(reg.hosts), xs)
    {
      assert xs[i..][0] == xs[i] && xs[i..][1..] == xs[i + 1..];
      var _ := reg.RemoveHost(xs[i]);
      i := i + 1;
    }
  }

  /** Remove the given shares one by one. */
  method RemoveSharesIn(reg: Registry, xs: seq<Share>)
    requires reg.Valid()
    modifies reg
    ensures reg.State() == old(reg.State()).(shares := RemoveEach(old(reg.shares), xs))
    ensures reg.Valid()
  {
    var i := 0;
    while i < |xs|
      invariant 0 <= i <= |xs|
      invariant reg.Valid()
      invariant reg.State() == old(reg.State()).(shares := reg.shares)
      invariant RemoveEach(reg.shares, xs[i..]) == RemoveEach(old(reg.shares), xs)
    {
      assert xs[i..][0] == xs[i] && xs[i..][1..] == xs[i + 1..];
      var _ := reg.RemoveShare(xs[i]);
      i := i + 1;
    }
  }

  /** The second loop of slotWorkgroups. */
  method PruneIn(reg: Registry)
    requires reg.Valid()
    modifies reg
    ensures reg.State() == Prune(old(reg.State()))
    ensures reg.Valid()
  {
    while reg.workgroups != []
      invariant reg.Valid()
      invariant Prune(reg.State()) == Prune(old(reg.State()))
      decreases |reg.workgroups|
    {
      var w := reg.workgroups[0];
      RemoveHostsIn(reg, WorkgroupMembers(reg.hosts, w));
      var _ := reg.RemoveWorkgroup(w);
    }
  }

  /** The third loop of slotWorkgroups. */
  method AddWorkgroupsIn(reg: Registry, es: seq<Workgroup>)
    requires reg.Valid()
    modifies reg
    ensures reg.State() == old(reg.State()).(workgroups := AddWorkgroups(old(reg.workgroups), es))
    ensures reg.Valid()
  {
    var i := 0;
    while i < |es|
      invariant 0 <= i <= |es|
      invariant reg.Valid()
      invariant reg.State() == old(reg.State()).(workgroups := AddWorkgroups(old(reg.workgroups), es[..i]))
    {
      var _ := reg.AddWorkgroup(es[i]);
      assert es[..i + 1][..i] == es[..i];
      i := i + 1;
    }
    assert es[..i] == es;
  }

  /** The fourth loop of slotWorkgroups; returns the blocking IP lookups
      it asks for. */
  method FillMasterIPsIn(reg: Registry) returns (lookups: seq<Event>)
    requires reg.Valid()
    modifies reg
    ensures reg.State() == old(reg.State()).(workgroups := FillMasterIPs(old(reg.workgroups), old(reg.hosts)))
    ensures lookups == MasterLookups(old(reg.workgroups), old(reg.hosts))
    ensures reg.Valid()
  {
    ghost var ws, hs := reg.workgroups, reg.hosts;
    lookups := [];
    var i, n := 0, |reg.workgroups|;
    assert ws[i..] == ws;
    while i < n
      invariant i <= n == |ws|
      invariant reg.Valid()
      invariant reg.State() == old(reg.State()).(workgroups := FillMasterIPs(ws[..i], hs) + ws[i..])
      invariant lookups == MasterLookups(ws[..i], hs)
    {
      var lookup := FillMasterIPIn(reg, i, ws, hs);
      lookups := lookups + lookup;
      MasterLookupsStep(ws, hs, i);
      i := i + 1;
    }
    assert ws[..i] == ws && ws[i..] == [];
  }

  /** One pass of the fourth loop of slotWorkgroups: entry i of the
      workgroups `ws` is filled in, those before it already are. */
  method FillMasterIPIn(reg: Registry, i: nat, ghost ws: seq<Workgroup>, ghost hs: seq<Host>)
      returns (lookup: seq<Event>)
    requires reg.Valid() && i < |ws|
    requires reg.workgroups == FillMasterIPs(ws[..i], hs) + ws[i..] && reg.hosts == hs
    modifies reg
    ensures reg.State() == old(reg.State()).(workgroups := FillMasterIPs(ws[..i + 1], hs) + ws[i + 1..])
    ensures lookup == MasterLookup(ws[i], hs)
    ensures reg.Valid()
  {
    FillMasterIPsStep(ws, hs, i);
    var w := reg.workgroups[i];
    assert w == ws[i];
    lookup := [];
    if !HasMasterIP(w) {
      match FindHost(reg.hosts, w.masterName, w.name) {
        case Some(j) =>
          var mb := reg.hosts[j];
          if !HasIP(mb) {
            lookup := [IpLookupRequested([mb], true)];
          }
          reg.UpdateWorkgroup(i, w.(masterIP := mb.ip));
        case None =>
      }
    }
  }

  /** The first loop of slotHosts: each transient host is completed from
      its registry copy. */
  method EnrichIn(ts: seq<Host>, hs: seq<Host>) returns (r: seq<Host>)
    ensures r == EnrichAll(ts, hs)
  {
    r := ts;
    var i := 0;
    while i < |r|
      invariant 0 <= i <= |r| == |ts|
      invariant forall k :: 0 <= k < i ==> r[k] == Enrich(ts[k], hs)
      invariant forall k :: i <= k < |ts| ==> r[k] == ts[k]
    {
      var t := EnrichOne(r[i], hs);
      r := r[i := t];
      i := i + 1;
    }
    assert r == EnrichAll(ts, hs);
  }

  /** One pass of the first loop of slotHosts. */
  method EnrichOne(t: Host, hs: seq<Host>) returns (u: Host)
    ensures u == Enrich(t, hs)
  {
    u := t;
    match FindHost(hs, HostName(t), t.workgroup) {
      case Some(j) => u := EnrichFrom(t, hs[j]);
      case None =>
    }
  }

  /** The workgroup branch of slotHosts: replace the hosts that arrived,
      or remove the workgroup's members when none did. */
  method WorkgroupHostsIn(reg: Registry, g: Workgroup, ts2: seq<Host>)
    requires reg.Valid()
    modifies reg
    ensures reg.State() == old(reg.State()).(hosts := WorkgroupHostsAfter(old(reg.hosts), g, ts2))
    ensures reg.Valid()
  {
    if ts2 != [] {
      ReplaceHostsIn(reg, ts2);
    } else {
      RemoveHostsIn(reg, WorkgroupMembers(reg.hosts, g));
    }
  }

  /** The replacing loop of slotHosts. */
  method ReplaceHostsIn(reg: Registry, ts: seq<Host>)
    requires reg.Valid()
    modifies reg
    ensures reg.State() == old(reg.State()).(hosts := ReplaceHosts(old(reg.hosts), ts))
    ensures reg.Valid()
  {
    ghost var s0, h0 := reg.State(), reg.hosts;
    var i := 0;
    while i < |ts|
      invariant 0 <= i <= |ts|
      invariant reg.Valid()
      invariant reg.hosts == ReplaceHosts(h0, ts[..i])
      invariant reg.State() == s0.(hosts := reg.hosts)
    {
      ReplaceHostIn(reg, ts[i]);
      ReplaceHostsStep(h0, ts, i);
      i := i + 1;
    }
    assert ts[..i] == ts;
  }

  /** One pass of the replacing loop of slotHosts. */
  method ReplaceHostIn(reg: Registry, t: Host)
    requires reg.Valid()
    modifies reg
    ensures reg.State() == old(reg.State()).(hosts := ReplaceHost(old(reg.hosts), t))
    ensures reg.Valid()
  {
    match FindHost(reg.hosts, HostName(t), t.workgroup) {
      case Some(j) => var _ := reg.RemoveHost(reg.hosts[j]);
      case None =>
    }
    var _ := reg.AddHost(CopyHost(t));
  }

  /** The adding loop of slotHosts without a workgroup. */
  method AddHostCopiesIn(reg: Registry, ts: seq<Host>)
    requires reg.Valid()
    modifies reg
    ensures reg.State() == old(reg.State()).(hosts := AddHostCopies(old(reg.hosts), ts))
    ensures reg.Valid()
  {
    var i := 0;
    while i < |ts|
      invariant 0 <= i <= |ts|
      invariant reg.Valid()
      invariant reg.State() == old(reg.State()).(hosts := AddHostCopies(old(reg.hosts), ts[..i]))
    {
      var _ := reg.AddHost(CopyHost(ts[i]));
      AddHostCopiesStep(old(reg.hosts), ts, i);
      i := i + 1;
    }
    assert ts[..i] == ts;
  }

  /** The inner loop of slotShares: the first mounted instance that is
      not foreign, or else the first one. */
  method PickMountOf(ms: seq<Share>) returns (m: Share)
    requires ms != []
    ensures m == PickMount(ms)
  {
    m := ms[0];
    var j := 0;
    while j < |ms|
      invariant 0 <= j <= |ms|
      invariant forall k :: 0 <= k < j ==> ms[k].foreign
      invariant m == ms[0]
    {
      if !ms[j].foreign {
        m := ms[j];
        return;
      }
      j := j + 1;
    }
  }

  /** The loop of slotShares over a non-empty list. */
  method MergeSharesIn(reg: Registry, ts: seq<Share>)
    requires reg.Valid()
    modifies reg
    ensures reg.State() == old(reg.State()).(shares := MergeShares(old(reg.shares), ts, old(reg.mountedShares)))
    ensures reg.Valid()
  {
    var i := 0;
    while i < |ts|
      invariant 0 <= i <= |ts|
      invariant reg.Valid()
      invariant reg.State() == old(reg.State()).(shares := MergeShares(old(reg.shares), ts[..i], old(reg.mountedShares)))
    {
      MergeShareIn(reg, ts[i]);
      MergeSharesStep(old(reg.shares), ts, old(reg.mountedShares), i);
      i := i + 1;
    }
    assert ts[..i] == ts;
  }

  /** One pass of the loop of slotShares. */
  method MergeShareIn(reg: Registry, t: Share)
    requires reg.Valid()
    modifies reg
    ensures reg.State() == old(reg.State()).(shares := ReplaceShare(old(reg.shares), WithMounts(t, reg.mountedShares)))
    ensures reg.Valid()
  {
    var s := t;
    var ms := FindShareByUNC(reg.mountedShares, ShareUnc(s));
    if ms != [] {
      var m := PickMountOf(ms);
      s := WithMountData(s, m);
    }
    match FindShare(reg.shares, s.name, s.host, s.workgroup) {
      case Some(j) => var _ := reg.RemoveShare(reg.shares[j]);
      case None =>
    }
    var _ := reg.AddShare(s);
  }
}
