/** The IP address scanner (Smb4KIPAddressScanner): it decides for a
    host whether its address is already known, can be copied from the
    registry copy of the host, or has to be looked up by a worker cached
    under the host name; a worker's result updates the registry host.

    lookup changes only the host object it is given, never the registry:
    the host is a value here, and the method hands it back after setIP. */
module IpScanning {
  import opened Common
  import opened NetworkItems
  import opened Topology
  import opened ScanModel

  /** What the IP scanner sees of a worker thread. */
  datatype IpWorker = IpWorker(host: Host, hasProcess: bool, state: ProcessState,
                               aborted: bool, finished: bool)

  /** Error messages and the ipAddress signal, in order. */
  datatype IpEvent = IpCommandNotFound(program: string) | IpAddressFound(host: Host)

  datatype IpWorld = IpWorld(cache: map<string, IpWorker>, events: seq<IpEvent>)

  /** The programs the lookup command needs, in the order they are looked up. */
  const IpPrograms: seq<string> := ["nmblookup", "grep", "awk"]

  /** The outcomes of lookup. */
  datatype Outcome = AlreadyChecked | CopiedFrom(known: Host) | ProgramMissing(program: string) | WorkerStarted

  function Decide(h: Host, hs: seq<Host>, available: set<string>): Outcome {
    if h.ipChecked then AlreadyChecked
    else
      var known := FindHost(hs, HostName(h), h.workgroup);
      if known.Some? && hs[known.value].ipChecked then CopiedFrom(hs[known.value])
      else match FirstMissing(IpPrograms, available)
        case Some(p) => ProgramMissing(p)
        case None => WorkerStarted
  }

  /** The worker started for `h`; with `wait` the call returns only after
      the worker has finished. */
  function NewIpWorker(h: Host, wait: bool): IpWorker {
    IpWorker(h, true, if wait then NotRunning else Starting, false, wait)
  }

  /** The scanner's fields after lookup(h, wait) against the registry
      hosts `hs`. */
  function LookupWorld(w: IpWorld, h: Host, hs: seq<Host>, wait: bool, available: set<string>): IpWorld {
    match Decide(h, hs, available)
    case AlreadyChecked => w
    case CopiedFrom(k) => w.(events := w.events + [IpAddressFound(WithIP(h, k.ip))])
    case ProgramMissing(p) => w.(events := w.events + [IpCommandNotFound(p)])
    case WorkerStarted => w.(cache := w.cache[HostName(h) := NewIpWorker(h, wait)])
  }

  /** The host object after lookup. */
  function LookupHost(h: Host, hs: seq<Host>, available: set<string>): Host {
    match Decide(h, hs, available)
    case CopiedFrom(k) => WithIP(h, k.ip)
    case _ => h
  }

  /** lookup(list, wait): lookup of every listed host, in order, with the
      same `wait`. */
  function LookupList(w: IpWorld, list: seq<Host>, hs: seq<Host>, wait: bool, available: set<string>): IpWorld
    decreases |list|
  {
    if list == [] then w
    else LookupWorld(LookupList(w, list[..|list| - 1], hs, wait, available), list[|list| - 1], hs, wait, available)
  }

  /** slotProcessIPAddress: the registry copy takes a new, different
      address. */
  function ProcessStep(hs: seq<Host>, h: Host): seq<Host> {
    match FindHost(hs, HostName(h), h.workgroup)
    case Some(j) =>
      if HasIP(h) && h.ip != hs[j].ip then hs[j := WithIP(hs[j], h.ip)] else hs
    case None => hs
  }

  function IpUnfinished(c: map<string, IpWorker>): map<string, IpWorker> {
    map k | k in c && !c[k].finished :: c[k]
  }

  predicate IpActive(t: IpWorker) {
    t.hasProcess && (t.state == Running || t.state == Starting)
  }

  /** slotAboutToQuit: every running or starting worker is aborted. */
  function IpAbortAll(c: map<string, IpWorker>): map<string, IpWorker> {
    map k | k in c :: if IpActive(c[k]) then c[k].(aborted := true) else c[k]
  }

  // ---------------------------------------------------------------------
  // Properties
  // ---------------------------------------------------------------------

  /** A host whose address was checked is left alone. */
  lemma CheckedHostUntouched(w: IpWorld, h: Host, hs: seq<Host>, wait: bool, available: set<string>)
    requires h.ipChecked
    ensures LookupWorld(w, h, hs, wait, available) == w && LookupHost(h, hs, available) == h
  {
  }

  /** A registry twin with a checked address gives its address, the
      ipAddress signal is emitted and no worker is started. */
  lemma CopiedFromRegistry(w: IpWorld, h: Host, hs: seq<Host>, j: nat, wait: bool, available: set<string>)
    requires !h.ipChecked
    requires FindHost(hs, HostName(h), h.workgroup) == Some(j) && hs[j].ipChecked
    ensures var r := LookupHost(h, hs, available);
      && r == h.(ip := hs[j].ip, ipChecked := true)
      && LookupWorld(w, h, hs, wait, available) == w.(events := w.events + [IpAddressFound(r)])
  {
  }

  /** Without nmblookup, grep or awk no worker is started. */
  lemma MissingProgramNoWorker(w: IpWorld, h: Host, hs: seq<Host>, wait: bool, available: set<string>)
    requires !("nmblookup" in available && "grep" in available && "awk" in available)
    ensures LookupWorld(w, h, hs, wait, available).cache == w.cache
  {
  }

  /** A started worker is cached under the host name, replacing any
      worker cached under it, and no other entry changes. */
  lemma WorkerCachedByName(w: IpWorld, h: Host, hs: seq<Host>, wait: bool, available: set<string>)
    requires Decide(h, hs, available) == WorkerStarted
    ensures var r := LookupWorld(w, h, hs, wait, available);
      && r.cache.Keys == w.cache.Keys + {HostName(h)}
      && r.cache[HostName(h)] == NewIpWorker(h, wait)
      && (forall k :: k in w.cache && k != HostName(h) ==> r.cache[k] == w.cache[k])
      && (wait ==> r.cache[HostName(h)].finished)
      && r.events == w.events
  {
  }

  /** A host of a registry whose keys are unique is its own first match,
      so lookup never copies an address to it. */
  lemma RegistryHostNotCopied(hs: seq<Host>, i: nat, available: set<string>)
    requires PairwiseApart(hs, HostHides) && i < |hs|
    ensures !Decide(hs[i], hs, available).CopiedFrom?
  {
    var h := hs[i];
    assert HostHides(h, h);
    forall k | 0 <= k < i ensures !HostIdentified(hs[k], HostName(h), h.workgroup) {
      assert !HostHides(hs[k], hs[i]);
    }
    assert FindHost(hs, HostName(h), h.workgroup) == Some(i);
  }

  /** After the list overload every listed host has a checked address or
      a worker cached under its name, unless a needed program is missing. */
  lemma {:induction false} LookupListCovers(w: IpWorld, list: seq<Host>, hs: seq<Host>, wait: bool, available: set<string>)
    requires FirstMissing(IpPrograms, available).None?
    ensures var r := LookupList(w, list, hs, wait, available);
      forall k :: 0 <= k < |list| ==>
        LookupHost(list[k], hs, available).ipChecked || HostName(list[k]) in r.cache
    decreases |list|
  {
    if list != [] {
      var init := list[..|list| - 1];
      LookupListCovers(w, init, hs, wait, available);
      var w0 := LookupList(w, init, hs, wait, available);
      var r := LookupList(w, list, hs, wait, available);
      assert r == LookupWorld(w0, list[|list| - 1], hs, wait, available);
      assert w0.cache.Keys <= r.cache.Keys;
      forall k | 0 <= k < |list|
        ensures LookupHost(list[k], hs, available).ipChecked || HostName(list[k]) in r.cache
      {
        if k < |list| - 1 {
          assert list[k] == init[k];
        }
      }
    }
  }

  /** A result changes the registry only at the host's registry copy, and
      only to a new, different address; an unknown host changes nothing. */
  lemma ProcessStepContract(hs: seq<Host>, h: Host)
    ensures var r := ProcessStep(hs, h);
      && |r| == |hs|
      && (FindHost(hs, HostName(h), h.workgroup).None? ==> r == hs)
      && (!HasIP(h) ==> r == hs)
      && (forall k :: 0 <= k < |hs| && r[k] != hs[k] ==>
            FindHost(hs, HostName(h), h.workgroup) == Some(k) && hs[k].ip != h.ip
            && r[k] == hs[k].(ip := h.ip, ipChecked := true))
  {
  }

  /** slotThreadFinished drops exactly the finished workers. */
  lemma IpUnfinishedContract(c: map<string, IpWorker>)
    ensures forall k :: k in IpUnfinished(c) <==> k in c && !c[k].finished
    ensures forall k :: k in IpUnfinished(c) ==> IpUnfinished(c)[k] == c[k]
  {
  }

  // ---------------------------------------------------------------------
  // The scanner object
  // ---------------------------------------------------------------------

  class IpScanner {
    var cache: map<string, IpWorker>
    var events: seq<IpEvent>
    const reg: Registry

    function Snapshot(): IpWorld
      reads this
    {
      IpWorld(cache, events)
    }

    constructor (r: Registry)
      ensures reg == r
      ensures Snapshot() == IpWorld(map[], [])
    {
      reg := r;
      cache := map[];
      events := [];
    }

    /** lookup(host, wait); returns the host object afterwards. */
    method Lookup(h: Host, wait: bool, available: set<string>) returns (r: Host)
      modifies this
      ensures Snapshot() == LookupWorld(old(Snapshot()), h, reg.hosts, wait, available)
      ensures r == LookupHost(h, reg.hosts, available)
    {
      r := h;
      if h.ipChecked {
        return;
      }
      var known := FindHost(reg.hosts, HostName(h), h.workgroup);
      if known.Some? && reg.hosts[known.value].ipChecked {
        r := WithIP(h, reg.hosts[known.value].ip);
        events := events + [IpAddressFound(r)];
      } else {
        match FirstMissing(IpPrograms, available) {
          case Some(p) =>
            events := events + [IpCommandNotFound(p)];
          case None =>
            cache := cache[HostName(h) := NewIpWorker(h, wait)];
        }
      }
    }

    /** lookup(list, wait); returns the host objects afterwards. */
    method LookupAll(list: seq<Host>, wait: bool, available: set<string>) returns (rs: seq<Host>)
      modifies this
      ensures Snapshot() == LookupList(old(Snapshot()), list, reg.hosts, wait, available)
      ensures |rs| == |list|
      ensures forall k :: 0 <= k < |list| ==> rs[k] == LookupHost(list[k], reg.hosts, available)
    {
      rs := [];
      var n := 0;
      while n < |list|
        invariant 0 <= n <= |list| && |rs| == n
        invariant Snapshot() == LookupList(old(Snapshot()), list[..n], reg.hosts, wait, available)
        invariant forall k :: 0 <= k < n ==> rs[k] == LookupHost(list[k], reg.hosts, available)
      {
        var r := Lookup(list[n], wait, available);
        rs := rs + [r];
        assert list[..n + 1][..n] == list[..n];
        n := n + 1;
      }
      assert list[..n] == list;
    }
    /** slotProcessIPAddress. */
    method ProcessIPAddress(h: Host)
      requires reg.Valid()
      modifies reg
      ensures reg.State() == old(reg.State()).(hosts := ProcessStep(old(reg.hosts), h))
      ensures reg.Valid()
    {
      match FindHost(reg.hosts, HostName(h), h.workgroup) {
        case Some(j) =>
          if HasIP(h) && h.ip != reg.hosts[j].ip {
            reg.UpdateHost(j, WithIP(reg.hosts[j], h.ip));
          }
        case None =>
      }
    }

    /** slotThreadFinished. */
    method ThreadFinished()
      modifies this
      ensures Snapshot() == old(Snapshot()).(cache := IpUnfinished(old(cache)))
    {
      var c := cache;
      var keys := c.Keys;
      while keys != {}
        invariant keys <= cache.Keys
        invariant forall k :: k in c <==> k in cache && (k in keys || !cache[k].finished)
        invariant forall k :: k in c ==> c[k] == cache[k]
        decreases keys
      {
        var k :| k in keys;
        if c[k].finished {
          c := c - {k};
        }
        keys := keys - {k};
      }
      assert c == IpUnfinished(cache);
      cache := c;
    }

    /** slotAboutToQuit. */
    method AboutToQuit()
      modifies this
      ensures Snapshot() == old(Snapshot()).(cache := IpAbortAll(old(cache)))
    {
      ghost var target := IpAbortAll(cache);
      var c := cache;
      var keys := c.Keys;
      while keys != {}
        invariant keys <= c.Keys == cache.Keys
        invariant forall k :: k in c ==> c[k] == if k in keys then cache[k] else target[k]
        decreases keys
      {
        var k :| k in keys;
        if IpActive(c[k]) {
          c := c[k := c[k].(aborted := true)];
        }
        keys := keys - {k};
      }
      assert c == target;
      cache := c;
    }
  }
}
