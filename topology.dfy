/** The process-wide registry of discovered network items (the
    Smb4KGlobal namespace): the lists of workgroups, hosts, shares and
    mounted shares, their find/add/remove/clear functions and the derived
    queries workgroupMembers, sharedResources and findShareByUNC.

    The bodies of these functions are not part of the model; their
    documented contracts are.  Item identity is therefore fixed here by the
    predicates WorkgroupNamed, HostIdentified, ShareIdentified and
    MountedAt: names compare case-insensitively and an empty workgroup
    argument matches any workgroup, as the find functions allow. */
module Topology {
  import opened Common
  import opened Text
  import opened NetworkItems

  // ---------------------------------------------------------------------
  // Identity
  // ---------------------------------------------------------------------

  predicate WorkgroupNamed(w: Workgroup, name: string) {
    EqualsIgnoreCase(w.name, name)
  }

  /** `h` is what findHost(name, workgroup) looks for. */
  predicate HostIdentified(h: Host, name: string, workgroup: string) {
    EqualsIgnoreCase(HostName(h), name) && (workgroup == "" || EqualsIgnoreCase(h.workgroup, workgroup))
  }

  /** `s` is what findShare(name, host, workgroup) looks for. */
  predicate ShareIdentified(s: Share, name: string, host: string, workgroup: string) {
    EqualsIgnoreCase(s.name, name) && EqualsIgnoreCase(s.host, host)
    && (workgroup == "" || EqualsIgnoreCase(s.workgroup, workgroup))
  }

  /** A mounted share is identified by its mount point (findShareByPath). */
  predicate MountedAt(s: Share, path: string) {
    s.mountPath == path
  }

  /** An entry `a` already in a list hides a later entry `b`: looking `b`
      up by its own identity would find `a`. */
  predicate WorkgroupHides(a: Workgroup, b: Workgroup) { WorkgroupNamed(a, b.name) }
  predicate HostHides(a: Host, b: Host) { HostIdentified(a, HostName(b), b.workgroup) }
  predicate ShareHides(a: Share, b: Share) { ShareIdentified(a, b.name, b.host, b.workgroup) }
  predicate MountHides(a: Share, b: Share) { MountedAt(a, b.mountPath) }

  // ---------------------------------------------------------------------
  // Queries
  // ---------------------------------------------------------------------

  /** findWorkgroup: the position of the first workgroup of that name. */
  function FindWorkgroup(ws: seq<Workgroup>, name: string): (r: Option<nat>)
    ensures r.Some? ==> r.value < |ws| && WorkgroupNamed(ws[r.value], name)
    ensures r.Some? ==> forall j :: 0 <= j < r.value ==> !WorkgroupNamed(ws[j], name)
    ensures r.None? <==> forall j :: 0 <= j < |ws| ==> !WorkgroupNamed(ws[j], name)
  {
    FindFirst(ws, w => WorkgroupNamed(w, name))
  }

  /** findHost: the first host of that name, in that workgroup unless the
      workgroup is empty. */
  function FindHost(hs: seq<Host>, name: string, workgroup: string): (r: Option<nat>)
    ensures r.Some? ==> r.value < |hs| && HostIdentified(hs[r.value], name, workgroup)
    ensures r.Some? ==> forall j :: 0 <= j < r.value ==> !HostIdentified(hs[j], name, workgroup)
    ensures r.None? <==> forall j :: 0 <= j < |hs| ==> !HostIdentified(hs[j], name, workgroup)
  {
    FindFirst(hs, h => HostIdentified(h, name, workgroup))
  }

  /** findShare: share and host name are mandatory, the workgroup may be
      empty. */
  function FindShare(ss: seq<Share>, name: string, host: string, workgroup: string): (r: Option<nat>)
    ensures r.Some? ==> r.value < |ss| && ShareIdentified(ss[r.value], name, host, workgroup)
    ensures r.Some? ==> forall j :: 0 <= j < r.value ==> !ShareIdentified(ss[j], name, host, workgroup)
    ensures r.None? <==> forall j :: 0 <= j < |ss| ==> !ShareIdentified(ss[j], name, host, workgroup)
  {
    FindFirst(ss, s => ShareIdentified(s, name, host, workgroup))
  }

  /** findShareByPath on the mounted shares. */
  function FindShareByPath(ms: seq<Share>, path: string): (r: Option<nat>)
    ensures r.Some? ==> r.value < |ms| && ms[r.value].mountPath == path
    ensures r.None? <==> forall j :: 0 <= j < |ms| ==> ms[j].mountPath != path
  {
    FindFirst(ms, s => MountedAt(s, path))
  }

  predicate IsMember(h: Host, w: Workgroup) {
    EqualsIgnoreCase(h.workgroup, w.name)
  }

  /** workgroupMembers: the hosts of the workgroup, in list order. */
  function WorkgroupMembers(hs: seq<Host>, w: Workgroup): seq<Host> {
    Filter(hs, h => IsMember(h, w))
  }

  predicate IsSharedBy(s: Share, h: Host) {
    EqualsIgnoreCase(s.host, HostName(h)) && EqualsIgnoreCase(s.workgroup, h.workgroup)
  }

  /** sharedResources: the shares the host provides, in list order. */
  function SharedResources(ss: seq<Share>, h: Host): seq<Share> {
    Filter(ss, s => IsSharedBy(s, h))
  }

  /** The UNC with scheme, user info and port stripped: "//host/path". */
  function StrippedUnc(unc: string): string {
    var u := ParseUrl(unc);
    "//" + u.host + u.path
  }

  predicate HasUnc(s: Share, unc: string) {
    EqualsIgnoreCase(ShareUnc(s), StrippedUnc(unc))
  }

  /** findShareByUNC: every mount of the share, in list order. */
  function FindShareByUNC(ms: seq<Share>, unc: string): seq<Share> {
    Filter(ms, s => HasUnc(s, unc))
  }

  // ---------------------------------------------------------------------
  // List updates
  // ---------------------------------------------------------------------

  /** addWorkgroup: appended only when no workgroup of that name exists. */
  function WithWorkgroup(ws: seq<Workgroup>, w: Workgroup): seq<Workgroup> {
    if FindWorkgroup(ws, w.name).None? then ws + [w] else ws
  }

  /** addHost: appended only when findHost(name, workgroup) fails. */
  function WithHost(hs: seq<Host>, h: Host): seq<Host> {
    if FindHost(hs, HostName(h), h.workgroup).None? then hs + [h] else hs
  }

  /** addShare: appended only when findShare(name, host, workgroup) fails. */
  function WithShare(ss: seq<Share>, s: Share): seq<Share> {
    if FindShare(ss, s.name, s.host, s.workgroup).None? then ss + [s] else ss
  }

  /** addMountedShare: appended only when nothing is mounted at its path. */
  function WithMountedShare(ms: seq<Share>, s: Share): seq<Share> {
    if FindShareByPath(ms, s.mountPath).None? then ms + [s] else ms
  }

  /** No entry of any list hides a later one. */
  predicate UniqueKeys(ws: seq<Workgroup>, hs: seq<Host>, ss: seq<Share>, ms: seq<Share>) {
    PairwiseApart(ws, WorkgroupHides) && PairwiseApart(hs, HostHides)
    && PairwiseApart(ss, ShareHides) && PairwiseApart(ms, MountHides)
  }

  // ---------------------------------------------------------------------
  // Properties of the registry contract
  // ---------------------------------------------------------------------

  lemma AppendApart<T>(s: seq<T>, x: T, r: (T, T) -> bool)
    requires PairwiseApart(s, r)
    requires forall j :: 0 <= j < |s| ==> !r(s[j], x)
    ensures PairwiseApart(s + [x], r)
  {
    var t := s + [x];
    forall i, j | 0 <= i < j < |t| ensures !r(t[i], t[j]) {
      assert t[i] == s[i];
      if j < |s| { assert t[j] == s[j]; }
    }
  }

  /** addWorkgroup adds iff no workgroup of that name is known; afterwards
      one is known, the list only grows, and names stay unique. */
  lemma AddWorkgroupContract(ws: seq<Workgroup>, w: Workgroup)
    ensures var r := WithWorkgroup(ws, w);
      && (|r| == |ws| + 1 <==> FindWorkgroup(ws, w.name).None?)
      && FindWorkgroup(r, w.name).Some?
      && (FindWorkgroup(ws, w.name).None? ==> r[|ws|] == w)
      && r[..|ws|] == ws
      && (PairwiseApart(ws, WorkgroupHides) ==> PairwiseApart(r, WorkgroupHides))
  {
    var r := WithWorkgroup(ws, w);
    if FindWorkgroup(ws, w.name).None? {
      assert WorkgroupNamed(r[|ws|], w.name);
      if PairwiseApart(ws, WorkgroupHides) {
        AppendApart(ws, w, WorkgroupHides);
      }
    }
  }

  /** addHost adds iff findHost(name, workgroup) fails; afterwards the host
      is found, the list only grows, and identities stay unique. */
  lemma AddHostContract(hs: seq<Host>, h: Host)
    ensures var r := WithHost(hs, h);
      && (|r| == |hs| + 1 <==> FindHost(hs, HostName(h), h.workgroup).None?)
      && FindHost(r, HostName(h), h.workgroup).Some?
      && (FindHost(hs, HostName(h), h.workgroup).None? ==> r[|hs|] == h)
      && r[..|hs|] == hs
      && (PairwiseApart(hs, HostHides) ==> PairwiseApart(r, HostHides))
  {
    var r := WithHost(hs, h);
    if FindHost(hs, HostName(h), h.workgroup).None? {
      assert HostIdentified(r[|hs|], HostName(h), h.workgroup);
      if PairwiseApart(hs, HostHides) {
        AppendApart(hs, h, HostHides);
      }
    }
  }

  /** addShare adds iff findShare(name, host, workgroup) fails. */
  lemma AddShareContract(ss: seq<Share>, s: Share)
    ensures var r := WithShare(ss, s);
      && (|r| == |ss| + 1 <==> FindShare(ss, s.name, s.host, s.workgroup).None?)
      && FindShare(r, s.name, s.host, s.workgroup).Some?
      && (FindShare(ss, s.name, s.host, s.workgroup).None? ==> r[|ss|] == s)
      && r[..|ss|] == ss
      && (PairwiseApart(ss, ShareHides) ==> PairwiseApart(r, ShareHides))
  {
    var r := WithShare(ss, s);
    if FindShare(ss, s.name, s.host, s.workgroup).None? {
      assert ShareIdentified(r[|ss|], s.name, s.host, s.workgroup);
      if PairwiseApart(ss, ShareHides) {
        AppendApart(ss, s, ShareHides);
      }
    }
  }

  /** addMountedShare adds iff nothing is mounted at the share's path. */
  lemma AddMountedShareContract(ms: seq<Share>, s: Share)
    ensures var r := WithMountedShare(ms, s);
      && (|r| == |ms| + 1 <==> FindShareByPath(ms, s.mountPath).None?)
      && FindShareByPath(r, s.mountPath).Some?
      && r[..|ms|] == ms
      && (PairwiseApart(ms, MountHides) ==> PairwiseApart(r, MountHides))
  {
    var r := WithMountedShare(ms, s);
    if FindShareByPath(ms, s.mountPath).None? {
      assert MountedAt(r[|ms|], s.mountPath);
      if PairwiseApart(ms, MountHides) {
        AppendApart(ms, s, MountHides);
      }
    }
  }

  /** remove*: true iff the item was in the list; exactly one copy goes and
      the keys stay unique. */
  lemma RemoveContract<T>(s: seq<T>, x: T, hides: (T, T) -> bool)
    ensures |RemoveFirst(s, x)| == if x in s then |s| - 1 else |s|
    ensures multiset(RemoveFirst(s, x))[x] == if x in s then multiset(s)[x] - 1 else 0
    ensures PairwiseApart(s, hides) ==> PairwiseApart(RemoveFirst(s, x), hides)
  {
    if PairwiseApart(s, hides) {
      RemoveFirstApart(s, x, hides);
    }
  }

  /** findHost with an empty workgroup finds any host of that name: a
      scoped lookup can only succeed where the unscoped one does. */
  lemma FindHostWildcard(hs: seq<Host>, name: string, workgroup: string)
    ensures FindHost(hs, name, workgroup).Some? ==> FindHost(hs, name, "").Some?
    ensures FindHost(hs, name, "").None? <==> forall h :: h in hs ==> !EqualsIgnoreCase(HostName(h), name)
  {
    if FindHost(hs, name, workgroup).Some? {
      assert HostIdentified(hs[FindHost(hs, name, workgroup).value], name, "");
    }
    if FindHost(hs, name, "").Some? {
      assert hs[FindHost(hs, name, "").value] in hs;
    }
  }

  /** workgroupMembers returns exactly the hosts of the workgroup. */
  lemma WorkgroupMembersExactly(hs: seq<Host>, w: Workgroup, h: Host)
    ensures h in WorkgroupMembers(hs, w) <==> h in hs && IsMember(h, w)
  {
    FilterIn(hs, h => IsMember(h, w), h);
  }

  /** sharedResources returns exactly the shares the host provides. */
  lemma SharedResourcesExactly(ss: seq<Share>, h: Host, s: Share)
    ensures s in SharedResources(ss, h) <==> s in ss && IsSharedBy(s, h)
  {
    FilterIn(ss, s => IsSharedBy(s, h), s);
  }

  /** findShareByUNC returns every mount with that UNC, each as often as it
      is mounted. */
  lemma FindShareByUNCExactly(ms: seq<Share>, unc: string, s: Share)
    ensures s in FindShareByUNC(ms, unc) <==> s in ms && HasUnc(s, unc)
    ensures HasUnc(s, unc) ==> multiset(FindShareByUNC(ms, unc))[s] == multiset(ms)[s]
  {
    FilterIn(ms, s => HasUnc(s, unc), s);
    FilterMultiset(ms, s => HasUnc(s, unc), s);
  }

  /** Scheme, user info and port do not take part in the UNC comparison,
      unless dropping them leaves a URL with neither host nor authority
      whose path opens with "//". */
  lemma StrippedUncOfUrl(u: Url)
    requires WellFormed(u)
    ensures StrippedUnc(Render(u, false, false)) == "//" + u.host + u.path
    ensures u.host != "" || !StartsWith(u.path, "//") ==>
              StrippedUnc(Render(u, false, false))
              == StrippedUnc(Render(u.(scheme := "smb", user := "", password := "", port := -1), false, false))
  {
    StrippedUncRendered(u);
    var v := u.(scheme := "smb", user := "", password := "", port := -1);
    if u.host != "" || !StartsWith(u.path, "//") {
      assert WellFormed(v);
      StrippedUncRendered(v);
    }
  }

  lemma StrippedUncRendered(u: Url)
    requires WellFormed(u)
    ensures StrippedUnc(Render(u, false, false)) == "//" + u.host + u.path
  {
    ParseRender(u);
  }

  /** Two hosts with the key of a host whose workgroup is given have the
      same key: the key relation is transitive there and reflexive. */
  lemma HostKeyFacts(x: Host)
    requires x.workgroup != ""
    ensures forall a :: HostHides(a, a)
    ensures forall a, b :: HostHides(a, x) && HostHides(b, x) ==> HostHides(a, b)
  {
  }

  lemma ShareKeyFacts(x: Share)
    requires x.workgroup != ""
    ensures forall a :: ShareHides(a, a)
    ensures forall a, b :: ShareHides(a, x) && ShareHides(b, x) ==> ShareHides(a, b)
  {
  }

  /** Removing the members of a workgroup one by one leaves exactly the
      hosts of other workgroups. */
  lemma RemoveMembers(hs: seq<Host>, w: Workgroup)
    ensures forall x :: x in RemoveEach(hs, WorkgroupMembers(hs, w)) <==> x in hs && !IsMember(x, w)
  {
    RemoveFiltered(hs, h => IsMember(h, w));
  }

  /** Removing the shared resources of a host one by one leaves exactly
      the shares of other hosts. */
  lemma RemoveSharedResources(ss: seq<Share>, h: Host)
    ensures forall x :: x in RemoveEach(ss, SharedResources(ss, h)) <==> x in ss && !IsSharedBy(x, h)
  {
    RemoveFiltered(ss, s => IsSharedBy(s, h));
  }

  // ---------------------------------------------------------------------
  // The registry object
  // ---------------------------------------------------------------------

  datatype Lists = Lists(workgroups: seq<Workgroup>, hosts: seq<Host>, shares: seq<Share>,
                         mountedShares: seq<Share>)

  /** The four global lists, changed only through the functions below. */
  class Registry {
    var workgroups: seq<Workgroup>
    var hosts: seq<Host>
    var shares: seq<Share>
    var mountedShares: seq<Share>

    function State(): Lists
      reads this
    {
      Lists(workgroups, hosts, shares, mountedShares)
    }

    predicate Valid()
      reads this
    {
      UniqueKeys(workgroups, hosts, shares, mountedShares)
    }

    constructor ()
      ensures State() == Lists([], [], [], [])
      ensures Valid()
    {
      workgroups, hosts, shares, mountedShares := [], [], [], [];
    }

    method AddWorkgroup(w: Workgroup) returns (added: bool)
      requires Valid()
      modifies this
      ensures added <==> FindWorkgroup(old(workgroups), w.name).None?
      ensures State() == old(State()).(workgroups := WithWorkgroup(old(workgroups), w))
      ensures Valid()
    {
      AddWorkgroupContract(workgroups, w);
      added := FindWorkgroup(workgroups, w.name).None?;
      if added {
        workgroups := workgroups + [w];
      }
    }

    method RemoveWorkgroup(w: Workgroup) returns (removed: bool)
      requires Valid()
      modifies this
      ensures removed <==> w in old(workgroups)
      ensures State() == old(State()).(workgroups := RemoveFirst(old(workgroups), w))
      ensures Valid()
    {
      RemoveContract(workgroups, w, WorkgroupHides);
      removed := w in workgroups;
      workgroups := RemoveFirst(workgroups, w);
    }

    method ClearWorkgroupsList()
      modifies this
      ensures State() == old(State()).(workgroups := [])
      ensures old(Valid()) ==> Valid()
    {
      workgroups := [];
    }

    method AddHost(h: Host) returns (added: bool)
      requires Valid()
      modifies this
      ensures added <==> FindHost(old(hosts), HostName(h), h.workgroup).None?
      ensures State() == old(State()).(hosts := WithHost(old(hosts), h))
      ensures Valid()
    {
      AddHostContract(hosts, h);
      added := FindHost(hosts, HostName(h), h.workgroup).None?;
      if added {
        hosts := hosts + [h];
      }
    }

    method RemoveHost(h: Host) returns (removed: bool)
      requires Valid()
      modifies this
      ensures removed <==> h in old(hosts)
      ensures State() == old(State()).(hosts := RemoveFirst(old(hosts), h))
      ensures Valid()
    {
      RemoveContract(hosts, h, HostHides);
      removed := h in hosts;
      hosts := RemoveFirst(hosts, h);
    }

    method ClearHostsList()
      modifies this
      ensures State() == old(State()).(hosts := [])
      ensures old(Valid()) ==> Valid()
    {
      hosts := [];
    }

    /** A change made through a pointer into the host list (setIP,
        setIsMasterBrowser, setInfo on a registry host); the host keeps
        its identity. */
    method UpdateHost(i: nat, h: Host)
      requires Valid()
      requires i < |hosts| && HostName(h) == HostName(hosts[i]) && h.workgroup == hosts[i].workgroup
      modifies this
      ensures State() == old(State()).(hosts := old(hosts)[i := h])
      ensures Valid()
    {
      hosts := hosts[i := h];
      forall a, b | 0 <= a < b < |hosts| ensures !HostHides(hosts[a], hosts[b]) {
        assert !HostHides(old(hosts)[a], old(hosts)[b]);
      }
    }

    method UpdateWorkgroup(i: nat, w: Workgroup)
      requires Valid()
      requires i < |workgroups| && w.name == workgroups[i].name
      modifies this
      ensures State() == old(State()).(workgroups := old(workgroups)[i := w])
      ensures Valid()
    {
      workgroups := workgroups[i := w];
      forall a, b | 0 <= a < b < |workgroups| ensures !WorkgroupHides(workgroups[a], workgroups[b]) {
        assert !WorkgroupHides(old(workgroups)[a], old(workgroups)[b]);
      }
    }

    method AddShare(s: Share) returns (added: bool)
      requires Valid()
      modifies this
      ensures added <==> FindShare(old(shares), s.name, s.host, s.workgroup).None?
      ensures State() == old(State()).(shares := WithShare(old(shares), s))
      ensures Valid()
    {
      AddShareContract(shares, s);
      added := FindShare(shares, s.name, s.host, s.workgroup).None?;
      if added {
        shares := shares + [s];
      }
    }

    method RemoveShare(s: Share) returns (removed: bool)
      requires Valid()
      modifies this
      ensures removed <==> s in old(shares)
      ensures State() == old(State()).(shares := RemoveFirst(old(shares), s))
      ensures Valid()
    {
      RemoveContract(shares, s, ShareHides);
      removed := s in shares;
      shares := RemoveFirst(shares, s);
    }

    method ClearSharesList()
      modifies this
      ensures State() == old(State()).(shares := [])
      ensures old(Valid()) ==> Valid()
    {
      shares := [];
    }

    method AddMountedShare(s: Share) returns (added: bool)
      requires Valid()
      modifies this
      ensures added <==> FindShareByPath(old(mountedShares), s.mountPath).None?
      ensures State() == old(State()).(mountedShares := WithMountedShare(old(mountedShares), s))
      ensures Valid()
    {
      AddMountedShareContract(mountedShares, s);
      added := FindShareByPath(mountedShares, s.mountPath).None?;
      if added {
        mountedShares := mountedShares + [s];
      }
    }

    method RemoveMountedShare(s: Share) returns (removed: bool)
      requires Valid()
      modifies this
      ensures removed <==> s in old(mountedShares)
      ensures State() == old(State()).(mountedShares := RemoveFirst(old(mountedShares), s))
      ensures Valid()
    {
      RemoveContract(mountedShares, s, MountHides);
      removed := s in mountedShares;
      mountedShares := RemoveFirst(mountedShares, s);
    }
  }
}
