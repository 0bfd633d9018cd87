/** The bookmark handler: the bookmarks of the active profile and their
    group names kept in memory, and the bookmarks file, which holds the
    bookmarks of every profile. The file is modelled as the sequence of
    bookmarks it stores; reading it keeps the entries of one profile. */
module Bookmarks {
  import opened Common
  import opened Text
  import opened NetworkItems
  import opened Topology

  /** A bookmark: its profile and group, the share's workgroup, UNC and
      host name, the login, the host's IP address, the share type, a label
      and whether its URL is valid (invalid ones are never written). */
  datatype Bookmark = Bookmark(profile: string, groupName: string, workgroup: string,
                               unc: string, hostName: string, login: string, hostIP: string,
                               typeString: string, labelText: string, urlValid: bool)

  // ---------------------------------------------------------------------
  // update(): host addresses taken from the registry

  /** One bookmark after update(): the IP address of its registry host,
      when that host is known and has a non-blank address. */
  function Refreshed(b: Bookmark, hs: seq<Host>): Bookmark {
    match FindHost(hs, b.hostName, b.workgroup)
      case None => b
      case Some(i) =>
        if Trimmed(hs[i].ip) != "" && b.hostIP != hs[i].ip then b.(hostIP := hs[i].ip) else b
  }

  /** Every bookmark after update(). */
  function UpdateAll(bs: seq<Bookmark>, hs: seq<Host>): (r: seq<Bookmark>)
    ensures |r| == |bs|
    ensures forall i :: 0 <= i < |bs| ==> r[i].(hostIP := bs[i].hostIP) == bs[i]
  {
    seq(|bs|, i requires 0 <= i < |bs| => Refreshed(bs[i], hs))
  }

  /** update() takes a known host's non-blank address and leaves every
      other bookmark alone. */
  lemma RefreshedContract(b: Bookmark, hs: seq<Host>)
    ensures FindHost(hs, b.hostName, b.workgroup).None? ==> Refreshed(b, hs) == b
    ensures forall i :: FindHost(hs, b.hostName, b.workgroup) == Some(i) ==>
              Refreshed(b, hs).hostIP == (if Trimmed(hs[i].ip) != "" then hs[i].ip else b.hostIP)
    ensures Refreshed(b, hs).(hostIP := b.hostIP) == b
  {
  }

  /** Running update() twice changes nothing more. */
  lemma UpdateAllIdempotent(bs: seq<Bookmark>, hs: seq<Host>)
    ensures UpdateAll(UpdateAll(bs, hs), hs) == UpdateAll(bs, hs)
  {
    var u := UpdateAll(bs, hs);
    forall i | 0 <= i < |bs| ensures Refreshed(u[i], hs) == u[i] {
      assert u[i].hostName == bs[i].hostName && u[i].workgroup == bs[i].workgroup;
    }
  }

  /** The update() loop, changing each bookmark in place. */
  method RefreshAll(bs: seq<Bookmark>, hs: seq<Host>) returns (r: seq<Bookmark>)
    ensures r == UpdateAll(bs, hs)
  {
    r := bs;
    var i := 0;
    while i < |r|
      invariant 0 <= i <= |r| == |bs|
      invariant forall j :: 0 <= j < i ==> r[j] == Refreshed(bs[j], hs)
      invariant forall j :: i <= j < |r| ==> r[j] == bs[j]
    {
      var b := RefreshOne(r[i], hs);
      r := r[i := b];
      i := i + 1;
    }
  }

  /** One pass of the loop of update(). */
  method RefreshOne(b: Bookmark, hs: seq<Host>) returns (u: Bookmark)
    ensures u == Refreshed(b, hs)
  {
    u := b;
    match FindHost(hs, b.hostName, b.workgroup) {
      case None =>
      case Some(k) =>
        if Trimmed(hs[k].ip) != "" && b.hostIP != hs[k].ip {
          u := b.(hostIP := hs[k].ip);
        }
    }
  }

  // ---------------------------------------------------------------------
  // Searching

  /** findBookmarkByLabel compares the upper-cased labels. */
  predicate LabelIs(b: Bookmark, lbl: string) {
    ToUpper(b.labelText) == ToUpper(lbl)
  }

  /** findBookmarkByUNC compares the upper-cased UNCs. */
  predicate UncIs(b: Bookmark, unc: string) {
    ToUpper(b.unc) == ToUpper(unc)
  }

  function FindByLabel(bs: seq<Bookmark>, lbl: string): Option<nat> {
    FindFirst(bs, (b: Bookmark) => LabelIs(b, lbl))
  }

  function FindByUnc(bs: seq<Bookmark>, unc: string): Option<nat> {
    FindFirst(bs, (b: Bookmark) => UncIs(b, unc))
  }

  /** The search loops of findBookmarkByUNC and findBookmarkByLabel: the
      first element satisfying `p`. */
  method FindFirstIn<T>(s: seq<T>, p: T -> bool) returns (r: Option<nat>)
    ensures r == FindFirst(s, p)
  {
    var i := 0;
    while i < |s|
      invariant 0 <= i <= |s|
      invariant forall j :: 0 <= j < i ==> !p(s[j])
    {
      if p(s[i]) {
        var f := FindFirst(s, p);
        assert f.Some? && f.value >= i;
        return Some(i);
      }
      i := i + 1;
    }
    return None;
  }

  /** Whether a label is found depends only on the labels. */
  lemma FindByLabelOnLabels(a: seq<Bookmark>, b: seq<Bookmark>, lbl: string)
    requires |a| == |b|
    requires forall k :: 0 <= k < |a| ==> a[k].labelText == b[k].labelText
    ensures FindByLabel(a, lbl).Some? <==> FindByLabel(b, lbl).Some?
  {
    if FindByLabel(a, lbl).Some? {
      assert LabelIs(b[FindByLabel(a, lbl).value], lbl);
    }
    if FindByLabel(b, lbl).Some? {
      assert LabelIs(a[FindByLabel(b, lbl).value], lbl);
    }
  }

  /** The bookmarks whose group matches, ignoring case (bookmarksList(group)). */
  function InGroup(bs: seq<Bookmark>, group: string): (r: seq<Bookmark>)
    ensures forall b :: b in r <==> b in bs && EqualsIgnoreCase(b.groupName, group)
  {
    var p := (b: Bookmark) => EqualsIgnoreCase(group, b.groupName);
    assert forall b :: b in Filter(bs, p) <==> b in bs && p(b) by {
      forall b ensures b in Filter(bs, p) <==> b in bs && p(b) {
        FilterIn(bs, p, b);
      }
    }
    Filter(bs, p)
  }

  /** The QMutableListIterator loops that drop every element failing `p`. */
  method FilterInPlace<T>(s: seq<T>, p: T -> bool) returns (r: seq<T>)
    ensures r == Filter(s, p)
  {
    r := [];
    var i := 0;
    while i < |s|
      invariant 0 <= i <= |s|
      invariant r == Filter(s[..i], p)
    {
      FilterAppend(s[..i], s[i], p);
      assert s[..i + 1] == s[..i] + [s[i]];
      if p(s[i]) {
        r := r + [s[i]];
      }
      i := i + 1;
    }
    assert s[..i] == s;
  }

  // ---------------------------------------------------------------------
  // addBookmarks: appending with label collision renaming

  /** One incoming bookmark appended to `bs`. A non-empty label triggers a
      label search, which runs update() first; a label already in use gets
      " (1)" appended. */
  function AddStep(bs: seq<Bookmark>, b: Bookmark, hs: seq<Host>): seq<Bookmark> {
    if b.labelText == "" then bs + [b]
    else
      var cur := UpdateAll(bs, hs);
      if FindByLabel(cur, b.labelText).Some? then cur + [b.(labelText := b.labelText + " (1)")]
      else cur + [b]
  }

  /** All incoming bookmarks appended in order. */
  function AddAll(bs: seq<Bookmark>, list: seq<Bookmark>, hs: seq<Host>): seq<Bookmark>
    decreases |list|
  {
    if list == [] then bs
    else AddStep(AddAll(bs, list[..|list| - 1], hs), list[|list| - 1], hs)
  }

  /** Appending keeps every earlier bookmark except for its IP address, and
      the appended one is the incoming bookmark, possibly renamed. */
  lemma AddStepShape(bs: seq<Bookmark>, b: Bookmark, hs: seq<Host>)
    ensures |AddStep(bs, b, hs)| == |bs| + 1
    ensures forall k :: 0 <= k < |bs| ==> AddStep(bs, b, hs)[k].(hostIP := bs[k].hostIP) == bs[k]
    ensures AddStep(bs, b, hs)[|bs|].(labelText := b.labelText) == b
    ensures AddStep(bs, b, hs)[|bs|].labelText != b.labelText <==>
              b.labelText != "" && FindByLabel(bs, b.labelText).Some?
    ensures AddStep(bs, b, hs)[|bs|].labelText != b.labelText ==>
              AddStep(bs, b, hs)[|bs|].labelText == b.labelText + " (1)"
  {
    if b.labelText != "" {
      FindByLabelOnLabels(UpdateAll(bs, hs), bs, b.labelText);
    }
  }

  /** An appended entry `y` whose IP address is refreshed into `x` keeps
      what was proved of `y`, with the refreshed list in front of it. */
  lemma EntryRefreshed(x: Bookmark, y: Bookmark, e: Bookmark, before: seq<Bookmark>, after: seq<Bookmark>)
    requires x.(hostIP := y.hostIP) == y
    requires y.(hostIP := e.hostIP, labelText := e.labelText) == e
    requires y.labelText != e.labelText <==> e.labelText != "" && FindByLabel(before, e.labelText).Some?
    requires y.labelText != e.labelText ==> y.labelText == e.labelText + " (1)"
    requires FindByLabel(after, e.labelText).Some? <==> FindByLabel(before, e.labelText).Some?
    ensures x.(hostIP := e.hostIP, labelText := e.labelText) == e
    ensures x.labelText != e.labelText <==> e.labelText != "" && FindByLabel(after, e.labelText).Some?
    ensures x.labelText != e.labelText ==> x.labelText == e.labelText + " (1)"
  {
  }

  /** Refreshing IP addresses changes no label, so a label is found in a
      prefix of the refreshed list exactly when it is found in the same
      prefix of the old one. */
  lemma FindInRefreshed(prev: seq<Bookmark>, r: seq<Bookmark>, m: int, lbl: string)
    requires 0 <= m <= |prev| <= |r|
    requires forall k :: 0 <= k < |prev| ==> r[k].(hostIP := prev[k].hostIP) == prev[k]
    ensures FindByLabel(r[..m], lbl).Some? <==> FindByLabel(prev[..m], lbl).Some?
  {
    forall k | 0 <= k < m ensures r[..m][k].labelText == prev[..m][k].labelText {
      assert r[k].(hostIP := prev[k].hostIP) == prev[k];
    }
    FindByLabelOnLabels(r[..m], prev[..m], lbl);
  }

  /** `x` is the incoming bookmark `e` with only its IP address and label
      possibly changed; the label is changed, to "<label> (1)", exactly
      when it is non-empty and already used in `before`. */
  predicate EntryFor(x: Bookmark, e: Bookmark, before: seq<Bookmark>) {
    && x.(hostIP := e.hostIP, labelText := e.labelText) == e
    && (x.labelText != e.labelText <==> e.labelText != "" && FindByLabel(before, e.labelText).Some?)
    && (x.labelText != e.labelText ==> x.labelText == e.labelText + " (1)")
  }

  /** `r` is `bs` with only IP addresses refreshed, followed by one entry
      per bookmark of `list`, in order. */
  predicate AppendedAs(bs: seq<Bookmark>, list: seq<Bookmark>, r: seq<Bookmark>) {
    && |r| == |bs| + |list|
    && (forall k :: 0 <= k < |bs| ==> r[k].(hostIP := bs[k].hostIP) == bs[k])
    && (forall j :: 0 <= j < |list| ==> EntryFor(r[|bs| + j], list[j], r[..|bs| + j]))
  }

  /** addBookmarks' list: the old entries with only their IP addresses
      refreshed, then one entry per incoming bookmark, in order, renamed to
      "<label> (1)" exactly when its label is non-empty and already used by
      an entry before it. */
  lemma {:induction false} AddAllContract(bs: seq<Bookmark>, list: seq<Bookmark>, hs: seq<Host>)
    ensures AppendedAs(bs, list, AddAll(bs, list, hs))
    decreases |list|
  {
    if list != [] {
      var n := |list| - 1;
      var p := list[..n];
      var prev := AddAll(bs, p, hs);
      AddAllContract(bs, p, hs);
      AddStepShape(prev, list[n], hs);
      assert AddAll(bs, list, hs) == AddStep(prev, list[n], hs);
      AppendedStep(bs, list, prev, AddStep(prev, list[n], hs));
    }
  }

  /** One more appended bookmark: the entries already appended keep what
      was proved of them, and the new one is an entry for the last
      bookmark. */
  lemma AppendedStep(bs: seq<Bookmark>, list: seq<Bookmark>, prev: seq<Bookmark>, r: seq<Bookmark>)
    requires list != [] && AppendedAs(bs, list[..|list| - 1], prev)
    requires |r| == |prev| + 1
    requires forall k :: 0 <= k < |prev| ==> r[k].(hostIP := prev[k].hostIP) == prev[k]
    requires EntryFor(r[|prev|], list[|list| - 1], prev)
    ensures AppendedAs(bs, list, r)
  {
    var n := |list| - 1;
    var p := list[..n];
    forall k | 0 <= k < |bs| ensures r[k].(hostIP := bs[k].hostIP) == bs[k] {
      assert r[k].(hostIP := prev[k].hostIP) == prev[k];
    }
    forall j | 0 <= j < |list| ensures EntryFor(r[|bs| + j], list[j], r[..|bs| + j]) {
      var e := list[j];
      FindInRefreshed(prev, r, |bs| + j, e.labelText);
      if j < n {
        assert e == p[j];
        assert EntryFor(prev[|bs| + j], e, prev[..|bs| + j]);
        EntryRefreshed(r[|bs| + j], prev[|bs| + j], e, prev[..|bs| + j], r[..|bs| + j]);
      } else {
        assert prev[..|bs| + j] == prev;
      }
    }
  }

  /** The append loop of addBookmarks. */
  method AppendAll(bs: seq<Bookmark>, list: seq<Bookmark>, hs: seq<Host>) returns (r: seq<Bookmark>)
    ensures r == AddAll(bs, list, hs)
  {
    r := bs;
    var i := 0;
    while i < |list|
      invariant 0 <= i <= |list|
      invariant r == AddAll(bs, list[..i], hs)
    {
      var b := list[i];
      assert list[..i + 1][..i] == list[..i];
      if b.labelText != "" {
        r := RefreshAll(r, hs);
        var f := FindFirstIn(r, (x: Bookmark) => LabelIs(x, b.labelText));
        if f.Some? {
          r := r + [b.(labelText := b.labelText + " (1)")];
        } else {
          r := r + [b];
        }
      } else {
        r := r + [b];
      }
      i := i + 1;
    }
    assert list[..i] == list;
  }

  // ---------------------------------------------------------------------
  // Group lists

  /** Equal, or equal ignoring case. */
  predicate Same(a: string, b: string, ignoreCase: bool) {
    if ignoreCase then EqualsIgnoreCase(a, b) else a == b
  }

  /** QStringList::contains, case-sensitive or not. */
  predicate Listed(gs: seq<string>, n: string, ignoreCase: bool) {
    exists k :: 0 <= k < |gs| && Same(gs[k], n, ignoreCase)
  }

  /** No two entries are the same. */
  predicate Apart(gs: seq<string>, ignoreCase: bool) {
    forall i, j :: 0 <= i < j < |gs| ==> !Same(gs[i], gs[j], ignoreCase)
  }

  function GroupNames(bs: seq<Bookmark>): (r: seq<string>)
    ensures |r| == |bs| && forall i :: 0 <= i < |bs| ==> r[i] == bs[i].groupName
  {
    seq(|bs|, i requires 0 <= i < |bs| => bs[i].groupName)
  }

  /** Each name appended unless already listed. */
  function AppendNew(gs: seq<string>, names: seq<string>, ignoreCase: bool): seq<string>
    decreases |names|
  {
    if names == [] then gs
    else
      var prev := AppendNew(gs, names[..|names| - 1], ignoreCase);
      var n := names[|names| - 1];
      if Listed(prev, n, ignoreCase) then prev else prev + [n]
  }

  /** After appending, every name is listed, the old list is a prefix, and
      nothing else was added. */
  lemma {:induction false} AppendNewContract(gs: seq<string>, names: seq<string>, ignoreCase: bool)
    ensures |gs| <= |AppendNew(gs, names, ignoreCase)| <= |gs| + |names|
    ensures AppendNew(gs, names, ignoreCase)[..|gs|] == gs
    ensures forall k :: 0 <= k < |names| ==> Listed(AppendNew(gs, names, ignoreCase), names[k], ignoreCase)
    ensures forall x :: x in AppendNew(gs, names, ignoreCase) ==> x in gs || x in names
    decreases |names|
  {
    if names != [] {
      var p := names[..|names| - 1];
      var prev := AppendNew(gs, p, ignoreCase);
      var r := AppendNew(gs, names, ignoreCase);
      AppendNewContract(gs, p, ignoreCase);
      forall k | 0 <= k < |names| ensures Listed(r, names[k], ignoreCase) {
        if k < |p| {
          assert names[k] == p[k];
          var m :| 0 <= m < |prev| && Same(prev[m], names[k], ignoreCase);
          assert r[m] == prev[m];
        } else if !Listed(prev, names[k], ignoreCase) {
          assert r[|prev|] == names[k];
        }
      }
      forall x | x in r ensures x in gs || x in names {
        if x in prev {
          if x in p { assert x in names; }
        }
      }
    }
  }

  /** Appending only unlisted names keeps the list free of duplicates. */
  lemma {:induction false} AppendNewApart(gs: seq<string>, names: seq<string>, ignoreCase: bool)
    requires Apart(gs, ignoreCase)
    ensures Apart(AppendNew(gs, names, ignoreCase), ignoreCase)
    decreases |names|
  {
    if names != [] {
      var p := names[..|names| - 1];
      var prev := AppendNew(gs, p, ignoreCase);
      var n := names[|names| - 1];
      AppendNewApart(gs, p, ignoreCase);
      if !Listed(prev, n, ignoreCase) {
        var r := prev + [n];
        forall i, j | 0 <= i < j < |r| ensures !Same(r[i], r[j], ignoreCase) {
          if j == |prev| {
            assert !Same(prev[i], n, ignoreCase);
          }
        }
      }
    }
  }

  /** The group loop of addBookmarks, removeBookmark and removeGroup. */
  method AppendNewIn(gs: seq<string>, names: seq<string>, ignoreCase: bool) returns (r: seq<string>)
    ensures r == AppendNew(gs, names, ignoreCase)
  {
    r := gs;
    var i := 0;
    while i < |names|
      invariant 0 <= i <= |names|
      invariant r == AppendNew(gs, names[..i], ignoreCase)
    {
      assert names[..i + 1][..i] == names[..i];
      if !Listed(r, names[i], ignoreCase) {
        r := r + [names[i]];
      }
      i := i + 1;
    }
    assert names[..i] == names;
  }

  // ---------------------------------------------------------------------
  // QStringList::sort(): ordering by character codes

  predicate Sorted(s: seq<string>) {
    forall i :: 0 < i < |s| ==> Precedes(s[i - 1], s[i])
  }

  function Insert(x: string, s: seq<string>): (r: seq<string>)
    ensures |r| == |s| + 1
    ensures multiset(r) == multiset(s) + multiset{x}
    ensures r[0] == x || (s != [] && r[0] == s[0])
  {
    if s == [] || Precedes(x, s[0]) then [x] + s
    else
      assert s == [s[0]] + s[1..];
      [s[0]] + Insert(x, s[1..])
  }

  function SortStrings(s: seq<string>): (r: seq<string>)
    ensures multiset(r) == multiset(s)
  {
    if s == [] then []
    else
      assert s == [s[0]] + s[1..];
      Insert(s[0], SortStrings(s[1..]))
  }

  lemma {:induction false} InsertSorted(x: string, s: seq<string>)
    requires Sorted(s)
    ensures Sorted(Insert(x, s))
  {
    if s != [] && !Precedes(x, s[0]) {
      PrecedesTotal(x, s[0]);
      InsertSorted(x, s[1..]);
    }
  }

  lemma {:induction false} InsertApart(x: string, s: seq<string>, ignoreCase: bool)
    requires Apart(s, ignoreCase) && !Listed(s, x, ignoreCase)
    ensures Apart(Insert(x, s), ignoreCase)
  {
    if s != [] && !Precedes(x, s[0]) {
      SplitApart(s, x, ignoreCase);
      InsertApart(x, s[1..], ignoreCase);
      var t := Insert(x, s[1..]);
      HeadApart(s[0], x, s[1..], t, ignoreCase);
      assert Insert(x, s) == [s[0]] + t;
      ApartCons(s[0], t, ignoreCase);
    }
  }

  /** An entry the same as none of a list free of duplicates keeps it free
      of duplicates when put in front. */
  lemma SplitApart(s: seq<string>, x: string, ignoreCase: bool)
    requires s != [] && Apart(s, ignoreCase) && !Listed(s, x, ignoreCase)
    ensures Apart(s[1..], ignoreCase) && !Listed(s[1..], x, ignoreCase)
    ensures !Same(s[0], x, ignoreCase)
    ensures forall k :: 0 <= k < |s[1..]| ==> !Same(s[0], s[1..][k], ignoreCase)
  {
    var u := s[1..];
    forall k | 0 <= k < |u| ensures !Same(u[k], x, ignoreCase) && !Same(s[0], u[k], ignoreCase) {
      assert u[k] == s[k + 1];
    }
  }

  lemma HeadApart(h: string, x: string, s1: seq<string>, t: seq<string>, ignoreCase: bool)
    requires multiset(t) == multiset(s1) + multiset{x}
    requires !Same(h, x, ignoreCase)
    requires forall k :: 0 <= k < |s1| ==> !Same(h, s1[k], ignoreCase)
    ensures forall k :: 0 <= k < |t| ==> !Same(h, t[k], ignoreCase)
  {
    forall k | 0 <= k < |t| ensures !Same(h, t[k], ignoreCase) {
      assert t[k] in multiset(t);
      if t[k] != x {
        assert t[k] in multiset(s1);
        var m :| 0 <= m < |s1| && s1[m] == t[k];
      }
    }
  }

  lemma ApartCons(h: string, t: seq<string>, ignoreCase: bool)
    requires Apart(t, ignoreCase)
    requires forall k :: 0 <= k < |t| ==> !Same(h, t[k], ignoreCase)
    ensures Apart([h] + t, ignoreCase)
  {
    var r := [h] + t;
    forall i, j | 0 <= i < j < |r| ensures !Same(r[i], r[j], ignoreCase) {
      assert r[j] == t[j - 1];
      if i > 0 {
        assert r[i] == t[i - 1];
      }
    }
  }

  /** The sorted list is ordered and a permutation of the input, and it
      keeps an input free of duplicates free of them. */
  lemma {:induction false} SortStringsContract(s: seq<string>, ignoreCase: bool)
    ensures Sorted(SortStrings(s))
    ensures multiset(SortStrings(s)) == multiset(s)
    ensures Apart(s, ignoreCase) ==> Apart(SortStrings(s), ignoreCase)
  {
    if s != [] {
      var t := SortStrings(s[1..]);
      SortStringsContract(s[1..], ignoreCase);
      InsertSorted(s[0], t);
      if Apart(s, ignoreCase) {
        assert Apart(s[1..], ignoreCase) by {
          forall i, j | 0 <= i < j < |s[1..]| ensures !Same(s[1..][i], s[1..][j], ignoreCase) {
            assert s[1..][i] == s[i + 1] && s[1..][j] == s[j + 1];
          }
        }
        forall k | 0 <= k < |t| ensures !Same(t[k], s[0], ignoreCase) {
          assert t[k] in multiset(s[1..]);
          var m :| 0 <= m < |s[1..]| && s[1..][m] == t[k];
          assert s[m + 1] == t[k];
          assert !Same(s[0], s[m + 1], ignoreCase);
        }
        InsertApart(s[0], t, ignoreCase);
      }
    }
  }

  /** Sorting keeps the listed names. */
  lemma SortedListed(s: seq<string>, n: string, ignoreCase: bool)
    ensures Listed(SortStrings(s), n, ignoreCase) <==> Listed(s, n, ignoreCase)
  {
    var t := SortStrings(s);
    if Listed(s, n, ignoreCase) {
      var k :| 0 <= k < |s| && Same(s[k], n, ignoreCase);
      assert s[k] in multiset(t);
      var m :| 0 <= m < |t| && t[m] == s[k];
    }
    if Listed(t, n, ignoreCase) {
      var k :| 0 <= k < |t| && Same(t[k], n, ignoreCase);
      assert t[k] in multiset(s);
      var m :| 0 <= m < |s| && s[m] == t[k];
    }
  }

  // ---------------------------------------------------------------------
  // The bookmarks file

  /** writeBookmarkList: unless `listOnly`, the stored bookmarks of other
      profiles than the active one are kept; the given list follows; entries
      with an invalid URL are skipped when writing. An empty result removes
      the file, which reads back as no bookmarks. */
  function Written(stored: seq<Bookmark>, list: seq<Bookmark>, listOnly: bool, active: string): seq<Bookmark> {
    Filter((if listOnly then [] else Filter(stored, (b: Bookmark) => b.profile != active)) + list, (b: Bookmark) => b.urlValid)
  }

  /** Filtering a concatenation filters both halves. */
  lemma {:induction false} FilterConcat<T>(a: seq<T>, b: seq<T>, p: T -> bool)
    ensures Filter(a + b, p) == Filter(a, p) + Filter(b, p)
  {
    if a == [] {
      assert a + b == b;
    } else {
      assert (a + b)[0] == a[0] && (a + b)[1..] == a[1..] + b;
      FilterConcat(a[1..], b, p);
      if p(a[0]) {
        assert Filter(a + b, p) == [a[0]] + Filter(a[1..] + b, p);
        assert Filter(a, p) == [a[0]] + Filter(a[1..], p);
      } else {
        assert Filter(a + b, p) == Filter(a[1..] + b, p);
      }
    }
  }

  /** The file holds the valid given bookmarks after, unless `listOnly`,
      the valid stored bookmarks of the other profiles; no other entry of
      the active profile survives. */
  lemma WrittenContract(stored: seq<Bookmark>, list: seq<Bookmark>, listOnly: bool, active: string)
    ensures Written(stored, list, listOnly, active) ==
              (if listOnly then [] else Filter(stored, (b: Bookmark) => b.profile != active && b.urlValid))
              + Filter(list, (b: Bookmark) => b.urlValid)
    ensures forall b :: b in Written(stored, list, listOnly, active) <==>
              b.urlValid && (b in list || (!listOnly && b in stored && b.profile != active))
  {
    var keep := (b: Bookmark) => b.profile != active;
    var valid := (b: Bookmark) => b.urlValid;
    var kept := if listOnly then [] else Filter(stored, keep);
    FilterConcat(kept, list, valid);
    if !listOnly {
      FilterTwice(stored, keep, valid, (b: Bookmark) => b.profile != active && b.urlValid);
    }
    forall b ensures b in Written(stored, list, listOnly, active) <==>
                       b.urlValid && (b in list || (!listOnly && b in stored && b.profile != active)) {
      FilterIn(kept + list, valid, b);
      FilterIn(stored, keep, b);
    }
  }

  lemma {:induction false} FilterTwice<T>(s: seq<T>, p: T -> bool, q: T -> bool, both: T -> bool)
    requires forall x :: both(x) == (p(x) && q(x))
    ensures Filter(Filter(s, p), q) == Filter(s, both)
  {
    if s != [] {
      FilterTwice(s[1..], p, q, both);
    }
  }

  /** The bookmarks of one profile and their groups, as read from the file
      when the active profile changes (groups unsorted, in file order). */
  datatype Handler = Handler(bookmarks: seq<Bookmark>, groups: seq<string>, stored: seq<Bookmark>)

  function Loaded(stored: seq<Bookmark>, active: string): Handler {
    var bs := Filter(stored, (b: Bookmark) => b.profile == active);
    Handler(bs, AppendNew([], GroupNames(bs), false), stored)
  }

  /** `gs` lists the group of every bookmark of `bs` and nothing else. */
  predicate Covers(gs: seq<string>, bs: seq<Bookmark>, ignoreCase: bool) {
    && (forall i :: 0 <= i < |bs| ==> Listed(gs, bs[i].groupName, ignoreCase))
    && (forall k :: 0 <= k < |gs| ==> exists i :: 0 <= i < |bs| && gs[k] == bs[i].groupName)
  }

  /** The group loop lists each group of the bookmarks once. */
  lemma GroupsCollected(bs: seq<Bookmark>, ignoreCase: bool)
    ensures Covers(AppendNew([], GroupNames(bs), ignoreCase), bs, ignoreCase)
    ensures Apart(AppendNew([], GroupNames(bs), ignoreCase), ignoreCase)
  {
    var names := GroupNames(bs);
    var a := AppendNew([], names, ignoreCase);
    AppendNewContract([], names, ignoreCase);
    AppendNewApart([], names, ignoreCase);
    forall k | 0 <= k < |a| ensures exists i :: 0 <= i < |bs| && a[k] == bs[i].groupName {
      assert a[k] in a;
      var i :| 0 <= i < |names| && names[i] == a[k];
    }
  }

  /** Sorting keeps a covering group list covering. */
  lemma SortedCovers(gs: seq<string>, bs: seq<Bookmark>, ignoreCase: bool)
    requires Covers(gs, bs, ignoreCase)
    ensures Covers(SortStrings(gs), bs, ignoreCase)
  {
    SortedListsAll(gs, bs, ignoreCase);
    SortedFromBookmarks(gs, bs, ignoreCase);
  }

  lemma SortedListsAll(gs: seq<string>, bs: seq<Bookmark>, ignoreCase: bool)
    requires forall i :: 0 <= i < |bs| ==> Listed(gs, bs[i].groupName, ignoreCase)
    ensures forall i :: 0 <= i < |bs| ==> Listed(SortStrings(gs), bs[i].groupName, ignoreCase)
  {
    forall i | 0 <= i < |bs| ensures Listed(SortStrings(gs), bs[i].groupName, ignoreCase) {
      SortedListed(gs, bs[i].groupName, ignoreCase);
    }
  }

  lemma SortedFromBookmarks(gs: seq<string>, bs: seq<Bookmark>, ignoreCase: bool)
    requires Covers(gs, bs, ignoreCase)
    ensures var t := SortStrings(gs);
      forall k :: 0 <= k < |t| ==> exists i :: 0 <= i < |bs| && t[k] == bs[i].groupName
  {
    var t := SortStrings(gs);
    forall k | 0 <= k < |t| ensures exists i :: 0 <= i < |bs| && t[k] == bs[i].groupName {
      assert t[k] in multiset(gs);
      GroupFromBookmark(gs, bs, ignoreCase, t[k]);
    }
  }

  /** Every group of a covering list is some bookmark's group. */
  lemma GroupFromBookmark(gs: seq<string>, bs: seq<Bookmark>, ignoreCase: bool, g: string)
    requires Covers(gs, bs, ignoreCase) && g in gs
    ensures exists i :: 0 <= i < |bs| && g == bs[i].groupName
  {
    var m :| 0 <= m < |gs| && gs[m] == g;
    var i :| 0 <= i < |bs| && gs[m] == bs[i].groupName;
  }

  /** Reading the file gives exactly the active profile's bookmarks and
      each of their groups once. */
  lemma LoadedContract(stored: seq<Bookmark>, active: string)
    ensures forall b :: b in Loaded(stored, active).bookmarks <==> b in stored && b.profile == active
    ensures Covers(Loaded(stored, active).groups, Loaded(stored, active).bookmarks, false)
    ensures Apart(Loaded(stored, active).groups, false)
  {
    var bs := Filter(stored, (b: Bookmark) => b.profile == active);
    GroupsCollected(bs, false);
    forall b ensures b in bs <==> b in stored && b.profile == active {
      FilterIn(stored, (b: Bookmark) => b.profile == active, b);
    }
  }

  // ---------------------------------------------------------------------
  // The operations, on the handler's state

  function AddBookmarksStep(w: Handler, list: seq<Bookmark>, replace: bool, hs: seq<Host>, active: string): Handler {
    var bs := AddAll(if replace then [] else w.bookmarks, list, hs);
    var gs := SortStrings(AppendNew(if replace then [] else w.groups, GroupNames(list), false));
    Handler(bs, gs, Written(w.stored, bs, false, active))
  }

  /** After addBookmarks, the groups are sorted, hold every incoming group
      name and otherwise only old ones (none when replacing), and stay free
      of duplicates. */
  lemma AddBookmarksGroups(w: Handler, list: seq<Bookmark>, replace: bool, hs: seq<Host>, active: string)
    ensures Sorted(AddBookmarksStep(w, list, replace, hs, active).groups)
    ensures forall b :: b in list ==> b.groupName in AddBookmarksStep(w, list, replace, hs, active).groups
    ensures forall g :: g in AddBookmarksStep(w, list, replace, hs, active).groups ==>
              (!replace && g in w.groups) || exists b :: b in list && b.groupName == g
    ensures (replace || Apart(w.groups, false)) ==>
              Apart(AddBookmarksStep(w, list, replace, hs, active).groups, false)
  {
    var gs0 := if replace then [] else w.groups;
    var names := GroupNames(list);
    var gs := AppendNew(gs0, names, false);
    var r := SortStrings(gs);
    AppendNewContract(gs0, names, false);
    SortStringsContract(gs, false);
    if replace || Apart(w.groups, false) {
      AppendNewApart(gs0, names, false);
    }
    forall b | b in list ensures b.groupName in r {
      var i :| 0 <= i < |list| && list[i] == b;
      SortedListed(gs, names[i], false);
    }
    forall g | g in r ensures (!replace && g in w.groups) || exists b :: b in list && b.groupName == g {
      assert g in multiset(gs);
      if g in names {
        var i :| 0 <= i < |names| && names[i] == g;
        assert list[i] in list;
      }
    }
  }

  function RemoveBookmarkStep(w: Handler, bookmark: Option<Bookmark>, hs: seq<Host>, active: string): Handler {
    match bookmark
      case None => w
      case Some(b) =>
        var bs := WithoutMatch(UpdateAll(w.bookmarks, hs), b);
        Handler(bs, SortStrings(AppendNew([], GroupNames(bs), false)), Written(w.stored, bs, false, active))
  }

  /** The list without its first bookmark matching `b`, if any. */
  function WithoutMatch(cur: seq<Bookmark>, b: Bookmark): seq<Bookmark> {
    match FindFirst(cur, (x: Bookmark) => Matches(x, b))
      case None => cur
      case Some(i) => cur[..i] + cur[i + 1..]
  }

  /** removeBookmark matches UNC and group name, ignoring case. */
  predicate Matches(x: Bookmark, b: Bookmark) {
    EqualsIgnoreCase(b.unc, x.unc) && EqualsIgnoreCase(b.groupName, x.groupName)
  }

  /** `r` is `cur` without its first bookmark matching `b`, or `cur`
      itself when none matches. */
  predicate FirstMatchDropped(cur: seq<Bookmark>, b: Bookmark, r: seq<Bookmark>) {
    (forall i :: (0 <= i < |cur| && Matches(cur[i], b) && forall j :: 0 <= j < i ==> !Matches(cur[j], b)) ==>
       r == cur[..i] + cur[i + 1..])
    && ((forall i :: 0 <= i < |cur| ==> !Matches(cur[i], b)) ==> r == cur)
  }

  /** removeBookmark drops exactly the first matching bookmark of the
      updated list, and nothing when none matches. */
  lemma RemoveBookmarkContract(w: Handler, b: Bookmark, hs: seq<Host>, active: string)
    ensures FirstMatchDropped(UpdateAll(w.bookmarks, hs), b, RemoveBookmarkStep(w, Some(b), hs, active).bookmarks)
  {
    var cur := UpdateAll(w.bookmarks, hs);
    assert RemoveBookmarkStep(w, Some(b), hs, active).bookmarks == WithoutMatch(cur, b);
    WithoutMatchContract(cur, b);
  }

  /** Only the first matching bookmark goes, and nothing goes when none
      matches. */
  lemma WithoutMatchContract(cur: seq<Bookmark>, b: Bookmark)
    ensures FirstMatchDropped(cur, b, WithoutMatch(cur, b))
  {
    var f := FindFirst(cur, (x: Bookmark) => Matches(x, b));
    forall i | 0 <= i < |cur| && Matches(cur[i], b) && (forall j :: 0 <= j < i ==> !Matches(cur[j], b))
      ensures WithoutMatch(cur, b) == cur[..i] + cur[i + 1..]
    {
      assert f.Some?;
      assert f.value == i;
    }
  }

  /** After removeBookmark the groups are sorted, free of duplicates, and
      exactly the groups of the remaining bookmarks. */
  lemma RemoveBookmarkGroups(w: Handler, b: Bookmark, hs: seq<Host>, active: string)
    ensures Sorted(RemoveBookmarkStep(w, Some(b), hs, active).groups)
    ensures Apart(RemoveBookmarkStep(w, Some(b), hs, active).groups, false)
    ensures Covers(RemoveBookmarkStep(w, Some(b), hs, active).groups,
                   RemoveBookmarkStep(w, Some(b), hs, active).bookmarks, false)
  {
    RebuiltGroups(RemoveBookmarkStep(w, Some(b), hs, active).bookmarks, false);
  }

  /** A group list rebuilt from the bookmarks and sorted. */
  lemma RebuiltGroups(bs: seq<Bookmark>, ignoreCase: bool)
    ensures Sorted(SortStrings(AppendNew([], GroupNames(bs), ignoreCase)))
    ensures Apart(SortStrings(AppendNew([], GroupNames(bs), ignoreCase)), ignoreCase)
    ensures Covers(SortStrings(AppendNew([], GroupNames(bs), ignoreCase)), bs, ignoreCase)
  {
    var a := AppendNew([], GroupNames(bs), ignoreCase);
    GroupsCollected(bs, ignoreCase);
    SortStringsContract(a, ignoreCase);
    SortedCovers(a, bs, ignoreCase);
  }

  function RemoveGroupStep(w: Handler, name: string, hs: seq<Host>, active: string): Handler {
    var bs := Filter(UpdateAll(w.bookmarks, hs), (x: Bookmark) => !EqualsIgnoreCase(x.groupName, name));
    Handler(bs, SortStrings(AppendNew([], GroupNames(bs), true)), Written(w.stored, bs, false, active))
  }

  /** removeGroup drops every bookmark of the group, ignoring case, and
      keeps all others. */
  lemma RemoveGroupContract(w: Handler, name: string, hs: seq<Host>, active: string)
    ensures forall x :: x in RemoveGroupStep(w, name, hs, active).bookmarks <==>
              x in UpdateAll(w.bookmarks, hs) && !EqualsIgnoreCase(x.groupName, name)
  {
    var p := (x: Bookmark) => !EqualsIgnoreCase(x.groupName, name);
    forall x ensures x in Filter(UpdateAll(w.bookmarks, hs), p) <==> x in UpdateAll(w.bookmarks, hs) && p(x) {
      FilterIn(UpdateAll(w.bookmarks, hs), p, x);
    }
  }

  /** After removeGroup the groups are sorted, free of duplicates ignoring
      case, cover the remaining bookmarks, and do not list the removed group. */
  lemma RemoveGroupGroups(w: Handler, name: string, hs: seq<Host>, active: string)
    ensures Sorted(RemoveGroupStep(w, name, hs, active).groups)
    ensures Apart(RemoveGroupStep(w, name, hs, active).groups, true)
    ensures Covers(RemoveGroupStep(w, name, hs, active).groups, RemoveGroupStep(w, name, hs, active).bookmarks, true)
    ensures !Listed(RemoveGroupStep(w, name, hs, active).groups, name, true)
  {
    var r := RemoveGroupStep(w, name, hs, active);
    RebuiltGroups(r.bookmarks, true);
    RemoveGroupContract(w, name, hs, active);
    GroupGone(r.groups, r.bookmarks, name);
  }

  /** Groups taken from bookmarks none of which is in group `name` do not
      list `name`. */
  lemma GroupGone(gs: seq<string>, bs: seq<Bookmark>, name: string)
    requires Covers(gs, bs, true)
    requires forall x :: x in bs ==> !EqualsIgnoreCase(x.groupName, name)
    ensures !Listed(gs, name, true)
  {
    forall k | 0 <= k < |gs| ensures !Same(gs[k], name, true) {
      var i :| 0 <= i < |bs| && gs[k] == bs[i].groupName;
      assert bs[i] in bs;
    }
  }

  /** The profile `from` renamed to `to` on every stored bookmark. */
  function RenamedProfile(stored: seq<Bookmark>, from: string, to: string): (r: seq<Bookmark>)
    ensures |r| == |stored|
  {
    seq(|stored|, i requires 0 <= i < |stored| =>
      if stored[i].profile == from then stored[i].(profile := to) else stored[i])
  }

  /** migrateProfile leaves no bookmark under `from` (unless `from` is
      `to`) and changes nothing but the profile names. */
  lemma MigrateContract(stored: seq<Bookmark>, from: string, to: string)
    ensures from != to ==> forall b :: b in RenamedProfile(stored, from, to) ==> b.profile != from
    ensures forall i :: 0 <= i < |stored| ==>
              RenamedProfile(stored, from, to)[i].(profile := stored[i].profile) == stored[i]
    ensures forall i :: 0 <= i < |stored| && stored[i].profile != from ==>
              RenamedProfile(stored, from, to)[i] == stored[i]
  {
  }

  /** The in-place rename loop of migrateProfile. */
  method RenameProfileIn(stored: seq<Bookmark>, from: string, to: string) returns (r: seq<Bookmark>)
    ensures r == RenamedProfile(stored, from, to)
  {
    r := stored;
    var i := 0;
    while i < |r|
      invariant 0 <= i <= |r| == |stored|
      invariant forall j :: 0 <= j < i ==> r[j] == RenamedProfile(stored, from, to)[j]
      invariant forall j :: i <= j < |r| ==> r[j] == stored[j]
    {
      if r[i].profile == from {
        r := r[i := r[i].(profile := to)];
      }
      i := i + 1;
    }
  }

  function MigrateStep(w: Handler, from: string, to: string, active: string): Handler {
    Loaded(Written([], RenamedProfile(w.stored, from, to), true, active), active)
  }

  function RemoveProfileStep(w: Handler, name: string, active: string): Handler {
    Loaded(Written([], Filter(w.stored, (b: Bookmark) => b.profile != name), true, active), active)
  }

  /** removeProfile keeps exactly the valid bookmarks of other profiles. */
  lemma RemoveProfileContract(w: Handler, name: string, active: string)
    ensures forall b :: b in RemoveProfileStep(w, name, active).stored <==>
              b in w.stored && b.profile != name && b.urlValid
    ensures name == active ==> RemoveProfileStep(w, name, active).bookmarks == []
  {
    var kept := Filter(w.stored, (b: Bookmark) => b.profile != name);
    WrittenContract([], kept, true, active);
    forall b ensures b in kept <==> b in w.stored && b.profile != name {
      FilterIn(w.stored, (b: Bookmark) => b.profile != name, b);
    }
    if name == active {
      var r := RemoveProfileStep(w, name, active);
      LoadedContract(r.stored, active);
    }
  }

  // ---------------------------------------------------------------------
  // The handler

  class BookmarkHandler {
    /** The active profile's bookmarks and groups. */
    var bookmarks: seq<Bookmark>
    var groups: seq<string>
    /** The bookmarks file. */
    var stored: seq<Bookmark>

    function Snapshot(): Handler
      reads this
    {
      Handler(bookmarks, groups, stored)
    }

    /** The constructor reads the active profile's bookmarks from the file. */
    constructor (file: seq<Bookmark>, active: string)
      ensures Snapshot() == Loaded(file, active)
    {
      var bs := FilterInPlace(file, (b: Bookmark) => b.profile == active);
      var gs := AppendNewIn([], GroupNames(bs), false);
      bookmarks, groups, stored := bs, gs, file;
    }

    /** slotActiveProfileChanged: the lists are cleared and read again. */
    method ActiveProfileChanged(active: string)
      modifies this
      ensures Snapshot() == Loaded(old(stored), active)
    {
      var bs := FilterInPlace(stored, (b: Bookmark) => b.profile == active);
      var gs := AppendNewIn([], GroupNames(bs), false);
      bookmarks, groups := bs, gs;
    }

    method WriteBookmarkList(list: seq<Bookmark>, listOnly: bool, active: string)
      modifies this
      ensures Snapshot() == old(Snapshot()).(stored := Written(old(stored), list, listOnly, active))
    {
      var all: seq<Bookmark> := [];
      if !listOnly {
        all := FilterInPlace(stored, (b: Bookmark) => b.profile != active);
      }
      all := FilterInPlace(all + list, (b: Bookmark) => b.urlValid);
      stored := all;
    }

    method Update(hosts: seq<Host>)
      modifies this
      ensures Snapshot() == old(Snapshot()).(bookmarks := UpdateAll(old(bookmarks), hosts))
    {
      bookmarks := RefreshAll(bookmarks, hosts);
    }

    method AddBookmarks(list: seq<Bookmark>, replace: bool, hosts: seq<Host>, active: string)
      modifies this
      ensures Snapshot() == AddBookmarksStep(old(Snapshot()), list, replace, hosts, active)
    {
      if replace {
        bookmarks, groups := [], [];
      }
      bookmarks := AppendAll(bookmarks, list, hosts);
      var gs := AppendNewIn(groups, GroupNames(list), false);
      groups := SortStrings(gs);
      WriteBookmarkList(bookmarks, false, active);
    }

    method RemoveBookmark(bookmark: Option<Bookmark>, hosts: seq<Host>, active: string)
      modifies this
      ensures Snapshot() == RemoveBookmarkStep(old(Snapshot()), bookmark, hosts, active)
    {
      if bookmark.Some? {
        var b := bookmark.value;
        Update(hosts);
        ghost var cur := bookmarks;
        var i := FindFirstIn(bookmarks, (x: Bookmark) => Matches(x, b));
        if i.Some? {
          bookmarks := bookmarks[..i.value] + bookmarks[i.value + 1..];
        }
        assert bookmarks == WithoutMatch(cur, b);
        var gs := AppendNewIn([], GroupNames(bookmarks), false);
        groups := SortStrings(gs);
        WriteBookmarkList(bookmarks, false, active);
      }
    }

    method RemoveGroup(name: string, hosts: seq<Host>, active: string)
      modifies this
      ensures Snapshot() == RemoveGroupStep(old(Snapshot()), name, hosts, active)
    {
      Update(hosts);
      bookmarks := FilterInPlace(bookmarks, (x: Bookmark) => !EqualsIgnoreCase(x.groupName, name));
      var gs := AppendNewIn([], GroupNames(bookmarks), true);
      groups := SortStrings(gs);
      WriteBookmarkList(bookmarks, false, active);
    }

    method FindBookmarkByUNC(unc: string, hosts: seq<Host>) returns (r: Option<Bookmark>)
      modifies this
      ensures bookmarks == UpdateAll(old(bookmarks), hosts)
      ensures groups == old(groups) && stored == old(stored)
      ensures r.None? <==> FindByUnc(bookmarks, unc).None?
      ensures r.Some? ==> r.value == bookmarks[FindByUnc(bookmarks, unc).value]
    {
      Update(hosts);
      var i := FindFirstIn(bookmarks, (b: Bookmark) => UncIs(b, unc));
      r := if i.Some? then Some(bookmarks[i.value]) else None;
    }

    method FindBookmarkByLabel(lbl: string, hosts: seq<Host>) returns (r: Option<Bookmark>)
      modifies this
      ensures bookmarks == UpdateAll(old(bookmarks), hosts)
      ensures groups == old(groups) && stored == old(stored)
      ensures r.None? <==> FindByLabel(bookmarks, lbl).None?
      ensures r.Some? ==> r.value == bookmarks[FindByLabel(bookmarks, lbl).value]
    {
      Update(hosts);
      var i := FindFirstIn(bookmarks, (b: Bookmark) => LabelIs(b, lbl));
      r := if i.Some? then Some(bookmarks[i.value]) else None;
    }

    /** bookmarksList(group): the updated bookmarks of that group. */
    method BookmarksList(group: string, hosts: seq<Host>) returns (r: seq<Bookmark>)
      modifies this
      ensures Snapshot() == old(Snapshot()).(bookmarks := UpdateAll(old(bookmarks), hosts))
      ensures r == InGroup(bookmarks, group)
    {
      Update(hosts);
      r := FilterInPlace(bookmarks, (b: Bookmark) => EqualsIgnoreCase(group, b.groupName));
    }

    method MigrateProfile(from: string, to: string, active: string)
      modifies this
      ensures Snapshot() == MigrateStep(old(Snapshot()), from, to, active)
    {
      var all := RenameProfileIn(stored, from, to);
      WriteBookmarkList(all, true, active);
      ActiveProfileChanged(active);
    }

    method RemoveProfile(name: string, active: string)
      modifies this
      ensures Snapshot() == RemoveProfileStep(old(Snapshot()), name, active)
    {
      var all := FilterInPlace(stored, (b: Bookmark) => b.profile != name);
      WriteBookmarkList(all, true, active);
      ActiveProfileChanged(active);
    }
  }
}
