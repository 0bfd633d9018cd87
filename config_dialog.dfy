/** The configuration dialog: the completeness check run before the
    settings are saved, the Apply and Ok buttons that depend on it, and the
    comparison that decides whether Apply is enabled. Each input widget is
    given by the value it shows, or None when the dialog does not hold it. */
module ConfigDialog {
  import opened Common
  import opened Text

  /** The widgets the check reads: a check box or radio button is its
      checked state, a line edit or URL requester its text (for a URL, its
      path). */
  datatype Form = Form(
    queryCustomMaster: Option<bool>, customMasterBrowser: Option<string>,
    scanBroadcastAreas: Option<bool>, broadcastAreas: Option<string>,
    mountPrefix: Option<string>, fileMask: Option<string>, directoryMask: Option<string>,
    rsyncPrefix: Option<string>,
    usePartialDirectory: Option<bool>, partialDirectory: Option<string>,
    useExcludePattern: Option<bool>, excludePattern: Option<string>,
    useExcludeFrom: Option<bool>, excludeFrom: Option<string>,
    useIncludePattern: Option<bool>, includePattern: Option<string>,
    useIncludeFrom: Option<bool>, includeFrom: Option<string>,
    makeBackups: Option<bool>,
    useBackupSuffix: Option<bool>, backupSuffix: Option<string>,
    useBackupDirectory: Option<bool>, backupDirectory: Option<string>)

  /** The incomplete settings the check reports, in the order it tests them. */
  datatype Issue =
    | CustomMasterMissing | BroadcastAreasMissing | MountPrefixEmpty | FileMaskEmpty
    | DirectoryMaskEmpty | RsyncPrefixEmpty | PartialDirectoryEmpty | ExcludePatternMissing
    | ExcludeFileEmpty | IncludePatternMissing | IncludeFileEmpty | BackupSuffixMissing
    | BackupDirectoryEmpty

  const AllIssues: seq<Issue> :=
    [CustomMasterMissing, BroadcastAreasMissing, MountPrefixEmpty, FileMaskEmpty,
     DirectoryMaskEmpty, RsyncPrefixEmpty, PartialDirectoryEmpty, ExcludePatternMissing,
     ExcludeFileEmpty, IncludePatternMissing, IncludeFileEmpty, BackupSuffixMissing,
     BackupDirectoryEmpty]

  /** The position of an issue among the tests. */
  function Rank(x: Issue): (n: nat)
    ensures n < |AllIssues| && AllIssues[n] == x
  {
    match x
      case CustomMasterMissing => 0
      case BroadcastAreasMissing => 1
      case MountPrefixEmpty => 2
      case FileMaskEmpty => 3
      case DirectoryMaskEmpty => 4
      case RsyncPrefixEmpty => 5
      case PartialDirectoryEmpty => 6
      case ExcludePatternMissing => 7
      case ExcludeFileEmpty => 8
      case IncludePatternMissing => 9
      case IncludeFileEmpty => 10
      case BackupSuffixMissing => 11
      case BackupDirectoryEmpty => 12
  }

  /** A widget that exists and is checked. */
  predicate Checked(b: Option<bool>) {
    b == Some(true)
  }

  /** A widget that exists and whose trimmed text is empty. */
  predicate Blank(t: Option<string>) {
    t.Some? && Trimmed(t.value) == ""
  }

  /** When each issue is raised. */
  predicate Raised(f: Form, x: Issue) {
    match x
      case CustomMasterMissing => Checked(f.queryCustomMaster) && Blank(f.customMasterBrowser)
      case BroadcastAreasMissing => Checked(f.scanBroadcastAreas) && Blank(f.broadcastAreas)
      case MountPrefixEmpty => Blank(f.mountPrefix)
      case FileMaskEmpty => Blank(f.fileMask)
      case DirectoryMaskEmpty => Blank(f.directoryMask)
      case RsyncPrefixEmpty => Blank(f.rsyncPrefix)
      case PartialDirectoryEmpty => Checked(f.usePartialDirectory) && Blank(f.partialDirectory)
      case ExcludePatternMissing => Checked(f.useExcludePattern) && Blank(f.excludePattern)
      case ExcludeFileEmpty => Checked(f.useExcludeFrom) && Blank(f.excludeFrom)
      case IncludePatternMissing => Checked(f.useIncludePattern) && Blank(f.includePattern)
      case IncludeFileEmpty => Checked(f.useIncludeFrom) && Blank(f.includeFrom)
      case BackupSuffixMissing =>
        Checked(f.makeBackups) && Checked(f.useBackupSuffix) && Blank(f.backupSuffix)
      case BackupDirectoryEmpty =>
        Checked(f.makeBackups) && Checked(f.useBackupDirectory) && Blank(f.backupDirectory)
  }

  /** The issues found by the first `k` tests, in the order they are found. */
  function IssuesUpTo(f: Form, k: nat): seq<Issue>
    requires k <= |AllIssues|
  {
    if k == 0 then []
    else
      var x := AllIssues[k - 1];
      IssuesUpTo(f, k - 1) + (if Raised(f, x) then [x] else [])
  }

  /** Every issue the check reports. */
  function Issues(f: Form): seq<Issue> {
    IssuesUpTo(f, |AllIssues|)
  }

  /** Issues in the order of the tests; in particular none twice. */
  predicate InTestOrder(s: seq<Issue>) {
    forall a, b :: 0 <= a < b < |s| ==> Rank(s[a]) < Rank(s[b])
  }

  /** The first `k` tests report exactly the issues among them that are
      raised, in test order. */
  lemma {:induction false} IssuesUpToContract(f: Form, k: nat)
    requires k <= |AllIssues|
    ensures forall x :: x in IssuesUpTo(f, k) <==> Rank(x) < k && Raised(f, x)
    ensures InTestOrder(IssuesUpTo(f, k))
  {
    if k > 0 {
      IssuesUpToContract(f, k - 1);
      var y := AllIssues[k - 1];
      var prev := IssuesUpTo(f, k - 1);
      var r := IssuesUpTo(f, k);
      assert Rank(y) == k - 1 by {
        RankOnto(k - 1);
      }
      forall x ensures x in r <==> Rank(x) < k && Raised(f, x) {
        assert x in r <==> x in prev || (Raised(f, y) && x == y);
        if Rank(x) == k - 1 {
          assert x == y;
        }
      }
      forall a, b | 0 <= a < b < |r| ensures Rank(r[a]) < Rank(r[b]) {
        if b < |prev| {
          assert r[a] == prev[a] && r[b] == prev[b];
        } else {
          assert r[a] == prev[a] && prev[a] in prev;
          assert r[b] == y;
        }
      }
    }
  }

  /** Each position holds the issue of that rank. */
  lemma RankOnto(n: nat)
    requires n < |AllIssues|
    ensures Rank(AllIssues[n]) == n
  {
  }

  /** checkSettings reports every issue that is raised and no other, in
      the order of the tests, each once. */
  lemma IssuesContract(f: Form)
    ensures forall x :: x in Issues(f) <==> Raised(f, x)
    ensures InTestOrder(Issues(f))
    ensures Issues(f) == [] <==> forall x :: !Raised(f, x)
  {
    IssuesUpToContract(f, |AllIssues|);
    if Issues(f) != [] {
      assert Issues(f)[0] in Issues(f);
    }
  }

  /** The backup suffix and directory are looked at only when backups are
      made; a missing widget never raises its issue. */
  lemma IssuesGuards(f: Form)
    ensures !Checked(f.makeBackups) ==> BackupSuffixMissing !in Issues(f) && BackupDirectoryEmpty !in Issues(f)
    ensures f.mountPrefix.None? ==> MountPrefixEmpty !in Issues(f)
    ensures f.fileMask.None? ==> FileMaskEmpty !in Issues(f)
    ensures f.directoryMask.None? ==> DirectoryMaskEmpty !in Issues(f)
    ensures f.mountPrefix.Some? && Trimmed(f.mountPrefix.value) == "" ==> MountPrefixEmpty in Issues(f)
  {
    IssuesContract(f);
  }

  /** checkSettings: `ok` is whether nothing is incomplete, `index` the
      number of issues and `issues` the issues, in the order the tests find
      them. */
  method CheckSettings(f: Form) returns (ok: bool, index: nat, issues: seq<Issue>)
    ensures issues == Issues(f) && index == |issues|
    ensures ok <==> index == 0
  {
    ok, index, issues := CheckNetworkAndShares(f);
    ok, index, issues := CheckSynchronization(f, ok, index, issues);
    ok, index, issues := CheckBackups(f, ok, index, issues);
  }

  /** The tests of the network, shares and Samba settings. */
  method CheckNetworkAndShares(f: Form) returns (ok: bool, index: nat, issues: seq<Issue>)
    ensures issues == IssuesUpTo(f, 5) && index == |issues| && (ok <==> index == 0)
  {
    ok, index, issues := true, 0, [];
    ok, index, issues := Test(f, Checked(f.queryCustomMaster) && Blank(f.customMasterBrowser), CustomMasterMissing, ok, index, issues);
    ok, index, issues := Test(f, Checked(f.scanBroadcastAreas) && Blank(f.broadcastAreas), BroadcastAreasMissing, ok, index, issues);
    ok, index, issues := Test(f, Blank(f.mountPrefix), MountPrefixEmpty, ok, index, issues);
    ok, index, issues := Test(f, Blank(f.fileMask), FileMaskEmpty, ok, index, issues);
    ok, index, issues := Test(f, Blank(f.directoryMask), DirectoryMaskEmpty, ok, index, issues);
  }

  /** The tests of the synchronization settings but the backup ones. */
  method CheckSynchronization(f: Form, ok0: bool, index0: nat, issues0: seq<Issue>)
    returns (ok: bool, index: nat, issues: seq<Issue>)
    requires issues0 == IssuesUpTo(f, 5) && index0 == |issues0| && (ok0 <==> index0 == 0)
    ensures issues == IssuesUpTo(f, 11) && index == |issues| && (ok <==> index == 0)
  {
    ok, index, issues := ok0, index0, issues0;
    ok, index, issues := Test(f, Blank(f.rsyncPrefix), RsyncPrefixEmpty, ok, index, issues);
    ok, index, issues := Test(f, Checked(f.usePartialDirectory) && Blank(f.partialDirectory), PartialDirectoryEmpty, ok, index, issues);
    ok, index, issues := Test(f, Checked(f.useExcludePattern) && Blank(f.excludePattern), ExcludePatternMissing, ok, index, issues);
    ok, index, issues := Test(f, Checked(f.useExcludeFrom) && Blank(f.excludeFrom), ExcludeFileEmpty, ok, index, issues);
    ok, index, issues := Test(f, Checked(f.useIncludePattern) && Blank(f.includePattern), IncludePatternMissing, ok, index, issues);
    ok, index, issues := Test(f, Checked(f.useIncludeFrom) && Blank(f.includeFrom), IncludeFileEmpty, ok, index, issues);
  }

  /** The backup tests, run only when backups are made. */
  method CheckBackups(f: Form, ok0: bool, index0: nat, issues0: seq<Issue>)
    returns (ok: bool, index: nat, issues: seq<Issue>)
    requires issues0 == IssuesUpTo(f, 11) && index0 == |issues0| && (ok0 <==> index0 == 0)
    ensures issues == Issues(f) && index == |issues| && (ok <==> index == 0)
  {
    ok, index, issues := ok0, index0, issues0;
    if Checked(f.makeBackups) {
      ok, index, issues := Test(f, Checked(f.useBackupSuffix) && Blank(f.backupSuffix), BackupSuffixMissing,
                                ok, index, issues);
      ok, index, issues := Test(f, Checked(f.useBackupDirectory) && Blank(f.backupDirectory), BackupDirectoryEmpty,
                                ok, index, issues);
    } else {
      BackupTestsSkipped(f);
    }
  }

  /** Without backups the last two tests find nothing. */
  lemma BackupTestsSkipped(f: Form)
    requires !Checked(f.makeBackups)
    ensures IssuesUpTo(f, 13) == IssuesUpTo(f, 11)
  {
    assert AllIssues[11] == BackupSuffixMissing && AllIssues[12] == BackupDirectoryEmpty;
    assert IssuesUpTo(f, 12) == IssuesUpTo(f, 11);
  }

  /** One test of the check, the one for issue `x`: when it is raised the check
      fails, counts one more issue and appends it. */
  method Test(ghost f: Form, raised: bool, x: Issue, ok: bool, index: nat, issues: seq<Issue>)
    returns (ok': bool, index': nat, issues': seq<Issue>)
    requires raised == Raised(f, x)
    requires issues == IssuesUpTo(f, Rank(x)) && index == |issues| && (ok <==> index == 0)
    ensures issues' == IssuesUpTo(f, Rank(x) + 1) && index' == |issues'| && (ok' <==> index' == 0)
  {
    ok', index', issues' := ok, index, issues;
    if raised {
      ok', index', issues' := false, index + 1, issues + [x];
    }
  }

  // ---------------------------------------------------------------------
  // The dialog's buttons

  datatype Button = ApplyButton | OkButton | OtherButton(code: int)

  /** What a click makes the dialog do, in order. */
  datatype DialogAction =
      /** The error box listing `count` incomplete settings. */
    | IncompleteSettingsShown(count: nat, issues: seq<Issue>)
    | CustomOptionsSaved
    | SuperUserEntriesWritten
    | AuthenticationSaved
    | DialogSizeSaved
      /** The click handed on to the base dialog, which saves the settings. */
    | BaseHandled(button: Button)

  /** slotButtonClicked: Apply and Ok stop before anything is saved when
      the check fails; otherwise the custom options, the super-user entries
      and the wallet entries are saved (and, for Ok, the dialog size)
      before the base dialog handles the click. */
  function ClickActions(f: Form, b: Button): seq<DialogAction> {
    var issues := Issues(f);
    var saves := [CustomOptionsSaved, SuperUserEntriesWritten, AuthenticationSaved];
    match b
      case ApplyButton =>
        if issues != [] then [IncompleteSettingsShown(|issues|, issues)] else saves + [BaseHandled(b)]
      case OkButton =>
        if issues != [] then [IncompleteSettingsShown(|issues|, issues)] else saves + [DialogSizeSaved, BaseHandled(b)]
      case OtherButton(_) => [BaseHandled(b)]
  }

  /** Nothing is saved or handed on for Apply or Ok while a setting is
      incomplete, and the error box is shown then only; complete settings
      are saved with the base dialog last; other buttons skip the check. */
  lemma ClickGating(f: Form, b: Button)
    ensures var acts := ClickActions(f, b);
      (b.OtherButton? ==> acts == [BaseHandled(b)]) &&
      (!b.OtherButton? && (exists x :: Raised(f, x)) ==>
         |acts| == 1 && acts[0].IncompleteSettingsShown? && acts[0].count > 0) &&
      (!b.OtherButton? && (forall x :: !Raised(f, x)) ==>
         CustomOptionsSaved in acts && acts[|acts| - 1] == BaseHandled(b) &&
         forall a :: a in acts ==> !a.IncompleteSettingsShown?)
  {
    IssuesContract(f);
  }

  /** The actions of a click, with the check run as the dialog runs it. */
  method SlotButtonClicked(f: Form, b: Button) returns (acts: seq<DialogAction>)
    ensures acts == ClickActions(f, b)
  {
    match b {
      case ApplyButton =>
        var ok, index, issues := CheckSettings(f);
        if !ok {
          return [IncompleteSettingsShown(index, issues)];
        }
        acts := [CustomOptionsSaved, SuperUserEntriesWritten, AuthenticationSaved];
      case OkButton =>
        var ok, index, issues := CheckSettings(f);
        if !ok {
          return [IncompleteSettingsShown(index, issues)];
        }
        acts := [CustomOptionsSaved, SuperUserEntriesWritten, AuthenticationSaved, DialogSizeSaved];
      case OtherButton(_) =>
        acts := [];
    }
    acts := acts + [BaseHandled(b)];
  }

  // ---------------------------------------------------------------------
  // Enabling Apply

  /** A wallet entry as the authentication page shows it. */
  datatype AuthInfo = AuthInfo(unc: string, workgroupName: string, login: string, password: string)

  /** An old and a new wallet entry for the same UNC that differ in
      workgroup, login or password, all compared ignoring case. */
  predicate EntryChanged(o: AuthInfo, n: AuthInfo) {
    EqualsIgnoreCase(o.unc, n.unc) &&
    (!EqualsIgnoreCase(o.workgroupName, n.workgroupName) || !EqualsIgnoreCase(o.login, n.login) ||
     !EqualsIgnoreCase(o.password, n.password))
  }

  predicate WalletChanged(olds: seq<AuthInfo>, news: seq<AuthInfo>) {
    exists i, j :: 0 <= i < |olds| && 0 <= j < |news| && EntryChanged(olds[i], news[j])
  }

  /** The custom-options test as written: the sizes differ, or SOME new
      entry differs from SOME old entry. */
  predicate CustomChangedAsWritten<T(==)>(news: seq<T>, olds: seq<T>) {
    |news| != |olds| ||
    exists i, j :: 0 <= i < |news| && 0 <= j < |olds| && news[i] != olds[j]
  }

  /** Whether Apply is enabled, as written. */
  predicate ApplyEnabledAsWritten<T(==)>(walletMaybeChanged: bool, oldWallet: seq<AuthInfo>, newWallet: seq<AuthInfo>,
                                         customMaybeChanged: bool, news: seq<T>, olds: seq<T>) {
    (walletMaybeChanged && WalletChanged(oldWallet, newWallet)) ||
    (customMaybeChanged && CustomChangedAsWritten(news, olds))
  }

  /** Whether Apply is enabled with the custom options compared as
      multisets of entries. */
  predicate ApplyEnabled<T(==)>(walletMaybeChanged: bool, oldWallet: seq<AuthInfo>, newWallet: seq<AuthInfo>,
                                customMaybeChanged: bool, news: seq<T>, olds: seq<T>) {
    (walletMaybeChanged && WalletChanged(oldWallet, newWallet)) ||
    (customMaybeChanged && multiset(news) != multiset(olds))
  }

  /** The wallet loops: every old entry against every new one, stopping at
      the first changed pair. */
  method WalletEntriesChanged(olds: seq<AuthInfo>, news: seq<AuthInfo>) returns (enable: bool)
    ensures enable <==> WalletChanged(olds, news)
  {
    enable := false;
    var i := 0;
    while i < |olds|
      invariant 0 <= i <= |olds|
      invariant forall a, b :: 0 <= a < i && 0 <= b < |news| ==> !EntryChanged(olds[a], news[b])
    {
      var j := 0;
      while j < |news|
        invariant 0 <= j <= |news|
        invariant forall b :: 0 <= b < j ==> !EntryChanged(olds[i], news[b])
      {
        if EqualsIgnoreCase(olds[i].unc, news[j].unc) &&
           (!EqualsIgnoreCase(olds[i].workgroupName, news[j].workgroupName) ||
            !EqualsIgnoreCase(olds[i].login, news[j].login) ||
            !EqualsIgnoreCase(olds[i].password, news[j].password)) {
          enable := true;
          break;
        }
        j := j + 1;
      }
      if enable {
        return;
      }
      i := i + 1;
    }
  }

  /** The custom-options loops as written: every new entry against every
      old one, stopping at the first pair that is not equal. */
  method AnyPairDiffers<T(==)>(news: seq<T>, olds: seq<T>) returns (enable: bool)
    ensures enable <==> exists i, j :: 0 <= i < |news| && 0 <= j < |olds| && news[i] != olds[j]
  {
    enable := false;
    var i := 0;
    while i < |news|
      invariant 0 <= i <= |news|
      invariant forall a, b :: 0 <= a < i && 0 <= b < |olds| ==> news[a] == olds[b]
    {
      var j := 0;
      while j < |olds|
        invariant 0 <= j <= |olds|
        invariant forall b :: 0 <= b < j ==> news[i] == olds[b]
      {
        if news[i] != olds[j] {
          enable := true;
          break;
        }
        j := j + 1;
      }
      if enable {
        return;
      }
      i := i + 1;
    }
  }

  /** slotEnableApplyButton as written. */
  method EnableApplyAsWritten<T(==)>(walletMaybeChanged: bool, oldWallet: seq<AuthInfo>, newWallet: seq<AuthInfo>,
                                     customMaybeChanged: bool, news: seq<T>, olds: seq<T>) returns (enable: bool)
    ensures enable <==> ApplyEnabledAsWritten(walletMaybeChanged, oldWallet, newWallet, customMaybeChanged, news, olds)
  {
    enable := false;
    if walletMaybeChanged {
      enable := WalletEntriesChanged(oldWallet, newWallet);
    }
    if !enable && customMaybeChanged {
      if |news| == |olds| {
        enable := AnyPairDiffers(news, olds);
      } else {
        enable := true;
      }
    }
  }

  /** The corrected custom-options test: each new entry is matched with an
      old one not matched yet, so the lists count as changed exactly when
      they do not hold the same entries equally often, whatever their order. */
  method ListsDiffer<T(==)>(news: seq<T>, olds: seq<T>) returns (enable: bool)
    ensures enable <==> multiset(news) != multiset(olds)
  {
    if |news| != |olds| {
      return true;
    }
    var rest := olds;
    var i := 0;
    while i < |news|
      invariant 0 <= i <= |news| && |rest| == |olds| - i
      invariant multiset(news[..i]) <= multiset(olds)
      invariant multiset(rest) == multiset(olds) - multiset(news[..i])
    {
      assert news[..i + 1] == news[..i] + [news[i]];
      if news[i] !in rest {
        Outnumbered(news, i, olds, rest);
        return true;
      }
      MatchStep(olds, news[..i], rest, news[i]);
      rest := RemoveFirst(rest, news[i]);
      i := i + 1;
    }
    assert news[..i] == news;
    Exhausted(news, olds, rest);
    enable := false;
  }

  /** Matching `x` with an unmatched old entry keeps the matched prefix
      within the old list and the unmatched entries its difference. */
  lemma MatchStep<T>(olds: seq<T>, p: seq<T>, rest: seq<T>, x: T)
    requires multiset(p) <= multiset(olds)
    requires multiset(rest) == multiset(olds) - multiset(p)
    requires x in rest
    ensures multiset(p + [x]) <= multiset(olds)
    ensures multiset(RemoveFirst(rest, x)) == multiset(olds) - multiset(p + [x])
  {
    assert multiset(rest)[x] > 0;
    forall y ensures multiset(RemoveFirst(rest, x))[y] == (multiset(olds) - multiset(p + [x]))[y] { }
  }

  /** An entry with no unmatched old partner occurs more often among the new
      entries than among the old ones. */
  lemma Outnumbered<T>(news: seq<T>, i: nat, olds: seq<T>, rest: seq<T>)
    requires i < |news|
    requires multiset(news[..i]) <= multiset(olds)
    requires multiset(rest) == multiset(olds) - multiset(news[..i])
    requires news[i] !in rest
    ensures multiset(news) != multiset(olds)
  {
    var x := news[i];
    assert multiset(rest)[x] == 0;
    assert news == news[..i] + [x] + news[i + 1..];
    assert multiset(news)[x] > multiset(olds)[x];
  }

  /** With every new entry matched and no old one left over, the lists hold
      the same entries. */
  lemma Exhausted<T>(news: seq<T>, olds: seq<T>, rest: seq<T>)
    requires multiset(news) <= multiset(olds)
    requires multiset(rest) == multiset(olds) - multiset(news)
    requires rest == []
    ensures multiset(news) == multiset(olds)
  {
    forall y ensures multiset(news)[y] == multiset(olds)[y] {
      assert multiset(rest)[y] == 0;
    }
  }

  /** slotEnableApplyButton with the corrected custom-options test. */
  method EnableApply<T(==)>(walletMaybeChanged: bool, oldWallet: seq<AuthInfo>, newWallet: seq<AuthInfo>,
                            customMaybeChanged: bool, news: seq<T>, olds: seq<T>) returns (enable: bool)
    ensures enable <==> ApplyEnabled(walletMaybeChanged, oldWallet, newWallet, customMaybeChanged, news, olds)
  {
    enable := false;
    if walletMaybeChanged {
      enable := WalletEntriesChanged(oldWallet, newWallet);
    }
    if !enable && customMaybeChanged {
      enable := ListsDiffer(news, olds);
    }
  }

  /** As written, an unchanged list of two different custom options enables
      Apply (the first new entry is compared with the second old one), and
      so does the same list read back in the other order; the corrected
      test enables it for neither. */
  lemma UnchangedListEnablesApply<T>(a: T, b: T)
    requires a != b
    ensures ApplyEnabledAsWritten(false, [], [], true, [a, b], [a, b])
    ensures ApplyEnabledAsWritten(false, [], [], true, [b, a], [a, b])
    ensures !ApplyEnabled(false, [], [], true, [a, b], [a, b])
    ensures !ApplyEnabled(false, [], [], true, [b, a], [a, b])
  {
    assert [a, b][0] != [a, b][1];
    assert [b, a][0] != [a, b][0];
    assert multiset([b, a]) == multiset([a, b]);
  }

  /** The test as written never misses a change the corrected one sees, and
      says nothing has changed only for lists of one repeated entry. */
  lemma AsWrittenOverApproximates<T>(news: seq<T>, olds: seq<T>)
    ensures news != olds ==> CustomChangedAsWritten(news, olds)
    ensures !CustomChangedAsWritten(news, olds) ==>
              news == olds && forall i, j :: 0 <= i < j < |news| ==> news[i] == news[j]
  {
    if news != olds && |news| == |olds| {
      var k :| 0 <= k < |news| && news[k] != olds[k];
    }
    if !CustomChangedAsWritten(news, olds) {
      assert forall k :: 0 <= k < |news| ==> news[k] == olds[k];
      forall i, j | 0 <= i < j < |news| ensures news[i] == news[j] {
        assert news[i] == olds[j];
      }
    }
  }

  /** A wallet password changed only in letter case does not enable Apply,
      and neither does a new entry for a UNC that had none. */
  lemma WalletBlindSpots(o: AuthInfo, password: string, n: AuthInfo)
    requires EqualsIgnoreCase(o.password, password)
    requires !EqualsIgnoreCase(o.unc, n.unc)
    ensures !WalletChanged([o], [o.(password := password)])
    ensures !WalletChanged([o], [o, n])
  {
    assert EqualsIgnoreCase(o.workgroupName, o.workgroupName);
    assert EqualsIgnoreCase(o.login, o.login);
    assert EqualsIgnoreCase(o.unc, o.unc);
  }
}
