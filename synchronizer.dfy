/** The rsync synchronization job: the argument list built from the
    settings, the progress counts read from rsync's standard output, and
    the failure test on its standard error. */
module Synchronizer {
  import opened Common
  import opened Text

  // ---------------------------------------------------------------------
  // Arguments

  /** The switches archive mode stands for. */
  datatype PreserveFlag = Recursive | Links | Perms | Times | Group | Owner | Devices | Specials

  /** The switches from "--relative" to "--compress". */
  datatype TransferFlag =
    | Relative | OmitDirTimes | NoImpliedDirs | Update | InPlace | Dirs
    | CopyLinks | CopyUnsafeLinks | SafeLinks | HardLinks | KeepDirlinks
    | Delete | RemoveSourceFiles | DeleteBefore | DeleteDuring | DeleteAfter
    | DeleteExcluded | IgnoreErrors | Force | WholeFile | Sparse
    | OneFileSystem | Existing | IgnoreExisting | DelayUpdates | Compress

  /** The rsync switches that take no value. */
  datatype FlagName =
    | Progress | Archive | Preserve(p: PreserveFlag) | Transferring(t: TransferFlag)
    | Backup | Checksum | Partial | CvsExclude

  /** The rsync options written "--name=value". */
  datatype OptionName =
    | BackupDir | Suffix | MaxDelete | BlockSize | ChecksumSeed | MinSize | MaxSize
    | PartialDir | Exclude | ExcludeFrom | Include | IncludeFrom

  /** One command-line argument: a switch, an option with its value, one
      "-F", a word of the user's custom filtering rules (or any other
      literal text), or one of the two paths. */
  datatype Arg =
    | Flag(flag: FlagName)
    | Option(option: OptionName, value: string)
    | FilterF
    | Word(text: string)
    | Path(path: string)

  /** The synchronization settings that shape the argument list. */
  datatype Settings = Settings(
    archiveMode: bool,
    recurseIntoDirectories: bool, preserveSymlinks: bool, preservePermissions: bool,
    preserveTimes: bool, preserveGroup: bool, preserveOwner: bool,
    preserveDevicesAndSpecials: bool,
    relativePathNames: bool, omitDirectoryTimes: bool, noImpliedDirectories: bool,
    updateTarget: bool, updateInPlace: bool, transferDirectories: bool,
    transformSymlinks: bool, transformUnsafeSymlinks: bool, ignoreUnsafeSymlinks: bool,
    preserveHardLinks: bool, keepDirectorySymlinks: bool, deleteExtraneous: bool,
    removeSourceFiles: bool, deleteBefore: bool, deleteDuring: bool, deleteAfter: bool,
    deleteExcluded: bool, ignoreErrors: bool, forceDirectoryDeletion: bool,
    copyFilesWhole: bool, efficientSparseFileHandling: bool, oneFileSystem: bool,
    updateExisting: bool, ignoreExisting: bool, delayUpdates: bool, compressData: bool,
    makeBackups: bool, useBackupDirectory: bool, backupDirectory: string,
    useBackupSuffix: bool, backupSuffix: string,
    useMaximumDelete: bool, maximumDeleteValue: int,
    useChecksum: bool,
    useBlockSize: bool, blockSize: int,
    useChecksumSeed: bool, checksumSeed: int,
    customFilteringRules: string,
    useMinimalTransferSize: bool, minimalTransferSize: int,
    useMaximalTransferSize: bool, maximalTransferSize: int,
    keepPartial: bool, usePartialDirectory: bool, partialDirectory: string,
    useCVSExclude: bool, useFFilterRule: bool, useFFFilterRule: bool,
    useExcludePattern: bool, excludePattern: string,
    useExcludeFrom: bool, excludeFrom: string,
    useIncludePattern: bool, includePattern: string,
    useIncludeFrom: bool, includeFrom: string)

  /** What part an argument plays in the properties of the list. */
  datatype Role =
    | ProgressRole | ArchiveRole | PreservingRole | BackupRole | BackupOptionRole
    | PartialRole | FilterRole | PathRole | OtherRole

  function RoleOf(a: Arg): Role {
    match a
      case Flag(f) =>
        (match f
           case Progress => ProgressRole
           case Archive => ArchiveRole
           case Preserve(_) => PreservingRole
           case Backup => BackupRole
           case Partial => PartialRole
           case _ => OtherRole)
      case Option(o, _) => if o == BackupDir || o == Suffix then BackupOptionRole else OtherRole
      case FilterF => FilterRole
      case Word(_) => OtherRole
      case Path(_) => PathRole
  }

  /** The switches archive mode stands for. */
  predicate Preserving(f: FlagName) {
    f.Preserve?
  }

  /** Whether the settings turn a preservation switch on. */
  function PreserveOn(s: Settings, p: PreserveFlag): bool {
    match p
      case Recursive => s.recurseIntoDirectories
      case Links => s.preserveSymlinks
      case Perms => s.preservePermissions
      case Times => s.preserveTimes
      case Group => s.preserveGroup
      case Owner => s.preserveOwner
      case Devices => s.preserveDevicesAndSpecials
      case Specials => s.preserveDevicesAndSpecials
  }

  /** Whether the settings turn a transfer switch on. */
  function TransferOn(s: Settings, t: TransferFlag): bool {
    match t
      case Relative => s.relativePathNames
      case OmitDirTimes => s.omitDirectoryTimes
      case NoImpliedDirs => s.noImpliedDirectories
      case Update => s.updateTarget
      case InPlace => s.updateInPlace
      case Dirs => s.transferDirectories
      case CopyLinks => s.transformSymlinks
      case CopyUnsafeLinks => s.transformUnsafeSymlinks
      case SafeLinks => s.ignoreUnsafeSymlinks
      case HardLinks => s.preserveHardLinks
      case KeepDirlinks => s.keepDirectorySymlinks
      case Delete => s.deleteExtraneous
      case RemoveSourceFiles => s.removeSourceFiles
      case DeleteBefore => s.deleteBefore
      case DeleteDuring => s.deleteDuring
      case DeleteAfter => s.deleteAfter
      case DeleteExcluded => s.deleteExcluded
      case IgnoreErrors => s.ignoreErrors
      case Force => s.forceDirectoryDeletion
      case WholeFile => s.copyFilesWhole
      case Sparse => s.efficientSparseFileHandling
      case OneFileSystem => s.oneFileSystem
      case Existing => s.updateExisting
      case IgnoreExisting => s.ignoreExisting
      case DelayUpdates => s.delayUpdates
      case Compress => s.compressData
  }

  /** Whether the settings turn a switch on. */
  function SwitchOn(s: Settings, f: FlagName): bool {
    match f
      case Progress => true
      case Archive => s.archiveMode
      case Preserve(p) => PreserveOn(s, p)
      case Transferring(t) => TransferOn(s, t)
      case Backup => s.makeBackups
      case Checksum => s.useChecksum
      case Partial => s.keepPartial
      case CvsExclude => s.useCVSExclude
  }

  /** The individual preservation switches, in order; "--devices" and
      "--specials" are added together after them. */
  const PreservationSwitches: seq<FlagName> :=
    [Preserve(Recursive), Preserve(Links), Preserve(Perms), Preserve(Times), Preserve(Group), Preserve(Owner)]

  /** Each switch of `names` that the settings turn on, in order. */
  function Switches(s: Settings, names: seq<FlagName>): (r: seq<Arg>)
    ensures forall a {:trigger a in r} :: a in r <==> a.Flag? && a.flag in names && SwitchOn(s, a.flag)
  {
    if names == [] then []
    else (if SwitchOn(s, names[0]) then [Flag(names[0])] else []) + Switches(s, names[1..])
  }

  /** The arguments `a` when `b` holds, none otherwise. */
  function When(b: bool, a: seq<Arg>): seq<Arg> {
    if b then a else []
  }

  /** `x` is immediately followed by `y` somewhere in `r`. */
  predicate Adjacent(r: seq<Arg>, x: Arg, y: Arg) {
    exists i :: 0 <= i < |r| - 1 && r[i] == x && r[i + 1] == y
  }

  /** Two arguments adjacent in a part of a list are adjacent in the list. */
  lemma AdjacentIn(a: seq<Arg>, b: seq<Arg>, x: Arg, y: Arg)
    ensures Adjacent(a, x, y) ==> Adjacent(a + b, x, y)
    ensures Adjacent(b, x, y) ==> Adjacent(a + b, x, y)
  {
    if Adjacent(a, x, y) {
      var i :| 0 <= i < |a| - 1 && a[i] == x && a[i + 1] == y;
      assert (a + b)[i] == x && (a + b)[i + 1] == y;
    }
    if Adjacent(b, x, y) {
      var i :| 0 <= i < |b| - 1 && b[i] == x && b[i + 1] == y;
      assert (a + b)[|a| + i] == x && (a + b)[|a| + i + 1] == y;
    }
  }

  /** A path with the trailing slash rsync needs. */
  function Slashed(p: string): (r: string)
    ensures EndsWith(r, "/")
    ensures EndsWith(p, "/") ==> r == p
    ensures !EndsWith(p, "/") ==> r == p + "/"
  {
    if EndsWith(p, "/") then p else p + "/"
  }

  /** "--archive", or the individual preservation switches that are on. */
  function Preservation(s: Settings): (r: seq<Arg>)
    ensures forall a {:trigger a in r} :: a in r ==> a.Flag? && (RoleOf(a) == PreservingRole || RoleOf(a) == ArchiveRole)
  {
    if s.archiveMode then [Flag(Archive)]
    else
      Switches(s, PreservationSwitches) +
      When(s.preserveDevicesAndSpecials, [Flag(Preserve(Devices)), Flag(Preserve(Specials))])
  }

  /** Archive mode gives "--archive" alone; otherwise each preservation
      switch is there exactly when its setting is on, "--devices" and
      "--specials" last and together. */
  lemma PreservationContract(s: Settings)
    ensures s.archiveMode ==> Preservation(s) == [Flag(Archive)]
    ensures !s.archiveMode ==> Flag(Archive) !in Preservation(s)
    ensures !s.archiveMode ==>
              forall f :: Preserving(f) ==> (Flag(f) in Preservation(s) <==> SwitchOn(s, f))
    ensures !s.archiveMode && s.preserveDevicesAndSpecials ==>
              Adjacent(Preservation(s), Flag(Preserve(Devices)), Flag(Preserve(Specials)))
  {
    if !s.archiveMode {
      var sw := Switches(s, PreservationSwitches);
      var dv := When(s.preserveDevicesAndSpecials, [Flag(Preserve(Devices)), Flag(Preserve(Specials))]);
      assert Preservation(s) == sw + dv;
      AdjacentIn(sw, dv, Flag(Preserve(Devices)), Flag(Preserve(Specials)));
      if s.preserveDevicesAndSpecials {
        assert dv[0] == Flag(Preserve(Devices)) && dv[1] == Flag(Preserve(Specials));
      }
      forall f | Preserving(f) ensures Flag(f) in Preservation(s) <==> SwitchOn(s, f) {
        PreservationListed(f.p);
      }
    }
  }

  /** Every preservation switch but "--devices" and "--specials" is in the
      individual list, and those two are not. */
  lemma PreservationListed(p: PreserveFlag)
    ensures Preserve(p) in PreservationSwitches <==> p != Devices && p != Specials
  {
    match p
      case Recursive => assert PreservationSwitches[0] == Preserve(p);
      case Links => assert PreservationSwitches[1] == Preserve(p);
      case Perms => assert PreservationSwitches[2] == Preserve(p);
      case Times => assert PreservationSwitches[3] == Preserve(p);
      case Group => assert PreservationSwitches[4] == Preserve(p);
      case Owner => assert PreservationSwitches[5] == Preserve(p);
      case Devices =>
      case Specials =>
  }

  /** The switches from "--relative" to "--compress", in order. */
  const TransferOrder: seq<TransferFlag> :=
    [Relative, OmitDirTimes, NoImpliedDirs, Update, InPlace, Dirs, CopyLinks,
     CopyUnsafeLinks, SafeLinks, HardLinks, KeepDirlinks, Delete, RemoveSourceFiles,
     DeleteBefore, DeleteDuring, DeleteAfter, DeleteExcluded, IgnoreErrors, Force,
     WholeFile, Sparse, OneFileSystem, Existing, IgnoreExisting, DelayUpdates, Compress]

  /** Each transfer switch of `ts` that the settings turn on, in order. */
  function TransferBlock(s: Settings, ts: seq<TransferFlag>): (r: seq<Arg>)
    ensures forall a {:trigger a in r} :: a in r ==> a.Flag? && a.flag.Transferring? && TransferOn(s, a.flag.t)
  {
    if ts == [] then []
    else When(TransferOn(s, ts[0]), [Flag(Transferring(ts[0]))]) + TransferBlock(s, ts[1..])
  }

  /** The switches from "--relative" to "--compress" that are on. */
  function Transfer(s: Settings): (r: seq<Arg>)
    ensures forall a {:trigger a in r} :: a in r ==> RoleOf(a) == OtherRole
  {
    TransferBlock(s, TransferOrder)
  }

  /** A transfer switch is in the block of `ts` exactly when it is one of
      `ts` and its setting is on. */
  lemma {:induction false} TransferBlockHas(s: Settings, ts: seq<TransferFlag>, t: TransferFlag)
    ensures Flag(Transferring(t)) in TransferBlock(s, ts) <==> t in ts && TransferOn(s, t)
  {
    if ts != [] {
      TransferBlockHas(s, ts[1..], t);
      assert t in ts <==> t == ts[0] || t in ts[1..];
    }
  }

  /** Every transfer switch has its place in the order. */
  lemma TransferOrdered(t: TransferFlag)
    ensures t in TransferOrder
  {
    var i := match t
      case Relative => 0 case OmitDirTimes => 1 case NoImpliedDirs => 2 case Update => 3
      case InPlace => 4 case Dirs => 5 case CopyLinks => 6 case CopyUnsafeLinks => 7
      case SafeLinks => 8 case HardLinks => 9 case KeepDirlinks => 10 case Delete => 11
      case RemoveSourceFiles => 12 case DeleteBefore => 13 case DeleteDuring => 14
      case DeleteAfter => 15 case DeleteExcluded => 16 case IgnoreErrors => 17 case Force => 18
      case WholeFile => 19 case Sparse => 20 case OneFileSystem => 21 case Existing => 22
      case IgnoreExisting => 23 case DelayUpdates => 24 case Compress => 25;
    assert TransferOrder[i] == t;
  }

  /** Each transfer switch is passed in its block exactly when its setting
      is on. */
  lemma TransferListed(s: Settings, t: TransferFlag)
    ensures Flag(Transferring(t)) in Transfer(s) <==> TransferOn(s, t)
  {
    TransferBlockHas(s, TransferOrder, t);
    TransferOrdered(t);
  }

  /** "--backup", followed by the backup directory and suffix when they are
      used; nothing without backups. */
  function Backups(s: Settings): (r: seq<Arg>)
    ensures forall a {:trigger a in r} :: a in r ==> RoleOf(a) == BackupRole || RoleOf(a) == BackupOptionRole
    ensures r != [] <==> s.makeBackups
    ensures r != [] ==> r[0] == Flag(Backup)
    ensures s.makeBackups && s.useBackupDirectory ==> Option(BackupDir, s.backupDirectory) in r
    ensures s.makeBackups && s.useBackupSuffix ==> Option(Suffix, s.backupSuffix) in r
  {
    When(s.makeBackups,
      [Flag(Backup)] +
      When(s.useBackupDirectory, [Option(BackupDir, s.backupDirectory)]) +
      When(s.useBackupSuffix, [Option(Suffix, s.backupSuffix)]))
  }

  /** The words of the custom filtering rules, split at every blank. */
  function CustomRules(rules: string): (r: seq<Arg>)
    ensures forall a :: a in r ==> a.Word?
    ensures rules != "" ==> |r| == |Split(rules, ' ')|
  {
    if rules == "" then [] else Words(Split(rules, ' '))
  }

  function Words(ws: seq<string>): (r: seq<Arg>)
    ensures |r| == |ws|
    ensures forall i :: 0 <= i < |ws| ==> r[i] == Word(ws[i])
    ensures forall a :: a in r ==> a.Word?
  {
    if ws == [] then [] else [Word(ws[0])] + Words(ws[1..])
  }

  /** The maximum deletions, checksum, block size and seed options. */
  function Checks(s: Settings): (r: seq<Arg>)
    ensures forall a {:trigger a in r} :: a in r ==> RoleOf(a) == OtherRole
  {
    When(s.useMaximumDelete, [Option(MaxDelete, IntToString(s.maximumDeleteValue))]) +
    When(s.useChecksum, [Flag(Checksum)]) +
    When(s.useBlockSize, [Option(BlockSize, IntToString(s.blockSize))]) +
    When(s.useChecksumSeed, [Option(ChecksumSeed, IntToString(s.checksumSeed))])
  }

  /** The transfer size limits, in kilobytes. */
  function Sizes(s: Settings): (r: seq<Arg>)
    ensures forall a {:trigger a in r} :: a in r ==> RoleOf(a) == OtherRole
  {
    When(s.useMinimalTransferSize, [Option(MinSize, IntToString(s.minimalTransferSize) + "K")]) +
    When(s.useMaximalTransferSize, [Option(MaxSize, IntToString(s.maximalTransferSize) + "K")])
  }

  /** From "--max-delete" to "--max-size", the custom rules in between. */
  function Tuning(s: Settings): (r: seq<Arg>)
    ensures forall a {:trigger a in r} :: a in r ==> RoleOf(a) == OtherRole
  {
    Checks(s) + CustomRules(s.customFilteringRules) + Sizes(s)
  }

  /** The keep-partial switch `partial`, then the partial directory when it
      is used. */
  function Partials(s: Settings, partial: Arg): (r: seq<Arg>)
    ensures s.keepPartial ==> r != [] && r[0] == partial
    ensures s.keepPartial && s.usePartialDirectory ==> Adjacent(r, partial, Option(PartialDir, s.partialDirectory))
    ensures !s.keepPartial ==> r == []
    ensures forall a :: a in r ==> a == partial || a == Option(PartialDir, s.partialDirectory)
  {
    var r := When(s.keepPartial,
      [partial] + When(s.usePartialDirectory, [Option(PartialDir, s.partialDirectory)]));
    assert s.keepPartial && s.usePartialDirectory ==>
             r[0] == partial && r[1] == Option(PartialDir, s.partialDirectory);
    r
  }

  /** The include and exclude patterns and files. */
  function Patterns(s: Settings): (r: seq<Arg>)
    ensures forall a {:trigger a in r} :: a in r ==> RoleOf(a) == OtherRole
  {
    When(s.useExcludePattern, [Option(Exclude, s.excludePattern)]) +
    When(s.useExcludeFrom, [Option(ExcludeFrom, s.excludeFrom)]) +
    When(s.useIncludePattern, [Option(Include, s.includePattern)]) +
    When(s.useIncludeFrom, [Option(IncludeFrom, s.includeFrom)])
  }

  /** "--cvs-exclude", the filter rules and the patterns; the FF rule is two
      "-F" in a row. */
  function Filters(s: Settings): (r: seq<Arg>)
    ensures forall a {:trigger a in r} :: a in r ==> RoleOf(a) == OtherRole || RoleOf(a) == FilterRole
    ensures s.useFFFilterRule ==>
              Adjacent(r, FilterF, FilterF)
  {
    var front := When(s.useCVSExclude, [Flag(CvsExclude)]) + When(s.useFFilterRule, [FilterF]);
    var ff := When(s.useFFFilterRule, [FilterF, FilterF]);
    var r := front + ff + Patterns(s);
    assert s.useFFFilterRule ==> r[|front|] == FilterF && r[|front| + 1] == FilterF;
    assert s.useFFFilterRule ==> Adjacent(r, FilterF, FilterF);
    r
  }

  /** "--progress" and every argument up to the size limits. */
  function Front(s: Settings): (r: seq<Arg>)
    ensures |r| >= 1 && r[0] == Flag(Progress)
    ensures forall a {:trigger a in r} :: a in r ==> RoleOf(a) != PathRole && RoleOf(a) != PartialRole && RoleOf(a) != FilterRole
  {
    FrontParts(Preservation(s), Transfer(s), Backups(s), Tuning(s));
    [Flag(Progress)] + Preservation(s) + Transfer(s) + Backups(s) + Tuning(s)
  }

  /** The blocks of the front part hold no path, partial or filter
      argument, so neither does the front part. */
  lemma FrontParts(p: seq<Arg>, t: seq<Arg>, b: seq<Arg>, u: seq<Arg>)
    requires forall a {:trigger a in p} :: a in p ==> RoleOf(a) == PreservingRole || RoleOf(a) == ArchiveRole
    requires forall a {:trigger a in t} :: a in t ==> RoleOf(a) == OtherRole
    requires forall a {:trigger a in b} :: a in b ==> RoleOf(a) == BackupRole || RoleOf(a) == BackupOptionRole
    requires forall a {:trigger a in u} :: a in u ==> RoleOf(a) == OtherRole
    ensures var r := [Flag(Progress)] + p + t + b + u;
      |r| >= 1 && r[0] == Flag(Progress) &&
      forall a {:trigger a in r} :: a in r ==> RoleOf(a) != PathRole && RoleOf(a) != PartialRole && RoleOf(a) != FilterRole
  {
    var r := [Flag(Progress)] + p + t + b + u;
    forall a | a in r
      ensures RoleOf(a) != PathRole && RoleOf(a) != PartialRole && RoleOf(a) != FilterRole
    {
      assert a in [Flag(Progress)] || a in p || a in t || a in b || a in u;
    }
  }

  /** The filters, then source and destination with their trailing slash. */
  function Back(s: Settings, src: string, dest: string): (r: seq<Arg>)
    ensures |r| >= 2 && r[|r| - 2] == Path(Slashed(src)) && r[|r| - 1] == Path(Slashed(dest))
    ensures forall i :: 0 <= i < |r| - 2 ==> RoleOf(r[i]) == OtherRole || RoleOf(r[i]) == FilterRole
    ensures forall i :: 0 <= i < |r| - 2 ==> !r[i].Path?
    ensures forall a {:trigger a in r} :: a in r ==> RoleOf(a) == OtherRole || RoleOf(a) == FilterRole || RoleOf(a) == PathRole
    ensures s.useFFFilterRule ==>
              Adjacent(r, FilterF, FilterF)
  {
    var f := Filters(s);
    var paths := [Path(Slashed(src)), Path(Slashed(dest))];
    FilteredPaths(f, paths);
    AdjacentIn(f, paths, FilterF, FilterF);
    f + paths
  }

  /** Filters followed by the two paths: the filters keep their places and
      every argument is a filter, an ordinary argument or a path. */
  lemma FilteredPaths(f: seq<Arg>, paths: seq<Arg>)
    requires forall a {:trigger a in f} :: a in f ==> RoleOf(a) == OtherRole || RoleOf(a) == FilterRole
    requires |paths| == 2 && paths[0].Path? && paths[1].Path?
    ensures var r := f + paths;
      |r| == |f| + 2 && r[|r| - 2] == paths[0] && r[|r| - 1] == paths[1] &&
      (forall i :: 0 <= i < |r| - 2 ==> RoleOf(r[i]) == OtherRole || RoleOf(r[i]) == FilterRole) &&
      (forall i :: 0 <= i < |r| - 2 ==> !r[i].Path?) &&
      (forall a {:trigger a in r} :: a in r ==> RoleOf(a) == OtherRole || RoleOf(a) == FilterRole || RoleOf(a) == PathRole)
  {
    var r := f + paths;
    forall i | 0 <= i < |r| - 2
      ensures RoleOf(r[i]) == OtherRole || RoleOf(r[i]) == FilterRole
      ensures !r[i].Path?
    {
      assert r[i] == f[i] && f[i] in f;
    }
    forall a | a in r
      ensures RoleOf(a) == OtherRole || RoleOf(a) == FilterRole || RoleOf(a) == PathRole
    {
      if a !in f {
        assert a == paths[0] || a == paths[1];
      }
    }
  }

  /** The whole argument list, with `partial` standing for the argument the
      keep-partial setting adds. */
  function BuildArguments(s: Settings, src: string, dest: string, partial: Arg): seq<Arg> {
    Front(s) + Partials(s, partial) + Back(s, src, dest)
  }

  /** The argument list as the job builds it: keep-partial adds the text
      " --partial", with a leading blank. */
  function ArgumentsAsWritten(s: Settings, src: string, dest: string): seq<Arg> {
    BuildArguments(s, src, dest, Word(" --partial"))
  }

  /** The argument list with keep-partial adding the "--partial" switch. */
  function Arguments(s: Settings, src: string, dest: string): seq<Arg> {
    BuildArguments(s, src, dest, Flag(Partial))
  }

  /** The text of a switch. */
  function FlagText(f: FlagName): string {
    match f
      case Progress => "--progress"
      case Archive => "--archive"
      case Preserve(p) => PreserveText(p)
      case Transferring(t) => TransferText(t)
      case Backup => "--backup"
      case Checksum => "--checksum"
      case Partial => "--partial"
      case CvsExclude => "--cvs-exclude"
  }

  function PreserveText(p: PreserveFlag): string {
    match p
      case Recursive => "--recursive"
      case Links => "--links"
      case Perms => "--perms"
      case Times => "--times"
      case Group => "--group"
      case Owner => "--owner"
      case Devices => "--devices"
      case Specials => "--specials"
  }

  function TransferText(t: TransferFlag): string {
    match t
      case Relative => "--relative"
      case OmitDirTimes => "--omit-dir-times"
      case NoImpliedDirs => "--no-implied-dirs"
      case Update => "--update"
      case InPlace => "--inplace"
      case Dirs => "--dirs"
      case CopyLinks => "--copy-links"
      case CopyUnsafeLinks => "--copy-unsafe-links"
      case SafeLinks => "--safe-links"
      case HardLinks => "--hard-links"
      case KeepDirlinks => "--keep-dirlinks"
      case Delete => "--delete"
      case RemoveSourceFiles => "--remove-source-files"
      case DeleteBefore => "--delete-before"
      case DeleteDuring => "--delete-during"
      case DeleteAfter => "--delete-after"
      case DeleteExcluded => "--delete-excluded"
      case IgnoreErrors => "--ignore-errors"
      case Force => "--force"
      case WholeFile => "--whole-file"
      case Sparse => "--sparse"
      case OneFileSystem => "--one-file-system"
      case Existing => "--existing"
      case IgnoreExisting => "--ignore-existing"
      case DelayUpdates => "--delay-updates"
      case Compress => "--compress"
  }

  /** The text of an option before its value. */
  function OptionPrefix(o: OptionName): string {
    match o
      case BackupDir => "--backup-dir="
      case Suffix => "--suffix="
      case MaxDelete => "--max-delete="
      case BlockSize => "--block-size="
      case ChecksumSeed => "--checksum-seed="
      case MinSize => "--min-size="
      case MaxSize => "--max-size="
      case PartialDir => "--partial-dir="
      case Exclude => "--exclude="
      case ExcludeFrom => "--exclude-from="
      case Include => "--include="
      case IncludeFrom => "--include-from="
  }

  /** The text handed to rsync for one argument. */
  function Render(a: Arg): string {
    match a
      case Flag(f) => FlagText(f)
      case Option(o, v) => OptionPrefix(o) + v
      case FilterF => "-F"
      case Word(t) => t
      case Path(p) => p
  }

  /** rsync takes an argument for an option only when it starts with "-". */
  predicate IsOptionText(t: string) {
    |t| > 0 && t[0] == '-'
  }

  // ---------------------------------------------------------------------
  // Properties of the argument list

  /** The list with `partial`, split where the keep-partial arguments start. */
  lemma Parts(s: Settings, src: string, dest: string, partial: Arg)
    ensures BuildArguments(s, src, dest, partial) == Front(s) + Partials(s, partial) + Back(s, src, dest)
  {
  }

  /** An argument of a list assembled from three parts is in one of them. */
  lemma InParts(front: seq<Arg>, q: seq<Arg>, back: seq<Arg>)
    ensures forall a {:trigger a in front + q + back} :: a in front + q + back <==> a in front || a in q || a in back
  {
  }

  /** Where the middle part of a list assembled from three parts sits. */
  lemma Middle(front: seq<Arg>, q: seq<Arg>, back: seq<Arg>, i: int)
    requires 0 <= i < |q|
    ensures (front + q + back)[|front| + i] == q[i]
  {
  }

  /** The arguments of `x` keep their places in `x + y`. */
  lemma KeptIn(x: seq<Arg>, y: seq<Arg>, k: int)
    requires 0 <= k < |x|
    ensures (x + y)[k] == x[k]
  {
  }

  /** The arguments of `y` move up by the length of `x` in `x + y`. */
  lemma ShiftedBy(x: seq<Arg>, y: seq<Arg>, k: int)
    requires 0 <= k < |y|
    ensures (x + y)[|x| + k] == y[k]
  {
  }

  /** An argument of `x + y` that plays a part no argument of `y` plays
      comes from `x`. */
  lemma InLeft(x: seq<Arg>, y: seq<Arg>, i: int, role: Role)
    requires 0 <= i < |x + y| && RoleOf((x + y)[i]) == role
    requires forall a {:trigger a in y} :: a in y ==> RoleOf(a) != role
    ensures i < |x| && (x + y)[i] == x[i]
  {
    assert forall j :: |x| <= j < |x + y| ==> (x + y)[j] == y[j - |x|] && y[j - |x|] in y;
  }

  /** An argument of `x + y` that plays a part no argument of `x` plays
      comes from `y`. */
  lemma InRight(x: seq<Arg>, y: seq<Arg>, i: int, role: Role)
    requires 0 <= i < |x + y| && RoleOf((x + y)[i]) == role
    requires forall a {:trigger a in x} :: a in x ==> RoleOf(a) != role
    ensures |x| <= i && (x + y)[i] == y[i - |x|]
  {
    assert forall j :: 0 <= j < |x| ==> (x + y)[j] == x[j] && x[j] in x;
  }

  /** `r` starts with `first`, ends with `x` and `y`, and holds no path
      before those two. */
  predicate Framed(r: seq<Arg>, first: Arg, x: Arg, y: Arg) {
    |r| >= 3 && r[0] == first && r[|r| - 2] == x && r[|r| - 1] == y &&
    forall i :: 0 <= i < |r| - 2 ==> !r[i].Path?
  }

  /** A list assembled from three parts starts as the first and ends as the
      last; it holds a path before its last two arguments only if a part
      does. */
  lemma FramedBy(front: seq<Arg>, q: seq<Arg>, back: seq<Arg>, first: Arg, x: Arg, y: Arg)
    requires |front| >= 1 && front[0] == first
    requires |back| >= 2 && back[|back| - 2] == x && back[|back| - 1] == y
    requires forall a {:trigger a in front + q} :: a in front + q ==> !a.Path?
    requires forall i :: 0 <= i < |back| - 2 ==> !back[i].Path?
    ensures Framed(front + q + back, first, x, y)
  {
    var fq := front + q;
    var r := fq + back;
    forall i | 0 <= i < |r| - 2 ensures !r[i].Path? {
      if i < |fq| {
        assert r[i] == fq[i] && fq[i] in fq;
      } else {
        assert r[i] == back[i - |fq|];
      }
    }
  }

  lemma FrontNoPath(s: Settings, partial: Arg)
    requires !partial.Path?
    ensures forall a {:trigger a in Front(s) + Partials(s, partial)} :: a in Front(s) + Partials(s, partial) ==> !a.Path?
  {
  }

  /** Whatever the keep-partial argument, the list starts with "--progress"
      and ends with source and destination, each with its trailing slash,
      and no other argument is built as a path; with keep-partial on, the
      keep-partial argument comes right after the front part, before the
      paths. In the job's own list that argument is " --partial", which
      rsync takes for one more path (PartialAsWritten). */
  lemma ArgumentsFrame(s: Settings, src: string, dest: string, partial: Arg)
    requires !partial.Path?
    ensures Framed(BuildArguments(s, src, dest, partial), Flag(Progress), Path(Slashed(src)), Path(Slashed(dest)))
    ensures s.keepPartial ==>
              |Front(s)| < |BuildArguments(s, src, dest, partial)| - 2 &&
              BuildArguments(s, src, dest, partial)[|Front(s)|] == partial
  {
    Parts(s, src, dest, partial);
    if s.keepPartial {
      Middle(Front(s), Partials(s, partial), Back(s, src, dest), 0);
    }
    FrontNoPath(s, partial);
    FramedBy(Front(s), Partials(s, partial), Back(s, src, dest),
             Flag(Progress), Path(Slashed(src)), Path(Slashed(dest)));
  }

  /** In the front part, "--archive" and the preservation switches come only
      from the preservation block. */
  lemma FrontPreservation(s: Settings)
    ensures forall a {:trigger a in Front(s)} {:trigger a in Preservation(s)} :: a in Front(s) && (RoleOf(a) == ArchiveRole || RoleOf(a) == PreservingRole) <==>
                        a in Preservation(s)
  {
  }

  /** Outside the front part there is no "--archive" and no preservation
      switch, whatever `partial` is, as long as it is neither. */
  lemma PreservationOnlyInFront(s: Settings, src: string, dest: string, partial: Arg)
    requires RoleOf(partial) != ArchiveRole && RoleOf(partial) != PreservingRole
    ensures forall a {:trigger a in Partials(s, partial)} {:trigger a in Back(s, src, dest)} ::
              a in Partials(s, partial) || a in Back(s, src, dest) ==>
                        RoleOf(a) != ArchiveRole && RoleOf(a) != PreservingRole
  {
  }

  /** "--archive" and the preservation switches in the list are those of the
      preservation block, whatever the keep-partial argument, as long as it
      is neither. */
  lemma PreservationInArguments(s: Settings, src: string, dest: string, partial: Arg)
    requires RoleOf(partial) != ArchiveRole && RoleOf(partial) != PreservingRole
    ensures forall a {:trigger a in BuildArguments(s, src, dest, partial)} {:trigger a in Preservation(s)} ::
              RoleOf(a) == ArchiveRole || RoleOf(a) == PreservingRole ==>
                        (a in BuildArguments(s, src, dest, partial) <==> a in Preservation(s))
  {
    FrontPreservation(s);
    PreservationOnlyInFront(s, src, dest, partial);
    PreservingFromFront(Front(s), Partials(s, partial), Back(s, src, dest), Preservation(s));
    Parts(s, src, dest, partial);
  }

  /** When only the first of three parts holds "--archive" or preservation
      switches, those of the whole list are those of the first part. */
  lemma PreservingFromFront(front: seq<Arg>, q: seq<Arg>, back: seq<Arg>, p: seq<Arg>)
    requires forall a {:trigger a in front} {:trigger a in p} :: a in front && (RoleOf(a) == ArchiveRole || RoleOf(a) == PreservingRole) <==> a in p
    requires forall a {:trigger a in q} {:trigger a in back} :: a in q || a in back ==> RoleOf(a) != ArchiveRole && RoleOf(a) != PreservingRole
    ensures forall a {:trigger a in front + q + back} {:trigger a in p} ::
              RoleOf(a) == ArchiveRole || RoleOf(a) == PreservingRole ==>
                        (a in front + q + back <==> a in p)
  {
    forall a | RoleOf(a) == ArchiveRole || RoleOf(a) == PreservingRole
      ensures a in front + q + back <==> a in p
    {
      assert a in front + q + back <==> a in front || a in q || a in back;
    }
  }

  /** In archive mode "--archive" is passed and no preservation switch;
      otherwise each preservation switch is passed exactly when its setting
      is on, and "--archive" is not. */
  lemma ArchiveMode(s: Settings, src: string, dest: string, partial: Arg)
    requires RoleOf(partial) != ArchiveRole && RoleOf(partial) != PreservingRole
    ensures var r := BuildArguments(s, src, dest, partial);
      (Flag(Archive) in r <==> s.archiveMode) &&
      (s.archiveMode ==> forall f :: Preserving(f) ==> Flag(f) !in r) &&
      (!s.archiveMode ==> forall f :: Preserving(f) ==> (Flag(f) in r <==> SwitchOn(s, f)))
  {
    var r := BuildArguments(s, src, dest, partial);
    PreservationInArguments(s, src, dest, partial);
    PreservationContract(s);
    assert RoleOf(Flag(Archive)) == ArchiveRole;
    forall f | Preserving(f) ensures Flag(f) in r <==> Flag(f) in Preservation(s) {
      assert RoleOf(Flag(f)) == PreservingRole;
    }
  }

  /** The front part, split into its blocks. */
  lemma FrontBlocks(s: Settings)
    ensures Front(s) == [Flag(Progress)] + Preservation(s) + Transfer(s) + Backups(s) + Tuning(s)
  {
  }

  /** Outside archive mode "--devices" and "--specials" come together, one
      right after the other. */
  lemma DevicesAndSpecials(s: Settings, src: string, dest: string, partial: Arg)
    requires !s.archiveMode && s.preserveDevicesAndSpecials
    ensures Adjacent(BuildArguments(s, src, dest, partial), Flag(Preserve(Devices)), Flag(Preserve(Specials)))
  {
    var x, y := Flag(Preserve(Devices)), Flag(Preserve(Specials));
    PreservationContract(s);
    FrontBlocks(s);
    Parts(s, src, dest, partial);
    var a1 := [Flag(Progress)] + Preservation(s);
    var a2 := a1 + Transfer(s);
    var a3 := a2 + Backups(s);
    var front := a3 + Tuning(s);
    var fq := front + Partials(s, partial);
    AdjacentIn([Flag(Progress)], Preservation(s), x, y);
    AdjacentIn(a1, Transfer(s), x, y);
    AdjacentIn(a2, Backups(s), x, y);
    AdjacentIn(a3, Tuning(s), x, y);
    AdjacentIn(front, Partials(s, partial), x, y);
    AdjacentIn(fq, Back(s, src, dest), x, y);
  }



  /** Where a backup option sits: inside the backup block, after its first
      argument. */
  lemma BackupOptionInBackups(s: Settings, src: string, dest: string, partial: Arg, i: int)
    requires RoleOf(partial) != BackupOptionRole
    requires 0 <= i < |BuildArguments(s, src, dest, partial)| && RoleOf(BuildArguments(s, src, dest, partial)[i]) == BackupOptionRole
    ensures var a2 := [Flag(Progress)] + Preservation(s) + Transfer(s);
      |a2| < i < |a2| + |Backups(s)| && BuildArguments(s, src, dest, partial)[i] == Backups(s)[i - |a2|]
  {
    FrontBlocks(s);
    Parts(s, src, dest, partial);
    var b := Backups(s);
    var a2 := [Flag(Progress)] + Preservation(s) + Transfer(s);
    var u, q, back := Tuning(s), Partials(s, partial), Back(s, src, dest);
    assert BuildArguments(s, src, dest, partial) == a2 + b + u + q + back;
    BackupOptionsOnlyInBackups(s, src, dest, partial);
    InBlock(a2, b, u, q, back, i, BackupOptionRole);
    assert b[0] == Flag(Backup);
    assert i != |a2|;
  }

  /** No block but the backup block holds a backup directory or suffix. */
  lemma BackupOptionsOnlyInBackups(s: Settings, src: string, dest: string, partial: Arg)
    requires RoleOf(partial) != BackupOptionRole
    ensures forall x {:trigger x in [Flag(Progress)] + Preservation(s) + Transfer(s)} :: x in [Flag(Progress)] + Preservation(s) + Transfer(s) ==> RoleOf(x) != BackupOptionRole
    ensures forall x {:trigger x in Tuning(s)} :: x in Tuning(s) ==> RoleOf(x) != BackupOptionRole
    ensures forall x {:trigger x in Partials(s, partial)} :: x in Partials(s, partial) ==> RoleOf(x) != BackupOptionRole
    ensures forall x {:trigger x in Back(s, src, dest)} :: x in Back(s, src, dest) ==> RoleOf(x) != BackupOptionRole
  {
  }

  /** An argument of a list assembled from five blocks that plays a part
      only the second block plays comes from the second block. */
  lemma InBlock(a: seq<Arg>, b: seq<Arg>, u: seq<Arg>, q: seq<Arg>, back: seq<Arg>, i: int, role: Role)
    requires 0 <= i < |a + b + u + q + back| && RoleOf((a + b + u + q + back)[i]) == role
    requires forall x {:trigger x in a} :: x in a ==> RoleOf(x) != role
    requires forall x {:trigger x in u} :: x in u ==> RoleOf(x) != role
    requires forall x {:trigger x in q} :: x in q ==> RoleOf(x) != role
    requires forall x {:trigger x in back} :: x in back ==> RoleOf(x) != role
    ensures |a| <= i < |a| + |b| && (a + b + u + q + back)[i] == b[i - |a|]
  {
    InLeft(a + b + u + q, back, i, role);
    InLeft(a + b + u, q, i, role);
    InLeft(a + b, u, i, role);
    InRight(a, b, i, role);
  }


  /** A backup directory or suffix is passed only when backups are made,
      and only after "--backup"; when backups are made and they are used,
      they are passed. */
  lemma BackupOptions(s: Settings, src: string, dest: string, partial: Arg)
    requires RoleOf(partial) != BackupOptionRole
    ensures var r := BuildArguments(s, src, dest, partial);
      (forall i :: 0 <= i < |r| && RoleOf(r[i]) == BackupOptionRole ==>
         s.makeBackups && exists j :: 0 <= j < i && r[j] == Flag(Backup)) &&
      (s.makeBackups && s.useBackupDirectory ==> Option(BackupDir, s.backupDirectory) in r) &&
      (s.makeBackups && s.useBackupSuffix ==> Option(Suffix, s.backupSuffix) in r)
  {
    var r := BuildArguments(s, src, dest, partial);
    var b := Backups(s);
    var a2 := [Flag(Progress)] + Preservation(s) + Transfer(s);
    forall i | 0 <= i < |r| && RoleOf(r[i]) == BackupOptionRole
      ensures s.makeBackups && exists j :: 0 <= j < i && r[j] == Flag(Backup)
    {
      BackupOptionInBackups(s, src, dest, partial, i);
      BackupFirst(s, src, dest, partial);
    }
    FrontBlocks(s);
    Parts(s, src, dest, partial);
    InParts(Front(s), Partials(s, partial), Back(s, src, dest));
    InParts([Flag(Progress)] + Preservation(s), Transfer(s), b + Tuning(s));
  }

  /** With backups, "--backup" opens the backup block of the list. */
  lemma BackupFirst(s: Settings, src: string, dest: string, partial: Arg)
    requires s.makeBackups
    ensures var a2 := [Flag(Progress)] + Preservation(s) + Transfer(s);
      |a2| < |BuildArguments(s, src, dest, partial)| && BuildArguments(s, src, dest, partial)[|a2|] == Flag(Backup)
  {
    FrontBlocks(s);
    Parts(s, src, dest, partial);
    var b := Backups(s);
    var a2 := [Flag(Progress)] + Preservation(s) + Transfer(s);
    var front := a2 + b + Tuning(s);
    var q := Partials(s, partial);
    ShiftedBy(a2, b, 0);
    KeptIn(a2 + b, Tuning(s), |a2|);
    KeptIn(front, q, |a2|);
    KeptIn(front + q, Back(s, src, dest), |a2|);
  }


  /** The FF rule passes two "-F" in a row. */
  lemma FFRule(s: Settings, src: string, dest: string, partial: Arg)
    requires s.useFFFilterRule
    ensures Adjacent(BuildArguments(s, src, dest, partial), FilterF, FilterF)
  {
    Parts(s, src, dest, partial);
    AdjacentIn(Front(s) + Partials(s, partial), Back(s, src, dest), FilterF, FilterF);
  }



  /** Only the argument the keep-partial setting adds can be "--partial":
      neither the front part nor the back part holds it. */
  lemma PartialOutsideBlocks(s: Settings, src: string, dest: string)
    ensures Flag(Partial) !in Front(s) && Flag(Partial) !in Back(s, src, dest)
  {
    PartialRoleOf();
  }

  /** The keep-partial argument of the job's list, " --partial", and that
      of the corrected list, the "--partial" switch, both meet the premises
      of the list lemmas above, which so hold for both lists. */
  lemma KeepPartialArguments()
    ensures forall a :: a in [Word(" --partial"), Flag(Partial)] ==>
              !a.Path? && RoleOf(a) != ArchiveRole && RoleOf(a) != PreservingRole && RoleOf(a) != BackupOptionRole
  {
  }

  lemma PartialRoleOf()
    ensures RoleOf(Flag(Partial)) == PartialRole
  {
  }

  /** The keep-partial block holds "--partial" only when the setting is on
      and adds that switch. */
  lemma PartialFromSetting(s: Settings, partial: Arg)
    ensures Flag(Partial) in Partials(s, partial) ==> s.keepPartial && partial == Flag(Partial)
  {
  }

  /** As written, keeping partial files passes " --partial": a text that
      does not start with "-", which rsync takes for a path rather than a
      switch, and the "--partial" switch is never passed. */
  lemma PartialAsWritten(s: Settings, src: string, dest: string)
    requires s.keepPartial
    ensures var r := ArgumentsAsWritten(s, src, dest);
      Word(" --partial") in r && !IsOptionText(Render(Word(" --partial"))) &&
      Flag(Partial) !in r
  {
    PartialWordPassed(s, src, dest);
    PartialSwitchAbsent(s, src, dest);
    PartialWordNotOption();
  }

  /** " --partial" starts with a blank, not with "-". */
  lemma PartialWordNotOption()
    ensures !IsOptionText(Render(Word(" --partial")))
  {
  }

  /** As written, keep-partial puts " --partial" in the list. */
  lemma PartialWordPassed(s: Settings, src: string, dest: string)
    requires s.keepPartial
    ensures Word(" --partial") in ArgumentsAsWritten(s, src, dest)
  {
    var partial := Word(" --partial");
    var f, q, b := Front(s), Partials(s, partial), Back(s, src, dest);
    Parts(s, src, dest, partial);
    assert q[0] == partial;
    InMiddle(f, q, b, 0);
  }

  /** As written, the "--partial" switch is never in the list. */
  lemma PartialSwitchAbsent(s: Settings, src: string, dest: string)
    ensures Flag(Partial) !in ArgumentsAsWritten(s, src, dest)
  {
    var partial := Word(" --partial");
    Parts(s, src, dest, partial);
    PartialOutsideBlocks(s, src, dest);
    PartialFromSetting(s, partial);
    InParts(Front(s), Partials(s, partial), Back(s, src, dest));
  }

  /** An argument of the middle part is in a list assembled from three. */
  lemma InMiddle(front: seq<Arg>, q: seq<Arg>, back: seq<Arg>, i: int)
    requires 0 <= i < |q|
    ensures q[i] in front + q + back
  {
    assert (front + q + back)[|front| + i] == q[i];
  }

  /** The "--partial" switch is rendered as an option. */
  lemma PartialSwitchText()
    ensures Render(Flag(Partial)) == "--partial" && IsOptionText(Render(Flag(Partial)))
  {
  }

  /** Corrected: the "--partial" switch is passed exactly when partial files
      are kept, followed by the partial directory when one is used. */
  lemma PartialCorrected(s: Settings, src: string, dest: string)
    ensures var r := Arguments(s, src, dest);
      (Flag(Partial) in r <==> s.keepPartial) &&
      (s.keepPartial && s.usePartialDirectory ==>
         Adjacent(r, Flag(Partial), Option(PartialDir, s.partialDirectory)))
  {
    PartialPassed(s, src, dest);
    if s.keepPartial && s.usePartialDirectory {
      PartialDirectoryFollows(s, src, dest);
    }
  }


  /** The "--partial" switch is passed exactly when partial files are kept. */
  lemma PartialPassed(s: Settings, src: string, dest: string)
    ensures Flag(Partial) in Arguments(s, src, dest) <==> s.keepPartial
  {
    var q := Partials(s, Flag(Partial));
    Parts(s, src, dest, Flag(Partial));
    InParts(Front(s), q, Back(s, src, dest));
    PartialOutsideBlocks(s, src, dest);
    PartialFromSetting(s, Flag(Partial));
    if s.keepPartial {
      assert q[0] in q;
    }
  }

  /** The partial directory comes right after the "--partial" switch. */
  lemma PartialDirectoryFollows(s: Settings, src: string, dest: string)
    requires s.keepPartial && s.usePartialDirectory
    ensures Adjacent(Arguments(s, src, dest), Flag(Partial), Option(PartialDir, s.partialDirectory))
  {
    var x, y := Flag(Partial), Option(PartialDir, s.partialDirectory);
    var q := Partials(s, x);
    Parts(s, src, dest, x);
    AdjacentIn(Front(s), q, x, y);
    AdjacentIn(Front(s) + q, Back(s, src, dest), x, y);
  }



  /** Slashing is idempotent. */
  lemma SlashedIdempotent(p: string)
    ensures Slashed(Slashed(p)) == Slashed(p)
  {
  }

  // ---------------------------------------------------------------------
  // Progress on standard output

  /** Files processed and files in total, as the job reports them. */
  datatype Counts = Counts(processed: int, total: int)

  const ULONG_RANGE: int := 0x1_0000_0000_0000_0000

  /** "a/b" read as two toLongLong numbers; processed is b - a and total is
      b, both as unsigned 64-bit values. */
  function CountsOf(tmp: string): Option<Counts> {
    var files := ToInt64(Trimmed(Section(tmp, "/", 0)));
    var total := ToInt64(Trimmed(Section(tmp, "/", 1)));
    if files.Some? && total.Some? then
      Some(Counts((total.value - files.value) % ULONG_RANGE, total.value % ULONG_RANGE))
    else None
  }

  /** The key of the progress text, in the order the job tries them. */
  function ProgressKey(line: string): Option<string> {
    if Contains(line, " to-check=") then Some(" to-check=")
    else if Contains(line, " to-chk=") then Some(" to-chk=")
    else if Contains(line, " ir-chk=") then Some(" ir-chk=")
    else None
  }

  /** The counts one output line carries: only a line that starts with
      white space and names a key, and only when both numbers parse. */
  function LineCounts(line: string): (r: Option<Counts>)
    ensures r.Some? ==> line != [] && IsSpace(line[0]) && ProgressKey(line).Some?
    ensures r.Some? ==> 0 <= r.value.processed < ULONG_RANGE && 0 <= r.value.total < ULONG_RANGE
  {
    if line != [] && IsSpace(line[0]) then
      match ProgressKey(line)
      case Some(key) => CountsOf(Trimmed(Section(Section(line, key, 1), ")", 0)))
      case None => None
    else None
  }

  /** The counts after the lines of one read, starting from `c`: those of
      the last line that carries any. */
  function LastCounts(c: Counts, lines: seq<string>): Counts
    decreases |lines|
  {
    if lines == [] then c
    else
      var before := LastCounts(c, lines[..|lines| - 1]);
      match LineCounts(lines[|lines| - 1])
      case Some(n) => n
      case None => before
  }

  /** A read none of whose lines carries counts leaves them unchanged. */
  lemma {:induction false} LastCountsNone(c: Counts, lines: seq<string>)
    requires forall i :: 0 <= i < |lines| ==> LineCounts(lines[i]).None?
    ensures LastCounts(c, lines) == c
    decreases |lines|
  {
    if lines != [] {
      var init := lines[..|lines| - 1];
      assert forall i :: 0 <= i < |init| ==> init[i] == lines[i];
      LastCountsNone(c, init);
    }
  }

  /** Otherwise the counts are those of the last line that carries some. */
  lemma {:induction false} LastCountsLast(c: Counts, lines: seq<string>, i: int)
    requires 0 <= i < |lines| && LineCounts(lines[i]).Some?
    requires forall j :: i < j < |lines| ==> LineCounts(lines[j]).None?
    ensures LastCounts(c, lines) == LineCounts(lines[i]).value
    decreases |lines|
  {
    var init := lines[..|lines| - 1];
    if i < |lines| - 1 {
      assert forall j :: 0 <= j < |init| ==> init[j] == lines[j];
      LastCountsLast(c, init, i);
    }
  }

  /** A file count "a/b" that fits toLongLong is read back as b - a files
      processed out of b. */
  lemma CountsRoundTrip(a: int, b: int)
    requires 0 <= a <= b <= INT64_MAX
    ensures CountsOf(IntToString(a) + "/" + IntToString(b)) == Some(Counts(b - a, b))
  {
    CountsText(a, b);
    CountsOfFields(IntToString(a) + "/" + IntToString(b), a, b);
    UnsignedSmall(b - a);
    UnsignedSmall(b);
  }

  /** When more files remain than there are in total, the unsigned
      subtraction wraps round. */
  lemma CountsWrap(a: int, b: int)
    requires 0 <= b < a <= INT64_MAX
    ensures CountsOf(IntToString(a) + "/" + IntToString(b)) == Some(Counts(b - a + ULONG_RANGE, b))
  {
    CountsText(a, b);
    CountsOfFields(IntToString(a) + "/" + IntToString(b), a, b);
    UnsignedWrap(b - a);
    UnsignedSmall(b);
  }

  /** A progress line, white space first, then a key and "a/b)" with no
      other "=" in it, carries b - a files processed out of b, the
      subtraction wrapping round as an unsigned 64-bit value. */
  lemma ProgressLineCounts(lead: string, key: string, a: int, b: int, tail: string)
    requires key == " to-check=" || key == " to-chk=" || key == " ir-chk="
    requires lead != [] && IsSpace(lead[0]) && '=' !in lead && '=' !in tail
    requires 0 <= a <= INT64_MAX && 0 <= b <= INT64_MAX
    ensures var line := lead + key + IntToString(a) + "/" + IntToString(b) + ")" + tail;
      ProgressKey(line) == Some(key) &&
      LineCounts(line) == Some(Counts(if a <= b then b - a else b - a + ULONG_RANGE, b))
  {
    var fields := IntToString(a) + "/" + IntToString(b);
    var rest := fields + ")" + tail;
    var line := lead + key + rest;
    assert line == lead + key + IntToString(a) + "/" + IntToString(b) + ")" + tail;
    CountsField(a, b, tail);
    KeyedLine(lead, key, rest);
    if a <= b {
      CountsRoundTrip(a, b);
    } else {
      CountsWrap(a, b);
    }
  }

  /** In white space, a key and a rest with no other "=", that key is the
      one the job picks, and the text after it is the rest. */
  lemma KeyedLine(lead: string, key: string, rest: string)
    requires key == " to-check=" || key == " to-chk=" || key == " ir-chk="
    requires lead != [] && IsSpace(lead[0]) && '=' !in lead && '=' !in rest
    ensures ProgressKey(lead + key + rest) == Some(key)
    ensures Section(lead + key + rest, key, 1) == rest
  {
    var line := lead + key + rest;
    var e := |lead| + |key| - 1;
    assert EqualsOnlyAt(line, e) by {
      assert forall t :: 0 <= t < |key| - 1 ==> key[t] != '=';
      assert forall i :: 0 <= i < |lead| ==> line[i] == lead[i];
      assert forall i :: |lead| <= i < |lead| + |key| ==> line[i] == key[i - |lead|];
      assert forall i :: |lead| + |key| <= i < |line| ==> line[i] == rest[i - |lead| - |key|];
    }
    assert line[|lead|..|lead| + |key|] == key;
    forall j | OccursAt(line, key, j) ensures j == |lead| {
      KeyEnd(line, key, j, e);
    }
    KeyFirst(line, key, |lead|);
    if key != " to-check=" {
      OtherKeyAbsent(line, " to-check=", key, e);
    }
    if key == " ir-chk=" {
      OtherKeyAbsent(line, " to-chk=", key, e);
    }
    assert line[e + 1..] == rest;
    NoKey(rest, key);
  }

  /** "a/b)" followed by a tail without "=" has no "=", and its text up
      to the ")" is "a/b" with nothing to trim. */
  lemma CountsField(a: int, b: int, tail: string)
    requires 0 <= a && 0 <= b && '=' !in tail
    ensures var fields := IntToString(a) + "/" + IntToString(b);
      '=' !in fields + ")" + tail &&
      Trimmed(Section(fields + ")" + tail, ")", 0)) == fields
  {
    var x, y := IntToString(a), IntToString(b);
    var fields := x + "/" + y;
    var rest := fields + ")" + tail;
    NoSlash(a);
    NoSlash(b);
    assert fields == x + ['/'] + y;
    IndexOfChar(fields, ')', tail);
    assert rest == fields + [')'] + tail;
    assert Section(rest, ")", 0) == fields by {
      assert rest[..|fields|] == fields;
    }
    assert Trimmed(fields) == fields by {
      assert fields[0] == x[0] && fields[|fields| - 1] == y[|y| - 1];
    }
  }

  /** Only index `e` of `line` holds "=". */
  predicate EqualsOnlyAt(line: string, e: int) {
    forall i :: 0 <= i < |line| && line[i] == '=' ==> i == e
  }

  /** A key ending in "=" can occur only where it ends at the one "=". */
  lemma KeyEnd(line: string, p: string, j: int, e: int)
    requires EqualsOnlyAt(line, e) && OccursAt(line, p, j)
    requires p != [] && p[|p| - 1] == '='
    ensures j == e - |p| + 1
  {
    assert line[j + |p| - 1] == line[j..j + |p|][|p| - 1];
  }

  /** A key that occurs only once is found there. */
  lemma KeyFirst(line: string, key: string, j0: nat)
    requires OccursAt(line, key, j0)
    requires forall j :: OccursAt(line, key, j) ==> j == j0
    ensures IndexOf(line, key) == Some(j0)
  {
  }

  /** A key that does not end in `key` cannot occur where `key` ends at
      the one "=". */
  lemma OtherKeyAbsent(line: string, q: string, key: string, e: int)
    requires EqualsOnlyAt(line, e) && OccursAt(line, key, e - |key| + 1)
    requires q != [] && q[|q| - 1] == '=' && |key| <= |q| && q[|q| - |key|..] != key
    ensures !Contains(line, q)
  {
    if Contains(line, q) {
      var j := IndexOf(line, q).value;
      KeyEnd(line, q, j, e);
    }
  }

  lemma NoKey(s: string, key: string)
    requires '=' !in s && key != [] && key[|key| - 1] == '='
    ensures IndexOf(s, key).None?
  {
  }

  /** The counts of a text whose two fields read as a and b. */
  lemma CountsOfFields(tmp: string, a: int, b: int)
    requires ToInt64(Trimmed(Section(tmp, "/", 0))) == Some(a)
    requires ToInt64(Trimmed(Section(tmp, "/", 1))) == Some(b)
    ensures CountsOf(tmp) == Some(Counts((b - a) % ULONG_RANGE, b % ULONG_RANGE))
  {
  }

  /** A value already in the unsigned range keeps its value. */
  lemma UnsignedSmall(x: int)
    requires 0 <= x < ULONG_RANGE
    ensures x % ULONG_RANGE == x
  {
  }

  /** A negative value within one range of zero wraps round once. */
  lemma UnsignedWrap(x: int)
    requires -ULONG_RANGE <= x < 0
    ensures x % ULONG_RANGE == x + ULONG_RANGE
  {
  }

  /** The two fields of "a/b" parse back as a and b. */
  lemma CountsText(a: int, b: int)
    requires 0 <= a <= INT64_MAX && 0 <= b <= INT64_MAX
    ensures var tmp := IntToString(a) + "/" + IntToString(b);
      ToInt64(Trimmed(Section(tmp, "/", 0))) == Some(a) &&
      ToInt64(Trimmed(Section(tmp, "/", 1))) == Some(b)
  {
    var x, y := IntToString(a), IntToString(b);
    var tmp := x + "/" + y;
    NoSlash(a);
    NoSlash(b);
    assert tmp == x + ['/'] + y;
    IndexOfChar(x, '/', y);
    assert Section(tmp, "/", 0) == x by {
      assert tmp[..|x|] == x;
    }
    assert Section(tmp, "/", 1) == y by {
      assert tmp[|x| + 1..] == y;
      IndexOfNone(y, '/');
      assert Section(tmp, "/", 1) == Section(y, "/", 0);
    }
    assert ToInt64(Trimmed(x)) == Some(a) by {
      TrimmedNumber(a);
      ParseIntToString(a);
    }
    assert ToInt64(Trimmed(y)) == Some(b) by {
      TrimmedNumber(b);
      ParseIntToString(b);
    }
  }

  /** A non-negative number is written with digits only. */
  lemma NoSlash(n: nat)
    ensures '/' !in IntToString(n) && ')' !in IntToString(n) && '=' !in IntToString(n)
    ensures |IntToString(n)| > 0
    ensures !IsSpace(IntToString(n)[0]) && !IsSpace(IntToString(n)[|IntToString(n)| - 1])
  {
    var d := NatToString(n);
    forall i | 0 <= i < |d| ensures d[i] != '/' && d[i] != ')' && d[i] != '=' && !IsSpace(d[i]) {
      assert IsDigit(d[i]);
    }
  }

  lemma TrimmedNumber(n: nat)
    ensures Trimmed(IntToString(n)) == IntToString(n)
  {
    NoSlash(n);
  }

  /** The first "c" of a + [c] + b is the one after a. */
  lemma IndexOfChar(a: string, c: char, b: string)
    requires c !in a
    ensures IndexOf(a + [c] + b, [c]) == Some(|a|)
  {
    var s := a + [c] + b;
    assert s[|a|..|a| + 1] == [c];
    assert OccursAt(s, [c], |a|);
    forall j | 0 <= j < |a| ensures !OccursAt(s, [c], j) {
      assert s[j..j + 1][0] == s[j] == a[j];
    }
    var r := IndexOf(s, [c]);
    assert r.Some?;
    assert !(r.value < |a|);
    assert !(r.value > |a|);
  }

  lemma IndexOfNone(s: string, c: char)
    requires c !in s
    ensures IndexOf(s, [c]).None?
  {
    forall j | 0 <= j && j + 1 <= |s| ensures !OccursAt(s, [c], j) {
      assert s[j..j + 1][0] == s[j];
    }
  }

  // ---------------------------------------------------------------------
  // Failure on standard error

  /** The read from standard error is a failure when the process was not
      aborted already and the trimmed text reports an rsync error other
      than code 23 (some files were not transferred). */
  predicate IsFailure(aborted: bool, stdErr: string) {
    var text := Trimmed(stdErr);
    !aborted && Contains(text, "rsync error:") && !Contains(text, "(code 23)")
  }

  /** What the job keeps: the counts, whether the process was aborted, and
      the failure notifications raised, each with its text. */
  datatype JobState = JobState(counts: Counts, aborted: bool, failures: seq<string>)

  /** slotReadStandardOutput on the counts. */
  function OutputStep(st: JobState, stdOut: string): JobState {
    st.(counts := LastCounts(st.counts, SplitSkipEmpty(stdOut, '\n')))
  }

  /** slotReadStandardError: a failure aborts the process and raises one
      notification; anything else changes nothing. */
  function ErrorStep(st: JobState, stdErr: string): (r: JobState)
    ensures r.counts == st.counts
    ensures r.aborted <==> st.aborted || IsFailure(st.aborted, stdErr)
    ensures IsFailure(st.aborted, stdErr) ==> r.failures == st.failures + [Trimmed(stdErr)]
    ensures !IsFailure(st.aborted, stdErr) ==> r == st
  {
    if IsFailure(st.aborted, stdErr) then
      st.(aborted := true, failures := st.failures + [Trimmed(stdErr)])
    else st
  }

  /** Once aborted, no read from standard error raises another
      notification; and code 23 never aborts. */
  lemma ErrorStepQuiet(st: JobState, stdErr: string)
    ensures st.aborted ==> ErrorStep(st, stdErr) == st
    ensures Contains(Trimmed(stdErr), "(code 23)") ==> ErrorStep(st, stdErr) == st
    ensures ErrorStep(ErrorStep(st, stdErr), stdErr).failures == ErrorStep(st, stdErr).failures
  {
  }

  /** The lines of one read applied in turn. */
  method ApplyLines(c: Counts, lines: seq<string>) returns (r: Counts)
    ensures r == LastCounts(c, lines)
  {
    r := c;
    var i := 0;
    while i < |lines|
      invariant 0 <= i <= |lines|
      invariant r == LastCounts(c, lines[..i])
    {
      assert lines[..i + 1][..i] == lines[..i];
      var n := LineCounts(lines[i]);
      if n.Some? {
        r := n.value;
      }
      i := i + 1;
    }
    assert lines[..i] == lines;
  }

  /** A synchronization job once rsync runs. */
  class SyncJob {
    var counts: Counts
    var aborted: bool
    var failures: seq<string>

    function State(): JobState
      reads this
    {
      JobState(counts, aborted, failures)
    }

    constructor()
      ensures State() == JobState(Counts(0, 0), false, [])
    {
      counts := Counts(0, 0);
      aborted := false;
      failures := [];
    }

    method ReadStandardOutput(stdOut: string)
      modifies this
      ensures State() == OutputStep(old(State()), stdOut)
    {
      counts := ApplyLines(counts, SplitSkipEmpty(stdOut, '\n'));
    }

    method ReadStandardError(stdErr: string)
      modifies this
      ensures State() == ErrorStep(old(State()), stdErr)
    {
      var text := Trimmed(stdErr);
      if !aborted && Contains(text, "rsync error:") && !Contains(text, "(code 23)") {
        aborted := true;
        failures := failures + [text];
      }
    }
  }
}
