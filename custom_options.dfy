/** The custom-options table of the Samba configuration page: each
    host or share entry becomes a row of texts (insertCustomOptions), and
    each row is read back into an entry (getCustomOptions). Translated
    texts are taken as their untranslated originals; the account database
    that names a user or group id is an input. Only the build for systems
    other than FreeBSD is modelled. */
module CustomOptions {
  import opened Common
  import opened Text

  datatype RowKind = HostRow | ShareRow

  datatype SambaProtocol = Automatic | RPC | RAP | ADS | UndefinedProtocol

  datatype WriteAccess = ReadWrite | ReadOnly | UndefinedWriteAccess

  datatype Kerberos = UseKerberos | NoKerberos | UndefinedKerberos

  /** The custom options of one host or share. */
  datatype OptionsInfo = OptionsInfo(kind: RowKind, unc: string, protocol: SambaProtocol,
                                     writeAccess: WriteAccess, kerberos: Kerberos,
                                     uid: int, gid: int, port: int)

  /** The global settings the table falls back to. A protocol hint or write
      access outside the listed choices is UndefinedProtocol or
      UndefinedWriteAccess. */
  datatype Defaults = Defaults(protocolHint: SambaProtocol, writeAccess: WriteAccess,
                               useKerberos: bool, smbPort: int, fileSystemPort: int)

  /** The account database: the login name of a user id and the name of a
      group id, and whether an account exists for the id at all. */
  datatype Accounts = Accounts(userName: int -> string, groupName: int -> string,
                               userKnown: int -> bool, groupKnown: int -> bool)

  /** The id that KUser and KUserGroup report when no account has the id
      they were built from: (uid_t)-1 and (gid_t)-1. */
  const NO_ACCOUNT_ID: int := 0xFFFF_FFFF

  /** One row of the table: its kind and the text of each column. */
  datatype Row = Row(kind: RowKind, name: string, protocol: string, writeAccess: string,
                     kerberos: string, uid: string, gid: string, port: string)

  /** What an entry reads back as; the user and group ids are read only from
      share rows. */
  datatype Decoded = Decoded(unc: string, protocol: SambaProtocol, writeAccess: WriteAccess,
                             kerberos: Kerberos, uid: Option<int>, gid: Option<int>, port: int)

  // ---------------------------------------------------------------------
  // Encoding

  /** The text of a protocol; the protocol hint of the settings uses the
      same texts and is empty for any other choice. */
  function ProtocolText(p: SambaProtocol): string {
    match p
      case Automatic => "automatic"
      case RPC => "RPC"
      case RAP => "RAP"
      case ADS => "ADS"
      case UndefinedProtocol => ""
  }

  /** An undefined protocol shows the hint, or "-" without one. */
  function EncodeProtocol(p: SambaProtocol, hint: SambaProtocol): string {
    if p != UndefinedProtocol then ProtocolText(p)
    else if ProtocolText(hint) != "" then ProtocolText(hint)
    else "-"
  }

  /** The text of a write access; empty for an undefined one (the default
      text is left unassigned then). */
  function WriteAccessText(w: WriteAccess): string {
    match w
      case ReadWrite => "read-write"
      case ReadOnly => "read-only"
      case UndefinedWriteAccess => ""
  }

  /** An undefined write access shows the default. */
  function EncodeWriteAccess(w: WriteAccess, default: WriteAccess): string {
    if w != UndefinedWriteAccess then WriteAccessText(w) else WriteAccessText(default)
  }

  /** An undefined Kerberos choice shows the global "yes" or "no". */
  function EncodeKerberos(k: Kerberos, useKerberos: bool): string {
    match k
      case UseKerberos => "yes"
      case NoKerberos => "no"
      case UndefinedKerberos => if useKerberos then "yes" else "no"
  }

  /** Port -1 shows the default port. */
  function EncodePort(port: int, default: int): string {
    IntToString(if port != -1 then port else default)
  }

  /** "name (id)". */
  function IdText(name: string, id: int): string {
    name + " (" + IntToString(id) + ")"
  }

  /** The id an account object reports for `id`. */
  function AccountId(known: bool, id: int): int {
    if known then id else NO_ACCOUNT_ID
  }

  /** One entry's row. */
  function EncodeRow(o: OptionsInfo, d: Defaults, a: Accounts): Row {
    match o.kind
      case HostRow =>
        Row(HostRow, o.unc, EncodeProtocol(o.protocol, d.protocolHint), "-",
            EncodeKerberos(o.kerberos, d.useKerberos), "-", "-", EncodePort(o.port, d.smbPort))
      case ShareRow =>
        Row(ShareRow, o.unc, "-", EncodeWriteAccess(o.writeAccess, d.writeAccess), "-",
            IdText(a.userName(o.uid), AccountId(a.userKnown(o.uid), o.uid)),
            IdText(a.groupName(o.gid), AccountId(a.groupKnown(o.gid), o.gid)),
            EncodePort(o.port, d.fileSystemPort))
  }

  // ---------------------------------------------------------------------
  // Decoding

  /** Case-insensitive protocol texts; anything else is undefined. */
  function DecodeProtocol(t: string): SambaProtocol {
    if EqualsIgnoreCase(t, "automatic") then Automatic
    else if EqualsIgnoreCase(t, "RPC") then RPC
    else if EqualsIgnoreCase(t, "RAP") then RAP
    else if EqualsIgnoreCase(t, "ADS") then ADS
    else UndefinedProtocol
  }

  function DecodeWriteAccess(t: string): WriteAccess {
    if EqualsIgnoreCase(t, "read-write") then ReadWrite
    else if EqualsIgnoreCase(t, "read-only") then ReadOnly
    else UndefinedWriteAccess
  }

  function DecodeKerberos(t: string): Kerberos {
    if EqualsIgnoreCase(t, "yes") then UseKerberos
    else if EqualsIgnoreCase(t, "no") then NoKerberos
    else UndefinedKerberos
  }

  /** section("(", 1, 1).section(")", 0, 0): the text after the first "("
      up to the next "(" and then up to the first ")". */
  function IdField(t: string): string {
    BeforeFirst(BeforeFirst(AfterFirst(t, '('), '('), ')')
  }

  /** The cast to the unsigned 32-bit id type: negative values wrap. */
  function AsId(v: int): (r: int)
    ensures 0 <= r < 0x1_0000_0000
    ensures 0 <= v < 0x1_0000_0000 ==> r == v
    ensures v < 0 && -0x1_0000_0000 <= v ==> r == v + 0x1_0000_0000
  {
    v % 0x1_0000_0000
  }

  /** The field converted with toInt (0 when that fails) and cast to the id
      type. */
  function DecodeId(t: string): int {
    AsId(ToIntOrZero(IdField(t)))
  }

  function DecodeRow(r: Row): Decoded {
    Decoded(r.name, DecodeProtocol(r.protocol), DecodeWriteAccess(r.writeAccess),
            DecodeKerberos(r.kerberos),
            if r.kind == ShareRow then Some(DecodeId(r.uid)) else None,
            if r.kind == ShareRow then Some(DecodeId(r.gid)) else None,
            ToIntOrZero(r.port))
  }

  // ---------------------------------------------------------------------
  // Properties

  /** The protocol texts are recognised whatever their case, and every
      other text is undefined. */
  lemma DecodeProtocolContract(t: string)
    ensures DecodeProtocol(t) == Automatic <==> EqualsIgnoreCase(t, "automatic")
    ensures DecodeProtocol(t) == RPC <==> EqualsIgnoreCase(t, "RPC")
    ensures DecodeProtocol(t) == RAP <==> EqualsIgnoreCase(t, "RAP")
    ensures DecodeProtocol(t) == ADS <==> EqualsIgnoreCase(t, "ADS")
  {
    assert ToUpper("RPC") == "RPC" && ToUpper("RAP") == "RAP" && ToUpper("ADS") == "ADS";
    assert ToUpper("RPC")[1] != ToUpper("RAP")[1];
    assert ToUpper("RPC")[0] != ToUpper("ADS")[0] && ToUpper("RAP")[0] != ToUpper("ADS")[0];
  }

  /** Every explicit protocol survives the round trip. */
  lemma ProtocolRoundTrip(p: SambaProtocol, hint: SambaProtocol)
    requires p != UndefinedProtocol
    ensures DecodeProtocol(EncodeProtocol(p, hint)) == p
  {
    ExplicitProtocolRoundTrip(p);
  }

  lemma ExplicitProtocolRoundTrip(p: SambaProtocol)
    ensures DecodeProtocol(ProtocolText(p)) == p
  {
    assert ToUpper("RPC") == "RPC" && ToUpper("RAP") == "RAP" && ToUpper("ADS") == "ADS";
    assert ToUpper("RPC")[1] != ToUpper("RAP")[1];
    if p == UndefinedProtocol {
      assert ProtocolText(p) == "";
      assert |ToUpper("")| == 0;
    }
  }

  /** An undefined protocol reads back as the hint's protocol: undefined
      again only when there is no hint ("-"). */
  lemma UndefinedProtocolRoundTrip(hint: SambaProtocol)
    ensures DecodeProtocol(EncodeProtocol(UndefinedProtocol, hint)) == hint
  {
    ExplicitProtocolRoundTrip(hint);
    if hint == UndefinedProtocol {
      assert EncodeProtocol(UndefinedProtocol, hint) == "-";
      assert ToUpper("-") == "-";
    }
  }

  lemma WriteAccessDecoding(t: string)
    ensures DecodeWriteAccess(t) == ReadWrite <==> EqualsIgnoreCase(t, "read-write")
    ensures DecodeWriteAccess(t) == ReadOnly <==> EqualsIgnoreCase(t, "read-only")
  {
    assert ToUpper("read-write")[5] != ToUpper("read-only")[5];
  }

  /** An explicit write access survives; an undefined one reads back as the
      default setting. */
  lemma WriteAccessRoundTrip(w: WriteAccess, default: WriteAccess)
    ensures DecodeWriteAccess(EncodeWriteAccess(w, default)) ==
              if w != UndefinedWriteAccess then w else default
  {
    var t := EncodeWriteAccess(w, default);
    assert ToUpper("read-write")[5] != ToUpper("read-only")[5];
    if t == "" {
      assert |ToUpper("")| == 0;
    }
  }

  lemma KerberosDecoding(t: string)
    ensures DecodeKerberos(t) == UseKerberos <==> EqualsIgnoreCase(t, "yes")
    ensures DecodeKerberos(t) == NoKerberos <==> EqualsIgnoreCase(t, "no")
  {
  }

  /** On a host row an undefined Kerberos choice reads back as the global
      setting, never as undefined. */
  lemma KerberosRoundTrip(k: Kerberos, useKerberos: bool)
    ensures DecodeKerberos(EncodeKerberos(k, useKerberos)) ==
              if k != UndefinedKerberos then k else if useKerberos then UseKerberos else NoKerberos
    ensures DecodeKerberos(EncodeKerberos(k, useKerberos)) != UndefinedKerberos
  {
  }

  /** A port in range survives; -1 reads back as the default port. */
  lemma PortRoundTrip(port: int, default: int)
    requires INT32_MIN <= port <= INT32_MAX && INT32_MIN <= default <= INT32_MAX
    ensures ToIntOrZero(EncodePort(port, default)) == if port != -1 then port else default
  {
    ToInt32OfIntToString(if port != -1 then port else default);
  }

  /** The id field of "name (digits)" is the digits when the name has no "(". */
  lemma IdFieldOf(name: string, digits: string)
    requires '(' !in name
    requires '(' !in digits && ')' !in digits
    ensures IdField(name + " (" + digits + ")") == digits
  {
    var t := name + " (" + digits + ")";
    assert t == (name + [' ']) + ['('] + (digits + [')']);
    SplitFirst(name + [' '], '(', digits + [')']);
    SplitNone(digits + [')'], '(');
    assert digits + [')'] == digits + [')'] + [];
    SplitFirst(digits, ')', []);
  }

  /** "name (id)" reads back as the id when the name has no "(" and the id
      fits toInt's range. */
  lemma IdRoundTrip(name: string, id: int)
    requires '(' !in name
    requires 0 <= id <= INT32_MAX
    ensures DecodeId(IdText(name, id)) == id
  {
    var digits := IntToString(id);
    DigitsOnly(id);
    IdFieldOf(name, digits);
    assert IdText(name, id) == name + " (" + digits + ")";
    assert ToIntOrZero(digits) == id by {
      ToInt32OfIntToString(id);
    }
  }

  /** The id an account reports reads back as the id when an account has
      it and the id fits toInt's range, and as 0 otherwise: (uid_t)-1 and
      every id above 2^31 - 1 are beyond toInt's range. */
  lemma AccountIdRoundTrip(name: string, known: bool, id: int)
    requires '(' !in name
    requires 0 <= id <= NO_ACCOUNT_ID
    ensures DecodeId(IdText(name, AccountId(known, id))) ==
              if known && id <= INT32_MAX then id else 0
  {
    var shown := AccountId(known, id);
    if shown <= INT32_MAX {
      IdRoundTrip(name, shown);
    } else {
      var digits := IntToString(shown);
      DigitsOnly(shown);
      IdFieldOf(name, digits);
      assert IdText(name, shown) == name + " (" + digits + ")";
      ParseIntToString(shown);
      assert ToIntOrZero(digits) == 0;
    }
  }

  /** A non-negative number is written without parentheses. */
  lemma DigitsOnly(id: nat)
    ensures '(' !in IntToString(id) && ')' !in IntToString(id)
  {
    var digits := NatToString(id);
    forall i | 0 <= i < |digits| ensures digits[i] != '(' && digits[i] != ')' {
      assert IsDigit(digits[i]);
    }
  }

  /** Share rows carry "-" for protocol and Kerberos, which read back as
      undefined; host rows carry "-" for write access. */
  lemma DashIsUndefined()
    ensures DecodeProtocol("-") == UndefinedProtocol
    ensures DecodeKerberos("-") == UndefinedKerberos
    ensures DecodeWriteAccess("-") == UndefinedWriteAccess
  {
    assert ToUpper("-") == "-";
  }

  /** What an entry reads back as after a trip through the table: undefined
      choices take the defaults the table showed, columns a row kind does
      not show read back as undefined, an id with no account or above
      2^31 - 1 reads back as 0, and port -1 becomes the default. */
  function RoundTripped(o: OptionsInfo, d: Defaults, a: Accounts): Decoded {
    match o.kind
      case HostRow =>
        Decoded(o.unc, if o.protocol != UndefinedProtocol then o.protocol else d.protocolHint,
                UndefinedWriteAccess,
                if o.kerberos != UndefinedKerberos then o.kerberos
                else if d.useKerberos then UseKerberos else NoKerberos,
                None, None, if o.port != -1 then o.port else d.smbPort)
      case ShareRow =>
        Decoded(o.unc, UndefinedProtocol,
                if o.writeAccess != UndefinedWriteAccess then o.writeAccess else d.writeAccess,
                UndefinedKerberos, Some(if a.userKnown(o.uid) && o.uid <= INT32_MAX then o.uid else 0),
                Some(if a.groupKnown(o.gid) && o.gid <= INT32_MAX then o.gid else 0),
                if o.port != -1 then o.port else d.fileSystemPort)
  }

  /** Reading a row back gives the entry with exactly the losses above. */
  lemma RowRoundTrip(o: OptionsInfo, d: Defaults, a: Accounts)
    requires 0 <= o.uid <= NO_ACCOUNT_ID && 0 <= o.gid <= NO_ACCOUNT_ID
    requires '(' !in a.userName(o.uid) && '(' !in a.groupName(o.gid)
    requires INT32_MIN <= o.port <= INT32_MAX
    requires INT32_MIN <= d.smbPort <= INT32_MAX && INT32_MIN <= d.fileSystemPort <= INT32_MAX
    ensures DecodeRow(EncodeRow(o, d, a)) == RoundTripped(o, d, a)
  {
    DashIsUndefined();
    match o.kind {
      case HostRow =>
        if o.protocol != UndefinedProtocol {
          ProtocolRoundTrip(o.protocol, d.protocolHint);
        } else {
          UndefinedProtocolRoundTrip(d.protocolHint);
        }
        KerberosRoundTrip(o.kerberos, d.useKerberos);
        PortRoundTrip(o.port, d.smbPort);
      case ShareRow =>
        WriteAccessRoundTrip(o.writeAccess, d.writeAccess);
        AccountIdRoundTrip(a.userName(o.uid), a.userKnown(o.uid), o.uid);
        AccountIdRoundTrip(a.groupName(o.gid), a.groupKnown(o.gid), o.gid);
        PortRoundTrip(o.port, d.fileSystemPort);
    }
  }

  /** The UNC, the ids of a share that have accounts and fit toInt's range,
      a real port and an explicit host protocol come back unchanged; any
      other id comes back as 0, and a host's Kerberos choice never as
      undefined. */
  lemma RoundTripStable(o: OptionsInfo, d: Defaults, a: Accounts)
    ensures RoundTripped(o, d, a).unc == o.unc
    ensures o.kind == ShareRow ==>
              RoundTripped(o, d, a).uid == Some(if a.userKnown(o.uid) && o.uid <= INT32_MAX then o.uid else 0) &&
              RoundTripped(o, d, a).gid == Some(if a.groupKnown(o.gid) && o.gid <= INT32_MAX then o.gid else 0)
    ensures o.port != -1 ==> RoundTripped(o, d, a).port == o.port
    ensures o.kind == HostRow && o.protocol != UndefinedProtocol ==> RoundTripped(o, d, a).protocol == o.protocol
    ensures o.kind == HostRow ==> RoundTripped(o, d, a).kerberos != UndefinedKerberos
  {
  }

  // ---------------------------------------------------------------------
  // Sorting by name: sortItems(ItemName, Qt::AscendingOrder)

  /** Rows in ascending order of their name column. */
  predicate NameOrdered(rows: seq<Row>) {
    forall i :: 0 < i < |rows| ==> Precedes(rows[i - 1].name, rows[i].name)
  }

  function InsertRow(x: Row, rows: seq<Row>): (r: seq<Row>)
    ensures |r| == |rows| + 1
    ensures multiset(r) == multiset(rows) + multiset{x}
    ensures r[0] == x || (rows != [] && r[0] == rows[0])
  {
    if rows == [] || Precedes(x.name, rows[0].name) then [x] + rows
    else
      assert rows == [rows[0]] + rows[1..];
      [rows[0]] + InsertRow(x, rows[1..])
  }

  lemma {:induction false} InsertRowOrdered(x: Row, rows: seq<Row>)
    requires NameOrdered(rows)
    ensures NameOrdered(InsertRow(x, rows))
  {
    if rows != [] && !Precedes(x.name, rows[0].name) {
      PrecedesTotal(x.name, rows[0].name);
      InsertRowOrdered(x, rows[1..]);
    }
  }

  /** The rows sorted by name: an ordered permutation. */
  function SortByName(rows: seq<Row>): (r: seq<Row>)
    ensures multiset(r) == multiset(rows)
    ensures NameOrdered(r)
  {
    if rows == [] then []
    else
      assert rows == [rows[0]] + rows[1..];
      var sorted := SortByName(rows[1..]);
      InsertRowOrdered(rows[0], sorted);
      InsertRow(rows[0], sorted)
  }

  // ---------------------------------------------------------------------
  // The table loops

  /** Every entry's row, in the order of the entries. */
  function Encoded(list: seq<OptionsInfo>, d: Defaults, a: Accounts): seq<Row> {
    Map(list, o => EncodeRow(o, d, a))
  }

  /** Every entry as it reads back, in the order of the entries. */
  function RoundTrippedAll(list: seq<OptionsInfo>, d: Defaults, a: Accounts): seq<Decoded> {
    Map(list, o => RoundTripped(o, d, a))
  }

  lemma EncodedStep(list: seq<OptionsInfo>, i: nat, d: Defaults, a: Accounts)
    requires i < |list|
    ensures Encoded(list[..i + 1], d, a) == Encoded(list[..i], d, a) + [EncodeRow(list[i], d, a)]
  {
    var e, e1 := Encoded(list[..i], d, a), Encoded(list[..i + 1], d, a);
    assert forall j :: 0 <= j < i ==> e1[j] == e[j];
  }

  /** insertCustomOptions: one row per entry, and the table then sorted by
      name, so the rows are the entries' encodings in ascending name order. */
  method InsertCustomOptions(list: seq<OptionsInfo>, d: Defaults, a: Accounts) returns (rows: seq<Row>)
    ensures |rows| == |list|
    ensures multiset(rows) == multiset(Encoded(list, d, a))
    ensures NameOrdered(rows)
  {
    var added := [];
    var i := 0;
    while i < |list|
      invariant 0 <= i <= |list|
      invariant added == Encoded(list[..i], d, a)
    {
      EncodedStep(list, i, d, a);
      added := added + [EncodeRow(list[i], d, a)];
      i := i + 1;
    }
    assert list[..i] == list;
    rows := SortByName(added);
  }

  /** getCustomOptions: one entry per row, in order. */
  method GetCustomOptions(rows: seq<Row>) returns (list: seq<Decoded>)
    ensures |list| == |rows|
    ensures forall i :: 0 <= i < |rows| ==> list[i] == DecodeRow(rows[i])
  {
    list := [];
    var i := 0;
    while i < |rows|
      invariant 0 <= i <= |rows| && |list| == i
      invariant forall j :: 0 <= j < i ==> list[j] == DecodeRow(rows[j])
    {
      list := list + [DecodeRow(rows[i])];
      i := i + 1;
    }
  }

  /** Filling the table and reading it back gives every entry once, with
      exactly the losses RoundTripped says, in ascending UNC order. */
  method TableRoundTrip(list: seq<OptionsInfo>, d: Defaults, a: Accounts) returns (back: seq<Decoded>)
    requires forall o :: o in list ==>
               0 <= o.uid <= NO_ACCOUNT_ID && 0 <= o.gid <= NO_ACCOUNT_ID &&
               '(' !in a.userName(o.uid) && '(' !in a.groupName(o.gid) &&
               INT32_MIN <= o.port <= INT32_MAX
    requires INT32_MIN <= d.smbPort <= INT32_MAX && INT32_MIN <= d.fileSystemPort <= INT32_MAX
    ensures |back| == |list|
    ensures multiset(back) == multiset(RoundTrippedAll(list, d, a))
    ensures forall i :: 0 < i < |back| ==> Precedes(back[i - 1].unc, back[i].unc)
  {
    var rows := InsertCustomOptions(list, d, a);
    back := GetCustomOptions(rows);
    assert back == Map(rows, DecodeRow);
    MapPermutation(rows, Encoded(list, d, a), DecodeRow);
    forall i | 0 <= i < |list| ensures Map(Encoded(list, d, a), DecodeRow)[i] == RoundTrippedAll(list, d, a)[i] {
      assert list[i] in list;
      RowRoundTrip(list[i], d, a);
    }
    assert Map(Encoded(list, d, a), DecodeRow) == RoundTrippedAll(list, d, a);
  }
}
