/** system/system.go: the System record of a Project, its ordering, its
    constructor and the three operations on its connection and its Files. */
module Systems {
  import opened Wrappers
  import opened Text
  import opened Lookup
  import opened Files
  import opened Transports

  /** system.System. Every string field not set by NewSystem starts empty. */
  datatype System = System(
    identifier: string,
    sysID: int,
    transTCPIP: string,
    transSerial: string,
    transTCPIPEx: string,
    transSerialEx: string,
    transUSBEx: string,
    transVNMEx: string,
    virtualNetLinxMasterFlag: string,
    vnmSystemID: string,
    vnmIPAddress: string,
    vnmMaskAddress: string,
    userName: string,
    password: string,
    comments: string,
    files: seq<File>,
    isActive: string,
    platform: string,
    transport: string,
    transportEx: string)
  {
    /** AddConnectionToSystem: records the transport's type and writes its
        six fields, '|'-separated, into TransTCPIPEx. */
    function AddConnectionToSystem(t: Transport): (r: System)
      ensures r.transportEx == t.transportType
      ensures r.transTCPIPEx == JoinWith(ConnectionFields(t), '|')
      ensures NoPipeIn(t) ==> Split(r.transTCPIPEx, '|') == ConnectionFields(t)
      ensures r.(transportEx := transportEx, transTCPIPEx := transTCPIPEx) == this
    {
      var buf := ConnectionString(t);
      this.(transportEx := t.transportType, transTCPIPEx := buf)
    }

    /** FindFile: the first File whose Identifier is id, or None. */
    method FindFile(id: string) returns (r: Option<File>)
      ensures r.None? <==> NoMatch(files, FileIdentifier, id)
      ensures r.Some? ==> exists i :: FirstMatch(files, FileIdentifier, id, i) && r.value == files[i]
    {
      r := FindFirst(files, FileIdentifier, id);
    }

    /** AddFile: f at the end of Files, the others where they were. */
    function AddFile(f: File): (r: System)
      ensures |r.files| == |files| + 1
      ensures r.files[..|files|] == files && r.files[|files|] == f
      ensures r.(files := files) == this
    {
      this.(files := files + [f])
    }
  }

  /** The sort key of ByIdentifier. */
  function SystemIdentifier(s: System): string
  {
    s.identifier
  }

  /** The buffer AddConnectionToSystem fills, written piece by piece. */
  function ConnectionString(t: Transport): (buf: string)
    ensures buf == JoinWith(ConnectionFields(t), '|')
    ensures NoPipeIn(t) ==> Split(buf, '|') == ConnectionFields(t)
  {
    var buf := t.host + "|";
    var buf := buf + Itoa(t.port) + "|";
    var buf := buf + (if t.pingTest then "1|" else "0|");
    var buf := buf + t.name + "|";
    var buf := buf + t.username + "|";
    var buf := buf + t.password;
    ConnectionBuffer(t);
    ConnectionSplitIf(t);
    buf
  }

  /** The strings written for PingTest. */
  function PingFlag(ping: bool): (flag: string)
    ensures flag == "1" <==> ping
    ensures flag == "0" <==> !ping
  {
    if ping then "1" else "0"
  }

  /** The six fields of TransTCPIPEx, in the order they are written. */
  function ConnectionFields(t: Transport): seq<string>
  {
    [t.host, Itoa(t.port), PingFlag(t.pingTest), t.name, t.username, t.password]
  }

  /** None of the transport's own strings holds the separator. */
  predicate NoPipeIn(t: Transport)
  {
    '|' !in t.host && '|' !in t.name && '|' !in t.username && '|' !in t.password
  }

  lemma ConnectionJoin(t: Transport)
    ensures JoinWith(ConnectionFields(t), '|') ==
      t.host + "|" + Itoa(t.port) + "|" + PingFlag(t.pingTest) + "|" + t.name + "|" + t.username + "|" + t.password
  {
    var f := ConnectionFields(t);
    JoinSix(f[0], f[1], f[2], f[3], f[4], f[5], '|');
  }

  /** The piece-by-piece buffer is the joined fields. */
  lemma ConnectionBuffer(t: Transport)
    ensures t.host + "|" + Itoa(t.port) + "|" + (if t.pingTest then "1|" else "0|") + t.name + "|" + t.username + "|" + t.password
      == JoinWith(ConnectionFields(t), '|')
  {
    ConnectionJoin(t);
    var a := t.host + "|" + Itoa(t.port) + "|";
    var z := t.name + "|" + t.username + "|" + t.password;
    assert a + (if t.pingTest then "1|" else "0|") + z == a + PingFlag(t.pingTest) + "|" + z;
  }

  lemma ConnectionSplitIf(t: Transport)
    ensures NoPipeIn(t) ==> Split(JoinWith(ConnectionFields(t), '|'), '|') == ConnectionFields(t)
  {
    if NoPipeIn(t) { ConnectionSplit(t); }
  }

  /** Joining six pieces puts one separator between each neighbouring pair. */
  lemma JoinSix(a: string, b: string, c: string, d: string, e: string, f: string, sep: char)
    ensures JoinWith([a, b, c, d, e, f], sep) == a + [sep] + b + [sep] + c + [sep] + d + [sep] + e + [sep] + f
  {
    JoinWithCons(a, [b, c, d, e, f], sep);
    assert [a, b, c, d, e, f] == [a] + [b, c, d, e, f];
    JoinFive(b, c, d, e, f, sep);
  }

  lemma JoinFive(b: string, c: string, d: string, e: string, f: string, sep: char)
    ensures JoinWith([b, c, d, e, f], sep) == b + [sep] + c + [sep] + d + [sep] + e + [sep] + f
  {
    JoinWithCons(b, [c, d, e, f], sep);
    assert [b, c, d, e, f] == [b] + [c, d, e, f];
    JoinFour(c, d, e, f, sep);
  }

  lemma JoinFour(c: string, d: string, e: string, f: string, sep: char)
    ensures JoinWith([c, d, e, f], sep) == c + [sep] + d + [sep] + e + [sep] + f
  {
    JoinWithCons(c, [d, e, f], sep);
    assert [c, d, e, f] == [c] + [d, e, f];
    JoinThree(d, e, f, sep);
  }

  lemma JoinThree(d: string, e: string, f: string, sep: char)
    ensures JoinWith([d, e, f], sep) == d + [sep] + e + [sep] + f
  {
    JoinWithCons(d, [e, f], sep);
    assert [d, e, f] == [d] + [e, f];
    JoinWithCons(e, [f], sep);
    assert [e, f] == [e] + [f];
  }

  /** Splitting the connection string on '|' recovers the six fields. */
  lemma ConnectionSplit(t: Transport)
    requires NoPipeIn(t)
    ensures Split(JoinWith(ConnectionFields(t), '|'), '|') == ConnectionFields(t)
  {
    var f := ConnectionFields(t);
    assert '|' !in Itoa(t.port);
    assert forall i :: 0 <= i < |f| ==> '|' !in f[i];
    SplitJoin(f, '|');
  }

  /** A non-negative port is read back from the second field as a decimal number. */
  lemma ConnectionPort(t: Transport)
    requires NoPipeIn(t) && t.port >= 0
    ensures var fields := Split(JoinWith(ConnectionFields(t), '|'), '|');
      |fields| == 6 && (forall i :: 0 <= i < |fields[1]| ==> IsDigit(fields[1][i]))
      && DecimalValue(fields[1]) == t.port
  {
    ConnectionSplit(t);
    DecimalValueOfDigits(t.port);
  }

  /** NewSystem: SysID stored, Identifier the id zero-padded to three digits,
      then ": " and the name; nothing else set. */
  function NewSystem(name: string, sysID: int): (s: System)
    ensures s.sysID == sysID && s.files == [] && s.transTCPIPEx == "" && s.transportEx == ""
    ensures 0 <= sysID <= 999 ==>
      |s.identifier| == 3 + 2 + |name| && (forall i :: 0 <= i < 3 ==> IsDigit(s.identifier[i]))
      && DecimalValue(s.identifier[..3]) == sysID && s.identifier[3..] == ": " + name
    ensures sysID > 999 ==> s.identifier == Itoa(sysID) + ": " + name
  {
    var id := Pad3(sysID);
    var id := id + ": " + name;
    assert 0 <= sysID <= 999 ==> id[..3] == Pad3(sysID);
    System(id, sysID, "", "", "", "", "", "", "", "", "", "", "", "", "", [], "", "", "", "")
  }

  /** FindFile after AddFile: an earlier File with the id still wins; otherwise the
      new File is found exactly when it carries the id. */
  lemma AddFileThenFind(s: System, f: File, id: string, i: int)
    ensures FirstMatch(s.AddFile(f).files, FileIdentifier, id, i) <==>
      FirstMatch(s.files, FileIdentifier, id, i)
      || (NoMatch(s.files, FileIdentifier, id) && f.identifier == id && i == |s.files|)
  {
    FirstMatchAppend(s.files, f, FileIdentifier, id, i);
  }
}
