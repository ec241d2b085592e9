/** The configuration reader as it runs: two fixed buffers, filled, examined and cleared line by line. */
module ServerConfig {
  import opened Wrappers
  import opened Text
  import opened Numbers
  import opened ConfigKeys
  import opened WideArrays
  import opened ConfigSpec
  import opened ConfigProperties
  import opened ConfigRoundTrip

  const SUCCESS := 0
  const FAILED := -1

  const DEFAULT_BUFFER_SIZE: Uint32 := 0x4000
  const DEFAULT_DATABASE_RECEIVE_BUFFER_SIZE: Uint32 := 0x8000

  /** The server the program is built for (MIDDLE_SERVER, LOGIN_SERVER, CHILD_SERVER). */
  datatype ServerKind = Middle | Login | Child

  function Defaults(kind: ServerKind): ConfigData {
    var (port1, port2, work1, work2, database) :=
      match kind
      case Middle => (8001, 8002, 4, 1, "ConfigDb")
      case Login => (8003, 8002, 8, 1, "UserIndexDb")
      case Child => (8004, 8001, 8, 4, "ConfigDb");
    ConfigData(
      Fields(port1, port2, "192.168.1.78", "192.168.1.78", 2000, work1, work2,
             DEFAULT_BUFFER_SIZE, DEFAULT_BUFFER_SIZE, DEFAULT_BUFFER_SIZE, DEFAULT_BUFFER_SIZE,
             4, DEFAULT_DATABASE_RECEIVE_BUFFER_SIZE, 1),
      database, "millionserver", "123456")
  }

  /** By default the child and the login servers look for the middle server where it listens, each at its own port. */
  lemma ServersMeet()
    ensures Defaults(Child).fields.port2 == Defaults(Middle).fields.port1
    ensures Defaults(Login).fields.port2 == Defaults(Middle).fields.port2
    ensures Defaults(Middle).fields.port1 != Defaults(Middle).fields.port2
  {
  }

  lemma DefaultTextsKept()
    ensures AllKept("192.168.1.78") && '_' !in "192.168.1.78"
    ensures AllKept("ConfigDb") && '_' !in "ConfigDb"
    ensures AllKept("UserIndexDb") && '_' !in "UserIndexDb"
  {
  }

  lemma DefaultAccountKept()
    ensures AllKept("millionserver") && '_' !in "millionserver"
    ensures AllKept("123456") && '_' !in "123456"
  {
  }

  lemma DefaultTextsEnd(kind: ServerKind)
    ensures var d := Defaults(kind);
            NUL !in d.databaseName && NUL !in d.databaseAccountName && NUL !in d.databaseAccountPwd
  {
    DefaultTextsKept();
    DefaultAccountKept();
  }

  lemma DefaultTextStorable(kind: ServerKind, k: Key)
    requires Get(Defaults(kind), k).Plain?
    ensures Storable(k, Get(Defaults(kind), k))
  {
    var text := Get(Defaults(kind), k).text;
    DefaultTextsKept();
    DefaultAccountKept();
    NoUnderscoreNoKey(text, Rank(k));
  }

  /** The defaults are values a script could have given, so whatever a server has read can be saved and read back. */
  lemma DefaultsStorable(kind: ServerKind)
    ensures AllStorable(Defaults(kind))
  {
    var c := Defaults(kind);
    forall k: Key
      ensures Storable(k, Get(c, k))
    {
      if Get(c, k).Plain? {
        DefaultTextStorable(kind, k);
      }
    }
  }

  // ---------- The buffers ----------

  ghost predicate AllNul(buffer: array<char>)
    reads buffer
  {
    forall i | 0 <= i < buffer.Length :: buffer[i] == NUL
  }

  lemma CStringOfFiltered(buffer: string, line: string, offset: nat)
    requires Holds(buffer, Filter(line)) && offset <= |Filter(line)|
    ensures CString(buffer[offset..]) == Filter(line)[offset..]
  {
    var text := Filter(line);
    assert buffer[offset..][..|text| - offset] == text[offset..];
    assert forall c | c in text[offset..] :: c in text;
    CStringOfHeld(buffer[offset..], text[offset..]);
  }

  /** memset(buffer, 0, 4096) */
  method Clear(buffer: array<char>)
    modifies buffer
    ensures AllNul(buffer)
  {
    forall i | 0 <= i < buffer.Length {
      buffer[i] := NUL;
    }
  }

  lemma CellsOfLine(cells: string, line: string)
    ensures var text := Filter(line);
            CellsAfterLine(cells, line) ==
            if Dispatch(text).Some? then CellsWith(cells, Dispatch(text).value, ValueText(text)) else cells
  {
  }

  lemma CellsOneLine(cells: string, contents: string)
    requires GetLine(contents).Line?
    ensures var Line(line, rest) := GetLine(contents);
            CellsAfterLines(cells, Lines(contents)) == CellsAfterLines(CellsAfterLine(cells, line), Lines(rest))
  {
    var Line(line, rest) := GetLine(contents);
    assert Lines(contents)[1..] == Lines(rest);
  }

  /** istream::getline: characters up to a newline, the end of the file, or the last place but one of the buffer. */
  method GetLineInto(buffer: array<char>, contents: string) returns (good: bool, rest: string)
    requires buffer.Length == LINE_CAPACITY
    modifies buffer
    ensures match GetLine(contents)
            case Line(line, r) => good && rest == r && Holds(buffer[..], line)
            case Failed => !good
  {
    var i := 0;
    while i < |contents| && contents[i] != NEWLINE && i < LINE_CAPACITY - 1
      invariant i <= |contents| && i < LINE_CAPACITY
      invariant buffer[..i] == contents[..i] && NEWLINE !in contents[..i]
    {
      buffer[i] := contents[i];
      i := i + 1;
    }
    buffer[i] := NUL;
    if i == |contents| {
      good, rest := i > 0, "";
    } else if contents[i] == NEWLINE {
      good, rest := true, contents[i + 1..];
    } else {
      good, rest := false, contents[i..];
    }
    assert buffer[..][..i] == buffer[..i];
    EndOfLine(contents, i);
  }

  /** Where the characters stop, the line stops, or it is too long. */
  lemma EndOfLine(contents: string, i: nat)
    requires i <= |contents| && NEWLINE !in contents[..i]
    ensures i == |contents| || contents[i] == NEWLINE ==> LineEnd(contents) == i
    ensures i < |contents| && contents[i] != NEWLINE ==> LineEnd(contents) > i
  {
    if i == |contents| || contents[i] == NEWLINE {
      LineEndIs(contents, i);
    }
    assert forall j | 0 <= j < i :: contents[j] == contents[..i][j];
  }

  /** One round of the filter: `done` has been kept so far, `text` is what will have been kept in the end. */
  lemma FilterStep(b: string, i: nat, done: string, text: string)
    requires i < StrLen(b) && done + Filter(b[i..]) == text
    ensures b[i] == COMMENT ==> done == text
    ensures b[i] != COMMENT ==> (if Kept(b[i]) then done + [b[i]] else done) + Filter(b[i + 1..]) == text
  {
    assert b[i] in b[..StrLen(b)];
    assert b[i..][1..] == b[i + 1..];
    if b[i] != COMMENT && Kept(b[i]) {
      assert done + ([b[i]] + Filter(b[i + 1..])) == done + [b[i]] + Filter(b[i + 1..]);
    }
  }

  lemma FilterOfHeld(b: string, line: string)
    requires Holds(b, line)
    ensures Filter(b) == Filter(line) && StrLen(b) < |b| && Filter(b[StrLen(b)..]) == ""
  {
    assert b == line + [NUL] + b[|line| + 1..];
    FilterCuts(line, NUL, b[|line| + 1..]);
    assert b[|line|] in b;
  }

  /** The character filter: kept characters of the line go to the front of a cleared buffer. */
  method FilterInto(buffer: array<char>, station: array<char>, ghost line: string)
    requires buffer.Length == station.Length == LINE_CAPACITY && buffer != station
    requires Holds(buffer[..], line) && AllNul(station)
    modifies station
    ensures Holds(station[..], Filter(line))
    ensures Filter(line) == "" ==> AllNul(station)
  {
    ghost var b := buffer[..];
    FilterOfHeld(b, line);
    var i, j := 0, 0;
    while i < StrLen(buffer[..])
      invariant buffer[..] == b && j <= i <= StrLen(b)
      invariant forall k | j <= k < LINE_CAPACITY :: station[k] == NUL
      invariant station[..j] + Filter(b[i..]) == Filter(line)
    {
      ghost var done := station[..j];
      FilterStep(b, i, done, Filter(line));
      if buffer[i] == COMMENT {
        break;
      }
      if Kept(buffer[i]) {
        station[j] := buffer[i];
        j := j + 1;
        assert station[..j] == done + [b[i]];
      }
      i := i + 1;
    }
    assert station[..j] == Filter(line);
    assert station[..][..j] == station[..j];
  }

  // ---------- The three arrays ----------

  /** The cells of the array that a key is converted into. */
  function Part(cells: string, k: Key): string
    requires |cells| == WIDE_CELLS && ConversionOf(k).CopyWideText?
  {
    cells[Start(k)..Start(k) + Capacity(k)]
  }

  /** Each of the three arrays holds a text. */
  predicate Intact(cells: string) {
    && |cells| == WIDE_CELLS && StrLen(Part(cells, DbName)) < NAME_CAPACITY
    && StrLen(Part(cells, DbAccount)) < ACCOUNT_CAPACITY && StrLen(Part(cells, DbPwd)) < PWD_CAPACITY
  }

  /** The configuration in an object with these fields and arrays. */
  function ConfigOf(fields: Fields, cells: string): ConfigData
    requires Intact(cells)
  {
    ConfigData(fields, CString(Part(cells, DbName)), CString(Part(cells, DbAccount)), CString(Part(cells, DbPwd)))
  }

  lemma ClearedIsIntact(cells: string)
    requires |cells| == WIDE_CELLS && forall i | 0 <= i < WIDE_CELLS :: cells[i] == NUL
    ensures Intact(cells)
  {
    assert Part(cells, DbName)[0] == Part(cells, DbAccount)[0] == Part(cells, DbPwd)[0] == NUL;
  }

  /** Two rows of cells agree except between `lo` and `hi`; so do parts that lie on one side. */
  lemma SamePart(r: string, cells: string, lo: nat, hi: nat, i: nat, j: nat)
    requires lo <= hi <= |r| == |cells| && r[..lo] == cells[..lo] && r[hi..] == cells[hi..]
    requires i <= j <= |r| && (j <= lo || hi <= i)
    ensures r[i..j] == cells[i..j]
  {
    forall x | i <= x < j
      ensures r[x] == cells[x]
    {
      if x < lo {
        assert r[x] == r[..lo][x] == cells[..lo][x];
      } else {
        assert r[x] == r[hi..][x - hi] == cells[hi..][x - hi];
      }
    }
  }

  lemma StoreParts(cells: string, k: Key, text: string, other: Key)
    requires |cells| == WIDE_CELLS && NUL !in text
    requires ConversionOf(k).CopyWideText? && ConversionOf(other).CopyWideText? && |text| < Capacity(k)
    ensures var r := CopyWide(cells, Start(k), Capacity(k), text);
            if k == other then CString(Part(r, k)) == text else Part(r, other) == Part(cells, other)
  {
    var r := CopyWide(cells, Start(k), Capacity(k), text);
    CopyThatFits(cells, Start(k), Capacity(k), text);
    if k != other {
      SamePart(r, cells, Start(k), Start(k) + Capacity(k), Start(other), Start(other) + Capacity(other));
    }
  }

  /** Converting a text that fits into its array assigns the field, and no other. */
  lemma StoreText(fields: Fields, cells: string, k: Key, text: string)
    requires Intact(cells) && ConversionOf(k).CopyWideText? && |text| < Capacity(k) && NUL !in text
    ensures var r := CopyWide(cells, Start(k), Capacity(k), text);
            Intact(r) && ConfigOf(fields, r) == Put(ConfigOf(fields, cells), k, Plain(text))
  {
    StoreParts(cells, k, text, DbName);
    StoreParts(cells, k, text, DbAccount);
    StoreParts(cells, k, text, DbPwd);
  }

  lemma StoreTexts(fields: Fields, cells: string, name: NameText, account: AccountText, pwd: PwdText)
    requires Intact(cells) && NUL !in name && NUL !in account && NUL !in pwd
    ensures var named := CopyWide(cells, NAME_AT, NAME_CAPACITY, name);
            var accounted := CopyWide(named, ACCOUNT_AT, ACCOUNT_CAPACITY, account);
            var r := CopyWide(accounted, PWD_AT, PWD_CAPACITY, pwd);
            Intact(r) && ConfigOf(fields, r) == ConfigData(fields, name, account, pwd)
  {
    StoreText(fields, cells, DbName, name);
    var named := CopyWide(cells, NAME_AT, NAME_CAPACITY, name);
    StoreText(fields, named, DbAccount, account);
    StoreText(fields, CopyWide(named, ACCOUNT_AT, ACCOUNT_CAPACITY, account), DbPwd, pwd);
  }

  // ---------- The object ----------

  class ServerConfig {
    var fields: Fields
    const wide: array<char>    // _database_name, _database_account_name and _database_account_pwd, one behind the other
    ghost var spilled: bool    // a conversion has written outside its array

    ghost predicate Valid()
      reads this, wide
    {
      wide.Length == WIDE_CELLS && (!spilled ==> Intact(wide[..]))
    }

    /** The configuration the object holds, as long as nothing has been written outside its array. */
    ghost function Abs(): ConfigData
      requires Valid() && !spilled
      reads this, wide
    {
      ConfigOf(fields, wide[..])
    }

    /** The three texts are literals that fit, so wcscpy_s leaves the same texts as the conversion does. */
    constructor (kind: ServerKind)
      ensures Valid() && !spilled && Abs() == Defaults(kind)
      ensures fresh(wide)
      ensures fields.serverIp1 == fields.serverIp2 == "192.168.1.78" && fields.prepareAcceptSocketCount1 == 2000
      ensures fields.receiveBufferSize1 == fields.receiveBufferSize2 == 0x4000
      ensures fields.sendBufferSize1 == fields.sendBufferSize2 == 0x4000
      ensures fields.infoTransferStationWorkThreadCount == 4
      ensures fields.databaseReceiveBufferSize == 0x8000 && fields.databaseWorkThreadCount == 1
      ensures Abs().databaseAccountName == "millionserver" && Abs().databaseAccountPwd == "123456"
      ensures kind.Middle? ==> fields.port1 == 8001 && fields.port2 == 8002
                               && fields.acceptorWorkCount1 == 4 && fields.acceptorWorkCount2 == 1
                               && Abs().databaseName == "ConfigDb"
      ensures kind.Login? ==> fields.port1 == 8003 && fields.port2 == 8002
                              && fields.acceptorWorkCount1 == 8 && fields.acceptorWorkCount2 == 1
                              && Abs().databaseName == "UserIndexDb"
      ensures kind.Child? ==> fields.port1 == 8004 && fields.port2 == 8001
                              && fields.acceptorWorkCount1 == 8 && fields.acceptorWorkCount2 == 4
                              && Abs().databaseName == "ConfigDb"
    {
      var c := Defaults(kind);
      fields, spilled := c.fields, false;
      wide := new char[WIDE_CELLS](_ => NUL);
      new;
      ClearedIsIntact(wide[..]);
      DefaultTextsEnd(kind);
      StoreTexts(fields, wide[..], c.databaseName, c.databaseAccountName, c.databaseAccountPwd);
      ghost var inside := CharConvertToWchar(wide, NAME_AT, NAME_CAPACITY, c.databaseName);
      inside := CharConvertToWchar(wide, ACCOUNT_AT, ACCOUNT_CAPACITY, c.databaseAccountName);
      inside := CharConvertToWchar(wide, PWD_AT, PWD_CAPACITY, c.databaseAccountPwd);
    }

    /** Initialize passes on the outcome of the reading. */
    method Initialize(file: Option<string>) returns (status: int)
      requires Valid()
      modifies this, wide
      ensures Valid()
      ensures status == if file.Some? then 0 else -1
      ensures file.None? ==> fields == old(fields) && wide[..] == old(wide[..]) && spilled == old(spilled)
      ensures file.Some? ==> (spilled <==> old(spilled) || !StaysInside(file.value))
      ensures file.Some? ==> wide[..] == CellsAfterLines(old(wide[..]), Lines(file.value))
      ensures file.Some? && !spilled ==> Abs() == ReadFile(old(Abs()), file.value)
    {
      var outcome := ReadConfigScript(file);
      if outcome != SUCCESS {
        return FAILED;
      }
      return SUCCESS;
    }

    /**
      ReadConfigScript: `file` is the contents of the script, if it could be opened. The reading
      stays inside the arrays exactly when the script does, and then computes what the script means;
      whether it does or not, the arrays end up with what the lines write into them one after another.
      At every loop head the transfer buffer is clear, also after a line that leaves nothing to clear.
     */
    method ReadConfigScript(file: Option<string>) returns (status: int)
      requires Valid()
      modifies this, wide
      ensures Valid()
      ensures status == if file.Some? then 0 else -1
      ensures file.None? ==> fields == old(fields) && wide[..] == old(wide[..]) && spilled == old(spilled)
      ensures file.Some? ==> (spilled <==> old(spilled) || !StaysInside(file.value))
      ensures file.Some? ==> wide[..] == CellsAfterLines(old(wide[..]), Lines(file.value))
      ensures file.Some? && !spilled ==> Abs() == ReadFile(old(Abs()), file.value)
    {
      if file.None? {
        return FAILED;
      }
      var tmpBuffer := new char[LINE_CAPACITY](_ => NUL);
      var tmpTransferStation := new char[LINE_CAPACITY](_ => NUL);
      var good, rest := GetLineInto(tmpBuffer, file.value);
      ghost var at, inside := file.value, true;
      while good
        invariant Valid() && fresh(tmpBuffer) && fresh(tmpTransferStation)
        invariant AllNul(tmpTransferStation)
        invariant match GetLine(at)
                  case Line(line, r) => good && rest == r && Holds(tmpBuffer[..], line)
                  case Failed => !good
        invariant StaysInside(file.value) <==> inside && StaysInside(at)
        invariant spilled <==> old(spilled) || !inside
        invariant CellsAfterLines(wide[..], Lines(at)) == CellsAfterLines(old(wide[..]), Lines(file.value))
        invariant !spilled && StaysInside(at) ==> ReadFile(Abs(), at) == ReadFile(old(Abs()), file.value)
        decreases |at|
      {
        ReadOneLine(at);
        CellsOneLine(wide[..], at);
        inside := inside && Inside(GetLine(at).line);
        ProcessLine(tmpBuffer, tmpTransferStation, GetLine(at).line);
        at := rest;
        good, rest := GetLineInto(tmpBuffer, rest);
      }
      return SUCCESS;
    }

    /** The body of the loop: filter the line, dispatch what is left of it, clear both buffers. */
    method ProcessLine(tmpBuffer: array<char>, tmpTransferStation: array<char>, ghost line: string)
      requires Valid() && tmpBuffer != wide && tmpTransferStation != wide && tmpBuffer != tmpTransferStation
      requires tmpBuffer.Length == tmpTransferStation.Length == LINE_CAPACITY
      requires Holds(tmpBuffer[..], line) && AllNul(tmpTransferStation)
      modifies this, wide, tmpBuffer, tmpTransferStation
      ensures Valid() && AllNul(tmpTransferStation)
      ensures spilled <==> old(spilled) || !Inside(line)
      ensures wide[..] == CellsAfterLine(old(wide[..]), line)
      ensures !spilled ==> Abs() == ApplyLine(old(Abs()), line)
    {
      FilterInto(tmpBuffer, tmpTransferStation, line);
      CStringOfFiltered(tmpTransferStation[..], line, 0);
      var tmpString := CString(tmpTransferStation[..]);
      if |tmpString| == 0 {
        NothingKeptNothingWritten(line);
        return;
      }
      var tmpPos := Find(tmpString, ":");
      var offset := if tmpPos.Some? then tmpPos.value + 1 else 0;
      CStringOfFiltered(tmpTransferStation[..], line, offset);
      var value := CString(tmpTransferStation[..][offset..]);
      assert tmpString == Filter(line) && value == ValueText(tmpString);
      CellsOfLine(wide[..], line);
      Assign(tmpString, value);
      Clear(tmpBuffer);
      Clear(tmpTransferStation);
    }

    /** The dispatch: the fields are asked for one after another, and the first whose key occurs is assigned. */
    method Assign(tmpString: string, value: string)
      requires Valid() && NUL !in value
      modifies this, wide
      ensures Valid()
      ensures match Dispatch(tmpString)
              case Some(k) =>
                && (spilled <==> old(spilled) || !FitsText(k, value))
                && wide[..] == CellsWith(old(wide[..]), k, value)
                && (!spilled ==> Abs() == Put(old(Abs()), k, Convert(k, value)))
              case None => spilled == old(spilled) && fields == old(fields) && wide[..] == old(wide[..])
    {
      ghost var before := fields;
      var done;
      ghost var key;
      done, key := AssignField(tmpString, value);
      if done {
        FieldStored(before, fields, wide[..], key, value);
      } else {
        var name := AskForName(tmpString);
        if name.Some? {
          LastAreTexts(name.value);
          AssignText(name.value, value);
        }
      }
    }

    /** The chain up to the database names. */
    method AssignField(tmpString: string, value: string) returns (done: bool, ghost key: Key)
      modifies this`fields
      ensures done ==> Dispatch(tmpString) == Some(key) && StoredField(old(fields), fields, key, value)
      ensures !done ==> NotBefore(tmpString, 14) && fields == old(fields)
    {
      done, key := AssignNetwork(tmpString, value);
      if !done {
        done, key := AssignBuffers(tmpString, value);
      }
      if !done {
        done, key := AssignDatabaseNumbers(tmpString, value);
      }
    }

    /** The part of the chain that asks for the addresses and thread counts. */
    method AssignNetwork(tmpString: string, value: string) returns (done: bool, ghost key: Key)
      requires NotBefore(tmpString, 0)
      modifies this`fields
      ensures done ==> Dispatch(tmpString) == Some(key) && StoredField(old(fields), fields, key, value)
      ensures !done ==> NotBefore(tmpString, 7) && fields == old(fields)
    {
      var found := Occurring(tmpString, Port1);
      if found {
        fields := fields.(port1 := Atoi(value));
        return true, Port1;
      }
      found := Occurring(tmpString, Port2);
      if found {
        fields := fields.(port2 := Atoi(value));
        return true, Port2;
      }
      found := Occurring(tmpString, ServerIp1);
      if found {
        fields := fields.(serverIp1 := value);
        return true, ServerIp1;
      }
      found := Occurring(tmpString, ServerIp2);
      if found {
        fields := fields.(serverIp2 := value);
        return true, ServerIp2;
      }
      found := Occurring(tmpString, SocketCount);
      if found {
        fields := fields.(prepareAcceptSocketCount1 := Atoi(value));
        return true, SocketCount;
      }
      found := Occurring(tmpString, WorkCount1);
      if found {
        fields := fields.(acceptorWorkCount1 := Atoi(value) % 0x1_0000);
        return true, WorkCount1;
      }
      found := Occurring(tmpString, WorkCount2);
      if found {
        fields := fields.(acceptorWorkCount2 := Atoi(value) % 0x1_0000);
        return true, WorkCount2;
      }
      return false, Port1;
    }

    /** The part of the chain that asks for the buffer sizes. */
    method AssignBuffers(tmpString: string, value: string) returns (done: bool, ghost key: Key)
      requires NotBefore(tmpString, 7)
      modifies this`fields
      ensures done ==> Dispatch(tmpString) == Some(key) && StoredField(old(fields), fields, key, value)
      ensures !done ==> NotBefore(tmpString, 11) && fields == old(fields)
    {
      var found := Occurring(tmpString, ReceiveBuffer1);
      if found {
        fields := fields.(receiveBufferSize1 := Strtol16(value));
        return true, ReceiveBuffer1;
      }
      found := Occurring(tmpString, ReceiveBuffer2);
      if found {
        fields := fields.(receiveBufferSize2 := Strtol16(value));
        return true, ReceiveBuffer2;
      }
      found := Occurring(tmpString, SendBuffer1);
      if found {
        fields := fields.(sendBufferSize1 := Strtol16(value));
        return true, SendBuffer1;
      }
      found := Occurring(tmpString, SendBuffer2);
      if found {
        fields := fields.(sendBufferSize2 := Strtol16(value));
        return true, SendBuffer2;
      }
      return false, Port1;
    }

    /** The part of the chain that asks for the database work. */
    method AssignDatabaseNumbers(tmpString: string, value: string) returns (done: bool, ghost key: Key)
      requires NotBefore(tmpString, 11)
      modifies this`fields
      ensures done ==> Dispatch(tmpString) == Some(key) && StoredField(old(fields), fields, key, value)
      ensures !done ==> NotBefore(tmpString, 14) && fields == old(fields)
    {
      var found := Occurring(tmpString, TransferWorkThread);
      if found {
        fields := fields.(infoTransferStationWorkThreadCount := Atoi(value) % 0x1_0000);
        return true, TransferWorkThread;
      }
      found := Occurring(tmpString, DbReceiveBuffer);
      if found {
        fields := fields.(databaseReceiveBufferSize := Strtol16(value));
        return true, DbReceiveBuffer;
      }
      found := Occurring(tmpString, DbWorkThread);
      if found {
        fields := fields.(databaseWorkThreadCount := Atoi(value));
        return true, DbWorkThread;
      }
      return false, Port1;
    }

    /** The part of the chain that asks for the database names, which is the last. */
    method AskForName(tmpString: string) returns (key: Option<Key>)
      requires NotBefore(tmpString, 14)
      ensures key == Dispatch(tmpString)
    {
      var found := Occurring(tmpString, DbName);
      if found {
        return Some(DbName);
      }
      found := Occurring(tmpString, DbAccount);
      if found {
        return Some(DbAccount);
      }
      found := Occurring(tmpString, DbPwd);
      if found {
        return Some(DbPwd);
      }
      NoneLeft(tmpString);
      return None;
    }

    /** The conversion of a text into the array of its key. */
    method AssignText(key: Key, value: string)
      requires Valid() && ConversionOf(key).CopyWideText? && NUL !in value
      modifies this`spilled, wide
      ensures Valid() && (spilled <==> old(spilled) || !FitsText(key, value))
      ensures wide[..] == CellsWith(old(wide[..]), key, value)
      ensures !spilled ==> Abs() == Put(old(Abs()), key, Plain(value))
    {
      if !spilled && FitsText(key, value) {
        StoreText(fields, wide[..], key, value);
      }
      ghost var inside := CharConvertToWchar(wide, Start(key), Capacity(key), value);
      spilled := spilled || !inside;
    }
  }

  /** The field of the key, which is none of the arrays, has got the converted text, and the rest is as it was. */
  ghost predicate StoredField(before: Fields, after: Fields, k: Key, value: string) {
    && !ConversionOf(k).CopyWideText?
    && Put(ConfigData(before, "", "", ""), k, Convert(k, value)).fields == after
  }

  /** The chain selects none of the keys asked for before the `r`-th. */
  ghost predicate NotBefore(text: string, r: nat) {
    Dispatch(text).Some? ==> Rank(Dispatch(text).value) >= r
  }

  lemma FieldStored(before: Fields, after: Fields, cells: string, k: Key, value: string)
    requires StoredField(before, after, k, value)
    ensures FitsText(k, value)
    ensures Intact(cells) ==> ConfigOf(after, cells) == Put(ConfigOf(before, cells), k, Convert(k, value))
  {
  }

  lemma LastAreTexts(k: Key)
    requires Rank(k) >= 14
    ensures ConversionOf(k).CopyWideText?
  {
  }

  lemma NoneLeft(text: string)
    requires NotBefore(text, 17)
    ensures Dispatch(text).None?
  {
  }

  /** Asking for the next key: it is the one, or it is none of those asked for up to now. */
  method Occurring(text: string, k: Key) returns (found: bool)
    requires NotBefore(text, Rank(k))
    ensures found <==> Dispatch(text) == Some(k)
    ensures !found ==> NotBefore(text, Rank(k) + 1)
  {
    DispatchIs(text, k);
    if Dispatch(text).Some? && Rank(Dispatch(text).value) == Rank(k) {
      RankInjective(Dispatch(text).value, k);
    }
    return Find(text, KeyText(k)).Some?;
  }
}
