/** What a configuration script means: the configuration, and what each line of the script does to it. */
module ConfigSpec {
  import opened Wrappers
  import opened Text
  import opened Numbers
  import opened ConfigKeys
  import opened WideArrays

  type Uint16 = x: nat | x < 0x1_0000
  type Uint32 = x: nat | x < 0x1_0000_0000

  /** A text that its array can hold together with a NUL. */
  type NameText = s: string | |s| < NAME_CAPACITY
  type AccountText = s: string | |s| < ACCOUNT_CAPACITY
  type PwdText = s: string | |s| < PWD_CAPACITY

  /** The members of _config_data other than the three wide-character arrays. */
  datatype Fields = Fields(
    port1: Uint32,
    port2: Uint32,
    serverIp1: string,
    serverIp2: string,
    prepareAcceptSocketCount1: Uint32,
    acceptorWorkCount1: Uint16,
    acceptorWorkCount2: Uint16,
    receiveBufferSize1: Uint32,
    receiveBufferSize2: Uint32,
    sendBufferSize1: Uint32,
    sendBufferSize2: Uint32,
    infoTransferStationWorkThreadCount: Uint16,
    databaseReceiveBufferSize: Uint32,
    databaseWorkThreadCount: Uint32)

  /** _config_data: the three arrays are the texts they hold. */
  datatype ConfigData = ConfigData(
    fields: Fields,
    databaseName: NameText,
    databaseAccountName: AccountText,
    databaseAccountPwd: PwdText)

  datatype Value = Number(n: nat) | Plain(text: string)

  /** How the text behind the ':' is converted, and the width of the field it is assigned to. */
  datatype Conversion = Decimal32 | Decimal16 | Hex32 | CopyString | CopyWideText

  function ConversionOf(k: Key): Conversion {
    match k
    case Port1 => Decimal32
    case Port2 => Decimal32
    case ServerIp1 => CopyString
    case ServerIp2 => CopyString
    case SocketCount => Decimal32
    case WorkCount1 => Decimal16
    case WorkCount2 => Decimal16
    case ReceiveBuffer1 => Hex32
    case ReceiveBuffer2 => Hex32
    case SendBuffer1 => Hex32
    case SendBuffer2 => Hex32
    case TransferWorkThread => Decimal16
    case DbReceiveBuffer => Hex32
    case DbWorkThread => Decimal32
    case DbName => CopyWideText
    case DbAccount => CopyWideText
    case DbPwd => CopyWideText
  }

  /** The length of the array a text is converted into. */
  function Capacity(k: Key): nat
    requires ConversionOf(k).CopyWideText?
  {
    match k
    case DbName => NAME_CAPACITY
    case DbAccount => ACCOUNT_CAPACITY
    case DbPwd => PWD_CAPACITY
  }

  /** Where that array stands among the three. */
  function Start(k: Key): nat
    requires ConversionOf(k).CopyWideText?
  {
    match k
    case DbName => NAME_AT
    case DbAccount => ACCOUNT_AT
    case DbPwd => PWD_AT
  }

  predicate Fits(k: Key, v: Value) {
    match ConversionOf(k)
    case CopyString => v.Plain?
    case CopyWideText => v.Plain? && |v.text| < Capacity(k)
    case Decimal16 => v.Number? && v.n < 0x1_0000
    case _ => v.Number? && v.n < 0x1_0000_0000
  }

  function Get(c: ConfigData, k: Key): (v: Value)
    ensures Fits(k, v)
  {
    match k
    case Port1 => Number(c.fields.port1)
    case Port2 => Number(c.fields.port2)
    case ServerIp1 => Plain(c.fields.serverIp1)
    case ServerIp2 => Plain(c.fields.serverIp2)
    case SocketCount => Number(c.fields.prepareAcceptSocketCount1)
    case WorkCount1 => Number(c.fields.acceptorWorkCount1)
    case WorkCount2 => Number(c.fields.acceptorWorkCount2)
    case ReceiveBuffer1 => Number(c.fields.receiveBufferSize1)
    case ReceiveBuffer2 => Number(c.fields.receiveBufferSize2)
    case SendBuffer1 => Number(c.fields.sendBufferSize1)
    case SendBuffer2 => Number(c.fields.sendBufferSize2)
    case TransferWorkThread => Number(c.fields.infoTransferStationWorkThreadCount)
    case DbReceiveBuffer => Number(c.fields.databaseReceiveBufferSize)
    case DbWorkThread => Number(c.fields.databaseWorkThreadCount)
    case DbName => Plain(c.databaseName)
    case DbAccount => Plain(c.databaseAccountName)
    case DbPwd => Plain(c.databaseAccountPwd)
  }

  function Put(c: ConfigData, k: Key, v: Value): ConfigData
    requires Fits(k, v)
  {
    match k
    case Port1 => c.(fields := c.fields.(port1 := v.n))
    case Port2 => c.(fields := c.fields.(port2 := v.n))
    case ServerIp1 => c.(fields := c.fields.(serverIp1 := v.text))
    case ServerIp2 => c.(fields := c.fields.(serverIp2 := v.text))
    case SocketCount => c.(fields := c.fields.(prepareAcceptSocketCount1 := v.n))
    case WorkCount1 => c.(fields := c.fields.(acceptorWorkCount1 := v.n))
    case WorkCount2 => c.(fields := c.fields.(acceptorWorkCount2 := v.n))
    case ReceiveBuffer1 => c.(fields := c.fields.(receiveBufferSize1 := v.n))
    case ReceiveBuffer2 => c.(fields := c.fields.(receiveBufferSize2 := v.n))
    case SendBuffer1 => c.(fields := c.fields.(sendBufferSize1 := v.n))
    case SendBuffer2 => c.(fields := c.fields.(sendBufferSize2 := v.n))
    case TransferWorkThread => c.(fields := c.fields.(infoTransferStationWorkThreadCount := v.n))
    case DbReceiveBuffer => c.(fields := c.fields.(databaseReceiveBufferSize := v.n))
    case DbWorkThread => c.(fields := c.fields.(databaseWorkThreadCount := v.n))
    case DbName => c.(databaseName := v.text)
    case DbAccount => c.(databaseAccountName := v.text)
    case DbPwd => c.(databaseAccountPwd := v.text)
  }

  /** The 17 fields are independent, and they are all there is. */
  lemma PutGet(c: ConfigData, k: Key, v: Value, k': Key)
    requires Fits(k, v)
    ensures Get(Put(c, k, v), k') == if k == k' then v else Get(c, k')
  {
  }

  lemma SameFields(c: ConfigData, d: ConfigData)
    requires forall k: Key :: Get(c, k) == Get(d, k)
    ensures c == d
  {
    assert c.fields.port1 == d.fields.port1 by { assert Get(c, Port1) == Get(d, Port1); }
    assert c.fields.port2 == d.fields.port2 by { assert Get(c, Port2) == Get(d, Port2); }
    assert c.fields.serverIp1 == d.fields.serverIp1 by { assert Get(c, ServerIp1) == Get(d, ServerIp1); }
    assert c.fields.serverIp2 == d.fields.serverIp2 by { assert Get(c, ServerIp2) == Get(d, ServerIp2); }
    assert c.fields.prepareAcceptSocketCount1 == d.fields.prepareAcceptSocketCount1 by {
      assert Get(c, SocketCount) == Get(d, SocketCount);
    }
    assert c.fields.acceptorWorkCount1 == d.fields.acceptorWorkCount1 by {
      assert Get(c, WorkCount1) == Get(d, WorkCount1);
    }
    assert c.fields.acceptorWorkCount2 == d.fields.acceptorWorkCount2 by {
      assert Get(c, WorkCount2) == Get(d, WorkCount2);
    }
    assert c.fields.receiveBufferSize1 == d.fields.receiveBufferSize1 by {
      assert Get(c, ReceiveBuffer1) == Get(d, ReceiveBuffer1);
    }
    assert c.fields.receiveBufferSize2 == d.fields.receiveBufferSize2 by {
      assert Get(c, ReceiveBuffer2) == Get(d, ReceiveBuffer2);
    }
    assert c.fields.sendBufferSize1 == d.fields.sendBufferSize1 by {
      assert Get(c, SendBuffer1) == Get(d, SendBuffer1);
    }
    assert c.fields.sendBufferSize2 == d.fields.sendBufferSize2 by {
      assert Get(c, SendBuffer2) == Get(d, SendBuffer2);
    }
    assert c.fields.infoTransferStationWorkThreadCount == d.fields.infoTransferStationWorkThreadCount by {
      assert Get(c, TransferWorkThread) == Get(d, TransferWorkThread);
    }
    assert c.fields.databaseReceiveBufferSize == d.fields.databaseReceiveBufferSize by {
      assert Get(c, DbReceiveBuffer) == Get(d, DbReceiveBuffer);
    }
    assert c.fields.databaseWorkThreadCount == d.fields.databaseWorkThreadCount by {
      assert Get(c, DbWorkThread) == Get(d, DbWorkThread);
    }
    assert c.databaseName == d.databaseName by { assert Get(c, DbName) == Get(d, DbName); }
    assert c.databaseAccountName == d.databaseAccountName by { assert Get(c, DbAccount) == Get(d, DbAccount); }
    assert c.databaseAccountPwd == d.databaseAccountPwd by { assert Get(c, DbPwd) == Get(d, DbPwd); }
  }

  /** Whether the text fits where it is copied to, if it is copied to one of the arrays. */
  predicate FitsText(k: Key, s: string) {
    ConversionOf(k).CopyWideText? ==> |s| < Capacity(k)
  }

  /** `atoi` and `strtol` as assigned to an unsigned field of either width, or the text itself. */
  function Convert(k: Key, s: string): (v: Value)
    requires FitsText(k, s)
    ensures Fits(k, v)
  {
    match ConversionOf(k)
    case Decimal32 => Number(Atoi(s))
    case Decimal16 => Number(Atoi(s) % 0x1_0000)
    case Hex32 => Number(Strtol16(s))
    case _ => Plain(s)
  }

  // ---------- Choosing the field ----------

  function Rank(k: Key): nat {
    match k
    case Port1 => 0
    case Port2 => 1
    case ServerIp1 => 2
    case ServerIp2 => 3
    case SocketCount => 4
    case WorkCount1 => 5
    case WorkCount2 => 6
    case ReceiveBuffer1 => 7
    case ReceiveBuffer2 => 8
    case SendBuffer1 => 9
    case SendBuffer2 => 10
    case TransferWorkThread => 11
    case DbReceiveBuffer => 12
    case DbWorkThread => 13
    case DbName => 14
    case DbAccount => 15
    case DbPwd => 16
  }

  function KeyAt(r: nat): (k: Key)
    requires r < 17
    ensures Rank(k) == r
  {
    if r == 0 then Port1
    else if r == 1 then Port2
    else if r == 2 then ServerIp1
    else if r == 3 then ServerIp2
    else if r == 4 then SocketCount
    else if r == 5 then WorkCount1
    else if r == 6 then WorkCount2
    else if r == 7 then ReceiveBuffer1
    else if r == 8 then ReceiveBuffer2
    else if r == 9 then SendBuffer1
    else if r == 10 then SendBuffer2
    else if r == 11 then TransferWorkThread
    else if r == 12 then DbReceiveBuffer
    else if r == 13 then DbWorkThread
    else if r == 14 then DbName
    else if r == 15 then DbAccount
    else DbPwd
  }

  lemma RankInjective(j: Key, k: Key)
    requires Rank(j) == Rank(k)
    ensures j == k
  {
  }

  /** None of the keys asked for before the `r`-th occurs in the text. */
  ghost predicate NoneBefore(text: string, r: nat) {
    forall j: Key | Rank(j) < r :: !Occurs(text, KeyText(j))
  }

  /** The first of the keys that occurs anywhere in the text, from the `r`-th on. */
  function DispatchFrom(text: string, r: nat): (k: Option<Key>)
    requires r <= 17 && NoneBefore(text, r)
    ensures k.Some? ==> Occurs(text, KeyText(k.value)) && NoneBefore(text, Rank(k.value))
    ensures k.None? ==> NoneBefore(text, 17)
    decreases 17 - r, |text|
  {
    if r == 17 then None
    else if Find(text, KeyText(KeyAt(r))).Some? then Some(KeyAt(r))
    else
      assert NoneBefore(text, r + 1) by {
        forall j: Key | Rank(j) < r + 1
          ensures !Occurs(text, KeyText(j))
        {
          if Rank(j) == r {
            RankInjective(j, KeyAt(r));
          }
        }
      }
      DispatchFrom(text, r + 1)
  }

  function Dispatch(text: string): (k: Option<Key>)
    ensures k.Some? ==> Occurs(text, KeyText(k.value)) && NoneBefore(text, Rank(k.value))
    ensures k.None? ==> NoneBefore(text, 17)
  {
    DispatchFrom(text, 0)
  }

  /** The chain selects the one key that occurs with none of the earlier ones. */
  lemma DispatchIs(text: string, k: Key)
    ensures Dispatch(text) == Some(k) <==> Occurs(text, KeyText(k)) && NoneBefore(text, Rank(k))
  {
    if Occurs(text, KeyText(k)) && NoneBefore(text, Rank(k)) {
      assert Dispatch(text).Some?;
      RankInjective(if Rank(Dispatch(text).value) == Rank(k) then Dispatch(text).value else k, k);
    }
  }

  // ---------- One line ----------

  /** What follows the first ':', or the whole text if there is none. */
  function ValueText(text: string): string {
    match Find(text, ":")
    case Some(i) => text[i + 1..]
    case None => text
  }

  /** What a line does: it assigns a value to a field, or spills a text over the end of its array, or nothing. */
  datatype Effect = Assign(key: Key, value: Value) | Spill(key: Key, text: string) | Nothing

  function Written(line: string): (e: Effect)
    ensures e.Assign? ==> Fits(e.key, e.value)
    ensures e.Spill? ==> ConversionOf(e.key).CopyWideText? && |e.text| >= Capacity(e.key)
  {
    var text := Filter(line);
    match Dispatch(text)
    case Some(k) =>
      var value := ValueText(text);
      if FitsText(k, value) then Assign(k, Convert(k, value)) else Spill(k, value)
    case None => Nothing
  }

  /** Reading the line writes to no cell outside the array it is meant for. */
  predicate Inside(line: string) {
    !Written(line).Spill?
  }

  predicate AllInside(lines: seq<string>) {
    forall line | line in lines :: Inside(line)
  }

  function ApplyLine(c: ConfigData, line: string): ConfigData
    requires Inside(line)
  {
    match Written(line)
    case Assign(k, v) => Put(c, k, v)
    case Nothing => c
  }

  function ReadLines(c: ConfigData, lines: seq<string>): ConfigData
    requires AllInside(lines)
    decreases |lines|
  {
    if lines == [] then c
    else
      assert lines[0] in lines;
      ReadLines(ApplyLine(c, lines[0]), lines[1..])
  }

  // ---------- The lines of a file ----------

  const LINE_CAPACITY: nat := 4096

  /** A call of `getline` on what is left of the file: a line, or a failure that ends the reading. */
  datatype Got = Line(line: string, rest: string) | Failed

  function LineEnd(s: string): (p: nat)
    ensures p <= |s| && NEWLINE !in s[..p]
    ensures p < |s| ==> s[p] == NEWLINE
  {
    if s == "" || s[0] == NEWLINE then 0 else 1 + LineEnd(s[1..])
  }

  /** `getline` fails at the end of the file, and when the line does not fit the buffer with its NUL. */
  function GetLine(s: string): (g: Got)
    ensures g.Line? ==> |g.rest| < |s| && |g.line| < LINE_CAPACITY
  {
    var p := LineEnd(s);
    if s == "" || p >= LINE_CAPACITY then Failed
    else Line(s[..p], if p < |s| then s[p + 1..] else "")
  }

  /** The lines the reader gets to see. */
  function Lines(s: string): seq<string>
    decreases |s|
  {
    match GetLine(s)
    case Line(line, rest) => [line] + Lines(rest)
    case Failed => []
  }

  /**
    The condition on a script, checkable before it is read, under which its reading is defined: no
    line the reader gets to see brings a database name, account or password that does not fit.
   */
  predicate StaysInside(contents: string) {
    AllInside(Lines(contents))
  }

  function ReadFile(c: ConfigData, contents: string): ConfigData
    requires StaysInside(contents)
  {
    ReadLines(c, Lines(contents))
  }

  // ---------- The cells of the three arrays, whatever the script ----------

  /** The cells after a value for the key has been read. */
  function CellsWith(cells: string, k: Key, text: string): (r: string)
    ensures |r| == |cells|
  {
    if ConversionOf(k).CopyWideText? then CopyWide(cells, Start(k), Capacity(k), text) else cells
  }

  function CellsAfterLine(cells: string, line: string): (r: string)
    ensures |r| == |cells|
  {
    match Dispatch(Filter(line))
    case Some(k) => CellsWith(cells, k, ValueText(Filter(line)))
    case None => cells
  }

  function CellsAfterLines(cells: string, lines: seq<string>): (r: string)
    ensures |r| == |cells|
    decreases |lines|
  {
    if lines == [] then cells else CellsAfterLines(CellsAfterLine(cells, lines[0]), lines[1..])
  }
}
