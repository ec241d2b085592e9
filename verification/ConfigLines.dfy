/** What each line of a script does, with keys, conversions and fields spelt out. */
module ConfigLines {
  import opened Wrappers
  import opened Text
  import opened Numbers
  import opened ConfigKeys
  import opened ConfigSpec
  import opened ConfigRoundTrip

  /** The line assigns, and leaves a configuration that differs as given. */
  predicate Makes(line: string, c: ConfigData, d: ConfigData) {
    Inside(line) && ApplyLine(c, line) == d
  }

  lemma {:induction false} OwnLine(k: Key, key: string, value: string)
    requires key == KeyText(k) + [':'] && AllKept(value) && NoneBefore(value, Rank(k))
    ensures Filter(key + value) == key + value && Dispatch(key + value) == Some(k) && ValueText(key + value) == value
  {
    KeysKept(k);
    assert AllKept(key + value);
    FilterFixes(key + value);
    DispatchOwnLine(k, value);
    ValueTextOfOwnLine(k, value);
  }

  lemma {:induction false} LineAssigns(c: ConfigData, k: Key, key: string, value: string)
    requires key == KeyText(k) + [':'] && AllKept(value) && NoneBefore(value, Rank(k)) && FitsText(k, value)
    ensures Makes(key + value, c, Put(c, k, Convert(k, value)))
  {
    OwnLine(k, key, value);
  }

  // ---------- Numbers ----------

  lemma {:induction false} NumberText(n: nat)
    ensures AllKept(Digits(n, 10)) && AllKept("0x" + Digits(n, 16))
    ensures '_' !in Digits(n, 10) && '_' !in "0x" + Digits(n, 16)
  {
    PrintedIsKept(n);
  }

  lemma {:induction false} NumberValue(n: nat)
    requires n <= 0x7FFF_FFFF
    ensures Atoi(Digits(n, 10)) == n && Strtol16("0x" + Digits(n, 16)) == n
  {
    AtoiStops(n, "");
    StrtolStops(n, "");
    assert Digits(n, 10) + "" == Digits(n, 10) && "0x" + Digits(n, 16) + "" == "0x" + Digits(n, 16);
  }

  lemma {:induction false} DecimalLine(c: ConfigData, k: Key, key: string, n: nat)
    requires key == KeyText(k) + [':'] && n <= 0x7FFF_FFFF
    ensures ConversionOf(k).Decimal32? ==> Makes(key + Digits(n, 10), c, Put(c, k, Number(n)))
    ensures ConversionOf(k).Decimal16? ==> Makes(key + Digits(n, 10), c, Put(c, k, Number(n % 0x1_0000)))
  {
    NumberText(n);
    NumberValue(n);
    NoUnderscoreNoKey(Digits(n, 10), Rank(k));
    if !ConversionOf(k).CopyWideText? {
      LineAssigns(c, k, key, Digits(n, 10));
    }
  }

  lemma {:induction false} HexLine(c: ConfigData, k: Key, key: string, n: nat)
    requires key == KeyText(k) + [':'] && n <= 0x7FFF_FFFF && ConversionOf(k).Hex32?
    ensures Makes(key + ("0x" + Digits(n, 16)), c, Put(c, k, Number(n)))
  {
    NumberText(n);
    NumberValue(n);
    NoUnderscoreNoKey("0x" + Digits(n, 16), Rank(k));
    LineAssigns(c, k, key, "0x" + Digits(n, 16));
  }

  /** The two ports, and the counts that are 32 bits wide. */
  lemma {:induction false} PortLines(c: ConfigData, n: nat)
    requires n <= 0x7FFF_FFFF
    ensures Makes("_port1:" + Digits(n, 10), c, c.(fields := c.fields.(port1 := n)))
    ensures Makes("_port2:" + Digits(n, 10), c, c.(fields := c.fields.(port2 := n)))
  {
    DecimalLine(c, Port1, "_port1:", n);
    DecimalLine(c, Port2, "_port2:", n);
  }

  lemma {:induction false} SocketCountLine(c: ConfigData, n: nat)
    requires n <= 0x7FFF_FFFF
    ensures Makes("_prepare_accept_socket_count1:" + Digits(n, 10), c, c.(fields := c.fields.(prepareAcceptSocketCount1 := n)))
  {
    DecimalLine(c, SocketCount, "_prepare_accept_socket_count1:", n);
  }

  lemma {:induction false} DatabaseThreadsLine(c: ConfigData, n: nat)
    requires n <= 0x7FFF_FFFF
    ensures Makes("_database_work_thread_count:" + Digits(n, 10), c, c.(fields := c.fields.(databaseWorkThreadCount := n)))
  {
    DecimalLine(c, DbWorkThread, "_database_work_thread_count:", n);
  }

  /** The counts that are 16 bits wide take the number modulo 2^16. */
  lemma {:induction false} WorkCountLines(c: ConfigData, n: nat)
    requires n <= 0x7FFF_FFFF
    ensures Makes("_acceptor_work_count1:" + Digits(n, 10), c, c.(fields := c.fields.(acceptorWorkCount1 := n % 0x1_0000)))
    ensures Makes("_acceptor_work_count2:" + Digits(n, 10), c, c.(fields := c.fields.(acceptorWorkCount2 := n % 0x1_0000)))
  {
    DecimalLine(c, WorkCount1, "_acceptor_work_count1:", n);
    DecimalLine(c, WorkCount2, "_acceptor_work_count2:", n);
  }

  lemma {:induction false} TransferThreadsLine(c: ConfigData, n: nat)
    requires n <= 0x7FFF_FFFF
    ensures Makes("_info_transfer_station_work_thread_count:" + Digits(n, 10), c,
                  c.(fields := c.fields.(infoTransferStationWorkThreadCount := n % 0x1_0000)))
  {
    DecimalLine(c, TransferWorkThread, "_info_transfer_station_work_thread_count:", n);
  }

  /** The five buffer sizes are read in base 16. */
  lemma {:induction false} ReceiveBufferLines(c: ConfigData, n: nat)
    requires n <= 0x7FFF_FFFF
    ensures Makes("_receive_buffer_size1:" + ("0x" + Digits(n, 16)), c, c.(fields := c.fields.(receiveBufferSize1 := n)))
    ensures Makes("_receive_buffer_size2:" + ("0x" + Digits(n, 16)), c, c.(fields := c.fields.(receiveBufferSize2 := n)))
  {
    HexLine(c, ReceiveBuffer1, "_receive_buffer_size1:", n);
    HexLine(c, ReceiveBuffer2, "_receive_buffer_size2:", n);
  }

  lemma {:induction false} SendBufferLines(c: ConfigData, n: nat)
    requires n <= 0x7FFF_FFFF
    ensures Makes("_send_buffer_size1:" + ("0x" + Digits(n, 16)), c, c.(fields := c.fields.(sendBufferSize1 := n)))
    ensures Makes("_send_buffer_size2:" + ("0x" + Digits(n, 16)), c, c.(fields := c.fields.(sendBufferSize2 := n)))
  {
    HexLine(c, SendBuffer1, "_send_buffer_size1:", n);
    HexLine(c, SendBuffer2, "_send_buffer_size2:", n);
  }

  lemma {:induction false} DatabaseBufferLine(c: ConfigData, n: nat)
    requires n <= 0x7FFF_FFFF
    ensures Makes("_database_receive_buffer_size:" + ("0x" + Digits(n, 16)), c,
                  c.(fields := c.fields.(databaseReceiveBufferSize := n)))
  {
    HexLine(c, DbReceiveBuffer, "_database_receive_buffer_size:", n);
  }

  // ---------- Texts ----------

  /** Letters, numerals, '.' and ':'. */
  predicate Word(text: string) {
    forall ch | ch in text :: 'a' <= ch <= 'z' || 'A' <= ch <= 'Z' || '0' <= ch <= '9' || ch == '.' || ch == ':'
  }

  lemma {:induction false} WordAllKept(text: string)
    requires Word(text)
    ensures AllKept(text)
  {
  }

  lemma {:induction false} WordKept(text: string, r: nat)
    requires Word(text)
    ensures AllKept(text) && NoneBefore(text, r)
  {
    NoUnderscoreNoKey(text, r);
  }

  lemma {:induction false} AddressLines(c: ConfigData, text: string)
    requires Word(text)
    ensures Makes("_server_ip1:" + text, c, c.(fields := c.fields.(serverIp1 := text)))
    ensures Makes("_server_ip2:" + text, c, c.(fields := c.fields.(serverIp2 := text)))
  {
    WordKept(text, Rank(ServerIp1));
    WordKept(text, Rank(ServerIp2));
    LineAssigns(c, ServerIp1, "_server_ip1:", text);
    LineAssigns(c, ServerIp2, "_server_ip2:", text);
  }

  lemma {:induction false} TextLine(c: ConfigData, k: Key, key: string, text: string)
    requires Word(text) && key == KeyText(k) + [':'] && ConversionOf(k).CopyWideText?
    ensures Inside(key + text) <==> |text| < Capacity(k)
    ensures |text| < Capacity(k) ==> ApplyLine(c, key + text) == Put(c, k, Plain(text))
  {
    WordKept(text, Rank(k));
    OwnLine(k, key, text);
  }

  /** The three database texts, and the lengths from which on they are written over what stands behind them. */
  lemma {:induction false} DatabaseNameLine(c: ConfigData, text: string)
    requires Word(text)
    ensures Inside("_database_name:" + text) <==> |text| < 50
    ensures |text| < 50 ==> Makes("_database_name:" + text, c, c.(databaseName := text))
  {
    TextLine(c, DbName, "_database_name:", text);
  }

  lemma {:induction false} AccountNameLine(c: ConfigData, text: string)
    requires Word(text)
    ensures Inside("_database_account_name:" + text) <==> |text| < 50
    ensures |text| < 50 ==> Makes("_database_account_name:" + text, c, c.(databaseAccountName := text))
  {
    TextLine(c, DbAccount, "_database_account_name:", text);
  }

  lemma {:induction false} PasswordLine(c: ConfigData, text: string)
    requires Word(text)
    ensures Inside("_database_account_pwd:" + text) <==> |text| < 20
    ensures |text| < 20 ==> Makes("_database_account_pwd:" + text, c, c.(databaseAccountPwd := text))
  {
    TextLine(c, DbPwd, "_database_account_pwd:", text);
  }

  // ---------- The order of the chain, and lines without a ':' ----------

  /** The keys in the order in which the reader asks for them. */
  function Chain(): seq<string> {
    ["_port1", "_port2", "_server_ip1", "_server_ip2", "_prepare_accept_socket_count1",
     "_acceptor_work_count1", "_acceptor_work_count2",
     "_receive_buffer_size1", "_receive_buffer_size2", "_send_buffer_size1", "_send_buffer_size2",
     "_info_transfer_station_work_thread_count", "_database_receive_buffer_size", "_database_work_thread_count",
     "_database_name", "_database_account_name", "_database_account_pwd"]
  }

  lemma {:induction false} ChainIs(k: Key)
    ensures |Chain()| == 17 && Chain()[Rank(k)] == KeyText(k)
  {
  }

  /** The line goes to the first of these keys that it contains. */
  lemma {:induction false} ChainOrder(text: string, i: nat)
    requires i < 17
    ensures (Dispatch(text).Some? && KeyText(Dispatch(text).value) == Chain()[i])
            <==> Occurs(text, Chain()[i]) && forall j | 0 <= j < i :: !Occurs(text, Chain()[j])
  {
    var k := KeyAt(i);
    ChainIs(k);
    DispatchIs(text, k);
    forall j: nat | j < i
      ensures Chain()[j] == KeyText(KeyAt(j))
    {
      ChainIs(KeyAt(j));
    }
    forall j: Key | Rank(j) < i
      ensures KeyAt(Rank(j)) == j && Chain()[Rank(j)] == KeyText(j)
    {
      ChainIs(j);
      RankInjective(j, KeyAt(Rank(j)));
    }
    if Dispatch(text).Some? {
      SameText(Dispatch(text).value, k);
    }
  }

  lemma {:induction false} SameText(j: Key, k: Key)
    ensures KeyText(j) == KeyText(k) <==> j == k
  {
    KeyInKey(j, k);
    if KeyText(j) == KeyText(k) {
      assert OccursAt(KeyText(j), KeyText(k), 0);
    }
  }

  /** Without a ':' the whole line is taken for the value, the key with it. */
  lemma {:induction false} WithoutColon(text: string)
    requires ':' !in text
    ensures ValueText(text) == text
  {
    if Find(text, ":").Some? {
      MatchAt(text, ":", Find(text, ":").value, 0);
    }
  }

  lemma {:induction false} KeyAsValue(c: ConfigData, k: Key, key: string)
    requires key == KeyText(k) && FitsText(k, key)
    ensures Makes(key, c, Put(c, k, Convert(k, key))) && Atoi(key) == 0
  {
    KeysKept(k);
    FilterFixes(key);
    WithoutColon(key);
    KeyDispatched(k);
  }

  lemma {:induction false} AddressAlone(c: ConfigData)
    ensures Makes("_server_ip1", c, c.(fields := c.fields.(serverIp1 := "_server_ip1")))
  {
    KeyAsValue(c, ServerIp1, "_server_ip1");
  }

  lemma {:induction false} PortAlone(c: ConfigData)
    ensures Makes("_port1", c, c.(fields := c.fields.(port1 := 0)))
  {
    KeyAsValue(c, Port1, "_port1");
  }

  lemma {:induction false} KeyDispatched(k: Key)
    ensures Dispatch(KeyText(k)) == Some(k)
  {
    forall j: Key
      ensures Occurs(KeyText(k), KeyText(j)) <==> j == k
    {
      KeyInKey(k, j);
    }
    DispatchIs(KeyText(k), k);
  }
}
