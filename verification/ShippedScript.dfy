/**
  Scripts as the servers are shipped with, for instance ChatSvr/middle-server.txt, read as a whole: one
  line for each field, with blanks, quotation marks and comments.
 */
module ShippedScript {
  import opened Text
  import opened Numbers
  import opened ConfigKeys
  import opened ConfigSpec
  import opened ConfigProperties
  import opened ConfigLines

  /** What stands behind a value: blanks and tabs, and a comment. */
  datatype Tail = Tail(gap: string, comment: string)

  predicate Fitting(tail: Tail) {
    && (forall ch | ch in tail.gap :: ch == ' ' || ch == '\t')
    && '\n' !in tail.comment && |tail.gap| + |tail.comment| < 4000
  }

  /** A line as the script has it, with blanks around the ':'. */
  function Laid(name: string, value: string, tail: Tail): string {
    name + " : " + value + tail.gap + "-" + tail.comment
  }

  function Quote(text: string): string {
    "\"" + text + "\""
  }

  /** The `i`-th line of a script that gives the values in `v`. */
  function LineAt(i: nat, v: ConfigData, tail: Tail): string
    requires i < 17
  {
    match i
    case 0 => Laid("_port1", Digits(v.fields.port1, 10), tail)
    case 1 => Laid("_port2", Digits(v.fields.port2, 10), tail)
    case 2 => Laid("_server_ip1", Quote(v.fields.serverIp1), tail)
    case 3 => Laid("_server_ip2", Quote(v.fields.serverIp2), tail)
    case 4 => Laid("_prepare_accept_socket_count1", Digits(v.fields.prepareAcceptSocketCount1, 10), tail)
    case 5 => Laid("_acceptor_work_count1", Digits(v.fields.acceptorWorkCount1, 10), tail)
    case 6 => Laid("_acceptor_work_count2", Digits(v.fields.acceptorWorkCount2, 10), tail)
    case 7 => Laid("_receive_buffer_size1", "0x" + Digits(v.fields.receiveBufferSize1, 16), tail)
    case 8 => Laid("_receive_buffer_size2", "0x" + Digits(v.fields.receiveBufferSize2, 16), tail)
    case 9 => Laid("_send_buffer_size1", "0x" + Digits(v.fields.sendBufferSize1, 16), tail)
    case 10 => Laid("_send_buffer_size2", "0x" + Digits(v.fields.sendBufferSize2, 16), tail)
    case 11 => Laid("_info_transfer_station_work_thread_count", Digits(v.fields.infoTransferStationWorkThreadCount, 10), tail)
    case 12 => Laid("_database_name", Quote(v.databaseName), tail)
    case 13 => Laid("_database_account_name", Quote(v.databaseAccountName), tail)
    case 14 => Laid("_database_account_pwd", Quote(v.databaseAccountPwd), tail)
    case 15 => Laid("_database_receive_buffer_size", "0x" + Digits(v.fields.databaseReceiveBufferSize, 16), tail)
    case _ => Laid("_database_work_thread_count", Digits(v.fields.databaseWorkThreadCount, 10), tail)
  }

  function Script(v: ConfigData, tails: seq<Tail>): seq<string>
    requires |tails| <= 17
  {
    seq(|tails|, i requires 0 <= i < |tails| => LineAt(i, v, tails[i]))
  }

  /** Numbers no larger than the largest `long`, and texts of letters, numerals, '.' and ':'. */
  predicate Sayable(v: ConfigData) {
    && v.fields.port1 <= 0x7FFF_FFFF && v.fields.port2 <= 0x7FFF_FFFF
    && v.fields.prepareAcceptSocketCount1 <= 0x7FFF_FFFF && v.fields.databaseWorkThreadCount <= 0x7FFF_FFFF
    && v.fields.receiveBufferSize1 <= 0x7FFF_FFFF && v.fields.receiveBufferSize2 <= 0x7FFF_FFFF
    && v.fields.sendBufferSize1 <= 0x7FFF_FFFF && v.fields.sendBufferSize2 <= 0x7FFF_FFFF
    && v.fields.databaseReceiveBufferSize <= 0x7FFF_FFFF
    && Word(v.fields.serverIp1) && Word(v.fields.serverIp2)
    && Word(v.databaseName) && Word(v.databaseAccountName) && Word(v.databaseAccountPwd)
  }

  /** `d` with the value that the `i`-th line gives. */
  function Given(i: nat, d: ConfigData, v: ConfigData): ConfigData
    requires i < 17
  {
    match i
    case 0 => d.(fields := d.fields.(port1 := v.fields.port1))
    case 1 => d.(fields := d.fields.(port2 := v.fields.port2))
    case 2 => d.(fields := d.fields.(serverIp1 := v.fields.serverIp1))
    case 3 => d.(fields := d.fields.(serverIp2 := v.fields.serverIp2))
    case 4 => d.(fields := d.fields.(prepareAcceptSocketCount1 := v.fields.prepareAcceptSocketCount1))
    case 5 => d.(fields := d.fields.(acceptorWorkCount1 := v.fields.acceptorWorkCount1))
    case 6 => d.(fields := d.fields.(acceptorWorkCount2 := v.fields.acceptorWorkCount2))
    case 7 => d.(fields := d.fields.(receiveBufferSize1 := v.fields.receiveBufferSize1))
    case 8 => d.(fields := d.fields.(receiveBufferSize2 := v.fields.receiveBufferSize2))
    case 9 => d.(fields := d.fields.(sendBufferSize1 := v.fields.sendBufferSize1))
    case 10 => d.(fields := d.fields.(sendBufferSize2 := v.fields.sendBufferSize2))
    case 11 => d.(fields := d.fields.(infoTransferStationWorkThreadCount := v.fields.infoTransferStationWorkThreadCount))
    case 12 => d.(databaseName := v.databaseName)
    case 13 => d.(databaseAccountName := v.databaseAccountName)
    case 14 => d.(databaseAccountPwd := v.databaseAccountPwd)
    case 15 => d.(fields := d.fields.(databaseReceiveBufferSize := v.fields.databaseReceiveBufferSize))
    case _ => d.(fields := d.fields.(databaseWorkThreadCount := v.fields.databaseWorkThreadCount))
  }

  /** `c` with the values that the first `i` lines give. */
  function Upto(i: nat, c: ConfigData, v: ConfigData): ConfigData
    requires i <= 17
  {
    if i == 0 then c else Given(i - 1, Upto(i - 1, c, v), v)
  }

  // ---------- One line ----------

  lemma {:induction false} GapFiltered(gap: string)
    requires forall ch | ch in gap :: ch == ' ' || ch == '\t'
    ensures Filter(gap) == ""
  {
    if gap != "" {
      assert gap[0] in gap && forall ch | ch in gap[1..] :: ch in gap;
      GapFiltered(gap[1..]);
    }
  }

  lemma {:induction false} FrontFiltered(name: string)
    requires AllKept(name)
    ensures Filter(name + " : ") == name + ":" && '-' !in name + " : " && '\0' !in name + " : "
  {
    FilterFixes(name);
    assert Filter(" : ") == ":";
    FilterAppend(name, " : ");
  }

  lemma {:induction false} LaidFiltered(name: string, quoted: string, value: string, tail: Tail)
    requires AllKept(name) && Filter(quoted) == value && '-' !in quoted && '\0' !in quoted && Fitting(tail)
    ensures Filter(Laid(name, quoted, tail)) == name + ":" + value
  {
    var front := name + " : ";
    FrontFiltered(name);
    FilterAppend(front, quoted);
    GapFiltered(tail.gap);
    FilterAppend(front + quoted, tail.gap);
    FilterStops(front + quoted + tail.gap, tail.comment);
  }

  lemma {:induction false} SameAsBare(line: string, bare: string, c: ConfigData, d: ConfigData)
    requires Filter(line) == bare && AllKept(bare) && Makes(bare, c, d)
    ensures Makes(line, c, d)
  {
    FilterFixes(bare);
    assert Written(line) == Written(bare);
  }

  /** The line does what the bare line of its key and value does. */
  lemma {:induction false} LaidMakes(k: Key, name: string, key: string, value: string, tail: Tail,
                                     c: ConfigData, d: ConfigData)
    requires name == KeyText(k) && key == KeyText(k) + [':'] && AllKept(value) && Fitting(tail)
    requires Makes(key + value, c, d)
    ensures Makes(Laid(name, value, tail), c, d) && Makes(Laid(name, Quote(value), tail), c, d)
  {
    KeysKept(k);
    Quoted(value);
    LaidFiltered(name, value, value, tail);
    LaidFiltered(name, Quote(value), value, tail);
    SameAsBare(Laid(name, value, tail), key + value, c, d);
    SameAsBare(Laid(name, Quote(value), tail), key + value, c, d);
  }

  lemma {:induction false} Quoted(value: string)
    requires AllKept(value)
    ensures Filter("\"" + value + "\"") == value && Filter(value) == value
    ensures '-' !in "\"" + value + "\"" && '\0' !in "\"" + value + "\"" && '-' !in value && '\0' !in value
  {
    FilterFixes(value);
    FilterAppend("\"", value);
    FilterAppend("\"" + value, "\"");
    assert Filter("\"") == "";
  }

  // ---------- Each line ----------

  lemma {:induction false} Port1Laid(c: ConfigData, v: ConfigData, tail: Tail)
    requires Sayable(v) && Fitting(tail)
    ensures Makes(LineAt(0, v, tail), c, c.(fields := c.fields.(port1 := v.fields.port1)))
  {
    var line := Laid("_port1", Digits(v.fields.port1, 10), tail);
    assert LineAt(0, v, tail) == line;
    NumberText(v.fields.port1);
    PortLines(c, v.fields.port1);
    LaidMakes(Port1, "_port1", "_port1:",
              Digits(v.fields.port1, 10), tail,
              c, c.(fields := c.fields.(port1 := v.fields.port1)));
  }

  lemma {:induction false} Port2Laid(c: ConfigData, v: ConfigData, tail: Tail)
    requires Sayable(v) && Fitting(tail)
    ensures Makes(LineAt(1, v, tail), c, c.(fields := c.fields.(port2 := v.fields.port2)))
  {
    var line := Laid("_port2", Digits(v.fields.port2, 10), tail);
    assert LineAt(1, v, tail) == line;
    NumberText(v.fields.port2);
    PortLines(c, v.fields.port2);
    LaidMakes(Port2, "_port2", "_port2:",
              Digits(v.fields.port2, 10), tail,
              c, c.(fields := c.fields.(port2 := v.fields.port2)));
  }

  lemma {:induction false} ServerIp1Laid(c: ConfigData, v: ConfigData, tail: Tail)
    requires Sayable(v) && Fitting(tail)
    ensures Makes(LineAt(2, v, tail), c, c.(fields := c.fields.(serverIp1 := v.fields.serverIp1)))
  {
    var line := Laid("_server_ip1", Quote(v.fields.serverIp1), tail);
    assert LineAt(2, v, tail) == line;
    WordAllKept(v.fields.serverIp1);
    AddressLines(c, v.fields.serverIp1);
    LaidMakes(ServerIp1, "_server_ip1", "_server_ip1:",
              v.fields.serverIp1, tail,
              c, c.(fields := c.fields.(serverIp1 := v.fields.serverIp1)));
  }

  lemma {:induction false} ServerIp2Laid(c: ConfigData, v: ConfigData, tail: Tail)
    requires Sayable(v) && Fitting(tail)
    ensures Makes(LineAt(3, v, tail), c, c.(fields := c.fields.(serverIp2 := v.fields.serverIp2)))
  {
    var line := Laid("_server_ip2", Quote(v.fields.serverIp2), tail);
    assert LineAt(3, v, tail) == line;
    WordAllKept(v.fields.serverIp2);
    AddressLines(c, v.fields.serverIp2);
    LaidMakes(ServerIp2, "_server_ip2", "_server_ip2:",
              v.fields.serverIp2, tail,
              c, c.(fields := c.fields.(serverIp2 := v.fields.serverIp2)));
  }

  lemma {:induction false} SocketCountLaid(c: ConfigData, v: ConfigData, tail: Tail)
    requires Sayable(v) && Fitting(tail)
    ensures Makes(LineAt(4, v, tail), c,
                  c.(fields := c.fields.(prepareAcceptSocketCount1 := v.fields.prepareAcceptSocketCount1)))
  {
    var line := Laid("_prepare_accept_socket_count1", Digits(v.fields.prepareAcceptSocketCount1, 10), tail);
    assert LineAt(4, v, tail) == line;
    NumberText(v.fields.prepareAcceptSocketCount1);
    SocketCountLine(c, v.fields.prepareAcceptSocketCount1);
    LaidMakes(SocketCount, "_prepare_accept_socket_count1", "_prepare_accept_socket_count1:",
              Digits(v.fields.prepareAcceptSocketCount1, 10), tail,
              c, c.(fields := c.fields.(prepareAcceptSocketCount1 := v.fields.prepareAcceptSocketCount1)));
  }

  lemma {:induction false} WorkCount1Laid(c: ConfigData, v: ConfigData, tail: Tail)
    requires Sayable(v) && Fitting(tail)
    ensures Makes(LineAt(5, v, tail), c,
                  c.(fields := c.fields.(acceptorWorkCount1 := v.fields.acceptorWorkCount1)))
  {
    var line := Laid("_acceptor_work_count1", Digits(v.fields.acceptorWorkCount1, 10), tail);
    assert LineAt(5, v, tail) == line;
    NumberText(v.fields.acceptorWorkCount1);
    WorkCountLines(c, v.fields.acceptorWorkCount1);
    LaidMakes(WorkCount1, "_acceptor_work_count1", "_acceptor_work_count1:",
              Digits(v.fields.acceptorWorkCount1, 10), tail,
              c, c.(fields := c.fields.(acceptorWorkCount1 := v.fields.acceptorWorkCount1)));
  }

  lemma {:induction false} WorkCount2Laid(c: ConfigData, v: ConfigData, tail: Tail)
    requires Sayable(v) && Fitting(tail)
    ensures Makes(LineAt(6, v, tail), c,
                  c.(fields := c.fields.(acceptorWorkCount2 := v.fields.acceptorWorkCount2)))
  {
    var line := Laid("_acceptor_work_count2", Digits(v.fields.acceptorWorkCount2, 10), tail);
    assert LineAt(6, v, tail) == line;
    NumberText(v.fields.acceptorWorkCount2);
    WorkCountLines(c, v.fields.acceptorWorkCount2);
    LaidMakes(WorkCount2, "_acceptor_work_count2", "_acceptor_work_count2:",
              Digits(v.fields.acceptorWorkCount2, 10), tail,
              c, c.(fields := c.fields.(acceptorWorkCount2 := v.fields.acceptorWorkCount2)));
  }

  lemma {:induction false} ReceiveBuffer1Laid(c: ConfigData, v: ConfigData, tail: Tail)
    requires Sayable(v) && Fitting(tail)
    ensures Makes(LineAt(7, v, tail), c,
                  c.(fields := c.fields.(receiveBufferSize1 := v.fields.receiveBufferSize1)))
  {
    var line := Laid("_receive_buffer_size1", "0x" + Digits(v.fields.receiveBufferSize1, 16), tail);
    assert LineAt(7, v, tail) == line;
    NumberText(v.fields.receiveBufferSize1);
    ReceiveBufferLines(c, v.fields.receiveBufferSize1);
    LaidMakes(ReceiveBuffer1, "_receive_buffer_size1", "_receive_buffer_size1:",
              "0x" + Digits(v.fields.receiveBufferSize1, 16), tail,
              c, c.(fields := c.fields.(receiveBufferSize1 := v.fields.receiveBufferSize1)));
  }

  lemma {:induction false} ReceiveBuffer2Laid(c: ConfigData, v: ConfigData, tail: Tail)
    requires Sayable(v) && Fitting(tail)
    ensures Makes(LineAt(8, v, tail), c,
                  c.(fields := c.fields.(receiveBufferSize2 := v.fields.receiveBufferSize2)))
  {
    var line := Laid("_receive_buffer_size2", "0x" + Digits(v.fields.receiveBufferSize2, 16), tail);
    assert LineAt(8, v, tail) == line;
    NumberText(v.fields.receiveBufferSize2);
    ReceiveBufferLines(c, v.fields.receiveBufferSize2);
    LaidMakes(ReceiveBuffer2, "_receive_buffer_size2", "_receive_buffer_size2:",
              "0x" + Digits(v.fields.receiveBufferSize2, 16), tail,
              c, c.(fields := c.fields.(receiveBufferSize2 := v.fields.receiveBufferSize2)));
  }

  lemma {:induction false} SendBuffer1Laid(c: ConfigData, v: ConfigData, tail: Tail)
    requires Sayable(v) && Fitting(tail)
    ensures Makes(LineAt(9, v, tail), c,
                  c.(fields := c.fields.(sendBufferSize1 := v.fields.sendBufferSize1)))
  {
    var line := Laid("_send_buffer_size1", "0x" + Digits(v.fields.sendBufferSize1, 16), tail);
    assert LineAt(9, v, tail) == line;
    NumberText(v.fields.sendBufferSize1);
    SendBufferLines(c, v.fields.sendBufferSize1);
    LaidMakes(SendBuffer1, "_send_buffer_size1", "_send_buffer_size1:",
              "0x" + Digits(v.fields.sendBufferSize1, 16), tail,
              c, c.(fields := c.fields.(sendBufferSize1 := v.fields.sendBufferSize1)));
  }

  lemma {:induction false} SendBuffer2Laid(c: ConfigData, v: ConfigData, tail: Tail)
    requires Sayable(v) && Fitting(tail)
    ensures Makes(LineAt(10, v, tail), c,
                  c.(fields := c.fields.(sendBufferSize2 := v.fields.sendBufferSize2)))
  {
    var line := Laid("_send_buffer_size2", "0x" + Digits(v.fields.sendBufferSize2, 16), tail);
    assert LineAt(10, v, tail) == line;
    NumberText(v.fields.sendBufferSize2);
    SendBufferLines(c, v.fields.sendBufferSize2);
    LaidMakes(SendBuffer2, "_send_buffer_size2", "_send_buffer_size2:",
              "0x" + Digits(v.fields.sendBufferSize2, 16), tail,
              c, c.(fields := c.fields.(sendBufferSize2 := v.fields.sendBufferSize2)));
  }

  lemma {:induction false} TransferWorkThreadLaid(c: ConfigData, v: ConfigData, tail: Tail)
    requires Sayable(v) && Fitting(tail)
    ensures Makes(LineAt(11, v, tail), c,
                  c.(fields := c.fields.(infoTransferStationWorkThreadCount := v.fields.infoTransferStationWorkThreadCount)))
  {
    var line := Laid("_info_transfer_station_work_thread_count", Digits(v.fields.infoTransferStationWorkThreadCount, 10), tail);
    assert LineAt(11, v, tail) == line;
    NumberText(v.fields.infoTransferStationWorkThreadCount);
    TransferThreadsLine(c, v.fields.infoTransferStationWorkThreadCount);
    LaidMakes(TransferWorkThread, "_info_transfer_station_work_thread_count", "_info_transfer_station_work_thread_count:",
              Digits(v.fields.infoTransferStationWorkThreadCount, 10), tail,
              c, c.(fields := c.fields.(infoTransferStationWorkThreadCount := v.fields.infoTransferStationWorkThreadCount)));
  }

  lemma {:induction false} DbNameLaid(c: ConfigData, v: ConfigData, tail: Tail)
    requires Sayable(v) && Fitting(tail)
    ensures Makes(LineAt(12, v, tail), c, c.(databaseName := v.databaseName))
  {
    var line := Laid("_database_name", Quote(v.databaseName), tail);
    assert LineAt(12, v, tail) == line;
    WordAllKept(v.databaseName);
    DatabaseNameLine(c, v.databaseName);
    LaidMakes(DbName, "_database_name", "_database_name:",
              v.databaseName, tail,
              c, c.(databaseName := v.databaseName));
  }

  lemma {:induction false} DbAccountLaid(c: ConfigData, v: ConfigData, tail: Tail)
    requires Sayable(v) && Fitting(tail)
    ensures Makes(LineAt(13, v, tail), c, c.(databaseAccountName := v.databaseAccountName))
  {
    var line := Laid("_database_account_name", Quote(v.databaseAccountName), tail);
    assert LineAt(13, v, tail) == line;
    WordAllKept(v.databaseAccountName);
    AccountNameLine(c, v.databaseAccountName);
    LaidMakes(DbAccount, "_database_account_name", "_database_account_name:",
              v.databaseAccountName, tail,
              c, c.(databaseAccountName := v.databaseAccountName));
  }

  lemma {:induction false} DbPwdLaid(c: ConfigData, v: ConfigData, tail: Tail)
    requires Sayable(v) && Fitting(tail)
    ensures Makes(LineAt(14, v, tail), c, c.(databaseAccountPwd := v.databaseAccountPwd))
  {
    var line := Laid("_database_account_pwd", Quote(v.databaseAccountPwd), tail);
    assert LineAt(14, v, tail) == line;
    WordAllKept(v.databaseAccountPwd);
    PasswordLine(c, v.databaseAccountPwd);
    LaidMakes(DbPwd, "_database_account_pwd", "_database_account_pwd:",
              v.databaseAccountPwd, tail,
              c, c.(databaseAccountPwd := v.databaseAccountPwd));
  }

  lemma {:induction false} DbReceiveBufferLaid(c: ConfigData, v: ConfigData, tail: Tail)
    requires Sayable(v) && Fitting(tail)
    ensures Makes(LineAt(15, v, tail), c,
                  c.(fields := c.fields.(databaseReceiveBufferSize := v.fields.databaseReceiveBufferSize)))
  {
    var line := Laid("_database_receive_buffer_size", "0x" + Digits(v.fields.databaseReceiveBufferSize, 16), tail);
    assert LineAt(15, v, tail) == line;
    NumberText(v.fields.databaseReceiveBufferSize);
    DatabaseBufferLine(c, v.fields.databaseReceiveBufferSize);
    LaidMakes(DbReceiveBuffer, "_database_receive_buffer_size", "_database_receive_buffer_size:",
              "0x" + Digits(v.fields.databaseReceiveBufferSize, 16), tail,
              c, c.(fields := c.fields.(databaseReceiveBufferSize := v.fields.databaseReceiveBufferSize)));
  }

  lemma {:induction false} DbWorkThreadLaid(c: ConfigData, v: ConfigData, tail: Tail)
    requires Sayable(v) && Fitting(tail)
    ensures Makes(LineAt(16, v, tail), c,
                  c.(fields := c.fields.(databaseWorkThreadCount := v.fields.databaseWorkThreadCount)))
  {
    var line := Laid("_database_work_thread_count", Digits(v.fields.databaseWorkThreadCount, 10), tail);
    assert LineAt(16, v, tail) == line;
    NumberText(v.fields.databaseWorkThreadCount);
    DatabaseThreadsLine(c, v.fields.databaseWorkThreadCount);
    LaidMakes(DbWorkThread, "_database_work_thread_count", "_database_work_thread_count:",
              Digits(v.fields.databaseWorkThreadCount, 10), tail,
              c, c.(fields := c.fields.(databaseWorkThreadCount := v.fields.databaseWorkThreadCount)));
  }

  lemma {:induction false} LineMakes(i: nat, c: ConfigData, v: ConfigData, tail: Tail)
    requires i < 17 && Sayable(v) && Fitting(tail)
    ensures Makes(LineAt(i, v, tail), Upto(i, c, v), Upto(i + 1, c, v))
  {
    var d := Upto(i, c, v);
    match i
    case 0 => Port1Laid(d, v, tail);
    case 1 => Port2Laid(d, v, tail);
    case 2 => ServerIp1Laid(d, v, tail);
    case 3 => ServerIp2Laid(d, v, tail);
    case 4 => SocketCountLaid(d, v, tail);
    case 5 => WorkCount1Laid(d, v, tail);
    case 6 => WorkCount2Laid(d, v, tail);
    case 7 => ReceiveBuffer1Laid(d, v, tail);
    case 8 => ReceiveBuffer2Laid(d, v, tail);
    case 9 => SendBuffer1Laid(d, v, tail);
    case 10 => SendBuffer2Laid(d, v, tail);
    case 11 => TransferWorkThreadLaid(d, v, tail);
    case 12 => DbNameLaid(d, v, tail);
    case 13 => DbAccountLaid(d, v, tail);
    case 14 => DbPwdLaid(d, v, tail);
    case 15 => DbReceiveBufferLaid(d, v, tail);
    case _ => DbWorkThreadLaid(d, v, tail);
  }

  // ---------- The parts ----------

  /** The lines stay inside the arrays, and take the one configuration to the other. */
  predicate Reads(c: ConfigData, lines: seq<string>, d: ConfigData) {
    AllInside(lines) && ReadLines(c, lines) == d
  }

  lemma {:induction false} ReadsOne(c: ConfigData, line: string, d: ConfigData)
    requires Makes(line, c, d)
    ensures Reads(c, [line], d)
  {
    assert ReadLines(ApplyLine(c, line), [line][1..]) == d;
  }

  lemma {:induction false} ReadsAppend(c: ConfigData, a: seq<string>, d: ConfigData, b: seq<string>, e: ConfigData)
    requires Reads(c, a, d) && Reads(d, b, e)
    ensures Reads(c, a + b, e)
  {
    ReadLinesAppend(c, a, b);
  }

  predicate AllFitting(tails: seq<Tail>) {
    forall tail | tail in tails :: Fitting(tail)
  }

  lemma {:induction false} ScriptGrows(v: ConfigData, tails: seq<Tail>)
    requires 0 < |tails| <= 17
    ensures var i := |tails| - 1; Script(v, tails) == Script(v, tails[..i]) + [LineAt(i, v, tails[i])]
  {
  }

  lemma {:induction false} ScriptReads(c: ConfigData, v: ConfigData, tails: seq<Tail>)
    requires |tails| <= 17 && AllFitting(tails) && Sayable(v)
    ensures Reads(c, Script(v, tails), Upto(|tails|, c, v))
  {
    if tails != [] {
      var i, before := |tails| - 1, tails[..|tails| - 1];
      ScriptReads(c, v, before);
      LineMakes(i, c, v, tails[i]);
      var line := LineAt(i, v, tails[i]);
      ReadsOne(Upto(i, c, v), line, Upto(i + 1, c, v));
      ReadsAppend(c, Script(v, before), Upto(i, c, v), [line], Upto(i + 1, c, v));
      ScriptGrows(v, tails);
    }
  }

  /** All 17 fields are given. */
  lemma {:induction false} UptoAll(c: ConfigData, v: ConfigData)
    ensures Upto(17, c, v) == v
  {
    var d0 := c;
    var d1 := Given(0, d0, v);
    assert Upto(1, c, v) == d1;
    var d2 := Given(1, d1, v);
    assert Upto(2, c, v) == d2;
    var d3 := Given(2, d2, v);
    assert Upto(3, c, v) == d3;
    var d4 := Given(3, d3, v);
    assert Upto(4, c, v) == d4;
    var d5 := Given(4, d4, v);
    assert Upto(5, c, v) == d5;
    var d6 := Given(5, d5, v);
    assert Upto(6, c, v) == d6;
    var d7 := Given(6, d6, v);
    assert Upto(7, c, v) == d7;
    var d8 := Given(7, d7, v);
    assert Upto(8, c, v) == d8;
    var d9 := Given(8, d8, v);
    assert Upto(9, c, v) == d9;
    var d10 := Given(9, d9, v);
    assert Upto(10, c, v) == d10;
    var d11 := Given(10, d10, v);
    assert Upto(11, c, v) == d11;
    var d12 := Given(11, d11, v);
    assert Upto(12, c, v) == d12;
    var d13 := Given(12, d12, v);
    assert Upto(13, c, v) == d13;
    var d14 := Given(13, d13, v);
    assert Upto(14, c, v) == d14;
    var d15 := Given(14, d14, v);
    assert Upto(15, c, v) == d15;
    var d16 := Given(15, d15, v);
    assert Upto(16, c, v) == d16;
    var d17 := Given(16, d16, v);
    assert Upto(17, c, v) == d17;
  }

  lemma {:induction false} LaidHasNoNewline(k: Key, name: string, value: string, tail: Tail)
    requires name == KeyText(k) && AllKept(value) && Fitting(tail)
    ensures '\n' !in Laid(name, value, tail) && '\n' !in Laid(name, Quote(value), tail)
  {
    KeysKept(k);
    assert '\n' !in name && '\n' !in " : " && '\n' !in "-";
    assert '\n' !in value && '\n' !in Quote(value) && '\n' !in tail.gap;
  }

  lemma {:induction false} EarlyLineHasNoNewline(i: nat, v: ConfigData, tail: Tail)
    requires i < 6 && Sayable(v) && Fitting(tail)
    ensures '\n' !in LineAt(i, v, tail)
  {
    match i
    case 0 =>
      NumberText(v.fields.port1);
      LaidHasNoNewline(Port1, "_port1", Digits(v.fields.port1, 10), tail);
    case 1 =>
      NumberText(v.fields.port2);
      LaidHasNoNewline(Port2, "_port2", Digits(v.fields.port2, 10), tail);
    case 2 =>
      WordAllKept(v.fields.serverIp1);
      LaidHasNoNewline(ServerIp1, "_server_ip1", v.fields.serverIp1, tail);
    case 3 =>
      WordAllKept(v.fields.serverIp2);
      LaidHasNoNewline(ServerIp2, "_server_ip2", v.fields.serverIp2, tail);
    case 4 =>
      NumberText(v.fields.prepareAcceptSocketCount1);
      LaidHasNoNewline(SocketCount, "_prepare_accept_socket_count1",
                       Digits(v.fields.prepareAcceptSocketCount1, 10), tail);
    case _ =>
      NumberText(v.fields.acceptorWorkCount1);
      LaidHasNoNewline(WorkCount1, "_acceptor_work_count1", Digits(v.fields.acceptorWorkCount1, 10), tail);
  }

  lemma {:induction false} MiddleLineHasNoNewline(i: nat, v: ConfigData, tail: Tail)
    requires 6 <= i < 12 && Sayable(v) && Fitting(tail)
    ensures '\n' !in LineAt(i, v, tail)
  {
    match i
    case 6 =>
      NumberText(v.fields.acceptorWorkCount2);
      LaidHasNoNewline(WorkCount2, "_acceptor_work_count2", Digits(v.fields.acceptorWorkCount2, 10), tail);
    case 7 =>
      NumberText(v.fields.receiveBufferSize1);
      LaidHasNoNewline(ReceiveBuffer1, "_receive_buffer_size1",
                       "0x" + Digits(v.fields.receiveBufferSize1, 16), tail);
    case 8 =>
      NumberText(v.fields.receiveBufferSize2);
      LaidHasNoNewline(ReceiveBuffer2, "_receive_buffer_size2",
                       "0x" + Digits(v.fields.receiveBufferSize2, 16), tail);
    case 9 =>
      NumberText(v.fields.sendBufferSize1);
      LaidHasNoNewline(SendBuffer1, "_send_buffer_size1",
                       "0x" + Digits(v.fields.sendBufferSize1, 16), tail);
    case 10 =>
      NumberText(v.fields.sendBufferSize2);
      LaidHasNoNewline(SendBuffer2, "_send_buffer_size2",
                       "0x" + Digits(v.fields.sendBufferSize2, 16), tail);
    case _ =>
      NumberText(v.fields.infoTransferStationWorkThreadCount);
      LaidHasNoNewline(TransferWorkThread, "_info_transfer_station_work_thread_count",
                       Digits(v.fields.infoTransferStationWorkThreadCount, 10), tail);
  }

  lemma {:induction false} LateLineHasNoNewline(i: nat, v: ConfigData, tail: Tail)
    requires 12 <= i < 17 && Sayable(v) && Fitting(tail)
    ensures '\n' !in LineAt(i, v, tail)
  {
    match i
    case 12 =>
      WordAllKept(v.databaseName);
      LaidHasNoNewline(DbName, "_database_name", v.databaseName, tail);
    case 13 =>
      WordAllKept(v.databaseAccountName);
      LaidHasNoNewline(DbAccount, "_database_account_name", v.databaseAccountName, tail);
    case 14 =>
      WordAllKept(v.databaseAccountPwd);
      LaidHasNoNewline(DbPwd, "_database_account_pwd", v.databaseAccountPwd, tail);
    case 15 =>
      NumberText(v.fields.databaseReceiveBufferSize);
      LaidHasNoNewline(DbReceiveBuffer, "_database_receive_buffer_size",
                       "0x" + Digits(v.fields.databaseReceiveBufferSize, 16), tail);
    case _ =>
      NumberText(v.fields.databaseWorkThreadCount);
      LaidHasNoNewline(DbWorkThread, "_database_work_thread_count",
                       Digits(v.fields.databaseWorkThreadCount, 10), tail);
  }

  lemma {:induction false} LinesFit(v: ConfigData, tails: seq<Tail>)
    requires |tails| == 17 && AllFitting(tails) && Sayable(v)
    requires forall line | line in Script(v, tails) :: |line| <= 4095
    ensures forall line | line in Script(v, tails) :: FitsLine(line) && line != ""
  {
    forall line | line in Script(v, tails)
      ensures FitsLine(line) && line != ""
    {
      var i: nat :| i < 17 && Script(v, tails)[i] == line;
      if i < 6 {
        EarlyLineHasNoNewline(i, v, tails[i]);
      } else if i < 12 {
        MiddleLineHasNoNewline(i, v, tails[i]);
      } else {
        LateLineHasNoNewline(i, v, tails[i]);
      }
      LaidNotEmpty(i, v, tails[i]);
    }
  }

  lemma {:induction false} LaidNotEmpty(i: nat, v: ConfigData, tail: Tail)
    requires i < 17
    ensures LineAt(i, v, tail) != ""
  {
  }

  /** A file of lines that fit, the last one not ended. */
  lemma {:induction false} LastNotEnded(lines: seq<string>)
    requires lines != [] && forall line | line in lines :: FitsLine(line) && line != ""
    ensures var last := |lines| - 1; Lines(Join(lines[..last]) + lines[last]) == lines
  {
    var front, last := lines[..|lines| - 1], lines[|lines| - 1];
    assert forall line | line in front :: line in lines;
    assert last in lines;
    LinesOfJoin(front, last);
    assert front + [last] == lines;
  }

  /**
    A script of this form, with any sayable values and any comments, gives exactly these values,
    whatever the configuration was before. The last line is not ended.
   */
  lemma {:induction false} ScriptGives(c: ConfigData, v: ConfigData, tails: seq<Tail>)
    requires |tails| == 17 && AllFitting(tails) && Sayable(v)
    requires forall line | line in Script(v, tails) :: |line| <= 4095
    ensures var lines := Script(v, tails);
            var file := Join(lines[..16]) + lines[16];
            StaysInside(file) && ReadFile(c, file) == v
  {
    LinesFit(v, tails);
    LastNotEnded(Script(v, tails));
    ScriptReads(c, v, tails);
    UptoAll(c, v);
  }

  // ---------- The middle server ----------

  /** The values of ChatSvr/middle-server.txt. */
  function MiddleServer(): ConfigData {
    ConfigData(
      Fields(8001, 8002, "192.168.1.60", "192.168.1.60", 2000, 4, 1, 0x8000, 0x8000, 0x8000, 0x8000, 4, 0x8000, 1),
      "ConfigDb", "millionserver", "123456")
  }

  /** Its lines. */
  function MiddleLine(i: nat, tail: Tail): string
    requires i < 17
  {
    match i
    case 0 => Laid("_port1", "8001", tail)
    case 1 => Laid("_port2", "8002", tail)
    case 2 => Laid("_server_ip1", "\"192.168.1.60\"", tail)
    case 3 => Laid("_server_ip2", "\"192.168.1.60\"", tail)
    case 4 => Laid("_prepare_accept_socket_count1", "2000", tail)
    case 5 => Laid("_acceptor_work_count1", "4", tail)
    case 6 => Laid("_acceptor_work_count2", "1", tail)
    case 7 => Laid("_receive_buffer_size1", "0x8000", tail)
    case 8 => Laid("_receive_buffer_size2", "0x8000", tail)
    case 9 => Laid("_send_buffer_size1", "0x8000", tail)
    case 10 => Laid("_send_buffer_size2", "0x8000", tail)
    case 11 => Laid("_info_transfer_station_work_thread_count", "4", tail)
    case 12 => Laid("_database_name", "\"ConfigDb\"", tail)
    case 13 => Laid("_database_account_name", "\"millionserver\"", tail)
    case 14 => Laid("_database_account_pwd", "\"123456\"", tail)
    case 15 => Laid("_database_receive_buffer_size", "0x8000", tail)
    case _ => Laid("_database_work_thread_count", "1", tail)
  }

  lemma {:induction false} NumbersSpelt()
    ensures Digits(8001, 10) == "8001" && Digits(8002, 10) == "8002" && Digits(2000, 10) == "2000"
    ensures Digits(4, 10) == "4" && Digits(1, 10) == "1" && "0x" + Digits(0x8000, 16) == "0x8000"
  {
  }

  lemma {:induction false} TextsQuoted()
    ensures Quote("192.168.1.60") == "\"192.168.1.60\"" && Quote("ConfigDb") == "\"ConfigDb\""
    ensures Quote("millionserver") == "\"millionserver\"" && Quote("123456") == "\"123456\""
  {
  }

  lemma {:induction false} MiddleSayable()
    ensures Sayable(MiddleServer())
  {
  }

  lemma {:induction false} MiddleSpelt(i: nat, tail: Tail)
    requires i < 17
    ensures LineAt(i, MiddleServer(), tail) == MiddleLine(i, tail)
  {
    NumbersSpelt();
    TextsQuoted();
  }

  lemma {:induction false} MiddleFits(i: nat, tail: Tail)
    requires i < 17 && Fitting(tail)
    ensures |MiddleLine(i, tail)| <= 4095
  {
    if i < 9 {
      EarlyMiddleFits(i, tail);
    }
  }

  lemma {:induction false} EarlyMiddleFits(i: nat, tail: Tail)
    requires i < 9 && Fitting(tail)
    ensures |MiddleLine(i, tail)| <= 4095
  {
  }

  /**
    The script the middle server is shipped with gives the configuration it spells, whatever its
    comments and the built-in defaults.
   */
  lemma {:induction false} MiddleServerScript(c: ConfigData, tails: seq<Tail>)
    requires |tails| == 17 && AllFitting(tails)
    ensures var lines := seq(17, i requires 0 <= i < 17 => MiddleLine(i, tails[i]));
            var file := Join(lines[..16]) + lines[16];
            StaysInside(file) && ReadFile(c, file) == MiddleServer()
  {
    var lines := Script(MiddleServer(), tails);
    forall i | 0 <= i < 17
      ensures lines[i] == MiddleLine(i, tails[i]) && |lines[i]| <= 4095
    {
      MiddleSpelt(i, tails[i]);
      MiddleFits(i, tails[i]);
    }
    assert lines == seq(17, i requires 0 <= i < 17 => MiddleLine(i, tails[i]));
    MiddleSayable();
    ScriptGives(c, MiddleServer(), tails);
  }
}
