/** Lines and files at which the reader falls short of what one might expect of it. */
module ConfigWitnesses {
  import opened Wrappers
  import opened Text
  import opened Numbers
  import opened ConfigKeys
  import opened WideArrays
  import opened ConfigSpec
  import opened ConfigProperties
  import opened ConfigRoundTrip

  function Repeat(c: char, n: nat): string {
    seq(n, i => c)
  }

  lemma {:induction false} OwnLine(k: Key, value: string)
    requires AllKept(value) && NoneBefore(value, Rank(k))
    ensures var line := KeyText(k) + [':'] + value;
            AllKept(line) && Filter(line) == line && Dispatch(line) == Some(k) && ValueText(line) == value
  {
    var line := KeyText(k) + [':'] + value;
    KeysKept(k);
    assert AllKept(line);
    FilterFixes(line);
    DispatchOwnLine(k, value);
    ValueTextOfOwnLine(k, value);
  }

  // ---------- Numbers that do not come back ----------

  lemma {:induction false} AccumulatePrinted(n: nat)
    ensures Accumulate(PrintDecimal(n), 10, 0) == n && Accumulate(PrintHex(n)[2..], 16, 0) == n
    ensures HasHexPrefix(PrintHex(n))
  {
    DigitsRoundTrip(n, 10, "");
    DigitsRoundTrip(n, 16, "");
    assert PrintDecimal(n) + "" == PrintDecimal(n);
    assert PrintHex(n)[2..] == Digits(n, 16) + "";
  }

  /** Any number that fits its 32-bit field but not a `long` is read as the largest `long`. */
  lemma {:induction false} TooLargeIsCut(k: Key, n: nat)
    requires ConversionOf(k).Decimal32? || ConversionOf(k).Hex32?
    requires LONG_MAX < n < 0x1_0000_0000
    ensures Written(PrintLine(k, Number(n))) == Assign(k, Number(LONG_MAX))
  {
    var value := PrintValue(k, Number(n));
    PrintedIsKept(n);
    NoUnderscoreNoKey(value, Rank(k));
    OwnLine(k, value);
    AccumulatePrinted(n);
  }

  /** So no configuration with the port 2^31 comes back from its printed form, nor from any other file. */
  lemma {:induction false} PortNotReadBack(c: ConfigData, contents: string)
    requires c.fields.port1 == 0x8000_0000
    ensures Written(PrintLine(Port1, Get(c, Port1))) == Assign(Port1, Number(0x7FFF_FFFF))
    ensures !ReadsBackAs(contents, c)
  {
    TooLargeIsCut(Port1, 0x8000_0000);
    if StaysInside(contents) {
      UnstorableIsLost(c, Port1, contents);
    }
  }

  // ---------- Lines that are lost ----------

  lemma {:induction false} CommentIsCut(k: Key, v: Value, comment: string)
    requires Fits(k, v) && Storable(k, v)
    ensures Written(PrintLine(k, v) + [COMMENT] + comment) == Assign(k, v)
  {
    LineRoundTrip(k, v);
    FilterCuts(PrintLine(k, v), COMMENT, comment);
  }

  /** A line that sets the port, padded with comment to 4096 characters. */
  function PaddedLine(): (line: string)
    ensures |line| >= LINE_CAPACITY
  {
    PrintLine(Port1, Number(6003)) + [COMMENT] + Repeat('x', 4096)
  }

  lemma {:induction false} PaddedLineWrites()
    ensures Written(PaddedLine()) == Assign(Port1, Number(6003))
  {
    CommentIsCut(Port1, Number(6003), Repeat('x', 4096));
  }

  lemma {:induction false} PaddedLineIsOne()
    ensures NEWLINE !in PaddedLine()
  {
    var value := PrintValue(Port1, Number(6003));
    StorablePrintsKept(Port1, Number(6003));
    KeysKept(Port1);
    assert NEWLINE !in KeyText(Port1) && NEWLINE !in value;
  }

  lemma {:induction false} BeginsOverlong(long: string, rest: string)
    requires NEWLINE !in long && |long| >= LINE_CAPACITY
    ensures Lines(long + [NEWLINE] + rest) == []
  {
    OverlongLineEndsReading([], long, [NEWLINE] + rest);
    assert Join([]) + long + ([NEWLINE] + rest) == long + [NEWLINE] + rest;
  }

  /** A script that begins with this line changes nothing, whatever comes behind it. */
  lemma {:induction false} PaddedLineIsLost(c: ConfigData, rest: string)
    ensures Written(PaddedLine()) == Assign(Port1, Number(6003))
    ensures var file := PaddedLine() + [NEWLINE] + rest;
            StaysInside(file) && ReadFile(c, file) == c
  {
    PaddedLineWrites();
    PaddedLineIsOne();
    BeginsOverlong(PaddedLine(), rest);
  }

  // ---------- Texts that spill ----------

  /** A line of a key and a text assigns the text or spills it, according to its length alone. */
  lemma {:induction false} AssignsOrSpills(k: Key, text: string)
    requires ConversionOf(k).CopyWideText? && AllKept(text) && NoneBefore(text, Rank(k))
    ensures Written(KeyText(k) + [':'] + text) == if |text| < Capacity(k) then Assign(k, Plain(text)) else Spill(k, text)
  {
    OwnLine(k, text);
  }

  /** What a file of one such line leaves in the arrays. */
  lemma {:induction false} OneLineCells(k: Key, text: string, cells: string)
    requires ConversionOf(k).CopyWideText? && AllKept(text) && NoneBefore(text, Rank(k))
    requires FitsLine(KeyText(k) + [':'] + text)
    ensures CellsAfterLines(cells, Lines(KeyText(k) + [':'] + text)) == CopyWide(cells, Start(k), Capacity(k), text)
  {
    var line := KeyText(k) + [':'] + text;
    OwnLine(k, text);
    KeysKept(k);
    LinesOfLast(line);
    assert CellsAfterLine(cells, line) == CopyWide(cells, Start(k), Capacity(k), text);
    assert CellsAfterLines(cells, [line]) == CellsAfterLines(CellsAfterLine(cells, line), []);
  }

  lemma {:induction false} NameLineFits(text: string)
    requires |text| <= 100 && AllKept(text)
    ensures FitsLine(KeyText(DbName) + [':'] + text)
  {
    KeysKept(DbName);
  }

  /** A file with a name of 50 characters fills its array, and the NUL ends the account name before its first character. */
  lemma {:induction false} FiftyCharacters(text: string, cells: string)
    requires |text| == 50 && AllKept(text) && NoneBefore(text, Rank(DbName)) && |cells| == WIDE_CELLS
    ensures var line := KeyText(DbName) + [':'] + text;
            && Written(line) == Spill(DbName, text)
            && var r := CellsAfterLines(cells, Lines(line));
            NUL !in r[NAME_AT..ACCOUNT_AT] && CString(r[ACCOUNT_AT..PWD_AT]) == ""
  {
    AssignsOrSpills(DbName, text);
    NameLineFits(text);
    OneLineCells(DbName, text, cells);
    var r := CopyWide(cells, NAME_AT, NAME_CAPACITY, text);
    assert r[NAME_AT..ACCOUNT_AT] == text;
    assert r[ACCOUNT_AT..PWD_AT][0] == NUL;
  }

  /** Fifty zeros, and then a text. */
  function BehindZeros(text: string): string {
    Repeat('0', 49) + ['0'] + text
  }

  lemma {:induction false} NoKeyBehindZeros(text: string, j: Key)
    requires !Occurs(text, KeyText(j))
    ensures !Occurs(BehindZeros(text), KeyText(j))
  {
    KeysWellSpelt(j);
    NoUnderscoreNoKey(Repeat('0', 49), 17);
    OccursBeside(Repeat('0', 49), '0', text, KeyText(j));
  }

  /** What stands behind the fiftieth character comes to stand in the next array. */
  lemma {:induction false} RestInNextArray(cells: string, text: string)
    requires |cells| == WIDE_CELLS && |text| < ACCOUNT_CAPACITY && NUL !in text
    ensures CString(CopyWide(cells, NAME_AT, NAME_CAPACITY, BehindZeros(text))[ACCOUNT_AT..PWD_AT]) == text
  {
    var r := CopyWide(cells, NAME_AT, NAME_CAPACITY, BehindZeros(text));
    assert r[ACCOUNT_AT..ACCOUNT_AT + |text|] == text;
    assert r[ACCOUNT_AT..PWD_AT][..|text|] == r[ACCOUNT_AT..ACCOUNT_AT + |text|];
    CStringOfHeld(r[ACCOUNT_AT..PWD_AT], text);
  }

  /** A file of one line for the name can leave any of these texts as the account name. */
  lemma {:induction false} AccountFromName(text: string, cells: string)
    requires |cells| == WIDE_CELLS && |text| < ACCOUNT_CAPACITY
    requires AllKept(text) && NoneBefore(text, Rank(DbName))
    ensures var line := KeyText(DbName) + [':'] + BehindZeros(text);
            CString(CellsAfterLines(cells, Lines(line))[ACCOUNT_AT..PWD_AT]) == text
  {
    forall j: Key | Rank(j) < Rank(DbName)
      ensures !Occurs(BehindZeros(text), KeyText(j))
    {
      NoKeyBehindZeros(text, j);
    }
    NameLineFits(BehindZeros(text));
    OneLineCells(DbName, BehindZeros(text), cells);
    RestInNextArray(cells, text);
  }

  lemma {:induction false} KeyStorableOnlyAtOnce(key: Key, k: Key)
    requires |KeyText(key)| < ACCOUNT_CAPACITY && ConversionOf(k).CopyWideText? && |KeyText(key)| < Capacity(k)
    ensures AllKept(KeyText(key))
    ensures NoneBefore(KeyText(key), Rank(key))
    ensures Rank(key) < Rank(k) ==> !Storable(k, Plain(KeyText(key)))
  {
    KeysKept(key);
    forall j: Key | Rank(j) < Rank(key)
      ensures !Occurs(KeyText(key), KeyText(j))
    {
      KeyInKey(key, j);
    }
    assert OccursAt(KeyText(key), KeyText(key), 0);
  }

  lemma {:induction false} NameOnlyText() returns (text: string)
    ensures |text| < ACCOUNT_CAPACITY && AllKept(text) && NoneBefore(text, Rank(DbName))
    ensures !Storable(DbAccount, Plain(text))
  {
    text := KeyText(DbName);
    KeyStorableOnlyAtOnce(DbName, DbAccount);
  }

  /** The key of the name is one of them, and no line for the account can give it. */
  lemma {:induction false} AccountFromNowhere(cells: string) returns (text: string, file: string)
    requires |cells| == WIDE_CELLS
    ensures |text| < ACCOUNT_CAPACITY && !Storable(DbAccount, Plain(text))
    ensures CString(CellsAfterLines(cells, Lines(file))[ACCOUNT_AT..PWD_AT]) == text
  {
    text := NameOnlyText();
    file := KeyText(DbName) + [':'] + BehindZeros(text);
    AccountFromName(text, cells);
  }
}
