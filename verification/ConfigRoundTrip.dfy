/** Printing a configuration as a script and reading it back. */
module ConfigRoundTrip {
  import opened Wrappers
  import opened Text
  import opened Numbers
  import opened ConfigKeys
  import opened ConfigSpec
  import opened ConfigProperties

  function PrintValue(k: Key, v: Value): string
    requires Fits(k, v)
  {
    match ConversionOf(k)
    case Hex32 => PrintHex(v.n)
    case Decimal32 => PrintDecimal(v.n)
    case Decimal16 => PrintDecimal(v.n)
    case _ => v.text
  }

  function PrintLine(k: Key, v: Value): string
    requires Fits(k, v)
  {
    KeyText(k) + [':'] + PrintValue(k, v)
  }

  /** One line per key, in the given order, which may repeat keys. */
  function PrintLines(c: ConfigData, order: seq<Key>): seq<string> {
    if order == [] then []
    else PrintLines(c, order[..|order| - 1]) + [PrintLine(order[|order| - 1], Get(c, order[|order| - 1]))]
  }

  function PrintFile(c: ConfigData, order: seq<Key>): string {
    Join(PrintLines(c, order))
  }

  /**
    The values a line can give a field: a number no larger than the largest `long`, a text of kept
    characters in which no key occurs that the reader asks for before this one. That the text fits
    its array, if it is meant for one, is already part of `Fits`.
   */
  ghost predicate Storable(k: Key, v: Value)
    requires Fits(k, v)
  {
    match v
    case Number(n) => n <= LONG_MAX
    case Plain(text) => AllKept(text) && NoneBefore(text, Rank(k))
  }

  ghost predicate AllStorable(c: ConfigData) {
    forall k: Key :: Storable(k, Get(c, k))
  }

  // ---------- Dispatch of a line of our own ----------

  /**
    Unambiguous dispatch: a line made of a key, ':' and a value goes to that key exactly when the
    value contains none of the keys asked for earlier.
   */
  lemma {:induction false} DispatchOwnLine(k: Key, value: string)
    ensures Dispatch(KeyText(k) + [':'] + value) == Some(k) <==> NoneBefore(value, Rank(k))
  {
    var text := KeyText(k) + [':'] + value;
    forall j: Key
      ensures Occurs(text, KeyText(j)) <==> j == k || Occurs(value, KeyText(j))
    {
      KeysKept(j);
      OccursBeside(KeyText(k), ':', value, KeyText(j));
      KeyInKey(k, j);
    }
    DispatchIs(text, k);
  }

  lemma {:induction false} KeyHasUnderscore(k: Key, text: string)
    requires Occurs(text, KeyText(k))
    ensures '_' in text
  {
    var i: nat :| OccursAt(text, KeyText(k), i);
    KeysKept(k);
    MatchAt(text, KeyText(k), i, 0);
  }

  /** A text without underscores contains no key. */
  lemma {:induction false} NoUnderscoreNoKey(value: string, r: nat)
    requires '_' !in value
    ensures NoneBefore(value, r)
  {
    forall j: Key
      ensures !Occurs(value, KeyText(j))
    {
      if Occurs(value, KeyText(j)) {
        KeyHasUnderscore(j, value);
      }
    }
  }

  lemma {:induction false} ValueTextOfOwnLine(k: Key, value: string)
    ensures ValueText(KeyText(k) + [':'] + value) == value
  {
    var text := KeyText(k) + [':'] + value;
    var p := |KeyText(k)|;
    KeysKept(k);
    assert text[p..p + 1] == ":";
    assert OccursAt(text, ":", p);
    var i := Find(text, ":").value;
    MatchAt(text, ":", i, 0);
    assert text[p + 1..] == value;
  }

  // ---------- One line ----------

  lemma {:induction false} SuffixOfText(text: string)
    ensures exists before :: text == before + ValueText(text)
  {
    match Find(text, ":")
    case Some(i) => assert text == text[..i + 1] + ValueText(text);
    case None => assert text == "" + ValueText(text);
  }

  /** Whatever the line, the value it gives a field is one the reader can be given again. */
  lemma {:induction false} WrittenIsStorable(line: string)
    ensures Written(line).Assign? ==> Storable(Written(line).key, Written(line).value)
  {
    if Written(line).Assign? {
      var text, k := Filter(line), Written(line).key;
      SuffixOfText(text);
      var before :| text == before + ValueText(text);
      forall c | c in ValueText(text)
        ensures Kept(c)
      {
        assert c in text;
      }
      forall j: Key | Rank(j) < Rank(k)
        ensures !Occurs(ValueText(text), KeyText(j))
      {
        if Occurs(ValueText(text), KeyText(j)) {
          OccursInPart(before, ValueText(text), KeyText(j));
        }
      }
    }
  }

  lemma {:induction false} StorablePrintsKept(k: Key, v: Value)
    requires Fits(k, v) && Storable(k, v)
    ensures AllKept(PrintValue(k, v)) && NoneBefore(PrintValue(k, v), Rank(k))
    ensures FitsText(k, PrintValue(k, v)) && Convert(k, PrintValue(k, v)) == v
  {
    if v.Number? {
      PrintedIsKept(v.n);
      NoUnderscoreNoKey(PrintValue(k, v), Rank(k));
      NumberRoundTrip(v.n);
    }
  }

  /** A printed line assigns its value to its key exactly when the value is storable. */
  lemma {:induction false} LineRoundTrip(k: Key, v: Value)
    requires Fits(k, v)
    ensures Written(PrintLine(k, v)) == Assign(k, v) <==> Storable(k, v)
  {
    var line := PrintLine(k, v);
    WrittenIsStorable(line);
    if Storable(k, v) {
      StorablePrintsKept(k, v);
      KeysKept(k);
      assert AllKept(line);
      FilterFixes(line);
      DispatchOwnLine(k, PrintValue(k, v));
      ValueTextOfOwnLine(k, PrintValue(k, v));
    }
  }

  // ---------- A whole file ----------

  lemma {:induction false} LastWrittenIsStorable(lines: seq<string>, k: Key, before: Value)
    requires Fits(k, before)
    ensures var v := LastWritten(lines, k, before); Fits(k, v) && (v == before || Storable(k, v))
  {
    if lines != [] {
      WrittenIsStorable(lines[|lines| - 1]);
      LastWrittenIsStorable(lines[..|lines| - 1], k, before);
    }
  }

  lemma {:induction false} LastWrittenAppend(lines: seq<string>, line: string, k: Key, before: Value)
    ensures LastWritten(lines + [line], k, before) ==
            if Writes(line, k) then Written(line).value else LastWritten(lines, k, before)
  {
    assert (lines + [line])[..|lines|] == lines;
  }

  lemma {:induction false} PrintedLastWritten(c: ConfigData, order: seq<Key>, k: Key, before: Value)
    requires AllStorable(c)
    ensures LastWritten(PrintLines(c, order), k, before) == if k in order then Get(c, k) else before
  {
    if order != [] {
      var rest, j := order[..|order| - 1], order[|order| - 1];
      var lines, line := PrintLines(c, rest), PrintLine(j, Get(c, j));
      LineRoundTrip(j, Get(c, j));
      PrintedLastWritten(c, rest, k, before);
      LastWrittenAppend(lines, line, k, before);
      assert k in order <==> k == j || k in rest;
    }
  }

  predicate PrintsFitting(c: ConfigData, k: Key) {
    |PrintLine(k, Get(c, k))| < LINE_CAPACITY
  }

  lemma {:induction false} PrintedLineHasNoNewline(c: ConfigData, k: Key)
    requires AllStorable(c)
    ensures NEWLINE !in PrintLine(k, Get(c, k))
  {
    StorablePrintsKept(k, Get(c, k));
    KeysKept(k);
    assert AllKept(PrintLine(k, Get(c, k)));
  }

  lemma {:induction false} PrintedLinesFit(c: ConfigData, order: seq<Key>)
    requires AllStorable(c) && forall k | k in order :: PrintsFitting(c, k)
    ensures forall line | line in PrintLines(c, order) :: FitsLine(line)
  {
    if order != [] {
      assert order[|order| - 1] in order;
      PrintedLinesFit(c, order[..|order| - 1]);
      PrintedLineHasNoNewline(c, order[|order| - 1]);
    }
  }

  lemma {:induction false} PrintedInside(c: ConfigData, order: seq<Key>)
    requires AllStorable(c)
    ensures AllInside(PrintLines(c, order))
  {
    if order != [] {
      var k := order[|order| - 1];
      PrintedInside(c, order[..|order| - 1]);
      LineRoundTrip(k, Get(c, k));
    }
  }

  /** A configuration of storable values is read back from its printed form, whatever was there before. */
  lemma {:induction false} StorableRoundTrips(c: ConfigData, order: seq<Key>, initial: ConfigData)
    requires AllStorable(c) && forall k: Key :: k in order
    requires forall k: Key :: PrintsFitting(c, k)
    ensures StaysInside(PrintFile(c, order)) && ReadFile(initial, PrintFile(c, order)) == c
  {
    PrintedLinesFit(c, order);
    PrintedInside(c, order);
    LinesOfJoined(PrintLines(c, order));
    forall k: Key
      ensures Get(ReadLines(initial, PrintLines(c, order)), k) == Get(c, k)
    {
      LastLineWins(initial, PrintLines(c, order), k);
      PrintedLastWritten(c, order, k, Get(initial, k));
    }
    SameFields(ReadLines(initial, PrintLines(c, order)), c);
  }

  function AnotherValue(v: Value): (w: Value)
    ensures w != v && w.Number? == v.Number?
    ensures if w.Number? then w.n <= 1 else |w.text| <= 1
  {
    match v
    case Number(n) => Number(if n == 0 then 1 else 0)
    case Plain(s) => Plain(if s == "" then "a" else "")
  }

  /** A value that is not storable is never read, so a field that held something else does not come to hold it. */
  lemma {:induction false} UnstorableIsLost(c: ConfigData, k: Key, contents: string)
    requires StaysInside(contents) && !Storable(k, Get(c, k))
    ensures ReadFile(Put(c, k, AnotherValue(Get(c, k))), contents) != c
  {
    var other := AnotherValue(Get(c, k));
    var initial := Put(c, k, other);
    PutGet(c, k, other, k);
    LastLineWins(initial, Lines(contents), k);
    LastWrittenIsStorable(Lines(contents), k, other);
  }

  lemma {:induction false} PrintLinesAppend(c: ConfigData, a: seq<Key>, b: seq<Key>)
    ensures PrintLines(c, a + b) == PrintLines(c, a) + PrintLines(c, b)
    decreases |b|
  {
    if b == [] {
      assert a + b == a;
    } else {
      assert (a + b)[..|a + b| - 1] == a + b[..|b| - 1];
      PrintLinesAppend(c, a, b[..|b| - 1]);
    }
  }

  lemma {:induction false} JoinAppend(a: seq<string>, b: seq<string>)
    ensures Join(a + b) == Join(a) + Join(b)
    decreases |a|
  {
    if a == [] {
      assert a + b == b;
    } else {
      assert (a + b)[1..] == a[1..] + b;
      JoinAppend(a[1..], b);
    }
  }

  lemma {:induction false} Regroup(order: seq<Key>, rest: seq<Key>, tail: seq<Key>)
    requires order != [] && order[1..] == rest + tail
    ensures order == [order[0]] + rest + tail
  {
  }

  /** The first line that is too long. */
  lemma {:induction false} SplitAtOverlong(c: ConfigData, order: seq<Key>, k: Key)
    returns (head: seq<Key>, long: Key, tail: seq<Key>)
    requires k in order && !PrintsFitting(c, k)
    ensures order == head + ([long] + tail)
    ensures (forall j | j in head :: PrintsFitting(c, j)) && !PrintsFitting(c, long)
  {
    if !PrintsFitting(c, order[0]) {
      head, long, tail := [], order[0], order[1..];
    } else {
      var rest;
      rest, long, tail := SplitAtOverlong(c, order[1..], k);
      head := [order[0]] + rest;
      Regroup(order, rest, [long] + tail);
    }
  }

  lemma {:induction false} PrintFileAround(c: ConfigData, head: seq<Key>, k: Key, tail: seq<Key>)
    ensures PrintFile(c, head + ([k] + tail)) ==
            Join(PrintLines(c, head)) + PrintLine(k, Get(c, k)) + ([NEWLINE] + PrintFile(c, tail))
  {
    var line := PrintLine(k, Get(c, k));
    PrintLinesAppend(c, head, [k] + tail);
    PrintLinesAppend(c, [k], tail);
    PrintOne(c, k);
    JoinAppend(PrintLines(c, head), [line] + PrintLines(c, tail));
    JoinFirst(line, PrintLines(c, tail));
    Reassociate(Join(PrintLines(c, head)), line, [NEWLINE] + PrintFile(c, tail));
  }

  lemma {:induction false} PrintOne(c: ConfigData, k: Key)
    ensures PrintLines(c, [k]) == [PrintLine(k, Get(c, k))]
  {
    assert PrintLines(c, []) == [];
    assert [k][..0] == [];
  }

  lemma {:induction false} JoinFirst(line: string, lines: seq<string>)
    ensures Join([line] + lines) == line + ([NEWLINE] + Join(lines))
  {
    assert ([line] + lines)[1..] == lines;
  }

  lemma {:induction false} Reassociate(a: string, b: string, c: string)
    ensures a + (b + c) == a + b + c
  {
  }

  /** A line that is too long, and what is printed behind it, is not seen. */
  lemma {:induction false} PrintedUpToOverlong(c: ConfigData, head: seq<Key>, k: Key, tail: seq<Key>)
    requires AllStorable(c) && (forall j | j in head :: PrintsFitting(c, j)) && !PrintsFitting(c, k)
    ensures Lines(PrintFile(c, head + ([k] + tail))) == PrintLines(c, head)
  {
    PrintFileAround(c, head, k, tail);
    PrintedLinesFit(c, head);
    PrintedLineHasNoNewline(c, k);
    OverlongLineEndsReading(PrintLines(c, head), PrintLine(k, Get(c, k)), [NEWLINE] + PrintFile(c, tail));
  }

  /** So a field that is printed only behind such a line, if at all, is not read. */
  lemma {:induction false} BehindOverlongIsLost(c: ConfigData, head: seq<Key>, long: Key, tail: seq<Key>, k: Key)
    requires AllStorable(c) && (forall j | j in head :: PrintsFitting(c, j)) && !PrintsFitting(c, long)
    requires k !in head
    ensures var file := PrintFile(c, head + ([long] + tail));
            StaysInside(file) && ReadFile(Put(c, k, AnotherValue(Get(c, k))), file) != c
  {
    var other := AnotherValue(Get(c, k));
    var initial := Put(c, k, other);
    PrintedUpToOverlong(c, head, long, tail);
    PrintedInside(c, head);
    PutGet(c, k, other, k);
    LastLineWins(initial, PrintLines(c, head), k);
    PrintedLastWritten(c, head, k, other);
  }

  lemma {:induction false} OverlongIsLost(c: ConfigData, order: seq<Key>, k: Key)
    requires AllStorable(c) && k in order && !PrintsFitting(c, k)
    ensures var file := PrintFile(c, order);
            StaysInside(file) && ReadFile(Put(c, k, AnotherValue(Get(c, k))), file) != c
  {
    var head, long, tail := SplitAtOverlong(c, order, k);
    BehindOverlongIsLost(c, head, long, tail, k);
  }

  /** Reading the file is defined, and gives the configuration whatever was there before. */
  ghost predicate ReadsBackAs(contents: string, c: ConfigData) {
    StaysInside(contents) && forall initial: ConfigData :: ReadFile(initial, contents) == c
  }

  /**
    Round trip, exactly: a configuration printed with every key, in any order, is read back from
    every starting configuration if and only if each of its values is storable and each line fits
    the buffer. The values that are not storable: numbers above 0x7FFFFFFF, and texts that hold a
    character the filter drops or a key asked for earlier.
   */
  lemma {:induction false} RoundTripExact(c: ConfigData, order: seq<Key>)
    requires forall k: Key :: k in order
    ensures ReadsBackAs(PrintFile(c, order), c) <==> AllStorable(c) && forall k: Key :: PrintsFitting(c, k)
  {
    if !AllStorable(c) {
      var k: Key :| !Storable(k, Get(c, k));
      if StaysInside(PrintFile(c, order)) {
        UnstorableIsLost(c, k, PrintFile(c, order));
      }
    } else if k: Key :| !PrintsFitting(c, k) {
      OverlongIsLost(c, order, k);
    } else {
      forall initial: ConfigData
        ensures StaysInside(PrintFile(c, order)) && ReadFile(initial, PrintFile(c, order)) == c
      {
        StorableRoundTrips(c, order, initial);
      }
      StorableRoundTrips(c, order, c);
    }
  }

  /** Storable values stay storable: what the reader holds can be saved and read again. */
  lemma {:induction false} ReadKeepsStorable(initial: ConfigData, contents: string)
    requires StaysInside(contents) && AllStorable(initial)
    ensures AllStorable(ReadFile(initial, contents))
  {
    forall k: Key
      ensures Storable(k, Get(ReadFile(initial, contents), k))
    {
      LastLineWins(initial, Lines(contents), k);
      LastWrittenIsStorable(Lines(contents), k, Get(initial, k));
    }
  }

  /** Saving and reading back what was read, from any file, gives the same configuration. */
  lemma {:induction false} ReadPrintRead(initial: ConfigData, contents: string, order: seq<Key>, other: ConfigData)
    requires StaysInside(contents) && AllStorable(initial) && forall k: Key :: k in order
    requires forall k: Key :: PrintsFitting(ReadFile(initial, contents), k)
    ensures var c := ReadFile(initial, contents);
            StaysInside(PrintFile(c, order)) && ReadFile(other, PrintFile(c, order)) == c
  {
    ReadKeepsStorable(initial, contents);
    StorableRoundTrips(ReadFile(initial, contents), order, other);
  }
}
