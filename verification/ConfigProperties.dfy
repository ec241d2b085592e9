/** What a script does as a whole: the last line wins, lines that do not interact, lines that are seen, and layout. */
module ConfigProperties {
  import opened Text
  import opened ConfigKeys
  import opened ConfigSpec

  // ---------- Last line wins ----------

  predicate Writes(line: string, k: Key) {
    Written(line).Assign? && Written(line).key == k
  }

  /** The value of the last line that assigns `k`, or `before` if none does. */
  function LastWritten(lines: seq<string>, k: Key, before: Value): Value {
    if lines == [] then before
    else
      var last := lines[|lines| - 1];
      if Writes(last, k) then Written(last).value else LastWritten(lines[..|lines| - 1], k, before)
  }

  lemma {:induction false} ReadLinesAppend(c: ConfigData, a: seq<string>, b: seq<string>)
    requires AllInside(a) && AllInside(b)
    ensures AllInside(a + b) && ReadLines(c, a + b) == ReadLines(ReadLines(c, a), b)
    decreases |a|
  {
    if a == [] {
      assert a + b == b;
    } else {
      assert a[0] in a;
      assert (a + b)[1..] == a[1..] + b;
      ReadLinesAppend(ApplyLine(c, a[0]), a[1..], b);
    }
  }

  lemma {:induction false} ApplyLineGet(c: ConfigData, line: string, k: Key)
    requires Inside(line)
    ensures Get(ApplyLine(c, line), k) == if Writes(line, k) then Written(line).value else Get(c, k)
  {
    match Written(line)
    case Assign(j, v) => PutGet(c, j, v, k);
    case Nothing =>
  }

  /** Each field ends with the value of the last line dispatched to it; the others keep theirs. */
  lemma {:induction false} LastLineWins(c: ConfigData, lines: seq<string>, k: Key)
    requires AllInside(lines)
    ensures Get(ReadLines(c, lines), k) == LastWritten(lines, k, Get(c, k))
  {
    if lines != [] {
      var before, last := lines[..|lines| - 1], lines[|lines| - 1];
      assert lines == before + [last];
      assert last in lines;
      ReadLinesAppend(c, before, [last]);
      LastLineWins(c, before, k);
      ApplyLineGet(ReadLines(c, before), last, k);
    }
  }

  /** Two lines dispatched to different fields may change places. */
  lemma {:induction false} LinesCommute(c: ConfigData, line: string, other: string)
    requires Inside(line) && Inside(other)
    requires forall k: Key :: !(Writes(line, k) && Writes(other, k))
    ensures ApplyLine(ApplyLine(c, line), other) == ApplyLine(ApplyLine(c, other), line)
  {
    var d, e := ApplyLine(ApplyLine(c, line), other), ApplyLine(ApplyLine(c, other), line);
    forall k: Key
      ensures Get(d, k) == Get(e, k)
    {
      ApplyLineGet(c, line, k);
      ApplyLineGet(c, other, k);
      ApplyLineGet(ApplyLine(c, line), other, k);
      ApplyLineGet(ApplyLine(c, other), line, k);
    }
    SameFields(d, e);
  }

  // ---------- The lines of a file ----------

  /** The lines as a file, each ended by a newline. */
  function Join(lines: seq<string>): string {
    if lines == [] then "" else lines[0] + [NEWLINE] + Join(lines[1..])
  }

  predicate FitsLine(line: string) {
    NEWLINE !in line && |line| < LINE_CAPACITY
  }

  lemma {:induction false} LineEndIs(s: string, p: nat)
    requires p <= |s| && NEWLINE !in s[..p] && (p < |s| ==> s[p] == NEWLINE)
    ensures LineEnd(s) == p
  {
  }

  lemma {:induction false} LinesOfLast(last: string)
    requires FitsLine(last)
    ensures Lines(last) == if last == "" then [] else [last]
  {
    LineEndIs(last, |last|);
    if last != "" {
      assert GetLine(last) == Line(last, "");
      assert Lines("") == [];
    }
  }

  predicate NoNewline(line: string) {
    NEWLINE !in line
  }

  /** What getline makes of a file that begins with a line and a newline. */
  lemma {:induction false} FirstLine(line: string, rest: string)
    requires NoNewline(line)
    ensures GetLine(line + [NEWLINE] + rest) == if |line| < LINE_CAPACITY then Line(line, rest) else Failed
  {
    var s := line + [NEWLINE] + rest;
    assert s[..|line|] == line && s[|line| + 1..] == rest;
    LineEndIs(s, |line|);
  }

  /** The lines that fit are seen, and the reading goes on behind them. */
  lemma {:induction false} LinesAhead(lines: seq<string>, rest: string)
    requires forall line | line in lines :: FitsLine(line)
    ensures Lines(Join(lines) + rest) == lines + Lines(rest)
  {
    if lines == [] {
      assert Join(lines) + rest == rest;
    } else {
      var first, behind := lines[0], Join(lines[1..]) + rest;
      assert first in lines;
      JoinAround(lines, rest);
      FirstLine(first, behind);
      LinesAhead(lines[1..], rest);
      Cons(lines, Lines(rest));
    }
  }

  lemma {:induction false} Cons(lines: seq<string>, behind: seq<string>)
    requires lines != []
    ensures [lines[0]] + (lines[1..] + behind) == lines + behind
  {
  }

  /** Reading a file gives back the lines it was put together from; the last one need not be ended. */
  lemma {:induction false} LinesOfJoin(lines: seq<string>, last: string)
    requires forall line | line in lines :: FitsLine(line)
    requires FitsLine(last)
    ensures Lines(Join(lines) + last) == lines + (if last == "" then [] else [last])
  {
    LinesAhead(lines, last);
    LinesOfLast(last);
  }

  /**
    A line that does not fit the buffer ends the reading: neither it nor anything after it is seen.
    It may be the last line, with or without a newline.
   */
  lemma {:induction false} OverlongLineEndsReading(lines: seq<string>, long: string, rest: string)
    requires forall line | line in lines :: FitsLine(line)
    requires NEWLINE !in long && |long| >= LINE_CAPACITY
    requires rest == "" || rest[0] == NEWLINE
    ensures Lines(Join(lines) + long + rest) == lines
  {
    assert Join(lines) + long + rest == Join(lines) + (long + rest);
    LinesAhead(lines, long + rest);
    assert (long + rest)[..|long|] == long;
    LineEndIs(long + rest, |long|);
  }

  /** The lines before the first one that does not fit, that one, and what stands behind it. */
  lemma {:induction false} SplitAtLong(lines: seq<string>, last: string)
    returns (head: seq<string>, long: string, rest: string)
    requires forall line | line in lines :: NoNewline(line)
    requires NoNewline(last) && !(FitsLine(last) && forall line | line in lines :: FitsLine(line))
    ensures |head| < |lines + (if last == "" then [] else [last])| && forall line | line in head :: FitsLine(line)
    ensures NoNewline(long) && |long| >= LINE_CAPACITY && (rest == "" || rest[0] == NEWLINE)
    ensures Join(lines) + last == Join(head) + long + rest
    decreases |lines|
  {
    if lines == [] {
      head, long, rest := [], last, "";
      assert "" + last == "" + long + rest;
    } else if !FitsLine(lines[0]) {
      assert lines[0] in lines;
      head, long, rest := [], lines[0], [NEWLINE] + (Join(lines[1..]) + last);
      assert lines[0] + [NEWLINE] + Join(lines[1..]) + last == "" + long + rest;
    } else {
      var tail;
      assert forall line | line in lines :: line == lines[0] || line in lines[1..];
      tail, long, rest := SplitAtLong(lines[1..], last);
      head := [lines[0]] + tail;
      JoinAround(lines, last);
      JoinAround(head, long + rest);
      assert head[1..] == tail;
      assert Join(tail) + (long + rest) == Join(tail) + long + rest;
      assert Join(head) + (long + rest) == Join(head) + long + rest;
    }
  }

  lemma {:induction false} JoinAround(lines: seq<string>, rest: string)
    requires lines != []
    ensures Join(lines) + rest == lines[0] + [NEWLINE] + (Join(lines[1..]) + rest)
  {
  }

  /** The reader sees every line of a file, the unended last one included, exactly when each of them fits the buffer. */
  lemma {:induction false} EveryLineSeen(lines: seq<string>, last: string)
    requires forall line | line in lines :: NoNewline(line)
    requires NoNewline(last)
    ensures Lines(Join(lines) + last) == lines + (if last == "" then [] else [last])
            <==> FitsLine(last) && forall line | line in lines :: FitsLine(line)
  {
    if FitsLine(last) && forall line | line in lines :: FitsLine(line) {
      LinesOfJoin(lines, last);
    } else {
      var head, long, rest := SplitAtLong(lines, last);
      OverlongLineEndsReading(head, long, rest);
    }
  }

  lemma {:induction false} LinesOfJoined(lines: seq<string>)
    requires forall line | line in lines :: FitsLine(line)
    ensures Lines(Join(lines)) == lines
  {
    LinesOfJoin(lines, "");
    assert Join(lines) + "" == Join(lines) && lines + [] == lines;
  }

  // ---------- Layout ----------

  lemma {:induction false} FilterOfLaidOut(before: string, junk: string, after: string, tail: string)
    requires forall ch | ch in junk :: Ignored(ch)
    requires tail == "" || tail[0] == COMMENT
    ensures Filter(before + junk + after + tail) == Filter(before + after)
  {
    FilterIgnores(before, junk, after);
    if tail == "" {
      assert before + junk + after + tail == before + junk + after;
    } else {
      FilterCuts(before + junk + after, COMMENT, tail[1..]);
      assert before + junk + after + [COMMENT] + tail[1..] == before + junk + after + tail;
    }
  }

  /** Two files that are read alike: both inside the arrays or neither, and then with the same effect. */
  ghost predicate ReadAlike(a: string, b: string) {
    && (StaysInside(a) <==> StaysInside(b))
    && (StaysInside(a) ==> forall c: ConfigData :: ReadFile(c, a) == ReadFile(c, b))
  }

  /** The rest of the file is read after the line has been applied. */
  lemma {:induction false} ReadOneLine(contents: string)
    requires GetLine(contents).Line?
    ensures var Line(line, rest) := GetLine(contents);
            StaysInside(contents) <==> Inside(line) && StaysInside(rest)
    ensures StaysInside(contents) ==>
              forall c: ConfigData ::
                ReadFile(c, contents) == ReadFile(ApplyLine(c, GetLine(contents).line), GetLine(contents).rest)
  {
    var Line(line, rest) := GetLine(contents);
    var lines := Lines(contents);
    assert lines == [line] + Lines(rest);
    assert lines[1..] == Lines(rest) && forall l :: l in lines <==> l == line || l in Lines(rest);
  }

  /** A line of which nothing is kept assigns nothing. */
  lemma {:induction false} NothingKeptNothingWritten(line: string)
    requires Filter(line) == ""
    ensures Written(line).Nothing?
  {
    if Dispatch("").Some? {
      var k := Dispatch("").value;
      var i: nat :| OccursAt("", KeyText(k), i);
      KeysKept(k);
    }
  }

  lemma {:induction false} AlikeBehindLine(a: string, b: string)
    requires GetLine(a).Line? && GetLine(b).Line?
    requires Filter(GetLine(a).line) == Filter(GetLine(b).line) && ReadAlike(GetLine(a).rest, GetLine(b).rest)
    ensures ReadAlike(a, b)
  {
    ReadOneLine(a);
    ReadOneLine(b);
    assert Written(GetLine(a).line) == Written(GetLine(b).line);
  }

  lemma {:induction false} AlikeBehindSame(whole: string, other: string, line: string, a: string, b: string)
    requires whole == line + [NEWLINE] + a && other == line + [NEWLINE] + b
    requires NoNewline(line) && ReadAlike(a, b)
    ensures ReadAlike(whole, other)
  {
    FirstLine(line, a);
    FirstLine(line, b);
    if |line| < LINE_CAPACITY {
      AlikeBehindLine(whole, other);
    } else {
      assert Lines(whole) == [] && Lines(other) == [];
    }
  }

  lemma {:induction false} Regroup(line: string, rest: string, a: string)
    ensures line + [NEWLINE] + rest + a == line + [NEWLINE] + (rest + a)
  {
  }

  lemma {:induction false} SplitFirst(pre: string) returns (line: string, rest: string)
    requires pre != "" && pre[|pre| - 1] == NEWLINE
    ensures pre == line + [NEWLINE] + rest && NoNewline(line)
    ensures rest == "" || rest[|rest| - 1] == NEWLINE
  {
    var p := LineEnd(pre);
    assert pre[|pre| - 1] in pre[|pre| - 1..];
    line, rest := pre[..p], pre[p + 1..];
  }

  /** Files that are read alike are so behind any lines, also if these contain one that does not fit. */
  lemma {:induction false} AlikeBehind(pre: string, a: string, b: string)
    requires pre == "" || pre[|pre| - 1] == NEWLINE
    requires ReadAlike(a, b)
    ensures ReadAlike(pre + a, pre + b)
    decreases |pre|
  {
    if pre == "" {
      assert pre + a == a && pre + b == b;
    } else {
      var line, rest := SplitFirst(pre);
      Regroup(line, rest, a);
      Regroup(line, rest, b);
      AlikeBehind(rest, a, b);
      AlikeBehindSame(pre + a, pre + b, line, rest + a, rest + b);
    }
  }

  /** An unended last line of which nothing is kept might as well not be there. */
  lemma {:induction false} LastOfNothing(line: string)
    requires FitsLine(line) && Filter(line) == ""
    ensures ReadAlike(line, "")
  {
    NothingKeptNothingWritten(line);
    if line != "" {
      LineEndIs(line, |line|);
      assert GetLine(line) == Line(line, "");
      ReadOneLine(line);
    }
  }

  lemma {:induction false} AlikeAtLine(line: string, other: string, post: string)
    requires FitsLine(line) && FitsLine(other) && Filter(line) == Filter(other)
    requires post == "" || post[0] == NEWLINE
    ensures ReadAlike(line + post, other + post)
  {
    if post != "" {
      assert line + post == line + [NEWLINE] + post[1..] && other + post == other + [NEWLINE] + post[1..];
      FirstLine(line, post[1..]);
      FirstLine(other, post[1..]);
      AlikeBehindLine(line + post, other + post);
    } else {
      assert line + post == line && other + post == other;
      if line == "" || other == "" {
        LastOfNothing(line);
        LastOfNothing(other);
      } else {
        LineEndIs(line, |line|);
        LineEndIs(other, |other|);
        AlikeBehindLine(line, other);
      }
    }
  }

  /** Only what the filter keeps of a line counts, wherever in a file the line stands. */
  lemma {:induction false} OneLineSameFilter(pre: string, line: string, other: string, post: string)
    requires pre == "" || pre[|pre| - 1] == NEWLINE
    requires post == "" || post[0] == NEWLINE
    requires FitsLine(line) && FitsLine(other) && Filter(line) == Filter(other)
    ensures ReadAlike(pre + (line + post), pre + (other + post))
  {
    AlikeAtLine(line, other, post);
    AlikeBehind(pre, line + post, other + post);
  }

  /**
    Layout does not matter: ignored characters inserted anywhere in any line of any file, and a
    comment appended to it, leave the effect of the file as it was, as long as that line still fits.
   */
  lemma {:induction false} LayoutInsensitive(pre: string, before: string, junk: string, after: string,
                                             tail: string, post: string)
    requires pre == "" || pre[|pre| - 1] == NEWLINE
    requires post == "" || post[0] == NEWLINE
    requires forall ch | ch in junk :: Ignored(ch)
    requires tail == "" || tail[0] == COMMENT
    requires FitsLine(before + junk + after + tail)
    ensures ReadAlike(pre + (before + junk + after + tail + post), pre + (before + after + post))
  {
    FilterOfLaidOut(before, junk, after, tail);
    var line := before + junk + after + tail;
    forall ch | ch in before + after
      ensures ch in line
    {
    }
    OneLineSameFilter(pre, line, before + after, post);
  }

  /** In particular blanks, tabs, carriage returns and quotation marks anywhere in a line, and a comment behind it. */
  lemma {:induction false} BlanksDoNotMatter(pre: string, before: string, blanks: string, after: string,
                                             comment: string, post: string)
    requires pre == "" || pre[|pre| - 1] == '\n'
    requires post == "" || post[0] == '\n'
    requires forall ch | ch in blanks :: ch in {' ', '\t', '\r', '"'}
    requires '\n' !in before + after + comment && |before + blanks + after + comment| < 4095
    ensures ReadAlike(pre + (before + blanks + after + post), pre + (before + after + post))
    ensures ReadAlike(pre + (before + blanks + after + ("-" + comment) + post), pre + (before + after + post))
  {
    assert before + blanks + after + "" == before + blanks + after;
    var bare, whole := before + blanks + after + "", before + blanks + after + ("-" + comment);
    assert NEWLINE !in bare && NEWLINE !in whole;
    LayoutInsensitive(pre, before, blanks, after, "", post);
    LayoutInsensitive(pre, before, blanks, after, "-" + comment, post);
  }

  /** A line of at most 4095 characters is seen, and a longer one is not. */
  lemma {:induction false} LongestLine(line: string)
    requires line != "" && '\n' !in line
    ensures Lines(line) == if |line| <= 4095 then [line] else []
  {
    if |line| <= 4095 {
      LinesOfLast(line);
    } else {
      OverlongLineEndsReading([], line, "");
      assert Join([]) + line + "" == line;
    }
  }
}
