/** Character buffers as C sees them, the line filter of the configuration reader, and substring search. */
module Text {
  import opened Wrappers

  const NUL: char := '\0'
  const NEWLINE: char := '\n'
  const COMMENT: char := '-'

  // ---------- NUL-terminated text ----------

  /** strlen, for a buffer in which the text may also run to the end. */
  function StrLen(buffer: string): (n: nat)
    ensures n <= |buffer| && NUL !in buffer[..n]
    ensures n < |buffer| ==> buffer[n] == NUL
    ensures NUL in buffer ==> n < |buffer|
  {
    if buffer == "" || buffer[0] == NUL then 0 else 1 + StrLen(buffer[1..])
  }

  /** The text of a buffer: what precedes the first NUL. */
  function CString(buffer: string): string {
    buffer[..StrLen(buffer)]
  }

  /** `buffer` holds the text, ended by a NUL. */
  ghost predicate Holds(buffer: string, text: string) {
    |text| < |buffer| && buffer[..|text|] == text && buffer[|text|] == NUL
  }

  lemma CStringOfHeld(buffer: string, text: string)
    requires Holds(buffer, text) && NUL !in text
    ensures StrLen(buffer) == |text| && CString(buffer) == text
  {
    assert forall i | 0 <= i < |text| :: buffer[i] == text[i] && text[i] in text;
  }

  // ---------- The filter ----------

  /** The characters the reader keeps. */
  predicate Kept(c: char) {
    || 'a' <= c <= 'z' || 'A' <= c <= 'Z' || '0' <= c <= '9'
    || c == ':' || c == '_' || c == '.'
  }

  predicate AllKept(s: string) {
    forall c | c in s :: Kept(c)
  }

  /** Dropped without effect: not kept, and neither the end of the text nor the start of a comment. */
  predicate Ignored(c: char) {
    !Kept(c) && c != NUL && c != COMMENT
  }

  /** What the reader makes of a line: the kept characters before the first comment sign or NUL. */
  function Filter(line: string): (text: string)
    ensures AllKept(text)
    ensures |text| <= |line|
  {
    if line == "" || line[0] == NUL || line[0] == COMMENT then ""
    else if Kept(line[0]) then [line[0]] + Filter(line[1..])
    else Filter(line[1..])
  }

  /** Text is left as it is exactly when every character of it is kept. */
  lemma {:induction false} FilterFixes(s: string)
    ensures Filter(s) == s <==> AllKept(s)
  {
    if s != "" && AllKept(s) {
      assert s[0] in s;
      FilterFixes(s[1..]);
    }
  }

  lemma FilterIdempotent(line: string)
    ensures Filter(Filter(line)) == Filter(line)
  {
    FilterFixes(Filter(line));
  }

  /** Nothing after a comment sign or a NUL matters. */
  lemma {:induction false} FilterCuts(line: string, c: char, rest: string)
    requires c == COMMENT || c == NUL
    ensures Filter(line + [c] + rest) == Filter(line)
  {
    var whole := line + [c] + rest;
    if line == "" {
      assert whole[0] == c;
    } else {
      assert whole[1..] == line[1..] + [c] + rest;
      FilterCuts(line[1..], c, rest);
    }
  }

  /** Ignored characters may be inserted anywhere. */
  lemma {:induction false} FilterIgnores(before: string, junk: string, after: string)
    requires forall c | c in junk :: Ignored(c)
    ensures Filter(before + junk + after) == Filter(before + after)
    decreases |before| + |junk|
  {
    var whole := before + junk + after;
    if before != "" {
      assert whole[1..] == before[1..] + junk + after;
      assert (before + after)[1..] == before[1..] + after;
      FilterIgnores(before[1..], junk, after);
    } else if junk != "" {
      assert junk[0] in junk && whole[0] == junk[0];
      assert whole[1..] == "" + junk[1..] + after;
      FilterIgnores("", junk[1..], after);
    } else {
      assert whole == before + after;
    }
  }

  /** Which characters are kept, one by one, in the order of their codes. */
  lemma FilterOne(c: char)
    ensures Filter([c]) == "" <==> c < '.' || c == '/' || ':' < c < 'A' || 'Z' < c < '_' || c == '`' || 'z' < c
    ensures Filter([c]) != "" ==> Filter([c]) == [c]
  {
  }

  /**
    Up to a '-' or a NUL the characters are filtered one by one. With the two lemmas beside it this
    says all that the filter does.
   */
  lemma {:induction false} FilterAppend(a: string, b: string)
    requires '-' !in a && '\0' !in a
    ensures Filter(a + b) == Filter(a) + Filter(b)
  {
    if a == "" {
      assert a + b == b;
    } else {
      assert (a + b)[1..] == a[1..] + b;
      FilterAppend(a[1..], b);
    }
  }

  lemma FilterStops(a: string, b: string)
    ensures Filter(a + "-" + b) == Filter(a) && Filter(a + "\0" + b) == Filter(a)
  {
    FilterCuts(a, '-', b);
    FilterCuts(a, '\0', b);
  }

  // ---------- std::string::find ----------

  predicate OccursAt(text: string, word: string, i: nat) {
    i + |word| <= |text| && text[i..i + |word|] == word
  }

  ghost predicate Occurs(text: string, word: string) {
    exists i: nat :: OccursAt(text, word, i)
  }

  /** The first position at or after `from` where `word` occurs. */
  function FindFrom(text: string, word: string, from: nat): (r: Option<nat>)
    requires from <= |text|
    ensures r.Some? ==> from <= r.value && OccursAt(text, word, r.value)
    ensures r.Some? ==> forall i | from <= i < r.value :: !OccursAt(text, word, i)
    ensures r.None? ==> forall i | from <= i :: !OccursAt(text, word, i)
    decreases |text| - from
  {
    if OccursAt(text, word, from) then Some(from)
    else if from == |text| then None
    else FindFrom(text, word, from + 1)
  }

  function Find(text: string, word: string): (r: Option<nat>)
    ensures r.Some? <==> Occurs(text, word)
    ensures r.Some? ==> OccursAt(text, word, r.value) && forall i | 0 <= i < r.value :: !OccursAt(text, word, i)
  {
    FindFrom(text, word, 0)
  }

  /** A word occurs in a part of a text only if it occurs in the whole. */
  lemma OccursInPart(before: string, part: string, word: string)
    requires Occurs(part, word)
    ensures Occurs(before + part, word)
  {
    var i: nat :| OccursAt(part, word, i);
    assert (before + part)[|before| + i..|before| + i + |word|] == part[i..i + |word|];
    assert OccursAt(before + part, word, |before| + i);
  }

  lemma MatchAt(text: string, word: string, i: nat, j: nat)
    requires OccursAt(text, word, i) && j < |word|
    ensures text[i + j] == word[j]
  {
    assert text[i..i + |word|][j] == word[j];
  }

  /** A match covers only characters of the word. */
  lemma MatchCovers(text: string, word: string, i: nat, p: nat)
    requires OccursAt(text, word, i) && i <= p < i + |word|
    ensures text[p] in word
  {
    assert word[p - i] == text[p];
  }

  /** A word without the separator occurs in a separated text exactly when it occurs on one side. */
  lemma OccursBeside(left: string, sep: char, right: string, word: string)
    requires sep !in word && word != ""
    ensures Occurs(left + [sep] + right, word) <==> Occurs(left, word) || Occurs(right, word)
  {
    var text := left + [sep] + right;
    if Occurs(right, word) {
      OccursInPart(left + [sep], right, word);
    }
    if Occurs(left, word) {
      var i: nat :| OccursAt(left, word, i);
      assert text[i..i + |word|] == left[i..i + |word|];
      assert OccursAt(text, word, i);
    }
    if Occurs(text, word) {
      var i: nat :| OccursAt(text, word, i);
      if i + |word| <= |left| {
        assert left[i..i + |word|] == text[i..i + |word|];
        assert OccursAt(left, word, i);
      } else if i <= |left| {
        MatchCovers(text, word, i, |left|);
      } else {
        var j := i - |left| - 1;
        assert right[j..j + |word|] == text[i..i + |word|];
        assert OccursAt(right, word, j);
      }
    }
  }
}
