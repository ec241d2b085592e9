/**
  The three wide-character arrays of the configuration, which stand one behind the other in the
  object, and the conversion that fills them. The conversion clears the array it is given and then
  writes the text and its NUL, however long the text is: it never looks at the end of the array.
 */
module WideArrays {
  import opened Text

  const NAME_CAPACITY: nat := 50
  const ACCOUNT_CAPACITY: nat := 50
  const PWD_CAPACITY: nat := 20

  const NAME_AT: nat := 0
  const ACCOUNT_AT: nat := 50
  const PWD_AT: nat := 100
  const WIDE_CELLS: nat := 120

  /** The cells after a text has been converted into the array at `at`; cells behind the last array are not shown. */
  function CopyWide(cells: string, at: nat, capacity: nat, text: string): (r: string)
    ensures |r| == |cells|
  {
    seq(|cells|, i requires 0 <= i < |cells| =>
      if at <= i < at + |text| then text[i - at]
      else if i == at + |text| || at <= i < at + capacity then NUL
      else cells[i])
  }

  /** A text that fits is held by its array afterwards, and every other cell is as it was. */
  lemma CopyThatFits(cells: string, at: nat, capacity: nat, text: string)
    requires at + capacity <= |cells| && |text| < capacity && NUL !in text
    ensures var r := CopyWide(cells, at, capacity, text);
            && NUL in r[at..at + capacity] && CString(r[at..at + capacity]) == text
            && r[..at] == cells[..at] && r[at + capacity..] == cells[at + capacity..]
  {
    var r := CopyWide(cells, at, capacity, text);
    var own := r[at..at + capacity];
    assert own[|text|] == NUL;
    assert own[..|text|] == text;
    CStringOfHeld(own, text);
  }

  /**
    Cell by cell: the text and its NUL from `at` on, wherever they fall, NUL up to the end of the
    array, and the rest as before.
   */
  lemma CopySpelt(cells: string, at: nat, capacity: nat, text: string, i: nat)
    requires i < |cells| && at + capacity <= |cells|
    ensures var r := CopyWide(cells, at, capacity, text);
            && (i < at || (i > at + |text| && i >= at + capacity) ==> r[i] == cells[i])
            && (at <= i < at + |text| ==> r[i] == text[i - at])
            && (i == at + |text| || at + |text| < i < at + capacity ==> r[i] == '\0')
  {
  }

  /** The first cell of the next array is overwritten whenever the text, or its NUL, does not fit. */
  lemma CopyThatSpills(cells: string, at: nat, capacity: nat, text: string)
    requires at + capacity < |cells| && |text| >= capacity
    ensures CopyWide(cells, at, capacity, text)[at + capacity] == if |text| == capacity then NUL else text[capacity]
  {
  }

  /** The array that follows is left alone, whatever it held, exactly when the text fits with its NUL. */
  lemma NextArrayKept(n: nat, at: nat, capacity: nat, text: string)
    requires at + capacity < n
    ensures (forall cells: string | |cells| == n ::
               CopyWide(cells, at, capacity, text)[at + capacity..] == cells[at + capacity..])
            <==> |text| < capacity
  {
    if |text| < capacity {
      forall cells: string | |cells| == n
        ensures CopyWide(cells, at, capacity, text)[at + capacity..] == cells[at + capacity..]
      {
      }
    } else {
      var mark := if |text| == capacity || text[capacity] != 'a' then 'a' else 'b';
      var cells := seq(n, i => mark);
      CopyThatSpills(cells, at, capacity, text);
      var r := CopyWide(cells, at, capacity, text);
      assert |cells| == n && r[at + capacity..][0] != cells[at + capacity..][0];
    }
  }

  /**
    CharConvertToWchar into the array at `at`: cleared first, then filled up to the NUL. `inside`
    says whether every cell written belongs to the array.
   */
  method CharConvertToWchar(wide: array<char>, at: nat, capacity: nat, str: string) returns (ghost inside: bool)
    requires at + capacity <= wide.Length
    modifies wide
    ensures wide[..] == CopyWide(old(wide[..]), at, capacity, str)
    ensures inside <==> |str| < capacity
  {
    forall i | at <= i < at + capacity {
      wide[i] := NUL;
    }
    inside := true;
    var i := 0;
    while i <= |str|
      invariant 0 <= i <= |str| + 1
      invariant inside <==> i <= capacity
      invariant forall j | 0 <= j < wide.Length ::
                  wide[j] == if at <= j < at + i then (if j - at < |str| then str[j - at] else NUL)
                             else if at <= j < at + capacity then NUL
                             else old(wide[j])
    {
      if at + i < wide.Length {
        wide[at + i] := if i < |str| then str[i] else NUL;
      }
      inside := inside && i < capacity;
      i := i + 1;
    }
  }
}
