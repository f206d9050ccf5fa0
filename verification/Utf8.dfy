/** Well-formed UTF-8 (RFC 3629, section 4). A reader replaces what is not well-formed and keeps the rest as it is. */
module Utf8 {
  import opened Bytes

  predicate Within(s: Slice, k: nat, lo: byte, hi: byte) {
    k < |s| && lo <= s[k] <= hi
  }

  predicate Continues(s: Slice, k: nat) {
    Within(s, k, 0x80, 0xBF)
  }

  predicate Two(s: Slice) {
    Within(s, 0, 0xC2, 0xDF) && Continues(s, 1)
  }

  predicate Three(s: Slice) {
    ((Within(s, 0, 0xE0, 0xE0) && Within(s, 1, 0xA0, 0xBF)) || (Within(s, 0, 0xE1, 0xEC) && Continues(s, 1)) ||
     (Within(s, 0, 0xED, 0xED) && Within(s, 1, 0x80, 0x9F)) || (Within(s, 0, 0xEE, 0xEF) && Continues(s, 1))) &&
    Continues(s, 2)
  }

  predicate Four(s: Slice) {
    ((Within(s, 0, 0xF0, 0xF0) && Within(s, 1, 0x90, 0xBF)) || (Within(s, 0, 0xF1, 0xF3) && Continues(s, 1)) ||
     (Within(s, 0, 0xF4, 0xF4) && Within(s, 1, 0x80, 0x8F))) &&
    Continues(s, 2) && Continues(s, 3)
  }

  /** The number of bytes of the character at the front, 0 when there is none. */
  function Width(s: Slice): (w: nat)
    ensures w <= |s|
  {
    if Within(s, 0, 0, 0x7F) then 1 else if Two(s) then 2 else if Three(s) then 3 else if Four(s) then 4 else 0
  }

  predicate WellFormed(s: Slice) {
    s == [] || (Width(s) > 0 && WellFormed(s[Width(s)..]))
  }

  predicate Ascii(s: Slice) {
    forall i :: 0 <= i < |s| ==> s[i] < 0x80
  }

  /** No character reaches over the start of another one. */
  lemma {:induction false} WidthSplit(a: Slice, b: Slice)
    requires a != [] && (b == [] || b[0] < 0x80)
    ensures Width(a + b) == Width(a)
  {
    assert forall k :: 0 <= k < |a| ==> (a + b)[k] == a[k];
    assert b != [] ==> (a + b)[|a|] == b[0];
  }

  lemma {:induction false} Split(a: Slice, b: Slice)
    requires b == [] || b[0] < 0x80
    ensures WellFormed(a + b) <==> WellFormed(a) && WellFormed(b)
    decreases |a|
  {
    if a == [] {
      assert a + b == b;
    } else {
      WidthSplit(a, b);
      var w := Width(a);
      if w > 0 {
        assert (a + b)[w..] == a[w..] + b;
        Split(a[w..], b);
      }
    }
  }

  lemma {:induction false} AsciiFront(a: Slice, b: Slice)
    requires Ascii(a)
    ensures WellFormed(a + b) <==> WellFormed(b)
  {
    if a == [] {
      assert a + b == b;
    } else {
      assert (a + b)[1..] == a[1..] + b;
      assert Width(a + b) == 1;
      AsciiFront(a[1..], b);
    }
  }
}
