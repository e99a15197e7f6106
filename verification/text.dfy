/** String helpers with Ruby's meaning: `strip`, `downcase`/`upcase` (ASCII letters only),
    `include?` on strings, and `uniq` on arrays. */
module Text {

  /** The characters Ruby's `String#strip` removes: NUL, tab, line feed, vertical tab,
      form feed, carriage return and space. */
  predicate IsStripSpace(c: char) {
    c == '\0' || c == '\t' || c == '\n' || c == '\U{B}' || c == '\U{C}' || c == '\r' || c == ' '
  }

  function TrimLeft(s: string): (r: string)
    ensures |r| <= |s| && r == s[|s| - |r|..]
    ensures |r| > 0 ==> !IsStripSpace(r[0])
    ensures forall i :: 0 <= i < |s| - |r| ==> IsStripSpace(s[i])
  {
    if |s| > 0 && IsStripSpace(s[0]) then TrimLeft(s[1..]) else s
  }

  function TrimRight(s: string): (r: string)
    ensures |r| <= |s| && r == s[..|r|]
    ensures |r| > 0 ==> !IsStripSpace(r[|r| - 1])
    ensures forall i :: |r| <= i < |s| ==> IsStripSpace(s[i])
  {
    if |s| > 0 && IsStripSpace(s[|s| - 1]) then TrimRight(s[..|s| - 1]) else s
  }

  /** Number of strip-space characters `String#strip` cuts from the front of `s`. */
  function StripOffset(s: string): (k: nat)
    ensures k <= |s|
  {
    |s| - |TrimLeft(s)|
  }

  /** `String#strip`: the result is a slice of `s`, it neither starts nor ends with a
      strip-space character, and everything cut away was strip-space. */
  function Strip(s: string): (r: string)
    ensures StripOffset(s) + |r| <= |s| && r == s[StripOffset(s)..StripOffset(s) + |r|]
    ensures forall i :: 0 <= i < StripOffset(s) || StripOffset(s) + |r| <= i < |s| ==> IsStripSpace(s[i])
    ensures |r| > 0 ==> !IsStripSpace(r[0]) && !IsStripSpace(r[|r| - 1])
    ensures (forall i :: 0 <= i < |s| ==> IsStripSpace(s[i])) <==> r == ""
  {
    var l := TrimLeft(s);
    var r := TrimRight(l);
    assert r == s[|s| - |l|..|s| - |l| + |r|];
    r
  }

  function LowerChar(c: char): char {
    if 'A' <= c <= 'Z' then (c as int - 'A' as int + 'a' as int) as char else c
  }

  function UpperChar(c: char): char {
    if 'a' <= c <= 'z' then (c as int - 'a' as int + 'A' as int) as char else c
  }

  /** `String#downcase` restricted to ASCII letters. */
  function Lower(s: string): (r: string)
    ensures |r| == |s|
    ensures forall i :: 0 <= i < |s| ==> r[i] == LowerChar(s[i])
  {
    seq(|s|, i requires 0 <= i < |s| => LowerChar(s[i]))
  }

  /** `String#upcase` restricted to ASCII letters. */
  function Upper(s: string): (r: string)
    ensures |r| == |s|
    ensures forall i :: 0 <= i < |s| ==> r[i] == UpperChar(s[i])
  {
    seq(|s|, i requires 0 <= i < |s| => UpperChar(s[i]))
  }

  ghost predicate OccursAt(needle: string, hay: string, i: int) {
    0 <= i && i + |needle| <= |hay| && hay[i..i + |needle|] == needle
  }

  /** Ruby's `hay.include?(needle)` on strings: `needle` occurs as a contiguous slice. */
  function Contains(hay: string, needle: string): (b: bool)
    ensures b <==> exists i :: OccursAt(needle, hay, i)
    decreases |hay|
  {
    if |needle| <= |hay| && hay[..|needle|] == needle then
      assert OccursAt(needle, hay, 0);
      true
    else if |hay| <= |needle| then
      assert forall i :: !OccursAt(needle, hay, i) by {
        forall i | OccursAt(needle, hay, i) ensures false {
        }
      }
      false
    else
      var b := Contains(hay[1..], needle);
      assert forall i :: OccursAt(needle, hay[1..], i) <==> OccursAt(needle, hay, i + 1) by {
        forall i ensures OccursAt(needle, hay[1..], i) <==> OccursAt(needle, hay, i + 1) {
          if 0 <= i && i + |needle| <= |hay| - 1 {
            assert hay[1..][i..i + |needle|] == hay[i + 1..i + 1 + |needle|];
          }
        }
      }
      assert b ==> exists i :: OccursAt(needle, hay, i) by {
        if b {
          var i :| OccursAt(needle, hay[1..], i);
          assert OccursAt(needle, hay, i + 1);
        }
      }
      assert (exists i :: OccursAt(needle, hay, i)) ==> b by {
        if exists i :: OccursAt(needle, hay, i) {
          var i :| OccursAt(needle, hay, i);
          assert i != 0;
          assert OccursAt(needle, hay[1..], i - 1);
        }
      }
      b
  }

  predicate NoDuplicates<T(==)>(s: seq<T>) {
    forall i, j :: 0 <= i < j < |s| ==> s[i] != s[j]
  }

  /** Position of the first occurrence of `x` in `s`. */
  function FirstPosition<T(==)>(s: seq<T>, x: T): (k: nat)
    requires x in s
    ensures k < |s| && s[k] == x
    ensures forall i :: 0 <= i < k ==> s[i] != x
  {
    if s[0] == x then 0 else 1 + FirstPosition(s[1..], x)
  }

  /** Extending a list does not move the first occurrence of an element it already holds. */
  lemma FirstPositionSnoc<T>(s: seq<T>, x: T, y: T)
    requires y in s
    ensures FirstPosition(s + [x], y) == FirstPosition(s, y)
  {
    var k := FirstPosition(s + [x], y);
    var k' := FirstPosition(s, y);
    assert (s + [x])[k'] == y;
    assert k <= k';
    assert s[k] == (s + [x])[k];
  }

  /** Every element of `r` occurs in `s`, and `r` lists them in the order in which they first
      occur in `s`. */
  predicate FirstOccurrenceOrder<T(==)>(s: seq<T>, r: seq<T>) {
    (forall i :: 0 <= i < |r| ==> r[i] in s)
    && forall i, j :: 0 <= i < j < |r| ==> FirstPosition(s, r[i]) < FirstPosition(s, r[j])
  }

  /** One step of `uniq`: the order of first occurrences survives appending an element. */
  lemma OrderSnoc<T>(p: seq<T>, x: T, r: seq<T>)
    requires FirstOccurrenceOrder(p, r)
    requires forall i :: 0 <= i < |p| ==> p[i] in r
    ensures FirstOccurrenceOrder(p + [x], if x in r then r else r + [x])
  {
    var s := p + [x];
    forall y | y in r
      ensures FirstPosition(s, y) == FirstPosition(p, y)
    {
      FirstPositionSnoc(p, x, y);
    }
    if x !in r {
      assert FirstPosition(s, x) == |p| by {
        assert forall i :: 0 <= i < |p| ==> s[i] == p[i] && p[i] in r;
      }
      forall i, j | 0 <= i < j < |r| + 1
        ensures FirstPosition(s, (r + [x])[i]) < FirstPosition(s, (r + [x])[j])
      {
        assert (r + [x])[i] == r[i];
      }
    }
  }

  /** Ruby's `Array#uniq`: keeps the first occurrence of every element, in order. The result
      holds each element of `s` once, and lists them in the order of their first occurrences. */
  function Dedup<T(==)>(s: seq<T>): (r: seq<T>)
    ensures NoDuplicates(r)
    ensures forall i :: 0 <= i < |s| ==> s[i] in r
    ensures forall i :: 0 <= i < |r| ==> r[i] in s
    ensures |r| <= |s|
    ensures NoDuplicates(s) ==> r == s
  {
    if |s| == 0 then []
    else
      var p := s[..|s| - 1];
      var r := Dedup(p);
      var x := s[|s| - 1];
      assert s == p + [x];
      if x in r then r else r + [x]
  }

  /** `uniq` lists the distinct elements in the order of their first occurrences, which
      together with `Dedup`'s contract fixes the result uniquely. */
  lemma {:induction false} DedupOrder<T>(s: seq<T>)
    ensures FirstOccurrenceOrder(s, Dedup(s))
  {
    if |s| > 0 {
      var p, x := s[..|s| - 1], s[|s| - 1];
      var r := Dedup(p);
      var r' := if x in r then r else r + [x];
      assert Dedup(s) == r';
      assert FirstOccurrenceOrder(p + [x], r') by {
        DedupOrder(p);
        OrderSnoc(p, x, r);
      }
      assert s == p + [x];
    }
  }

  /** Appending an element and deduplicating: an element already present leaves the list as it
      was, a new one lands at the end. */
  lemma {:induction false} DedupAppend<T>(s: seq<T>, x: T)
    requires NoDuplicates(s)
    ensures Dedup(s + [x]) == if x in s then s else s + [x]
  {
    assert (s + [x])[..|s + [x]| - 1] == s;
  }
}
