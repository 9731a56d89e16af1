/** The string operations the tools use: lowercasing, Python's substring test
    `needle in hay`, and `sep.join(parts)`. Lowercasing is ASCII-only. */
module Text {

  predicate IsUpper(c: char) {
    'A' <= c <= 'Z'
  }

  /** ASCII lowercase of one character; every other character is kept. */
  function LowerChar(c: char): (d: char)
    ensures !IsUpper(d)
    ensures IsUpper(c) ==> 'a' <= d <= 'z' && d as int - c as int == 'a' as int - 'A' as int
    ensures !IsUpper(c) ==> d == c
  {
    if IsUpper(c) then (c as int - 'A' as int + 'a' as int) as char else c
  }

  /** `s.lower()` restricted to ASCII letters. */
  function Lower(s: string): (r: string)
    ensures |r| == |s|
    ensures forall i :: 0 <= i < |s| ==> r[i] == LowerChar(s[i])
  {
    if s == [] then [] else [LowerChar(s[0])] + Lower(s[1..])
  }

  /** `needle` occurs in `hay` starting at offset `i`. */
  predicate OccursAt(needle: string, hay: string, i: int) {
    0 <= i <= |hay| - |needle| && hay[i..i + |needle|] == needle
  }

  /** Python's `needle in hay` on strings: `needle` occurs at some offset. */
  predicate IsSubstring(needle: string, hay: string) {
    exists i | 0 <= i <= |hay| - |needle| :: OccursAt(needle, hay, i)
  }

  /** An occurrence survives adding text on either side. */
  lemma SubstringWiden(needle: string, pre: string, hay: string, post: string)
    requires IsSubstring(needle, hay)
    ensures IsSubstring(needle, pre + hay + post)
  {
    var i: int :| OccursAt(needle, hay, i);
    assert OccursAt(needle, hay, i);
    var whole := pre + hay + post;
    assert whole[|pre| + i..|pre| + i + |needle|] == hay[i..i + |needle|];
    assert OccursAt(needle, whole, |pre| + i);
  }

  /** Every string occurs in itself. */
  lemma SubstringSelf(s: string)
    ensures IsSubstring(s, s)
  {
    assert OccursAt(s, s, 0);
  }

  /** Lowercasing both sides keeps an occurrence: the case-insensitive test
      `lower(needle) in lower(hay)` accepts every case-sensitive match. */
  lemma SubstringLower(needle: string, hay: string)
    requires IsSubstring(needle, hay)
    ensures IsSubstring(Lower(needle), Lower(hay))
  {
    var i: int :| OccursAt(needle, hay, i);
    assert OccursAt(needle, hay, i);
    var lh := Lower(hay);
    assert lh[i..i + |needle|] == Lower(needle) by {
      forall k | 0 <= k < |needle|
        ensures lh[i..i + |needle|][k] == Lower(needle)[k]
      {
        assert hay[i + k] == hay[i..i + |needle|][k];
      }
    }
    assert OccursAt(Lower(needle), lh, i);
  }

  /** Python's `sep.join(parts)`: the parts in order with `sep` between
      neighbours. */
  function Join(sep: string, parts: seq<string>): string
  {
    if |parts| == 0 then ""
    else if |parts| == 1 then parts[0]
    else parts[0] + sep + Join(sep, parts[1..])
  }

  /** Every part is visible in the joined text. */
  lemma {:induction false} JoinContainsEachPart(sep: string, parts: seq<string>)
    ensures forall k :: 0 <= k < |parts| ==> IsSubstring(parts[k], Join(sep, parts))
  {
    if |parts| == 1 {
      SubstringSelf(parts[0]);
    } else if |parts| > 1 {
      var rest := Join(sep, parts[1..]);
      forall k | 0 <= k < |parts|
        ensures IsSubstring(parts[k], Join(sep, parts))
      {
        if k == 0 {
          SubstringSelf(parts[0]);
          SubstringWiden(parts[0], "", parts[0], sep + rest);
          assert "" + parts[0] + (sep + rest) == Join(sep, parts);
        } else {
          JoinContainsEachPart(sep, parts[1..]);
          assert parts[k] == parts[1..][k - 1];
          SubstringWiden(parts[k], parts[0] + sep, rest, "");
          assert parts[0] + sep + rest + "" == Join(sep, parts);
        }
      }
    }
  }
}
