/** The search-key normaliser `normalizeText` of frontend/src/utils/helpers.js,
    on ASCII text: lower case, with every character that is not a letter or a
    digit removed. On ASCII input the Unicode decomposition and the removal of
    combining marks change nothing. */
module Helpers {
  import opened Strings

  predicate IsAsciiText(s: string) { forall i :: 0 <= i < |s| ==> IsAscii(s[i]) }

  predicate IsKeyChar(c: char) { IsDigit(c) || IsAsciiLower(c) }

  /** One character's contribution to the key. */
  function KeyOf(c: char): (r: string)
    ensures |r| <= 1 && (r != [] ==> IsKeyChar(r[0]))
  {
    if IsAsciiAlnum(c) then [LowerChar(c)] else []
  }

  /** `normalizeText(text)`; `None` is `null` or `undefined`. */
  function NormalizeText(text: Option<string>): (r: string)
    requires text.Some? ==> IsAsciiText(text.value)
    ensures text.None? ==> r == ""
    ensures forall i :: 0 <= i < |r| ==> IsKeyChar(r[i])
  {
    if text.None? then "" else Filter(ToLower(text.value), IsAsciiAlnum)
  }

  /** The key is built character by character, in order: each letter or digit
      contributes its lower-case form, every other character nothing. */
  lemma NormalizeCons(c: char, s: string)
    requires IsAscii(c) && IsAsciiText(s)
    ensures IsAsciiText([c] + s)
    ensures NormalizeText(Some([c] + s)) == KeyOf(c) + NormalizeText(Some(s))
  {
    var t := [c] + s;
    assert t[1..] == s;
    assert ToLower(t) == [LowerChar(c)] + ToLower(s) by {
      assert ToLower(t)[1..] == ToLower(s);
    }
    assert ([LowerChar(c)] + ToLower(s))[1..] == ToLower(s);
  }

  /** The key of a concatenation is the concatenation of the keys. */
  lemma NormalizeAppend(a: string, b: string)
    requires IsAsciiText(a) && IsAsciiText(b)
    ensures IsAsciiText(a + b)
    ensures NormalizeText(Some(a + b)) == NormalizeText(Some(a)) + NormalizeText(Some(b))
  {
    assert forall i :: 0 <= i < |a + b| ==> (a + b)[i] == if i < |a| then a[i] else b[i - |a|];
    ToLowerAppend(a, b);
    FilterAppend(ToLower(a), ToLower(b), IsAsciiAlnum);
  }

  lemma ToLowerAppend(a: string, b: string)
    ensures ToLower(a + b) == ToLower(a) + ToLower(b)
  {
    var l, r := ToLower(a + b), ToLower(a) + ToLower(b);
    assert |l| == |r|;
    forall i | 0 <= i < |l|
      ensures l[i] == r[i]
    {
      if i < |a| {
        assert (a + b)[i] == a[i];
      } else {
        assert (a + b)[i] == b[i - |a|];
      }
    }
  }

  /** A key normalises to itself. */
  lemma {:induction false} NormalizeIdempotent(s: string)
    requires IsAsciiText(s)
    ensures IsAsciiText(NormalizeText(Some(s)))
    ensures NormalizeText(Some(NormalizeText(Some(s)))) == NormalizeText(Some(s))
  {
    var r := NormalizeText(Some(s));
    assert forall i :: 0 <= i < |r| ==> IsKeyChar(r[i]);
    KeysNormaliseToThemselves(r);
  }

  lemma {:induction false} KeysNormaliseToThemselves(r: string)
    requires forall i :: 0 <= i < |r| ==> IsKeyChar(r[i])
    ensures IsAsciiText(r) && NormalizeText(Some(r)) == r
  {
    if r != [] {
      KeysNormaliseToThemselves(r[1..]);
      NormalizeCons(r[0], r[1..]);
      assert [r[0]] + r[1..] == r;
    }
  }
}
