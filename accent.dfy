/** The stress-mark annotator `add_acute_accent`, identical in both front ends:
    every two-character run `X'` with `X` not an apostrophe becomes `X`
    followed by the combining acute accent U+0301, matches taken left to right
    without overlap, as `re.sub(r"([^'])'", ...)` does. */
module Accent {

  const Apostrophe: char := '\''
  const CombiningAcute: char := '\U{0301}'

  /** The substitution, one scan step at a time: try a match at the front, and
      resume after it (two characters) or after the unmatched character. */
  function AddAcuteAccent(s: string): (r: string)
    ensures |r| == |s|
  {
    if |s| < 2 then s
    else if s[0] != Apostrophe && s[1] == Apostrophe then
      [s[0], CombiningAcute] + AddAcuteAccent(s[2..])
    else [s[0]] + AddAcuteAccent(s[1..])
  }

  /** Position `i` holds a stress marker that the substitution consumes: an
      apostrophe directly after a character that is not one. */
  predicate Marked(s: string, i: int)
  {
    0 < i < |s| && s[i] == Apostrophe && s[i - 1] != Apostrophe
  }

  /** Reference definition, one position at a time: a marked apostrophe turns
      into the combining accent, every other character stays. */
  function AccentedAt(s: string, i: int): char
    requires 0 <= i < |s|
  {
    if Marked(s, i) then CombiningAcute else s[i]
  }

  /** The left-to-right, non-overlapping scan agrees with the position-local
      reference: whether an apostrophe is consumed depends only on its left
      neighbour. */
  lemma {:induction false} AccentPointwise(s: string)
    ensures forall i :: 0 <= i < |s| ==> AddAcuteAccent(s)[i] == AccentedAt(s, i)
  {
    if |s| >= 2 {
      var r := AddAcuteAccent(s);
      if s[0] != Apostrophe && s[1] == Apostrophe {
        var t := s[2..];
        AccentPointwise(t);
        forall i | 2 <= i < |s|
          ensures r[i] == AccentedAt(s, i)
        {
          assert r[i] == AddAcuteAccent(t)[i - 2];
          assert Marked(t, i - 2) <==> Marked(s, i);
        }
      } else {
        var t := s[1..];
        AccentPointwise(t);
        forall i | 1 <= i < |s|
          ensures r[i] == AccentedAt(s, i)
        {
          assert r[i] == AddAcuteAccent(t)[i - 1];
          assert Marked(t, i - 1) <==> Marked(s, i);
        }
      }
    }
  }

  /** The annotator changes the text exactly when it holds a stress marker;
      in particular it is the identity on text free of the `X'` pattern. */
  lemma {:induction false} AccentIdentityIff(s: string)
    ensures AddAcuteAccent(s) == s <==> forall i :: 0 <= i < |s| ==> !Marked(s, i)
  {
    AccentPointwise(s);
    if forall i :: 0 <= i < |s| ==> !Marked(s, i) {
      assert forall i :: 0 <= i < |s| ==> AddAcuteAccent(s)[i] == s[i];
    } else {
      var i :| 0 <= i < |s| && Marked(s, i);
      assert AddAcuteAccent(s)[i] != s[i];
    }
  }

  /** Text with no apostrophe comes back unchanged. */
  lemma {:induction false} AccentIdentityWithoutApostrophe(s: string)
    requires forall i :: 0 <= i < |s| ==> s[i] != Apostrophe
    ensures AddAcuteAccent(s) == s
  {
    AccentIdentityIff(s);
  }

  /** Apostrophes that have no eligible predecessor, one at the start or one
      after another apostrophe, are kept; every marked one becomes the accent,
      and no apostrophe is added. */
  lemma {:induction false} AccentKeepsUnmarkedApostrophes(s: string)
    ensures |s| > 0 && s[0] == Apostrophe ==> AddAcuteAccent(s)[0] == Apostrophe
    ensures forall i :: 0 < i < |s| && s[i - 1] == Apostrophe ==> AddAcuteAccent(s)[i] == s[i]
    ensures forall i :: 0 <= i < |s| && Marked(s, i) ==> AddAcuteAccent(s)[i] == CombiningAcute
    ensures forall i :: 0 <= i < |s| && AddAcuteAccent(s)[i] == Apostrophe ==> s[i] == Apostrophe
  {
    AccentPointwise(s);
  }

  /** The two documented examples: the stress mark in "Челове'к" moves onto
      its vowel, and in "a''" only the first apostrophe is consumed. */
  lemma AccentExamples()
    ensures AddAcuteAccent("Челове'к") == "Челове\U{0301}к"
    ensures AddAcuteAccent("a''") == "a\U{0301}'"
  {
    AccentPointwise("Челове'к");
    AccentPointwise("a''");
    assert AddAcuteAccent("Челове'к")[6] == CombiningAcute;
    assert AddAcuteAccent("a''")[1] == CombiningAcute;
  }

  /** Annotating twice is not annotating once: an apostrophe left over after a
      consumed one is consumed by a second pass. */
  lemma AccentNotIdempotent()
    ensures AddAcuteAccent(AddAcuteAccent("a''")) != AddAcuteAccent("a''")
  {
    AccentExamples();
    assert Marked("a\U{0301}'", 2);
    AccentPointwise("a\U{0301}'");
  }
}
