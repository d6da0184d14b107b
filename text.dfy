/** Substring containment, used to state what an error message mentions. */
module Text {

  /** `needle` occurs in `hay` starting at index `i`. */
  predicate OccursAt(needle: string, hay: string, i: int) {
    0 <= i && i + |needle| <= |hay| && hay[i..i + |needle|] == needle
  }

  ghost predicate Contains(hay: string, needle: string) {
    exists i :: OccursAt(needle, hay, i)
  }

  lemma ContainsMiddle(prefix: string, needle: string, suffix: string)
    ensures Contains(prefix + needle + suffix, needle)
  {
    var hay := prefix + needle + suffix;
    assert hay[|prefix|..|prefix| + |needle|] == needle;
    assert OccursAt(needle, hay, |prefix|);
  }

  /** The second, fourth and sixth of seven concatenated parts occur in the whole. */
  lemma ContainsAlternateParts(p1: string, p2: string, p3: string, p4: string, p5: string, p6: string, p7: string)
    ensures Contains(p1 + p2 + p3 + p4 + p5 + p6 + p7, p2)
    ensures Contains(p1 + p2 + p3 + p4 + p5 + p6 + p7, p4)
    ensures Contains(p1 + p2 + p3 + p4 + p5 + p6 + p7, p6)
  {
    var hay := p1 + p2 + p3 + p4 + p5 + p6 + p7;
    assert hay == p1 + p2 + (p3 + p4 + p5 + p6 + p7);
    ContainsMiddle(p1, p2, p3 + p4 + p5 + p6 + p7);
    assert hay == (p1 + p2 + p3) + p4 + (p5 + p6 + p7);
    ContainsMiddle(p1 + p2 + p3, p4, p5 + p6 + p7);
    assert hay == (p1 + p2 + p3 + p4 + p5) + p6 + p7;
    ContainsMiddle(p1 + p2 + p3 + p4 + p5, p6, p7);
  }
}
