/** String helpers the notes system relies on: lower-casing, substring search
    (Python's `in` on strings) and `str.join`. */
module Text {

  /** Lower-cases one character. Only the ASCII letters 'A'..'Z' are mapped. */
  function LowerChar(c: char): (r: char)
    ensures 'A' <= c <= 'Z' ==> 'a' <= r <= 'z' && r as int - c as int == 32
    ensures !('A' <= c <= 'Z') ==> r == c
  {
    if 'A' <= c <= 'Z' then (c as int + 32) as char else c
  }

  /** `s.lower()` restricted to ASCII letters. */
  function Lower(s: string): (r: string)
    ensures |r| == |s|
    ensures forall i :: 0 <= i < |r| ==> !('A' <= r[i] <= 'Z')
    ensures forall i :: 0 <= i < |s| && !('A' <= s[i] <= 'Z') ==> r[i] == s[i]
    ensures forall i :: 0 <= i < |s| && 'A' <= s[i] <= 'Z' ==> r[i] as int == s[i] as int + 32
  {
    seq(|s|, i requires 0 <= i < |s| => LowerChar(s[i]))
  }

  /** Lower-casing twice is the same as lower-casing once. */
  lemma LowerIdempotent(s: string)
    ensures Lower(Lower(s)) == Lower(s)
  {
  }

  /** `needle` occurs in `hay` starting at position `i`. */
  predicate OccursAt(hay: string, needle: string, i: int)
  {
    0 <= i && i + |needle| <= |hay| && hay[i..i + |needle|] == needle
  }

  /** Python's `needle in hay` for strings. */
  function Contains(hay: string, needle: string): (b: bool)
    ensures b ==> |needle| <= |hay|
    ensures needle == "" ==> b
    ensures |hay| == |needle| ==> (b <==> hay == needle)
  {
    assert needle == "" || hay == needle ==> OccursAt(hay, needle, 0);
    exists i | 0 <= i <= |hay| - |needle| :: OccursAt(hay, needle, i)
  }

  /** An occurrence in `b` is an occurrence in `a + b`, shifted by |a|. */
  lemma ContainedInSuffix(a: string, b: string, needle: string)
    requires Contains(b, needle)
    ensures Contains(a + b, needle)
  {
    var i :| 0 <= i <= |b| - |needle| && OccursAt(b, needle, i);
    assert (a + b)[|a| + i..|a| + i + |needle|] == b[i..i + |needle|];
    assert OccursAt(a + b, needle, |a| + i);
  }

  /** An exact occurrence is still an occurrence once both strings are lower-cased. */
  lemma OccurrenceSurvivesLowering(hay: string, term: string)
    requires Contains(hay, term)
    ensures Contains(Lower(hay), Lower(term))
  {
    var i :| 0 <= i <= |hay| - |term| && OccursAt(hay, term, i);
    forall k | 0 <= k < |term|
      ensures Lower(hay)[i + k] == Lower(term)[k]
    {
      assert hay[i + k] == hay[i..i + |term|][k] == term[k];
    }
    assert Lower(hay)[i..i + |term|] == Lower(term);
    assert OccursAt(Lower(hay), Lower(term), i);
  }

  /** The case-insensitive match of `buscar_por_contenido`:
      `termino.lower() in contenido.lower()`. An exact occurrence always
      matches, and the empty term matches every content. */
  function ContainsIgnoringCase(hay: string, term: string): (b: bool)
    ensures Contains(hay, term) ==> b
    ensures term == "" ==> b
    ensures b ==> |term| <= |hay|
  {
    var b := Contains(Lower(hay), Lower(term));
    assert Contains(hay, term) ==> b by {
      if Contains(hay, term) { OccurrenceSurvivesLowering(hay, term); }
    }
    b
  }

  /** Matching ignores the case of the search term. */
  lemma TermCaseIrrelevant(hay: string, term: string)
    ensures ContainsIgnoringCase(hay, term) <==> ContainsIgnoringCase(hay, Lower(term))
  {
    LowerIdempotent(term);
  }

  /** A capitalised term finds its lower-case occurrence: "Hello" matches
      "hello world". */
  lemma CapitalisedTermMatches()
    ensures ContainsIgnoringCase("hello world", "Hello")
  {
    assert Lower("Hello") == "hello";
    assert Lower("hello world")[0..5] == "hello";
    assert OccursAt(Lower("hello world"), Lower("Hello"), 0);
  }

  /** The summed lengths of a list of strings. */
  function TotalLength(xs: seq<string>): nat
  {
    if xs == [] then 0 else |xs[0]| + TotalLength(xs[1..])
  }

  /** Python's `sep.join(xs)`: the elements in order with one separator
      between each two neighbours. */
  function Join(sep: string, xs: seq<string>): (r: string)
    ensures xs == [] ==> r == ""
    ensures |xs| == 1 ==> r == xs[0]
    ensures xs != [] ==> |r| == TotalLength(xs) + |sep| * (|xs| - 1)
    ensures xs != [] ==> r[..|xs[0]|] == xs[0]
  {
    if |xs| == 0 then ""
    else if |xs| == 1 then xs[0]
    else xs[0] + sep + Join(sep, xs[1..])
  }

  /** Every joined element can be found in the joined string. */
  lemma {:induction false} JoinShowsEach(sep: string, xs: seq<string>, x: string)
    requires x in xs
    ensures Contains(Join(sep, xs), x)
  {
    var j := xs[0] + sep + Join(sep, xs[1..]);
    if |xs| == 1 {
      assert Join(sep, xs)[0..|x|] == x;
      assert OccursAt(Join(sep, xs), x, 0);
    } else if xs[0] == x {
      assert j == x + (sep + Join(sep, xs[1..]));
      assert j[0..|x|] == x;
      assert OccursAt(j, x, 0);
    } else {
      JoinShowsEach(sep, xs[1..], x);
      ContainedInSuffix(xs[0] + sep, Join(sep, xs[1..]), x);
    }
  }
}
