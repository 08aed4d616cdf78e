/** The order in which a JavaScript `Map` lists its keys: that of their first occurrence. */
module FirstOccurrence {

  function Firsts<T(==)>(s: seq<T>): seq<T> {
    if s == [] then []
    else
      var before, last := Firsts(s[..|s| - 1]), s[|s| - 1];
      if last in before then before else before + [last]
  }

  lemma FirstsStep<T>(s: seq<T>, x: T)
    ensures Firsts(s + [x]) == if x in Firsts(s) then Firsts(s) else Firsts(s) + [x]
  {
    assert (s + [x])[..|s + [x]| - 1] == s;
  }

  /** Everything that occurs is listed, once. */
  lemma {:induction false} FirstsList<T>(s: seq<T>)
    ensures forall x :: x in Firsts(s) <==> x in s
    ensures forall i, j :: 0 <= i < j < |Firsts(s)| ==> Firsts(s)[i] != Firsts(s)[j]
  {
    if s == [] {
    } else {
      var n := |s| - 1;
      FirstsList(s[..n]);
      assert s == s[..n] + [s[n]];
    }
  }
}
