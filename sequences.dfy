/** Facts about sequences without repeated elements, the shape of the keys of a PHP array. */
module Sequences {

  /** No element of `s` occurs twice. */
  predicate Distinct<T(==)>(s: seq<T>) {
    forall i, j :: 0 <= i < j < |s| ==> s[i] != s[j]
  }

  lemma SnocThenAppend<T>(a: seq<T>, s: seq<T>)
    requires s != []
    ensures (a + [s[0]]) + s[1..] == a + s
  {
    assert s == [s[0]] + s[1..];
  }

  lemma ConsTail<T>(s: seq<T>)
    requires s != []
    ensures [s[0]] + s[1..] == s
  {
  }

  lemma DistinctTail<T>(s: seq<T>)
    requires Distinct(s) && s != []
    ensures Distinct(s[1..]) && s[0] !in s[1..]
  {
    forall i | 0 <= i < |s[1..]| ensures s[1..][i] != s[0] {
      assert s[1..][i] == s[i + 1];
    }
  }

  /**
   * The elements of `s` at the positions where they occur for the first
   * time, in the order of those positions.
   */
  function FirstOccurrences<T(==)>(s: seq<T>): seq<T> {
    if s == [] then []
    else
      var init, last := s[..|s| - 1], s[|s| - 1];
      FirstOccurrences(init) + (if last in init then [] else [last])
  }

  lemma FirstOccurrencesSnoc<T>(s: seq<T>, x: T)
    ensures FirstOccurrences(s + [x]) == FirstOccurrences(s) + (if x in s then [] else [x])
  {
    assert (s + [x])[..|s|] == s;
  }

  lemma {:induction false} FirstOccurrencesMembers<T>(s: seq<T>)
    ensures forall x :: x in FirstOccurrences(s) <==> x in s
  {
    if s != [] {
      var init, last := s[..|s| - 1], s[|s| - 1];
      FirstOccurrencesMembers(init);
      assert s == init + [last];
    }
  }

  lemma {:induction false} FirstOccurrencesDistinct<T>(s: seq<T>)
    ensures Distinct(FirstOccurrences(s))
  {
    if s != [] {
      var init := s[..|s| - 1];
      FirstOccurrencesDistinct(init);
      FirstOccurrencesMembers(init);
    }
  }

  /** Removing repetitions from a sequence that has none changes nothing. */
  lemma {:induction false} FirstOccurrencesOfDistinct<T>(s: seq<T>)
    requires Distinct(s)
    ensures FirstOccurrences(s) == s
  {
    if s != [] {
      var init, last := s[..|s| - 1], s[|s| - 1];
      assert Distinct(init);
      FirstOccurrencesOfDistinct(init);
      assert last !in init by {
        forall i | 0 <= i < |init| ensures init[i] != last {
          assert init[i] == s[i] && last == s[|s| - 1];
        }
      }
      assert s == init + [last];
    }
  }

  /** Removing repetitions early does not change the final result. */
  lemma {:induction false} FirstOccurrencesAbsorb<T>(s: seq<T>, t: seq<T>)
    ensures FirstOccurrences(FirstOccurrences(s) + t) == FirstOccurrences(s + t)
  {
    var f := FirstOccurrences(s);
    if t == [] {
      assert f + t == f;
      assert s + t == s;
      FirstOccurrencesDistinct(s);
      FirstOccurrencesOfDistinct(f);
    } else {
      var init, x := t[..|t| - 1], t[|t| - 1];
      FirstOccurrencesAbsorb(s, init);
      SplitLast(f, t);
      SplitLast(s, t);
      FirstOccurrencesSnoc(f + init, x);
      FirstOccurrencesSnoc(s + init, x);
      assert (x in f + init) == (x in s + init) by {
        FirstOccurrencesMembers(s);
      }
    }
  }

  lemma SplitLast<T>(a: seq<T>, t: seq<T>)
    requires t != []
    ensures a + t == (a + t[..|t| - 1]) + [t[|t| - 1]]
  {
    assert t == t[..|t| - 1] + [t[|t| - 1]];
  }
}
