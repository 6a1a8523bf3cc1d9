/**
 * What peek() and get() return: a PHP array from message text to category
 * name, modelled as the sequence of its (text, category) pairs. Over all
 * categories the arrays are combined with array_merge, whose string keys
 * are unique: a text that is already present keeps its position and takes
 * the later category name.
 */
module Listings {
  import opened Sequences
  import opened Collections

  datatype Entry = Entry(text: string, category: string)

  /** The keys of a listing: its message texts, in order. */
  function Texts(r: seq<Entry>): (ts: seq<string>)
    ensures |ts| == |r|
  {
    seq(|r|, i requires 0 <= i < |r| => r[i].text)
  }

  lemma TextsMembers(r: seq<Entry>)
    ensures forall y :: y in r ==> y.text in Texts(r)
    ensures forall x :: x in Texts(r) ==> exists y :: y in r && y.text == x
  {
    forall y | y in r ensures y.text in Texts(r) {
      var i :| 0 <= i < |r| && r[i] == y;
      assert Texts(r)[i] == y.text;
    }
    forall x | x in Texts(r) ensures exists y :: y in r && y.text == x {
      var i :| 0 <= i < |Texts(r)| && Texts(r)[i] == x;
      assert r[i] in r;
    }
  }

  /** `$messages[$category]` as peek($category) returns it: each message text mapped to its category. */
  function Labelled(e: Entries, category: string): (r: seq<Entry>)
    ensures Texts(r) == e
    ensures forall y :: y in r ==> y.category == category && y.text in e
  {
    seq(|e|, i requires 0 <= i < |e| => Entry(e[i], category))
  }

  lemma TextsCons(y: Entry, rest: seq<Entry>)
    ensures Texts([y] + rest) == [y.text] + Texts(rest)
  {
  }

  lemma TextsTail(a: seq<Entry>)
    requires a != []
    ensures Texts(a) == [a[0].text] + Texts(a[1..])
  {
    assert a == [a[0]] + a[1..];
    TextsCons(a[0], a[1..]);
  }

  /** `$a[$x->text] = $x->category` on an array with string keys. */
  function MergeOne(a: seq<Entry>, x: Entry): (r: seq<Entry>)
    requires Distinct(Texts(a))
    ensures Texts(r) == if x.text in Texts(a) then Texts(a) else Texts(a) + [x.text]
    ensures forall y :: y in r ==> if y.text == x.text then y == x else y in a
  {
    if a == [] then [x]
    else
      TextsTail(a);
      DistinctTail(Texts(a));
      TextsMembers(a[1..]);
      if a[0].text == x.text then
        TextsCons(x, a[1..]);
        [x] + a[1..]
      else
        var rest := MergeOne(a[1..], x);
        TextsCons(a[0], rest);
        [a[0]] + rest
  }

  /**
   * array_merge($a, $b) for arrays with string keys: the entries of `b` are
   * written into `a` one after another.
   */
  function Merge(a: seq<Entry>, b: seq<Entry>): (r: seq<Entry>)
    requires Distinct(Texts(a))
    ensures Distinct(Texts(r))
    decreases b
  {
    if b == [] then a
    else
      MergeOneTexts(a, b[0]);
      Merge(MergeOne(a, b[0]), b[1..])
  }

  /** The keys of array_merge($a, $b): those of `a`, then the new ones of `b`, in order. */
  lemma {:induction false} MergeTexts(a: seq<Entry>, b: seq<Entry>)
    requires Distinct(Texts(a))
    ensures Texts(Merge(a, b)) == FirstOccurrences(Texts(a) + Texts(b))
    decreases b
  {
    if b == [] {
      assert Texts(a) + Texts(b) == Texts(a);
      FirstOccurrencesOfDistinct(Texts(a));
    } else {
      MergeOneTexts(a, b[0]);
      MergeTexts(MergeOne(a, b[0]), b[1..]);
      TextsTail(b);
      FirstOccurrencesAbsorb(Texts(a) + [b[0].text], Texts(b[1..]));
      SnocThenAppend(Texts(a), Texts(b));
    }
  }

  lemma MergeOneTexts(a: seq<Entry>, x: Entry)
    requires Distinct(Texts(a))
    ensures Texts(MergeOne(a, x)) == FirstOccurrences(Texts(a) + [x.text])
    ensures Distinct(Texts(MergeOne(a, x)))
  {
    FirstOccurrencesOfDistinct(Texts(a));
    FirstOccurrencesSnoc(Texts(a), x.text);
    FirstOccurrencesDistinct(Texts(a) + [x.text]);
  }

  /**
   * Every entry of array_merge($a, $b) comes from `b` if its text is a key
   * of `b`, so it carries the category `b` gives it, and from `a` otherwise.
   */
  lemma {:induction false} MergeOrigins(a: seq<Entry>, b: seq<Entry>)
    requires Distinct(Texts(a))
    ensures forall y :: y in Merge(a, b) ==> if y.text in Texts(b) then y in b else y in a
    decreases b
  {
    if b != [] {
      var a' := MergeOne(a, b[0]);
      MergeOneTexts(a, b[0]);
      MergeOrigins(a', b[1..]);
      TextsTail(b);
      TextsMembers(b);
      TextsMembers(b[1..]);
      assert b == [b[0]] + b[1..];
    }
  }

  /** peek($category): that category's messages, each labelled with it; none for an absent category. */
  function PeekOne(c: Collection, category: string): seq<Entry> {
    Labelled(Get(c, category), category)
  }

  /** peek() with no category: array_merge of peek($t) for each `t` of `types`, in list order. */
  function PeekAll(c: Collection, types: seq<string>): (r: seq<Entry>)
    ensures Distinct(Texts(r))
  {
    if types == [] then []
    else Merge(PeekAll(c, types[..|types| - 1]), PeekOne(c, types[|types| - 1]))
  }

  /** The messages of the categories `types`, one category after another, repetitions kept. */
  function AllMessages(c: Collection, types: seq<string>): seq<string> {
    if types == [] then []
    else AllMessages(c, types[..|types| - 1]) + Get(c, types[|types| - 1])
  }

  /** The last category of `types` that holds the message `x`. */
  function LastOwner(c: Collection, types: seq<string>, x: string): (t: string)
    requires x in AllMessages(c, types)
    ensures t in types && x in Get(c, t)
  {
    var init, last := types[..|types| - 1], types[|types| - 1];
    if x in Get(c, last) then last
    else
      var t := LastOwner(c, init, x);
      assert t in init;
      t
  }

  /**
   * The texts peek() returns are the messages of the listed categories in
   * list order, each text once, at its first position.
   */
  lemma {:induction false} PeekAllTexts(c: Collection, types: seq<string>)
    ensures Texts(PeekAll(c, types)) == FirstOccurrences(AllMessages(c, types))
  {
    if types != [] {
      var init := types[..|types| - 1];
      PeekAllTexts(c, init);
      MergeTexts(PeekAll(c, init), PeekOne(c, types[|types| - 1]));
      FirstOccurrencesAbsorb(AllMessages(c, init), Get(c, types[|types| - 1]));
    }
  }

  /**
   * Each entry peek() returns is a message of the listed categories, labelled
   * with the last listed category that holds it.
   */
  lemma {:induction false} PeekAllCategories(c: Collection, types: seq<string>)
    ensures forall y :: y in PeekAll(c, types) ==>
      y.text in AllMessages(c, types) && y.category == LastOwner(c, types, y.text)
  {
    if types != [] {
      var init, last := types[..|types| - 1], types[|types| - 1];
      PeekAllCategories(c, init);
      MergeOrigins(PeekAll(c, init), PeekOne(c, last));
      forall y | y in PeekAll(c, types)
        ensures y.text in AllMessages(c, types) && y.category == LastOwner(c, types, y.text)
      {
        if y.text in Get(c, last) {
          assert y in PeekOne(c, last);
        } else {
          assert y in PeekAll(c, init);
        }
      }
    }
  }

  /** peek() returns nothing when every listed category is empty. */
  lemma {:induction false} PeekAllOfEmpty(c: Collection, types: seq<string>)
    requires forall t :: t in types ==> Get(c, t) == []
    ensures PeekAll(c, types) == []
  {
    if types != [] {
      var init := types[..|types| - 1];
      PeekAllOfEmpty(c, init);
      MergeTexts([], PeekOne(c, types[|types| - 1]));
      assert Merge([], PeekOne(c, types[|types| - 1])) == [];
    }
  }
}
