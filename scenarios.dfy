/**
 * Worked uses of Announce, stated on the specification functions: what the
 * operations give for particular calls, and where the behaviour differs
 * from what a reader of the documentation comments would expect. Each
 * starts from a state of the kind the constructor leaves (InitEffect).
 */
module Scenarios {
  import opened Wrappers
  import opened Sequences
  import opened Collections
  import opened Listings
  import opened AnnounceSpec

  /**
   * The type list lives in the object, not in the session. In a request
   * whose object has the one type `known` (the default list, say), a message
   * is added under the new type `added`. The next request's object, built
   * with the same list, finds the collection non-empty and so keeps its type
   * list as given: peek() does not show the message, and adding to `added`
   * again discards it.
   */
  lemma {:induction false} TypeListNotPersisted(s: State, key: string, known: string, added: string, x: string, y: string)
    requires known != added && s.types == [known]
    requires known in Stored(s, key).entries && Messages(s, key, known) == []
    ensures var first := AddText(s, key, added, x);
            var second := Init(first.userdata, key, [known]);
            first.types == [known, added] &&
            second.types == [known] &&
            Messages(second, key, added) == [x] &&
            PeekAll(Stored(second, key), second.types) == [] &&
            Messages(AddText(second, key, added, y), key, added) == [y]
  {
    var first := AddText(s, key, added, x);
    AddUnknownType(s, key, known, added, x);
    AddOtherType(s, key, added, x, known);
    LaterObject(first, key, known, added, x, y);
  }

  /** The object of a later request, built with the type list [known] over what `first` left. */
  lemma LaterObject(first: State, key: string, known: string, added: string, x: string, y: string)
    requires known != added && added in Stored(first, key).entries
    requires Messages(first, key, known) == [] && Messages(first, key, added) == [x]
    ensures var second := Init(first.userdata, key, [known]);
            second.types == [known] &&
            Messages(second, key, added) == [x] &&
            PeekAll(Stored(second, key), second.types) == [] &&
            Messages(AddText(second, key, added, y), key, added) == [y]
  {
    assert !IsEmpty(Stored(State(first.userdata, [known]), key));
    InitEffect(first.userdata, key, [known]);
    var second := Init(first.userdata, key, [known]);
    PeekAllOfEmpty(Stored(second, key), [known]);
    AddUnknownType(second, key, known, added, y);
  }

  /** Adding under a type missing from the list [known] extends the list and stores the text alone. */
  lemma AddUnknownType(s: State, key: string, known: string, added: string, x: string)
    requires known != added && s.types == [known]
    ensures AddText(s, key, added, x).types == [known, added]
    ensures Messages(AddText(s, key, added, x), key, added) == [x]
  {
    assert added !in s.types;
    var r := AddText(s, key, added, x);
    assert r.types == s.types + [added];
  }

  /** An empty category stays empty when another one is added to. */
  lemma AddOtherType(s: State, key: string, t: string, x: string, u: string)
    requires u != t && u in Stored(s, key).entries && Messages(s, key, u) == []
    ensures u in Stored(AddText(s, key, t, x), key).entries
    ensures Messages(AddText(s, key, t, x), key, u) == []
  {
    AddTextOther(s, key, t, x, u);
  }

  /**
   * Two types, both empty; add($second, $template, $arg). The second type's
   * list holds the formatted text, one message is stored, and yet count()
   * is 3: two category keys and one message.
   */
  lemma {:induction false} ScenarioFormatted(s: State, key: string, format: Formatter, first: string, second: string,
                                             template: string, arg: string, text: string)
    requires first != second && s.types == [first, second]
    requires Stored(s, key).order == [first, second]
    requires Messages(s, key, first) == [] && Messages(s, key, second) == []
    requires format(template, [arg]) == Some(text)
    ensures var r := AddSpec(s, key, format, second, Text(template), Scalar(arg));
            r.Some? &&
            PeekOne(Stored(r.value, key), second) == [Entry(text, second)] &&
            MessageTotal(Stored(r.value, key)) == 1 &&
            RecursiveCount(Stored(r.value, key)) == 3
  {
    var s' := AddText(s, key, second, text);
    FormattedScalar(s, key, format, second, template, arg, text);
    AddToEmptyKnown(s, key, second, text);
    AddTextOther(s, key, second, text, first);
    OneMessageOfTwoCategories(Stored(s', key), first, second, text);
  }

  /** A scalar argument is formatted as a one-element argument list. */
  lemma FormattedScalar(s: State, key: string, format: Formatter, t: string, template: string, arg: string, text: string)
    requires format(template, [arg]) == Some(text)
    ensures AddSpec(s, key, format, t, Text(template), Scalar(arg)) == Some(AddText(s, key, t, text))
  {
  }

  /** The first text added to an empty known category is its only message, and the category order stays. */
  lemma AddToEmptyKnown(s: State, key: string, t: string, text: string)
    requires t in s.types && t in Stored(s, key).entries && Messages(s, key, t) == []
    ensures Messages(AddText(s, key, t, text), key, t) == [text]
    ensures Stored(AddText(s, key, t, text), key).order == Stored(s, key).order
  {
    assert Insert([], text) == [text];
    AddTextOrder(s, key, t, text);
  }

  /** Two categories, one of them empty and the other with one message. */
  lemma OneMessageOfTwoCategories(c: Collection, first: string, second: string, text: string)
    requires c.order == [first, second] && Get(c, first) == [] && Get(c, second) == [text]
    ensures PeekOne(c, second) == [Entry(text, second)]
    ensures MessageTotal(c) == 1 && RecursiveCount(c) == 3
  {
    SumFromPair(c, first, second);
    RecursiveCountIsKeysPlusMessages(c);
  }

  lemma LeavesOfPair(a: string, b: string)
    ensures Leaves(Batch([Text(a), Text(b)])) == [a, b]
  {
    var m := Batch([Text(a), Text(b)]);
    assert m.items[0] == Text(a) && m.items[1] == Text(b);
    assert LeavesFrom(m, 2) == [];
    assert LeavesFrom(m, 1) == Leaves(Text(b)) + LeavesFrom(m, 2) == [b];
    assert LeavesFrom(m, 0) == Leaves(Text(a)) + LeavesFrom(m, 1) == [a, b];
  }

  /**
   * add($t, array($a, $b)) then add($t, $a) on an empty type of the list:
   * the repeated text is not stored twice, so count($t) is 2.
   */
  lemma {:induction false} ScenarioBatchThenDuplicate(s: State, key: string, t: string, a: string, b: string)
    requires t in s.types && Messages(s, key, t) == [] && a != b
    ensures var r := AddText(AddPlain(s, key, t, Batch([Text(a), Text(b)])), key, t, a);
            Messages(r, key, t) == [a, b] && r.types == s.types
  {
    var s1 := AddPlain(s, key, t, Batch([Text(a), Text(b)]));
    BatchOfPair(s, key, t, a, b);
    AddDuplicateUnchanged(s1, key, t, a);
  }

  lemma BatchOfPair(s: State, key: string, t: string, a: string, b: string)
    requires t in s.types && Messages(s, key, t) == [] && a != b
    ensures var r := AddPlain(s, key, t, Batch([Text(a), Text(b)]));
            Messages(r, key, t) == [a, b] && r.types == s.types
  {
    AddPlainSequential(s, key, t, Batch([Text(a), Text(b)]));
    LeavesOfPair(a, b);
    AddTextsKnown(s, key, t, [a, b]);
    PairWithoutRepeats(Messages(s, key, t), a, b);
  }

  lemma PairWithoutRepeats(e: seq<string>, a: string, b: string)
    requires e == [] && a != b
    ensures FirstOccurrences(e + [a, b]) == [a, b]
  {
    assert e + [a, b] == [a, b];
    FirstOccurrencesOfDistinct([a, b]);
  }

  /**
   * A listed type need not have an entry: an object built with the list
   * [first, second] over a store that already holds `first` but not
   * `second` skips clear(), so `second` stays absent from the collection.
   */
  lemma ListedTypeWithoutEntry(userdata: map<string, Collection>, key: string, first: string, second: string)
    requires key in userdata && first in userdata[key].entries && second !in userdata[key].entries
    ensures Init(userdata, key, [first, second]).types == [first, second]
    ensures second !in Stored(Init(userdata, key, [first, second]), key).entries
  {
    assert !IsEmpty(Stored(State(userdata, [first, second]), key)) by {
      assert first in userdata[key].order;
    }
    InitEffect(userdata, key, [first, second]);
  }
}
