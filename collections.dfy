/**
 * The message collection that Announce keeps in the session: a PHP array
 * from category name to the array of that category's messages. PHP arrays
 * are ordered maps, so a collection keeps the order in which its categories
 * were first assigned beside the map itself.
 */
module Collections {
  import opened Sequences

  /**
   * The messages of one category. In PHP they are the keys of an array
   * (message text => category name), so no text occurs twice and the order
   * is the order of first insertion.
   */
  type Entries = s: seq<string> | Distinct(s)

  datatype Table = Table(order: seq<string>, entries: map<string, Entries>)

  /** The category order lists each key of the map exactly once. */
  predicate WellFormed(t: Table) {
    Distinct(t.order) &&
    (forall k :: k in t.order ==> k in t.entries) &&
    (forall k :: k in t.entries ==> k in t.order)
  }

  type Collection = t: Table | WellFormed(t) witness Table([], map[])

  /** The empty PHP array. */
  const EMPTY: Collection := Table([], map[])

  /** PHP empty() on the collection: no category at all, empty or not. */
  predicate IsEmpty(c: Collection) {
    c.order == []
  }

  /** `isset($c[$category]) ? $c[$category] : array()`. */
  function Get(c: Collection, category: string): Entries {
    if category in c.entries then c.entries[category] else []
  }

  /**
   * `$c[$category] = $e`: a new key goes at the end of the array, an
   * existing key keeps its position and gets the new value.
   */
  function Put(c: Collection, category: string, e: Entries): (r: Collection)
    ensures Get(r, category) == e && category in r.entries
    ensures r.entries - {category} == c.entries - {category}
    ensures r.order == if category in c.entries then c.order else c.order + [category]
  {
    var order := if category in c.entries then c.order else c.order + [category];
    assert Distinct(order) by {
      if category !in c.entries {
        forall i, j | 0 <= i < j < |order| ensures order[i] != order[j] {
          if j == |c.order| {
            assert order[i] == c.order[i];
          }
        }
      }
    }
    Table(order, c.entries[category := e])
  }

  /**
   * `$e[$message] = $category`: the message keeps its position if already
   * present and is appended otherwise, so the entries are the messages in
   * first-insertion order.
   */
  function Insert(e: Entries, message: string): (r: Entries)
    ensures r == FirstOccurrences(e + [message])
  {
    FirstOccurrencesSnoc(e, message);
    FirstOccurrencesOfDistinct(e);
    if message in e then e
    else
      FirstOccurrencesDistinct(e + [message]);
      e + [message]
  }

  /**
   * PHP count($c, COUNT_RECURSIVE): every element of the array counts one,
   * and an element that is itself an array adds the count of its elements.
   */
  function RecursiveCount(c: Collection): nat {
    CountFrom(c, c.order)
  }

  function CountFrom(c: Collection, keys: seq<string>): nat {
    if keys == [] then 0 else 1 + |Get(c, keys[0])| + CountFrom(c, keys[1..])
  }

  /** The number of messages in the listed categories. */
  function SumFrom(c: Collection, keys: seq<string>): nat {
    if keys == [] then 0 else |Get(c, keys[0])| + SumFrom(c, keys[1..])
  }

  /** The number of messages stored under all categories of the collection. */
  function MessageTotal(c: Collection): nat {
    SumFrom(c, c.order)
  }

  lemma SumFromPair(c: Collection, a: string, b: string)
    requires c.order == [a, b]
    ensures MessageTotal(c) == |Get(c, a)| + |Get(c, b)|
  {
    assert [a, b][1..] == [b] && [b][1..] == [];
    assert SumFrom(c, [b]) == |Get(c, b)| + SumFrom(c, []);
    assert SumFrom(c, [a, b]) == |Get(c, a)| + SumFrom(c, [b]);
  }

  /** The recursive count of a collection counts its categories as well as its messages. */
  lemma {:induction false} CountFromIsKeysPlusMessages(c: Collection, keys: seq<string>)
    ensures CountFrom(c, keys) == |keys| + SumFrom(c, keys)
  {
    if keys != [] {
      CountFromIsKeysPlusMessages(c, keys[1..]);
    }
  }

  lemma RecursiveCountIsKeysPlusMessages(c: Collection)
    ensures RecursiveCount(c) == |c.order| + MessageTotal(c)
  {
    CountFromIsKeysPlusMessages(c, c.order);
  }

  /** No message is stored under the listed categories exactly when each of them is empty. */
  lemma {:induction false} SumFromZero(c: Collection, keys: seq<string>)
    ensures SumFrom(c, keys) == 0 <==> forall k :: k in keys ==> Get(c, k) == []
  {
    if keys != [] {
      SumFromZero(c, keys[1..]);
      assert keys == [keys[0]] + keys[1..];
    }
  }
}
