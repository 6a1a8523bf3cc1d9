/**
 * The behaviour of Announce on values: the state of one Announce object
 * together with its session, and what each operation makes of it. The class
 * in announce.dfy is proved to follow these functions; the lemmas here state
 * what the operations promise.
 */
module AnnounceSpec {
  import opened Wrappers
  import opened Sequences
  import opened Collections
  import opened Listings

  /** The type list used when the constructor is given none. */
  const DEFAULT_TYPES: seq<string> := ["message"]

  /** The session key used when the constructor is given none. */
  const DEFAULT_KEY: string := "user_message_store"

  /** The $message argument of add(): one template string, or an array of message arguments. */
  datatype Message = Text(template: string) | Batch(items: seq<Message>)

  /** The $data argument of add(): absent, one value, or an array of values. */
  datatype Data = NoData | Scalar(value: string) | Values(values: seq<string>)

  /**
   * vsprintf($template, $args), supplied from outside: None stands for the
   * error PHP raises when the arguments do not fit the template.
   */
  type Formatter = (string, seq<string>) -> Option<string>

  /** The session's userdata and the object's own type list. */
  datatype State = State(userdata: map<string, Collection>, types: seq<string>)

  /** _session_get(): the collection stored under `key`. */
  function Stored(s: State, key: string): Collection {
    if key in s.userdata then s.userdata[key] else EMPTY
  }

  /** The messages stored for `category`. */
  function Messages(s: State, key: string, category: string): Entries {
    Get(Stored(s, key), category)
  }

  /** _session_set($c). */
  function Write(s: State, key: string, c: Collection): (r: State)
    ensures Stored(r, key) == c && key in r.userdata
    ensures r.userdata - {key} == s.userdata - {key}
    ensures r.types == s.types
  {
    State(s.userdata[key := c], s.types)
  }

  /** !empty($data): NULL and the empty array are no data. */
  predicate HasData(data: Data) {
    !(data.NoData? || data == Values([]))
  }

  /** The text add() stores for one template: vsprintf for an array, sprintf for one value. */
  function Render(format: Formatter, template: string, data: Data): Option<string> {
    if !HasData(data) then Some(template)
    else if data.Values? then format(template, data.values)
    else format(template, [data.value])
  }

  /** add($t, $text) for one text that is already formatted. */
  function AddText(s: State, key: string, t: string, text: string): (r: State)
    ensures r.types == if t in s.types then s.types else s.types + [t]
    ensures Messages(r, key, t) == if t in s.types then Insert(Messages(s, key, t), text) else [text]
    ensures t in Stored(r, key).entries && key in r.userdata
  {
    var messages := Stored(s, key);
    if t !in s.types then
      var messages' := Put(messages, t, []);
      assert FirstOccurrences([] + [text]) == [text];
      Write(State(s.userdata, s.types + [t]), key, Put(messages', t, Insert(Get(messages', t), text)))
    else
      Write(s, key, Put(messages, t, Insert(Get(messages, t), text)))
  }

  /** add($t, $message) without data: a text is stored verbatim, an array is added item by item. */
  function AddPlain(s: State, key: string, t: string, m: Message): State
    decreases m, if m.Batch? then |m.items| + 1 else 0
  {
    match m
    case Text(template) => AddText(s, key, t, template)
    case Batch(items) => AddItems(s, key, t, m, 0)
  }

  /** The foreach loop of add() over an array, from item `i` on. */
  function AddItems(s: State, key: string, t: string, m: Message, i: nat): State
    requires m.Batch? && i <= |m.items|
    decreases m, |m.items| - i
  {
    if i == |m.items| then s
    else AddItems(AddPlain(s, key, t, m.items[i]), key, t, m, i + 1)
  }

  /** add($t, $message, $data). None: the formatter raised an error and nothing changed. */
  function AddSpec(s: State, key: string, format: Formatter, t: string, m: Message, data: Data): Option<State> {
    match m
    case Batch(_) => Some(AddPlain(s, key, t, m))
    case Text(template) =>
      match Render(format, template, data)
      case None => None
      case Some(text) => Some(AddText(s, key, t, text))
  }

  /** clear($t) for one category. */
  function ClearOne(s: State, key: string, t: string): (r: State)
    ensures Messages(r, key, t) == [] && t in Stored(r, key).entries
    ensures Stored(r, key).entries - {t} == Stored(s, key).entries - {t}
    ensures r.types == s.types
    ensures key in r.userdata && r.userdata - {key} == s.userdata - {key}
  {
    Write(s, key, Put(Stored(s, key), t, []))
  }

  /** The foreach loop of clear() with no category: clear($t) for each `t` of `ts` in turn. */
  function ClearEach(s: State, key: string, ts: seq<string>): State {
    if ts == [] then s
    else ClearOne(ClearEach(s, key, ts[..|ts| - 1]), key, ts[|ts| - 1])
  }

  /** clear($t), or clear() over the object's type list. */
  function ClearSpec(s: State, key: string, t: Option<string>): State {
    match t
    case Some(u) => ClearOne(s, key, u)
    case None => ClearEach(s, key, s.types)
  }

  /** peek($t), or peek() over the type list `types`. */
  function PeekSpec(c: Collection, types: seq<string>, t: Option<string>): seq<Entry> {
    match t
    case Some(u) => PeekOne(c, u)
    case None => PeekAll(c, types)
  }

  /** The state the constructor leaves: clear() runs only when nothing is stored under `key`. */
  function Init(userdata: map<string, Collection>, key: string, types: seq<string>): State {
    var s := State(userdata, types);
    if IsEmpty(Stored(s, key)) then ClearEach(s, key, types) else s
  }

  // ---------------------------------------------------------------------
  // add()

  /** add($t, $text) changes no other category and no other session key. */
  lemma AddTextFrame(s: State, key: string, t: string, text: string)
    ensures Stored(AddText(s, key, t, text), key).entries - {t} == Stored(s, key).entries - {t}
    ensures AddText(s, key, t, text).userdata - {key} == s.userdata - {key}
  {
  }

  /** add($t, $text) leaves every other category as it was, present or absent. */
  lemma AddTextOther(s: State, key: string, t: string, text: string, u: string)
    requires u != t
    ensures u in Stored(AddText(s, key, t, text), key).entries <==> u in Stored(s, key).entries
    ensures Messages(AddText(s, key, t, text), key, u) == Messages(s, key, u)
  {
    var c, c' := Stored(s, key), Stored(AddText(s, key, t, text), key);
    AddTextFrame(s, key, t, text);
    assert u in c'.entries - {t} <==> u in c.entries - {t};
    if u in c.entries {
      assert (c'.entries - {t})[u] == c'.entries[u];
      assert (c.entries - {t})[u] == c.entries[u];
    }
  }

  /** add($t, $text) appends `t` to the category order when it is not stored yet, and keeps the order otherwise. */
  lemma AddTextOrder(s: State, key: string, t: string, text: string)
    ensures Stored(AddText(s, key, t, text), key).order ==
      if t in Stored(s, key).entries then Stored(s, key).order else Stored(s, key).order + [t]
  {
  }

  /** Without data add() cannot fail, and it does what AddPlain says. */
  lemma AddWithoutData(s: State, key: string, format: Formatter, t: string, m: Message)
    ensures AddSpec(s, key, format, t, m, NoData) == Some(AddPlain(s, key, t, m))
  {
  }

  /** Adding a text already stored in a known category changes nothing in the collection. */
  lemma AddDuplicateUnchanged(s: State, key: string, t: string, text: string)
    requires t in s.types && text in Messages(s, key, t)
    ensures AddText(s, key, t, text).types == s.types
    ensures Messages(AddText(s, key, t, text), key, t) == Messages(s, key, t)
  {
    FirstOccurrencesSnoc(Messages(s, key, t), text);
    FirstOccurrencesOfDistinct(Messages(s, key, t));
  }

  /** The texts of a message argument, in the order the foreach loops of add() reach them. */
  function Leaves(m: Message): seq<string>
    decreases m, if m.Batch? then |m.items| + 1 else 0
  {
    match m
    case Text(template) => [template]
    case Batch(items) => LeavesFrom(m, 0)
  }

  function LeavesFrom(m: Message, i: nat): seq<string>
    requires m.Batch? && i <= |m.items|
    decreases m, |m.items| - i
  {
    if i == |m.items| then [] else Leaves(m.items[i]) + LeavesFrom(m, i + 1)
  }

  /** add($t, $text) for each text of `texts`, one call after another. */
  function AddTexts(s: State, key: string, t: string, texts: seq<string>): State
    decreases texts
  {
    if texts == [] then s else AddTexts(AddText(s, key, t, texts[0]), key, t, texts[1..])
  }

  lemma {:induction false} AddTextsAppend(s: State, key: string, t: string, a: seq<string>, b: seq<string>)
    ensures AddTexts(s, key, t, a + b) == AddTexts(AddTexts(s, key, t, a), key, t, b)
    decreases a
  {
    if a == [] {
      assert a + b == b;
    } else {
      assert (a + b)[0] == a[0] && (a + b)[1..] == a[1..] + b;
      AddTextsAppend(AddText(s, key, t, a[0]), key, t, a[1..], b);
    }
  }

  /** Adding an array of messages is adding its texts one after another. */
  lemma {:induction false} AddPlainSequential(s: State, key: string, t: string, m: Message)
    ensures AddPlain(s, key, t, m) == AddTexts(s, key, t, Leaves(m))
    decreases m, if m.Batch? then |m.items| + 1 else 0
  {
    match m
    case Text(template) =>
      AddTextsSingle(s, key, t, template);
    case Batch(items) =>
      AddItemsSequential(s, key, t, m, 0);
  }

  lemma AddTextsSingle(s: State, key: string, t: string, text: string)
    ensures AddTexts(s, key, t, [text]) == AddText(s, key, t, text)
  {
    assert [text][1..] == [];
  }

  lemma {:induction false} AddItemsSequential(s: State, key: string, t: string, m: Message, i: nat)
    requires m.Batch? && i <= |m.items|
    ensures AddItems(s, key, t, m, i) == AddTexts(s, key, t, LeavesFrom(m, i))
    decreases m, |m.items| - i
  {
    if i < |m.items| {
      var s' := AddPlain(s, key, t, m.items[i]);
      AddItemsSequential(s', key, t, m, i + 1);
      AddPlainSequential(s, key, t, m.items[i]);
      AddTextsAppend(s, key, t, Leaves(m.items[i]), LeavesFrom(m, i + 1));
    }
  }

  /**
   * Adding texts to a category of the type list: the type list stays as it
   * is and the category's messages are the old ones followed by the new
   * texts, each text once at its first position.
   */
  lemma {:induction false} AddTextsKnown(s: State, key: string, t: string, texts: seq<string>)
    requires t in s.types
    ensures AddTexts(s, key, t, texts).types == s.types
    ensures Messages(AddTexts(s, key, t, texts), key, t) == FirstOccurrences(Messages(s, key, t) + texts)
    decreases texts
  {
    var m := Messages(s, key, t);
    if texts == [] {
      assert m + texts == m;
      FirstOccurrencesOfDistinct(m);
    } else {
      var s', rest := AddText(s, key, t, texts[0]), texts[1..];
      AddTextsKnown(s', key, t, rest);
      assert Messages(s', key, t) == FirstOccurrences(m + [texts[0]]);
      FirstOccurrencesAbsorb(m + [texts[0]], rest);
      SnocThenAppend(m, texts);
    }
  }

  /** Adding texts to category `t` changes no other category and no other session key. */
  lemma {:induction false} AddTextsFrame(s: State, key: string, t: string, texts: seq<string>)
    ensures Stored(AddTexts(s, key, t, texts), key).entries - {t} == Stored(s, key).entries - {t}
    ensures AddTexts(s, key, t, texts).userdata - {key} == s.userdata - {key}
    decreases texts
  {
    if texts != [] {
      AddTextFrame(s, key, t, texts[0]);
      AddTextsFrame(AddText(s, key, t, texts[0]), key, t, texts[1..]);
    }
  }

  /**
   * Adding texts to a category outside the type list appends it to the list,
   * and whatever was stored for it before is dropped: it holds the new texts
   * alone.
   */
  lemma AddTextsNew(s: State, key: string, t: string, texts: seq<string>)
    requires t !in s.types && texts != []
    ensures AddTexts(s, key, t, texts).types == s.types + [t]
    ensures Messages(AddTexts(s, key, t, texts), key, t) == FirstOccurrences(texts)
  {
    var s', rest := AddText(s, key, t, texts[0]), texts[1..];
    assert AddTexts(s, key, t, texts) == AddTexts(s', key, t, rest);
    assert t in s'.types && Messages(s', key, t) == [texts[0]];
    AddTextsKnown(s', key, t, rest);
    ConsTail(texts);
  }

  /**
   * A single message is stored verbatim when there is no data (NULL or the
   * empty array); otherwise the formatter's output is stored, a scalar
   * being passed as the one argument (sprintf($f, $v) is vsprintf($f, [$v])),
   * and add() fails, changing nothing, exactly when the formatter does.
   */
  lemma AddSingle(s: State, key: string, format: Formatter, t: string, template: string, data: Data)
    ensures !HasData(data) ==> AddSpec(s, key, format, t, Text(template), data) == Some(AddText(s, key, t, template))
    ensures data.Scalar? ==>
      AddSpec(s, key, format, t, Text(template), data) == AddSpec(s, key, format, t, Text(template), Values([data.value]))
    ensures HasData(data) && data.Values? ==>
      AddSpec(s, key, format, t, Text(template), data) ==
        if format(template, data.values).None? then None
        else Some(AddText(s, key, t, format(template, data.values).value))
  {
  }

  /** An array of messages ignores the data and adds its texts one after another. */
  lemma AddBatch(s: State, key: string, format: Formatter, t: string, items: seq<Message>, data: Data)
    ensures AddSpec(s, key, format, t, Batch(items), data) == Some(AddTexts(s, key, t, Leaves(Batch(items))))
  {
    AddPlainSequential(s, key, t, Batch(items));
  }

  // ---------------------------------------------------------------------
  // clear() and the constructor

  /** clear() over `ts` empties each listed category, creating its entry if needed. */
  lemma {:induction false} ClearEachEmpties(s: State, key: string, ts: seq<string>)
    ensures forall u :: u in ts ==> Messages(ClearEach(s, key, ts), key, u) == [] && u in Stored(ClearEach(s, key, ts), key).entries
    ensures ClearEach(s, key, ts).types == s.types
  {
    if ts != [] {
      var init, last := ts[..|ts| - 1], ts[|ts| - 1];
      ClearEachEmpties(s, key, init);
      forall u | u in ts
        ensures Messages(ClearEach(s, key, ts), key, u) == [] && u in Stored(ClearEach(s, key, ts), key).entries
      {
        assert u != last ==> u in init;
      }
    }
  }

  /** clear() over `ts` leaves the unlisted categories and the rest of the session alone. */
  lemma {:induction false} ClearEachFrame(s: State, key: string, ts: seq<string>)
    ensures forall u :: u !in ts ==>
      (u in Stored(ClearEach(s, key, ts), key).entries <==> u in Stored(s, key).entries) &&
      Messages(ClearEach(s, key, ts), key, u) == Messages(s, key, u)
    ensures ClearEach(s, key, ts).userdata - {key} == s.userdata - {key}
  {
    if ts != [] {
      var init, last := ts[..|ts| - 1], ts[|ts| - 1];
      ClearEachFrame(s, key, init);
      var r0, r1 := ClearEach(s, key, init), ClearEach(s, key, ts);
      forall u | u !in ts
        ensures (u in Stored(r1, key).entries <==> u in Stored(s, key).entries) && Messages(r1, key, u) == Messages(s, key, u)
      {
        assert u != last && u !in init;
        assert u in Stored(r1, key).entries - {last} <==> u in Stored(r0, key).entries - {last};
      }
    }
  }

  /** Starting from an empty collection, clear() over `ts` stores the categories of `ts` in list order, each once. */
  lemma {:induction false} ClearEachOrder(s: State, key: string, ts: seq<string>)
    requires IsEmpty(Stored(s, key))
    ensures Stored(ClearEach(s, key, ts), key).order == FirstOccurrences(ts)
  {
    if ts != [] {
      var init, last := ts[..|ts| - 1], ts[|ts| - 1];
      ClearEachOrder(s, key, init);
      ClearEachEmpties(s, key, init);
      ClearEachFrame(s, key, init);
      assert Stored(s, key).entries == map[];
      assert last in Stored(ClearEach(s, key, init), key).entries <==> last in init;
    }
  }

  /**
   * On an empty session the constructor leaves one empty entry per category
   * of its type list and nothing else; otherwise it changes nothing.
   */
  lemma InitEffect(userdata: map<string, Collection>, key: string, types: seq<string>)
    ensures Init(userdata, key, types).types == types
    ensures IsEmpty(Stored(State(userdata, types), key)) ==>
      Stored(Init(userdata, key, types), key).order == FirstOccurrences(types) &&
      Stored(Init(userdata, key, types), key).entries.Keys == (set u | u in types) &&
      forall u :: u in types ==> Messages(Init(userdata, key, types), key, u) == []
    ensures !IsEmpty(Stored(State(userdata, types), key)) ==> Init(userdata, key, types) == State(userdata, types)
  {
    var s := State(userdata, types);
    if IsEmpty(Stored(s, key)) {
      ClearEachEmpties(s, key, types);
      ClearEachFrame(s, key, types);
      ClearEachOrder(s, key, types);
      assert Stored(s, key).entries == map[];
    }
  }

  // ---------------------------------------------------------------------
  // peek(), get()

  /** After clear($u), peek($u) returns nothing. */
  lemma ClearOneThenPeek(s: State, key: string, u: string)
    ensures PeekSpec(Stored(ClearSpec(s, key, Some(u)), key), s.types, Some(u)) == []
  {
  }

  /** After clear(), peek() returns nothing. */
  lemma ClearAllThenPeek(s: State, key: string)
    ensures PeekSpec(Stored(ClearSpec(s, key, None), key), s.types, None) == []
  {
    ClearEachEmpties(s, key, s.types);
    PeekAllOfEmpty(Stored(ClearEach(s, key, s.types), key), s.types);
  }

  // ---------------------------------------------------------------------
  // count(): what it counts, and what its documentation says it counts

  /**
   * On a fresh session nothing has been added, yet count() is the number of
   * distinct types: the recursive count includes every category key.
   */
  lemma InitialCountIsTypeCount(key: string, types: seq<string>)
    ensures MessageTotal(Stored(Init(map[], key, types), key)) == 0
    ensures RecursiveCount(Stored(Init(map[], key, types), key)) == |FirstOccurrences(types)|
  {
    var c := Stored(Init(map[], key, types), key);
    InitEffect(map[], key, types);
    FirstOccurrencesMembers(types);
    SumFromZero(c, c.order);
    RecursiveCountIsKeysPlusMessages(c);
  }

  /** With the default type list, count() on a fresh session is 1 although no message was added. */
  lemma DefaultStoreCountsItsCategory(key: string)
    ensures MessageTotal(Stored(Init(map[], key, DEFAULT_TYPES), key)) == 0
    ensures RecursiveCount(Stored(Init(map[], key, DEFAULT_TYPES), key)) == 1
  {
    InitialCountIsTypeCount(key, DEFAULT_TYPES);
    FirstOccurrencesOfDistinct(DEFAULT_TYPES);
  }

  /**
   * Counting messages only, as the documentation of count() describes it:
   * once clear() has run, no message is left under any category of the type
   * list, and none at all when every stored category is in it.
   */
  lemma ClearAllLeavesNoMessages(s: State, key: string)
    requires forall k :: k in Stored(s, key).entries ==> k in s.types
    ensures MessageTotal(Stored(ClearSpec(s, key, None), key)) == 0
    ensures forall u :: u in s.types ==> |Messages(ClearSpec(s, key, None), key, u)| == 0
  {
    var r := ClearEach(s, key, s.types);
    ClearEachEmpties(s, key, s.types);
    ClearEachFrame(s, key, s.types);
    var c := Stored(r, key);
    SumFromZero(c, c.order);
  }

  /**
   * What count() and has_messages() report once clear() has run: no message
   * is left, yet count() is the number of stored categories, and
   * has_messages() stays true whenever the type list is not empty.
   */
  lemma CountAfterClearAll(s: State, key: string)
    requires forall k :: k in Stored(s, key).entries ==> k in s.types
    ensures RecursiveCount(Stored(ClearSpec(s, key, None), key)) == |Stored(ClearSpec(s, key, None), key).order|
    ensures s.types != [] ==> Stored(ClearSpec(s, key, None), key).order != []
  {
    var c := Stored(ClearSpec(s, key, None), key);
    ClearAllLeavesNoMessages(s, key);
    RecursiveCountIsKeysPlusMessages(c);
    ClearEachEmpties(s, key, s.types);
    if s.types != [] {
      assert s.types[0] in c.entries;
    }
  }
}
