/**
 * The Announce class: a registry of messages for the user, kept per session.
 * The object keeps its list of message types (categories); the messages
 * themselves live in the session handler it is given, as one collection
 * under one session key. The type list is not written to the session.
 */
module Announcement {
  import opened Wrappers
  import opened Collections
  import opened Listings
  import opened Sessions
  import opened AnnounceSpec

  class Announce {
    /** The session handler, shared by reference with the caller. */
    const session: Session
    /** The session key the collection is stored under. */
    const key: string
    /** sprintf/vsprintf as the runtime provides them. */
    const format: Formatter
    /** The known message types, in the order they were declared or first used. */
    var types: seq<string>

    /** The object and its session as a value. */
    function Current(): State
      reads this, session
    {
      State(session.userdata, types)
    }

    /** _session_get(). */
    function SessionGet(): (c: Collection)
      reads this, session
      ensures c == Stored(Current(), key)
    {
      session.Userdata(key)
    }

    /** _session_set($c). */
    method SessionSet(c: Collection)
      modifies session
      ensures session.userdata == old(session.userdata)[key := c]
    {
      session.SetUserdata(key, c);
    }

    /**
     * new Announce(array($session, $message_types, $session_id)): the type
     * list defaults to array('message') and the key to 'user_message_store';
     * when nothing is stored under the key yet, clear() creates an empty
     * entry for every type.
     */
    constructor (handler: Session, messageTypes: Option<seq<string>>, sessionId: Option<string>, format: Formatter)
      modifies handler
      ensures session == handler && this.format == format
      ensures types == messageTypes.GetOr(DEFAULT_TYPES)
      ensures key == sessionId.GetOr(DEFAULT_KEY)
      ensures Current() == Init(old(handler.userdata), key, types)
    {
      session := handler;
      types := messageTypes.GetOr(["message"]);
      key := sessionId.GetOr("user_message_store");
      this.format := format;
      new;
      var messages := SessionGet();
      if IsEmpty(messages) {
        Clear(None);
      }
    }

    /**
     * add($message_type, $message, $data). Returns false when formatting
     * raised an error, in which case nothing changed.
     */
    method Add(t: string, m: Message, data: Data) returns (ok: bool)
      modifies this, session
      ensures AddSpec(old(Current()), key, format, t, m, data) == if ok then Some(Current()) else None
      ensures !ok ==> Current() == old(Current())
      decreases m
    {
      match m
      case Batch(items) =>
        var i := 0;
        while i < |items|
          invariant 0 <= i <= |items|
          invariant AddItems(Current(), key, t, m, i) == AddItems(old(Current()), key, t, m, 0)
        {
          ghost var before := Current();
          var _ := Add(t, items[i], NoData);
          AddWithoutData(before, key, format, t, items[i]);
          assert AddItems(before, key, t, m, i) == AddItems(Current(), key, t, m, i + 1);
          i := i + 1;
        }
        ok := true;
      case Text(template) =>
        var text := template;
        if HasData(data) {
          var formatted := if data.Values? then format(template, data.values) else format(template, [data.value]);
          if formatted.None? {
            return false;
          }
          text := formatted.value;
        }
        Store(t, text);
        ok := true;
    }

    /** The read-modify-write at the end of add() for one formatted text. */
    method Store(t: string, text: string)
      modifies this, session
      ensures Current() == AddText(old(Current()), key, t, text)
    {
      var messages := SessionGet();
      if t !in types {
        types := types + [t];
        messages := Put(messages, t, []);
      }
      messages := Put(messages, t, Insert(Collections.Get(messages, t), text));
      SessionSet(messages);
    }

    /** clear($message_type), or clear() for every type of the type list. */
    method Clear(t: Option<string>)
      modifies session
      ensures Current() == ClearSpec(old(Current()), key, t)
      decreases if t.None? then 1 else 0
    {
      match t
      case None =>
        for i := 0 to |types|
          invariant Current() == ClearEach(old(Current()), key, types[..i])
        {
          Clear(Some(types[i]));
          assert types[..i + 1][..i] == types[..i];
        }
        assert types[..|types|] == types;
      case Some(u) =>
        var messages := SessionGet();
        messages := Put(messages, u, []);
        SessionSet(messages);
    }

    /**
     * count($message_type): the size of peek($message_type); with no type,
     * PHP's recursive count of the stored collection, which counts every
     * category key as well as every message.
     */
    function Count(t: Option<string>): (n: nat)
      reads this, session
      ensures t.Some? ==> n == |Collections.Get(SessionGet(), t.value)| == |PeekSpec(SessionGet(), types, t)|
      ensures t.None? ==> n == |SessionGet().order| + MessageTotal(SessionGet())
    {
      match t
      case None =>
        RecursiveCountIsKeysPlusMessages(SessionGet());
        RecursiveCount(SessionGet())
      case Some(u) => |PeekOne(SessionGet(), u)|
    }

    /**
     * The count the documentation of count() describes: the number of
     * messages of one type, or of all types, category keys not included. It
     * is zero exactly when none of the counted categories holds a message.
     */
    function MessageCount(t: Option<string>): (n: nat)
      reads this, session
      ensures t.Some? ==> n == Count(t)
      ensures t.None? ==> n == MessageTotal(SessionGet()) && Count(t) == |SessionGet().order| + n
      ensures t.None? ==> (n == 0 <==> forall k :: k in SessionGet().entries ==> SessionGet().entries[k] == [])
    {
      var c := SessionGet();
      match t
      case None =>
        SumFromZero(c, c.order);
        MessageTotal(c)
      case Some(u) => |Collections.Get(c, u)|
    }

    /** peek($message_type), or peek() over the type list; changes nothing. */
    method Peek(t: Option<string>) returns (r: seq<Entry>)
      ensures r == PeekSpec(SessionGet(), types, t)
      decreases if t.None? then 1 else 0
    {
      r := [];
      match t
      case None =>
        for i := 0 to |types|
          invariant r == PeekAll(SessionGet(), types[..i])
        {
          var part := Peek(Some(types[i]));
          assert types[..i + 1][..i] == types[..i];
          r := Merge(r, part);
        }
        assert types[..|types|] == types;
      case Some(u) =>
        var messages := SessionGet();
        if u in messages.entries {
          r := Labelled(messages.entries[u], u);
        }
    }

    /** get($message_type): peek, then clear, the same type or all of them. */
    method Get(t: Option<string>) returns (r: seq<Entry>)
      modifies session
      ensures r == old(PeekSpec(SessionGet(), types, t))
      ensures Current() == ClearSpec(old(Current()), key, t)
      ensures PeekSpec(SessionGet(), types, t) == []
      ensures t.Some? ==> Count(t) == 0 && !HasMessages(t)
      ensures t.None? && (forall k :: k in old(SessionGet()).entries ==> k in types) ==> MessageCount(t) == 0
    {
      r := Peek(t);
      Clear(t);
      match t
      case Some(u) => ClearOneThenPeek(old(Current()), key, u);
      case None =>
        ClearAllThenPeek(old(Current()), key);
        if forall k :: k in old(SessionGet()).entries ==> k in types {
          ClearAllLeavesNoMessages(old(Current()), key);
        }
    }

    /**
     * has_messages($message_type): count($message_type) > 0. With no type
     * this holds as soon as any category is stored, empty or not.
     */
    function HasMessages(t: Option<string>): (b: bool)
      reads this, session
      ensures t.Some? ==> (b <==> Collections.Get(SessionGet(), t.value) != [])
      ensures t.None? ==> (b <==> SessionGet().order != [])
    {
      Count(t) > 0
    }

    /**
     * __call($name, $arguments): any other method name adds a message of
     * that type, the second argument, when given, being the data.
     */
    method Call(name: string, message: Message, data: Option<Data>) returns (ok: bool)
      modifies this, session
      ensures AddSpec(old(Current()), key, format, name, message, data.GetOr(NoData)) == if ok then Some(Current()) else None
      ensures !ok ==> Current() == old(Current())
    {
      ok := Add(name, message, data.GetOr(NoData));
    }
  }
}
