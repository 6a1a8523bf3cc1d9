# Announce: a per-session message registry, in Dafny

`Announce` is a small CodeIgniter library (`libraries/Announce.php`) that
collects user-facing messages during a request ("success", "error", …); a
later request shows and discards them. The object knows an ordered list of
message types (categories). The messages live in the session handler it is
given, as one PHP array under one session key. That array maps each
category name to an array whose keys are the message texts and whose
values are the category name.

This project models that class and proves what its operations do:

- `wrappers.dfy`: `Option`.
- `sequences.dfy`: distinct sequences and `FirstOccurrences`. That function
  is the reference definition for "each element once, at its first
  position", which is how PHP array keys behave.
- `collections.dfy`: the stored collection. It is an ordered PHP array kept
  as `Table(order, entries)`, with the order listing each key exactly once.
  It also holds assignment (`Put`), the message insertion (`Insert`) and
  PHP's `count(…, COUNT_RECURSIVE)`.
- `listings.dfy`: what `peek()` and `get()` return, as a sequence of
  `(text, category)` entries. It holds `array_merge` on string keys and
  `peek()` over the type list.
- `session.dfy`: the session handler as a class whose `userdata` map is
  updated in place.
- `announce_spec.dfy`: every operation as a function on a `State` (the
  session's userdata plus the object's type list), with the lemmas that
  state what the operations promise.
- `announce.dfy`: the class `Announce`. Its fields are the shared session
  handler, the session key, the formatter and the mutable type list. Each
  method is proved to take the old state to the new one exactly as the
  functions in `announce_spec.dfy` say.
- `scenarios.dfy`: worked sequences of calls, including where the
  behaviour departs from the documentation comments.

Arguments that PHP lets callers omit are `Option`s. `None` for the type of
`clear`, `count`, `get`, `peek` and `has_messages` means "all types".
`sprintf`/`vsprintf` are a `Formatter` parameter that returns `None` when
it raises an error. This matters on PHP 8, where a template whose arguments
do not fit throws. In that case `Add` returns `false` and nothing changes.

The code differs from a reading of its documentation in three places, and
the model follows the code:

- **The type list is not stored in the session.** A type added in one
  request is forgotten by the next request's object. That object's `peek()`
  does not show the type's messages, and its next `add()` to that type
  replaces them (`Scenarios.TypeListNotPersisted`).
- **Stored categories and the type list can disagree, in both directions.**
  A listed type need not have an entry: an object built with
  `array('message', 'error')` over a store that already holds `message`
  skips `clear()`, so `error` is listed but absent
  (`Scenarios.ListedTypeWithoutEntry`, from `AnnounceSpec.InitEffect`). A
  stored category need not be listed: categories written by an earlier
  object are unknown to the next one. Adding under a type missing from the
  list resets whatever was stored for it (`AnnounceSpec.AddTextsNew`).
- **`count()` with no type counts category keys as well as messages** (see
  Findings).

## Model

| member | source | states |
|---|---|---|
| Announcement.Announce.constructor | libraries/Announce.php:27-43 | The type list defaults to `["message"]` and the key to `"user_message_store"`. The state is `Init`: `clear()` runs only when nothing is stored under the key. |
| Announcement.Announce.SessionGet | libraries/Announce.php:226-229 | Returns what is stored under the object's key. |
| Announcement.Announce.SessionSet | libraries/Announce.php:221-224 | Replaces only the object's key in the session. |
| Announcement.Announce.Add | libraries/Announce.php:63-97 | The new state is what `AddSpec` gives for the old one. It returns false exactly when formatting failed, and then nothing changed. |
| Announcement.Announce.Store | libraries/Announce.php:87-95 | The read-modify-write of one formatted text takes the state to `AddText` of the old one. |
| Announcement.Announce.Clear | libraries/Announce.php:107-123 | Without a type, clears each listed type in turn. With one, empties that type. The post-state is `ClearSpec` of the pre-state. |
| Announcement.Announce.Count | libraries/Announce.php:132-144 | With a type: the size of that category, equal to the size of `peek($type)`. Without one: the number of category keys plus the number of messages. |
| Announcement.Announce.MessageCount | libraries/Announce.php:125-131 | Counts messages only, as the documentation of `count()` says. Without a type it is zero exactly when every stored category is empty; with a type it equals `Count`. |
| Announcement.Announce.Peek | libraries/Announce.php:169-190 | Returns `PeekSpec` of the stored collection and changes nothing. |
| Announcement.Announce.Get | libraries/Announce.php:156-161 | Returns what `peek` returned before, and the state becomes `ClearSpec`. Afterwards `peek` of the same argument is empty, `count($type)` is 0 and `has_messages($type)` is false. When every stored category is listed, no message is left. |
| Announcement.Announce.HasMessages | libraries/Announce.php:200-203 | With a type: true exactly when that category is non-empty. Without one: true exactly when some category is stored, even an empty one. |
| Announcement.Announce.Call | libraries/Announce.php:211-219 | Same contract as `add($name, $arguments[0], $arguments[1])`, where a missing second argument means no data. |
| Sessions.Session.Userdata | libraries/Announce.php:226-229 | `userdata($key)`: the stored value, or the empty collection for a key never written. |
| Sessions.Session.SetUserdata | libraries/Announce.php:221-224 | `set_userdata($key, $value)`: only that key changes. |
| AnnounceSpec.Write | libraries/Announce.php:221-224 | Writing the collection changes only the object's key, and the type list is untouched. |
| AnnounceSpec.AddText | libraries/Announce.php:87-95 | An unknown type is appended to the type list and its category emptied first. The category then holds the old messages plus the text, the text appearing once; for a new type it holds the text alone. |
| AnnounceSpec.AddTextFrame | libraries/Announce.php:87-95 | Adding a text changes no other category and no other session key. |
| AnnounceSpec.AddTextOther | libraries/Announce.php:92-95 | Every other category keeps both its presence and its messages. |
| AnnounceSpec.AddTextOrder | libraries/Announce.php:92-94 | A category not yet stored goes at the end of the array keys; an existing one keeps its place. |
| AnnounceSpec.AddWithoutData | libraries/Announce.php:63-97 | Without data, `add` cannot fail. |
| AnnounceSpec.AddDuplicateUnchanged | libraries/Announce.php:94 | Adding a text that is already stored under a known type changes neither the type list nor the category. |
| AnnounceSpec.AddTextsAppend | libraries/Announce.php:68-71 | Adding `a + b` is adding `a`, then `b`. |
| AnnounceSpec.AddPlainSequential | libraries/Announce.php:66-73 | A nested message array is added as its texts, one after another, in the order the `foreach` loops reach them. |
| AnnounceSpec.AddItemsSequential | libraries/Announce.php:68-71 | The same, from any item of an array onwards. |
| AnnounceSpec.AddTextsKnown | libraries/Announce.php:87-95 | For a listed type, the list is unchanged and the category becomes `FirstOccurrences(old messages + texts)`. |
| AnnounceSpec.AddTextsFrame | libraries/Announce.php:87-95 | Adding several texts to one type leaves the other categories and session keys alone. |
| AnnounceSpec.AddTextsNew | libraries/Announce.php:89-94 | For an unlisted type, the type is appended to the list, and the old contents of its category are dropped for `FirstOccurrences(texts)`. |
| AnnounceSpec.AddSingle | libraries/Announce.php:76-86 | NULL or an empty array stores the template verbatim. A scalar is formatted as a one-element argument list. An array is formatted with its values, and a formatting error fails the call with no change. |
| AnnounceSpec.AddBatch | libraries/Announce.php:66-73 | A message array ignores `$data`, never fails, and adds its leaf texts in order. |
| AnnounceSpec.ClearOne | libraries/Announce.php:118-120 | Empties the category, creating it if absent. No other category, key or type changes. |
| AnnounceSpec.ClearEachEmpties | libraries/Announce.php:109-115 | Clearing without a type empties every listed category, creates each one, and keeps the type list. |
| AnnounceSpec.ClearEachFrame | libraries/Announce.php:109-121 | Unlisted categories keep their presence and messages, and other session keys are untouched. |
| AnnounceSpec.ClearEachOrder | libraries/Announce.php:111-120 | On an empty collection, the category order becomes the type list without repetitions. |
| AnnounceSpec.InitEffect | libraries/Announce.php:37-42 | On an empty store the constructor leaves exactly the listed categories, all empty, in list order; otherwise it changes nothing. The type list is the one given. |
| AnnounceSpec.ClearOneThenPeek | libraries/Announce.php:156-161 | After `get($type)`, `peek($type)` is empty. |
| AnnounceSpec.ClearAllThenPeek | libraries/Announce.php:156-161 | After `get()`, `peek()` is empty. |
| AnnounceSpec.InitialCountIsTypeCount | libraries/Announce.php:132-144 | On a fresh session no message is stored, yet `count()` is the number of distinct types. |
| AnnounceSpec.DefaultStoreCountsItsCategory | libraries/Announce.php:137 | With the default type list, `count()` on a fresh session is 1 while no message is stored. |
| AnnounceSpec.CountAfterClearAll | libraries/Announce.php:132-144 | Once `clear()` has run over a list that covers every stored category, `count()` equals the number of stored categories, and `has_messages()` stays true while the type list is not empty. |
| AnnounceSpec.ClearAllLeavesNoMessages | libraries/Announce.php:125-131 | After `clear()`, every listed category is empty, and the message total is 0 when every stored category is listed. |
| Collections.Put | libraries/Announce.php:92-94 | Assigning to a key sets that key only. A new key is appended to the key order; an existing one keeps its place. |
| Collections.Insert | libraries/Announce.php:94 | `$e[$message] = …` gives `FirstOccurrences(e + [message])`. |
| Collections.CountFromIsKeysPlusMessages | libraries/Announce.php:137 | A recursive count over a list of keys is the number of keys plus the sizes of their categories. |
| Collections.RecursiveCountIsKeysPlusMessages | libraries/Announce.php:137 | `count($messages, COUNT_RECURSIVE)` is the number of categories plus the number of messages. |
| Collections.SumFromZero | libraries/Announce.php:126-128 | The message total over some categories is 0 exactly when each of them is empty. |
| Listings.Labelled | libraries/Announce.php:184-187 | `peek($type)` lists the category's messages in order, each labelled with the type. |
| Listings.MergeOne | libraries/Announce.php:178 | Writing one string key: an existing key keeps its place and takes the new value; a new key goes last. |
| Listings.Merge | libraries/Announce.php:178 | `array_merge` on string keys yields distinct keys. |
| Listings.MergeTexts | libraries/Announce.php:178 | The keys of `array_merge($a, $b)` are `FirstOccurrences(keys(a) + keys(b))`. |
| Listings.MergeOrigins | libraries/Announce.php:178 | Every entry of the merge comes from `$b` when its key is in `$b`, and from `$a` otherwise. |
| Listings.PeekAll | libraries/Announce.php:172-180 | `peek()` without a type returns each message text once. |
| Listings.PeekAllTexts | libraries/Announce.php:172-180 | The texts of `peek()` are the listed categories' messages in list order, without repetitions. |
| Listings.PeekAllCategories | libraries/Announce.php:172-180 | Each entry of `peek()` is labelled with the last listed category that holds its text. |
| Listings.PeekAllOfEmpty | libraries/Announce.php:172-180 | `peek()` is empty when every listed category is empty. |
| Scenarios.TypeListNotPersisted | libraries/Announce.php:88-95 | A type added in one request is unknown to the next request's object. That object's `peek()` misses the type's messages, and its next `add` to the type replaces them. |
| Scenarios.LaterObject | libraries/Announce.php:37-42 | An object built over a non-empty store keeps its own type list, which leaves out an added type. |
| Scenarios.AddUnknownType | libraries/Announce.php:89-94 | Adding under an unlisted type appends it to the list and stores the text alone. |
| Scenarios.AddOtherType | libraries/Announce.php:92-95 | An empty category stays empty while another one is added to. |
| Scenarios.ScenarioFormatted | libraries/Announce.php:76-95 | With two empty types, `add($second, $template, $arg)` stores the formatted text; then `count()` is 3 while one message is stored. |
| Scenarios.FormattedScalar | libraries/Announce.php:82-85 | A scalar `$data` is formatted with `sprintf`. |
| Scenarios.AddToEmptyKnown | libraries/Announce.php:94 | The first text added to an empty listed category is its only message, and the category order stays. |
| Scenarios.OneMessageOfTwoCategories | libraries/Announce.php:137 | Two categories holding one message between them give a recursive count of 3. |
| Scenarios.ScenarioBatchThenDuplicate | libraries/Announce.php:66-94 | `add($t, array($a, $b))` then `add($t, $a)` stores `[$a, $b]`: the repeat is not stored twice. |
| Scenarios.ListedTypeWithoutEntry | libraries/Announce.php:37-42 | An object listing `[first, second]` over a store that holds `first` but not `second` keeps `second` absent from the collection. |
| Scenarios.BatchOfPair | libraries/Announce.php:66-73 | An array of two distinct texts added to an empty listed type stores them in order. |

## Left out

- `empty()` on arguments: only NULL (an absent `Option`) and the empty array count as "no data". The model does not treat the values `""`, `"0"`, `0` and `false` specially. In PHP, passing such a value as `$data` stores the template unformatted, passing it as a type acts on all types, and a type list containing `""` or `"0"` makes `clear()` recurse without end.
- PHP array keys: numeric-string texts and type names (converted to integers by PHP), and loose `in_array` comparison, are not modelled. Texts and types are compared as exact strings.
- `sprintf`/`vsprintf`: the formatting engine is a `Formatter` parameter. Before PHP 8 a mismatch raises a warning and returns `false`, which line 94 then stores as the integer key `0`; only the PHP 8 failure, where nothing changes, is modelled.
- The session backend: stored values are only of the shape Announce writes. A key never written reads as the empty collection, whereas CodeIgniter 2 returns FALSE, which `count()` counts as 1. Persistence, cookies and expiry are not modelled.
- Concurrency: two requests of one session racing on the stored array are not modelled.
- Interleaved writers: every contract speaks of the session handler's current `userdata`, so objects sharing one handler stay correct call by call. Other code that writes the key between the read and the write inside one call, as a concurrent request could, is not modelled.
- `__call`: arguments beyond the second are ignored, as in the code. A call with no argument at all (`$arguments[0]` undefined) is not modelled.
- Message values: `add()` of a non-string, non-array message (an object, a number) is not modelled. The `BASEPATH` guard at the top of the file is not modelled.
- `add()`'s return value `$this`, used for chaining, is modelled as the boolean success flag.

## Findings

| source | as written | input that shows it | evidently intended | confidence | as-written member | corrected member |
|---|---|---|---|---|---|---|
| libraries/Announce.php:137 | `count()` with no type uses `count($messages, COUNT_RECURSIVE)`, which counts every category key as well as every message; `has_messages()` (line 202) inherits this, and after `clear()` both still report the empty categories (`AnnounceSpec.CountAfterClearAll`) | a fresh session with the default type list: the collection is `array('message' => array())`, and `count()` returns 1 and `has_messages()` TRUE while no message is stored | the documentation of `count()` (lines 125-131) promises "the total number of messages", which is 0 here | not executed | AnnounceSpec.DefaultStoreCountsItsCategory | Announcement.Announce.MessageCount |
