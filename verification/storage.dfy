/**
 * The prefixed key-value client over the browser's local storage
 * (`LocalStorageClient`).
 *
 * The storage is a map from full keys to entries. An entry is either a
 * value that parses as JSON, or text that does not parse, which reads back
 * as null. JSON text itself is abstracted: a value of type `V` is stored and
 * read back as that same value. The storage either works or throws on every
 * access (private browsing, storage disabled), and `available` says which.
 * A throwing access is caught and logged, so a read gives null and a write
 * changes nothing.
 */
module Storage {
  import opened Basics

  datatype Entry<V> = Parsed(value: V) | Unparseable

  type Store<V> = map<string, Entry<V>>

  /** A client: its key prefix, and whether the underlying storage works. */
  datatype Client = Client(prefix: string, available: bool)

  /** The prefix of the app's shared client. */
  const DefaultPrefix: string := "uhrzeit_app_"

  function FullKey(c: Client, key: string): (k: string)
    ensures StartsWith(k, c.prefix) && k[|c.prefix|..] == key
  {
    ConcatStartsWith(c.prefix, key);
    c.prefix + key
  }

  /** `getItem`: null (`None`) when the storage fails, the key is absent, or the text does not parse. */
  function GetItem<V>(c: Client, store: Store<V>, key: string): (r: Option<V>)
    ensures r.Some? <==> c.available && FullKey(c, key) in store && store[FullKey(c, key)].Parsed?
    ensures r.Some? ==> store[FullKey(c, key)] == Parsed(r.value)
  {
    var k := FullKey(c, key);
    if !c.available || k !in store then None
    else match store[k]
      case Parsed(v) => Some(v)
      case Unparseable => None
  }

  /** `setItem`: stores the value under the prefixed key; a failing storage is left as it was. */
  function SetItem<V>(c: Client, store: Store<V>, key: string, value: V): (s: Store<V>)
    ensures c.available ==> FullKey(c, key) in s && s[FullKey(c, key)] == Parsed(value)
    ensures forall k :: k != FullKey(c, key) ==> (k in s <==> k in store)
    ensures forall k :: k != FullKey(c, key) && k in s ==> s[k] == store[k]
    ensures !c.available ==> s == store
  {
    if c.available then store[FullKey(c, key) := Parsed(value)] else store
  }

  /** `removeItem`: deletes the prefixed key; a failing storage is left as it was. */
  function RemoveItem<V>(c: Client, store: Store<V>, key: string): (s: Store<V>)
    ensures c.available ==> FullKey(c, key) !in s
    ensures forall k :: k != FullKey(c, key) ==> (k in s <==> k in store)
    ensures forall k :: k != FullKey(c, key) && k in s ==> s[k] == store[k]
    ensures !c.available ==> s == store
  {
    if c.available then store - {FullKey(c, key)} else store
  }

  /** Writing then reading the same key gives the written value back, when the storage works. */
  lemma SetGetRoundTrip<V>(c: Client, store: Store<V>, key: string, value: V)
    ensures c.available ==> GetItem(c, SetItem(c, store, key, value), key) == Some(value)
    ensures !c.available ==> GetItem(c, SetItem(c, store, key, value), key) == None
  {
  }

  /** Keys are kept apart by the prefix: writing or removing one key does not affect reads of another. */
  lemma OtherKeysUnaffected<V>(c: Client, store: Store<V>, key: string, other: string, value: V)
    requires key != other
    ensures GetItem(c, SetItem(c, store, key, value), other) == GetItem(c, store, other)
    ensures GetItem(c, RemoveItem(c, store, key), other) == GetItem(c, store, other)
  {
    assert FullKey(c, key)[|c.prefix|..] != FullKey(c, other)[|c.prefix|..];
  }

  /** After a removal the key reads as null. */
  lemma RemoveGetsNull<V>(c: Client, store: Store<V>, key: string)
    ensures GetItem(c, RemoveItem(c, store, key), key) == None
  {
  }

  /**
   * Whether `clear` removes a stored key: it must be non-empty (the empty
   * string is falsy and skipped) and start with the client's prefix.
   */
  predicate ClearRemoves(prefix: string, k: string)
  {
    k != "" && StartsWith(k, prefix)
  }

  /**
   * `clear`: collects the stored keys that `ClearRemoves` selects, in the
   * order the storage enumerates them (`keys`), then removes them. Keys of
   * other applications are kept.
   */
  method Clear<V>(c: Client, store: Store<V>, keys: seq<string>) returns (r: Store<V>)
    requires forall k :: k in keys <==> k in store
    ensures !c.available ==> r == store
    ensures c.available ==> forall k :: k in r <==> k in store && !ClearRemoves(c.prefix, k)
    ensures forall k :: k in r ==> k in store && r[k] == store[k]
  {
    if !c.available {
      return store;
    }
    var toRemove: seq<string> := [];
    var i := 0;
    while i < |keys|
      invariant 0 <= i <= |keys|
      invariant forall k :: k in toRemove <==> k in keys[..i] && ClearRemoves(c.prefix, k)
    {
      var key := keys[i];
      if key != "" && StartsWith(key, c.prefix) {
        toRemove := toRemove + [key];
      }
      assert keys[..i + 1] == keys[..i] + [key];
      i := i + 1;
    }
    assert keys[..i] == keys;
    r := store;
    var j := 0;
    while j < |toRemove|
      invariant 0 <= j <= |toRemove|
      invariant forall k :: k in r <==> k in store && k !in toRemove[..j]
      invariant forall k :: k in r ==> r[k] == store[k]
    {
      r := r - {toRemove[j]};
      assert toRemove[..j + 1] == toRemove[..j] + [toRemove[j]];
      j := j + 1;
    }
    assert toRemove[..j] == toRemove;
  }

  /** After a clear every key of this client reads as null, except the empty full key. */
  lemma ClearedKeysReadNull<V>(c: Client, before: Store<V>, after: Store<V>, key: string)
    requires c.available
    requires forall k :: k in after <==> k in before && !ClearRemoves(c.prefix, k)
    requires FullKey(c, key) != ""
    ensures GetItem(c, after, key) == None
  {
  }
}
