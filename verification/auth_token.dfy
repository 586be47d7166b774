/**
 * The web client's stored API token: the shape check every token passes
 * before it is used, and reading and writing it in the browser's local
 * storage, where any storage operation may fail (storage disabled).
 */
module AuthToken {
  import opened Wrappers
  import opened Text

  const StorageKey: string := "woodpecker_jwt"

  /** `isValidJwt`: a string (not null) with exactly three '.'-separated
      segments, the shape of the compact serialization of section 7.1 of
      RFC 7515. The segments themselves are not checked. */
  predicate IsValidJwt(token: Option<string>): (b: bool)
    // three '.'-separated segments: exactly two dots
    ensures b <==> token.Some? && Count(token.value, '.') == 2
  {
    if token.None? then false
    else
      SplitCount(token.value, '.');
      |Split(token.value, '.')| == 3
  }

  /** The browser's `localStorage`; while `available` is false every
      operation throws. */
  class LocalStorage {
    var items: map<string, string>
    var available: bool

    constructor(items: map<string, string>, available: bool)
      ensures this.items == items && this.available == available
    {
      this.items := items;
      this.available := available;
    }

    /** `getItem`; `ok` is false when it throws. */
    method GetItem(key: string) returns (ok: bool, value: Option<string>)
      ensures ok == available
      ensures ok ==> value == if key in items then Some(items[key]) else None
    {
      if !available {
        return false, None;
      }
      ok := true;
      value := if key in items then Some(items[key]) else None;
    }

    /** `setItem`; `ok` is false when it throws, and then nothing changes. */
    method SetItem(key: string, value: string) returns (ok: bool)
      modifies this
      ensures ok == available && available == old(available)
      ensures items == if ok then old(items)[key := value] else old(items)
    {
      ok := available;
      if ok {
        items := items[key := value];
      }
    }

    /** `removeItem`; `ok` is false when it throws, and then nothing changes. */
    method RemoveItem(key: string) returns (ok: bool)
      modifies this
      ensures ok == available && available == old(available)
      ensures items == if ok then old(items) - {key} else old(items)
    {
      ok := available;
      if ok {
        items := items - {key};
      }
    }
  }

  /** The result of reading the token: the token handed back and the
      storage contents afterwards. */
  datatype Read = Read(token: Option<string>, items: map<string, string>)

  /** What `getStoredAuthToken` returns and leaves behind: a well-formed
      stored token is returned; a malformed or missing one is removed and
      null returned; when storage fails, null and nothing changes. */
  function GetSpec(items: map<string, string>, available: bool): (r: Read)
    ensures r.token.Some? ==> IsValidJwt(r.token) && r.items == items
                              && StorageKey in items && r.token.value == items[StorageKey]
    ensures available && r.token.None? ==> StorageKey !in r.items
    ensures forall k :: k != StorageKey ==> (k in r.items <==> k in items)
    ensures forall k :: k != StorageKey && k in r.items ==> r.items[k] == items[k]
  {
    if !available then Read(None, items)
    else
      var stored := if StorageKey in items then Some(items[StorageKey]) else None;
      if !IsValidJwt(stored) then Read(None, items - {StorageKey}) else Read(stored, items)
  }

  /** What `storeAuthToken` leaves behind: a well-formed token stored under
      the key, the key removed otherwise, nothing changed when storage
      fails. */
  function StoreSpec(items: map<string, string>, available: bool, token: Option<string>)
    : (r: map<string, string>)
    ensures !available ==> r == items
    ensures available && IsValidJwt(token) ==> StorageKey in r && r[StorageKey] == token.value
    ensures available && !IsValidJwt(token) ==> StorageKey !in r
    ensures forall k :: k != StorageKey ==> (k in r <==> k in items)
    ensures forall k :: k != StorageKey && k in r ==> r[k] == items[k]
  {
    if !available then items
    else if !IsValidJwt(token) then items - {StorageKey}
    else items[StorageKey := token.value]
  }

  /** Storing a token and reading it back gives the token when it is well
      formed and null otherwise; with storage failing, the read gives null. */
  lemma StoreThenGet(items: map<string, string>, available: bool, token: Option<string>)
    ensures GetSpec(StoreSpec(items, available, token), available).token
      == if available && IsValidJwt(token) then token else None
  {
  }

  /** Reading twice gives the same token as reading once, and the second
      read changes nothing. */
  lemma GetTwice(items: map<string, string>, available: bool)
    ensures var first := GetSpec(items, available);
      GetSpec(first.items, available) == first
  {
  }

  /** `getStoredAuthToken`. */
  method GetStoredAuthToken(storage: LocalStorage) returns (token: Option<string>)
    modifies storage
    ensures Read(token, storage.items) == GetSpec(old(storage.items), old(storage.available))
    ensures storage.available == old(storage.available)
  {
    var ok, stored := storage.GetItem(StorageKey);
    if !ok {
      return None;
    }
    if !IsValidJwt(stored) {
      ok := storage.RemoveItem(StorageKey);
      return None;
    }
    return stored;
  }

  /** `storeAuthToken`. */
  method StoreAuthToken(storage: LocalStorage, token: Option<string>)
    modifies storage
    ensures storage.items == StoreSpec(old(storage.items), old(storage.available), token)
    ensures storage.available == old(storage.available)
  {
    if !IsValidJwt(token) {
      var _ := storage.RemoveItem(StorageKey);
      return;
    }
    var _ := storage.SetItem(StorageKey, token.value);
  }
}
