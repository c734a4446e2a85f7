/**
 * The device's key-value store, abstracted: each key holds a decoded list
 * (the model does not serialise), and every call is told by its caller
 * whether the platform makes it fail.
 */
module KeyValue {
  import opened Wrappers
  import opened Types

  /** What a key holds once its JSON text is parsed. */
  datatype Blob = PetList(pets: seq<Pet>) | AppList(apps: seq<Application>) | IdList(ids: seq<string>)

  /** `getItem`'s value: None for an absent key. */
  function Lookup(items: map<string, Blob>, key: string): Option<Blob> {
    if key in items then Some(items[key]) else None
  }

  /** The store after a `setItem` that fails or succeeds. */
  function Written(items: map<string, Blob>, key: string, value: Blob, fails: bool): map<string, Blob> {
    if fails then items else items[key := value]
  }

  /** The store after a `removeItem` that fails or succeeds. */
  function Deleted(items: map<string, Blob>, key: string, fails: bool): map<string, Blob> {
    if fails then items else items - {key}
  }

  class Store {
    var items: map<string, Blob>

    constructor (initial: map<string, Blob>)
      ensures items == initial
    {
      items := initial;
    }

    method GetItem(key: string, fails: bool) returns (r: Result<Option<Blob>>)
      ensures r == if fails then Failure("storage read failed") else Success(Lookup(items, key))
    {
      if fails {
        r := Failure("storage read failed");
      } else {
        r := Success(Lookup(items, key));
      }
    }

    method SetItem(key: string, value: Blob, fails: bool) returns (r: Outcome)
      modifies this
      ensures r.Pass? <==> !fails
      ensures items == Written(old(items), key, value, fails)
    {
      if fails {
        r := Fail("storage write failed");
      } else {
        items := items[key := value];
        r := Pass;
      }
    }

    method RemoveItem(key: string, fails: bool) returns (r: Outcome)
      modifies this
      ensures r.Pass? <==> !fails
      ensures items == Deleted(old(items), key, fails)
    {
      if fails {
        r := Fail("storage remove failed");
      } else {
        items := items - {key};
        r := Pass;
      }
    }
  }
}
