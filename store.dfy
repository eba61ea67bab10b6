/**
 * The datastore object (datastore.go) with the methods of package_func.go,
 * updating its map in place. Each method is proved to make exactly the
 * transition StoreSpec gives for it.
 */
module Store {
  import opened Wrappers
  import opened Records
  import opened StoreSpec

  class Datastore {
    var data: map<string, Entry>

    constructor ()
      ensures data == map[]
    {
      data := map[];
    }

    method SetValue(key: string, value: string, expTime: int, isExists: bool, now: int)
      returns (err: Option<StoreError>)
      modifies this
      ensures data == Set(old(data), key, value, expTime, isExists, now).data
      ensures err == Set(old(data), key, value, expTime, isExists, now).out
    {
      if key in data && isExists {
        return Some(KeyAlreadyExists(key));
      }
      if expTime != NoExpiry && expTime < now {
        return Some(InvalidExpiryTime);
      }
      data := data[key := Entry(value, expTime, true, [])];
      return None;
    }

    method GetValue(key: string, now: int) returns (r: Result<string, StoreError>)
      modifies this
      ensures data == Get(old(data), key, now).data
      ensures r == Get(old(data), key, now).out
    {
      if key in data {
        var v := data[key];
        if v.expTime != NoExpiry && v.expTime < now {
          data := data - {key};
          return Err(KeyNotFound);
        }
        return Ok(v.value);
      }
      return Err(KeyNotFound);
    }

    method QPush(key: string, values: seq<string>)
      modifies this
      ensures data == Push(old(data), key, values)
    {
      if key !in data {
        data := data[key := Entry("", NoExpiry, false, [])];
      }
      var e := data[key];
      data := data[key := e.(queue := e.queue + values)];
    }

    method QPop(key: string) returns (value: string, ok: bool)
      modifies this
      ensures data == Pop(old(data), key).data
      ensures (value, ok) == Pop(old(data), key).out
    {
      if key !in data {
        return "", false;
      }
      var e := data[key];
      if |e.queue| == 0 {
        return "", false;
      }
      value := e.queue[0];
      data := data[key := e.(queue := e.queue[1..])];
      return value, true;
    }

    /** Fills the result one key at a time; the store is only read. */
    method GetAll() returns (result: map<string, string>)
      ensures result == Snapshot(data)
    {
      result := map[];
      var rest := data.Keys;
      while rest != {}
        invariant rest <= data.Keys
        invariant result.Keys == data.Keys - rest
        invariant forall k :: k in result ==> result[k] == Display(data[k])
        decreases rest
      {
        var key :| key in rest;
        var value := data[key];
        if |value.queue| > 0 {
          result := result[key := Join(value.queue, ", ")];
        } else {
          result := result[key := value.value];
        }
        rest := rest - {key};
      }
    }
  }

  /**
   * The get test on a fresh store: a value set to expire in an hour is read
   * back, one whose expiry is an hour past is not found, and neither is a
   * key never set. A past timestamp that happens to be 0 would read as
   * "never expires", so the clock must not be exactly one hour.
   */
  method GetValueScenario(now: int) returns (live: Result<string, StoreError>,
                                             expired: Result<string, StoreError>,
                                             missing: Result<string, StoreError>)
    requires now - 3600 != NoExpiry
    ensures live == Ok("test-value")
    ensures expired == Err(KeyNotFound)
    ensures missing == Err(KeyNotFound)
  {
    var store := new Datastore();
    var _ := store.SetValue("test-key", "test-value", now + 3600, false, now);
    live := store.GetValue("test-key", now);
    var _ := store.SetValue("expired-key", "expired-value", now - 3600, false, now);
    expired := store.GetValue("expired-key", now);
    missing := store.GetValue("non-existent-key", now);
  }

  /**
   * Two values pushed in one call come out of two pops in push order, and a
   * third pop finds the queue empty.
   */
  method QueueScenario(x: string, y: string) returns (first: (string, bool),
                                                     second: (string, bool),
                                                     third: (string, bool))
    ensures first == (x, true) && second == (y, true) && third == ("", false)
  {
    var store := new Datastore();
    store.QPush("q", [x, y]);
    var v, ok := store.QPop("q");
    first := (v, ok);
    v, ok := store.QPop("q");
    second := (v, ok);
    v, ok := store.QPop("q");
    third := (v, ok);
  }
}
