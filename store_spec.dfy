/**
 * The store operations of package_func.go as transitions on the map of
 * entries: each takes the map before the call (and the clock `now` where
 * the source reads it) and gives the map after the call with the result.
 */
module StoreSpec {
  import opened Wrappers
  import opened Records

  /** The errors the store returns; their text is what the HTTP layer inspects. */
  datatype StoreError = KeyAlreadyExists(key: string) | InvalidExpiryTime | KeyNotFound

  function Message(e: StoreError): string
  {
    match e
    case KeyAlreadyExists(key) => "key already exists: " + key
    case InvalidExpiryTime => "invalid expiry time"
    case KeyNotFound => "key not found"
  }

  /** The map after an operation, and what the operation returned. */
  datatype Step<+R> = Step(data: Data, out: R)

  /** The entry written by a successful setValue: no queue, flag set. */
  function Written(value: string, expTime: int): Entry
  {
    Entry(value, expTime, true, [])
  }

  /**
   * setValue: refused when the key is present and the flag is set (checked
   * first), or when the expiry is set and already past; otherwise the entry
   * is replaced wholesale. None is Go's nil error.
   */
  function Set(m: Data, key: string, value: string, expTime: int, isExists: bool, now: int)
    : (s: Step<Option<StoreError>>)
    ensures s.out == Some(KeyAlreadyExists(key)) <==> key in m && isExists
    ensures s.out == Some(InvalidExpiryTime) <==> !(key in m && isExists) && expTime != NoExpiry && expTime < now
    ensures s.out.None? <==> !(key in m && isExists) && !(expTime != NoExpiry && expTime < now)
    ensures s.out.Some? ==> s.data == m
    ensures s.out.None? ==> s.data.Keys == m.Keys + {key} && s.data[key] == Written(value, expTime)
    ensures s.out.None? ==> !Expired(s.data[key], now)
    ensures forall k :: k in m && k != key ==> k in s.data && s.data[k] == m[k]
  {
    if key in m && isExists then Step(m, Some(KeyAlreadyExists(key)))
    else if expTime != NoExpiry && expTime < now then Step(m, Some(InvalidExpiryTime))
    else Step(m[key := Written(value, expTime)], None)
  }

  /**
   * getValue with lazy expiry: a missing key is not found; an expired entry
   * is deleted and reported not found; otherwise its scalar value is read.
   */
  function Get(m: Data, key: string, now: int): (s: Step<Result<string, StoreError>>)
    ensures s.out.Err? <==> key !in m || Expired(m[key], now)
    ensures s.out.Err? ==> s.out.error == KeyNotFound && key !in s.data
    ensures s.out.Err? ==> s.data == m - {key}
    ensures s.out.Ok? ==> s.data == m && s.out.value == m[key].value
  {
    if key !in m then Step(m, Err(KeyNotFound))
    else if Expired(m[key], now) then Step(m - {key}, Err(KeyNotFound))
    else Step(m, Ok(m[key].value))
  }

  /** The queue a key has before a push or pop: empty if the key is absent. */
  function QueueOf(m: Data, key: string): seq<string>
  {
    if key in m then m[key].queue else []
  }

  /**
   * qPush: creates an empty entry for a missing key, then appends `values`
   * to its queue in order. It never fails.
   */
  function Push(m: Data, key: string, values: seq<string>): (d: Data)
    ensures d.Keys == m.Keys + {key}
    ensures forall k :: k in m && k != key ==> d[k] == m[k]
    ensures d[key].queue == QueueOf(m, key) + values
    ensures key in m ==> d[key] == m[key].(queue := m[key].queue + values)
    ensures key !in m ==> d[key] == Entry("", NoExpiry, false, values)
  {
    var e := if key in m then m[key] else Entry("", NoExpiry, false, []);
    m[key := e.(queue := e.queue + values)]
  }

  /**
   * qPop without blocking: ("", false) for a missing key or an empty queue,
   * otherwise the head of the queue, which is removed. No entry is ever
   * created or removed.
   */
  function Pop(m: Data, key: string): (s: Step<(string, bool)>)
    ensures s.data.Keys == m.Keys
    ensures s.out.1 <==> |QueueOf(m, key)| > 0
    ensures !s.out.1 ==> s.out.0 == "" && s.data == m
    ensures s.out.1 ==> s.out.0 == m[key].queue[0]
    ensures s.out.1 ==> s.data == m[key := m[key].(queue := m[key].queue[1..])]
  {
    if key !in m then Step(m, ("", false))
    else if |m[key].queue| == 0 then Step(m, ("", false))
    else
      var e := m[key];
      Step(m[key := e.(queue := e.queue[1..])], (e.queue[0], true))
  }

  /**
   * strings.Join: the elements in order with `sep` between neighbours, so
   * the result starts with the first element.
   */
  function Join(elems: seq<string>, sep: string): (r: string)
    ensures |elems| == 0 ==> r == ""
    ensures |elems| == 1 ==> r == elems[0]
    ensures |elems| > 0 ==> |elems[0]| <= |r| && r[..|elems[0]|] == elems[0]
  {
    if |elems| == 0 then ""
    else if |elems| == 1 then elems[0]
    else elems[0] + sep + Join(elems[1..], sep)
  }

  /** What getAll shows for an entry: the joined queue when it has one, else the value. */
  function Display(e: Entry): string
  {
    if |e.queue| > 0 then Join(e.queue, ", ") else e.value
  }

  /**
   * getAll: a snapshot with exactly the store's keys. It reads only: no
   * expired entry is evicted, so expired entries still show.
   */
  function Snapshot(m: Data): (r: map<string, string>)
    ensures r.Keys == m.Keys
    ensures forall k :: k in m && |m[k].queue| > 0 ==> r[k] == Join(m[k].queue, ", ")
    ensures forall k :: k in m && |m[k].queue| == 0 ==> r[k] == m[k].value
  {
    map k | k in m :: Display(m[k])
  }
}
