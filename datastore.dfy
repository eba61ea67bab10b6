/**
 * The records of the store (datastore.go): a single map from key to entry.
 * Because the store is one map, a key has at most one entry.
 */
module Records {
  /** Expiry value that means "never expires". */
  const NoExpiry := 0

  /**
   * One key's record. `expTime` is an absolute Unix-seconds timestamp, or
   * NoExpiry. A nil queue and an empty queue are both the empty sequence.
   */
  datatype Entry = Entry(value: string, expTime: int, isExists: bool, queue: seq<string>)

  type Data = map<string, Entry>

  /**
   * An entry is expired once the clock has passed its expiry; NoExpiry never
   * expires, and an expiry equal to the clock is still live.
   */
  function Expired(e: Entry, now: int): (r: bool)
    ensures e.expTime == NoExpiry ==> !r
    ensures e.expTime >= now ==> !r
    ensures e.expTime != NoExpiry && e.expTime < now ==> r
  {
    e.expTime != NoExpiry && e.expTime < now
  }

  /** Expiry is absolute: NoExpiry never expires, and once expired an entry stays expired. */
  lemma ExpiryIsAbsolute(e: Entry, now: int, later: int)
    requires now <= later
    ensures e.expTime == NoExpiry ==> !Expired(e, now)
    ensures Expired(e, now) ==> Expired(e, later)
    ensures e.expTime != NoExpiry ==> (Expired(e, now) <==> e.expTime < now)
  {
  }
}
