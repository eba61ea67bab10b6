/**
 * Properties that relate several store operations: reads after writes,
 * lazy expiry, FIFO order of the queues and what getAll shows.
 */
module StoreLemmas {
  import opened Wrappers
  import opened Records
  import opened StoreSpec

  /** Up to `n` pops of one key; the values the successful pops returned, in order. */
  function PopMany(m: Data, key: string, n: nat): Step<seq<string>>
  {
    if n == 0 then Step(m, [])
    else
      var s := Pop(m, key);
      if !s.out.1 then Step(s.data, [])
      else
        var rest := PopMany(s.data, key, n - 1);
        Step(rest.data, [s.out.0] + rest.out)
  }

  /** One push per value, in order. */
  function PushEach(m: Data, key: string, values: seq<string>): Data
    decreases |values|
  {
    if values == [] then m else PushEach(Push(m, key, [values[0]]), key, values[1..])
  }

  /** A key that was never written is not found and popping it creates nothing. */
  lemma NeverWrittenKey(m: Data, key: string, now: int)
    requires key !in m
    ensures Get(m, key, now) == Step(m, Err(KeyNotFound))
    ensures Pop(m, key) == Step(m, ("", false))
    ensures key !in Snapshot(m)
  {
  }

  /**
   * A set on a key that is not guarded-and-present, with an expiry that is
   * not past, succeeds and is read back by every get up to its expiry.
   */
  lemma SetThenGet(m: Data, key: string, value: string, expTime: int, isExists: bool, now: int, later: int)
    requires !(key in m && isExists) && !(expTime != NoExpiry && expTime < now)
    requires expTime == NoExpiry || later <= expTime
    ensures Set(m, key, value, expTime, isExists, now).out == None
    ensures var d := Set(m, key, value, expTime, isExists, now).data;
      Get(d, key, later) == Step(d, Ok(value))
  {
  }

  /**
   * After its expiry a set key is gone: the get that notices deletes it,
   * and a later getAll no longer lists it.
   */
  lemma SetThenGetAfterExpiry(m: Data, key: string, value: string, expTime: int, isExists: bool, now: int, later: int)
    requires !(key in m && isExists) && !(expTime != NoExpiry && expTime < now)
    requires expTime != NoExpiry && expTime < later
    ensures var d := Set(m, key, value, expTime, isExists, now).data;
      var g := Get(d, key, later);
      g.out == Err(KeyNotFound) && Snapshot(g.data).Keys == m.Keys - {key}
  {
  }

  /**
   * A guarded set on a key that exists is refused and the earlier value is
   * still read back.
   */
  lemma RejectedSetKeepsValue(m: Data, key: string, v1: string, v2: string, expTime: int, now: int)
    ensures var d := Set(m, key, v1, NoExpiry, false, now).data;
      var r := Set(d, key, v2, expTime, true, now);
      r == Step(d, Some(KeyAlreadyExists(key))) && Get(r.data, key, now).out == Ok(v1)
  {
  }

  /** A set whose expiry is already past stores nothing. */
  lemma PastExpiryStoresNothing(m: Data, key: string, value: string, expTime: int, now: int)
    requires key !in m
    requires expTime != NoExpiry && expTime < now
    ensures var r := Set(m, key, value, expTime, false, now);
      r == Step(m, Some(InvalidExpiryTime)) && Get(r.data, key, now).out == Err(KeyNotFound)
  {
  }

  /**
   * A scalar and a queue live side by side: pushing after a set keeps the
   * value for get while getAll shows the queue.
   */
  lemma PushKeepsValue(m: Data, key: string, value: string, values: seq<string>, now: int)
    requires |values| > 0
    ensures var d := Push(Set(m, key, value, NoExpiry, false, now).data, key, values);
      Get(d, key, now).out == Ok(value) && Snapshot(d)[key] == Join(values, ", ")
  {
    var s := Set(m, key, value, NoExpiry, false, now).data;
    var e := s[key];
    assert e == Written(value, NoExpiry);
    assert e.queue + values == values;
    var d := Push(s, key, values);
    assert d[key] == e.(queue := values);
  }

  lemma {:induction false} PopManyTakesPrefix(m: Data, key: string, n: nat)
    requires key in m && n <= |m[key].queue|
    ensures PopMany(m, key, n).out == m[key].queue[..n]
    ensures PopMany(m, key, n).data == m[key := m[key].(queue := m[key].queue[n..])]
  {
    var q := m[key].queue;
    if n == 0 {
      assert q[0..] == q;
      assert m[key := m[key].(queue := q)] == m;
    } else {
      var e := m[key];
      var m1 := m[key := e.(queue := q[1..])];
      assert Pop(m, key) == Step(m1, (q[0], true));
      PopManyTakesPrefix(m1, key, n - 1);
      assert [q[0]] + q[1..][..n - 1] == q[..n];
      assert q[1..][n - 1..] == q[n..];
      assert m1[key := e.(queue := q[n..])] == m[key := e.(queue := q[n..])];
    }
  }

  /** Popping as often as the queue is long returns the whole queue and leaves the entry, emptied. */
  lemma PopManyDrains(m: Data, key: string)
    requires key in m
    ensures PopMany(m, key, |m[key].queue|) == Step(m[key := m[key].(queue := [])], m[key].queue)
  {
    var q := m[key].queue;
    PopManyTakesPrefix(m, key, |q|);
    assert q[..|q|] == q && q[|q|..] == [];
  }

  /**
   * FIFO: after a push, popping as often as there are elements returns the
   * old queue and then the pushed values, in order. The emptied entry stays
   * in the store with its scalar part, and one more pop finds nothing.
   */
  lemma QueueIsFifo(m: Data, key: string, values: seq<string>)
    ensures var d := Push(m, key, values);
      var s := PopMany(d, key, |QueueOf(m, key)| + |values|);
      && s.out == QueueOf(m, key) + values
      && s.data.Keys == m.Keys + {key}
      && s.data[key] == d[key].(queue := [])
      && Pop(s.data, key) == Step(s.data, ("", false))
  {
    var d := Push(m, key, values);
    PopManyDrains(d, key);
    var e := d[key].(queue := []);
    var emptied := d[key := e];
    assert emptied.Keys == d.Keys;
    assert Pop(emptied, key) == Step(emptied, ("", false));
  }

  lemma PushPush(m: Data, key: string, a: seq<string>, b: seq<string>)
    ensures Push(Push(m, key, a), key, b) == Push(m, key, a + b)
  {
    var e := if key in m then m[key] else Entry("", NoExpiry, false, []);
    assert e.queue + a + b == e.queue + (a + b);
  }

  /** Pushing values one call at a time leaves the store as one push of all of them. */
  lemma {:induction false} PushEachIsPush(m: Data, key: string, values: seq<string>)
    requires |values| > 0
    ensures PushEach(m, key, values) == Push(m, key, values)
    decreases |values|
  {
    var m1 := Push(m, key, [values[0]]);
    if |values| == 1 {
      assert values[1..] == [] && values == [values[0]];
    } else {
      PushEachIsPush(m1, key, values[1..]);
      PushPush(m, key, [values[0]], values[1..]);
      assert [values[0]] + values[1..] == values;
    }
  }

  /**
   * Pushes of single values to a fresh key, followed by as many pops, give
   * back every value exactly once and in push order: none lost, none
   * duplicated.
   */
  lemma OnePushPerValue(m: Data, key: string, values: seq<string>)
    requires key !in m && |values| > 0
    ensures PopMany(PushEach(m, key, values), key, |values|).out == values
  {
    PushEachIsPush(m, key, values);
    QueueIsFifo(m, key, values);
  }

  /** getAll after pushing "a", "b" to "q" and setting "s" to "hello". */
  lemma SnapshotExample(now: int)
    ensures var d := Set(Push(map[], "q", ["a", "b"]), "s", "hello", NoExpiry, false, now).data;
      Snapshot(d) == map["q" := "a, b", "s" := "hello"]
  {
    var d := Set(Push(map[], "q", ["a", "b"]), "s", "hello", NoExpiry, false, now).data;
    assert "q" != "s";
    assert Join(["a", "b"], ", ") == "a, b";
    assert Snapshot(d).Keys == {"q", "s"};
  }

  /** strings.Join with one more element: the separator and the element are added at the end. */
  lemma {:induction false} JoinSnoc(elems: seq<string>, x: string, sep: string)
    requires |elems| > 0
    ensures Join(elems + [x], sep) == Join(elems, sep) + sep + x
  {
    if |elems| > 1 {
      JoinSnoc(elems[1..], x, sep);
      assert (elems + [x])[1..] == elems[1..] + [x];
    }
  }

  /**
   * One more value pushed onto a non-empty queue extends what getAll shows
   * for the key by the separator and that value.
   */
  lemma PushExtendsDisplay(m: Data, key: string, x: string)
    requires key in m && |m[key].queue| > 0
    ensures Snapshot(Push(m, key, [x]))[key] == Snapshot(m)[key] + ", " + x
  {
    var q := m[key].queue;
    JoinSnoc(q, x, ", ");
    assert Push(m, key, [x])[key].queue == q + [x];
  }
}
