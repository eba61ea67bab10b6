# In-memory key/value and queue store — a Dafny model

This project models the core of a small Go in-memory data store. The store is one map from key to entry. Each entry carries four things:

- a scalar value;
- an absolute expiry timestamp, where 0 means "never";
- a flag;
- a FIFO queue of strings.

The store offers five operations:

- `setValue`: a conditional write with expiry validation;
- `getValue`: a read with lazy expiry, which deletes an expired entry when it is read;
- `qPush`: appends values to a key's queue, creating the entry if needed;
- `qPop`: removes the head of a key's queue without blocking;
- `getAll`: a read-only snapshot of every key.

In front of the store, the HTTP handlers parse SET commands (key, value, then the options `EX <n><unit>`, `NX`, `XX`). They validate QPUSH and QPOP requests and classify store errors into HTTP statuses by the error message's prefix.

The clock is a parameter `now` (Unix seconds) everywhere the source reads `time.Now()`.

Files and modules:

- `wrappers.dfy` (`Wrappers`): Option and Result.
- `datastore.dfy` (`Records`): the entry record and the expiry rule.
- `strconv.dfy` (`Strconv`): `strconv.Atoi` as used by `parseExpiry`, and `Itoa`, which Atoi undoes.
- `expiry.dfy` (`Expiry`): `parseExpiry`.
- `store_spec.dfy` (`StoreSpec`): each store operation as a transition from the map before the call to the map after it, plus the result.
- `store_lemmas.dfy` (`StoreLemmas`): properties that relate several operations, such as read-after-write, lazy expiry and FIFO order.
- `store.dfy` (`Store`): the `Datastore` class. Its methods update the `data` map in place, and each is proved to make exactly its `StoreSpec` transition.
- `commands.dfy` (`Commands`): the SET tokenizer (a recursive specification and the handler's loop proved equal to it), QPUSH/QPOP validation and status classification.

Two behaviours of the code are easy to misread:

- A write whose expiry equals `now` is accepted. Only `expTime < now` is refused.
- `XX` sets the flag that makes `setValue` refuse a key that already exists, which is what Redis's `NX` does. `NX` clears that flag, so a write with `NX` refuses nothing and overwrites unconditionally. It is modelled as written, as one boolean guard.

## Model

| member | source | states |
|---|---|---|
| `Records.Expired` | package_func.go:61 | expiry 0 never counts as expired; an expiry at or after the clock is still live; any other expiry before the clock is expired (the test setValue and getValue share, lines 61 and 75) |
| `Records.ExpiryIsAbsolute` | datastore.go:14 | expiry 0 never expires; any other expiry is an absolute time, and once passed it stays passed |
| `Strconv.Atoi` | package_func.go:18-21 | accepted iff the string is an optional sign followed by at least one digit with the signed value inside int64, and then the value is that signed number; anything else is an error |
| `Strconv.Signed` | package_func.go:18 | the digits' value is negated after a leading '-' and kept otherwise |
| `Strconv.AtoiAcceptsNonCanonical` | package_func.go:18 | "+7" and "007" read as 7, "-0" as 0; "+" and "7s" are errors |
| `Strconv.AtoiItoa` | package_func.go:18 | Atoi reads back every int64 written in decimal |
| `Expiry.ToUpper` | package_func.go:23 | lower-case ASCII letters become upper case; every other character is unchanged |
| `Expiry.UnitSeconds` | package_func.go:23-33 | S, M, H, D (after upper-casing) are 1, 60, 3600, 86400 seconds; every other letter is refused |
| `Expiry.Seconds` | package_func.go:24-31 | s/S is 1 second, m/M is 60, h/H is 3600 and d/D is 86400 |
| `Expiry.ParseExpiry` | package_func.go:15-35 | last character is the unit, the rest the number; a bad number (also a non-ASCII last character) is reported before a bad unit; success iff the number parses and the unit is S/M/H/D in either case, giving now + n × unit-seconds |
| `Expiry.ParseExpiryOfFormatted` | package_func.go:15-31 | round trip: a formatted int64 followed by any accepted unit letter parses back to now + n × unit-seconds |
| `Expiry.ParseExpiryBadUnit` | package_func.go:32-33 | a valid number followed by an ASCII letter other than S/M/H/D is an invalid-unit error |
| `StoreSpec.Set` | package_func.go:39-68 | refused with "key already exists" iff the key is present and the flag set (checked first); refused with "invalid expiry time" iff not that and the expiry is set and past; succeeds in every other case; a refused write leaves the map unchanged; a success replaces the entry with {value, expiry, flag true whatever the request's flag, empty queue}, keeps all other keys and never stores an already-expired entry |
| `StoreSpec.Get` | package_func.go:70-83 | not found iff the key is absent or expired; a failed read leaves the key gone (an expired entry is deleted, nothing else changes); a successful read returns the stored value and changes nothing |
| `StoreSpec.Push` | package_func.go:85-100 | keys afterwards are the old keys plus this one; the queue gains `values` at its tail in order; an existing entry keeps value, expiry and flag; a missing one is created with empty value, expiry 0 and flag clear; other keys are untouched |
| `StoreSpec.Pop` | package_func.go:102-126 | the map's keys never change; success iff the key has a non-empty queue; on success returns the head and leaves the rest of the queue; otherwise returns ("", false) and changes nothing |
| `StoreSpec.Join` | package_func.go:136 | `strings.Join`: no elements give "", one element gives itself, and the result always starts with the first element |
| `StoreSpec.Snapshot` | package_func.go:129-142 | exactly the map's keys; each shows its queue joined with ", " when the queue is non-empty, else its value |
| `StoreLemmas.NeverWrittenKey` | package_func.go:74-82 | a key never written is not found, and popping it returns ("", false) without creating it |
| `StoreLemmas.SetThenGet` | main_test.go:15-23 | a set on a key that is not guarded-and-present, with an expiry that is not past, succeeds, and a get at any time up to the expiry returns the value and changes nothing |
| `StoreLemmas.SetThenGetAfterExpiry` | package_func.go:74-79 | after a set that is not refused, a get past the expiry reports not found and deletes the key, so a following getAll omits it |
| `StoreLemmas.RejectedSetKeepsValue` | package_func.go:57-59 | after an unguarded set without expiry, a guarded set on the same key is refused with the map unchanged, and the earlier value is still read |
| `StoreLemmas.PastExpiryStoresNothing` | package_func.go:61-64 | a set whose expiry is past is refused and a following get finds nothing |
| `StoreLemmas.PushKeepsValue` | package_func.go:89-97 | pushing after a set keeps the scalar for get while getAll shows the joined queue |
| `StoreLemmas.PopManyTakesPrefix` | package_func.go:115-122 | n pops of a queue holding at least n elements return its first n elements in order and leave the rest |
| `StoreLemmas.PopManyDrains` | package_func.go:115-122 | popping as often as the queue is long returns the whole queue and leaves the entry in the map with an empty queue and its other fields unchanged |
| `StoreLemmas.QueueIsFifo` | package_func.go:85-126 | after a push, popping every element returns the old queue then the pushed values in order; the emptied entry stays with its scalar part, and one more pop returns ("", false) |
| `StoreLemmas.PushPush` | package_func.go:97 | two pushes to one key equal one push of both value lists |
| `StoreLemmas.PushEachIsPush` | package_func.go:85-100 | pushing values one call at a time equals one push of all of them |
| `StoreLemmas.OnePushPerValue` | package_func.go:85-126 | single-value pushes to a new key followed by as many pops return every value exactly once, in push order |
| `StoreLemmas.SnapshotExample` | package_func.go:129-142 | getAll after pushing "a", "b" to "q" and setting "s" to "hello" is {"q": "a, b", "s": "hello"} |
| `StoreLemmas.JoinSnoc` | package_func.go:136 | joining one more element appends the separator and that element |
| `StoreLemmas.PushExtendsDisplay` | package_func.go:97 | pushing one more value onto a non-empty queue extends what getAll shows for the key by ", " and that value |
| `Store.Datastore.constructor` | datastore.go:5-10 | a new store holds no keys |
| `Store.Datastore.SetValue` | package_func.go:39-68 | the map and the returned error are exactly those of `StoreSpec.Set` on the old map |
| `Store.Datastore.GetValue` | package_func.go:70-83 | the map and the result are exactly those of `StoreSpec.Get`, including the deletion of an expired entry |
| `Store.Datastore.QPush` | package_func.go:85-100 | the map becomes `StoreSpec.Push` of the old map |
| `Store.Datastore.QPop` | package_func.go:102-126 | the map and the (value, ok) pair are exactly those of `StoreSpec.Pop` |
| `Store.Datastore.GetAll` | package_func.go:129-142 | the loop that fills the result map returns exactly `StoreSpec.Snapshot` of the store, which it does not change |
| `Store.GetValueScenario` | main_test.go:9-41 | on a new store: a value expiring in an hour is read back; a set whose expiry was an hour ago leaves the key not found; a key never set is not found |
| `Store.QueueScenario` | package_func.go:85-126 | pushing x, y then popping three times gives (x, true), (y, true), ("", false) |
| `Commands.ParseOptions` | main.go:55-79 | the option loop from a token on: at the end it yields the expiry and flag gathered so far; a success starts with EX, NX or XX (or has no options left); the expiry changes only if an EX follows, the flag only if an NX or XX follows |
| `Commands.ParseSet` | main.go:43-79 | fewer than two tokens is an invalid command; the key and value are tokens 0 and 1; with no options there is no expiry and the flag is clear |
| `Commands.ParseSetCommand` | main.go:43-79 | the handler's loop, which steps past an EX argument inside the body, gives exactly `ParseSet` |
| `Commands.OptionsAppend` | main.go:55-79 | options parsed to the end of a command carry their expiry and flag unchanged into any further tokens |
| `Commands.ParseSetAppend` | main.go:50-79 | extra tokens after a valid command are parsed as options starting from that command's expiry and flag |
| `Commands.LastFlagWins` | main.go:70-73 | an NX or XX added at the end decides the flag (false or true), whatever came before |
| `Commands.LastExpiryWins` | main.go:56-69 | an EX added at the end replaces the expiry with its parsed value, or rejects the command with the expiry parser's error |
| `Commands.BadExpiryRejectsWhateverFollows` | main.go:56-69 | an EX whose argument the expiry parser refuses rejects the command with that error, whatever tokens follow |
| `Commands.BadOptionRejected` | main.go:56-77 | an EX with no argument, or any option other than EX/NX/XX (lower case included), makes the command invalid, whatever tokens follow |
| `Commands.ParseQPush` | main.go:144-157 | accepted iff the command is "QPUSH" with at least two args; then the key followed by the values is exactly the args, and there is at least one value |
| `Commands.ParseQPop` | main.go:188-192 | accepted iff the command is "QPOP"; the key is passed on unchanged |
| `Commands.MessagePrefixes` | main.go:83-89 | the "key already exists" message starts with that prefix; the "invalid expiry time" message starts with its own prefix and not the first; the "key not found" message starts with its prefix and neither of the others |
| `Commands.SetStatus` | main.go:81-91 | the SET handler answers Created iff setValue returned no error; "key already exists" is Conflict, "invalid expiry time" is BadRequest, anything else InternalServerError |
| `Commands.GetStatus` | main.go:111-119 | the GET handler answers OK iff getValue succeeded, and NotFound for "key not found" |
| `Commands.SetStatusOfStore` | main.go:81-95 | a SET reaching the store answers Created iff it succeeded, Conflict iff the key existed with the flag set, BadRequest iff setValue returned "invalid expiry time" (a past expiry that is not a conflict) |
| `Commands.GetStatusOfStore` | main.go:111-123 | a GET answers NotFound iff the key is absent or expired, and OK otherwise |
| `Commands.PopReplyAsWritten` | main.go:198-217 | as written, the reply is "not found or empty" iff the popped value is "", whatever `ok` says; otherwise it is "queue is empty" without `ok` and the value with it |
| `Commands.PopReplyOf` | main.go:198-217 | the QPOP reply decided by `ok`: "not found or empty" iff nothing was popped, else the popped value |
| `Commands.PopReplyAsWrittenDropsEmptyValue` | main.go:199-204 | as written, popping a queued "" removes it yet answers "not found or empty" |
| `Commands.PopReplyMatchesQueue` | main.go:198-217 | with the reply decided by `ok`, it is "not found or empty" exactly when the key has no queued element, and otherwise the head |

## Findings

| source | as written | input that shows it | evidently intended | confidence | as-written member | corrected member |
|---|---|---|---|---|---|---|
| main.go:199-204 | the QPOP handler reads the value first and answers 404 "queue not found or empty" whenever it is "", ignoring `ok` | QPUSH with args ["q", ""], then QPOP "q": the "" is removed from the queue but the reply says nothing was there | decide on `ok`, which qPop sets exactly when it removed an element | medium, not executed | `Commands.PopReplyAsWrittenDropsEmptyValue` | `Commands.PopReplyMatchesQueue` |

## Left out

- HTTP plumbing is not modelled: routing, method checks, JSON decoding and encoding, response bodies, the GET handler's empty-key check, and `ListenAndServe`. These are I/O.
- `strings.Fields` is not modelled. SET is modelled on the resulting token sequence, which is assumed to have no empty token.
- Locking is not modelled: the store-wide `RWMutex` and the per-entry queue mutex. This is concurrency. Note that `getValue` deletes while holding only the read lock.
- The goroutine and channels of `qPop`, and the handler's `select`, are not modelled; `qPop` returns its (value, ok) pair directly. In the source, when the handler returns after reading "" from the value channel, the `qPop` goroutine stays blocked on the ok channel while still holding the store's read lock, and, whenever the key exists (an empty queue or a "" at its head), that entry's queue mutex too, so a later QPOP on that key hangs as well. Every later `setValue` or `qPush` then waits forever for the write lock, and once a writer is waiting every new reader waits as well. This concurrency effect is outside the model.
- `time.Now()` is not modelled. The clock is the parameter `now`. The SET handler reads the clock once in `parseExpiry` and once in `setValue`; the model uses one `now` for both.
- The `go/parser` tokenizing and `Printf` logging at the start of `setValue` are not modelled. Quoting with `%q` always gives a parsable literal, so this step never fails.
- The entries are `*dataValue` pointers updated in place in the source. Here they are `Entry` values, and an update replaces the map's entry. No pointer leaves the store, so this difference is not observable in a sequential run.
- `maxSizeBytes`, `sizeBytes` and the logger are not modelled. No store operation reads or updates them.
- Expiry.ParseExpiry: does not model int64 wrap-around of `n × unit-seconds` and of the addition to `now`, because integers are unbounded here.
- Strconv.Atoi: does not distinguish a syntax error from an out-of-range error, and does not model the error text. Both are one error, which the SET handler reports as a bad request.
- Parse errors' message text in responses is not modelled; only the error kind is.
