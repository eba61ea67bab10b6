/**
 * The command handling of main.go that sits in front of the store: the SET
 * tokenizer and option loop, the QPUSH and QPOP request checks, and the
 * mapping of store errors to HTTP statuses by message prefix. SET works on
 * the whitespace-separated tokens of the command, which are never empty.
 */
module Commands {
  import opened Wrappers
  import opened Records
  import opened Expiry
  import opened StoreSpec

  datatype CmdError = InvalidCommand | BadExpiry(reason: ExpiryError)

  /** Arguments for setValue taken from a SET command. */
  datatype SetRequest = SetRequest(key: string, value: string, expTime: int, isExists: bool)

  /** Arguments for qPush taken from a QPUSH request. */
  datatype PushRequest = PushRequest(key: string, values: seq<string>)

  /** What splitting on whitespace yields: no empty token. */
  predicate Tokens(parts: seq<string>)
  {
    forall j :: 0 <= j < |parts| ==> |parts[j]| > 0
  }

  /**
   * The option loop from token i on, with the expiry and flag gathered so
   * far: EX takes the next token as an expiry, NX clears the flag, XX sets
   * it, anything else is an invalid command. The expiry changes only through
   * an EX option and the flag only through NX or XX.
   */
  function ParseOptions(parts: seq<string>, i: nat, expTime: int, isExists: bool, now: int)
    : (r: Result<(int, bool), CmdError>)
    requires Tokens(parts) && i <= |parts|
    ensures i == |parts| ==> r == Ok((expTime, isExists))
    ensures r.Ok? && r.value.0 != expTime ==> "EX" in parts[i..]
    ensures r.Ok? && r.value.1 != isExists ==> "NX" in parts[i..] || "XX" in parts[i..]
    ensures r.Ok? ==> parts[i..] == [] || parts[i] in ["EX", "NX", "XX"]
    decreases |parts| - i
  {
    if i == |parts| then Ok((expTime, isExists))
    else if parts[i] == "EX" then
      if i + 1 >= |parts| then Err(InvalidCommand)
      else match ParseExpiry(parts[i + 1], now)
        case Err(e) => Err(BadExpiry(e))
        case Ok(t) => ParseOptions(parts, i + 2, t, isExists, now)
    else if parts[i] == "NX" then ParseOptions(parts, i + 1, expTime, false, now)
    else if parts[i] == "XX" then ParseOptions(parts, i + 1, expTime, true, now)
    else Err(InvalidCommand)
  }

  /** A SET command: key, value, then options, starting with no expiry and the flag clear. */
  function ParseSet(parts: seq<string>, now: int): (r: Result<SetRequest, CmdError>)
    requires Tokens(parts)
    ensures |parts| < 2 ==> r == Err(InvalidCommand)
    ensures |parts| == 2 ==> r == Ok(SetRequest(parts[0], parts[1], NoExpiry, false))
    ensures r.Ok? ==> |parts| >= 2 && r.value.key == parts[0] && r.value.value == parts[1]
  {
    if |parts| < 2 then Err(InvalidCommand)
    else match ParseOptions(parts, 2, NoExpiry, false, now)
      case Err(e) => Err(e)
      case Ok((expTime, isExists)) => Ok(SetRequest(parts[0], parts[1], expTime, isExists))
  }

  /** The SET handler's loop, advancing past an EX argument inside the body. */
  method ParseSetCommand(parts: seq<string>, now: int) returns (r: Result<SetRequest, CmdError>)
    requires Tokens(parts)
    ensures r == ParseSet(parts, now)
  {
    if |parts| < 2 {
      return Err(InvalidCommand);
    }
    var key := parts[0];
    var value := parts[1];
    var expTime := NoExpiry;
    var isExists := false;
    var i := 2;
    while i < |parts|
      invariant 2 <= i <= |parts|
      invariant ParseOptions(parts, i, expTime, isExists, now) == ParseOptions(parts, 2, NoExpiry, false, now)
    {
      if parts[i] == "EX" {
        if i + 1 >= |parts| {
          return Err(InvalidCommand);
        }
        var parsed := ParseExpiry(parts[i + 1], now);
        if parsed.Err? {
          return Err(BadExpiry(parsed.error));
        }
        expTime := parsed.value;
        i := i + 1;
      } else if parts[i] == "NX" {
        isExists := false;
      } else if parts[i] == "XX" {
        isExists := true;
      } else {
        return Err(InvalidCommand);
      }
      i := i + 1;
    }
    return Ok(SetRequest(key, value, expTime, isExists));
  }

  /** Options parsed up to the end of `parts` carry on unchanged into any continuation. */
  lemma {:induction false} OptionsAppend(parts: seq<string>, more: seq<string>, i: nat,
                                         expTime: int, isExists: bool, now: int, t: int, f: bool)
    requires Tokens(parts) && Tokens(parts + more) && i <= |parts|
    requires ParseOptions(parts, i, expTime, isExists, now) == Ok((t, f))
    ensures ParseOptions(parts + more, i, expTime, isExists, now) == ParseOptions(parts + more, |parts|, t, f, now)
    decreases |parts| - i
  {
    if i < |parts| {
      var all := parts + more;
      var token := parts[i];
      assert all[i] == token;
      if token == "EX" {
        assert all[i + 1] == parts[i + 1];
        var e := ParseExpiry(parts[i + 1], now).value;
        OptionsAppend(parts, more, i + 2, e, isExists, now, t, f);
      } else if token == "NX" {
        OptionsAppend(parts, more, i + 1, expTime, false, now, t, f);
      } else {
        OptionsAppend(parts, more, i + 1, expTime, true, now, t, f);
      }
    }
  }

  lemma ParseSetAppend(parts: seq<string>, more: seq<string>, now: int)
    requires Tokens(parts) && Tokens(parts + more)
    requires ParseSet(parts, now).Ok?
    ensures var req := ParseSet(parts, now).value;
      ParseSet(parts + more, now) == match ParseOptions(parts + more, |parts|, req.expTime, req.isExists, now)
        case Err(e) => Err(e)
        case Ok((t, f)) => Ok(req.(expTime := t, isExists := f))
  {
    assert (parts + more)[0] == parts[0] && (parts + more)[1] == parts[1];
    var req := ParseSet(parts, now).value;
    OptionsAppend(parts, more, 2, NoExpiry, false, now, req.expTime, req.isExists);
  }

  /** Of repeated NX and XX options the last one decides the flag. */
  lemma LastFlagWins(parts: seq<string>, now: int)
    requires Tokens(parts) && ParseSet(parts, now).Ok?
    ensures ParseSet(parts + ["NX"], now) == Ok(ParseSet(parts, now).value.(isExists := false))
    ensures ParseSet(parts + ["XX"], now) == Ok(ParseSet(parts, now).value.(isExists := true))
  {
    ParseSetAppend(parts, ["NX"], now);
    ParseSetAppend(parts, ["XX"], now);
  }

  /**
   * A further EX option replaces the expiry with its own when it parses,
   * and otherwise rejects the command with the parser's error.
   */
  lemma LastExpiryWins(parts: seq<string>, arg: string, now: int)
    requires Tokens(parts) && |arg| > 0 && ParseSet(parts, now).Ok?
    ensures ParseExpiry(arg, now).Ok? ==>
      ParseSet(parts + ["EX", arg], now) == Ok(ParseSet(parts, now).value.(expTime := ParseExpiry(arg, now).value))
    ensures ParseExpiry(arg, now).Err? ==>
      ParseSet(parts + ["EX", arg], now) == Err(BadExpiry(ParseExpiry(arg, now).error))
  {
    ParseSetAppend(parts, ["EX", arg], now);
    var all := parts + ["EX", arg];
    assert all[|parts|] == "EX" && all[|parts| + 1] == arg;
  }

  /**
   * An EX argument that does not parse rejects the command with the parser's
   * error, whatever tokens follow it.
   */
  lemma BadExpiryRejectsWhateverFollows(parts: seq<string>, arg: string, more: seq<string>, now: int)
    requires Tokens(parts) && |arg| > 0 && Tokens(more) && ParseSet(parts, now).Ok?
    requires ParseExpiry(arg, now).Err?
    ensures ParseSet(parts + ["EX", arg] + more, now) == Err(BadExpiry(ParseExpiry(arg, now).error))
  {
    var all := parts + ["EX", arg] + more;
    assert all == parts + (["EX", arg] + more);
    ParseSetAppend(parts, ["EX", arg] + more, now);
    assert all[|parts|] == "EX" && all[|parts| + 1] == arg;
  }

  /**
   * EX as the last token, or any token other than EX, NX or XX (lower case
   * included), makes the command invalid, whatever tokens follow it.
   */
  lemma BadOptionRejected(parts: seq<string>, option: string, more: seq<string>, now: int)
    requires Tokens(parts) && |option| > 0 && Tokens(more) && ParseSet(parts, now).Ok?
    requires option !in ["NX", "XX"]
    requires option == "EX" ==> more == []
    ensures ParseSet(parts + [option] + more, now) == Err(InvalidCommand)
  {
    var all := parts + [option] + more;
    assert all == parts + ([option] + more);
    ParseSetAppend(parts, [option] + more, now);
    assert all[|parts|] == option;
  }

  /** QPUSH: the command name must match and there must be a key and at least one value. */
  function ParseQPush(cmd: string, args: seq<string>): (r: Result<PushRequest, CmdError>)
    ensures r.Ok? <==> cmd == "QPUSH" && |args| >= 2
    ensures r.Err? ==> r.error == InvalidCommand
    ensures r.Ok? ==> [r.value.key] + r.value.values == args && |r.value.values| > 0
  {
    if cmd != "QPUSH" then Err(InvalidCommand)
    else if |args| < 2 then Err(InvalidCommand)
    else Ok(PushRequest(args[0], args[1..]))
  }

  /** QPOP: only the command name is checked; the key is passed on as given. */
  function ParseQPop(cmd: string, key: string): (r: Result<string, CmdError>)
    ensures r.Ok? <==> cmd == "QPOP"
    ensures r.Ok? ==> r.value == key
    ensures r.Err? ==> r.error == InvalidCommand
  {
    if cmd != "QPOP" then Err(InvalidCommand) else Ok(key)
  }

  /** The HTTP statuses the handlers answer with. */
  datatype Status = OK | Created | BadRequest | NotFound | Conflict | InternalServerError

  predicate HasPrefix(s: string, prefix: string)
  {
    |prefix| <= |s| && s[..|prefix|] == prefix
  }

  /** Which of the prefixes the handlers test each store error's message starts with. */
  lemma MessagePrefixes(e: StoreError)
    ensures e.KeyAlreadyExists? ==> HasPrefix(Message(e), "key already exists")
    ensures e == InvalidExpiryTime ==>
      !HasPrefix(Message(e), "key already exists") && HasPrefix(Message(e), "invalid expiry time")
    ensures e == KeyNotFound ==>
      HasPrefix(Message(e), "key not found")
      && !HasPrefix(Message(e), "key already exists") && !HasPrefix(Message(e), "invalid expiry time")
  {
    var msg := Message(e);
    match e
    case KeyAlreadyExists(key) =>
      assert msg[..18] == "key already exists";
    case InvalidExpiryTime =>
      assert msg[0] != "key already exists"[0];
      assert msg[..19] == "invalid expiry time";
    case KeyNotFound =>
      assert msg[..13] == "key not found";
  }

  /**
   * The SET handler's status, chosen from the error's message text: each
   * error setValue returns gets its own status.
   */
  function SetStatus(err: Option<StoreError>): (status: Status)
    ensures err.None? <==> status == Created
    ensures err.Some? && err.value.KeyAlreadyExists? ==> status == Conflict
    ensures err == Some(InvalidExpiryTime) ==> status == BadRequest
    ensures err == Some(KeyNotFound) ==> status == InternalServerError
  {
    if err.None? then Created
    else
      MessagePrefixes(err.value);
      if HasPrefix(Message(err.value), "key already exists") then Conflict
      else if HasPrefix(Message(err.value), "invalid expiry time") then BadRequest
      else InternalServerError
  }

  /** The GET handler's status, chosen from the error's message text: "key not found" is NotFound. */
  function GetStatus(r: Result<string, StoreError>): (status: Status)
    ensures r.Ok? <==> status == OK
    ensures r == Err(KeyNotFound) ==> status == NotFound
  {
    if r.Ok? then OK
    else
      MessagePrefixes(r.error);
      if HasPrefix(Message(r.error), "key not found") then NotFound
      else InternalServerError
  }

  /** Every outcome of a SET that reaches the store gets its intended status. */
  lemma SetStatusOfStore(m: Data, key: string, value: string, expTime: int, isExists: bool, now: int)
    ensures var s := Set(m, key, value, expTime, isExists, now);
      && (s.out.None? <==> SetStatus(s.out) == Created)
      && (key in m && isExists <==> SetStatus(s.out) == Conflict)
      && (SetStatus(s.out) == BadRequest <==> s.out == Some(InvalidExpiryTime))
  {
  }

  /** A GET answers NotFound exactly when the key is absent or expired. */
  lemma GetStatusOfStore(m: Data, key: string, now: int)
    ensures var g := Get(m, key, now);
      && (GetStatus(g.out) == NotFound <==> key !in m || Expired(m[key], now))
      && (GetStatus(g.out) == OK <==> !(key !in m || Expired(m[key], now)))
  {
  }

  /** The QPOP handler's reply. */
  datatype PopReply = PopValue(value: string) | QueueEmpty | QueueNotFound

  /**
   * The QPOP handler as written: it receives the value first and answers
   * "not found or empty" whenever that value is "", whatever `ok` says.
   */
  function PopReplyAsWritten(value: string, ok: bool): (r: PopReply)
    ensures r == QueueNotFound <==> value == ""
    ensures value != "" && ok ==> r == PopValue(value)
    ensures value != "" && !ok ==> r == QueueEmpty
  {
    if value == "" then QueueNotFound
    else if !ok then QueueEmpty
    else PopValue(value)
  }

  /** The reply decided by `ok`, which is what qPop's pair encodes. */
  function PopReplyOf(value: string, ok: bool): (r: PopReply)
    ensures r == QueueNotFound <==> !ok
    ensures ok ==> r == PopValue(value)
  {
    if !ok then QueueNotFound else PopValue(value)
  }

  /** As written, popping a queued "" removes it and still answers "not found or empty". */
  lemma PopReplyAsWrittenDropsEmptyValue()
    ensures var s := Pop(map["q" := Entry("", NoExpiry, false, [""])], "q");
      && s.out.1
      && s.data["q"].queue == []
      && PopReplyAsWritten(s.out.0, s.out.1) == QueueNotFound
  {
  }

  /** Decided by `ok`, the reply is "not found" exactly when nothing was popped, and otherwise the head. */
  lemma PopReplyMatchesQueue(m: Data, key: string)
    ensures var s := Pop(m, key);
      && (PopReplyOf(s.out.0, s.out.1) == QueueNotFound <==> |QueueOf(m, key)| == 0)
      && (|QueueOf(m, key)| > 0 ==> PopReplyOf(s.out.0, s.out.1) == PopValue(m[key].queue[0]))
  {
  }
}
