/** SASL PLAIN over AUTHENTICATE lines: reassembly of the chunks and the verdict on the whole. */
module Sasl {
  import opened Names
  import opened Strings

  const MAX_CHUNK := 400

  /** `base64.StdEncoding.DecodeString`, uninterpreted. */
  const DECODE: string -> Option<string>

  /** The account store's verdict on a name and a password, uninterpreted. */
  const VERIFY: (string, string) -> bool

  datatype State = State(started: bool, buffer: string, authcid: string)

  const INITIAL := State(false, "", "")

  datatype Verdict = BadEncoding | BadBlob | IdMismatch | BadPassword | Accepted(authcid: string)

  /** What one AUTHENTICATE line leads to. */
  datatype Outcome =
    | Aborted
    | Challenged
    | UnknownMechanism
    | TooLong
    | Stored
    | Judged(text: string, verdict: Verdict)

  function Judge(text: string): Verdict {
    match DECODE(text)
    case None => BadEncoding
    case Some(data) =>
      var tokens := Split(data, '\0');
      if |tokens| != 3 then BadBlob
      else if tokens[1] != "" && tokens[1] != tokens[0] then IdMismatch
      else if !VERIFY(tokens[0], tokens[2]) then BadPassword
      else Accepted(tokens[0])
  }

  /** Only a bad encoding and a success clear the exchange; the other failures leave it as it is. */
  function Conclude(state: State, verdict: Verdict): State {
    match verdict
    case BadEncoding => INITIAL
    case Accepted(authcid) => State(false, "", authcid)
    case _ => state
  }

  function Receive(state: State, arg: string): (State, Outcome) {
    if arg == "*" then (state, Aborted)
    else if !state.started then
      if arg == "PLAIN" then (state.(started := true), Challenged) else (state, UnknownMechanism)
    else if Bytes(arg) > MAX_CHUNK then (state, TooLong)
    else if Bytes(arg) == MAX_CHUNK then (state.(buffer := state.buffer + arg), Stored)
    else
      var text := if arg != "+" then state.buffer + arg else state.buffer;
      (Conclude(state.(buffer := text), Judge(text)), Judged(text, Judge(text)))
  }

  /** The mutable exchange of one client. */
  class SaslState {
    var started: bool
    var buffer: string
    var authcid: string

    function Value(): State
      reads this
    {
      State(started, buffer, authcid)
    }

    constructor ()
      ensures Value() == INITIAL
    {
      started, buffer, authcid := false, "", "";
    }

    method Reset()
      modifies this
      ensures Value() == INITIAL
    {
      started := false;
      buffer := "";
      authcid := "";
    }

    method Start()
      modifies this
      ensures Value() == old(Value()).(started := true)
    {
      started := true;
    }

    method WriteString(data: string)
      modifies this
      ensures Value() == old(Value()).(buffer := old(buffer) + data)
    {
      buffer := buffer + data;
    }

    method Login(id: string)
      modifies this
      ensures Value() == State(false, "", id)
    {
      started := false;
      buffer := "";
      authcid := id;
    }

    /** The handler of AUTHENTICATE for an authorized client. */
    method Authenticate(arg: string) returns (outcome: Outcome)
      modifies this
      ensures (Value(), outcome) == Receive(old(Value()), arg)
    {
      if arg == "*" {
        return Aborted;
      }
      if !started {
        if arg == "PLAIN" {
          Start();
          return Challenged;
        }
        return UnknownMechanism;
      }
      if Bytes(arg) > MAX_CHUNK {
        return TooLong;
      }
      if Bytes(arg) == MAX_CHUNK {
        WriteString(arg);
        return Stored;
      }
      if arg != "+" {
        WriteString(arg);
      }
      outcome := Judged(buffer, Judge(buffer));
      match outcome.verdict {
        case BadEncoding => Reset();
        case Accepted(id) => Login(id);
        case _ =>
      }
    }
  }

  // ------------------------------------------------------------------- the verdict

  /** The decoded text is the name, the name to act for (the same or none), and a password that belongs to the name. */
  ghost predicate Credentials(text: string, id: string, authz: string, password: string) {
    && DECODE(text) == Some(id + "\0" + authz + "\0" + password)
    && '\0' !in id && '\0' !in authz && '\0' !in password
    && (authz == "" || authz == id)
    && VERIFY(id, password)
  }

  /** A text is accepted for a name exactly if it carries credentials for it. */
  lemma AcceptedExactly(text: string, id: string)
    ensures Judge(text) == Accepted(id) <==> exists authz, password :: Credentials(text, id, authz, password)
  {
    hide Split, Join;
    if Judge(text) == Accepted(id) {
      var data := DECODE(text).value;
      var tokens := Split(data, '\0');
      SplitIsUndone(data, '\0');
      JoinThree(tokens[0], tokens[1], tokens[2]);
      assert tokens == [tokens[0], tokens[1], tokens[2]];
      assert Credentials(text, id, tokens[1], tokens[2]);
    }
    if authz, password :| Credentials(text, id, authz, password) {
      SplitThree(id, authz, password, '\0');
    }
  }

  /** Whoever is logged in by a line has sent credentials with it and the chunks before it. */
  lemma LoggedInWith(state: State, arg: string) returns (id: string, authz: string, password: string)
    requires Receive(state, arg).1.Judged? && Receive(state, arg).1.verdict.Accepted?
    ensures Credentials(state.buffer + if arg == "+" then "" else arg, id, authz, password)
    ensures Receive(state, arg).0.authcid == id
  {
    hide Judge, Credentials;
    var Judged(text, verdict) := Receive(state, arg).1;
    id := verdict.authcid;
    assert text == state.buffer + if arg == "+" then "" else arg;
    AcceptedExactly(text, id);
    authz, password :| Credentials(text, id, authz, password);
  }

  lemma JoinThree(x: string, y: string, z: string)
    ensures Join([x, y, z], "\0") == x + "\0" + y + "\0" + z
  {
    assert [x, y, z][1..] == [y, z] && [y, z][1..] == [z];
    assert Join([y, z], "\0") == y + "\0" + z;
    assert (x + "\0") + (y + "\0" + z) == x + "\0" + y + "\0" + z;
  }

  /**
   * Section 2 of RFC 4616 puts the name to act for first, and lets it be empty. For such a message the verdict is
   * the standard's exactly unless the name to act for is left out and the credentials are right: then they are refused.
   */
  lemma StandardPlainExactly(text: string, authz: string, id: string, password: string)
    requires DECODE(text) == Some(authz + "\0" + id + "\0" + password) && id != ""
    requires '\0' !in authz && '\0' !in id && '\0' !in password
    ensures var standard := VERIFY(id, password) && (authz == "" || authz == id);
            (Judge(text).Accepted? <==> standard) <==> !(authz == "" && VERIFY(id, password))
  {
    hide Split;
    SplitThree(authz, id, password, '\0');
  }

  /** The state and the outcomes after a sequence of lines. */
  function ReceiveAll(state: State, args: seq<string>): (State, seq<Outcome>)
    decreases |args|
  {
    if args == [] then (state, [])
    else
      var (next, outcome) := Receive(state, args[0]);
      var (last, outcomes) := ReceiveAll(next, args[1..]);
      (last, [outcome] + outcomes)
  }

  /** How a client sends a text: full chunks, then a short chunk, or `+` if nothing is left. */
  function Chunks(text: string): seq<string> {
    if |text| >= MAX_CHUNK then [text[..MAX_CHUNK]] + Chunks(text[MAX_CHUNK..])
    else if text == "" then ["+"]
    else [text]
  }

  /** All chunks are stored and the last one has `text` judged, nothing else. */
  ghost predicate Delivered(state: State, text: string) {
    var outcomes := ReceiveAll(state, Chunks(text)).1;
    && outcomes != []
    && (forall i :: 0 <= i < |outcomes| - 1 ==> outcomes[i] == Stored)
    && outcomes[|outcomes| - 1] == Judged(state.buffer + text, Judge(state.buffer + text))
  }

  /** The short last chunk is one of the two sentinels. */
  predicate EndsInSentinel(text: string) {
    |text| % MAX_CHUNK == 1 && text[|text| - 1] in "+*"
  }

  lemma FullChunkStored(state: State, chunk: string)
    requires state.started && Ascii(chunk) && |chunk| == MAX_CHUNK
    ensures Receive(state, chunk) == (state.(buffer := state.buffer + chunk), Stored)
  {
    hide Judge;
    AsciiBytes(chunk);
  }

  /** A full chunk in front changes nothing about the delivery of the rest. */
  lemma FullChunkFirst(state: State, head: string, tail: string)
    requires state.started && Ascii(head) && |head| == MAX_CHUNK
    ensures Delivered(state, head + tail) <==> Delivered(state.(buffer := state.buffer + head), tail)
  {
    hide Judge, Receive, ReceiveAll, Ascii;
    FullChunkStored(state, head);
    var text, next := head + tail, state.(buffer := state.buffer + head);
    assert text[..MAX_CHUNK] == head && text[MAX_CHUNK..] == tail;
    assert next.buffer + tail == state.buffer + text;
    ReceiveFirst(state, head, Chunks(tail));
    var rest, all := ReceiveAll(next, Chunks(tail)).1, ReceiveAll(state, Chunks(text)).1;
    assert all == [Stored] + rest;
    assert forall i :: 0 <= i < |rest| ==> rest[i] == all[i + 1];
  }

  lemma ShortChunkAlone(state: State, text: string)
    requires state.started && Ascii(text) && |text| < MAX_CHUNK
    ensures Delivered(state, text) <==> text !in ["+", "*"]
  {
    AsciiBytes(text);
    var chunk := Chunks(text)[0];
    ReceiveFirst(state, chunk, []);
    assert ReceiveAll(state, [chunk]).1 == [Receive(state, chunk).1];
    assert state.buffer + "" == state.buffer;
    assert |state.buffer + text| == |state.buffer| + |text|;
  }

  /** Chunking is undone exactly unless a lone `+` or `*` is left for the last chunk. */
  lemma {:induction false} ChunksDelivered(state: State, text: string)
    requires state.started && Ascii(text)
    ensures Delivered(state, text) <==> !EndsInSentinel(text)
    decreases |text|
  {
    hide Delivered;
    if |text| < MAX_CHUNK {
      ShortChunkAlone(state, text);
      if |text| == 1 {
        assert text == [text[0]];
      }
    } else {
      var head, tail := text[..MAX_CHUNK], text[MAX_CHUNK..];
      assert text == head + tail;
      FullChunkFirst(state, head, tail);
      ChunksDelivered(state.(buffer := state.buffer + head), tail);
      assert |text| % MAX_CHUNK == |tail| % MAX_CHUNK;
    }
  }

  lemma ReceiveFirst(state: State, arg: string, args: seq<string>)
    ensures ReceiveAll(state, [arg] + args).1
         == [Receive(state, arg).1] + ReceiveAll(Receive(state, arg).0, args).1
  {
  }

  /** Base64 text has a length divisible by four, so for it the round trip always holds. */
  lemma Base64Delivered(state: State, text: string)
    requires state.started && state.buffer == "" && Ascii(text) && |text| % 4 == 0
    ensures Delivered(state, text)
  {
    ChunksDelivered(state, text);
    assert !EndsInSentinel(text) by {
      assert |text| == MAX_CHUNK * (|text| / MAX_CHUNK) + |text| % MAX_CHUNK;
    }
  }

  /** A fresh exchange over any number of chunks logs in exactly with the right password. */
  lemma PlainLogsInExactly(text: string, id: string, password: string)
    requires Ascii(text) && |text| % 4 == 0
    requires DECODE(text) == Some(id + "\0" + "\0" + password) && '\0' !in id && '\0' !in password
    ensures var outcomes := ReceiveAll(INITIAL, ["PLAIN"] + Chunks(text)).1;
            && outcomes != []
            && (outcomes[|outcomes| - 1] == Judged(text, Accepted(id)) <==> VERIFY(id, password))
  {
    hide Split, ReceiveAll, Chunks, Ascii;
    var started := State(true, "", "");
    ReceiveFirst(INITIAL, "PLAIN", Chunks(text));
    Base64Delivered(started, text);
    assert "" + text == text;
    assert id + "\0" + "" + "\0" + password == id + "\0" + "\0" + password;
    SplitThree(id, "", password, '\0');
  }

  // ---------------------------------------------------------------- trying again

  /** The verdicts after which the exchange is over; after the others it goes on with its buffer as it is. */
  predicate Ends(verdict: Verdict) {
    verdict.BadEncoding? || verdict.Accepted?
  }

  /** The last of the lines has exactly `text` judged. */
  ghost predicate JudgedAlone(state: State, args: seq<string>, text: string) {
    var outcomes := ReceiveAll(state, args).1;
    outcomes != [] && outcomes[|outcomes| - 1] == Judged(text, Judge(text))
  }

  lemma AfterVerdict(state: State, arg: string)
    requires Receive(state, arg).1.Judged?
    ensures var Judged(judged, verdict) := Receive(state, arg).1;
            var next := Receive(state, arg).0;
            if Ends(verdict) then !next.started && next.buffer == "" else next.started && next.buffer == judged
  {
  }

  /** Sending chunks again after a failure that does not end the exchange has them judged after the old text. */
  lemma RetryIsAppended(state: State, arg: string, text: string)
    requires Receive(state, arg).1.Judged? && !Ends(Receive(state, arg).1.verdict)
    requires Ascii(text) && !EndsInSentinel(text)
    ensures var judged := Receive(state, arg).1.text;
            var next := Receive(state, arg).0;
            && JudgedAlone(next, Chunks(text), judged + text)
            && (JudgedAlone(next, Chunks(text), text) <==> judged == "")
  {
    hide Receive, ReceiveAll, Chunks, Ascii, EndsInSentinel, Judge;
    AfterVerdict(state, arg);
    var judged, next := Receive(state, arg).1.text, Receive(state, arg).0;
    ChunksDelivered(next, text);
    if judged == "" {
      assert judged + text == text;
    } else {
      assert |judged + text| != |text|;
    }
  }

  /** Without a started exchange, no chunk is judged. */
  lemma {:induction false} NothingIsJudged(state: State, text: string)
    requires !state.started && Ascii(text)
    ensures var outcomes := ReceiveAll(state, Chunks(text)).1;
            outcomes != [] && !outcomes[|outcomes| - 1].Judged?
    decreases |text|
  {
    if |text| < MAX_CHUNK {
      ReceiveFirst(state, Chunks(text)[0], []);
    } else {
      var head, tail := text[..MAX_CHUNK], text[MAX_CHUNK..];
      ReceiveFirst(state, head, Chunks(tail));
      NothingIsJudged(state, tail);
    }
  }

  /**
   * A client that starts anew after a verdict, with PLAIN and its chunks, has its text judged alone exactly if the
   * verdict was a success or a bad encoding: otherwise PLAIN itself is taken for a chunk.
   */
  lemma RetryExactly(state: State, arg: string, text: string)
    requires Receive(state, arg).1.Judged? && Ascii(text) && !EndsInSentinel(text)
    ensures var next, verdict := Receive(state, arg).0, Receive(state, arg).1.verdict;
            JudgedAlone(next, ["PLAIN"] + Chunks(text), text) <==> Ends(verdict)
  {
    hide ReceiveAll, Chunks, EndsInSentinel, Judge;
    AfterVerdict(state, arg);
    var next := Receive(state, arg).0;
    var later := Receive(next, "PLAIN").0;
    ReceiveFirst(next, "PLAIN", Chunks(text));
    PlainIsShort();
    if later.started {
      ChunksDelivered(later, text);
      assert Ends(Receive(state, arg).1.verdict) ==> later.buffer + text == text;
      assert later.buffer != "" ==> |later.buffer + text| != |text|;
    } else {
      NothingIsJudged(later, text);
    }
  }

  lemma PlainIsShort()
    ensures Bytes("PLAIN") == 5
  {
    AsciiBytes("PLAIN");
  }

  /** A started exchange is needed for the buffer to hold anything. */
  predicate Consistent(state: State) {
    state.buffer != "" ==> state.started
  }

  lemma ReceiveConsistent(state: State, arg: string)
    requires Consistent(state)
    ensures Consistent(Receive(state, arg).0)
  {
  }
}
