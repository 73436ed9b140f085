/** Streaming callables: an incremental reader of `data:` lines, and the one-shot reading of the whole
    text that it refines, however the text is cut into chunks. */
module CallableStream {
  import opened Wrappers
  import opened Json
  import Text

  datatype StreamError =
    | InvalidJson
    | ServerError(body: Json)
    | BadResult(body: Json)
    | Interrupted
    | NoResult

  /** JSON parsing and the decoding of a final result. */
  datatype Codec<!Response> = Codec(parse: string -> Option<Json>, decode: Json -> Option<Response>)

  type Final<Response> = Result<Response, StreamError>

  // ----- One line -----

  datatype Effect<Response> =
    | Nothing
    | SetResult(result: Final<Response>)
    | Deliver(message: Json)
    | Fail(error: StreamError)

  const PREFIX := "data:"

  function Trimmed(s: string): string {
    Text.Trim(s, Text.WhiteSpace)
  }

  /** What a trimmed line means; fields other than `data` and data of no known shape mean nothing. */
  function Classify<Response>(codec: Codec<Response>, line: string): Effect<Response> {
    if !(PREFIX <= line) then Nothing
    else
      var data := Trimmed(line[|PREFIX|..]);
      if data == "" then Nothing
      else match codec.parse(data)
           case None => Fail(InvalidJson)
           case Some(json) =>
             if !json.Obj? then Nothing
             else if "result" in json.fields then
               (match codec.decode(json.fields["result"])
                case Some(response) => SetResult(Ok(response))
                case None => SetResult(Err(BadResult(json.fields["result"]))))
             else if "message" in json.fields then Deliver(json.fields["message"])
             else if "error" in json.fields then Fail(ServerError(json))
             else Nothing
  }

  /** What a raw line means. */
  function Read<Response>(codec: Codec<Response>, raw: string): Effect<Response> {
    Classify(codec, Trimmed(raw))
  }

  // ----- The whole text at once -----

  /** What follows the text: the end of the body, a transport error, or nothing that will be read
      because the stream is finished. */
  datatype Ending = Complete | Broken | Stopped

  /** The messages in order, the error that ended the stream if one did, and the final result. */
  datatype Transcript<Response> = Transcript(messages: seq<Json>, error: Option<StreamError>,
      result: Option<Final<Response>>)

  function OrElse<Response>(result: Option<Final<Response>>, error: StreamError): Option<Final<Response>> {
    if result.Some? then result else Some(Err(error))
  }

  function OrFailed<Response>(result: Option<Final<Response>>, error: StreamError): Option<Final<Response>> {
    if error.ServerError? then Some(Err(error)) else result
  }

  function After<Response>(effect: Effect<Response>, result: Option<Final<Response>>): Option<Final<Response>> {
    if effect.SetResult? then Some(effect.result) else result
  }

  /** Takes line after line up to the first error. Only a complete body has its last, unterminated
      line read. */
  function Digest<Response>(lines: seq<Effect<Response>>, ending: Ending,
      result: Option<Final<Response>>): Transcript<Response>
    requires lines != []
  {
    if |lines| == 1 && ending.Broken? then Transcript([], Some(Interrupted), OrElse(result, Interrupted))
    else if |lines| == 1 && ending.Stopped? then Transcript([], None, result)
    else
      match lines[0]
      case Fail(error) => Transcript([], Some(error), OrFailed(result, error))
      case effect =>
        var rest := if |lines| == 1 then Transcript([], None, After(effect, result))
                    else Digest(lines[1..], ending, After(effect, result));
        rest.(messages := (if effect.Deliver? then [effect.message] else []) + rest.messages)
  }

  /** The meanings of the pieces between newlines; the last piece is unterminated. */
  function Meanings<Response>(codec: Codec<Response>, text: string): (lines: seq<Effect<Response>>)
    ensures lines != []
  {
    ReadAll(codec, Text.Split(text, '\n'))
  }

  function ReadAll<Response>(codec: Codec<Response>, pieces: seq<string>): (lines: seq<Effect<Response>>)
    ensures |lines| == |pieces|
  {
    if pieces == [] then [] else [Read(codec, pieces[0])] + ReadAll(codec, pieces[1..])
  }

  function OneShot<Response>(codec: Codec<Response>, text: string, ending: Ending,
      result: Option<Final<Response>>): Transcript<Response> {
    Digest(Meanings(codec, text), ending, result)
  }

  /** What the consumer of a whole stream gets. */
  function FinalOf<Response>(t: Transcript<Response>): Final<Response> {
    if t.error.Some? then Err(t.error.value)
    else if t.result.Some? then t.result.value
    else Err(NoResult)
  }

  // ----- One pull -----

  datatype Outcome = Delivered(message: Json) | Done | Failed(error: StreamError)

  datatype Pulled<Response> = Pulled(outcome: Outcome, rest: seq<Effect<Response>>, result: Option<Final<Response>>,
      finished: bool)

  /** The next message of a stream whose unread lines mean `lines`. */
  function Pull<Response>(lines: seq<Effect<Response>>, ending: Ending,
      result: Option<Final<Response>>): (p: Pulled<Response>)
    requires lines != []
    ensures p.rest != [] && (ending.Stopped? ==> p.finished)
    ensures p.outcome.Delivered? ==>
            |p.rest| < |lines| || (|lines| == 1 && p.rest == [Nothing] && p.finished && !ending.Stopped?)
    ensures p.outcome.Done? ==> p.finished
    ensures p.outcome.Failed? && p.outcome.error.ServerError? ==> p.finished
  {
    if |lines| > 1 then
      match lines[0]
      case Nothing => Pull(lines[1..], ending, result)
      case SetResult(r) => Pull(lines[1..], ending, Some(r))
      case Deliver(message) => Pulled(Delivered(message), lines[1..], result, ending.Stopped?)
      case Fail(error) =>
        Pulled(Failed(error), lines[1..], OrFailed(result, error), ending.Stopped? || error.ServerError?)
    else PullLast(lines[0], ending, result)
  }

  function PullLast<Response>(last: Effect<Response>, ending: Ending,
      result: Option<Final<Response>>): (p: Pulled<Response>) {
    match ending
    case Stopped => Pulled(Done, [last], result, true)
    case Broken => Pulled(Failed(Interrupted), [last], OrElse(result, Interrupted), true)
    case Complete =>
      match last
      case Nothing => Pulled(Done, [Nothing], result, true)
      case SetResult(r) => Pulled(Done, [Nothing], Some(r), true)
      case Deliver(message) => Pulled(Delivered(message), [Nothing], result, true)
      case Fail(error) => Pulled(Failed(error), [Nothing], OrFailed(result, error), true)
  }

  lemma PullFirst<Response>(first: Effect<Response>, rest: seq<Effect<Response>>, ending: Ending,
      result: Option<Final<Response>>)
    requires rest != []
    ensures Pull([first] + rest, ending, result) ==
            if first.Deliver? then Pulled(Delivered(first.message), rest, result, ending.Stopped?)
            else if first.Fail? then
              Pulled(Failed(first.error), rest, OrFailed(result, first.error),
                     ending.Stopped? || first.error.ServerError?)
            else Pull(rest, ending, After(first, result))
  {
    assert ([first] + rest)[1..] == rest;
  }

  /** Pulling until the end or the first error. */
  function Session<Response>(lines: seq<Effect<Response>>, ending: Ending,
      result: Option<Final<Response>>): Transcript<Response>
    requires lines != []
    decreases |lines|, if ending.Stopped? then 0 else 1
  {
    var pulled := Pull(lines, ending, result);
    match pulled.outcome
    case Done => Transcript([], None, pulled.result)
    case Failed(error) => Transcript([], Some(error), pulled.result)
    case Delivered(message) =>
      var rest := Session(pulled.rest, if pulled.finished then Stopped else ending, pulled.result);
      rest.(messages := [message] + rest.messages)
  }

  lemma PullStopped<Response>(line: Effect<Response>, result: Option<Final<Response>>)
    ensures Pull([line], Stopped, result) == Pulled(Done, [line], result, true)
  {}

  lemma SessionStep<Response>(lines: seq<Effect<Response>>, ending: Ending, result: Option<Final<Response>>)
    requires lines != []
    ensures var p := Pull(lines, ending, result);
            match p.outcome
            case Done => Session(lines, ending, result) == Transcript([], None, p.result)
            case Failed(error) => Session(lines, ending, result) == Transcript([], Some(error), p.result)
            case Delivered(message) =>
              var rest := Session(p.rest, if p.finished then Stopped else ending, p.result);
              Session(lines, ending, result) == rest.(messages := [message] + rest.messages)
  {}

  /** Pulling message by message reads exactly what the one-shot parse reads. */
  lemma {:induction false} SessionIsDigest<Response>(lines: seq<Effect<Response>>, ending: Ending,
      result: Option<Final<Response>>)
    requires lines != []
    ensures Session(lines, ending, result) == Digest(lines, ending, result)
    decreases |lines|
  {
    if |lines| > 1 {
      match lines[0]
      case Nothing => SessionIsDigest(lines[1..], ending, result);
      case SetResult(r) => SessionIsDigest(lines[1..], ending, Some(r));
      case Deliver(message) => SessionIsDigest(lines[1..], ending, result);
      case Fail(error) =>
    }
  }

  // ----- The reader -----

  function Concat(chunks: seq<string>): string {
    if chunks == [] then "" else chunks[0] + Concat(chunks[1..])
  }

  predicate NoNewline(s: string) {
    forall k | 0 <= k < |s| :: s[k] != '\n'
  }

  lemma FirstLine<Response>(codec: Codec<Response>, raw: string, rest: string, later: string)
    requires NoNewline(raw)
    ensures Meanings(codec, raw + ['\n'] + rest + later) == [Read(codec, raw)] + Meanings(codec, rest + later)
  {
    assert raw + ['\n'] + rest + later == raw + ['\n'] + (rest + later);
    Text.SplitFirst(raw, '\n', rest + later);
  }

  lemma LastLine<Response>(codec: Codec<Response>, s: string)
    requires NoNewline(s)
    ensures Meanings(codec, s) == [Read(codec, s)]
  {
    Text.SplitWhole(s, '\n');
  }

  lemma EmptyLine<Response>(codec: Codec<Response>)
    ensures Classify(codec, "") == Read(codec, "") == Nothing
  {}

  class CallableStream<Response> {
    const codec: Codec<Response>
    /** Whether the body ends with a transport error. */
    const broken: bool
    var body: seq<string>
    var buffer: string
    var finished: bool
    var result: Option<Final<Response>>

    /** The text buffered or still to come. */
    ghost function Pending(): string
      reads this
    {
      buffer + Concat(body)
    }

    /** The text that will be read: a finished stream only drains its buffer. */
    ghost function Unread(): string
      reads this
    {
      if finished then buffer else Pending()
    }

    ghost function Mode(): Ending
      reads this
    {
      if finished then Stopped else if broken then Broken else Complete
    }

    constructor (codec: Codec<Response>, body: seq<string>, broken: bool)
      ensures this.codec == codec && this.broken == broken
      ensures Unread() == Concat(body) && !finished && result.None?
    {
      this.codec, this.broken, this.body := codec, broken, body;
      buffer, finished, result := "", false, None;
    }

    method ProcessLine(line: string) returns (effect: Effect<Response>)
      modifies this`finished, this`result
      ensures effect == Classify(codec, line)
      ensures result == if effect.Fail? then OrFailed(old(result), effect.error) else After(effect, old(result))
      ensures finished == (old(finished) || (effect.Fail? && effect.error.ServerError?))
    {
      effect := Classify(codec, line);
      match effect
      case SetResult(r) => result := Some(r);
      case Fail(error) =>
        if error.ServerError? {
          finished, result := true, Some(Err(error));
        }
      case _ =>
    }

    /** Reads buffered lines until one ends the call or none is left. */
    method DrainLines() returns (outcome: Option<Outcome>)
      modifies this`buffer, this`finished, this`result
      ensures var whole := Pull(Meanings(codec, old(Unread())), old(Mode()), old(result));
              match outcome
              case None =>
                NoNewline(buffer) && finished == old(finished)
                && Pull(Meanings(codec, Unread()), Mode(), result) == whole
              case Some(o) =>
                Pulled(o, Meanings(codec, if old(finished) then buffer else Pending()), result, finished) == whole
                && (o.Delivered? ==> finished == old(finished))
    {
      hide Classify, Trimmed;
      ghost var later, mode := if finished then "" else Concat(body), Mode();
      ghost var whole := Pull(Meanings(codec, Unread()), mode, result);
      assert Unread() == buffer + later by { assert buffer + "" == buffer; }
      var newline := Text.Find(buffer, '\n');
      while newline < |buffer|
        invariant 0 <= newline <= |buffer|
        invariant NoNewline(buffer[..newline]) && (newline < |buffer| ==> buffer[newline] == '\n')
        invariant finished == old(finished) && Unread() == buffer + later
        invariant Pull(Meanings(codec, buffer + later), mode, result) == whole
        decreases |buffer|
      {
        var raw, rest := buffer[..newline], buffer[newline+1..];
        assert buffer == raw + ['\n'] + rest;
        FirstLine(codec, raw, rest, later);
        PullFirst(Read(codec, raw), Meanings(codec, rest + later), mode, result);
        buffer := rest;
        assert Unread() == buffer + later by { assert buffer + "" == buffer; }
        var effect := ProcessLine(Trimmed(raw));
        match effect {
          case Deliver(message) => return Some(Delivered(message));
          case Fail(error) => return Some(Failed(error));
          case _ =>
        }
        newline := Text.Find(buffer, '\n');
      }
      assert buffer[..newline] == buffer;
      return None;
    }

    /** The next message. The contract speaks of the unread text alone, not of how it is chunked. */
    method NextMessage() returns (outcome: Outcome)
      modifies this`body, this`buffer, this`finished, this`result
      ensures Pulled(outcome, Meanings(codec, if old(finished) then buffer else Pending()), result, finished)
           == Pull(Meanings(codec, old(Unread())), old(Mode()), old(result))
      ensures outcome.Delivered? ==> Unread() == if old(finished) then buffer else Pending()
      ensures old(finished) || outcome.Done? ==> finished
      ensures outcome.Failed? && outcome.error.ServerError? ==> finished
    {
      hide Pull, Meanings, Classify, Trimmed;
      ghost var whole := Pull(Meanings(codec, Unread()), Mode(), result);
      while true
        invariant finished == old(finished)
        invariant Pull(Meanings(codec, Unread()), Mode(), result) == whole
        decreases |body|
      {
        var drained := DrainLines();
        if drained.Some? {
          return drained.value;
        }
        if finished {
          LastLine(codec, buffer);
          PullStopped(Read(codec, buffer), result);
          return Done;
        }
        if body != [] {
          assert Pending() == (buffer + body[0]) + Concat(body[1..]);
          buffer, body := buffer + body[0], body[1..];
        } else {
          outcome := FinishBody();
          return;
        }
      }
    }

    /** The body has ended and no complete line is left. */
    method FinishBody() returns (outcome: Outcome)
      requires !finished && body == [] && NoNewline(buffer)
      modifies this`buffer, this`finished, this`result
      ensures Pulled(outcome, Meanings(codec, Pending()), result, finished)
           == Pull(Meanings(codec, old(Unread())), old(Mode()), old(result))
      ensures buffer == "" || outcome.Failed?
    {
      assert Pending() == buffer;
      LastLine(codec, buffer);
      LastLine(codec, "");
      EmptyLine(codec);
      finished := true;
      if broken {
        result := OrElse(result, Interrupted);
        return Failed(Interrupted);
      }
      var trailing := Trimmed(buffer);
      buffer := "";
      assert Pending() == "";
      if trailing != "" {
        var effect := ProcessLine(trailing);
        match effect {
          case Deliver(message) => return Delivered(message);
          case Fail(error) => return Failed(error);
          case _ =>
        }
      }
      return Done;
    }

    /** What is still to come, read at once. */
    ghost function ToCome(): Transcript<Response>
      reads this
    {
      Session(Meanings(codec, Unread()), Mode(), result)
    }

    ghost function LinesLeft(): nat
      reads this
    {
      |Meanings(codec, Unread())|
    }

    /** One message off what is to come, or its end. */
    method Advance() returns (outcome: Outcome)
      modifies this`body, this`buffer, this`finished, this`result
      ensures match outcome
              case Done => old(ToCome()) == Transcript([], None, result)
              case Failed(error) => old(ToCome()) == Transcript([], Some(error), result)
              case Delivered(message) =>
                old(ToCome()) == ToCome().(messages := [message] + ToCome().messages)
                && (LinesLeft() < old(LinesLeft()) || (LinesLeft() == old(LinesLeft()) && finished && !old(finished)))
    {
      SessionStep(Meanings(codec, Unread()), Mode(), result);
      outcome := NextMessage();
    }

    /** Consumes the stream. What comes out is the one-shot reading of its text, however chunked. */
    method Result() returns (r: Final<Response>, ghost messages: seq<Json>)
      modifies this
      ensures var t := OneShot(codec, old(Unread()), old(Mode()), old(result));
              r == FinalOf(t) && messages == t.messages
    {
      hide Classify, Trimmed;
      ghost var whole := ToCome();
      assert whole == OneShot(codec, Unread(), Mode(), result) by {
        SessionIsDigest(Meanings(codec, Unread()), Mode(), result);
      }
      messages := [];
      while true
        invariant whole == ToCome().(messages := messages + ToCome().messages)
        decreases LinesLeft(), if finished then 0 else 1
      {
        ghost var before := messages;
        var outcome := Advance();
        match outcome {
          case Delivered(message) =>
            messages := messages + [message];
            assert before + ([message] + ToCome().messages) == messages + ToCome().messages;
          case Failed(error) => return Err(error), messages;
          case Done => return if result.Some? then result.value else Err(NoResult), messages;
        }
      }
    }
  }
}
