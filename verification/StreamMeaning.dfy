/** What a streaming callable says: the text a server writes, and what its reader makes of it. */
module StreamMeaning {
  import opened Wrappers
  import opened Json
  import opened Text
  import opened CallableStream

  /** A line of the body: a message, the result or an error; other JSON, data that is no JSON, a comment
      or another field, a blank line, a data line without data. */
  datatype Said =
    | Message(m: Json)
    | Answer(v: Json)
    | Failure(e: Json)
    | Other(json: Json)
    | Garbled(text: string)
    | Comment(text: string)
    | Blank(n: nat)
    | NoData(n: nat)

  predicate Visible(c: char) {
    '!' <= c <= '~'
  }

  /** Something on one line that starts and ends with a visible character. */
  predicate Printable(s: string) {
    s != "" && Visible(s[0]) && Visible(s[|s|-1]) && NoNewline(s)
  }

  /** The codec parses what `show` writes. */
  ghost predicate Undoes<R>(codec: Codec<R>, show: Json -> string) {
    forall j :: Printable(show(j)) && codec.parse(show(j)) == Some(j)
  }

  function Spaces(n: nat): string {
    seq(n, i => ' ')
  }

  function Line(show: Json -> string, said: Said): string {
    match said
    case Message(m) => "data: " + show(Obj(map["message" := m]))
    case Answer(v) => "data: " + show(Obj(map["result" := v]))
    case Failure(e) => "data: " + show(Obj(map["error" := e]))
    case Other(json) => "data: " + show(json)
    case Garbled(text) => "data: " + text
    case Comment(text) => text
    case Blank(n) => Spaces(n)
    case NoData(n) => "data:" + Spaces(n)
  }

  ghost predicate Sayable<R>(codec: Codec<R>, said: Said) {
    match said
    case Other(json) =>
      json.Obj? ==> "result" !in json.fields && "message" !in json.fields && "error" !in json.fields
    case Garbled(text) => Printable(text) && codec.parse(text).None?
    case Comment(text) => Printable(text) && !("data:" <= text)
    case _ => true
  }

  /** How lines may be padded at the end; a carriage return is usual. */
  predicate Padding(pad: string) {
    forall c | c in pad :: c == ' ' || c == '\t' || c == '\r'
  }

  /** The lines, each with its newline. */
  function TextOf(show: Json -> string, pad: string, said: seq<Said>): string {
    if said == [] then "" else Line(show, said[0]) + pad + "\n" + TextOf(show, pad, said[1..])
  }

  function MessagesOf(said: seq<Said>): seq<Json> {
    if said == [] then [] else (if said[0].Message? then [said[0].m] else []) + MessagesOf(said[1..])
  }

  /** The last answer counts; one that cannot be decoded is an error. */
  function ResultOf<R>(codec: Codec<R>, said: seq<Said>): Option<Result<R, StreamError>> {
    if said == [] then None
    else
      match said[|said|-1]
      case Answer(v) => Some(match codec.decode(v) case Some(x) => Ok(x) case None => Err(BadResult(v)))
      case _ => ResultOf(codec, said[..|said|-1])
  }

  /** No line ends the stream early. */
  predicate GoesOn(said: seq<Said>) {
    forall s | s in said :: !s.Failure? && !s.Garbled?
  }

  // ----- One line -----

  function EffectOf<R>(codec: Codec<R>, said: Said): Effect<R> {
    match said
    case Message(m) => Deliver(m)
    case Answer(v) => SetResult(match codec.decode(v) case Some(x) => Ok(x) case None => Err(BadResult(v)))
    case Failure(e) => Fail(ServerError(Obj(map["error" := e])))
    case Garbled(_) => Fail(InvalidJson)
    case _ => Nothing
  }

  lemma DataLine<R>(codec: Codec<R>, data: string, pad: string)
    requires Printable(data) && Padding(pad)
    ensures Trimmed("data: " + data + pad) == "data: " + data
    ensures Trimmed(("data: " + data)[5..]) == data
  {
    TrimPadded("", "data: " + data, pad, WhiteSpace);
    assert "" + ("data: " + data) + pad == "data: " + data + pad;
    TrimPadded(" ", data, "", WhiteSpace);
    assert ("data: " + data)[5..] == " " + data + "";
  }

  lemma OneLine<R>(codec: Codec<R>, show: Json -> string, said: Said, pad: string)
    requires Undoes(codec, show) && Sayable(codec, said) && Padding(pad)
    ensures NoNewline(Line(show, said) + pad)
  {
    var data := match said
                case Message(m) => show(Obj(map["message" := m]))
                case Answer(v) => show(Obj(map["result" := v]))
                case Failure(e) => show(Obj(map["error" := e]))
                case Other(json) => show(json)
                case Garbled(text) => text
                case Comment(text) => text
                case Blank(n) => Spaces(n)
                case NoData(n) => Spaces(n);
    var front := if said.Comment? || said.Blank? then "" else if said.NoData? then "data:" else "data: ";
    assert NoNewline(data) && NoNewline(front);
    assert Line(show, said) + pad == front + data + pad;
    assert forall k | 0 <= k < |pad| :: pad[k] in pad;
  }

  /** A data line with JSON on it. */
  lemma JsonLineMeans<R>(codec: Codec<R>, data: string, json: Json, pad: string)
    requires Printable(data) && Padding(pad) && codec.parse(data) == Some(json)
    ensures Read(codec, "data: " + data + pad) ==
            if json.Obj? && "result" in json.fields then EffectOf(codec, Answer(json.fields["result"]))
            else if json.Obj? && "message" in json.fields then Deliver(json.fields["message"])
            else if json.Obj? && "error" in json.fields then Fail(ServerError(json))
            else Nothing
  {
    DataLine(codec, data, pad);
    hide Trimmed;
  }

  lemma LineMeans<R>(codec: Codec<R>, show: Json -> string, said: Said, pad: string)
    requires Undoes(codec, show) && Sayable(codec, said) && Padding(pad)
    ensures Read(codec, Line(show, said) + pad) == EffectOf(codec, said)
  {
    match said
    case Message(m) => JsonLineMeans(codec, show(Obj(map["message" := m])), Obj(map["message" := m]), pad);
    case Answer(v) => JsonLineMeans(codec, show(Obj(map["result" := v])), Obj(map["result" := v]), pad);
    case Failure(e) => JsonLineMeans(codec, show(Obj(map["error" := e])), Obj(map["error" := e]), pad);
    case Other(json) => JsonLineMeans(codec, show(json), json, pad);
    case _ => PlainLineMeans(codec, show, said, pad);
  }

  lemma PlainLineMeans<R>(codec: Codec<R>, show: Json -> string, said: Said, pad: string)
    requires said.Garbled? || said.Comment? || said.Blank? || said.NoData?
    requires Sayable(codec, said) && Padding(pad)
    ensures Read(codec, Line(show, said) + pad) == EffectOf(codec, said)
  {
    hide TrimStart, TrimEnd, Trim;
    match said
    case Garbled(text) => DataLine(codec, text, pad);
    case Comment(text) =>
      TrimPadded("", text, pad, WhiteSpace);
      assert "" + text + pad == text + pad;
    case Blank(n) =>
      TrimPadded(Spaces(n), "", pad, WhiteSpace);
      assert Spaces(n) + "" + pad == Spaces(n) + pad;
    case NoData(n) =>
      TrimPadded("", "data:", Spaces(n) + pad, WhiteSpace);
      assert "" + "data:" + (Spaces(n) + pad) == "data:" + Spaces(n) + pad;
      TrimPadded("", "", "", WhiteSpace);
      assert "data:"[5..] == "" + "" + "";
  }

  // ----- All lines -----

  function EffectsOf<R>(codec: Codec<R>, said: seq<Said>): seq<Effect<R>> {
    if said == [] then [] else [EffectOf(codec, said[0])] + EffectsOf(codec, said[1..])
  }

  ghost predicate AllSayable<R>(codec: Codec<R>, said: seq<Said>) {
    forall s | s in said :: Sayable(codec, s)
  }

  lemma {:induction false} TextMeans<R>(codec: Codec<R>, show: Json -> string, pad: string, said: seq<Said>,
      last: string)
    requires Undoes(codec, show) && AllSayable(codec, said) && Padding(pad) && NoNewline(last)
    ensures Meanings(codec, TextOf(show, pad, said) + last) == EffectsOf(codec, said) + [Read(codec, last)]
    decreases |said|
  {
    if said == [] {
      LastLine(codec, last);
      assert TextOf(show, pad, said) + last == last;
    } else {
      assert said[0] in said && forall s | s in said[1..] :: s in said;
      var raw, rest := Line(show, said[0]) + pad, TextOf(show, pad, said[1..]);
      OneLine(codec, show, said[0], pad);
      LineMeans(codec, show, said[0], pad);
      TextMeans(codec, show, pad, said[1..], last);
      FirstLine(codec, raw, rest, last);
      assert TextOf(show, pad, said) + last == raw + ['\n'] + rest + last;
    }
  }

  function ResultFrom<R>(codec: Codec<R>, said: seq<Said>, result: Option<Final<R>>): Option<Final<R>> {
    if ResultOf(codec, said).Some? then ResultOf(codec, said) else result
  }

  lemma {:induction false} ResultStep<R>(codec: Codec<R>, said: seq<Said>, result: Option<Final<R>>)
    requires said != []
    ensures ResultFrom(codec, said, result)
         == ResultFrom(codec, said[1..], After(EffectOf(codec, said[0]), result))
    decreases |said|
  {
    var n := |said| - 1;
    if n > 0 {
      assert said[1..][|said[1..]|-1] == said[n] && said[1..][..|said[1..]|-1] == said[..n][1..];
      if !said[n].Answer? { ResultStep(codec, said[..n], result); }
    } else {
      assert said[..0] == [] && said[1..] == [];
    }
  }

  /** Lines that go on, before whatever comes. */
  lemma {:induction false} DigestGoesOn<R>(codec: Codec<R>, said: seq<Said>, rest: seq<Effect<R>>, ending: Ending,
      result: Option<Final<R>>)
    requires GoesOn(said) && rest != []
    ensures var t := Digest(rest, ending, ResultFrom(codec, said, result));
            Digest(EffectsOf(codec, said) + rest, ending, result) == t.(messages := MessagesOf(said) + t.messages)
    decreases |said|
  {
    if said == [] {
      assert EffectsOf(codec, said) + rest == rest;
    } else {
      assert said[0] in said && forall s | s in said[1..] :: s in said;
      ResultStep(codec, said, result);
      var effect := EffectOf(codec, said[0]);
      DigestGoesOn(codec, said[1..], rest, ending, After(effect, result));
      DigestStep(effect, EffectsOf(codec, said[1..]) + rest, ending, result);
      assert EffectsOf(codec, said) + rest == [effect] + (EffectsOf(codec, said[1..]) + rest);
      var t := Digest(rest, ending, ResultFrom(codec, said, result));
      var first := if said[0].Message? then [said[0].m] else [];
      Regroup(first, MessagesOf(said[1..]), t.messages);
    }
  }

  lemma DigestStep<R>(effect: Effect<R>, rest: seq<Effect<R>>, ending: Ending, result: Option<Final<R>>)
    requires rest != [] && !effect.Fail?
    ensures var t := Digest(rest, ending, After(effect, result));
            Digest([effect] + rest, ending, result) ==
            t.(messages := (if effect.Deliver? then [effect.message] else []) + t.messages)
  {
    assert ([effect] + rest)[1..] == rest;
  }

  /** A body that ends well, its last line with or without a newline: all messages in order and the last
      answer. One that breaks off: what its complete lines say, and the interruption. */
  lemma StreamSays<R>(codec: Codec<R>, show: Json -> string, pad: string, said: seq<Said>, last: Said)
    requires Undoes(codec, show) && AllSayable(codec, said + [last]) && Padding(pad) && GoesOn(said + [last])
    ensures var text := TextOf(show, pad, said) + Line(show, last) + pad;
            && OneShot(codec, text, Complete, None)
               == Transcript(MessagesOf(said + [last]), None, ResultOf(codec, said + [last]))
            && OneShot(codec, text, Broken, None)
               == Transcript(MessagesOf(said), Some(Interrupted),
                             if ResultOf(codec, said).Some? then ResultOf(codec, said) else Some(Err(Interrupted)))
            && FinalOf(OneShot(codec, text, Broken, None)) == Err(Interrupted)
            && FinalOf(OneShot(codec, text, Complete, None))
               == var r := ResultOf(codec, said + [last]); if r.Some? then r.value else Err(NoResult)
  {
    assert last in said + [last] && forall s | s in said :: s in said + [last];
    OneLine(codec, show, last, pad);
    LineMeans(codec, show, last, pad);
    TextMeans(codec, show, pad, said, Line(show, last) + pad);
    assert TextOf(show, pad, said) + (Line(show, last) + pad) == TextOf(show, pad, said) + Line(show, last) + pad;
    LinesSay(codec, said, last);
    hide Line, TextOf, Undoes, Sayable, EffectOf, EffectsOf, Meanings, Digest, ResultOf, MessagesOf;
  }

  lemma LinesSay<R>(codec: Codec<R>, said: seq<Said>, last: Said)
    requires GoesOn(said + [last])
    ensures var lines := EffectsOf(codec, said) + [EffectOf(codec, last)];
            && Digest(lines, Complete, None)
               == Transcript(MessagesOf(said + [last]), None, ResultOf(codec, said + [last]))
            && Digest(lines, Broken, None)
               == Transcript(MessagesOf(said), Some(Interrupted),
                             if ResultOf(codec, said).Some? then ResultOf(codec, said) else Some(Err(Interrupted)))
  {
    assert last in said + [last] && forall s | s in said :: s in said + [last];
    DigestGoesOn(codec, said, [EffectOf(codec, last)], Complete, None);
    DigestGoesOn(codec, said, [EffectOf(codec, last)], Broken, None);
    MessagesSplit(said, last);
    assert (said + [last])[..|said|] == said;
    hide EffectsOf, MessagesOf;
  }

  lemma {:induction false} MessagesSplit(said: seq<Said>, last: Said)
    ensures MessagesOf(said + [last]) == MessagesOf(said) + if last.Message? then [last.m] else []
    decreases |said|
  {
    if said == [] {
      assert said + [last] == [last] && [last][1..] == [];
    } else {
      assert (said + [last])[1..] == said[1..] + [last] && (said + [last])[0] == said[0];
      MessagesSplit(said[1..], last);
      Regroup(if said[0].Message? then [said[0].m] else [], MessagesOf(said[1..]),
          if last.Message? then [last.m] else []);
    }
  }

  /** The first line that ends the stream: the messages before it, then its error, whatever follows. */
  lemma StreamFails<R>(codec: Codec<R>, show: Json -> string, pad: string, said: seq<Said>, bad: Said, more: string,
      ending: Ending)
    requires Undoes(codec, show) && AllSayable(codec, said + [bad]) && Padding(pad) && GoesOn(said)
    requires bad.Failure? || bad.Garbled?
    ensures var error := if bad.Failure? then ServerError(Obj(map["error" := bad.e])) else InvalidJson;
            OneShot(codec, TextOf(show, pad, said + [bad]) + more, ending, None) ==
            Transcript(MessagesOf(said), Some(error),
                       if bad.Failure? then Some(Err(error)) else ResultOf(codec, said))
            && FinalOf(OneShot(codec, TextOf(show, pad, said + [bad]) + more, ending, None)) == Err(error)
  {
    assert bad in said + [bad] && forall s | s in said :: s in said + [bad];
    OneLine(codec, show, bad, pad);
    LineMeans(codec, show, bad, pad);
    TextSplit(codec, show, pad, said, bad, more);
    DigestGoesOn(codec, said, [EffectOf(codec, bad)] + Meanings(codec, more), ending, None);
  }

  lemma {:induction false} TextSplit<R>(codec: Codec<R>, show: Json -> string, pad: string, said: seq<Said>,
      bad: Said, more: string)
    requires Undoes(codec, show) && AllSayable(codec, said + [bad]) && Padding(pad)
    ensures Meanings(codec, TextOf(show, pad, said + [bad]) + more)
         == EffectsOf(codec, said) + ([EffectOf(codec, bad)] + Meanings(codec, more))
    decreases |said|
  {
    var first, all := if said == [] then bad else said[0], said + [bad];
    assert all[0] == first && first in all && forall s | s in all[1..] :: s in all;
    var raw, rest := Line(show, first) + pad, TextOf(show, pad, all[1..]);
    OneLine(codec, show, first, pad);
    LineMeans(codec, show, first, pad);
    FirstLine(codec, raw, rest, more);
    assert TextOf(show, pad, all) + more == raw + ['\n'] + rest + more;
    if said == [] {
      assert all[1..] == [] && rest + more == more;
    } else {
      assert all[1..] == said[1..] + [bad];
      TextSplit(codec, show, pad, said[1..], bad, more);
    }
  }

  /** The usual stream: messages, each on its line, and the result. */
  lemma UsualStream<R>(codec: Codec<R>, show: Json -> string, messages: seq<Json>, result: Json, response: R)
    requires Undoes(codec, show) && codec.decode(result) == Some(response)
    ensures var said := seq(|messages|, i requires 0 <= i < |messages| => Message(messages[i]));
            var t := OneShot(codec, TextOf(show, "", said + [Answer(result)]), Complete, None);
            t.messages == messages && FinalOf(t) == Ok(response)
  {
    var said := seq(|messages|, i requires 0 <= i < |messages| => Message(messages[i]));
    var all := said + [Answer(result)];
    StreamSays(codec, show, "", all, Blank(0));
    assert TextOf(show, "", all) + Line(show, Blank(0)) + "" == TextOf(show, "", all);
    AllMessages(messages);
    MessagesSplit(said, Answer(result));
    MessagesSplit(all, Blank(0));
    assert (all + [Blank(0)])[..|all|] == all;
  }

  lemma {:induction false} AllMessages(messages: seq<Json>)
    ensures MessagesOf(seq(|messages|, i requires 0 <= i < |messages| => Message(messages[i]))) == messages
  {
    var said := seq(|messages|, i requires 0 <= i < |messages| => Message(messages[i]));
    if messages != [] {
      AllMessages(messages[1..]);
      assert said[1..] == seq(|messages[1..]|, i requires 0 <= i < |messages[1..]| => Message(messages[1..][i]));
    }
  }
}
