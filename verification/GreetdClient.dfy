/**
  The authentication conversation of the greeter with greetd, whatever the other side answers and
  wherever the connection breaks.
*/
module GreetdClient {
  import opened Wrappers
  import opened JsonValues
  import opened GreetdFrames

  datatype Request = Create(user: string) | PostPassword(password: string) | PostEmpty | Start | Cancel
  datatype Event = Asked(request: Request) | Answered(message: Message) | Broke(failure: Failure)
  datatype SendOutcome = Sent | SendTimesOut | SendBreaks(written: nat)

  // A result, or an exception no handler expects.
  datatype Outcome = Result(success: bool, category: string) | Raised
  datatype Next = Done(outcome: Outcome) | GoOn(message: Message)
  datatype Login = Login(user: string, password: string)

  // What a conversation calls for: one more request, or its end.
  datatype Wanted = Send(request: Request) | End(outcome: Outcome)

  function MessageOf(r: Request): Message {
    match r
    case Create(user) => map["type" := String("create_session"), "username" := String(user)]
    case PostPassword(password) => map["type" := String("post_auth_message_response"), "response" := String(password)]
    case PostEmpty => map["type" := String("post_auth_message_response")]
    case Start =>
      map["type" := String("start_session"), "env" := Array([]),
          "cmd" := Array([String("/usr/bin/uwsm"), String("start"), String("-e"), String("-D"), String("Luminophore"),
                          String("luminophore.desktop")])]
    case Cancel => map["type" := String("cancel_session")]
  }

  predicate IsSuccess(m: Message) {
    Field(m, "type") == String("success")
  }

  predicate IsPrompt(m: Message, kinds: set<string>) {
    Field(m, "type") == String("auth_message")
    && Field(m, "auth_message_type").String? && Field(m, "auth_message_type").text in kinds
  }

  // ----- conversations ------------------------------------------------------------------------------

  predicate EndsInSuccess(t: seq<Event>) {
    t != [] && t[|t| - 1].Answered? && IsSuccess(t[|t| - 1].message)
  }

  predicate EndsInRequest(t: seq<Event>) {
    t != [] && t[|t| - 1].Asked?
  }

  // The last event is what came of that request.
  predicate Follows(t: seq<Event>, r: Request) {
    |t| >= 2 && t[|t| - 2] == Asked(r) && !t[|t| - 1].Asked?
  }

  predicate PasswordAsked(t: seq<Event>) {
    t != [] && ((t[|t| - 1].Asked? && t[|t| - 1].request.PostPassword?) || PasswordAsked(t[..|t| - 1]))
  }

  predicate HasAsked(t: seq<Event>, r: Request) {
    t != [] && (t[|t| - 1] == Asked(r) || HasAsked(t[..|t| - 1], r))
  }

  // Why a session that has to be cancelled failed.
  function Category(t: seq<Event>): string
    requires t != [] && !EndsInRequest(t)
  {
    match t[|t| - 1]
    case Broke(Timeout) => "timeout"
    case Broke(Disconnected) => "disconnected"
    case Broke(Protocol(category)) => category
    case Broke(Unexpected) => ""
    case Answered(m) =>
      if Follows(t, Start) then "start_failed"
      else if Field(m, "type") != String("error") then "unsupported_prompt"
      else if Field(m, "error_type") == String("auth_error") then "auth_error" else "greetd_error"
  }

  // Success starts the session, prompts are answered, the password once; everything else is cancelled,
  // unless nobody expects it.  Nothing follows a cancellation or a session that was started.
  function WantedAfter(t: seq<Event>, login: Login): Wanted
    requires !EndsInRequest(t)
  {
    if t == [] then Send(Create(login.user))
    else if t[|t| - 1] == Broke(Unexpected) then End(Raised)
    else if Follows(t, Cancel) then
      End(Result(false, if EndsInRequest(t[..|t| - 2]) || |t| == 2 then "" else Category(t[..|t| - 2])))
    else if t[|t| - 1].Broke? then Send(Cancel)
    else
      var m := t[|t| - 1].message;
      if Follows(t, Start) then if IsSuccess(m) then End(Result(true, "")) else Send(Cancel)
      else if IsSuccess(m) then Send(Start)
      else if IsPrompt(m, {"secret"}) && !PasswordAsked(t) then Send(PostPassword(login.password))
      else if IsPrompt(m, {"info", "error"}) then Send(PostEmpty)
      else Send(Cancel)
  }

  predicate IsConversation(t: seq<Event>, login: Login) {
    t == [] || (
      var before := t[..|t| - 1];
      && IsConversation(before, login)
      && (if EndsInRequest(before) then !EndsInRequest(t)
          else EndsInRequest(t) && WantedAfter(before, login) == Send(t[|t| - 1].request)))
  }

  // The request to start the session was answered with success.
  predicate StartAnswered(t: seq<Event>) {
    |t| >= 2 && ((t[|t| - 2] == Asked(Start) && EndsInSuccess(t)) || StartAnswered(t[..|t| - 1]))
  }

  predicate Surprised(t: seq<Event>) {
    t != [] && (t[|t| - 1] == Broke(Unexpected) || Surprised(t[..|t| - 1]))
  }

  lemma {:induction false} PrefixIsConversation(t: seq<Event>, login: Login, i: nat)
    requires IsConversation(t, login) && i < |t|
    ensures IsConversation(t[..i], login)
    ensures t[i].Asked? ==> !EndsInRequest(t[..i]) && WantedAfter(t[..i], login) == Send(t[i].request)
  {
    if i < |t| - 1 {
      PrefixIsConversation(t[..|t| - 1], login, i);
      assert t[..|t| - 1][..i] == t[..i];
    }
  }

  lemma {:induction false} AskedBefore(t: seq<Event>, i: nat)
    requires i < |t| && t[i].Asked?
    ensures HasAsked(t, t[i].request)
    ensures t[i].request.PostPassword? ==> PasswordAsked(t)
  {
    if i < |t| - 1 {
      AskedBefore(t[..|t| - 1], i);
    }
  }

  // Once asked to cancel, the client asks nothing more; once asked to start, nothing but to cancel.
  lemma {:induction false} CancelEnds(t: seq<Event>, login: Login)
    requires IsConversation(t, login) && HasAsked(t, Cancel)
    ensures t[|t| - 1] == Asked(Cancel) || Follows(t, Cancel)
  {
    if t[|t| - 1] != Asked(Cancel) {
      CancelEnds(t[..|t| - 1], login);
    }
  }

  lemma {:induction false} StartNearlyEnds(t: seq<Event>, login: Login)
    requires IsConversation(t, login) && HasAsked(t, Start)
    ensures t[|t| - 1] == Asked(Start) || Follows(t, Start) || HasAsked(t, Cancel)
  {
    if t[|t| - 1] != Asked(Start) {
      StartNearlyEnds(t[..|t| - 1], login);
    }
  }

  // The password goes out at most once, as it was given, and only in answer to a secret prompt.
  lemma PasswordOnce(t: seq<Event>, login: Login, i: nat)
    requires IsConversation(t, login) && i < |t| && t[i].Asked? && t[i].request.PostPassword?
    ensures i > 0 && t[i - 1].Answered? && IsPrompt(t[i - 1].message, {"secret"})
      && t[i].request.password == login.password
    ensures forall j :: 0 <= j < |t| && t[j].Asked? && t[j].request.PostPassword? ==> j == i
  {
    PrefixIsConversation(t, login, i);
    forall j | 0 <= j < |t| && t[j].Asked? && t[j].request.PostPassword? ensures j == i {
      PrefixIsConversation(t, login, j);
      if j < i {
        AskedBefore(t[..i], j);
      } else if i < j {
        AskedBefore(t[..j], i);
      }
    }
  }

  lemma NoSecondStart(t: seq<Event>, login: Login)
    requires IsConversation(t, login) && HasAsked(t, Start) && !EndsInRequest(t)
    ensures WantedAfter(t, login) != Send(Start)
  {
    StartNearlyEnds(t, login);
    if HasAsked(t, Cancel) { CancelEnds(t, login); }
  }

  // The session is started at most once, and only after success.
  lemma StartOnce(t: seq<Event>, login: Login, i: nat)
    requires IsConversation(t, login) && i < |t| && t[i] == Asked(Start)
    ensures i > 0 && t[i - 1].Answered? && IsSuccess(t[i - 1].message)
    ensures forall j :: 0 <= j < |t| && t[j] == Asked(Start) ==> j == i
  {
    PrefixIsConversation(t, login, i);
    forall j | 0 <= j < |t| && t[j] == Asked(Start) ensures j == i {
      PrefixIsConversation(t, login, j);
      if j < i {
        AskedBefore(t[..i], j);
        NoSecondStart(t[..i], login);
      } else if i < j {
        AskedBefore(t[..j], i);
        NoSecondStart(t[..j], login);
      }
    }
  }

  lemma {:induction false} AnsweredStartIsLast(t: seq<Event>, login: Login)
    requires IsConversation(t, login) && StartAnswered(t)
    ensures Follows(t, Start) && EndsInSuccess(t)
  {
    if !(t[|t| - 2] == Asked(Start) && EndsInSuccess(t)) {
      AnsweredStartIsLast(t[..|t| - 1], login);
    }
  }

  lemma {:induction false} SurpriseIsLast(t: seq<Event>, login: Login)
    requires IsConversation(t, login) && Surprised(t)
    ensures t[|t| - 1] == Broke(Unexpected)
  {
    if t[|t| - 1] != Broke(Unexpected) {
      SurpriseIsLast(t[..|t| - 1], login);
    }
  }

  // How a conversation ends: with success exactly if the request to start the session was answered with
  // success, with an exception exactly if something came that nobody expects, and otherwise with an
  // attempt to cancel that comes last and does not hide why.
  lemma ConversationsEndWell(t: seq<Event>, login: Login, o: Outcome)
    requires IsConversation(t, login) && t != [] && !EndsInRequest(t) && WantedAfter(t, login) == End(o)
    ensures o == Result(true, "") <==> StartAnswered(t)
    ensures o == Raised <==> Surprised(t)
    ensures o.Result? && !o.success ==>
      && Follows(t, Cancel) && |t| > 2 && !EndsInRequest(t[..|t| - 2])
      && IsConversation(t[..|t| - 2], login) && o.category == Category(t[..|t| - 2])
  {
    if StartAnswered(t) { AnsweredStartIsLast(t, login); }
    if Surprised(t) { SurpriseIsLast(t, login); }
    if Follows(t, Cancel) {
      PrefixIsConversation(t, login, |t| - 2);
    }
  }

  // One exchange continues a conversation.
  lemma Exchange(t: seq<Event>, login: Login, r: Request, e: Event)
    requires IsConversation(t, login) && !EndsInRequest(t) && WantedAfter(t, login) == Send(r) && !e.Asked?
    ensures var u := t + [Asked(r), e];
            IsConversation(u, login) && !EndsInRequest(u) && (PasswordAsked(u) <==> PasswordAsked(t) || r.PostPassword?)
    ensures var u := t + [Asked(r), e];
            u[..|u| - 2] == t && Follows(u, r) && u[|u| - 1] == e
  {
    var u := t + [Asked(r), e];
    var v := t + [Asked(r)];
    assert u[..|u| - 1] == v && v[..|v| - 1] == t;
    assert IsConversation(v, login);
    assert PasswordAsked(v) <==> PasswordAsked(t) || r.PostPassword?;
  }

  // The socket could not be connected.
  function OutcomeOf(f: Failure): Outcome {
    match f
    case Unexpected => Raised
    case Timeout => Result(false, "timeout")
    case Disconnected => Result(false, "disconnected")
    case Protocol(category) => Result(false, category)
  }

  // What a caller gets before anything is asked: no socket path, no usable name, no connection.
  function Refusal(path: string, user: string, connected: Option<Failure>): Option<Outcome> {
    if path == "" then Some(Result(false, "missing_socket"))
    else if user == "" || '\0' in user then Some(Result(false, "invalid_user"))
    else if connected.Some? then Some(OutcomeOf(connected.value))
    else None
  }

  function NextSend(sends: seq<SendOutcome>): SendOutcome {
    if sends == [] then Sent else sends[0]
  }

  // The bytes that came before, in front of what a receive gave.
  function Prepended(chunks: seq<Byte>, r: Received<seq<Byte>>): Received<seq<Byte>> {
    Received(if r.result.Ok? then Ok(chunks + r.result.value) else r.result, r.rest)
  }

  lemma PrependNothing(r: Received<seq<Byte>>)
    ensures Prepended([], r) == r
  {
    if r.result.Ok? { assert [] + r.result.value == r.result.value; }
  }

  // ----- the client ---------------------------------------------------------------------------------

  class Client {
    const codec: Codec
    const max: nat
    var incoming: seq<Arrival>
    var sends: seq<SendOutcome>
    var outgoing: seq<Byte>
    var busy: bool
    ghost var trace: seq<Event>  // of the last conversation, and
    ghost var login: Login       // what it was for

    constructor (codec: Codec, max: nat, incoming: seq<Arrival>, sends: seq<SendOutcome>)
      ensures this.codec == codec && this.max == max && this.incoming == incoming && this.sends == sends
      ensures !busy && trace == [] && outgoing == []
    {
      this.codec, this.max, this.incoming, this.sends := codec, max, incoming, sends;
      busy, trace, login, outgoing := false, [], Login("", ""), [];
    }

    method SendAll(frame: seq<Byte>) returns (failure: Option<Failure>)
      modifies this`sends, this`outgoing
      ensures failure == match NextSend(old(sends))
                         case Sent => None
                         case SendTimesOut => Some(Timeout)
                         case SendBreaks(_) => Some(Disconnected)
      ensures failure.None? ==> outgoing == old(outgoing) + frame
      ensures old(outgoing) <= outgoing <= old(outgoing) + frame
    {
      var o := NextSend(sends);
      if sends != [] {
        sends := sends[1..];
      }
      match o
      case Sent =>
        outgoing := outgoing + frame;
        failure := None;
      case SendTimesOut => failure := Some(Timeout);
      case SendBreaks(n) =>
        outgoing := outgoing + frame[..if n <= |frame| then n else |frame|];
        failure := Some(Disconnected);
    }

    method RecvExactly(size: nat) returns (r: Result<seq<Byte>, Failure>)
      modifies this`incoming
      ensures Received(r, incoming) == RecvExact(old(incoming), size)
    {
      var chunks: seq<Byte> := [];
      var remaining := size;
      PrependNothing(RecvExact(incoming, remaining));
      while remaining > 0
        invariant 0 <= remaining <= size
        invariant RecvExact(old(incoming), size) == Prepended(chunks, RecvExact(incoming, remaining))
        decreases remaining
      {
        if incoming == [] {
          return Err(Protocol("disconnected"));
        }
        var arrival := incoming[0];
        match arrival
        case TimesOut =>
          incoming := incoming[1..];
          return Err(Timeout);
        case Breaks =>
          incoming := incoming[1..];
          return Err(Disconnected);
        case Data(bytes) =>
          if bytes == [] {
            incoming := incoming[1..];
            return Err(Protocol("disconnected"));
          }
          ghost var before := incoming;
          var n := if |bytes| <= remaining then |bytes| else remaining;
          incoming := (if n < |bytes| then [Data(bytes[n..])] else []) + incoming[1..];
          OnePiece(before, remaining, chunks, n);
          chunks := chunks + bytes[..n];
          remaining := remaining - n;
      }
      assert chunks + [] == chunks;
      r := Ok(chunks);
    }

    lemma OnePiece(before: seq<Arrival>, remaining: nat, chunks: seq<Byte>, n: nat)
      requires remaining > 0 && before != [] && before[0].Data? && before[0].bytes != []
      requires n == if |before[0].bytes| <= remaining then |before[0].bytes| else remaining
      ensures var bytes := before[0].bytes;
              var after := (if n < |bytes| then [Data(bytes[n..])] else []) + before[1..];
              Prepended(chunks, RecvExact(before, remaining)) ==
                Prepended(chunks + bytes[..n], RecvExact(after, remaining - n))
    {
      var bytes := before[0].bytes;
      if n == |bytes| {
        WholePiece(before[1..], chunks, bytes, remaining - n);
      } else {
        assert chunks + bytes[..n] == chunks + bytes[..n] + [];
      }
    }

    lemma WholePiece(others: seq<Arrival>, chunks: seq<Byte>, bytes: seq<Byte>, size: nat)
      ensures [] + others == others && bytes[..|bytes|] == bytes
      ensures var more := RecvExact(others, size);
              more.result.Ok? ==> chunks + (bytes + more.result.value) == (chunks + bytes) + more.result.value
    {
    }

    method ReceiveFrame() returns (r: Result<Message, Failure>)
      modifies this`incoming
      ensures Received(r, incoming) == DecodeFrame(codec, old(incoming), max)
    {
      var header := RecvExactly(4);
      RecvNeverTruncates(old(incoming), 4);
      if header.Err? {
        return Err(header.error);
      }
      var n := Unpack(header.value);
      if n == 0 || n > max {
        return Err(Protocol("oversize_frame"));
      }
      var body := RecvExactly(n);
      r := if body.Err? then Err(body.error) else DecodePayload(codec, body.value);
    }

    ghost predicate Talking()
      reads this
    {
      IsConversation(trace, login) && !EndsInRequest(trace)
    }

    ghost function Calls(): Wanted
      requires Talking()
      reads this
    {
      WantedAfter(trace, login)
    }

    // One exchange: nothing is written if the request cannot be encoded; what was written completely is
    // answered by the next frame.
    method Ask(r: Request) returns (answer: Result<Message, Failure>)
      requires Talking() && Calls() == Send(r)
      modifies this`incoming, this`sends, this`outgoing, this`trace
      ensures Talking() && Follows(trace, r) && (PasswordAsked(trace) <==> PasswordAsked(old(trace)) || r.PostPassword?)
      ensures trace[..|trace| - 2] == old(trace) <= trace
      ensures trace[|trace| - 1] == if answer.Ok? then Answered(answer.value) else Broke(answer.error)
      ensures answer.Ok? ==> Validate(answer.value).None? && Bulk(incoming) < Bulk(old(incoming))
      ensures match Encode(codec, MessageOf(r), max)
              case Err(e) => answer == Err(e) && outgoing == old(outgoing) && incoming == old(incoming)
              case Ok(frame) =>
                if NextSend(old(sends)).Sent?
                then outgoing == old(outgoing) + frame
                  && Received(answer, incoming) == DecodeFrame(codec, old(incoming), max)
                else answer.Err? && old(outgoing) <= outgoing <= old(outgoing) + frame && incoming == old(incoming)
    {
      var frame := Encode(codec, MessageOf(r), max);
      if frame.Err? {
        answer := Err(frame.error);
      } else {
        var failure := SendAll(frame.value);
        if failure.Some? {
          answer := Err(failure.value);
        } else {
          DecodeUsesUp(codec, incoming, max);
          answer := ReceiveFrame();
        }
      }
      Exchange(trace, login, r, if answer.Ok? then Answered(answer.value) else Broke(answer.error));
      trace := trace + [Asked(r), if answer.Ok? then Answered(answer.value) else Broke(answer.error)];
    }

    // Takes the session back; whatever comes of it is ignored, unless nobody expects it.
    method CancelSession(category: string) returns (o: Outcome)
      requires Talking() && trace != [] && Calls() == Send(Cancel) && Category(trace) == category
      modifies this`incoming, this`sends, this`outgoing, this`trace
      ensures Talking() && old(trace) <= trace && Calls() == End(o)
    {
      var answer := Ask(Cancel);
      o := if answer == Err(Unexpected) then Raised else Result(false, category);
    }

    // A failure of an exchange ends the conversation with a cancellation, unless nobody expects it.
    method Fail(f: Failure) returns (o: Outcome)
      requires Talking() && trace != [] && trace[|trace| - 1] == Broke(f) && !Follows(trace, Cancel)
      modifies this`incoming, this`sends, this`outgoing, this`trace
      ensures Talking() && old(trace) <= trace && Calls() == End(o)
    {
      match f
      case Unexpected => o := Raised;
      case Timeout => o := CancelSession("timeout");
      case Disconnected => o := CancelSession("disconnected");
      case Protocol(category) => o := CancelSession(category);
    }

    method StartSession() returns (o: Outcome)
      requires Talking() && Calls() == Send(Start)
      modifies this`incoming, this`sends, this`outgoing, this`trace
      ensures Talking() && old(trace) <= trace && Calls() == End(o)
    {
      var answer := Ask(Start);
      if answer.Err? {
        o := Fail(answer.error);
      } else if IsSuccess(answer.value) {
        o := Result(true, "");
      } else {
        o := CancelSession("start_failed");
      }
    }

    // The conversation has ended, or goes on with an answer.
    ghost predicate Stands(next: Next)
      reads this
    {
      && Talking()
      && (next.Done? ==> Calls() == End(next.outcome))
      && (next.GoOn? ==> trace != [] && trace[|trace| - 1] == Answered(next.message)
                         && !Follows(trace, Start) && !Follows(trace, Cancel))
    }

    // Answers a prompt and goes on with what comes back.
    method Reply(r: Request) returns (next: Next)
      requires Talking() && Calls() == Send(r) && (r.PostPassword? || r == PostEmpty)
      modifies this`incoming, this`sends, this`outgoing, this`trace
      ensures Stands(next) && old(trace) <= trace
      ensures next.GoOn? ==>
        Bulk(incoming) < Bulk(old(incoming)) && (PasswordAsked(trace) <==> PasswordAsked(old(trace)) || r.PostPassword?)
    {
      var answer := Ask(r);
      if answer.Ok? {
        next := GoOn(answer.value);
      } else {
        var o := Fail(answer.error);
        next := Done(o);
      }
    }

    // One round of the conversation.
    method Round(m: Message, password: string, used: bool) returns (next: Next, usedNow: bool)
      requires Stands(GoOn(m)) && (used <==> PasswordAsked(trace)) && password == login.password
      modifies this`incoming, this`sends, this`outgoing, this`trace
      ensures Stands(next) && old(trace) <= trace
      ensures next.GoOn? ==> Bulk(incoming) < Bulk(old(incoming)) && (usedNow <==> PasswordAsked(trace))
    {
      usedNow := used;
      if IsSuccess(m) {
        var o := StartSession();
        next := Done(o);
      } else if Field(m, "type") == String("error") {
        var o := CancelSession(if Field(m, "error_type") == String("auth_error") then "auth_error" else "greetd_error");
        next := Done(o);
      } else if IsPrompt(m, {"secret"}) && !used {
        next := Reply(PostPassword(password));
        usedNow := true;
      } else if IsPrompt(m, {"info", "error"}) {
        next := Reply(PostEmpty);
      } else {
        var o := CancelSession("unsupported_prompt");
        next := Done(o);
      }
    }

    // A whole conversation, from the request to create a session to its end.
    method Converse(user: string, password: string) returns (o: Outcome)
      requires busy && trace == []
      modifies this`incoming, this`sends, this`outgoing, this`trace, this`login
      ensures login == Login(user, password) && trace != [] && Talking() && Calls() == End(o)
    {
      login := Login(user, password);
      var answer := Ask(Create(user));
      if answer.Err? {
        o := Fail(answer.error);
        return;
      }
      var next := GoOn(answer.value);
      var used := false;
      while next.GoOn?
        invariant Stands(next) && trace != [] && login == Login(user, password)
        invariant next.GoOn? ==> (used <==> PasswordAsked(trace))
        decreases next.GoOn?, Bulk(incoming)
      {
        next, used := Round(next.message, password, used);
      }
      o := next.outcome;
    }

    // A second caller is told so; without a socket or a usable name nothing is asked.
    method Authenticate(path: string, user: string, password: string, connected: Option<Failure>) returns (o: Outcome)
      modifies this`incoming, this`sends, this`outgoing, this`trace, this`login, this`busy
      ensures busy == old(busy)
      ensures busy ==> o == Result(false, "busy") && trace == old(trace) && outgoing == old(outgoing)
      ensures !busy ==>
        match Refusal(path, user, connected)
        case Some(refusal) => o == refusal && trace == [] && outgoing == old(outgoing)
        case None => trace != [] && login == Login(user, password) && Talking() && Calls() == End(o)
    {
      if busy {
        return Result(false, "busy");
      }
      busy, trace := true, [];
      if path == "" {
        o := Result(false, "missing_socket");
      } else if user == "" || '\0' in user {
        o := Result(false, "invalid_user");
      } else if connected.Some? {
        o := OutcomeOf(connected.value);
      } else {
        o := Converse(user, password);
      }
      busy := false;
    }
  }
}
