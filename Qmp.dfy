/** The QMP line-protocol reader of `sendQmpCommand` (server/routes.ts:140-188):
    a client of the QEMU Machine Protocol that buffers the text it receives,
    splits it into newline-terminated lines, and walks each complete line
    through the handshake: the server greeting (section 2.2 of the QMP
    specification), the `qmp_capabilities` negotiation (section 4), then one
    caller command and its `return`. JSON parsing is abstract: a line is turned
    into a `Reply` by a `parse` function supplied by the caller. */
module Qmp {

  import opened Wrappers
  import opened Strings

  /** The commands the server writes to the socket. */
  datatype Command = QmpCapabilities | Migrate(uri: string) | Cont

  /** The `error` member of a reply. `desc` is the text `new Error` makes of
      the member: `None` when it is absent or falsy, otherwise its string
      conversion (a number 42 gives "42"). */
  datatype ErrorBody = ErrorBody(desc: Option<string>)

  /** What `JSON.parse` makes of one line, reduced to the three members the
      reader tests: `QMP` is truthy, `return` is defined, `error` is truthy.
      `Malformed` stands for a line that does not parse (or parses to `null`,
      on which reading a member throws): both are swallowed by the `catch`. */
  datatype Reply = Malformed | Obj(greeting: bool, hasReturn: bool, error: Option<ErrorBody>)

  /** The state of the promise returned to the caller. */
  datatype Outcome = Pending | Resolved(response: Reply) | Rejected(reason: string)

  /** The reader's state: `initialized`, the pending caller `command` (cleared
      once written), the promise, everything written to the socket so far, and
      whether the reader has closed the socket (`end` or `destroy`). */
  datatype Session = Session(initialized: bool, command: Option<Command>, outcome: Outcome, sent: seq<Command>, ended: bool)

  /** A fresh session for one caller command. */
  function Open(cmd: Command): Session
  {
    Session(false, Some(cmd), Pending, [], false)
  }

  /** The characters `String.prototype.trim` removes: ECMAScript WhiteSpace
      (tab, vertical tab, form feed, space, no-break space, byte-order mark and
      the space separators) and LineTerminator. */
  predicate JsWhitespace(c: char)
  {
    c == '\t' || c == '\n' || c == '\U{000B}' || c == '\U{000C}' || c == '\r' || c == ' '
    || c == '\U{00A0}' || c == '\U{1680}' || ('\U{2000}' <= c <= '\U{200A}')
    || c == '\U{2028}' || c == '\U{2029}' || c == '\U{202F}' || c == '\U{205F}'
    || c == '\U{3000}' || c == '\U{FEFF}'
  }

  /** `!line.trim()`: the line is empty or whitespace only. */
  predicate IsBlank(line: string)
  {
    forall i :: 0 <= i < |line| ==> JsWhitespace(line[i])
  }

  /** `response.error.desc || 'QMP error'`. */
  function ErrorText(e: ErrorBody): (text: string)
    ensures text != ""
    ensures e.desc.Some? && e.desc.value != "" ==> text == e.desc.value
    ensures !(e.desc.Some? && e.desc.value != "") ==> text == "QMP error"
  {
    if e.desc.Some? && e.desc.value != "" then e.desc.value else "QMP error"
  }

  /** A promise settles once; later `resolve`/`reject` calls are ignored. */
  function Settle(o: Outcome, next: Outcome): Outcome
  {
    if o.Pending? then next else o
  }

  /** One complete, non-blank line. */
  function Step(s: Session, r: Reply): (t: Session)
    // The only writes: capabilities on a greeting while uninitialised, the
    // caller's command on a `return` after initialisation.
    ensures || t.sent == s.sent
            || (r.Obj? && r.greeting && !s.initialized && t.initialized && t.sent == s.sent + [QmpCapabilities])
            || (r.Obj? && r.hasReturn && s.initialized && s.command.Some?
                && t.command.None? && t.sent == s.sent + [s.command.value])
    ensures t.command.Some? ==> t.command == s.command
    ensures s.initialized ==> t.initialized
    // Settlement is final; resolution only on a `return` once the command is out;
    // a line reaching the error branch rejects with its description.
    ensures !s.outcome.Pending? ==> t.outcome == s.outcome
    ensures s.outcome.Pending? && t.outcome.Resolved? ==>
              t.outcome.response == r && r.Obj? && r.hasReturn && s.initialized && s.command.None? && t.ended
    ensures s.outcome.Pending? && r.Obj? && r.error.Some?
            && !(r.greeting && !s.initialized) && !(r.hasReturn && s.initialized) ==>
              t.outcome == Rejected(ErrorText(r.error.value)) && t.ended
    // Unparsable lines and lines with none of the three members change nothing.
    ensures r.Malformed? || (!r.greeting && !r.hasReturn && r.error.None?) ==> t == s
  {
    match r
    case Malformed => s
    case Obj(greeting, hasReturn, error) =>
      if greeting && !s.initialized then
        s.(sent := s.sent + [QmpCapabilities], initialized := true)
      else if hasReturn && s.initialized then
        if s.command.Some? then s.(sent := s.sent + [s.command.value], command := None)
        else s.(ended := true, outcome := Settle(s.outcome, Resolved(r)))
      else if error.Some? then
        s.(ended := true, outcome := Settle(s.outcome, Rejected(ErrorText(error.value))))
      else s
  }

  /** One line out of the split: blank lines are skipped before parsing. */
  function LineStep(s: Session, line: string, parse: string -> Reply): Session
  {
    if IsBlank(line) then s else Step(s, parse(line))
  }

  /** The lines of one `data` event, in order. */
  function RunLines(s: Session, lines: seq<string>, parse: string -> Reply): Session
    decreases |lines|
  {
    if lines == [] then s
    else LineStep(RunLines(s, lines[..|lines| - 1], parse), Last(lines), parse)
  }

  /** `buffer += data; lines = buffer.split('\n'); buffer = lines.pop() || ''`:
      the complete lines and the new buffer. Nothing is lost or invented: the
      lines and the buffer, joined with newlines, are the old buffer followed
      by the chunk, and the buffer holds no newline. */
  function Feed(buffer: string, chunk: string): (r: (seq<string>, string))
    ensures Join(r.0 + [r.1], '\n') == buffer + chunk
    ensures '\n' !in r.1
    ensures forall i :: 0 <= i < |r.0| ==> '\n' !in r.0[i]
  {
    var parts := Split(buffer + chunk, '\n');
    JoinSplit(buffer + chunk, '\n');
    assert parts[..|parts| - 1] + [Last(parts)] == parts;
    (parts[..|parts| - 1], Last(parts))
  }

  /** A whole `data` event: feed the chunk, then walk the complete lines. */
  function Receive(s: Session, buffer: string, chunk: string, parse: string -> Reply): (Session, string)
  {
    var fed := Feed(buffer, chunk);
    (RunLines(s, fed.0, parse), fed.1)
  }

  /** The handshake invariant of one session for caller command `cmd`: nothing
      sent and not initialised; or capabilities sent, initialised, command
      pending; or both sent in that order and the command cleared. A resolved
      session has sent its command. */
  predicate Negotiation(s: Session, cmd: Command)
  {
    && ((s.sent == [] && !s.initialized && s.command == Some(cmd))
        || (s.sent == [QmpCapabilities] && s.initialized && s.command == Some(cmd))
        || (s.sent == [QmpCapabilities, cmd] && s.initialized && s.command.None?))
    && (s.outcome.Resolved? ==> s.command.None?)
  }

  lemma {:induction false} RunLinesKeepsNegotiation(s: Session, lines: seq<string>, parse: string -> Reply, cmd: Command)
    requires Negotiation(s, cmd)
    ensures Negotiation(RunLines(s, lines, parse), cmd)
    decreases |lines|
  {
    if lines != [] {
      RunLinesKeepsNegotiation(s, lines[..|lines| - 1], parse, cmd);
    }
  }

  /** Over any sequence of lines, `qmp_capabilities` is written at most once
      and first, the caller's command at most once and only after it, and a
      session that resolved has written both. */
  lemma SendsAtMostOnce(cmd: Command, lines: seq<string>, parse: string -> Reply)
    ensures var t := RunLines(Open(cmd), lines, parse);
            && (t.sent == [] || t.sent == [QmpCapabilities] || t.sent == [QmpCapabilities, cmd])
            && (t.outcome.Resolved? ==> t.sent == [QmpCapabilities, cmd])
  {
    RunLinesKeepsNegotiation(Open(cmd), lines, parse, cmd);
  }

  predicate IsGreeting(r: Reply)
  {
    r.Obj? && r.greeting
  }

  /** Negotiation gating: a server that never greets never receives the
      caller's command (nor the capabilities), and the call never resolves. */
  lemma {:induction false} NoGreetingNoCommand(cmd: Command, lines: seq<string>, parse: string -> Reply)
    requires forall i :: 0 <= i < |lines| ==> !IsGreeting(parse(lines[i]))
    ensures var t := RunLines(Open(cmd), lines, parse);
            t.sent == [] && !t.initialized && !t.outcome.Resolved?
    decreases |lines|
  {
    if lines != [] {
      var init := lines[..|lines| - 1];
      assert forall i :: 0 <= i < |init| ==> init[i] == lines[i];
      NoGreetingNoCommand(cmd, init, parse);
    }
  }

  /** Once the promise is settled, no later line changes it. */
  lemma {:induction false} SettledIsFinal(s: Session, lines: seq<string>, parse: string -> Reply)
    requires !s.outcome.Pending?
    ensures RunLines(s, lines, parse).outcome == s.outcome
    decreases |lines|
  {
    if lines != [] {
      SettledIsFinal(s, lines[..|lines| - 1], parse);
    }
  }

  /** Walking `a + b` is walking `a`, then `b`. */
  lemma {:induction false} RunLinesAppend(s: Session, a: seq<string>, b: seq<string>, parse: string -> Reply)
    ensures RunLines(s, a + b, parse) == RunLines(RunLines(s, a, parse), b, parse)
    decreases |b|
  {
    if b == [] {
      assert a + b == a;
    } else {
      var b' := b[..|b| - 1];
      assert (a + b)[..|a + b| - 1] == a + b';
      RunLinesAppend(s, a, b', parse);
    }
  }

  /** Feeding two chunks one after the other yields the lines of feeding their
      concatenation, and the same final buffer. */
  lemma FeedConcat(buffer: string, a: string, b: string)
    ensures var first := Feed(buffer, a);
            var second := Feed(first.1, b);
            Feed(buffer, a + b) == (first.0 + second.0, second.1)
  {
    var parts := Split(buffer + a, '\n');
    var rest := Split(Last(parts) + b, '\n');
    var whole := parts[..|parts| - 1] + rest;
    assert Split(buffer + (a + b), '\n') == whole by {
      SplitConcat(buffer + a, b, '\n');
      assert buffer + (a + b) == (buffer + a) + b;
    }
    DropLastConcat(parts[..|parts| - 1], rest);
  }

  /** Chunk boundaries do not matter: two `data` events deliver the same state
      and buffer as one event carrying both chunks. */
  lemma ChunkBoundariesDoNotMatter(s: Session, buffer: string, a: string, b: string, parse: string -> Reply)
    ensures var first := Receive(s, buffer, a, parse);
            Receive(first.0, first.1, b, parse) == Receive(s, buffer, a + b, parse)
  {
    FeedConcat(buffer, a, b);
    var first := Feed(buffer, a);
    var second := Feed(first.1, b);
    RunLinesAppend(s, first.0, second.0, parse);
  }

  /** The complete exchange: greeting, negotiation acknowledgement, command
      response. The reader writes `qmp_capabilities` then the command, and
      resolves with the third reply. */
  lemma HandshakeCompletes(cmd: Command, greeting: string, ack: string, response: string, parse: string -> Reply)
    requires !IsBlank(greeting) && !IsBlank(ack) && !IsBlank(response)
    requires IsGreeting(parse(greeting))
    requires parse(ack).Obj? && parse(ack).hasReturn
    requires parse(response).Obj? && parse(response).hasReturn
    ensures RunLines(Open(cmd), [greeting, ack, response], parse)
            == Session(true, None, Resolved(parse(response)), [QmpCapabilities, cmd], true)
  {
    var s0 := Open(cmd);
    var s1 := Session(true, Some(cmd), Pending, [QmpCapabilities], false);
    var s2 := Session(true, None, Pending, [QmpCapabilities, cmd], false);
    assert RunLines(s0, [], parse) == s0;
    assert [greeting][..0] == [];
    assert RunLines(s0, [greeting], parse) == s1;
    assert [greeting, ack][..1] == [greeting];
    assert RunLines(s0, [greeting, ack], parse) == s2;
    assert [greeting, ack, response][..2] == [greeting, ack];
  }

  /** The reader of one `sendQmpCommand` call: the closure's local variables,
      the promise it settles and what it writes to the socket. */
  class QmpSession {
    var buffer: string
    var initialized: bool
    var command: Option<Command>
    var outcome: Outcome
    var sent: seq<Command>
    var ended: bool

    function State(): Session
      reads this
    {
      Session(initialized, command, outcome, sent, ended)
    }

    constructor (cmd: Command)
      ensures State() == Open(cmd) && buffer == ""
    {
      buffer := "";
      initialized := false;
      command := Some(cmd);
      outcome := Pending;
      sent := [];
      ended := false;
    }

    /** The socket's `data` handler. Returns the complete lines it walked. */
    method OnData(chunk: string, parse: string -> Reply) returns (lines: seq<string>)
      modifies this
      ensures (lines, buffer) == Feed(old(buffer), chunk)
      ensures State() == RunLines(old(State()), lines, parse)
    {
      var parts := Split(buffer + chunk, '\n');
      lines := parts[..|parts| - 1];
      buffer := Last(parts);
      ghost var start := State();
      var i := 0;
      while i < |lines|
        invariant 0 <= i <= |lines|
        invariant State() == RunLines(start, lines[..i], parse)
        invariant buffer == Last(parts)
      {
        var line := lines[i];
        if !IsBlank(line) {
          var response := parse(line);
          if response.Obj? && response.greeting && !initialized {
            sent := sent + [QmpCapabilities];
            initialized := true;
          } else if response.Obj? && response.hasReturn && initialized {
            if command.Some? {
              sent := sent + [command.value];
              command := None;
            } else {
              ended := true;
              outcome := Settle(outcome, Resolved(response));
            }
          } else if response.Obj? && response.error.Some? {
            ended := true;
            outcome := Settle(outcome, Rejected(ErrorText(response.error.value)));
          }
        }
        assert lines[..i + 1][..i] == lines[..i];
        i := i + 1;
      }
      assert lines[..|lines|] == lines;
    }

    /** The socket's `timeout` handler: destroy the socket and reject. */
    method OnTimeout()
      modifies this
      ensures buffer == old(buffer)
      ensures State() == old(State()).(ended := true, outcome := Settle(old(outcome), Rejected("QMP timeout")))
    {
      ended := true;
      outcome := Settle(outcome, Rejected("QMP timeout"));
    }

    /** The socket's `error` handler: reject with the socket error's message. */
    method OnSocketError(message: string)
      modifies this
      ensures buffer == old(buffer)
      ensures State() == old(State()).(outcome := Settle(old(outcome), Rejected(message)))
    {
      outcome := Settle(outcome, Rejected(message));
    }
  }
}
