/** The command stream from the backend's send_command to the game's IPC thread, byte by byte. */
module CommandLink {
  import opened Json
  import opened JsonScan
  import opened Protocol
  import opened Framing
  import ControlState

  /** One send_command on an open connection: all of its line went out, or sendall raised after `k`
      bytes, leaving the connection open (a timeout) with a torn line on it. */
  datatype Attempt = Sent(cmd: Command) | Failed(cmd: Command, k: nat)

  predicate Possible(a: Attempt) { a.Failed? ==> a.k < |ToWire(a.cmd)| }

  predicate AllPossible(attempts: seq<Attempt>) {
    forall i | 0 <= i < |attempts| :: Possible(attempts[i])
  }

  function AttemptBytes(a: Attempt): string
    requires Possible(a)
  {
    if a.Sent? then ToWire(a.cmd) else ToWire(a.cmd)[..a.k]
  }

  /** What the connection carries after `attempts`. */
  function Bytes(attempts: seq<Attempt>): string
    requires AllPossible(attempts)
  {
    if attempts == [] then ""
    else Bytes(attempts[..|attempts| - 1]) + AttemptBytes(attempts[|attempts| - 1])
  }

  /** The stream stops at a line boundary. */
  function Clean(attempts: seq<Attempt>): bool {
    attempts == [] ||
    var last := attempts[|attempts| - 1];
    last.Sent? || (last.k == 0 && Clean(attempts[..|attempts| - 1]))
  }

  /** The sent commands that do not land behind a torn line. */
  function Heard(attempts: seq<Attempt>): seq<Command> {
    if attempts == [] then []
    else
      var before, last := attempts[..|attempts| - 1], attempts[|attempts| - 1];
      Heard(before) + if last.Sent? && Clean(before) then [last.cmd] else []
  }

  function AllSent(attempts: seq<Attempt>): seq<Command> {
    if attempts == [] then []
    else
      var last := attempts[|attempts| - 1];
      AllSent(attempts[..|attempts| - 1]) + if last.Sent? then [last.cmd] else []
  }

  // ---------------------------------------------------------------- the game's side

  /** How a line is read; HandleCommand is the one in use. */
  type Decoder = string -> LineEffect

  /** What the lines that do anything do, in order. */
  function OutcomesBy(decode: Decoder, lines: seq<string>): seq<LineEffect> {
    if lines == [] then []
    else
      var effect := decode(lines[|lines| - 1]);
      OutcomesBy(decode, lines[..|lines| - 1]) + if effect.Ignored? then [] else [effect]
  }

  function Outcomes(lines: seq<string>): seq<LineEffect> { OutcomesBy(HandleCommand, lines) }

  function ApplyAll(h: ControlState.Held, effects: seq<LineEffect>): ControlState.Held {
    if effects == [] then h
    else
      var before, e := ApplyAll(h, effects[..|effects| - 1]), effects[|effects| - 1];
      if e.Applied? then ControlState.Apply(before, e.action, e.phase, e.value) else before
  }

  lemma {:induction false} OutcomesAppend(decode: Decoder, a: seq<string>, b: seq<string>)
    ensures OutcomesBy(decode, a + b) == OutcomesBy(decode, a) + OutcomesBy(decode, b)
  {
    if b == [] {
      assert a + b == a;
    } else {
      assert (a + b)[..|a + b| - 1] == a + b[..|b| - 1];
      OutcomesAppend(decode, a, b[..|b| - 1]);
    }
  }

  lemma {:induction false} ApplyAllAppend(h: ControlState.Held, a: seq<LineEffect>, b: seq<LineEffect>)
    ensures ApplyAll(h, a + b) == ApplyAll(ApplyAll(h, a), b)
  {
    if b == [] {
      assert a + b == a;
    } else {
      assert (a + b)[..|a + b| - 1] == a + b[..|b| - 1];
      ApplyAllAppend(h, a, b[..|b| - 1]);
    }
  }

  lemma OneOutcome(decode: Decoder, line: string)
    ensures OutcomesBy(decode, [line]) ==
            if decode(line).Ignored? then [] else [decode(line)]
  {
    assert [line][..0] == [];
  }

  lemma OneApply(h: ControlState.Held, e: LineEffect)
    ensures ApplyAll(h, [e]) ==
            if e.Applied? then ControlState.Apply(h, e.action, e.phase, e.value) else h
  {
    assert [e][..0] == [];
  }

  lemma FirstLine(buffer: string)
    requires FirstLf(buffer) < |buffer|
    ensures var line, rest := buffer[..FirstLf(buffer)], buffer[FirstLf(buffer) + 1..];
            Lines(buffer) == [line] + Lines(rest) && Tail(buffer) == Tail(rest)
  {
  }

  lemma Apart(outcomes: seq<LineEffect>, first: seq<LineEffect>, later: seq<LineEffect>)
    ensures outcomes + (first + later) == outcomes + first + later
  {
  }

  /** Taking the first line of `buffer` splits what its lines do. */
  lemma FirstOutcome(decode: Decoder, buffer: string, outcomes: seq<LineEffect>, h: ControlState.Held)
    requires FirstLf(buffer) < |buffer|
    ensures var line, rest := buffer[..FirstLf(buffer)], buffer[FirstLf(buffer) + 1..];
            var first := OutcomesBy(decode, [line]);
            && Tail(rest) == Tail(buffer)
            && outcomes + OutcomesBy(decode, Lines(buffer)) == outcomes + first + OutcomesBy(decode, Lines(rest))
            && ApplyAll(h, OutcomesBy(decode, Lines(buffer))) ==
               ApplyAll(ApplyAll(h, first), OutcomesBy(decode, Lines(rest)))
  {
    var line, rest := buffer[..FirstLf(buffer)], buffer[FirstLf(buffer) + 1..];
    var first, later := OutcomesBy(decode, [line]), OutcomesBy(decode, Lines(rest));
    assert OutcomesBy(decode, Lines(buffer)) == first + later && Tail(buffer) == Tail(rest) by {
      FirstLine(buffer);
      OutcomesAppend(decode, [line], Lines(rest));
    }
    Apart(outcomes, first, later);
    ApplyAllAppend(h, first, later);
  }

  lemma NoOutcome(decode: Decoder, buffer: string, outcomes: seq<LineEffect>, h: ControlState.Held)
    requires FirstLf(buffer) == |buffer|
    ensures Tail(buffer) == buffer && outcomes + OutcomesBy(decode, Lines(buffer)) == outcomes
    ensures ApplyAll(h, OutcomesBy(decode, Lines(buffer))) == h
  {
  }

  /** serveClient for one connection; it starts with an empty buffer. */
  class ClientSession {
    const register: ControlState.Register
    const decode: Decoder
    var buffer: string
    ghost var outcomes: seq<LineEffect>

    constructor (register: ControlState.Register)
      ensures this.register == register && decode == HandleCommand
      ensures buffer == "" && outcomes == [] && decode("") == Ignored
    {
      this.register, decode := register, HandleCommand;
      buffer, outcomes := "", [];
    }

    method HandleLine(line: string)
      modifies this`outcomes, register
      ensures outcomes == old(outcomes) + OutcomesBy(decode, [line])
      ensures register.state == ApplyAll(old(register.state), OutcomesBy(decode, [line]))
    {
      var effect := decode(line);
      OneOutcome(decode, line);
      OneApply(register.state, effect);
      if effect.Applied? {
        register.ApplyEdge(effect.action, effect.phase, effect.value);
      }
      if !effect.Ignored? { outcomes := outcomes + [effect]; }
    }

    /** One recv: append, then take every complete line; an empty one is not handled. */
    method Receive(chunk: string)
      requires decode("") == Ignored
      modifies this, register
      ensures buffer == Tail(old(buffer) + chunk)
      ensures outcomes == old(outcomes) + OutcomesBy(decode, Lines(old(buffer) + chunk))
      ensures register.state ==
              ApplyAll(old(register.state), OutcomesBy(decode, Lines(old(buffer) + chunk)))
    {
      buffer := buffer + chunk;
      ghost var tail := Tail(buffer);
      ghost var all := outcomes + OutcomesBy(decode, Lines(buffer));
      ghost var end := ApplyAll(register.state, OutcomesBy(decode, Lines(buffer)));
      while FirstLf(buffer) < |buffer|
        invariant Tail(buffer) == tail
        invariant outcomes + OutcomesBy(decode, Lines(buffer)) == all
        invariant ApplyAll(register.state, OutcomesBy(decode, Lines(buffer))) == end
        decreases |buffer|
      {
        var nl := FirstLf(buffer);
        var line := buffer[..nl];
        FirstOutcome(decode, buffer, outcomes, register.state);
        buffer := buffer[nl + 1..];
        TakeLine(line);
      }
      NoOutcome(decode, buffer, outcomes, register.state);
    }

    /** An empty line is not handled, which would change nothing. */
    method TakeLine(line: string)
      requires decode("") == Ignored
      modifies this`outcomes, register
      ensures outcomes == old(outcomes) + OutcomesBy(decode, [line])
      ensures register.state == ApplyAll(old(register.state), OutcomesBy(decode, [line]))
    {
      if line != "" {
        HandleLine(line);
      } else {
        OneOutcome(decode, line);
      }
    }
  }

  // ---------------------------------------------------------------- torn lines are never commands

  lemma {:induction false} PutNatNoBrace(n: nat, rest: string)
    requires NoBrace(rest)
    ensures NoBrace(PutNat(n, rest))
    decreases n
  {
    if n >= 10 { PutNatNoBrace(n / 10, [Digit(n % 10)] + rest); }
  }

  predicate Flat1(v: Value) { v.Num? || (v.Str? && NoBrace(v.s)) }

  lemma {:induction false} FlatNoBrace(fields: seq<Field>, st: Style, rest: string)
    requires fields != [] && NoBrace(rest)
    requires forall i | 0 <= i < |fields| :: NoBrace(fields[i].key) && Flat1(fields[i].val)
    ensures NoBrace(PutFields(fields, st, rest))
    decreases |fields|
  {
    var f := fields[0];
    var next := rest;
    if |fields| > 1 {
      FlatNoBrace(fields[1..], st, rest);
      next := Comma(st) + PutFields(fields[1..], st, rest);
    }
    if f.val.Num? {
      PutNatNoBrace(if f.val.n < 0 then 0 - f.val.n else f.val.n, next);
    } else {
      PutStrNoBrace(f.val.s, next);
    }
    PutStrNoBrace(f.key, Colon(st) + Put(f.val, st, next));
  }

  lemma PutStrNoBrace(s: string, rest: string)
    requires NoBrace(s) && NoBrace(rest)
    ensures NoBrace(PutStr(s, rest))
  {
  }

  /** A command's text is a brace-free middle between two braces. */
  lemma CommandShape(c: Command) returns (mid: string)
    ensures CommandText(c) == ['{'] + mid + ['}'] && NoBrace(mid)
  {
    var fields := CommandFields(c);
    mid := PutFields(fields, Spaced, "");
    FieldsNoBrace(c);
    FlatNoBrace(fields, Spaced, "");
    PutFieldsAppend(fields, Spaced, "", ['}']);
    assert "" + ['}'] == ['}'] && ['}'] + "" == ['}'];
    assert CommandText(c) == ['{'] + PutFields(fields, Spaced, ['}'] + "");
  }

  lemma FieldsNoBrace(c: Command)
    ensures forall i | 0 <= i < |CommandFields(c)| ::
              NoBrace(CommandFields(c)[i].key) && Flat1(CommandFields(c)[i].val)
  {
    PutNatNoBrace(if c.team < 0 then 0 - c.team else c.team, "");
    NameNoBrace(c.action, c.phase);
    var f := CommandFields(c);
    assert Flat1(f[1].val) && Flat1(f[2].val) && Flat1(f[3].val);
  }

  lemma NameNoBrace(a: ControlAction, p: ControlPhase)
    ensures NoBrace(ActionName(a)) && NoBrace(PhaseName(p))
  {
    match a
    case MoveLeft => case MoveRight => case AimUp => case AimDown =>
    case SelectWeapon => case Fire => case Jump =>
  }

  lemma CommandAccepted(c: Command, rest: string)
    ensures ParseValue(CommandText(c) + rest) == Got(Obj(CommandFields(c)), rest)
    ensures ParseText(CommandText(c)).Some?
  {
    CommandPlain(c);
    var v := Obj(CommandFields(c));
    ParsePut(v, Spaced, rest);
    PutAppend(v, Spaced, "", rest);
    assert "" + rest == rest;
    TextRoundTrip(v, Spaced);
  }

  const OUTSIDE := Scan(false, 0)

  /** Scanning a beginning of a command's text never lowers the depth, and raises it while the text
      is begun outside a string and unfinished. */
  lemma PieceDepth(st: Scan, c: Command, k: nat)
    requires k <= |CommandText(c)|
    ensures Run(st, CommandText(c)[..k]).depth >= st.depth
    ensures !st.quoted && 0 < k < |CommandText(c)| ==> Run(st, CommandText(c)[..k]).depth == st.depth + 1
  {
    var text := CommandText(c);
    var mid := CommandShape(c);
    if 0 < k < |text| {
      var p := mid[..k - 1];
      assert text[..k] == ['{'] + p;
      RunAppend(st, ['{'], p);
      RunNoBrace(Next(st, '{'), p);
      assert Run(st, ['{']) == Next(st, '{') by { assert ['{'][1..] == ""; }
    } else if k == |text| {
      assert text[..k] == text;
      WholeText(st, c, mid);
    }
  }

  lemma WholeText(st: Scan, c: Command, mid: string)
    requires CommandText(c) == ['{'] + mid + ['}'] && NoBrace(mid)
    ensures Run(st, CommandText(c)) == st
  {
    CommandAccepted(c, "");
    AcceptedIsBalanced(OUTSIDE, CommandText(c));
    RunShape(OUTSIDE, mid);
    RunShape(st, mid);
  }

  lemma RunShape(st: Scan, mid: string)
    requires NoBrace(mid)
    ensures var inner := Next(st, '{');
            Run(st, ['{'] + mid + ['}']) ==
            Next(Scan(inner.quoted != OddQuotes(mid), inner.depth), '}')
  {
    RunAppend(st, ['{'] + mid, ['}']);
    RunAppend(st, ['{'], mid);
    RunNoBrace(Next(st, '{'), mid);
    var a := Run(st, ['{'] + mid);
    assert Run(st, ['{']) == Next(st, '{') by { assert ['{'][1..] == ""; }
    assert Run(a, ['}']) == Next(a, '}') by { assert ['}'][1..] == ""; }
  }

  /** A complete command with no line feed after it. */
  predicate Unended(p: string, c: Command, rest: string) {
    p == CommandText(c) + rest && (rest != "" ==> rest[0] == '{')
  }

  /** Text that no continuation by commands can turn into one JSON value: it has an unclosed brace,
      or a complete command in front. */
  ghost predicate Spoilt(p: string) {
    Run(OUTSIDE, p).depth >= 1 || exists c, rest :: Unended(p, c, rest)
  }

  lemma TornStartSpoils(c: Command, k: nat)
    requires 0 < k <= |CommandText(c)|
    ensures Spoilt(CommandText(c)[..k])
  {
    PieceDepth(OUTSIDE, c, k);
    if k == |CommandText(c)| {
      assert CommandText(c)[..k] + "" == CommandText(c);
      assert Unended(CommandText(c)[..k], c, "");
    }
  }

  lemma PieceStart(c: Command, k: nat)
    requires k <= |CommandText(c)|
    ensures CommandText(c) != "" && CommandText(c)[0] == '{'
    ensures CommandText(c)[..k] != "" ==> CommandText(c)[..k][0] == '{'
  {
    var mid := CommandShape(c);
  }

  lemma UnendedStays(p: string, d: Command, rest: string, piece: string)
    requires Unended(p, d, rest) && (piece != "" ==> piece[0] == '{')
    ensures Unended(p + piece, d, rest + piece)
  {
    assert p + piece == CommandText(d) + (rest + piece);
  }

  lemma SpoiltStays(p: string, c: Command, k: nat)
    requires Spoilt(p) && k <= |CommandText(c)|
    ensures Spoilt(p + CommandText(c)[..k])
  {
    var piece := CommandText(c)[..k];
    PieceStart(c, k);
    if Run(OUTSIDE, p).depth >= 1 {
      RunAppend(OUTSIDE, p, piece);
      PieceDepth(Run(OUTSIDE, p), c, k);
    } else {
      var d, rest :| Unended(p, d, rest);
      UnendedStays(p, d, rest, piece);
    }
  }

  /** A command completing a spoilt line is lost with it. */
  lemma SpoiltLineIgnored(p: string, c: Command)
    requires Spoilt(p)
    ensures HandleCommand(p + CommandText(c)) == Ignored
  {
    var line := p + CommandText(c);
    PieceStart(c, 0);
    if Run(OUTSIDE, p).depth >= 1 {
      RunAppend(OUTSIDE, p, CommandText(c));
      var mid := CommandShape(c);
      WholeText(Run(OUTSIDE, p), c, mid);
      if ParseText(line).Some? { AcceptedIsBalanced(OUTSIDE, line); }
    } else {
      var d, rest :| Unended(p, d, rest);
      UnendedStays(p, d, rest, CommandText(c));
      CommandAccepted(d, rest + CommandText(c));
    }
  }

  // ---------------------------------------------------------------- the stream

  function Effect(c: Command): LineEffect { HandleCommand(CommandText(c)) }

  function Effects(cmds: seq<Command>): seq<LineEffect> {
    seq(|cmds|, i requires 0 <= i < |cmds| => Effect(cmds[i]))
  }

  ghost predicate Pending(attempts: seq<Attempt>, p: string) {
    if Clean(attempts) then p == "" else NoLf(p) && Spoilt(p)
  }

  lemma PieceNoLf(c: Command, k: nat)
    requires k <= |CommandText(c)|
    ensures NoLf(CommandText(c)[..k])
  {
    CommandRoundTrip(c);
  }

  /** On any connection the lines that do anything are exactly the heard commands, in order. */
  lemma {:induction false} StreamDecodes(attempts: seq<Attempt>)
    requires AllPossible(attempts)
    ensures Outcomes(Lines(Bytes(attempts))) == Effects(Heard(attempts))
    ensures Pending(attempts, Tail(Bytes(attempts)))
  {
    if attempts != [] {
      var before, last := attempts[..|attempts| - 1], attempts[|attempts| - 1];
      StreamDecodes(before);
      var p := Tail(Bytes(before));
      if last.Sent? {
        SentCompletes(p, Clean(before), last.cmd);
        DecodedGrows(Bytes(before), ToWire(last.cmd), Heard(before),
                     if Clean(before) then [last.cmd] else []);
      } else {
        FailedTears(p, Clean(before), last.cmd, last.k);
        DecodedGrows(Bytes(before), ToWire(last.cmd)[..last.k], Heard(before), []);
      }
    }
  }

  lemma DecodedGrows(bytes: string, piece: string, heard: seq<Command>, more: seq<Command>)
    requires Outcomes(Lines(bytes)) == Effects(heard)
    requires Outcomes(Lines(Tail(bytes) + piece)) == Effects(more)
    ensures Outcomes(Lines(bytes + piece)) == Effects(heard + more)
    ensures Tail(bytes + piece) == Tail(Tail(bytes) + piece)
  {
    SplitAppend(bytes, piece);
    OutcomesAppend(HandleCommand, Lines(bytes), Lines(Tail(bytes) + piece));
    EffectsAppend(heard, more);
  }

  lemma EffectsAppend(a: seq<Command>, b: seq<Command>)
    ensures Effects(a + b) == Effects(a) + Effects(b)
  {
  }

  lemma FailedTears(p: string, clean: bool, c: Command, k: nat)
    requires k < |ToWire(c)|
    requires if clean then p == "" else NoLf(p) && Spoilt(p)
    ensures Outcomes(Lines(p + ToWire(c)[..k])) == Effects([])
    ensures Tail(p + ToWire(c)[..k]) == p + ToWire(c)[..k]
    ensures var q := p + ToWire(c)[..k];
            if clean && k == 0 then q == "" else NoLf(q) && Spoilt(q)
  {
    var piece := CommandText(c)[..k];
    assert ToWire(c)[..k] == piece;
    PieceNoLf(c, k);
    FirstLfOf(p + piece, "");
    if k == 0 {
      assert p + piece == p;
    } else if clean {
      TornStartSpoils(c, k);
      assert p + piece == piece;
    } else {
      SpoiltStays(p, c, k);
    }
  }

  lemma WireIsLine(p: string, c: Command)
    requires NoLf(p)
    ensures Lines(p + ToWire(c)) == [p + CommandText(c)] && Tail(p + ToWire(c)) == ""
  {
    var line := p + CommandText(c);
    PieceNoLf(c, |CommandText(c)|);
    assert CommandText(c)[..|CommandText(c)|] == CommandText(c);
    assert p + ToWire(c) == line + [LF] + "";
    FirstLfOf(line, "");
    assert (line + [LF] + "")[..|line|] == line;
    assert (line + [LF] + "")[|line| + 1..] == "";
  }

  lemma SentCompletes(p: string, clean: bool, c: Command)
    requires if clean then p == "" else NoLf(p) && Spoilt(p)
    ensures Tail(p + ToWire(c)) == ""
    ensures Outcomes(Lines(p + ToWire(c))) == Effects(if clean then [c] else [])
  {
    WireIsLine(p, c);
    OneOutcome(HandleCommand, p + CommandText(c));
    if clean {
      assert p + CommandText(c) == CommandText(c);
      CommandRoundTrip(c);
    } else {
      SpoiltLineIgnored(p, c);
    }
  }

  /** What a game-side session has handled after any part of the stream, in any chunks: a beginning
      of the heard commands, each once and in order. */
  lemma DeliveredPrefix(attempts: seq<Attempt>, n: nat)
    requires AllPossible(attempts) && n <= |Bytes(attempts)|
    ensures Outcomes(Lines(Bytes(attempts)[..n])) <= Effects(Heard(attempts))
  {
    StreamDecodes(attempts);
    PrefixDecodes(HandleCommand, Bytes(attempts), n, Effects(Heard(attempts)));
  }

  lemma PrefixDecodes(decode: Decoder, bytes: string, n: nat, effects: seq<LineEffect>)
    requires n <= |bytes| && OutcomesBy(decode, Lines(bytes)) == effects
    ensures OutcomesBy(decode, Lines(bytes[..n])) <= effects
  {
    assert bytes[..n] + bytes[n..] == bytes;
    PrefixOutcomes(decode, bytes[..n], bytes[n..]);
  }

  lemma PrefixOutcomes(decode: Decoder, part: string, rest: string)
    ensures OutcomesBy(decode, Lines(part)) <= OutcomesBy(decode, Lines(part + rest))
  {
    SplitAppend(part, rest);
    MoreOutcomes(decode, Lines(part), Lines(Tail(part) + rest));
  }

  lemma MoreOutcomes(decode: Decoder, lines: seq<string>, more: seq<string>)
    ensures OutcomesBy(decode, lines) <= OutcomesBy(decode, lines + more)
  {
    OutcomesAppend(decode, lines, more);
  }

  /** The register edges of the lines that apply one. */
  function EdgesOf(effects: seq<LineEffect>): seq<ControlState.Op> {
    if effects == [] then []
    else
      var e := effects[|effects| - 1];
      EdgesOf(effects[..|effects| - 1]) +
      if e.Applied? then [ControlState.Edge(e.action, e.phase, e.value)] else []
  }

  /** Handling lines extends the register's history by their edges, in order. */
  lemma {:induction false} ApplyAllIsHistory(ops: seq<ControlState.Op>, effects: seq<LineEffect>)
    ensures ApplyAll(ControlState.After(ops), effects) == ControlState.After(ops + EdgesOf(effects))
  {
    if effects == [] {
      assert ops + [] == ops;
    } else {
      var before, e := effects[..|effects| - 1], effects[|effects| - 1];
      ApplyAllIsHistory(ops, before);
      var all := ops + EdgesOf(before);
      if e.Applied? {
        var op := ControlState.Edge(e.action, e.phase, e.value);
        assert ops + EdgesOf(effects) == all + [op] && (all + [op])[..|all|] == all;
      } else {
        assert ops + EdgesOf(effects) == all;
      }
    }
  }

  /** The edge a command sent whole makes. */
  function EdgeSent(c: Command): ControlState.Op {
    ControlState.Edge(c.action, c.phase, Wrap32(c.value))
  }

  function EdgesSent(cmds: seq<Command>): seq<ControlState.Op> {
    if cmds == [] then [] else EdgesSent(cmds[..|cmds| - 1]) + [EdgeSent(cmds[|cmds| - 1])]
  }

  lemma {:induction false} EffectEdges(cmds: seq<Command>)
    requires forall i | 0 <= i < |cmds| :: Is64Bit(cmds[i].value)
    ensures EdgesOf(Effects(cmds)) == EdgesSent(cmds)
  {
    if cmds != [] {
      var before, last := cmds[..|cmds| - 1], cmds[|cmds| - 1];
      EffectEdges(before);
      CommandRoundTrip(last);
      assert Effects(cmds)[..|cmds| - 1] == Effects(before);
    }
  }

  /** From the bytes of a connection to the register: its history grows by exactly the edges of the
      commands sent whole on a clean stream, in order, with the values narrowed to 32 bits. */
  lemma BytesReachRegister(attempts: seq<Attempt>, ops: seq<ControlState.Op>)
    requires AllPossible(attempts)
    requires forall i | 0 <= i < |Heard(attempts)| :: Is64Bit(Heard(attempts)[i].value)
    ensures ApplyAll(ControlState.After(ops), Outcomes(Lines(Bytes(attempts)))) ==
            ControlState.After(ops + EdgesSent(Heard(attempts)))
  {
    assert Outcomes(Lines(Bytes(attempts))) == Effects(Heard(attempts)) by { StreamDecodes(attempts); }
    EffectEdges(Heard(attempts));
    ApplyAllIsHistory(ops, Effects(Heard(attempts)));
  }

  function ReceiveAll(chunks: seq<string>): (string, seq<LineEffect>) {
    if chunks == [] then ("", [])
    else
      var r := ReceiveAll(chunks[..|chunks| - 1]);
      var s := r.0 + chunks[|chunks| - 1];
      (Tail(s), r.1 + Outcomes(Lines(s)))
  }

  lemma {:induction false} ChunksDoNotMatter(chunks: seq<string>)
    ensures ReceiveAll(chunks) == (Tail(Flat(chunks)), Outcomes(Lines(Flat(chunks))))
  {
    if chunks != [] {
      var before := chunks[..|chunks| - 1];
      ChunksDoNotMatter(before);
      SplitAppend(Flat(before), chunks[|chunks| - 1]);
      OutcomesAppend(HandleCommand, Lines(Flat(before)), Lines(Tail(Flat(before)) + chunks[|chunks| - 1]));
    }
  }

  /** A send that broke off after `j`'s first byte still has its torn line open at the end. */
  predicate TornAt(attempts: seq<Attempt>, j: nat) {
    && j < |attempts| && attempts[j].Failed? && attempts[j].k > 0
    && forall m | j < m < |attempts| :: attempts[m].Failed?
  }

  lemma {:induction false} CleanMeaning(attempts: seq<Attempt>)
    ensures Clean(attempts) <==> !exists j: nat :: TornAt(attempts, j)
  {
    if attempts != [] {
      var before, last := attempts[..|attempts| - 1], attempts[|attempts| - 1];
      CleanMeaning(before);
      if last.Failed? {
        if j: nat :| TornAt(before, j) { assert TornAt(attempts, j); }
        if j: nat :| TornAt(attempts, j) {
          if j < |before| { assert TornAt(before, j); }
        }
        if last.k > 0 { assert TornAt(attempts, |before|); }
      }
    }
  }

  lemma OneMore(before: seq<Attempt>, last: Attempt)
    ensures var all := before + [last];
            && Heard(all) == (if last.Sent? && Clean(before) then Heard(before) + [last.cmd] else Heard(before))
            && AllSent(all) == (if last.Sent? then AllSent(before) + [last.cmd] else AllSent(before))
            && Clean(all) == (last.Sent? || (last.k == 0 && Clean(before)))
  {
    assert (before + [last])[..|before|] == before;
  }

  /** Every successful send started at a line boundary. */
  predicate AllOnBoundary(attempts: seq<Attempt>) {
    forall i | 0 <= i < |attempts| && attempts[i].Sent? :: Clean(attempts[..i])
  }

  lemma BoundaryStep(before: seq<Attempt>, last: Attempt)
    ensures AllOnBoundary(before + [last]) <==> AllOnBoundary(before) && (last.Sent? ==> Clean(before))
  {
    var all := before + [last];
    assert all[..|before|] == before && all[|before|] == last;
    forall i | 0 <= i < |before| ensures all[..i] == before[..i] && all[i] == before[i] {
    }
    if AllOnBoundary(all) {
      forall i | 0 <= i < |before| && before[i].Sent? ensures Clean(before[..i]) {
        assert all[i].Sent?;
      }
    }
  }

  lemma SameEnd<T>(a: seq<T>, b: seq<T>, x: T)
    ensures a + [x] == b + [x] <==> a == b
  {
    assert (a + [x])[..|a|] == a && (b + [x])[..|b|] == b;
  }

  /** The applied commands are exactly the successfully sent ones if and only if no send that broke
      off inside its line is followed by a successful one with only failed ones in between. */
  lemma {:induction false} HeardIsSent(attempts: seq<Attempt>)
    ensures Heard(attempts) == AllSent(attempts) <==> AllOnBoundary(attempts)
    ensures |Heard(attempts)| <= |AllSent(attempts)|
  {
    if attempts != [] {
      var before, last := attempts[..|attempts| - 1], attempts[|attempts| - 1];
      HeardIsSent(before);
      assert before + [last] == attempts;
      BoundaryStep(before, last);
      OneMore(before, last);
      if last.Sent? && Clean(before) {
        SameEnd(Heard(before), AllSent(before), last.cmd);
      } else if last.Sent? {
        assert |Heard(attempts)| < |AllSent(attempts)|;
      }
    }
  }

  lemma NothingHeard(attempts: seq<Attempt>)
    requires AllPossible(attempts) && Heard(attempts) == []
    ensures Outcomes(Lines(Bytes(attempts))) == []
  {
    StreamDecodes(attempts);
  }

  lemma TornThenSent(a: Command, b: Command)
    ensures AllSent([Failed(a, 1), Sent(b)]) == [b] && Heard([Failed(a, 1), Sent(b)]) == []
  {
    OneMore([], Failed(a, 1));
    OneMore([Failed(a, 1)], Sent(b));
    assert [] + [Failed(a, 1)] == [Failed(a, 1)] && [Failed(a, 1)] + [Sent(b)] == [Failed(a, 1), Sent(b)];
  }

  /** The counterexample to "every successful send is applied": one byte of a release, then a press
      sent whole, which is lost. */
  lemma TornSendLosesNext(a: Command, b: Command)
    ensures AllPossible([Failed(a, 1), Sent(b)])
    ensures AllSent([Failed(a, 1), Sent(b)]) == [b]
    ensures Outcomes(Lines(Bytes([Failed(a, 1), Sent(b)]))) == []
  {
    CommandRoundTrip(a);
    TornThenSent(a, b);
    NothingHeard([Failed(a, 1), Sent(b)]);
  }
}
