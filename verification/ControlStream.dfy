/** The commands of the control path as a stream: the game applies what was sent, in order, and the
    transition system's link is what the bytes of a connection make of it. */
module ControlStream {
  import opened Wrappers
  import opened Protocol
  import opened ControlState
  import opened ControlPlane
  import CommandLink
  import Framing

  // ---------------------------------------------------------------- the game applies what was sent

  /** The register edge a command asks for, with the value as sent. */
  function EdgeOf(c: Command): Op { Edge(c.action, c.phase, c.value) }

  function QueueEdges(q: seq<Command>): seq<Op> {
    seq(|q|, i requires 0 <= i < |q| => EdgeOf(q[i]))
  }

  /** The edge of an entry whose send_command returned. */
  function SentEdge(e: Entry): seq<Op> {
    match e
    case Forwarded(_, _, _, action, phase, value) => [Edge(action, phase, value)]
    case Auto(_, _, action, sent) => if sent then [Edge(action, Release, 0)] else []
  }

  function SentEdges(log: seq<Entry>): seq<Op> {
    if log == [] then [] else SentEdges(log[..|log| - 1]) + SentEdge(log[|log| - 1])
  }

  function AppliedNow(s: State, step: Step): seq<Op> {
    if step.Deliver? && s.link.queue != [] then [EdgeOf(s.link.queue[0])] else []
  }

  /** The edges the game has applied. */
  function AppliedEdges(steps: seq<Step>): seq<Op> {
    if steps == [] then []
    else
      var before := steps[..|steps| - 1];
      AppliedEdges(before) + AppliedNow(Run(before), steps[|steps| - 1])
  }

  lemma {:induction false} PartOfPart<T>(x: seq<T>, y: seq<T>, z: seq<T>, b: seq<T>)
    requires IsPartOf(x + y + z, b)
    ensures IsPartOf(x + z, b)
    decreases |b|
  {
    var whole, left := x + y + z, x + z;
    if left != [] {
      var b' := b[..|b| - 1];
      if IsPartOf(whole, b') {
        PartOfPart(x, y, z, b');
      } else if z != [] {
        var z' := z[..|z| - 1];
        assert whole[..|whole| - 1] == x + y + z' && left[..|left| - 1] == x + z';
        PartOfPart(x, y, z', b');
      } else if y != [] {
        var y' := y[..|y| - 1];
        assert whole[..|whole| - 1] == x + y' + z;
        PartOfPart(x, y', z, b');
      } else {
        assert whole == left;
      }
    }
  }

  predicate TornBy(fate: Fate) { fate.Raised? && fate.bytes > 0 }

  /** Nothing in flight is lost and no send breaks off inside its line; the link may go down. */
  predicate Lossless(step: Step) {
    !step.Lose? && (step.Send? || step.ReleaseOne? ==> !TornBy(step.fate))
  }

  /** `done` and what is in flight is part of what was sent, and all of it while `exact`. */
  predicate Accounted(done: seq<Op>, l: Link, log: seq<Entry>, exact: bool) {
    var inHand := done + QueueEdges(l.queue);
    && IsPartOf(inHand, SentEdges(log))
    && (exact ==> inHand == SentEdges(log) && !l.torn)
  }

  /** A command handed to the link leaves the accounts in order. */
  lemma HandOver(done: seq<Op>, sent: seq<Op>, l: Link, cmd: Command, fate: Fate)
    requires IsPartOf(done + QueueEdges(l.queue), sent)
    ensures var sent' := if Ok(l, fate) then sent + [EdgeOf(cmd)] else sent;
            var l' := Transmit(l, cmd, fate);
            && IsPartOf(done + QueueEdges(l'.queue), sent')
            && (!l.torn && !TornBy(fate) && done + QueueEdges(l.queue) == sent ==>
                  done + QueueEdges(l'.queue) == sent' && !l'.torn)
  {
    if Ok(l, fate) {
      PartGrows(done + QueueEdges(l.queue), sent, EdgeOf(cmd));
      assert QueueEdges(l.queue + [cmd]) == QueueEdges(l.queue) + [EdgeOf(cmd)];
      assert done + QueueEdges(l.queue) + [EdgeOf(cmd)] == done + QueueEdges(l.queue + [cmd]);
    }
  }

  lemma SentGrows(log: seq<Entry>, e: Entry)
    ensures SentEdges(log + [e]) == SentEdges(log) + SentEdge(e)
    ensures SentEdge(e) == [] ==> SentEdges(log + [e]) == SentEdges(log)
  {
    assert (log + [e])[..|log|] == log;
  }

  /** A step that hands `cmd` to the link logs it exactly when send_command returns. */
  predicate HandsOver(s: State, t: State, cmd: Command, fate: Fate) {
    && t.link == Transmit(s.link, cmd, fate)
    && SentEdges(t.backend.log) ==
       if Ok(s.link, fate) then SentEdges(s.backend.log) + [EdgeOf(cmd)] else SentEdges(s.backend.log)
  }

  lemma HandedAccounted(done: seq<Op>, s: State, t: State, cmd: Command, fate: Fate, exact: bool)
    requires Accounted(done, s.link, s.backend.log, exact) && HandsOver(s, t, cmd, fate)
    ensures Accounted(done, t.link, t.backend.log, exact && !TornBy(fate))
  {
    HandOver(done, SentEdges(s.backend.log), s.link, cmd, fate);
  }

  lemma SendHandsOver(s: State, sid: nat, fate: Fate)
    requires sid in s.backend.sessions && s.backend.sessions[sid].pc.Sending?
    ensures var pc := s.backend.sessions[sid].pc;
            HandsOver(s, DoSend(s, sid, fate), Command(pc.team, pc.action, pc.phase, pc.value), fate)
  {
    var t := DoSend(s, sid, fate);
    if Ok(s.link, fate) { SentGrows(s.backend.log, t.backend.log[|s.backend.log|]); }
  }

  lemma ReleaseHandsOver(s: State, sid: nat, action: ControlAction, fate: Fate)
    requires sid in s.backend.sessions && s.backend.sessions[sid].pc.Releasing?
    ensures var team := s.backend.sessions[sid].heldTeam;
            HandsOver(s, DoRelease(s, sid, action, fate),
                      Command(if team.Some? then team.value else 0, action, Release, 0), fate)
  {
    var team := s.backend.sessions[sid].heldTeam;
    SentGrows(s.backend.log, Auto(sid, if team.Some? then team.value else 0, action, Ok(s.link, fate)));
  }

  lemma QueueEdgesAppend(p: seq<Command>, q: seq<Command>)
    ensures QueueEdges(p + q) == QueueEdges(p) + QueueEdges(q)
  {
  }

  lemma LossStep(done: seq<Op>, sent: seq<Op>, p: seq<Command>, lost: seq<Command>, q: seq<Command>)
    requires IsPartOf(done + QueueEdges(p + lost + q), sent)
    ensures IsPartOf(done + QueueEdges(p + q), sent)
  {
    QueueEdgesAppend(p + lost, q);
    QueueEdgesAppend(p, lost);
    QueueEdgesAppend(p, q);
    var x, y, z := done + QueueEdges(p), QueueEdges(lost), QueueEdges(q);
    assert x + y + z == done + QueueEdges(p + lost + q);
    PartOfPart(x, y, z, sent);
    assert x + z == done + QueueEdges(p + q);
  }

  lemma DeliverStep(done: seq<Op>, l: Link, log: seq<Entry>, exact: bool)
    requires l.queue != [] && Accounted(done, l, log, exact)
    ensures Accounted(done + [EdgeOf(l.queue[0])], l.(queue := l.queue[1..]), log, exact)
  {
    FirstEdge(done, l.queue);
  }

  lemma FirstEdge(done: seq<Op>, q: seq<Command>)
    requires q != []
    ensures done + [EdgeOf(q[0])] + QueueEdges(q[1..]) == done + QueueEdges(q)
  {
  }

  lemma LoseStep(done: seq<Op>, l: Link, log: seq<Entry>, from: nat, upTo: nat)
    requires from <= upTo <= |l.queue| && Accounted(done, l, log, false)
    ensures Accounted(done, l.(queue := l.queue[..from] + l.queue[upTo..]), log, false)
  {
    var q := l.queue;
    assert q == q[..from] + q[from..upTo] + q[upTo..];
    LossStep(done, SentEdges(log), q[..from], q[from..upTo], q[upTo..]);
  }

  lemma HandStep(done: seq<Op>, s: State, step: Step, exact: bool)
    requires (step.Send? || step.ReleaseOne?) && Do(s, step) != s
    requires Accounted(done, s.link, s.backend.log, exact)
    ensures Accounted(done, Do(s, step).link, Do(s, step).backend.log, exact && !TornBy(step.fate))
  {
    var ses := s.backend.sessions[step.sid];
    if step.Send? {
      SendHandsOver(s, step.sid, step.fate);
      HandedAccounted(done, s, Do(s, step), Command(ses.pc.team, ses.pc.action, ses.pc.phase, ses.pc.value),
                      step.fate, exact);
    } else {
      ReleaseHandsOver(s, step.sid, step.action, step.fate);
      HandedAccounted(done, s, Do(s, step),
                      Command(if ses.heldTeam.Some? then ses.heldTeam.value else 0, step.action, Release, 0),
                      step.fate, exact);
    }
  }

  lemma DeliverAccounted(done: seq<Op>, s: State, converted: int, exact: bool)
    requires Accounted(done, s.link, s.backend.log, exact)
    ensures var t := Do(s, Deliver(converted));
            Accounted(done + AppliedNow(s, Deliver(converted)), t.link, t.backend.log, exact)
  {
    if s.link.queue != [] {
      DeliverStep(done, s.link, s.backend.log, exact);
    } else {
      assert done + [] == done;
    }
  }

  lemma LoseAccounted(done: seq<Op>, s: State, from: nat, upTo: nat)
    requires Accounted(done, s.link, s.backend.log, false)
    ensures var t := Do(s, Lose(from, upTo)); Accounted(done, t.link, t.backend.log, false)
  {
    if Within(s.link.queue, from, upTo) { LoseStep(done, s.link, s.backend.log, from, upTo); }
  }

  /** The other steps leave the queue and the history alone, and tear nothing. */
  lemma OtherStep(s: State, step: Step)
    requires !step.Deliver? && !step.Lose?
    requires (step.Send? || step.ReleaseOne?) ==> Do(s, step) == s
    ensures var t := Do(s, step);
            && t.link.queue == s.link.queue && t.backend.log == s.backend.log
            && (t.link.torn ==> s.link.torn)
  {
  }

  lemma AccountedStep(done: seq<Op>, s: State, step: Step, exact: bool)
    requires Accounted(done, s.link, s.backend.log, exact)
    ensures var t := Do(s, step);
            Accounted(done + AppliedNow(s, step), t.link, t.backend.log, exact && Lossless(step))
  {
    if step.Deliver? {
      DeliverAccounted(done, s, step.converted, exact);
    } else {
      assert done + AppliedNow(s, step) == done;
      if step.Lose? {
        LoseAccounted(done, s, step.from, step.upTo);
      } else if (step.Send? || step.ReleaseOne?) && Do(s, step) != s {
        HandStep(done, s, step, exact);
      } else {
        OtherStep(s, step);
      }
    }
  }

  /** Over every run, the edges the game has applied and those still in flight are commands of the
      history, each once and in its order; and they are all of those whose send_command returned,
      unless a dead connection took some with it or a send broke off inside its line. */
  lemma {:induction false} AppliedWasSent(steps: seq<Step>)
    ensures Accounted(AppliedEdges(steps), Run(steps).link, Run(steps).backend.log,
                      forall i | 0 <= i < |steps| :: Lossless(steps[i]))
  {
    if steps != [] {
      var before, last := steps[..|steps| - 1], steps[|steps| - 1];
      AppliedWasSent(before);
      AccountedStep(AppliedEdges(before), Run(before), last,
                    forall i | 0 <= i < |before| :: Lossless(before[i]));
    }
  }

  // ---------------------------------------------------------------- the register is what was applied

  /** The register operation that the game's reading of a command's text makes; a value it does not
      define is `converted`. */
  function DecodedOp(c: Command, converted: int): Op {
    match HandleCommand(CommandText(c))
    case Applied(action, phase, value) => Edge(action, phase, value)
    case _ => Edge(c.action, c.phase, converted)
  }

  /** Delivering a command does to the register what its text, read by the game, says. */
  lemma DeliverDecodes(h: Held, c: Command, converted: int)
    ensures ApplyCommand(h, c, converted) == Perform(h, DecodedOp(c, converted))
    ensures HandleCommand(CommandText(c)).Applied? <==> Is64Bit(c.value)
    ensures DecodedOp(c, converted).action == c.action && DecodedOp(c, converted).phase == c.phase
    ensures Is64Bit(c.value) ==> DecodedOp(c, converted).value == Wrap32(c.value)
  {
    CommandRoundTrip(c);
  }

  function OpNow(s: State, step: Step): seq<Op> {
    match step
    case Deliver(converted) => if s.link.queue == [] then [] else [DecodedOp(s.link.queue[0], converted)]
    case Frame(active) => if active then [Op.Read] else []
    case Teardown => [Op.Clear]
    case _ => []
  }

  /** Everything that happened to the register: commands as the game decodes them, the reads of active
      frames, the clears of teardowns. */
  function RegisterOps(steps: seq<Step>): seq<Op> {
    if steps == [] then []
    else
      var before := steps[..|steps| - 1];
      RegisterOps(before) + OpNow(Run(before), steps[|steps| - 1])
  }

  lemma RegisterStep(s: State, step: Step)
    ensures Do(s, step).dll.reg ==
            if OpNow(s, step) == [] then s.dll.reg else Perform(s.dll.reg, OpNow(s, step)[0])
  {
    if step.Deliver? && s.link.queue != [] { DeliverDecodes(s.dll.reg, s.link.queue[0], step.converted); }
  }

  /** Over every run the register is the history of these operations. */
  lemma {:induction false} RegisterIsHistory(steps: seq<Step>)
    ensures Run(steps).dll.reg == After(RegisterOps(steps))
  {
    if steps != [] {
      var before, step := steps[..|steps| - 1], steps[|steps| - 1];
      RegisterIsHistory(before);
      RegisterStep(Run(before), step);
      AfterMore(RegisterOps(before), OpNow(Run(before), step));
    }
  }

  function EdgesIn(ops: seq<Op>): seq<Op> {
    if ops == [] then []
    else EdgesIn(ops[..|ops| - 1]) + if ops[|ops| - 1].Edge? then [ops[|ops| - 1]] else []
  }

  /** `got` is the edge that `sent` asks for, its value narrowed to 32 bits. */
  predicate Narrows(got: Op, sent: Op) {
    && got.Edge? && sent.Edge? && got.action == sent.action && got.phase == sent.phase
    && (Is64Bit(sent.value) ==> got.value == Wrap32(sent.value))
  }

  predicate AllNarrow(got: seq<Op>, sent: seq<Op>) {
    |got| == |sent| && forall i | 0 <= i < |got| :: Narrows(got[i], sent[i])
  }

  function EdgeNow(s: State, step: Step): seq<Op> {
    if OpNow(s, step) != [] && OpNow(s, step)[0].Edge? then OpNow(s, step) else []
  }

  lemma EdgesMore(ops: seq<Op>, more: seq<Op>)
    requires |more| <= 1
    ensures EdgesIn(ops + more) == EdgesIn(ops) + if more != [] && more[0].Edge? then more else []
  {
    if more == [] {
      assert ops + more == ops;
    } else {
      assert (ops + more)[..|ops|] == ops;
    }
  }

  lemma NowNarrows(s: State, step: Step)
    ensures AllNarrow(EdgeNow(s, step), AppliedNow(s, step))
  {
    if step.Deliver? && s.link.queue != [] { DeliverDecodes(s.dll.reg, s.link.queue[0], step.converted); }
  }

  lemma NarrowAppend(a: seq<Op>, b: seq<Op>, c: seq<Op>, d: seq<Op>)
    requires AllNarrow(a, b) && AllNarrow(c, d)
    ensures AllNarrow(a + c, b + d)
  {
  }

  /** The edges among them are the applied ones of AppliedWasSent. */
  lemma {:induction false} EdgesAreApplied(steps: seq<Step>)
    ensures AllNarrow(EdgesIn(RegisterOps(steps)), AppliedEdges(steps))
  {
    if steps != [] {
      var before, step := steps[..|steps| - 1], steps[|steps| - 1];
      EdgesAreApplied(before);
      NowNarrows(Run(before), step);
      EdgesMore(RegisterOps(before), OpNow(Run(before), step));
      NarrowAppend(EdgesIn(RegisterOps(before)), AppliedEdges(before),
                   EdgeNow(Run(before), step), AppliedNow(Run(before), step));
    }
  }

  // ---------------------------------------------------------------- the bytes of a connection

  /** The connection the backend opened last: what was tried on it, the commands then still on their
      way from earlier ones, what the game has applied since, and whether nothing was lost since. */
  datatype Connection = Connection(attempts: seq<CommandLink.Attempt>, carried: seq<Command>,
                                   got: seq<Command>, intact: bool)

  function AttemptOf(cmd: Command, fate: Fate): CommandLink.Attempt {
    if fate.Went? then CommandLink.Sent(cmd) else CommandLink.Failed(cmd, fate.bytes)
  }

  /** The command a step hands to send_command, if it does, and its fate. */
  function Given(s: State, step: Step): Option<(Command, Fate)> {
    match step
    case Send(sid, fate) =>
      if sid !in s.backend.sessions || !s.backend.sessions[sid].pc.Sending? then None
      else
        var pc := s.backend.sessions[sid].pc;
        Some((Command(pc.team, pc.action, pc.phase, pc.value), fate))
    case ReleaseOne(sid, action, fate) =>
      if sid !in s.backend.sessions || !s.backend.sessions[sid].pc.Releasing? ||
         action !in s.backend.sessions[sid].pc.todo then None
      else
        var team := s.backend.sessions[sid].heldTeam;
        Some((Command(if team.Some? then team.value else 0, action, Release, 0), fate))
    case _ => None
  }

  function NextConnection(c: Connection, s: State, step: Step): Connection {
    match step
    case LinkUp => Connection([], s.link.queue, [], true)
    case Lose(_, _) => c.(intact := false)
    case Deliver(_) => if s.link.queue == [] then c else c.(got := c.got + [s.link.queue[0]])
    case _ =>
      var g := Given(s, step);
      if g.Some? && s.link.up then c.(attempts := c.attempts + [AttemptOf(g.value.0, g.value.1)]) else c
  }

  function ConnectionOf(steps: seq<Step>): Connection {
    if steps == [] then Connection([], [], [], true)
    else
      var before := steps[..|steps| - 1];
      NextConnection(ConnectionOf(before), Run(before), steps[|steps| - 1])
  }

  predicate LinkIsConnection(c: Connection, l: Link) {
    && (l.up ==> l.torn == !CommandLink.Clean(c.attempts))
    && (c.intact ==> c.got + l.queue == c.carried + CommandLink.Heard(c.attempts))
  }

  /** One more attempt reaches the game's register exactly when Transmit enqueues it. */
  lemma TransmitIsAttempt(c: Connection, l: Link, cmd: Command, fate: Fate)
    requires LinkIsConnection(c, l) && l.up
    ensures LinkIsConnection(c.(attempts := c.attempts + [AttemptOf(cmd, fate)]), Transmit(l, cmd, fate))
  {
    CommandLink.OneMore(c.attempts, AttemptOf(cmd, fate));
    assert c.got + (l.queue + [cmd]) == c.got + l.queue + [cmd];
    assert c.carried + (CommandLink.Heard(c.attempts) + [cmd]) == c.carried + CommandLink.Heard(c.attempts) + [cmd];
  }

  lemma GivenIsHanded(s: State, step: Step)
    ensures var g := Given(s, step);
            if g.Some? then Do(s, step).link == Transmit(s.link, g.value.0, g.value.1)
            else step.LinkUp? || step.LinkDown? || step.Lose? || step.Deliver? || Do(s, step).link == s.link
  {
  }

  lemma ConnectionStep(c: Connection, s: State, step: Step)
    requires LinkIsConnection(c, s.link)
    ensures LinkIsConnection(NextConnection(c, s, step), Do(s, step).link)
  {
    var g, l := Given(s, step), s.link;
    GivenIsHanded(s, step);
    if g.Some? {
      if l.up { TransmitIsAttempt(c, l, g.value.0, g.value.1); }
    } else if step.Deliver? && l.queue != [] {
      assert c.got + l.queue == c.got + [l.queue[0]] + l.queue[1..];
    } else if step.LinkUp? {
      assert [] + l.queue == l.queue + [];
    }
  }

  /** Over every run the link's queue and torn flag are what the open connection's attempts make of
      them. */
  lemma {:induction false} RunIsConnection(steps: seq<Step>)
    ensures LinkIsConnection(ConnectionOf(steps), Run(steps).link)
  {
    if steps != [] {
      var before := steps[..|steps| - 1];
      RunIsConnection(before);
      ConnectionStep(ConnectionOf(before), Run(before), steps[|steps| - 1]);
    }
  }

  /** So on a connection that found nothing left over and has lost nothing, the bytes written, cut
      into lines and decoded, are the commands the game has applied and those in flight, in order. */
  lemma StreamOfRun(steps: seq<Step>)
    requires var c := ConnectionOf(steps); CommandLink.AllPossible(c.attempts) && c.intact && c.carried == []
    ensures var c := ConnectionOf(steps);
            CommandLink.Outcomes(Framing.Lines(CommandLink.Bytes(c.attempts))) ==
            CommandLink.Effects(c.got + Run(steps).link.queue)
  {
    RunIsConnection(steps);
    var c := ConnectionOf(steps);
    assert [] + CommandLink.Heard(c.attempts) == CommandLink.Heard(c.attempts);
    CommandLink.StreamDecodes(c.attempts);
  }
}
