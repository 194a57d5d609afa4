/** The snapshot stream end to end: game-thread pushes, the connections' byte streams, the backend's
    reader, and the drops and reconnects of both sides, in any interleaving. */
module PushStream {
  import opened Wrappers
  import opened Protocol
  import opened Framing
  import opened PushSender
  import opened StateReader

  /** Connections are numbered in the order the backend opens them and the game accepts them in that
      order. `serving` is the one its IPC thread is in, `reading` the one the backend's reader is in,
      and `read` counts the bytes of it the reader has received. */
  datatype State = State(sender: Sender, serving: Option<nat>, accepted: nat, dialled: nat,
                         reading: Option<nat>, read: nat, reader: Reader, now: nat)

  const INIT := State(Sender(None, 0, map[], []), None, 0, 0, None, 0, FRESH, 0)

  datatype Step =
    | Open                                            // the backend connects
    | Accept                                          // the game's IPC thread takes the next connection
    | EndServe                                        // ... and leaves it
    | PushFrame(snap: GameSnapshot, dt: nat, net: Net) // a game frame, dt ms later
    | Deliver(n: nat)                                 // the reader receives up to n bytes
    | Drop                                            // the reader's connection ends

  function Min(a: nat, b: nat): nat { if a < b then a else b }

  function Do(s: State, step: Step): State {
    match step
    case Open =>
      if s.reading.Some? then s
      else s.(reading := Some(s.dialled), dialled := s.dialled + 1, read := 0, reader := FRESH)
    case Accept =>
      if s.serving.Some? || s.accepted >= s.dialled then s
      else s.(serving := Some(s.accepted), accepted := s.accepted + 1,
              sender := s.sender.(client := Some(s.accepted)))
    case EndServe => s.(serving := None, sender := s.sender.(client := None))
    case PushFrame(snap, dt, net) =>
      s.(now := s.now + dt, sender := Push(s.sender, snap, s.now + dt, net))
    case Deliver(n) =>
      if s.reading.None? then s
      else
        var bytes := StreamOf(s.sender, s.reading.value).bytes;
        var upTo := Min(s.read + n, |bytes|);
        if upTo <= s.read then s
        else s.(read := upTo, reader := Receive(FromWire, s.reader, bytes[s.read..upTo]))
    case Drop => s.(reading := None, reader := FRESH)
  }

  function RunFrom(s: State, steps: seq<Step>): State {
    if steps == [] then s else Do(RunFrom(s, steps[..|steps| - 1]), steps[|steps| - 1])
  }

  function Run(steps: seq<Step>): State { RunFrom(INIT, steps) }

  /** What latest_state() returns. */
  function LatestState(s: State): Latest { s.reader.latest }

  // ---------------------------------------------------------------- what a connection carries

  function Texts(whole: seq<GameSnapshot>): seq<string> {
    seq(|whole|, i requires 0 <= i < |whole| => SnapshotText(whole[i]))
  }

  /** Nothing, or a beginning of some snapshot's line that lacks at least its line feed. */
  ghost predicate IsTorn(partial: string) {
    partial == "" || exists snap :: partial <= SnapshotText(snap)
  }

  /** Whole lines, then a torn one. */
  ghost predicate Framed(st: Stream, partial: string) {
    st.bytes == Join(Texts(st.whole)) + partial && IsTorn(partial)
  }

  predicate Whole(st: Stream) { st.bytes == Join(Texts(st.whole)) }

  ghost predicate WellFramed(st: Stream) { exists partial :: Framed(st, partial) }

  lemma WholeIsFramed(st: Stream)
    requires Whole(st)
    ensures Framed(st, "") && WellFramed(st)
  {
    assert Join(Texts(st.whole)) + "" == Join(Texts(st.whole));
    assert Framed(st, "");
  }

  lemma TextsNoLf(whole: seq<GameSnapshot>)
    ensures forall i | 0 <= i < |whole| :: NoLf(Texts(whole)[i])
  {
    forall i | 0 <= i < |whole| ensures NoLf(Texts(whole)[i]) {
      SnapshotRoundTrip(whole[i]);
    }
  }

  lemma FramedSplits(st: Stream, partial: string)
    requires Framed(st, partial)
    ensures NoLf(partial) && Lines(st.bytes) == Texts(st.whole)
  {
    TextsNoLf(st.whole);
    if partial != "" {
      var snap :| partial <= SnapshotText(snap);
      SnapshotRoundTrip(snap);
      assert forall i | 0 <= i < |partial| :: partial[i] == SnapshotText(snap)[i];
    }
    SplitUnique(Texts(st.whole), partial);
  }

  lemma {:induction false} JoinSnoc(lines: seq<string>, line: string)
    ensures Join(lines + [line]) == Join(lines) + (line + [LF])
  {
    if lines == [] {
      assert [line][1..] == [];
      assert Join([line]) == line + [LF] + [];
    } else {
      assert (lines + [line])[1..] == lines[1..] + [line];
      JoinSnoc(lines[1..], line);
    }
  }

  /** A push leaves a whole connection whole, or tears it and closes it. */
  lemma PushFrames(s: Sender, snap: GameSnapshot, now: nat, net: Net, c: nat)
    requires s.client == Some(c) && Whole(StreamOf(s, c))
    ensures var s1 := Push(s, snap, now, net);
            && StreamOf(s, c).whole <= StreamOf(s1, c).whole
            && StreamOf(s, c).bytes <= StreamOf(s1, c).bytes
            && (s1.client == s.client || s1.client == None)
            && WellFramed(StreamOf(s1, c))
            && (s1.client == Some(c) ==> Whole(StreamOf(s1, c)))
  {
    var s1 := Push(s, snap, now, net);
    var line := StateLine(snap);
    var o := SendFrom(|line|, 0, 0, 0, net);
    SendOutcome(|line|, 0, 0, 0, net);
    var st, st1 := StreamOf(s, c), StreamOf(s1, c);
    if s1 == s {
      WholeIsFramed(st);
    } else if o.pos == |line| {
      assert line[..o.pos] == line;
      assert Texts(st.whole + [snap]) == Texts(st.whole) + [SnapshotText(snap)];
      JoinSnoc(Texts(st.whole), SnapshotText(snap));
      WholeIsFramed(st1);
    } else {
      var partial := line[..o.pos];
      assert partial <= SnapshotText(snap);
      assert Framed(st1, partial);
    }
  }

  // ---------------------------------------------------------------- the invariant

  /** Only the current client of an open connection can be pushed to again, so only its stream is
      still whole; every other stream may end in one torn line. */
  ghost predicate SenderOk(s: State) {
    && s.accepted <= s.dialled
    && (s.sender.client.Some? ==> s.sender.client == s.serving)
    && (s.serving.Some? ==> s.serving.value < s.accepted)
    && (forall c | c in s.sender.wire :: c < s.accepted)
    && (s.sender.client.Some? ==> Whole(StreamOf(s.sender, s.sender.client.value)))
    && (forall c: nat :: WellFramed(StreamOf(s.sender, c)))
  }

  /** The connection being read. */
  function Reading(s: State): Stream {
    if s.reading.Some? then StreamOf(s.sender, s.reading.value) else Stream("", [])
  }

  /** The number of snapshots the reader has received whole on its connection. */
  function Seen(s: State): nat { |Lines(Reading(s).bytes[..Min(s.read, |Reading(s).bytes|)])| }

  /** The reader after `bytes` of a connection that carried `whole`: its buffer is the unfinished
      line and its latest the snapshot of the last complete one. */
  predicate ReaderAt(r: Reader, bytes: string, whole: seq<GameSnapshot>) {
    var k := |Lines(bytes)|;
    && r.buf == Tail(bytes)
    && k <= |whole|
    && r.latest == if k == 0 then None else Some(whole[k - 1])
  }

  predicate ReaderOk(s: State) {
    if s.reading.None? then s.reader == FRESH
    else
      var st := StreamOf(s.sender, s.reading.value);
      && s.reading.value < s.dialled
      && s.read <= |st.bytes|
      && ReaderAt(s.reader, st.bytes[..s.read], st.whole)
  }

  ghost predicate Inv(s: State) { SenderOk(s) && ReaderOk(s) && ThrottleOk(s.sender, s.now) }

  lemma PrefixLines(st: Stream, partial: string, n: nat)
    requires Framed(st, partial) && n <= |st.bytes|
    ensures Lines(st.bytes[..n]) <= Texts(st.whole)
  {
    FramedSplits(st, partial);
    SplitAppend(st.bytes[..n], st.bytes[n..]);
    assert st.bytes[..n] + st.bytes[n..] == st.bytes;
  }

  /** A stream only grows. */
  predicate Grows(a: Stream, b: Stream) { a.whole <= b.whole && a.bytes <= b.bytes }

  lemma SenderStep(s: State, step: Step)
    requires SenderOk(s)
    ensures SenderOk(Do(s, step))
    ensures forall c: nat :: Grows(StreamOf(s.sender, c), StreamOf(Do(s, step).sender, c))
  {
    var t := Do(s, step);
    if step.PushFrame? {
      PushKeepsSender(s.sender, step.snap, t.now, step.net);
    } else {
      QuietSenderStep(s, step);
    }
  }

  /** The other steps move no bytes, and a connection just accepted has carried none. */
  lemma QuietSenderStep(s: State, step: Step)
    requires SenderOk(s) && !step.PushFrame?
    ensures SenderOk(Do(s, step)) && Do(s, step).sender.wire == s.sender.wire
  {
    var t := Do(s, step);
    assert t.sender.wire == s.sender.wire;
    assert forall c: nat :: StreamOf(t.sender, c) == StreamOf(s.sender, c);
    if step.Accept? {
      assert StreamOf(s.sender, s.accepted) == Stream("", []);
      assert Whole(Stream("", []));
    }
  }

  lemma PushKeepsSender(s: Sender, snap: GameSnapshot, now: nat, net: Net)
    requires s.client.Some? ==> Whole(StreamOf(s, s.client.value))
    requires forall c: nat :: WellFramed(StreamOf(s, c))
    ensures var s1 := Push(s, snap, now, net);
            && (s1.client == s.client || s1.client == None)
            && (s1.client.Some? ==> Whole(StreamOf(s1, s1.client.value)))
            && (forall c | c in s1.wire :: c in s.wire || s.client == Some(c))
            && (forall c: nat :: WellFramed(StreamOf(s1, c)))
            && (forall c: nat :: Grows(StreamOf(s, c), StreamOf(s1, c)))
  {
    var s1 := Push(s, snap, now, net);
    if s1 != s {
      var d := s.client.value;
      PushFrames(s, snap, now, net, d);
      assert forall c: nat | c != d :: StreamOf(s1, c) == StreamOf(s, c);
    }
  }

  lemma ReceiveKeepsReader(r: Reader, st: Stream, partial: string, from: nat, upTo: nat)
    requires Framed(st, partial) && from <= upTo <= |st.bytes|
    requires ReaderAt(r, st.bytes[..from], st.whole)
    ensures ReaderAt(Receive(FromWire, r, st.bytes[from..upTo]), st.bytes[..upTo], st.whole)
  {
    assert st.bytes[..from] + st.bytes[from..upTo] == st.bytes[..upTo];
    PrefixLines(st, partial, upTo);
    WireReads(st.whole);
    ReceiveStep(FromWire, r, st.bytes[..from], st.bytes[from..upTo], st.whole);
  }

  predicate Reads(decode: Decoder, whole: seq<GameSnapshot>) {
    forall i | 0 <= i < |whole| :: decode(Texts(whole)[i]) == Some(whole[i])
  }

  lemma WireReads(whole: seq<GameSnapshot>)
    ensures Reads(FromWire, whole)
  {
    forall i | 0 <= i < |whole| ensures FromWire(Texts(whole)[i]) == Some(whole[i]) {
      SnapshotRoundTrip(whole[i]);
    }
  }

  lemma ReceiveStep(decode: Decoder, r: Reader, before: string, chunk: string, whole: seq<GameSnapshot>)
    requires Reads(decode, whole)
    requires ReaderAt(r, before, whole) && Lines(before + chunk) <= Texts(whole)
    ensures ReaderAt(Receive(decode, r, chunk), before + chunk, whole)
  {
    SplitAppend(before, chunk);
    NewestLine(decode, r.latest, whole, Lines(before), Lines(Tail(before) + chunk));
  }

  lemma DeliverKeepsReader(s: State, n: nat)
    requires SenderOk(s) && ReaderOk(s) && s.reading.Some?
    ensures ReaderOk(Do(s, Deliver(n)))
  {
    var st := StreamOf(s.sender, s.reading.value);
    var upTo := Min(s.read + n, |st.bytes|);
    if s.read < upTo {
      var partial :| Framed(st, partial);
      ReceiveKeepsReader(s.reader, st, partial, s.read, upTo);
      assert Do(s, Deliver(n)) == s.(read := upTo, reader := Receive(FromWire, s.reader, st.bytes[s.read..upTo]));
    } else {
      assert Do(s, Deliver(n)) == s;
    }
  }

  /** Handing over the last of the new lines makes its snapshot the latest. */
  lemma NewestLine(decode: Decoder, latest: Latest, whole: seq<GameSnapshot>, before: seq<string>,
                   more: seq<string>)
    requires Reads(decode, whole) && before + more <= Texts(whole)
    requires latest == if |before| == 0 then None else Some(whole[|before| - 1])
    ensures |before| + |more| <= |whole|
    ensures OnLines(decode, latest, LastOf(more)) ==
            if |before| + |more| == 0 then None else Some(whole[|before| + |more| - 1])
  {
    if more != [] {
      var k, last := |before| + |more|, more[|more| - 1];
      assert last == (before + more)[k - 1] == Texts(whole)[k - 1];
      assert [last][..0] == [];
    }
  }

  /** A reader's place in a stream is its place in any longer one. */
  lemma SamePlace(r: Reader, a: Stream, b: Stream, read: nat)
    requires Grows(a, b) && read <= |a.bytes| && ReaderAt(r, a.bytes[..read], a.whole)
    ensures read <= |b.bytes| && ReaderAt(r, b.bytes[..read], b.whole)
  {
    assert b.bytes[..read] == a.bytes[..read];
  }

  lemma PushKeepsReader(s: State, step: Step)
    requires SenderOk(s) && ReaderOk(s) && step.PushFrame?
    ensures ReaderOk(Do(s, step))
  {
    SenderStep(s, step);
    if s.reading.Some? {
      var c := s.reading.value;
      assert Grows(StreamOf(s.sender, c), StreamOf(Do(s, step).sender, c));
      SamePlace(s.reader, StreamOf(s.sender, c), StreamOf(Do(s, step).sender, c), s.read);
    }
  }

  lemma StepKeepsReader(s: State, step: Step)
    requires SenderOk(s) && ReaderOk(s)
    ensures ReaderOk(Do(s, step))
  {
    if step.Deliver? {
      if s.reading.Some? { DeliverKeepsReader(s, step.n); }
    } else if step.PushFrame? {
      PushKeepsReader(s, step);
    } else if step.Open? && s.reading.None? {
      assert StreamOf(s.sender, s.dialled) == Stream("", []);
      assert ""[..0] == "";
    } else {
      assert forall c: nat :: StreamOf(Do(s, step).sender, c) == StreamOf(s.sender, c);
    }
  }

  lemma PushIsPush(s: State, snap: GameSnapshot, dt: nat, net: Net)
    ensures var t := Do(s, PushFrame(snap, dt, net));
            t.now == s.now + dt && t.sender == Push(s.sender, snap, s.now + dt, net)
  {
  }

  lemma PushKeepsThrottle(s: State, snap: GameSnapshot, dt: nat, net: Net)
    requires ThrottleOk(s.sender, s.now)
    ensures var t := Do(s, PushFrame(snap, dt, net)); ThrottleOk(t.sender, t.now)
  {
    PushIsPush(s, snap, dt, net);
    PushThrottled(s.sender, snap, s.now, s.now + dt, net);
  }

  lemma QuietKeepsThrottle(s: State, step: Step)
    requires ThrottleOk(s.sender, s.now) && !step.PushFrame?
    ensures ThrottleOk(Do(s, step).sender, Do(s, step).now)
  {
    QuietClock(s, step);
  }

  lemma StepKeepsThrottle(s: State, step: Step)
    requires ThrottleOk(s.sender, s.now)
    ensures ThrottleOk(Do(s, step).sender, Do(s, step).now)
  {
    if step.PushFrame? {
      PushKeepsThrottle(s, step.snap, step.dt, step.net);
    } else {
      QuietKeepsThrottle(s, step);
    }
  }

  lemma QuietClock(s: State, step: Step)
    requires !step.PushFrame?
    ensures var t := Do(s, step);
            t.now == s.now && t.sender.attempts == s.sender.attempts && t.sender.lastTick == s.sender.lastTick
  {
  }

  lemma StepKeepsInv(s: State, step: Step)
    requires Inv(s)
    ensures Inv(Do(s, step))
  {
    SenderStep(s, step);
    StepKeepsReader(s, step);
    StepKeepsThrottle(s, step);
  }

  lemma {:induction false} RunInv(s: State, steps: seq<Step>)
    requires Inv(s)
    ensures Inv(RunFrom(s, steps))
  {
    if steps != [] {
      RunInv(s, steps[..|steps| - 1]);
      StepKeepsInv(RunFrom(s, steps[..|steps| - 1]), steps[|steps| - 1]);
    }
  }

  lemma Reached(steps: seq<Step>)
    ensures Inv(Run(steps))
  {
    assert forall c: nat :: StreamOf(INIT.sender, c) == Stream("", []);
    WholeIsFramed(Stream("", []));
    RunInv(INIT, steps);
  }

  // ---------------------------------------------------------------- main results

  /** In every reachable state, latest_state() is None while no connection is being read, and
      otherwise exactly the last snapshot of those the reader has received whole; each of these was
      passed whole to pushState on that connection. */
  lemma LatestWasPushed(steps: seq<Step>)
    ensures var s := Run(steps);
            if s.reading.None? then LatestState(s) == None
            else && Seen(s) <= |Reading(s).whole|
                 && LatestState(s) == if Seen(s) == 0 then None else Some(Reading(s).whole[Seen(s) - 1])
  {
    Reached(steps);
  }

  predicate NotBehind(s: State, t: State) {
    Seen(s) <= Seen(t) && Reading(s).whole <= Reading(t).whole
  }

  /** Within one connection it never moves back to an older snapshot, however the run goes on. */
  lemma LatestNeverBack(steps: seq<Step>, more: seq<Step>)
    requires Run(steps).reading.Some? && RunFrom(Run(steps), more).reading == Run(steps).reading
    ensures Seen(Run(steps)) <= Seen(RunFrom(Run(steps), more))
    ensures Reading(Run(steps)).whole <= Reading(RunFrom(Run(steps), more)).whole
  {
    Reached(steps);
    NeverBackFrom(Run(steps), more);
  }

  lemma {:induction false} NeverBackFrom(s: State, more: seq<Step>)
    requires Inv(s)
    requires s.reading.Some? && RunFrom(s, more).reading == s.reading
    ensures NotBehind(s, RunFrom(s, more))
  {
    if more != [] {
      var almost := more[..|more| - 1];
      RunInv(s, almost);
      DialledGrows(s, almost);
      StaysReading(s, RunFrom(s, almost), more[|more| - 1]);
      NeverBackFrom(s, almost);
      SeenStep(RunFrom(s, almost), more[|more| - 1]);
    }
  }

  lemma StaysReading(s: State, t: State, step: Step)
    requires Inv(s) && s.reading.Some? && s.dialled <= t.dialled
    requires Do(t, step).reading == s.reading
    ensures t.reading == s.reading
  {
  }

  /** Connection numbers are not reused: reading the same one again means never having left it. */
  lemma {:induction false} DialledGrows(s: State, more: seq<Step>)
    ensures s.dialled <= RunFrom(s, more).dialled
  {
    if more != [] { DialledGrows(s, more[..|more| - 1]); }
  }

  lemma SeenStep(s: State, step: Step)
    requires Inv(s) && s.reading.Some? && Do(s, step).reading == s.reading
    ensures NotBehind(s, Do(s, step))
  {
    var t := Do(s, step);
    SenderStep(s, step);
    StepKeepsReader(s, step);
    var c := s.reading.value;
    assert Grows(StreamOf(s.sender, c), StreamOf(t.sender, c));
    MoreLines(Reading(s).bytes, Reading(t).bytes, s.read, t.read);
  }

  lemma MoreLines(a: string, b: string, i: nat, j: nat)
    requires a <= b && i <= |a| && i <= j <= |b|
    ensures |Lines(a[..i])| <= |Lines(b[..j])|
  {
    assert b[..j] == a[..i] + b[i..j];
    SplitAppend(a[..i], b[i..j]);
  }

  /** Over every run, the bytes accepted on a connection are whole lines plus at most one proper
      prefix of a line, and a torn connection is never pushed to again. */
  lemma SenderFraming(steps: seq<Step>, c: nat, more: seq<Step>)
    ensures WellFramed(StreamOf(Run(steps).sender, c))
    ensures !Whole(StreamOf(Run(steps).sender, c)) ==>
              StreamOf(RunFrom(Run(steps), more).sender, c) == StreamOf(Run(steps).sender, c)
  {
    Reached(steps);
    if !Whole(StreamOf(Run(steps).sender, c)) { TornIsFinal(Run(steps), c, more); }
  }

  lemma {:induction false} TornIsFinal(s: State, c: nat, more: seq<Step>)
    requires Inv(s) && !Whole(StreamOf(s.sender, c))
    ensures StreamOf(RunFrom(s, more).sender, c) == StreamOf(s.sender, c)
  {
    if more != [] {
      var almost := more[..|more| - 1];
      TornIsFinal(s, c, almost);
      RunInv(s, almost);
      TornStep(RunFrom(s, almost), more[|more| - 1], c);
    }
  }

  lemma TornStep(s: State, step: Step, c: nat)
    requires s.sender.client.Some? ==> Whole(StreamOf(s.sender, s.sender.client.value))
    requires !Whole(StreamOf(s.sender, c))
    ensures StreamOf(Do(s, step).sender, c) == StreamOf(s.sender, c)
  {
  }

  /** Over every run, pushes that pass the throttle with a client are 15 ms apart. */
  lemma RunThrottled(steps: seq<Step>)
    ensures Spaced(Run(steps).sender.attempts)
  {
    Reached(steps);
  }

  // ---------------------------------------------------------------- what is pushed arrives

  /** A backend that connects to an idle game is served on the connection it reads. */
  lemma Connects(s: State)
    requires s.reading.None? && s.serving.None? && s.accepted == s.dialled
    ensures var t := Do(Do(s, Open), Accept);
            && t.reading == t.serving == t.sender.client == Some(s.dialled)
            && t.sender.wire == s.sender.wire && t.now == s.now && t.sender.lastTick == s.sender.lastTick
  {
  }

  /** A dropped connection leaves nothing to read, and a served one that ends no client to push to. */
  lemma Ends(s: State, snap: GameSnapshot, dt: nat, net: Net)
    ensures Do(s, Drop).reading == None && LatestState(Do(s, Drop)) == None
    ensures Do(s, EndServe).serving == None
    ensures Do(Do(s, EndServe), PushFrame(snap, dt, net)).sender.wire == s.sender.wire
  {
  }

  /** Once all bytes are received, latest_state() is the last snapshot sent whole, if any. */
  lemma CaughtUp(s: State)
    requires Inv(s) && s.reading.Some? && s.read == |Reading(s).bytes|
    ensures var whole := Reading(s).whole;
            LatestState(s) == if whole == [] then None else Some(whole[|whole| - 1])
  {
    var st := Reading(s);
    assert st.bytes[..s.read] == st.bytes;
    var partial :| Framed(st, partial);
    FramedSplits(st, partial);
    assert |Texts(st.whole)| == |st.whole|;
  }

  lemma DeliverRest(s: State, n: nat)
    requires s.reading.Some? && s.read <= |Reading(s).bytes| <= s.read + n
    ensures var t := Do(s, Deliver(n));
            t.read == |Reading(t).bytes| && Reading(t) == Reading(s) && t.reading == s.reading
  {
  }

  /** In any reachable state with the client's connection being read and the throttle open, a snapshot
      pushed to a network that takes it and then received is what latest_state() returns. */
  lemma PushedArrives(steps: seq<Step>, snap: GameSnapshot, dt: nat, net: Net, n: nat)
    requires var s := Run(steps);
             && s.reading.Some? && s.sender.client == s.reading && Elapsed(s.now + dt, s.sender.lastTick) >= 15
    requires (forall k: nat :: net(k).Took?)
    requires n >= |Reading(Do(Run(steps), PushFrame(snap, dt, net))).bytes|
    ensures LatestState(Do(Do(Run(steps), PushFrame(snap, dt, net)), Deliver(n))) == Some(snap)
  {
    Reached(steps);
    var s := Run(steps);
    var t := Do(s, PushFrame(snap, dt, net));
    PushIsPush(s, snap, dt, net);
    PushDelivers(s.sender, snap, s.now + dt, net);
    StepKeepsInv(s, PushFrame(snap, dt, net));
    assert t.reading == s.reading && Reading(t).whole == Reading(s).whole + [snap];
    DeliverRest(t, n);
    StepKeepsInv(t, Deliver(n));
    CaughtUp(Do(t, Deliver(n)));
  }

  /** From the start: connect, be served, push, receive. */
  lemma FirstSnapshotArrives(snap: GameSnapshot, dt: nat, net: Net, n: nat)
    requires 15 <= dt < 0x1_0000_0000 && (forall k: nat :: net(k).Took?)
    requires n >= |Reading(Do(Run([Open, Accept]), PushFrame(snap, dt, net))).bytes|
    ensures LatestState(Do(Do(Run([Open, Accept]), PushFrame(snap, dt, net)), Deliver(n))) == Some(snap)
  {
    var steps := [Open, Accept];
    assert steps[..1] == [Open] && [Open][..0] == [];
    assert Run(steps) == Do(Do(INIT, Open), Accept);
    Connects(INIT);
    PushedArrives(steps, snap, dt, net, n);
  }
}
