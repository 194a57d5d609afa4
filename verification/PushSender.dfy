/** The game thread's side of the snapshot stream: a throttled, all-or-nothing push of one line to
    the connected backend. */
module PushSender {
  import opened Wrappers
  import opened Protocol

  /** What one send() call returns: it took at least one byte (and never more than offered), it would
      block, or it failed. */
  datatype SendResult = Took(extra: nat) | WouldBlock | Failed

  /** The network's answers, by call number within one push. */
  type Net = nat -> SendResult

  function Accepted(r: SendResult, remaining: nat): (n: nat)
    requires r.Took? && remaining > 0
    ensures 0 < n <= remaining
  {
    if r.extra < remaining then r.extra + 1 else remaining
  }

  const MAX_SPINS: nat := 200

  /** Where a push stopped: bytes taken, send calls made, and whether it closed the connection. */
  datatype Outcome = Outcome(pos: nat, calls: nat, closed: bool)

  function SendFrom(len: nat, pos: nat, spins: nat, calls: nat, net: Net): (o: Outcome)
    requires pos <= len && spins <= MAX_SPINS
    decreases len - pos + MAX_SPINS - spins
  {
    if pos == len then Outcome(pos, calls, false)
    else match net(calls)
         case Took(_) => SendFrom(len, pos + Accepted(net(calls), len - pos), spins, calls + 1, net)
         case WouldBlock =>
           if pos == 0 then Outcome(0, calls + 1, false)
           else if spins + 1 > MAX_SPINS then Outcome(pos, calls + 1, true)
           else SendFrom(len, pos, spins + 1, calls + 1, net)
         case Failed => Outcome(pos, calls + 1, true)
  }

  /** Whatever the network answers: a push that leaves the connection open sent the whole line or
      none of it, one that closes it sent a proper prefix, and no push makes more than the line's
      length plus 200 send calls. */
  lemma {:induction false} SendOutcome(len: nat, pos: nat, spins: nat, calls: nat, net: Net)
    requires pos <= len && spins <= MAX_SPINS
    ensures var o := SendFrom(len, pos, spins, calls, net);
            && pos <= o.pos <= len
            && (o.closed ==> o.pos < len)
            && (!o.closed ==> o.pos == len || o.pos == pos == 0)
            && calls <= o.calls <= calls + (len - pos) + (MAX_SPINS - spins)
    decreases len - pos + MAX_SPINS - spins
  {
    if pos < len {
      match net(calls)
      case Took(_) => SendOutcome(len, pos + Accepted(net(calls), len - pos), spins, calls + 1, net);
      case WouldBlock =>
        if pos != 0 && spins < MAX_SPINS { SendOutcome(len, pos, spins + 1, calls + 1, net); }
      case Failed =>
    }
  }

  /** How many of the calls numbered `from` to `upTo` would have blocked ... */
  function Blocked(net: Net, from: nat, upTo: nat): nat
    decreases upTo - from
  {
    if from >= upTo then 0 else Blocked(net, from + 1, upTo) + if net(from).WouldBlock? then 1 else 0
  }

  /** ... and how many bytes they took at most. */
  function Taken(net: Net, from: nat, upTo: nat): nat
    decreases upTo - from
  {
    if from >= upTo then 0
    else Taken(net, from + 1, upTo) + if net(from).Took? then net(from).extra + 1 else 0
  }

  /** No call between `from` and `upTo` failed, except the last if `closed`. */
  predicate FailsOnlyLast(net: Net, from: nat, upTo: nat, closed: bool) {
    forall k | from <= k < upTo && net(k).Failed? :: closed && k == upTo - 1
  }

  /** Once a line is begun, the connection is closed exactly by a failure or by one would-block more
      than 200; until then the line goes on, and without either it is finished. */
  lemma {:induction false} BegunLine(len: nat, pos: nat, spins: nat, calls: nat, net: Net)
    requires 0 < pos <= len && spins <= 200
    ensures var o := SendFrom(len, pos, spins, calls, net);
            && calls <= o.calls && FailsOnlyLast(net, calls, o.calls, o.closed)
            && o.pos <= len && (o.closed <==> o.pos < len)
            && (o.closed ==> o.calls > calls)
            && (o.closed <==> (o.calls > calls && net(o.calls - 1).Failed?) ||
                              spins + Blocked(net, calls, o.calls) > 200)
            && (o.closed ==> o.pos == pos + Taken(net, calls, o.calls))
            && (!o.closed ==> len <= pos + Taken(net, calls, o.calls))
    decreases len - pos + 200 - spins
  {
    if pos < len {
      match net(calls)
      case Took(_) => BegunLine(len, pos + Accepted(net(calls), len - pos), spins, calls + 1, net);
      case WouldBlock => if spins < 200 { BegunLine(len, pos, spins + 1, calls + 1, net); }
      case Failed =>
    }
  }

  lemma FirstRefused(len: nat, net: Net)
    requires len > 0 && !net(0).Took?
    ensures SendFrom(len, 0, 0, 0, net) == Outcome(0, 1, net(0).Failed?)
  {
    var pos, calls := 0, 0;
    assert SendFrom(len, pos, 0, calls, net) == Outcome(0, 1, net(calls).Failed?);
  }

  /** One push of a line, by the network's answers. A first call that would block drops the line and
      one that fails closes; a line begun is finished unless an answer fails or more than 200 would
      block, which closes the connection after the bytes taken till then. */
  lemma SendExactly(len: nat, net: Net)
    requires len > 0
    ensures var o := SendFrom(len, 0, 0, 0, net);
            match net(0)
            case WouldBlock => o == Outcome(0, 1, false)
            case Failed => o == Outcome(0, 1, true)
            case Took(_) =>
              && o.calls >= 1 && FailsOnlyLast(net, 0, o.calls, o.closed)
              && (o.closed <==> net(o.calls - 1).Failed? || Blocked(net, 0, o.calls) > 200)
              && (o.closed ==> o.pos == Taken(net, 0, o.calls) < len)
              && (!o.closed ==> o.pos == len)
  {
    if net(0).Took? {
      var o, n := SendFrom(len, 0, 0, 0, net), Accepted(net(0), len);
      assert o == SendFrom(len, n, 0, 1, net);
      BegunLine(len, n, 0, 1, net);
      assert Blocked(net, 0, o.calls) == Blocked(net, 1, o.calls);
      assert Taken(net, 0, o.calls) == Taken(net, 1, o.calls) + net(0).extra + 1;
    } else {
      FirstRefused(len, net);
    }
  }

  /** So if the first call takes something, none of the calls made fails and at most 200 of them would
      block, the whole line is out and the connection stays. */
  lemma LineFinished(len: nat, net: Net)
    requires len > 0 && net(0).Took?
    requires var o := SendFrom(len, 0, 0, 0, net);
             Blocked(net, 0, o.calls) <= 200 && forall k | 0 <= k < o.calls :: !net(k).Failed?
    ensures var o := SendFrom(len, 0, 0, 0, net); o.pos == len && !o.closed
  {
    SendExactly(len, net);
  }

  // ---------------------------------------------------------------- the sender

  const TICKS: nat := 0x1_0000_0000
  const THROTTLE_MS: nat := 15

  /** What the network accepted on one connection, and the snapshots it accepted whole. */
  datatype Stream = Stream(bytes: string, whole: seq<GameSnapshot>)

  /** `attempts` are the true times of the pushes that passed the throttle with a client. */
  datatype Sender = Sender(client: Option<nat>, lastTick: nat, wire: map<nat, Stream>, attempts: seq<nat>)

  /** Unsigned 32-bit tick difference. */
  function Elapsed(now: nat, lastTick: nat): nat { (now % TICKS - lastTick) % TICKS }

  function StreamOf(s: Sender, c: nat): Stream { if c in s.wire then s.wire[c] else Stream("", []) }

  function Push(s: Sender, snap: GameSnapshot, now: nat, net: Net): Sender {
    if Elapsed(now, s.lastTick) < THROTTLE_MS || s.client.None? then s
    else
      var line := StateLine(snap);
      var o := SendFrom(|line|, 0, 0, 0, net);
      SendOutcome(|line|, 0, 0, 0, net);
      var st := StreamOf(s, s.client.value);
      var st1 := Stream(st.bytes + line[..o.pos],
                        if o.pos == |line| then st.whole + [snap] else st.whole);
      Sender(if o.closed then None else s.client, now % TICKS, s.wire[s.client.value := st1],
             s.attempts + [now])
  }

  class IpcServer {
    var client: Option<nat>
    var lastPushTick: nat
    ghost var wire: map<nat, Stream>
    ghost var attempts: seq<nat>

    ghost function View(): Sender
      reads this
    {
      Sender(client, lastPushTick, wire, attempts)
    }

    constructor ()
      ensures View() == Sender(None, 0, map[], [])
    {
      client, lastPushTick, wire, attempts := None, 0, map[], [];
    }

    method SetClient(c: Option<nat>)
      modifies this
      ensures View() == old(View()).(client := c)
    {
      client := c;
    }

    /** The send loop: ends with the line out, dropped before its first byte, or the client closed.
        `sent` counts what the network took. */
    method SendLine(line: string, net: Net) returns (sent: nat)
      requires client.Some? && client.value in wire
      modifies this`client, this`wire
      ensures var c, o := old(client).value, SendFrom(|line|, 0, 0, 0, net);
              && sent == o.pos <= |line|
              && client == (if o.closed then None else Some(c))
              && wire == old(wire)[c := Stream(old(wire)[c].bytes + line[..sent], old(wire)[c].whole)]
    {
      var pos, spins, calls := 0, 0, 0;
      ghost var c, st := client.value, wire[client.value];
      assert st.bytes + line[..0] == st.bytes;
      while pos < |line|
        invariant 0 <= pos <= |line| && 0 <= spins <= MAX_SPINS
        invariant SendFrom(|line|, pos, spins, calls, net) == SendFrom(|line|, 0, 0, 0, net)
        invariant client == Some(c) && wire == old(wire)[c := Stream(st.bytes + line[..pos], st.whole)]
        decreases |line| - pos + MAX_SPINS - spins
      {
        var answer := net(calls);
        calls := calls + 1;
        if answer.Took? {
          var n := Accepted(answer, |line| - pos);
          assert st.bytes + line[..pos] + line[pos..pos + n] == st.bytes + line[..pos + n];
          wire := wire[c := Stream(wire[c].bytes + line[pos..pos + n], st.whole)];
          pos := pos + n;
          continue;
        }
        if answer.WouldBlock? {
          if pos == 0 { return 0; }
          spins := spins + 1;
          if spins > MAX_SPINS {
            client := None;
            return pos;
          }
          continue;
        }
        client := None;
        return pos;
      }
      return pos;
    }

    method PushState(snapshot: GameSnapshot, now: nat, net: Net)
      modifies this
      ensures View() == Push(old(View()), snapshot, now, net)
    {
      var tick := now % TICKS;
      if (tick - lastPushTick) % TICKS < THROTTLE_MS { return; }
      if client.None? { return; }
      lastPushTick := tick;
      attempts := attempts + [now];
      var line := StateLine(snapshot);
      ghost var c := client.value;
      wire := wire[c := StreamOf(View(), c)];
      var sent := SendLine(line, net);
      if sent == |line| {
        wire := wire[c := Stream(wire[c].bytes, wire[c].whole + [snapshot])];
      }
    }
  }

  /** A push with a client, 15 ms or more after the last one by the 32-bit tick, is an attempt: it sets
      the tick, sends what SendExactly says on that client's connection and no other, and records the
      snapshot exactly when its whole line went out. Any other push changes nothing. */
  lemma PushExactly(s: Sender, snap: GameSnapshot, now: nat, net: Net)
    ensures var s1, line := Push(s, snap, now, net), StateLine(snap);
            var o := SendFrom(|line|, 0, 0, 0, net);
            if s.client.None? || (now % 0x1_0000_0000 - s.lastTick) % 0x1_0000_0000 < 15 then s1 == s
            else
              var c := s.client.value;
              && s1.attempts == s.attempts + [now] && s1.lastTick == now % 0x1_0000_0000
              && s1.client == (if o.closed then None else Some(c))
              && o.pos <= |line| && StreamOf(s1, c).bytes == StreamOf(s, c).bytes + line[..o.pos]
              && StreamOf(s1, c).whole == StreamOf(s, c).whole + (if o.pos == |line| then [snap] else [])
              && forall d: nat | d != c :: StreamOf(s1, d) == StreamOf(s, d)
  {
    SendOutcome(|StateLine(snap)|, 0, 0, 0, net);
  }

  /** With the throttle open and a client connected, a network that takes bytes whenever asked gets
      the whole line; one that would block at once gets nothing of it; the connection stays open. */
  lemma PushDelivers(s: Sender, snap: GameSnapshot, now: nat, net: Net)
    requires s.client.Some? && Elapsed(now, s.lastTick) >= 15
    ensures (forall k: nat :: net(k).Took?) ==>
              var s1, c := Push(s, snap, now, net), s.client.value;
              s1.client == s.client && StreamOf(s1, c).whole == StreamOf(s, c).whole + [snap]
    ensures net(0).WouldBlock? ==>
              var s1, c := Push(s, snap, now, net), s.client.value;
              s1.client == s.client && StreamOf(s1, c) == StreamOf(s, c)
  {
    var line := StateLine(snap);
    if forall k: nat :: net(k).Took? { AllTaken(|line|, 0, 0, net); }
    if net(0).WouldBlock? { assert StreamOf(s, s.client.value).bytes + line[..0] == StreamOf(s, s.client.value).bytes; }
  }

  lemma {:induction false} AllTaken(len: nat, pos: nat, calls: nat, net: Net)
    requires pos <= len && forall k: nat :: net(k).Took?
    ensures SendFrom(len, pos, 0, calls, net).pos == len && !SendFrom(len, pos, 0, calls, net).closed
    decreases len - pos
  {
    if pos < len { AllTaken(len, pos + Accepted(net(calls), len - pos), calls + 1, net); }
  }

  // ---------------------------------------------------------------- throttle

  predicate Spaced(times: seq<nat>) {
    forall i | 0 <= i < |times| - 1 :: times[i] + 15 <= times[i + 1]
  }

  /** The throttle's memory is the tick of the last attempt, which is not in the future. */
  predicate ThrottleOk(s: Sender, now: nat) {
    && Spaced(s.attempts)
    && (s.attempts != [] ==> s.attempts[|s.attempts| - 1] <= now &&
                             s.lastTick == s.attempts[|s.attempts| - 1] % TICKS)
  }

  /** Despite the wrap-around of the 32-bit tick count, two attempts are 15 ms apart in true time. */
  lemma PushThrottled(s: Sender, snap: GameSnapshot, before: nat, now: nat, net: Net)
    requires ThrottleOk(s, before) && before <= now
    ensures ThrottleOk(Push(s, snap, now, net), now)
  {
    if s.attempts != [] && Elapsed(now, s.lastTick) >= THROTTLE_MS {
      var last := s.attempts[|s.attempts| - 1];
      TickGap(last, now);
    }
  }

  lemma TickGap(last: nat, now: nat)
    requires last <= now
    ensures Elapsed(now, last % 0x1_0000_0000) == (now - last) % 0x1_0000_0000 <= now - last
  {
  }

  lemma {:induction false} SpacedApart(times: seq<nat>, i: nat, j: nat)
    requires Spaced(times) && i <= j < |times|
    ensures times[i] + 15 * (j - i) <= times[j]
  {
    if i < j { SpacedApart(times, i, j - 1); }
  }

  /** So any window of `T` ms holds at most T/15 + 1 attempts. */
  lemma AttemptsInWindow(times: seq<nat>, i: nat, j: nat, from: nat, T: nat)
    requires Spaced(times) && i <= j < |times|
    requires from <= times[i] && times[j] <= from + T
    ensures j - i + 1 <= T / 15 + 1
  {
    SpacedApart(times, i, j);
  }
}
