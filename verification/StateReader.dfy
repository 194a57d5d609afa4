/** The backend's stream reader (TcpIpcTransport): it keeps the newest snapshot of the lines the
    game pushes, skipping every line already overtaken inside one received chunk. */
module StateReader {
  import opened Wrappers
  import opened Protocol
  import opened Framing

  type Latest = Option<GameSnapshot>

  /** How a line is read, None when it is blank or malformed; FromWire is the one in use. */
  type Decoder = string -> Latest

  /** `_on_line`: a line that cannot be read changes nothing. */
  function OnLine(decode: Decoder, latest: Latest, line: string): Latest {
    if decode(line).Some? then decode(line) else latest
  }

  function OnLines(decode: Decoder, latest: Latest, lines: seq<string>): Latest {
    if lines == [] then latest
    else OnLine(decode, OnLines(decode, latest, lines[..|lines| - 1]), lines[|lines| - 1])
  }

  function LastOf(lines: seq<string>): seq<string> {
    if lines == [] then [] else [lines[|lines| - 1]]
  }

  /** One connection's reader. `handed` lists every line given to `_on_line`. */
  datatype Reader = Reader(buf: string, latest: Latest, handed: seq<string>)

  const FRESH := Reader("", None, [])

  function Receive(decode: Decoder, r: Reader, chunk: string): Reader {
    var s := r.buf + chunk;
    var last := LastOf(Lines(s));
    Reader(Tail(s), OnLines(decode, r.latest, last), r.handed + last)
  }

  function ReceiveAll(decode: Decoder, chunks: seq<string>): Reader {
    if chunks == [] then FRESH
    else Receive(decode, ReceiveAll(decode, chunks[..|chunks| - 1]), chunks[|chunks| - 1])
  }

  class TcpReader {
    const decode: Decoder
    var buf: string
    var latest: Latest
    ghost var handed: seq<string>

    ghost function View(): Reader
      reads this
    {
      Reader(buf, latest, handed)
    }

    constructor ()
      ensures View() == FRESH && decode == FromWire
    {
      decode := FromWire;
      buf, latest, handed := "", None, [];
    }

    method OnLineReceived(line: string)
      modifies this
      ensures buf == old(buf)
      ensures latest == OnLine(decode, old(latest), line) && handed == old(handed) + [line]
    {
      var snap := decode(line);
      handed := handed + [line];
      if snap.Some? {
        latest := snap;
      }
    }

    /** One pass of the receive loop: extend the buffer, drop every complete line but the last. */
    method Consume(chunk: string)
      modifies this
      ensures View() == Receive(decode, old(View()), chunk)
    {
      buf := buf + chunk;
      ghost var s := buf;
      while FirstLf(buf) < |buf|
        invariant Tail(buf) == Tail(s) && LastOf(Lines(buf)) == LastOf(Lines(s))
        invariant latest == old(latest) && handed == old(handed)
        decreases |buf|
      {
        var i := FirstLf(buf);
        var line, rest := buf[..i], buf[i + 1..];
        if FirstLf(rest) == |rest| {
          assert OnLines(decode, latest, [line]) == OnLine(decode, latest, line) by {
            assert [line][..0] == [];
          }
          OnLineReceived(line);
          buf := rest;
          return;
        }
        buf := rest;
      }
    }

    /** The connection dropped: offline until a line of the next one arrives. */
    method Dropped()
      modifies this
      ensures View() == Reader("", None, old(handed))
    {
      buf, latest := "", None;
    }

    method LatestState() returns (snap: Latest)
      ensures snap == latest
    {
      snap := latest;
    }
  }

  // ---------------------------------------------------------------- any chunking

  /** Number of complete lines at the end of each chunk that completed one. */
  function Ends(chunks: seq<string>): seq<nat> {
    if chunks == [] then []
    else
      var before := chunks[..|chunks| - 1];
      var n := |Lines(Flat(chunks))|;
      Ends(before) + if n > |Lines(Flat(before))| then [n] else []
  }

  /** `handed` is a selection of `lines` in order: its i-th line is the one numbered ends[i], and the
      last complete line has been handed over. */
  predicate Selection(lines: seq<string>, handed: seq<string>, ends: seq<nat>) {
    && |handed| == |ends|
    && (forall i | 0 <= i < |ends| :: 0 < ends[i] <= |lines| && handed[i] == lines[ends[i] - 1])
    && (forall i, j | 0 <= i < j < |ends| :: ends[i] < ends[j])
    && (lines != [] ==> ends != [] && ends[|ends| - 1] == |lines|)
  }

  lemma SelectionGrows(lines: seq<string>, handed: seq<string>, ends: seq<nat>, more: seq<string>)
    requires Selection(lines, handed, ends)
    ensures Selection(lines + more, handed + LastOf(more),
                      ends + if more != [] then [|lines| + |more|] else [])
  {
    if more == [] {
      assert lines + more == lines && handed + LastOf(more) == handed;
      assert ends + [] == ends;
    }
  }

  /** After every chunk the buffer is the text after the last line feed, and the lines handed over
      are an increasing selection of the complete lines, one for each chunk that completed any. */
  lemma {:induction false} HandedSelection(decode: Decoder, chunks: seq<string>)
    ensures ReceiveAll(decode, chunks).buf == Tail(Flat(chunks))
    ensures Selection(Lines(Flat(chunks)), ReceiveAll(decode, chunks).handed, Ends(chunks))
  {
    if chunks != [] {
      var before, chunk := chunks[..|chunks| - 1], chunks[|chunks| - 1];
      HandedSelection(decode, before);
      SplitAppend(Flat(before), chunk);
      var more := Lines(Tail(Flat(before)) + chunk);
      SelectionGrows(Lines(Flat(before)), ReceiveAll(decode, before).handed, Ends(before), more);
    }
  }

  lemma {:induction false} LatestFromHanded(decode: Decoder, chunks: seq<string>)
    ensures ReceiveAll(decode, chunks).latest == OnLines(decode, None, ReceiveAll(decode, chunks).handed)
  {
    if chunks != [] {
      var before := ReceiveAll(decode, chunks[..|chunks| - 1]);
      LatestFromHanded(decode, chunks[..|chunks| - 1]);
      var last := LastOf(Lines(before.buf + chunks[|chunks| - 1]));
      assert (before.handed + last)[..|before.handed|] == before.handed;
      if last == [] {
        assert before.handed + last == before.handed;
      } else {
        assert last[..0] == [];
        assert OnLines(decode, before.latest, last) == OnLine(decode, before.latest, last[0]);
        assert (before.handed + last)[|before.handed|] == last[0];
      }
    }
  }

  predicate Good(decode: Decoder, line: string) { decode(line).Some? }

  lemma {:induction false} OnLinesMeaning(decode: Decoder, lines: seq<string>)
    ensures lines != [] && Good(decode, lines[|lines| - 1]) ==>
              OnLines(decode, None, lines) == decode(lines[|lines| - 1])
    ensures OnLines(decode, None, lines) == None <==> forall i | 0 <= i < |lines| :: !Good(decode, lines[i])
  {
    if lines != [] { OnLinesMeaning(decode, lines[..|lines| - 1]); }
  }

  /** A reader that parses every line. */
  function Naive(decode: Decoder, stream: string): Latest { OnLines(decode, None, Lines(stream)) }

  /** The last complete line parses, or no complete line does. */
  predicate EndsWell(decode: Decoder, stream: string) {
    var lines := Lines(stream);
    lines == [] || Good(decode, lines[|lines| - 1]) || forall i | 0 <= i < |lines| :: !Good(decode, lines[i])
  }

  lemma SkippingAgrees(decode: Decoder, chunks: seq<string>)
    requires EndsWell(decode, Flat(chunks))
    ensures ReceiveAll(decode, chunks).latest == Naive(decode, Flat(chunks))
  {
    HandedSelection(decode, chunks);
    LatestFromHanded(decode, chunks);
    OnLinesMeaning(decode, ReceiveAll(decode, chunks).handed);
    OnLinesMeaning(decode, Lines(Flat(chunks)));
  }

  /** In one chunk, a bad last line hides the good ones before it. */
  lemma OneChunk(decode: Decoder, stream: string)
    ensures Flat([stream]) == stream
    ensures !EndsWell(decode, stream) ==> ReceiveAll(decode, [stream]).latest == None && Naive(decode, stream) != None
  {
    var one := [stream];
    assert one[..0] == [] && Flat([]) == "" && "" + stream == stream;
    HandedSelection(decode, one);
    LatestFromHanded(decode, one);
    var lines := Lines(stream);
    OnLinesMeaning(decode, lines);
    if !EndsWell(decode, stream) {
      assert ReceiveAll(decode, one) == Receive(decode, FRESH, stream);
      assert ReceiveAll(decode, one).handed == LastOf(lines);
      OnLinesMeaning(decode, ReceiveAll(decode, one).handed);
    }
  }

  /** However lines are read, the skip-stale reader is the naive one under every chunking of a stream
      exactly when the stream ends well. */
  lemma SkipStaleRefinesNaive(decode: Decoder, stream: string)
    ensures (forall chunks | Flat(chunks) == stream :: ReceiveAll(decode, chunks).latest == Naive(decode, stream))
            <==> EndsWell(decode, stream)
  {
    if EndsWell(decode, stream) {
      forall chunks | Flat(chunks) == stream
        ensures ReceiveAll(decode, chunks).latest == Naive(decode, stream)
      {
        SkippingAgrees(decode, chunks);
      }
    } else {
      OneChunk(decode, stream);
    }
  }
}
