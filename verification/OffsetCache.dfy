/** The memo of resolved signatures and its text file. */
module OffsetCache {
  import opened Wrappers
  import opened PatternScanner

  type Addrs = map<string, nat>

  datatype Entry = Entry(name: string, addr: nat)

  // ---------------------------------------------------------------- the file's text

  predicate IsSpace(c: char) {
    c == ' ' || c == '\t' || c == '\n' || c == '\r' || c as int == 11 || c as int == 12
  }

  function HexDigit(d: nat): char
    requires d < 16
  {
    if d < 10 then '0' + d as char else 'a' + (d - 10) as char
  }

  function HexValue(c: char): Option<nat> {
    if '0' <= c <= '9' then Some((c - '0') as nat)
    else if 'a' <= c <= 'f' then Some((c - 'a') as nat + 10)
    else if 'A' <= c <= 'F' then Some((c - 'A') as nat + 10)
    else None
  }

  function PutHex(n: nat, rest: string): string {
    if n < 16 then [HexDigit(n)] + rest else PutHex(n / 16, [HexDigit(n % 16)] + rest)
  }

  /** One line per entry: name, blank, lower-case hexadecimal address. */
  function PutEntries(es: seq<Entry>): string {
    if es == [] then "" else es[0].name + ([' '] + PutHex(es[0].addr, ['\n'] + PutEntries(es[1..])))
  }

  function SkipSpace(s: string): (r: string)
    ensures |r| <= |s|
    ensures r != [] ==> !IsSpace(r[0])
  {
    if s != [] && IsSpace(s[0]) then SkipSpace(s[1..]) else s
  }

  function TakeToken(s: string): (r: (string, string))
    ensures |r.0| + |r.1| == |s|
    ensures forall i | 0 <= i < |r.0| :: !IsSpace(r.0[i])
    ensures s != [] && !IsSpace(s[0]) ==> r.0 != []
  {
    if s == [] || IsSpace(s[0]) then ([], s)
    else var r := TakeToken(s[1..]); ([s[0]] + r.0, r.1)
  }

  function TakeHex(s: string, acc: nat): (r: (nat, string))
    ensures |r.1| <= |s|
  {
    if s != [] && HexValue(s[0]).Some?
    then TakeHex(s[1..], 16 * acc + HexValue(s[0]).value)
    else (acc, s)
  }

  /** The entries read until the stream fails: no name, no hexadecimal digit, or a number that does
      not fit in 32 bits. */
  function ParseEntries(s: string): seq<Entry>
    decreases |s|
  {
    var t := SkipSpace(s);
    if t == [] then []
    else
      var (name, after) := TakeToken(t);
      var h := SkipSpace(after);
      if h == [] || HexValue(h[0]).None? then []
      else
        var (addr, rest) := TakeHex(h, 0);
        if addr >= 0x1_0000_0000 then [] else [Entry(name, addr)] + ParseEntries(rest)
  }

  /** Later lines overwrite earlier ones. */
  function Insert(addrs: Addrs, es: seq<Entry>): Addrs
    decreases |es|
  {
    if es == [] then addrs else Insert(addrs[es[0].name := es[0].addr], es[1..])
  }

  // ---------------------------------------------------------------- file round trip

  predicate StorableName(name: string) {
    name != "" && forall i | 0 <= i < |name| :: !IsSpace(name[i])
  }

  predicate Storable(e: Entry) { StorableName(e.name) && e.addr < 0x1_0000_0000 }

  lemma {:induction false} TakeHexOfPutHex(n: nat, rest: string)
    ensures TakeHex(PutHex(n, rest), 0) == TakeHex(rest, n)
    ensures PutHex(n, rest) != [] && HexValue(PutHex(n, rest)[0]).Some? && !IsSpace(PutHex(n, rest)[0])
    decreases n
  {
    var d := HexDigit(n % 16);
    assert HexValue(d) == Some(n % 16);
    assert ([d] + rest)[1..] == rest;
    if n >= 16 { TakeHexOfPutHex(n / 16, [d] + rest); }
  }

  lemma {:induction false} TakeTokenOf(name: string, rest: string)
    requires forall i | 0 <= i < |name| :: !IsSpace(name[i])
    requires rest != [] && IsSpace(rest[0])
    ensures TakeToken(name + rest) == (name, rest)
  {
    if name == [] {
      assert name + rest == rest;
    } else {
      TakeTokenOf(name[1..], rest);
      assert (name + rest)[1..] == name[1..] + rest;
      assert [name[0]] + name[1..] == name;
    }
  }

  /** What is written is read back: any 32-bit address, any name without white space. */
  lemma {:induction false} FileRoundTrip(es: seq<Entry>)
    requires forall i | 0 <= i < |es| :: Storable(es[i])
    ensures ParseEntries(PutEntries(es)) == es
    ensures ParseEntries(['\n'] + PutEntries(es)) == es
  {
    var text := PutEntries(es);
    if es != [] {
      var e := es[0];
      var tail := ['\n'] + PutEntries(es[1..]);
      FileRoundTrip(es[1..]);
      TakeHexOfPutHex(e.addr, tail);
      var hex := PutHex(e.addr, tail);
      TakeTokenOf(e.name, [' '] + hex);
      assert ([' '] + hex)[1..] == hex;
      assert SkipSpace([' '] + hex) == hex;
      assert text[0] == e.name[0] && SkipSpace(text) == text;
      assert [e] + es[1..] == es;
    }
    assert (['\n'] + text)[1..] == text;
  }

  /** Addresses are written in lower-case hexadecimal, one entry a line. */
  lemma FileFormat(name: string)
    ensures PutEntries([Entry(name, 0x4fa0b7)]) == name + " 4fa0b7\n"
  {
    var es := [Entry(name, 0x4fa0b7)];
    assert es[1..] == [] && ['\n'] + "" == "\n";
    assert PutHex(0x4fa0b7, "\n") == PutHex(0x4fa0b, "7\n") by { assert ['7'] + "\n" == "7\n"; }
    assert PutHex(0x4fa0b, "7\n") == PutHex(0x4fa0, "b7\n") by { assert ['b'] + "7\n" == "b7\n"; }
    assert PutHex(0x4fa0, "b7\n") == PutHex(0x4fa, "0b7\n") by { assert ['0'] + "b7\n" == "0b7\n"; }
    assert PutHex(0x4fa, "0b7\n") == PutHex(0x4f, "a0b7\n") by { assert ['a'] + "0b7\n" == "a0b7\n"; }
    assert PutHex(0x4f, "a0b7\n") == PutHex(0x4, "fa0b7\n") by { assert ['f'] + "a0b7\n" == "fa0b7\n"; }
    assert PutHex(0x4, "fa0b7\n") == "4fa0b7\n" by { assert ['4'] + "fa0b7\n" == "4fa0b7\n"; }
    assert [' '] + "4fa0b7\n" == " 4fa0b7\n";
  }

  /** Reading stops at a number that does not fit in 32 bits, and at a name without a number. */
  lemma ReadingStops(name: string, n: nat, rest: string)
    requires StorableName(name) && n >= 0x1_0000_0000
    ensures ParseEntries(name + ([' '] + PutHex(n, ['\n'] + rest))) == []
    ensures ParseEntries(name) == []
  {
    var hex := PutHex(n, ['\n'] + rest);
    TakeHexOfPutHex(n, ['\n'] + rest);
    TakeTokenOf(name, [' '] + hex);
    assert ([' '] + hex)[1..] == hex;
    assert SkipSpace([' '] + hex) == hex;
    assert SkipSpace(name + ([' '] + hex)) == name + ([' '] + hex);
    WholeToken(name);
  }

  lemma {:induction false} WholeToken(name: string)
    requires forall i | 0 <= i < |name| :: !IsSpace(name[i])
    ensures TakeToken(name) == (name, "")
  {
    if name != [] {
      WholeToken(name[1..]);
      assert [name[0]] + name[1..] == name;
    }
  }

  /** `es` lists the map, each name once. */
  predicate Lists(es: seq<Entry>, addrs: Addrs) {
    && (forall i | 0 <= i < |es| :: es[i].name in addrs && addrs[es[i].name] == es[i].addr)
    && (forall i, j | 0 <= i < j < |es| :: es[i].name != es[j].name)
    && (forall name | name in addrs :: exists i | 0 <= i < |es| :: es[i].name == name)
  }

  lemma {:induction false} InsertAll(addrs: Addrs, es: seq<Entry>)
    requires forall i, j | 0 <= i < j < |es| :: es[i].name != es[j].name
    ensures forall i | 0 <= i < |es| ::
              es[i].name in Insert(addrs, es) && Insert(addrs, es)[es[i].name] == es[i].addr
    ensures forall name | name in Insert(addrs, es) ::
              (name in addrs && Insert(addrs, es)[name] == addrs[name]) ||
              exists i | 0 <= i < |es| :: es[i].name == name
    ensures forall name | name in addrs && (forall i | 0 <= i < |es| :: es[i].name != name) ::
              name in Insert(addrs, es) && Insert(addrs, es)[name] == addrs[name]
    decreases |es|
  {
    if es != [] {
      var rest := es[1..];
      assert forall i | 0 <= i < |rest| :: rest[i] == es[i + 1];
      InsertAll(addrs[es[0].name := es[0].addr], rest);
    }
  }

  /** Saving a map and loading the file into an empty one restores it. */
  lemma SaveLoadRestores(es: seq<Entry>, addrs: Addrs)
    requires Lists(es, addrs) && forall i | 0 <= i < |es| :: Storable(es[i])
    ensures Insert(map[], ParseEntries(PutEntries(es))) == addrs
  {
    FileRoundTrip(es);
    InsertRestores(es, addrs);
  }

  lemma InsertRestores(es: seq<Entry>, addrs: Addrs)
    requires Lists(es, addrs)
    ensures Insert(map[], es) == addrs
  {
    InsertAll(map[], es);
    var loaded := Insert(map[], es);
    forall name | name in addrs ensures name in loaded && loaded[name] == addrs[name] {
      var i :| 0 <= i < |es| && es[i].name == name;
    }
    forall name | name in loaded ensures name in addrs {
      var i :| 0 <= i < |es| && es[i].name == name;
    }
  }

  // ---------------------------------------------------------------- one lookup

  /** The right answer: the scan's address, or None (an exception) when nothing matches. */
  function ScanAnswer(m: Option<Image>, sig: Signature): Option<nat>
    requires WellFormed(sig)
  {
    if Scan(m, sig) == 0 then None else Some(Scan(m, sig))
  }

  predicate Cached(addrs: Addrs, name: string) { name in addrs && addrs[name] != 0 }

  /** What looking a name up answers ... */
  function Answer(addrs: Addrs, m: Option<Image>, name: string, sig: Signature): Option<nat>
    requires WellFormed(sig)
  {
    if Cached(addrs, name) then Some(addrs[name]) else ScanAnswer(m, sig)
  }

  /** ... and leaves in the memo. */
  function Remembered(addrs: Addrs, m: Option<Image>, name: string, sig: Signature): Addrs
    requires WellFormed(sig)
  {
    if Cached(addrs, name) || ScanAnswer(m, sig).None? then addrs else addrs[name := Scan(m, sig)]
  }

  /** The memo's entry for the name is absent, 0, or the scan's address. */
  predicate Right(addrs: Addrs, m: Option<Image>, name: string, sig: Signature)
    requires WellFormed(sig)
  {
    name !in addrs || addrs[name] == 0 || addrs[name] == Scan(m, sig)
  }

  function EntryFor(addrs: Addrs, name: string): Option<nat> {
    if name in addrs then Some(addrs[name]) else None
  }

  /** A lookup that answers leaves its answer in the memo, one that does not leaves no trace, and
      neither touches another name. */
  lemma LookupRemembers(addrs: Addrs, m: Option<Image>, name: string, sig: Signature)
    requires WellFormed(sig)
    ensures var answer, memo := Answer(addrs, m, name, sig), Remembered(addrs, m, name, sig);
            && (answer.Some? ==> EntryFor(memo, name) == answer)
            && (answer.None? ==> memo == addrs)
            && forall other | other != name :: EntryFor(memo, other) == EntryFor(addrs, other)
  {
  }

  // ---------------------------------------------------------------- every call sequence

  /** Each name stands for one signature. */
  type Signatures = string -> Signature

  ghost predicate AllWellFormed(sigs: Signatures) { forall name: string :: WellFormed(sigs(name)) }

  /** The memo after looking `names` up in turn. */
  ghost function After(addrs: Addrs, m: Option<Image>, sigs: Signatures, names: seq<string>): Addrs
    requires AllWellFormed(sigs)
  {
    if names == [] then addrs
    else
      var last := names[|names| - 1];
      Remembered(After(addrs, m, sigs, names[..|names| - 1]), m, last, sigs(last))
  }

  /** Looking names up neither spoils nor repairs an entry. */
  lemma {:induction false} RightStays(addrs: Addrs, m: Option<Image>, sigs: Signatures, names: seq<string>,
                                      name: string)
    requires AllWellFormed(sigs)
    ensures Right(After(addrs, m, sigs, names), m, name, sigs(name)) <==> Right(addrs, m, name, sigs(name))
  {
    if names != [] { RightStays(addrs, m, sigs, names[..|names| - 1], name); }
  }

  /** From any memo and after any calls, a lookup answers as a scan would if and only if the entry the
      memo started with is absent, 0, or the scan's address. */
  lemma AnswersExactly(addrs: Addrs, m: Option<Image>, sigs: Signatures, names: seq<string>, name: string)
    requires AllWellFormed(sigs)
    ensures Answer(After(addrs, m, sigs, names), m, name, sigs(name)) == ScanAnswer(m, sigs(name)) <==>
            Right(addrs, m, name, sigs(name))
  {
    RightStays(addrs, m, sigs, names, name);
  }

  /** Call `k` of `names` was answered with `addr`. */
  ghost predicate Answered(addrs: Addrs, m: Option<Image>, sigs: Signatures, names: seq<string>, k: nat, addr: nat)
    requires AllWellFormed(sigs)
  {
    k < |names| && Answer(After(addrs, m, sigs, names[..k]), m, names[k], sigs(names[k])) == Some(addr)
  }

  /** An entry that is not 0 stays through any further calls ... */
  lemma {:induction false} EntryStays(addrs: Addrs, m: Option<Image>, sigs: Signatures, names: seq<string>,
                                      name: string)
    requires AllWellFormed(sigs) && Cached(addrs, name)
    ensures EntryFor(After(addrs, m, sigs, names), name) == Some(addrs[name])
  {
    if names != [] { EntryStays(addrs, m, sigs, names[..|names| - 1], name); }
  }

  lemma {:induction false} AfterAppend(addrs: Addrs, m: Option<Image>, sigs: Signatures, a: seq<string>,
                                       b: seq<string>)
    requires AllWellFormed(sigs)
    ensures After(addrs, m, sigs, a + b) == After(After(addrs, m, sigs, a), m, sigs, b)
  {
    if b == [] {
      assert a + b == a;
    } else {
      assert (a + b)[..|a + b| - 1] == a + b[..|b| - 1];
      AfterAppend(addrs, m, sigs, a, b[..|b| - 1]);
    }
  }

  /** ... so every name that was answered is in the memo with that answer from then on. */
  lemma AnsweredStays(addrs: Addrs, m: Option<Image>, sigs: Signatures, names: seq<string>, k: nat, addr: nat)
    requires AllWellFormed(sigs) && Answered(addrs, m, sigs, names, k, addr)
    ensures addr != 0 && EntryFor(After(addrs, m, sigs, names), names[k]) == Some(addr)
  {
    var before, name := After(addrs, m, sigs, names[..k]), names[k];
    assert names[..k + 1][..k] == names[..k];
    var now := After(addrs, m, sigs, names[..k + 1]);
    LookupRemembers(before, m, name, sigs(name));
    assert names[..k + 1] + names[k + 1..] == names;
    AfterAppend(addrs, m, sigs, names[..k + 1], names[k + 1..]);
    EntryStays(now, m, sigs, names[k + 1..], name);
  }

  /** Saved and loaded again, it is answered without scanning anything. */
  lemma SavedAnswers(addrs: Addrs, m: Option<Image>, sigs: Signatures, names: seq<string>, k: nat, addr: nat,
                     es: seq<Entry>)
    requires AllWellFormed(sigs) && Answered(addrs, m, sigs, names, k, addr)
    requires Lists(es, After(addrs, m, sigs, names)) && forall i | 0 <= i < |es| :: Storable(es[i])
    ensures Answer(Insert(map[], ParseEntries(PutEntries(es))), None, names[k], sigs(names[k])) == Some(addr)
  {
    AnsweredStays(addrs, m, sigs, names, k, addr);
    SaveLoadRestores(es, After(addrs, m, sigs, names));
  }

  /** The address a file gives a name: that of the last entry for it, else the memo's own. */
  function LastAddr(es: seq<Entry>, name: string, otherwise: Option<nat>): Option<nat> {
    if es == [] then otherwise
    else if es[|es| - 1].name == name then Some(es[|es| - 1].addr)
    else LastAddr(es[..|es| - 1], name, otherwise)
  }

  lemma {:induction false} InsertSnoc(addrs: Addrs, es: seq<Entry>, e: Entry)
    ensures Insert(addrs, es + [e]) == Insert(addrs, es)[e.name := e.addr]
    decreases |es|
  {
    if es == [] {
      assert [] + [e] == [e] && [e][1..] == [];
    } else {
      assert (es + [e])[1..] == es[1..] + [e];
      InsertSnoc(addrs[es[0].name := es[0].addr], es[1..], e);
    }
  }

  lemma {:induction false} LoadedEntry(addrs: Addrs, es: seq<Entry>, name: string)
    ensures EntryFor(Insert(addrs, es), name) == LastAddr(es, name, EntryFor(addrs, name))
    decreases |es|
  {
    if es != [] {
      var before, last := es[..|es| - 1], es[|es| - 1];
      assert before + [last] == es;
      InsertSnoc(addrs, before, last);
      LoadedEntry(addrs, before, name);
    }
  }

  /** Started with any cache file and after any calls, a lookup answers as a scan would if and only if
      the file's last readable entry for the name, if there is one, is 0 or the scan's address. */
  lemma AfterLoading(text: string, m: Option<Image>, sigs: Signatures, names: seq<string>, name: string)
    requires AllWellFormed(sigs)
    ensures var last := LastAddr(ParseEntries(text), name, None);
            Answer(After(Insert(map[], ParseEntries(text)), m, sigs, names), m, name, sigs(name)) ==
            ScanAnswer(m, sigs(name)) <==>
            last.None? || last.value == 0 || last.value == Scan(m, sigs(name))
  {
    AnswersExactly(Insert(map[], ParseEntries(text)), m, sigs, names, name);
    LoadedEntry(map[], ParseEntries(text), name);
  }

  /** A file of another build: its address is not the image's, and it is answered all the same. */
  lemma StaleFileMisleads(m: Option<Image>, sig: Signature, name: string, addr: nat)
    requires WellFormed(sig) && Storable(Entry(name, addr)) && addr != 0 && addr != Scan(m, sig)
    ensures var loaded := Insert(map[], ParseEntries(PutEntries([Entry(name, addr)])));
            Answer(loaded, m, name, sig) == Some(addr) != ScanAnswer(m, sig)
  {
    var es := [Entry(name, addr)];
    FileRoundTrip(es);
    assert es[1..] == [];
  }

  /** Every cached address is the one a scan finds. */
  ghost predicate Agrees(addrs: Addrs, m: Option<Image>, sigs: Signatures)
    requires AllWellFormed(sigs)
  {
    forall name: string :: Right(addrs, m, name, sigs(name))
  }

  /** From an agreeing memo (empty, or restored from what this build saved) every lookup of every call
      sequence answers as a scan would, and the memo goes on agreeing. */
  lemma AlwaysAgrees(addrs: Addrs, m: Option<Image>, sigs: Signatures, names: seq<string>)
    requires AllWellFormed(sigs) && Agrees(addrs, m, sigs)
    ensures Agrees(After(addrs, m, sigs, names), m, sigs)
    ensures forall name: string ::
              Answer(After(addrs, m, sigs, names), m, name, sigs(name)) == ScanAnswer(m, sigs(name))
  {
    forall name: string
      ensures Right(After(addrs, m, sigs, names), m, name, sigs(name))
      ensures Answer(After(addrs, m, sigs, names), m, name, sigs(name)) == ScanAnswer(m, sigs(name))
    {
      RightStays(addrs, m, sigs, names, name);
      AnswersExactly(addrs, m, sigs, names, name);
    }
  }

  // ---------------------------------------------------------------- the memo and its file

  predicate AllStorable(addrs: Addrs) {
    forall name | name in addrs :: Storable(Entry(name, addrs[name]))
  }

  lemma {:induction false} ParsedStorable(s: string)
    ensures forall i | 0 <= i < |ParseEntries(s)| :: Storable(ParseEntries(s)[i])
    decreases |s|
  {
    var t := SkipSpace(s);
    if ParseEntries(s) != [] {
      var h := SkipSpace(TakeToken(t).1);
      ParsedStorable(TakeHex(h, 0).1);
    }
  }

  lemma {:induction false} InsertStorable(addrs: Addrs, es: seq<Entry>)
    requires AllStorable(addrs) && forall i | 0 <= i < |es| :: Storable(es[i])
    ensures AllStorable(Insert(addrs, es))
    decreases |es|
  {
    if es != [] {
      assert Storable(Entry(es[0].name, es[0].addr));
      assert forall i | 0 <= i < |es[1..]| :: es[1..][i] == es[i + 1];
      InsertStorable(addrs[es[0].name := es[0].addr], es[1..]);
    }
  }

  /** A saved map comes back from its file exactly when every name can be stored. */
  lemma RestoresExactly(es: seq<Entry>, addrs: Addrs)
    requires Lists(es, addrs)
    ensures Insert(map[], ParseEntries(PutEntries(es))) == addrs <==> AllStorable(addrs)
  {
    ParsedStorable(PutEntries(es));
    InsertStorable(map[], ParseEntries(PutEntries(es)));
    if AllStorable(addrs) {
      assert forall i | 0 <= i < |es| :: Storable(Entry(es[i].name, addrs[es[i].name]));
      SaveLoadRestores(es, addrs);
    }
  }

  predicate AllFit(addrs: Addrs) { forall name | name in addrs :: addrs[name] < 0x1_0000_0000 }

  lemma {:induction false} AfterFits(addrs: Addrs, m: Option<Image>, sigs: Signatures, names: seq<string>)
    requires AllWellFormed(sigs) && Addressable(m) && AllFit(addrs)
    ensures AllFit(After(addrs, m, sigs, names))
  {
    if names != [] {
      AfterFits(addrs, m, sigs, names[..|names| - 1]);
      ScanFits(m, sigs(names[|names| - 1]));
    }
  }

  /** After loading any file and any calls, what is saved restores the memo exactly when no name in it
      is empty or holds white space. */
  lemma SavedRestores(text: string, m: Option<Image>, sigs: Signatures, names: seq<string>, es: seq<Entry>)
    requires AllWellFormed(sigs) && Addressable(m)
    requires Lists(es, After(Insert(map[], ParseEntries(text)), m, sigs, names))
    ensures var memo := After(Insert(map[], ParseEntries(text)), m, sigs, names);
            Insert(map[], ParseEntries(PutEntries(es))) == memo <==> forall name | name in memo :: StorableName(name)
  {
    var loaded := Insert(map[], ParseEntries(text));
    ParsedStorable(text);
    InsertStorable(map[], ParseEntries(text));
    assert forall name | name in loaded :: Storable(Entry(name, loaded[name]));
    AfterFits(loaded, m, sigs, names);
    var memo := After(loaded, m, sigs, names);
    RestoresExactly(es, memo);
    assert forall name | name in memo :: Storable(Entry(name, memo[name])) <==> StorableName(name);
  }

  lemma ListsSnoc(es: seq<Entry>, done: Addrs, e: Entry)
    requires Lists(es, done) && e.name !in done
    ensures Lists(es + [e], done[e.name := e.addr])
  {
    var es', done' := es + [e], done[e.name := e.addr];
    forall name | name in done' ensures exists i | 0 <= i < |es'| :: es'[i].name == name {
      if name == e.name {
        assert es'[|es|].name == name;
      } else {
        var i :| 0 <= i < |es| && es[i].name == name;
        assert es'[i].name == name;
      }
    }
  }

  method Listing(addrs: Addrs) returns (es: seq<Entry>)
    ensures Lists(es, addrs)
  {
    var left := addrs;
    ghost var done: Addrs := map[];
    es := [];
    while left != map[]
      invariant Lists(es, done)
      invariant forall name | name in addrs :: name in done || name in left
      invariant forall name | name in done :: name !in left && name in addrs && done[name] == addrs[name]
      invariant forall name | name in left :: name in addrs && left[name] == addrs[name]
      decreases left.Keys
    {
      var name :| name in left;
      ListsSnoc(es, done, Entry(name, left[name]));
      es := es + [Entry(name, left[name])];
      done := done[name := left[name]];
      left := left - {name};
    }
    assert done == addrs;
  }

  class Hooks {
    const image: Option<Image>
    var scanNameToAddr: Addrs
    var foundNewOffsets: bool
    /** The cache file, None while it does not exist. */
    var file: Option<string>

    constructor (image: Option<Image>, file: Option<string>)
      ensures this.image == image && this.file == file
      ensures scanNameToAddr == map[] && !foundNewOffsets
    {
      this.image, this.file := image, file;
      scanNameToAddr, foundNewOffsets := map[], false;
    }

    /** Right, the memo's entry, decides whether the answer is the scan's. */
    method ScanPattern(name: string, sig: Signature) returns (addr: Option<nat>)
      requires WellFormed(sig)
      modifies this`scanNameToAddr, this`foundNewOffsets
      ensures addr == Answer(old(scanNameToAddr), image, name, sig)
      ensures addr == ScanAnswer(image, sig) <==> Right(old(scanNameToAddr), image, name, sig)
      ensures scanNameToAddr == Remembered(old(scanNameToAddr), image, name, sig)
      ensures foundNewOffsets <==>
                old(foundNewOffsets) ||
                (addr.Some? && (name !in old(scanNameToAddr) || old(scanNameToAddr)[name] == 0))
    {
      if name in scanNameToAddr && scanNameToAddr[name] != 0 {
        return Some(scanNameToAddr[name]);
      }
      var a := FindInMainModule(image, sig);
      if a == 0 { return None; }
      scanNameToAddr := scanNameToAddr[name := a];
      foundNewOffsets := true;
      return Some(a);
    }

    method LoadOffsets()
      modifies this`scanNameToAddr
      ensures scanNameToAddr == if file.None? then old(scanNameToAddr)
                                else Insert(old(scanNameToAddr), ParseEntries(file.value))
    {
      if file.None? { return; }
      var s := file.value;
      ghost var all := ParseEntries(s);
      while true
        invariant Insert(scanNameToAddr, ParseEntries(s)) == Insert(old(scanNameToAddr), all)
        decreases |s|
      {
        var t := SkipSpace(s);
        if t == [] { break; }
        var (name, after) := TakeToken(t);
        var h := SkipSpace(after);
        if h == [] || HexValue(h[0]).None? { break; }
        var (addr, rest) := TakeHex(h, 0);
        if addr >= 0x1_0000_0000 { break; }
        assert ParseEntries(s)[1..] == ParseEntries(rest);
        scanNameToAddr := scanNameToAddr[name := addr];
        s := rest;
      }
    }

    /** Writes nothing when nothing new was found; otherwise the file lists the whole map, and loading
        it into an empty one gives the map back exactly when every name can be stored. */
    method SaveOffsets()
      modifies this`file
      ensures !foundNewOffsets ==> file == old(file)
      ensures foundNewOffsets ==>
                && (exists es :: Lists(es, scanNameToAddr) && file == Some(PutEntries(es)))
                && (Insert(map[], ParseEntries(file.value)) == scanNameToAddr <==> AllStorable(scanNameToAddr))
    {
      if !foundNewOffsets { return; }
      var es := Listing(scanNameToAddr);
      RestoresExactly(es, scanNameToAddr);
      file := Some(PutEntries(es));
    }
  }
}
