/** A quote-and-brace scan of JSON text: every accepted text closes what it opens. */
module JsonScan {
  import opened Json

  datatype Scan = Scan(quoted: bool, depth: int)

  function Next(st: Scan, c: char): Scan {
    if c == '"' then st.(quoted := !st.quoted)
    else if st.quoted then st
    else if c == '{' then st.(depth := st.depth + 1)
    else if c == '}' then st.(depth := st.depth - 1)
    else st
  }

  function Run(st: Scan, s: string): Scan
    decreases |s|
  {
    if s == "" then st else Run(Next(st, s[0]), s[1..])
  }

  lemma {:induction false} RunAppend(st: Scan, a: string, b: string)
    ensures Run(st, a + b) == Run(Run(st, a), b)
    decreases |a|
  {
    if a == "" {
      assert a + b == b;
    } else {
      assert (a + b)[1..] == a[1..] + b;
      RunAppend(Next(st, a[0]), a[1..], b);
    }
  }

  /** No brace and no quote. */
  predicate Neutral(s: string) { forall i | 0 <= i < |s| :: s[i] != '"' && s[i] != '{' && s[i] != '}' }

  predicate NoBrace(s: string) { forall i | 0 <= i < |s| :: s[i] != '{' && s[i] != '}' }

  function OddQuotes(s: string): bool {
    if s == "" then false else (s[0] == '"') != OddQuotes(s[1..])
  }

  lemma {:induction false} RunNoBrace(st: Scan, s: string)
    requires NoBrace(s)
    ensures Run(st, s) == Scan(st.quoted != OddQuotes(s), st.depth)
    decreases |s|
  {
    if s != "" { RunNoBrace(Next(st, s[0]), s[1..]); }
  }

  lemma {:induction false} RunNeutral(st: Scan, a: string, b: string)
    requires Neutral(a)
    ensures Run(st, a + b) == Run(st, b)
    decreases |a|
  {
    if a == "" {
      assert a + b == b;
    } else {
      assert (a + b)[1..] == a[1..] + b;
      RunNeutral(st, a[1..], b);
    }
  }

  // ---------------------------------------------------------------- accepted text is balanced

  lemma {:induction false} RunSkipWs(st: Scan, s: string)
    ensures Run(st, SkipWs(s)) == Run(st, s)
    decreases |s|
  {
    if s != [] && IsWs(s[0]) { RunSkipWs(st, s[1..]); }
  }

  lemma {:induction false} RunTakeDigits(st: Scan, s: string, acc: nat)
    ensures Run(st, TakeDigits(s, acc).1) == Run(st, s)
    decreases |s|
  {
    if s != [] && IsDigit(s[0]) {
      RunTakeDigits(st, s[1..], 10 * acc + (s[0] - '0') as nat);
    }
  }

  lemma RunParseNat(st: Scan, s: string)
    requires ParseNat(s).Got?
    ensures Run(st, ParseNat(s).rest) == Run(st, s)
  {
    RunTakeDigits(st, s[1..], (s[0] - '0') as nat);
  }

  lemma {:induction false} RunTakeString(st: Scan, s: string)
    requires st.quoted && TakeString(s).Got?
    ensures Run(st.(quoted := false), TakeString(s).rest) == Run(st, s)
    decreases |s|
  {
    if s[0] != '"' { RunTakeString(st, s[1..]); }
  }

  lemma RunLiteral(st: Scan, s: string, word: string, v: Value)
    requires word != [] && Neutral(word) && Literal(s, word, v).Got?
    ensures Run(st, Literal(s, word, v).rest) == Run(st, s)
  {
    assert s == word + s[|word|..];
    RunNeutral(st, word, s[|word|..]);
  }

  lemma RunParseScalar(st: Scan, t: string)
    requires !st.quoted && t != [] && ParseScalar(t).Got?
    ensures Run(st, ParseScalar(t).rest) == Run(st, t)
  {
    if t[0] == '"' {
      RunTakeString(st.(quoted := true), t[1..]);
    } else if t[0] == '-' {
      RunParseNat(st, t[1..]);
    } else if IsDigit(t[0]) {
      RunParseNat(st, t);
    } else if t[0] == 't' {
      RunLiteral(st, t, "true", Bool(true));
    } else if t[0] == 'f' {
      RunLiteral(st, t, "false", Bool(false));
    } else {
      RunLiteral(st, t, "null", Null);
    }
  }

  /** From outside any string, reading a value leaves the scan where it was. */
  lemma {:induction false} RunParseValue(st: Scan, s: string)
    requires !st.quoted && ParseValue(s).Got?
    ensures Run(st, ParseValue(s).rest) == Run(st, s)
    decreases |s|, 0
  {
    RunSkipWs(st, s);
    var t := SkipWs(s);
    if t[0] == '{' {
      RunParseObj(st.(depth := st.depth + 1), t[1..]);
    } else if t[0] == '[' {
      RunParseArr(st, t[1..]);
    } else {
      RunParseScalar(st, t);
    }
  }

  lemma {:induction false} RunParseArr(st: Scan, s: string)
    requires !st.quoted && ParseArr(s).Got?
    ensures Run(st, ParseArr(s).rest) == Run(st, s)
    decreases |s|, 3
  {
    RunSkipWs(st, s);
    var u := SkipWs(s);
    if u == [] || u[0] != ']' { RunParseItems(st, s); }
  }

  lemma {:induction false} RunParseObj(st: Scan, s: string)
    requires !st.quoted && ParseObj(s).Got?
    ensures Run(st.(depth := st.depth - 1), ParseObj(s).rest) == Run(st, s)
    decreases |s|, 3
  {
    RunSkipWs(st, s);
    var u := SkipWs(s);
    if u == [] || u[0] != '}' { RunParseFields(st, s); }
  }

  lemma {:induction false} RunParseItems(st: Scan, s: string)
    requires !st.quoted && ParseItems(s).Got?
    ensures Run(st, ParseItems(s).rest) == Run(st, s)
    decreases |s|, 1
  {
    RunParseValue(st, s);
    var after := ParseValue(s).rest;
    RunSkipWs(st, after);
    var t := SkipWs(after);
    if t[0] != ']' { RunParseItems(st, t[1..]); }
  }

  lemma {:induction false} RunParseField(st: Scan, s: string)
    requires !st.quoted && ParseField(s).Got?
    ensures Run(st, ParseField(s).rest) == Run(st, s)
    decreases |s|, 1
  {
    RunSkipWs(st, s);
    var k := SkipWs(s);
    RunTakeString(st.(quoted := true), k[1..]);
    var afterKey := TakeString(k[1..]).rest;
    RunSkipWs(st, afterKey);
    RunParseValue(st, SkipWs(afterKey)[1..]);
  }

  lemma {:induction false} RunParseFields(st: Scan, s: string)
    requires !st.quoted && ParseFields(s).Got?
    ensures Run(st.(depth := st.depth - 1), ParseFields(s).rest) == Run(st, s)
    decreases |s|, 2
  {
    RunParseField(st, s);
    var after := ParseField(s).rest;
    RunSkipWs(st, after);
    var t := SkipWs(after);
    if t[0] != '}' { RunParseFields(st, t[1..]); }
  }

  /** A text that is one JSON value closes every string and brace it opens. */
  lemma AcceptedIsBalanced(st: Scan, s: string)
    requires !st.quoted && ParseText(s).Some?
    ensures Run(st, s) == st
  {
    RunParseValue(st, s);
    RunSkipWs(st, ParseValue(s).rest);
  }
}
