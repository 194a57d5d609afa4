/** JSON text as in sections 3 to 7 of RFC 8259, for the values the two programs exchange: null,
    booleans, integers, strings that need no escape, arrays and objects. A byte is a Dafny char:
    every byte either program writes is ASCII. */
module Json {
  import opened Wrappers

  datatype Value =
    | Null
    | Bool(b: bool)
    | Num(n: int)
    | Str(s: string)
    | Arr(items: seq<Value>)
    | Obj(fields: seq<Field>)

  datatype Field = Field(key: string, val: Value)

  /** json.dumps writes a space after each comma and colon; nlohmann's dump() does not. */
  datatype Style = Compact | Spaced

  // ---------------------------------------------------------------- characters

  predicate IsWs(c: char) { c == ' ' || c == '\t' || c == '\n' || c == '\r' }

  predicate IsDigit(c: char) { '0' <= c <= '9' }

  predicate IsPlainChar(c: char) { ' ' <= c && c != '"' && c != '\\' }

  predicate PlainText(s: string) { forall i | 0 <= i < |s| :: IsPlainChar(s[i]) }

  /** No string in `v` needs an escape. */
  predicate Plain(v: Value) {
    match v
    case Str(s) => PlainText(s)
    case Arr(items) => forall i | 0 <= i < |items| :: Plain(items[i])
    case Obj(fields) => forall i | 0 <= i < |fields| :: PlainText(fields[i].key) && Plain(fields[i].val)
    case _ => true
  }

  // ---------------------------------------------------------------- writing
  //
  // `PutX(x, rest)` is the text of `x` followed by `rest`.

  function Comma(st: Style): string { if st.Spaced? then [',', ' '] else [','] }

  function Colon(st: Style): string { if st.Spaced? then [':', ' '] else [':'] }

  function Digit(d: nat): char
    requires d < 10
  {
    '0' + d as char
  }

  function PutNat(n: nat, rest: string): string {
    if n < 10 then [Digit(n)] + rest else PutNat(n / 10, [Digit(n % 10)] + rest)
  }

  function PutInt(n: int, rest: string): string {
    if n < 0 then ['-'] + PutNat(-n, rest) else PutNat(n, rest)
  }

  function PutStr(s: string, rest: string): string { ['"'] + (s + (['"'] + rest)) }

  function Put(v: Value, st: Style, rest: string): string
    decreases v, 0
  {
    match v
    case Null => "null" + rest
    case Bool(b) => (if b then "true" else "false") + rest
    case Num(n) => PutInt(n, rest)
    case Str(s) => PutStr(s, rest)
    case Arr(items) =>
      ['['] + (if items == [] then [']'] + rest else PutItems(items, st, [']'] + rest))
    case Obj(fields) =>
      ['{'] + (if fields == [] then ['}'] + rest else PutFields(fields, st, ['}'] + rest))
  }

  function PutItems(items: seq<Value>, st: Style, rest: string): string
    requires items != []
    decreases items, 1
  {
    Put(items[0], st,
        if |items| == 1 then rest else Comma(st) + PutItems(items[1..], st, rest))
  }

  function PutFields(fields: seq<Field>, st: Style, rest: string): string
    requires fields != []
    decreases fields, 1
  {
    PutStr(fields[0].key, Colon(st) +
           Put(fields[0].val, st,
               if |fields| == 1 then rest else Comma(st) + PutFields(fields[1..], st, rest)))
  }

  function Text(v: Value, st: Style): string { Put(v, st, "") }

  // ---------------------------------------------------------------- reading

  datatype Parsed<+T> = Fail | Got(value: T, rest: string)

  function SkipWs(s: string): (r: string)
    ensures |r| <= |s|
    ensures r != [] ==> !IsWs(r[0])
  {
    if s != [] && IsWs(s[0]) then SkipWs(s[1..]) else s
  }

  function TakeDigits(s: string, acc: nat): (r: (nat, string))
    ensures |r.1| <= |s|
  {
    if s != [] && IsDigit(s[0])
    then TakeDigits(s[1..], 10 * acc + (s[0] - '0') as nat)
    else (acc, s)
  }

  /** An integer's digits: at least one, and no leading zero. */
  function ParseNat(s: string): (r: Parsed<nat>)
    ensures r.Got? ==> |r.rest| < |s|
  {
    if s == [] || !IsDigit(s[0]) then Fail
    else if s[0] == '0' && |s| > 1 && IsDigit(s[1]) then Fail
    else var r := TakeDigits(s[1..], (s[0] - '0') as nat); Got(r.0, r.1)
  }

  /** The rest of a string literal, after its opening quote. */
  function TakeString(s: string): (r: Parsed<string>)
    ensures r.Got? ==> |r.rest| < |s|
  {
    if s == [] then Fail
    else if s[0] == '"' then Got([], s[1..])
    else if !IsPlainChar(s[0]) then Fail
    else match TakeString(s[1..])
         case Fail => Fail
         case Got(t, rest) => Got([s[0]] + t, rest)
  }

  function Literal(s: string, word: string, v: Value): (r: Parsed<Value>)
    requires word != []
    ensures r.Got? ==> |r.rest| < |s|
  {
    if word <= s then Got(v, s[|word|..]) else Fail
  }

  function ParseScalar(t: string): (r: Parsed<Value>)
    requires t != []
    ensures r.Got? ==> |r.rest| < |t|
  {
    if t[0] == '"' then
      match TakeString(t[1..])
      case Fail => Fail
      case Got(str, rest) => Got(Str(str), rest)
    else if t[0] == '-' then
      match ParseNat(t[1..])
      case Fail => Fail
      case Got(n, rest) => Got(Num(0 - n), rest)
    else if IsDigit(t[0]) then
      match ParseNat(t)
      case Fail => Fail
      case Got(n, rest) => Got(Num(n), rest)
    else if t[0] == 't' then Literal(t, "true", Bool(true))
    else if t[0] == 'f' then Literal(t, "false", Bool(false))
    else Literal(t, "null", Null)
  }

  function ParseValue(s: string): (r: Parsed<Value>)
    ensures r.Got? ==> |r.rest| < |s|
    decreases |s|, 0
  {
    var t := SkipWs(s);
    if t == [] then Fail
    else if t[0] == '{' then ParseObj(t[1..])
    else if t[0] == '[' then ParseArr(t[1..])
    else ParseScalar(t)
  }

  /** An array, after its opening bracket. */
  function ParseArr(s: string): (r: Parsed<Value>)
    ensures r.Got? ==> |r.rest| < |s|
    decreases |s|, 3
  {
    var u := SkipWs(s);
    if u != [] && u[0] == ']' then Got(Arr([]), u[1..])
    else match ParseItems(s)
         case Fail => Fail
         case Got(items, rest) => Got(Arr(items), rest)
  }

  /** An object, after its opening brace. */
  function ParseObj(s: string): (r: Parsed<Value>)
    ensures r.Got? ==> |r.rest| < |s|
    decreases |s|, 3
  {
    var u := SkipWs(s);
    if u != [] && u[0] == '}' then Got(Obj([]), u[1..])
    else match ParseFields(s)
         case Fail => Fail
         case Got(fields, rest) => Got(Obj(fields), rest)
  }

  /** Items up to and including the closing bracket. */
  function ParseItems(s: string): (r: Parsed<seq<Value>>)
    ensures r.Got? ==> |r.rest| < |s|
    decreases |s|, 1
  {
    match ParseValue(s)
    case Fail => Fail
    case Got(v, after) =>
      var t := SkipWs(after);
      if t == [] then Fail
      else if t[0] == ']' then Got([v], t[1..])
      else if t[0] != ',' then Fail
      else match ParseItems(t[1..])
           case Fail => Fail
           case Got(vs, rest) => Got([v] + vs, rest)
  }

  /** A key and its value. */
  function ParseField(s: string): (r: Parsed<Field>)
    ensures r.Got? ==> |r.rest| < |s|
    decreases |s|, 1
  {
    var k := SkipWs(s);
    if k == [] || k[0] != '"' then Fail
    else match TakeString(k[1..])
         case Fail => Fail
         case Got(key, afterKey) =>
           var c := SkipWs(afterKey);
           if c == [] || c[0] != ':' then Fail
           else match ParseValue(c[1..])
                case Fail => Fail
                case Got(v, rest) => Got(Field(key, v), rest)
  }

  /** Fields up to and including the closing brace. */
  function ParseFields(s: string): (r: Parsed<seq<Field>>)
    ensures r.Got? ==> |r.rest| < |s|
    decreases |s|, 2
  {
    match ParseField(s)
    case Fail => Fail
    case Got(f, after) =>
      var t := SkipWs(after);
      if t == [] then Fail
      else if t[0] == '}' then Got([f], t[1..])
      else if t[0] != ',' then Fail
      else match ParseFields(t[1..])
           case Fail => Fail
           case Got(fs, rest) => Got([f] + fs, rest)
  }

  /** One value and nothing after it but white space. */
  function ParseText(s: string): Option<Value> {
    match ParseValue(s)
    case Fail => None
    case Got(v, rest) => if SkipWs(rest) == [] then Some(v) else None
  }

  // ---------------------------------------------------------------- round trip

  lemma {:induction false} TakeDigitsOfPutNat(n: nat, rest: string)
    ensures TakeDigits(PutNat(n, rest), 0) == TakeDigits(rest, n)
    ensures |PutNat(n, rest)| > 0 && IsDigit(PutNat(n, rest)[0])
    ensures n > 0 ==> PutNat(n, rest)[0] != '0'
    ensures n == 0 ==> PutNat(n, rest) == ['0'] + rest
    decreases n
  {
    if n < 10 {
      assert PutNat(n, rest)[1..] == rest;
    } else {
      var tail := [Digit(n % 10)] + rest;
      TakeDigitsOfPutNat(n / 10, tail);
      assert tail[1..] == rest;
    }
  }

  lemma ParseNatOfPutNat(n: nat, rest: string)
    requires rest != [] ==> !IsDigit(rest[0])
    ensures ParseNat(PutNat(n, rest)) == Got(n, rest)
  {
    TakeDigitsOfPutNat(n, rest);
    var s := PutNat(n, rest);
    assert TakeDigits(s, 0) == TakeDigits(s[1..], (s[0] - '0') as nat);
  }

  lemma {:induction false} TakeStringOfPutStr(s: string, rest: string)
    requires PlainText(s)
    ensures TakeString(s + (['"'] + rest)) == Got(s, rest)
  {
    var t := s + (['"'] + rest);
    if s == [] {
      assert t == ['"'] + rest;
    } else {
      TakeStringOfPutStr(s[1..], rest);
      assert t[1..] == s[1..] + (['"'] + rest);
      assert [s[0]] + s[1..] == s;
    }
  }

  lemma ParsePutScalar(v: Value, st: Style, rest: string)
    requires Plain(v) && !v.Arr? && !v.Obj?
    requires v.Num? && rest != [] ==> !IsDigit(rest[0])
    ensures Put(v, st, rest) != [] && !IsWs(Put(v, st, rest)[0])
    ensures Put(v, st, rest)[0] !in ['{', '[', ']', '}']
    ensures ParseScalar(Put(v, st, rest)) == Got(v, rest)
  {
    var s := Put(v, st, rest);
    match v
    case Null => assert s[|"null"|..] == rest;
    case Bool(b) => assert s[|if b then "true" else "false"|..] == rest;
    case Num(n) => ParsePutInt(n, rest);
    case Str(str) =>
      assert s[1..] == str + (['"'] + rest);
      TakeStringOfPutStr(str, rest);
  }

  lemma ParsePutInt(n: int, rest: string)
    requires rest != [] ==> !IsDigit(rest[0])
    ensures PutInt(n, rest) != [] && !IsWs(PutInt(n, rest)[0])
    ensures PutInt(n, rest)[0] !in ['{', '[', ']', '}']
    ensures ParseScalar(PutInt(n, rest)) == Got(Num(n), rest)
  {
    var m: nat := if n < 0 then 0 - n else n;
    ParseNatOfPutNat(m, rest);
    TakeDigitsOfPutNat(m, rest);
    if n < 0 { assert PutInt(n, rest)[1..] == PutNat(m, rest); }
  }

  /** Reading what was written gives the value back and stops where it ended. */
  lemma {:induction false} ParsePut(v: Value, st: Style, rest: string)
    requires Plain(v)
    requires v.Num? && rest != [] ==> !IsDigit(rest[0])
    ensures Put(v, st, rest) != [] && !IsWs(Put(v, st, rest)[0]) && Put(v, st, rest)[0] != ']'
    ensures ParseValue(Put(v, st, rest)) == Got(v, rest)
    decreases v, 0
  {
    var s := Put(v, st, rest);
    if v.Arr? {
      var body := if v.items == [] then [']'] + rest else PutItems(v.items, st, [']'] + rest);
      assert s[1..] == body;
      if v.items == [] {
        assert body[1..] == rest;
      } else {
        ParsePutItems(v.items, st, rest);
      }
      assert ParseArr(body) == Got(v, rest);
    } else if v.Obj? {
      var body := if v.fields == [] then ['}'] + rest else PutFields(v.fields, st, ['}'] + rest);
      assert s[1..] == body;
      if v.fields == [] {
        assert body[1..] == rest;
      } else {
        ParsePutFields(v.fields, st, rest);
      }
      assert ParseObj(body) == Got(v, rest);
    } else {
      ParsePutScalar(v, st, rest);
    }
  }

  lemma {:induction false} ParsePutItems(items: seq<Value>, st: Style, rest: string)
    requires items != []
    requires forall i | 0 <= i < |items| :: Plain(items[i])
    ensures ParseItems(PutItems(items, st, [']'] + rest)) == Got(items, rest)
    ensures PutItems(items, st, [']'] + rest) != []
    ensures !IsWs(PutItems(items, st, [']'] + rest)[0])
    ensures PutItems(items, st, [']'] + rest)[0] != ']'
    decreases items, 1
  {
    var closing := [']'] + rest;
    if |items| == 1 {
      ParsePut(items[0], st, closing);
      assert closing[1..] == rest;
      assert [items[0]] == items;
    } else {
      var more := PutItems(items[1..], st, closing);
      var next := Comma(st) + more;
      ParsePutItems(items[1..], st, rest);
      CommaThen(st, more);
      ParsePut(items[0], st, next);
      SkipWsFirst(next[1..], more);
      assert ParseItems(next[1..]) == Got(items[1..], rest);
      assert [items[0]] + items[1..] == items;
    }
  }

  lemma ParsePutField(f: Field, st: Style, next: string)
    requires PlainText(f.key) && Plain(f.val)
    requires next != [] && !IsDigit(next[0])
    requires ParseValue(Put(f.val, st, next)) == Got(f.val, next)
    requires Put(f.val, st, next) != [] && !IsWs(Put(f.val, st, next)[0])
    ensures ParseField(PutStr(f.key, Colon(st) + Put(f.val, st, next))) == Got(f, next)
  {
    var value := Put(f.val, st, next);
    var s := PutStr(f.key, Colon(st) + value);
    assert s[1..] == f.key + (['"'] + (Colon(st) + value));
    TakeStringOfPutStr(f.key, Colon(st) + value);
    ColonThen(st, value);
    SkipWsFirst((Colon(st) + value)[1..], value);
  }

  lemma {:induction false} ParsePutFields(fields: seq<Field>, st: Style, rest: string)
    requires fields != []
    requires forall i | 0 <= i < |fields| :: PlainText(fields[i].key) && Plain(fields[i].val)
    ensures ParseFields(PutFields(fields, st, ['}'] + rest)) == Got(fields, rest)
    decreases fields, 1
  {
    var closing := ['}'] + rest;
    if |fields| == 1 {
      ParsePut(fields[0].val, st, closing);
      ParseLastField(fields[0], st, rest);
      assert [fields[0]] == fields;
    } else {
      ParsePutFields(fields[1..], st, rest);
      ParsePut(fields[0].val, st, Comma(st) + PutFields(fields[1..], st, closing));
      ParseMoreFields(fields, st, rest);
    }
  }

  lemma PutFieldsQuote(fields: seq<Field>, st: Style, rest: string)
    requires fields != []
    ensures PutFields(fields, st, rest) != [] && PutFields(fields, st, rest)[0] == '"'
  {
  }

  lemma ParseMoreFields(fields: seq<Field>, st: Style, rest: string)
    requires |fields| > 1 && PlainText(fields[0].key) && Plain(fields[0].val)
    requires ParseFields(PutFields(fields[1..], st, ['}'] + rest)) == Got(fields[1..], rest)
    requires var next := Comma(st) + PutFields(fields[1..], st, ['}'] + rest);
             var text := Put(fields[0].val, st, next);
             ParseValue(text) == Got(fields[0].val, next) && text != [] && !IsWs(text[0])
    ensures ParseFields(PutFields(fields, st, ['}'] + rest)) == Got(fields, rest)
  {
    var more := PutFields(fields[1..], st, ['}'] + rest);
    PutFieldsQuote(fields[1..], st, ['}'] + rest);
    ParseAnotherField(fields[0], st, more, fields[1..], rest);
    assert [fields[0]] + fields[1..] == fields;
  }

  lemma ParseLastField(f: Field, st: Style, rest: string)
    requires PlainText(f.key) && Plain(f.val)
    requires var closing := ['}'] + rest;
             var text := Put(f.val, st, closing);
             ParseValue(text) == Got(f.val, closing) && text != [] && !IsWs(text[0])
    ensures ParseFields(PutStr(f.key, Colon(st) + Put(f.val, st, ['}'] + rest))) == Got([f], rest)
  {
    var closing := ['}'] + rest;
    ParsePutField(f, st, closing);
    assert closing[1..] == rest;
  }

  lemma ParseAnotherField(f: Field, st: Style, more: string, fs: seq<Field>, rest: string)
    requires PlainText(f.key) && Plain(f.val)
    requires more != [] && !IsWs(more[0]) && ParseFields(more) == Got(fs, rest)
    requires var next := Comma(st) + more;
             var text := Put(f.val, st, next);
             ParseValue(text) == Got(f.val, next) && text != [] && !IsWs(text[0])
    ensures ParseFields(PutStr(f.key, Colon(st) + Put(f.val, st, Comma(st) + more))) == Got([f] + fs, rest)
  {
    var next := Comma(st) + more;
    CommaThen(st, more);
    ParsePutField(f, st, next);
    SkipWsFirst(next[1..], more);
  }

  lemma CommaThen(st: Style, more: string)
    requires more != [] && !IsWs(more[0])
    ensures (Comma(st) + more)[0] == ','
    ensures SkipWs((Comma(st) + more)[1..]) == more
  {
    assert (Comma(st) + more)[1..] == if st.Spaced? then [' '] + more else more;
    assert ([' '] + more)[1..] == more;
  }

  lemma ColonThen(st: Style, more: string)
    requires more != [] && !IsWs(more[0])
    ensures (Colon(st) + more)[0] == ':'
    ensures SkipWs((Colon(st) + more)[1..]) == more
  {
    assert (Colon(st) + more)[1..] == if st.Spaced? then [' '] + more else more;
    assert ([' '] + more)[1..] == more;
  }

  /** Every reader starts by skipping white space. */
  lemma SkipWsFirst(s: string, t: string)
    requires SkipWs(s) == t
    ensures SkipWs(t) == t
    ensures ParseValue(s) == ParseValue(t)
    ensures ParseItems(s) == ParseItems(t)
    ensures ParseField(s) == ParseField(t)
    ensures ParseFields(s) == ParseFields(t)
  {
  }

  /** A document survives being written and read, in either style. */
  lemma TextRoundTrip(v: Value, st: Style)
    requires Plain(v)
    ensures ParseText(Text(v, st)) == Some(v)
  {
    ParsePut(v, st, "");
  }

  // ---------------------------------------------------------------- shape of the text

  /** Writing before `a + b` is writing before `a`, then `b`. */
  lemma {:induction false} PutAppend(v: Value, st: Style, a: string, b: string)
    ensures Put(v, st, a + b) == Put(v, st, a) + b
    decreases v, 0
  {
    match v
    case Arr(items) =>
      Reassociate([']'], a, b);
      if items != [] { PutItemsAppend(items, st, [']'] + a, b); }
      Reassociate(['['], if items == [] then [']'] + a else PutItems(items, st, [']'] + a), b);
    case Obj(fields) =>
      Reassociate(['}'], a, b);
      if fields != [] { PutFieldsAppend(fields, st, ['}'] + a, b); }
      Reassociate(['{'], if fields == [] then ['}'] + a else PutFields(fields, st, ['}'] + a), b);
    case _ => PutScalarAppend(v, st, a, b);
  }

  lemma Reassociate(x: string, a: string, b: string)
    ensures x + (a + b) == (x + a) + b
  {
  }

  lemma PutScalarAppend(v: Value, st: Style, a: string, b: string)
    requires !v.Arr? && !v.Obj?
    ensures Put(v, st, a + b) == Put(v, st, a) + b
  {
    match v
    case Null => Reassociate("null", a, b);
    case Bool(bit) => Reassociate(if bit then "true" else "false", a, b);
    case Num(n) => PutIntAppend(n, a, b);
    case Str(s) => PutStrAppend(s, a, b);
  }

  lemma PutIntAppend(n: int, a: string, b: string)
    ensures PutInt(n, a + b) == PutInt(n, a) + b
  {
    PutNatAppend(if n < 0 then 0 - n else n, a, b);
    Reassociate(['-'], PutNat(if n < 0 then 0 - n else n, a), b);
  }

  lemma PutStrAppend(s: string, a: string, b: string)
    ensures PutStr(s, a + b) == PutStr(s, a) + b
  {
    Reassociate(['"'], a, b);
    Reassociate(s, ['"'] + a, b);
    Reassociate(['"'], s + (['"'] + a), b);
  }

  lemma {:induction false} PutNatAppend(n: nat, a: string, b: string)
    ensures PutNat(n, a + b) == PutNat(n, a) + b
    decreases n
  {
    if n >= 10 {
      PutNatAppend(n / 10, [Digit(n % 10)] + a, b);
      assert [Digit(n % 10)] + (a + b) == ([Digit(n % 10)] + a) + b;
    }
  }

  lemma {:induction false} PutItemsAppend(items: seq<Value>, st: Style, a: string, b: string)
    requires items != []
    ensures PutItems(items, st, a + b) == PutItems(items, st, a) + b
    decreases items, 1
  {
    if |items| == 1 {
      PutAppend(items[0], st, a, b);
    } else {
      var more := PutItems(items[1..], st, a);
      PutItemsAppend(items[1..], st, a, b);
      assert Comma(st) + (more + b) == (Comma(st) + more) + b;
      PutAppend(items[0], st, Comma(st) + more, b);
    }
  }

  lemma {:induction false} PutFieldsAppend(fields: seq<Field>, st: Style, a: string, b: string)
    requires fields != []
    ensures PutFields(fields, st, a + b) == PutFields(fields, st, a) + b
    decreases fields, 1
  {
    var f := fields[0];
    if |fields| == 1 {
      PutAppend(f.val, st, a, b);
      PutFieldAppend(f.key, st, Put(f.val, st, a), b);
    } else {
      var more := PutFields(fields[1..], st, a);
      PutFieldsAppend(fields[1..], st, a, b);
      assert Comma(st) + (more + b) == (Comma(st) + more) + b;
      PutAppend(f.val, st, Comma(st) + more, b);
      PutFieldAppend(f.key, st, Put(f.val, st, Comma(st) + more), b);
    }
  }

  lemma PutFieldAppend(key: string, st: Style, value: string, b: string)
    ensures PutStr(key, Colon(st) + (value + b)) == PutStr(key, Colon(st) + value) + b
  {
  }

  /** Numbers are decimal, without leading zeros. */
  lemma Decimal(n: nat)
    ensures PutNat(n, "") == if n < 10 then [Digit(n)] else PutNat(n / 10, "") + [Digit(n % 10)]
    ensures n < 10 ==> Digit(n) == "0123456789"[n]
  {
    if n >= 10 {
      assert "" + [Digit(n % 10)] == [Digit(n % 10)] && [Digit(n % 10)] + "" == [Digit(n % 10)];
      PutNatAppend(n / 10, "", [Digit(n % 10)]);
    }
  }

  lemma FieldThen(f: Field, more: seq<Field>, st: Style, rest: string)
    requires more != []
    ensures PutFields([f] + more, st, rest) ==
            PutStr(f.key, Colon(st) + Put(f.val, st, Comma(st) + PutFields(more, st, rest)))
  {
    assert ([f] + more)[1..] == more;
  }

  /** No control character, so no line feed. */
  predicate Printable(s: string) { forall i | 0 <= i < |s| :: ' ' <= s[i] }

  lemma {:induction false} PutPrintable(v: Value, st: Style, rest: string)
    requires Plain(v) && Printable(rest)
    ensures Printable(Put(v, st, rest))
    decreases v, 0
  {
    match v
    case Num(n) => PutNatPrintable(if n < 0 then 0 - n else n, rest);
    case Arr(items) => if items != [] { PutItemsPrintable(items, st, [']'] + rest); }
    case Obj(fields) => if fields != [] { PutFieldsPrintable(fields, st, ['}'] + rest); }
    case _ =>
  }

  lemma {:induction false} PutNatPrintable(n: nat, rest: string)
    requires Printable(rest)
    ensures Printable(PutNat(n, rest))
    decreases n
  {
    if n >= 10 { PutNatPrintable(n / 10, [Digit(n % 10)] + rest); }
  }

  lemma {:induction false} PutItemsPrintable(items: seq<Value>, st: Style, rest: string)
    requires items != [] && Printable(rest)
    requires forall i | 0 <= i < |items| :: Plain(items[i])
    ensures Printable(PutItems(items, st, rest))
    decreases items, 1
  {
    if |items| == 1 {
      PutPrintable(items[0], st, rest);
    } else {
      PutItemsPrintable(items[1..], st, rest);
      PutPrintable(items[0], st, Comma(st) + PutItems(items[1..], st, rest));
    }
  }

  lemma {:induction false} PutFieldsPrintable(fields: seq<Field>, st: Style, rest: string)
    requires fields != [] && Printable(rest)
    requires forall i | 0 <= i < |fields| :: PlainText(fields[i].key) && Plain(fields[i].val)
    ensures Printable(PutFields(fields, st, rest))
    decreases fields, 1
  {
    if |fields| == 1 {
      PutPrintable(fields[0].val, st, rest);
    } else {
      PutFieldsPrintable(fields[1..], st, rest);
      PutPrintable(fields[0].val, st, Comma(st) + PutFields(fields[1..], st, rest));
    }
  }

  lemma TextPrintable(v: Value, st: Style)
    requires Plain(v)
    ensures Printable(Text(v, st)) && Text(v, st) != []
  {
    PutPrintable(v, st, "");
    ParsePut(v, st, "");
  }
}
