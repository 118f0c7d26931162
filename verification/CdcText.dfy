/** The change log's text: one JSON object per line, printed by `EncodeLine` and read
    back by a field splitter, a string scanner and decimal and hex parsers. Text is
    handled character by character. */
module CdcText {
  import opened ByteStrings

  datatype CdcOp = Put | Delete

  datatype Event = Event(sequence: nat, key: Bytes, val: Option<Bytes>, op: CdcOp)

  const LOG_VERSION: nat := 1
  const U8_MAX: nat := 255
  const U64_MAX: nat := 0xffff_ffff_ffff_ffff

  /** Puts carry a value and deletes do not; the sequence is a `u64`. */
  predicate WellFormed(ev: Event) {
    ev.sequence <= U64_MAX && (ev.op == Put <==> ev.val.Some?)
  }

  // ---- Hex ----

  function HexChar(n: nat): char
    requires n < 16
  {
    "0123456789abcdef"[n]
  }

  function HexEncode(s: Bytes): string {
    if s == [] then [] else [HexChar(s[0] / 16), HexChar(s[0] % 16)] + HexEncode(s[1..])
  }

  function HexNibble(c: char): (r: Option<nat>)
    ensures r.Some? ==> r.value < 16
  {
    if '0' <= c <= '9' then Some(c as nat - '0' as nat)
    else if 'a' <= c <= 'f' then Some(c as nat - 'a' as nat + 10)
    else if 'A' <= c <= 'F' then Some(c as nat - 'A' as nat + 10)
    else None
  }

  function HexPairs(s: string): Option<Bytes>
    requires |s| % 2 == 0
  {
    if s == [] then Some([]) else
      var hi, lo, rest := HexNibble(s[0]), HexNibble(s[1]), HexPairs(s[2..]);
      if hi.None? || lo.None? || rest.None? then None else Some([hi.value * 16 + lo.value] + rest.value)
  }

  function HexDecode(s: string): Option<Bytes> {
    if |s| % 2 != 0 then None else HexPairs(s)
  }

  lemma HexCharRoundTrip(n: nat)
    requires n < 16
    ensures HexNibble(HexChar(n)) == Some(n) && Ordinary(HexChar(n))
  {
  }

  lemma {:induction false} HexLength(s: Bytes)
    ensures |HexEncode(s)| == 2 * |s|
  {
    if s != [] { HexLength(s[1..]); }
  }

  lemma {:induction false} HexRoundTrip(s: Bytes)
    ensures HexDecode(HexEncode(s)) == Some(s)
  {
    HexLength(s);
    if s != [] {
      HexLength(s[1..]);
      HexRoundTrip(s[1..]);
      var hi, lo := s[0] / 16, s[0] % 16;
      HexCharRoundTrip(hi);
      HexCharRoundTrip(lo);
      HexPairsCons(HexChar(hi), HexChar(lo), HexEncode(s[1..]), hi, lo);
      assert hi * 16 + lo == s[0] && s == [s[0]] + s[1..];
    }
  }

  lemma HexPairsCons(c: char, d: char, rest: string, hi: nat, lo: nat)
    requires |rest| % 2 == 0 && HexPairs(rest).Some? && HexNibble(c) == Some(hi) && HexNibble(d) == Some(lo)
    ensures HexPairs([c, d] + rest) == Some([hi * 16 + lo] + HexPairs(rest).value)
  {
    var s := [c, d] + rest;
    assert s[0] == c && s[1] == d && s[2..] == rest;
  }

  // ---- Decimals ----

  predicate IsDigit(c: char) {
    '0' <= c <= '9'
  }

  function DigitChar(n: nat): char
    requires n < 10
  {
    "0123456789"[n]
  }

  function Decimal(n: nat): (s: string)
    ensures s != []
  {
    if n < 10 then [DigitChar(n)] else Decimal(n / 10) + [DigitChar(n % 10)]
  }

  /** None at the first character that is no digit. */
  function DigitsValue(s: string): Option<nat> {
    if s == [] then Some(0) else
      var high, c := DigitsValue(s[..|s| - 1]), s[|s| - 1];
      if high.None? || !IsDigit(c) then None else Some(high.value * 10 + (c as nat - '0' as nat))
  }

  /** An unsigned decimal with an optional plus sign, at most `max`. */
  function ParseUnsigned(s: string, max: nat): Option<nat> {
    var digits := if |s| > 1 && s[0] == '+' then s[1..] else s;
    var v := DigitsValue(digits);
    if digits == [] || v.None? || v.value > max then None else v
  }

  lemma {:induction false} DecimalValue(n: nat)
    ensures DigitsValue(Decimal(n)) == Some(n) && forall i :: 0 <= i < |Decimal(n)| ==> IsDigit(Decimal(n)[i])
  {
    var s := Decimal(n);
    if n < 10 {
      assert s[..0] == [];
    } else {
      DecimalValue(n / 10);
      assert s[..|s| - 1] == Decimal(n / 10);
    }
  }

  lemma DecimalRoundTrip(n: nat, max: nat)
    requires n <= max
    ensures ParseUnsigned(Decimal(n), max) == Some(n)
  {
    DecimalValue(n);
    assert IsDigit(Decimal(n)[0]);
  }

  // ---- Scanning ----

  /** `char::is_whitespace`. */
  predicate IsSpace(c: char) {
    var n := c as nat;
    || 9 <= n <= 13 || n == 0x20 || n == 0x85 || n == 0xa0 || n == 0x1680 || 0x2000 <= n <= 0x200a
    || n == 0x2028 || n == 0x2029 || n == 0x202f || n == 0x205f || n == 0x3000
  }

  function TrimStart(s: string): (r: string)
    ensures |r| <= |s| && (r != [] ==> !IsSpace(r[0]))
  {
    if s != [] && IsSpace(s[0]) then TrimStart(s[1..]) else s
  }

  function TrimEnd(s: string): (r: string)
    ensures |r| <= |s|
  {
    if s != [] && IsSpace(s[|s| - 1]) then TrimEnd(s[..|s| - 1]) else s
  }

  function Trim(s: string): string {
    TrimEnd(TrimStart(s))
  }

  predicate StartsWith(s: string, c: char) {
    s != [] && s[0] == c
  }

  /** The text up to the closing quote, escapes resolved, and what follows it. */
  function ScanString(s: string): (r: Option<(string, string)>)
    ensures r.Some? ==> |r.value.1| < |s|
  {
    if s == [] then None
    else if s[0] == '"' then Some(([], s[1..]))
    else if s[0] == '\\' then
      if |s| < 2 then None else
        var r := ScanString(s[2..]);
        if r.None? then None else Some(([s[1]] + r.value.0, r.value.1))
    else
      var r := ScanString(s[1..]);
      if r.None? then None else Some(([s[0]] + r.value.0, r.value.1))
  }

  function ParseString(s: string): (r: Option<(string, string)>)
    ensures r.Some? ==> |r.value.1| < |s|
  {
    if !StartsWith(s, '"') then None else ScanString(s[1..])
  }

  /** Length of the text before the first comma or space. */
  function NumberLength(s: string): (n: nat)
    ensures n <= |s|
  {
    if s == [] || s[0] == ',' || IsSpace(s[0]) then 0 else 1 + NumberLength(s[1..])
  }

  function ParseValue(s: string): (r: Option<(string, string)>)
    ensures r.Some? ==> |r.value.1| <= |s|
  {
    if StartsWith(s, '"') then ParseString(s) else Some((s[..NumberLength(s)], s[NumberLength(s)..]))
  }

  /** One field: name, value and the text behind it. */
  function ParseField(s: string): (r: Option<(string, string, string)>)
    ensures r.Some? ==> |r.value.2| < |s|
  {
    var name := ParseString(TrimStart(s));
    if name.None? then None else
      var colon := TrimStart(name.value.1);
      if !StartsWith(colon, ':') then None else
        var v := ParseValue(TrimStart(colon[1..]));
        if v.None? then None else Some((name.value.0, v.value.0, TrimStart(v.value.1)))
  }

  function SplitFields(s: string): Option<seq<(string, string)>>
    decreases |s|
  {
    if s == [] then Some([]) else
      var f := ParseField(s);
      if f.None? then None else
        var (name, v, after) := f.value;
        if after == [] then Some([(name, v)])
        else if after[0] != ',' then None
        else
          var rest := SplitFields(TrimStart(after[1..]));
          if rest.None? then None else Some([(name, v)] + rest.value)
  }

  // ---- Events ----

  function ParseOp(s: string): Option<CdcOp> {
    if s == "put" then Some(Put) else if s == "delete" then Some(Delete) else None
  }

  /** The fields seen so far; a repeated field overwrites. */
  datatype Partial = Partial(version: Option<nat>, sequence: Option<nat>, op: Option<CdcOp>, key: Option<Bytes>, val: Option<Bytes>)

  function AddField(p: Partial, name: string, v: string): Option<Partial> {
    if name == "v" then
      var n := ParseUnsigned(v, U8_MAX);
      if n.None? then None else Some(p.(version := n))
    else if name == "seq" then
      var n := ParseUnsigned(v, U64_MAX);
      if n.None? then None else Some(p.(sequence := n))
    else if name == "op" then
      var op := ParseOp(v);
      if op.None? then None else Some(p.(op := op))
    else if name == "key" then
      var k := HexDecode(v);
      if k.None? then None else Some(p.(key := k))
    else if name == "value" then
      var x := HexDecode(v);
      if x.None? then None else Some(p.(val := x))
    else Some(p)
  }

  function AddFields(p: Partial, fields: seq<(string, string)>): Option<Partial>
    decreases |fields|
  {
    if fields == [] then Some(p) else
      var q := AddField(p, fields[0].0, fields[0].1);
      if q.None? then None else AddFields(q.value, fields[1..])
  }

  function Finished(p: Partial): Option<Event> {
    if p.version != Some(LOG_VERSION) || p.sequence.None? || p.op.None? || p.key.None? then None else
      var v := if p.op.value == Delete then None else if p.val.None? then Some([]) else p.val;
      Some(Event(p.sequence.value, p.key.value, v, p.op.value))
  }

  /** None is a corruption error. */
  function DecodeLine(text: string): Option<Event> {
    var line := Trim(text);
    if !StartsWith(line, '{') || line[|line| - 1] != '}' then None else
      var fields := SplitFields(Trim(line[1..|line| - 1]));
      if fields.None? then None else
        var p := AddFields(Partial(None, None, None, None, None), fields.value);
        if p.None? then None else Finished(p.value)
  }

  // ---- Printing ----

  datatype Field = Number(name: string, text: string) | Text(name: string, text: string)

  function Quoted(s: string): string {
    "\"" + s + "\""
  }

  function Printed(f: Field): string {
    match f
    case Number(name, text) => Quoted(name) + ":" + text
    case Text(name, text) => Quoted(name) + ":" + Quoted(text)
  }

  function Joined(fields: seq<Field>): string {
    if fields == [] then [] else if |fields| == 1 then Printed(fields[0])
    else Printed(fields[0]) + "," + Joined(fields[1..])
  }

  function FieldsOf(ev: Event): seq<Field> {
    var head := [Number("v", Decimal(LOG_VERSION)), Number("seq", Decimal(ev.sequence))];
    match ev.op
    case Put =>
      head + [Text("op", "put"), Text("key", HexEncode(ev.key)),
              Text("value", HexEncode(if ev.val.Some? then ev.val.value else []))]
    case Delete => head + [Text("op", "delete"), Text("key", HexEncode(ev.key))]
  }

  function EncodeLine(ev: Event): string {
    "{" + Joined(FieldsOf(ev)) + "}" + "\n"
  }

  // ---- Reading back what was printed ----

  /** A character that neither ends nor escapes a string, nor separates fields. */
  predicate Ordinary(c: char) {
    c != '"' && c != '\\' && c != ',' && c != '\n' && c != '}' && !IsSpace(c)
  }

  predicate Plain(s: string) {
    forall i :: 0 <= i < |s| ==> Ordinary(s[i])
  }

  predicate PlainField(f: Field) {
    Plain(f.name) && Plain(f.text) && (f.Number? ==> f.text != [])
  }

  lemma {:induction false} ScanPlain(p: string, rest: string)
    requires Plain(p)
    ensures ScanString(p + "\"" + rest) == Some((p, rest))
    decreases |p|
  {
    var s := p + "\"" + rest;
    if p == [] {
      assert s[0] == '"' && s[1..] == rest;
    } else {
      ScanPlain(p[1..], rest);
      assert s[0] == p[0] && s[1..] == p[1..] + "\"" + rest;
      assert p == [p[0]] + p[1..];
    }
  }

  lemma ParseQuoted(p: string, rest: string)
    requires Plain(p)
    ensures ParseString(Quoted(p) + rest) == Some((p, rest))
  {
    ScanPlain(p, rest);
    assert (Quoted(p) + rest)[1..] == p + "\"" + rest;
  }

  lemma {:induction false} NumberEnds(p: string, rest: string)
    requires Plain(p) && (rest == [] || rest[0] == ',')
    ensures NumberLength(p + rest) == |p|
    decreases |p|
  {
    if p == [] {
      assert p + rest == rest;
    } else {
      NumberEnds(p[1..], rest);
      assert (p + rest)[0] == p[0] && (p + rest)[1..] == p[1..] + rest;
    }
  }

  lemma ValueParsed(f: Field, rest: string)
    requires PlainField(f) && (rest == [] || rest[0] == ',')
    ensures var text := AfterColon(f, rest); TrimStart(text) == text && ParseValue(text) == Some((f.text, rest))
  {
    if f.Number? {
      NumberEnds(f.text, rest);
      assert (f.text + rest)[0] == f.text[0] && (f.text + rest)[..|f.text|] == f.text && (f.text + rest)[|f.text|..] == rest;
    } else {
      ParseQuoted(f.text, rest);
      assert (Quoted(f.text) + rest)[0] == '"';
    }
  }

  function AfterColon(f: Field, rest: string): string {
    if f.Number? then f.text + rest else Quoted(f.text) + rest
  }

  lemma FieldShape(f: Field, rest: string)
    ensures Printed(f) + rest == Quoted(f.name) + (":" + AfterColon(f, rest))
  {
  }

  lemma FieldScanned(s: string, name: string, text: string, v: string, rest: string)
    requires s == Quoted(name) + (":" + text) && Plain(name)
    requires TrimStart(text) == text && ParseValue(text) == Some((v, rest)) && (rest == [] || rest[0] == ',')
    ensures ParseField(s) == Some((name, v, rest))
  {
    var colon := ":" + text;
    assert colon[0] == ':' && colon[1..] == text;
    assert s[0] == '"' && TrimStart(s) == s;
    ParseQuoted(name, colon);
    assert TrimStart(colon) == colon && TrimStart(rest) == rest;
  }

  lemma FieldParsed(f: Field, rest: string)
    requires PlainField(f) && (rest == [] || rest[0] == ',')
    ensures ParseField(Printed(f) + rest) == Some((f.name, f.text, rest))
  {
    FieldShape(f, rest);
    ValueParsed(f, rest);
    FieldScanned(Printed(f) + rest, f.name, AfterColon(f, rest), f.text, rest);
  }

  function Pairs(fields: seq<Field>): seq<(string, string)> {
    if fields == [] then [] else [(fields[0].name, fields[0].text)] + Pairs(fields[1..])
  }

  predicate AllPlain(fields: seq<Field>) {
    forall i :: 0 <= i < |fields| ==> PlainField(fields[i])
  }

  lemma JoinedStart(fields: seq<Field>)
    requires fields != []
    ensures Joined(fields) != [] && Joined(fields)[0] == '"'
  {
  }

  lemma SplitStep(s: string, name: string, v: string, rest: string, pairs: seq<(string, string)>)
    requires s != [] && ParseField(s) == Some((name, v, "," + rest))
    requires TrimStart(rest) == rest && SplitFields(rest) == Some(pairs)
    ensures SplitFields(s) == Some([(name, v)] + pairs)
  {
  }

  lemma {:induction false} SplitJoined(fields: seq<Field>)
    requires AllPlain(fields)
    ensures SplitFields(Joined(fields)) == Some(Pairs(fields))
    decreases |fields|
  {
    if |fields| == 1 {
      SplitLast(fields[0]);
      assert fields[1..] == [] && Pairs(fields) == [(fields[0].name, fields[0].text)];
    } else if |fields| > 1 {
      SplitJoined(fields[1..]);
      SplitMore(fields[0], fields[1..]);
      assert fields == [fields[0]] + fields[1..];
    }
  }

  lemma SplitMore(f: Field, more: seq<Field>)
    requires PlainField(f) && more != [] && SplitFields(Joined(more)) == Some(Pairs(more))
    ensures SplitFields(Joined([f] + more)) == Some([(f.name, f.text)] + Pairs(more))
  {
    var rest := Joined(more);
    JoinedMore(f, more);
    JoinedStart(more);
    FieldParsed(f, "," + rest);
    assert Printed(f)[0] == '"';
    SplitStep(Printed(f) + ("," + rest), f.name, f.text, rest, Pairs(more));
  }

  lemma JoinedMore(f: Field, more: seq<Field>)
    requires more != []
    ensures Joined([f] + more) == Printed(f) + ("," + Joined(more))
  {
  }

  lemma SplitLast(f: Field)
    requires PlainField(f)
    ensures SplitFields(Printed(f)) == Some([(f.name, f.text)])
  {
    FieldParsed(f, []);
    assert Printed(f) + [] == Printed(f);
  }

  lemma {:induction false} HexIsPlain(s: Bytes)
    ensures Plain(HexEncode(s))
  {
    if s != [] {
      HexIsPlain(s[1..]);
      HexCharRoundTrip(s[0] / 16);
      HexCharRoundTrip(s[0] % 16);
    }
  }

  lemma DecimalIsPlain(n: nat)
    ensures Plain(Decimal(n))
  {
    DecimalValue(n);
    forall i | 0 <= i < |Decimal(n)| ensures Ordinary(Decimal(n)[i]) {
      assert IsDigit(Decimal(n)[i]);
    }
  }

  lemma EventFieldsPlain(ev: Event)
    ensures AllPlain(FieldsOf(ev)) && FieldsOf(ev) != []
  {
    DecimalIsPlain(LOG_VERSION);
    DecimalIsPlain(ev.sequence);
    HexIsPlain(ev.key);
    HexIsPlain(if ev.val.Some? then ev.val.value else []);
    NamesPlain();
  }

  lemma NamesPlain()
    ensures Plain("v") && Plain("seq") && Plain("op") && Plain("key") && Plain("value") && Plain("put") && Plain("delete")
  {
  }

  lemma TrimLine(s: string)
    requires s != [] && !IsSpace(s[0]) && !IsSpace(s[|s| - 1])
    ensures Trim(s) == s && Trim(s + "\n") == s
  {
  }

  /** The printed body ends in a quote or a digit, so trimming leaves it alone. */
  lemma {:induction false} JoinedEnd(fields: seq<Field>)
    requires AllPlain(fields) && fields != []
    ensures Joined(fields) != [] && !IsSpace(Joined(fields)[|Joined(fields)| - 1])
    decreases |fields|
  {
    if |fields| == 1 {
      var f := fields[0];
      assert f.Number? ==> Printed(f)[|Printed(f)| - 1] == f.text[|f.text| - 1];
    } else {
      JoinedEnd(fields[1..]);
    }
  }

  /** What the splitter hands to the event reader. */
  lemma LineFields(ev: Event)
    ensures var line := "{" + Joined(FieldsOf(ev)) + "}";
            && Trim(EncodeLine(ev)) == line && |line| >= 2 && line[0] == '{' && line[|line| - 1] == '}'
            && SplitFields(Trim(line[1..|line| - 1])) == Some(Pairs(FieldsOf(ev)))
  {
    var body := Joined(FieldsOf(ev));
    var line := "{" + body + "}";
    EventFieldsPlain(ev);
    TrimLine(line);
    assert line[1..|line| - 1] == body;
    JoinedStart(FieldsOf(ev));
    JoinedEnd(FieldsOf(ev));
    TrimLine(body);
    SplitJoined(FieldsOf(ev));
  }

  lemma AddNext(p: Partial, name: string, v: string, rest: seq<(string, string)>, q: Partial)
    requires AddField(p, name, v) == Some(q)
    ensures AddFields(p, [(name, v)] + rest) == AddFields(q, rest)
  {
  }

  /** The fields every event has, whatever comes after them. */
  lemma HeadRead(ev: Event, op: string, rest: seq<(string, string)>)
    requires ev.sequence <= U64_MAX && ParseOp(op) == Some(ev.op)
    ensures AddFields(Partial(None, None, None, None, None),
                      [("v", Decimal(LOG_VERSION))] + ([("seq", Decimal(ev.sequence))]
                      + ([("op", op)] + ([("key", HexEncode(ev.key))] + rest))))
         == AddFields(Partial(Some(1), Some(ev.sequence), Some(ev.op), Some(ev.key), None), rest)
  {
    DecimalRoundTrip(LOG_VERSION, U8_MAX);
    DecimalRoundTrip(ev.sequence, U64_MAX);
    HexRoundTrip(ev.key);
    var p0 := Partial(None, None, None, None, None);
    var p1 := p0.(version := Some(1));
    var p2 := p1.(sequence := Some(ev.sequence));
    var p3 := p2.(op := Some(ev.op));
    var r3 := [("key", HexEncode(ev.key))] + rest;
    var r2 := [("op", op)] + r3;
    AddNext(p0, "v", Decimal(LOG_VERSION), [("seq", Decimal(ev.sequence))] + r2, p1);
    AddNext(p1, "seq", Decimal(ev.sequence), r2, p2);
    AddNext(p2, "op", op, r3, p3);
    AddNext(p3, "key", HexEncode(ev.key), rest, p3.(key := Some(ev.key)));
  }

  function ValueText(ev: Event): string {
    HexEncode(if ev.val.Some? then ev.val.value else [])
  }

  lemma PairsShape(ev: Event)
    ensures var op := if ev.op == Put then "put" else "delete";
            var rest := if ev.op == Put then [("value", ValueText(ev))] else [];
            Pairs(FieldsOf(ev)) == [("v", Decimal(LOG_VERSION))] + ([("seq", Decimal(ev.sequence))]
                                   + ([("op", op)] + ([("key", HexEncode(ev.key))] + rest)))
  {
    var fs := FieldsOf(ev);
    assert fs[1..][1..] == fs[2..] && fs[2..][1..] == fs[3..] && fs[3..][1..] == fs[4..];
    if ev.op == Put {
      assert fs[4..] == [Text("value", ValueText(ev))] && fs[4..][1..] == [];
      assert Pairs(fs[4..]) == [("value", ValueText(ev))];
    } else {
      assert fs[4..] == [];
    }
    assert Pairs(fs) == [(fs[0].name, fs[0].text)] + Pairs(fs[1..]);
    assert Pairs(fs[1..]) == [(fs[1].name, fs[1].text)] + Pairs(fs[2..]);
    assert Pairs(fs[2..]) == [(fs[2].name, fs[2].text)] + Pairs(fs[3..]);
    assert Pairs(fs[3..]) == [(fs[3].name, fs[3].text)] + Pairs(fs[4..]);
  }

  lemma FieldsRead(ev: Event)
    requires WellFormed(ev)
    ensures AddFields(Partial(None, None, None, None, None), Pairs(FieldsOf(ev)))
         == Some(Partial(Some(1), Some(ev.sequence), Some(ev.op), Some(ev.key), ev.val))
  {
    PairsShape(ev);
    var p := Partial(Some(1), Some(ev.sequence), Some(ev.op), Some(ev.key), None);
    if ev.op == Put {
      HeadRead(ev, "put", [("value", ValueText(ev))]);
      HexRoundTrip(ev.val.value);
      AddNext(p, "value", ValueText(ev), [], p.(val := ev.val));
      assert [("value", ValueText(ev))] + [] == [("value", ValueText(ev))];
    } else {
      HeadRead(ev, "delete", []);
    }
  }

  /** Printing and parsing undo each other: every well-formed event, with any bytes and
      any sequence, reads back from its line. */
  lemma LineRoundTrip(ev: Event)
    requires WellFormed(ev)
    ensures DecodeLine(EncodeLine(ev)) == Some(ev)
  {
    LineFields(ev);
    FieldsRead(ev);
  }

  lemma PrintedNumbers(digits: string)
    ensures Printed(Number("v", digits)) == "\"v\":" + digits
    ensures Printed(Number("seq", digits)) == "\"seq\":" + digits
  {
  }

  lemma PrintedOps()
    ensures Printed(Text("op", "put")) == "\"op\":\"put\"" && Printed(Text("op", "delete")) == "\"op\":\"delete\""
  {
  }

  lemma PrintedHex(name: string, hex: string)
    ensures Printed(Text(name, hex)) == "\"" + name + "\":\"" + hex + "\""
  {
  }

  /** The line is the text the format strings spell out, field by field. */
  lemma PutLineFormat(ev: Event)
    requires WellFormed(ev) && ev.op == Put
    ensures EncodeLine(ev) ==
            "{" + ("\"v\":1" + ("," + ("\"seq\":" + Decimal(ev.sequence) + ("," + ("\"op\":\"put\""
            + ("," + ("\"" + "key" + "\":\"" + HexEncode(ev.key) + "\""
            + ("," + ("\"" + "value" + "\":\"" + HexEncode(ev.val.value) + "\""))))))))) + "}" + "\n"
  {
    var a, b, c := Number("v", Decimal(LOG_VERSION)), Number("seq", Decimal(ev.sequence)), Text("op", "put");
    var d, e := Text("key", HexEncode(ev.key)), Text("value", HexEncode(ev.val.value));
    assert FieldsOf(ev) == [a] + ([b] + ([c] + ([d] + [e])));
    JoinedMore(a, [b] + ([c] + ([d] + [e])));
    JoinedMore(b, [c] + ([d] + [e]));
    JoinedMore(c, [d] + [e]);
    JoinedMore(d, [e]);
    assert Decimal(LOG_VERSION) == "1" && "\"v\":" + "1" == "\"v\":1";
    PrintedNumbers(Decimal(LOG_VERSION));
    PrintedNumbers(Decimal(ev.sequence));
    PrintedOps();
    PrintedHex("key", HexEncode(ev.key));
    PrintedHex("value", HexEncode(ev.val.value));
  }

  lemma DeleteLineFormat(ev: Event)
    requires WellFormed(ev) && ev.op == Delete
    ensures EncodeLine(ev) ==
            "{" + ("\"v\":1" + ("," + ("\"seq\":" + Decimal(ev.sequence) + ("," + ("\"op\":\"delete\""
            + ("," + ("\"" + "key" + "\":\"" + HexEncode(ev.key) + "\""))))))) + "}" + "\n"
  {
    var a, b, c := Number("v", Decimal(LOG_VERSION)), Number("seq", Decimal(ev.sequence)), Text("op", "delete");
    var d := Text("key", HexEncode(ev.key));
    assert FieldsOf(ev) == [a] + ([b] + ([c] + [d]));
    JoinedMore(a, [b] + ([c] + [d]));
    JoinedMore(b, [c] + [d]);
    JoinedMore(c, [d]);
    assert Decimal(LOG_VERSION) == "1" && "\"v\":" + "1" == "\"v\":1";
    PrintedNumbers(Decimal(LOG_VERSION));
    PrintedNumbers(Decimal(ev.sequence));
    PrintedOps();
    PrintedHex("key", HexEncode(ev.key));
  }

  // ---- Whole logs ----

  /** Length of the text before the first newline. */
  function LineLength(s: string): (n: nat)
    ensures n <= |s|
  {
    if s == [] || s[0] == '\n' then 0 else 1 + LineLength(s[1..])
  }

  function StripReturn(s: string): string {
    if s != [] && s[|s| - 1] == '\r' then s[..|s| - 1] else s
  }

  /** `str::lines`: a final newline ends the last line rather than starting another. */
  function Lines(s: string): seq<string> {
    if s == [] then [] else
      var n := LineLength(s);
      [StripReturn(s[..n])] + if n == |s| then [] else Lines(s[n + 1..])
  }

  function DecodeLines(lines: seq<string>): Option<seq<Event>> {
    if lines == [] then Some([])
    else if Trim(lines[0]) == [] then DecodeLines(lines[1..])
    else
      var ev, rest := DecodeLine(lines[0]), DecodeLines(lines[1..]);
      if ev.None? || rest.None? then None else Some([ev.value] + rest.value)
  }

  /** Stable insertion by sequence. */
  function InsertBySequence(ev: Event, events: seq<Event>): seq<Event> {
    if events == [] || ev.sequence <= events[0].sequence then [ev] + events
    else [events[0]] + InsertBySequence(ev, events[1..])
  }

  function SortBySequence(events: seq<Event>): seq<Event> {
    if events == [] then [] else InsertBySequence(events[0], SortBySequence(events[1..]))
  }

  function LoadLog(text: string): Option<seq<Event>> {
    var events := DecodeLines(Lines(text));
    if events.None? then None else Some(SortBySequence(events.value))
  }

  function EncodeLog(events: seq<Event>): string {
    if events == [] then [] else EncodeLine(events[0]) + EncodeLog(events[1..])
  }

  predicate NoNewline(s: string) {
    forall i :: 0 <= i < |s| ==> s[i] != '\n'
  }

  lemma {:induction false} LineEnds(s: string, rest: string)
    requires NoNewline(s)
    ensures LineLength(s + "\n" + rest) == |s|
    decreases |s|
  {
    var t := s + "\n" + rest;
    if s == [] {
      assert t[0] == '\n';
    } else {
      LineEnds(s[1..], rest);
      assert t[0] == s[0] && t[1..] == s[1..] + "\n" + rest;
    }
  }

  /** Nothing a line break, trimming or the closing brace could be taken for. */
  predicate Solid(s: string) {
    forall i :: 0 <= i < |s| ==> s[i] != '}' && !IsSpace(s[i])
  }

  lemma {:induction false} JoinedSolid(fields: seq<Field>)
    requires AllPlain(fields)
    ensures Solid(Joined(fields))
    decreases |fields|
  {
    if fields != [] {
      PrintedSolid(fields[0]);
    }
    if |fields| > 1 {
      JoinedSolid(fields[1..]);
    }
  }

  lemma PrintedSolid(f: Field)
    requires PlainField(f)
    ensures Solid(Printed(f))
  {
    assert Solid(f.name) && Solid(f.text);
  }

  lemma FirstLine(ev: Event, rest: string)
    ensures Lines(EncodeLine(ev) + rest) == ["{" + Joined(FieldsOf(ev)) + "}"] + Lines(rest)
  {
    var line := "{" + Joined(FieldsOf(ev)) + "}";
    EventFieldsPlain(ev);
    JoinedSolid(FieldsOf(ev));
    LineEnds(line, rest);
    var s := EncodeLine(ev) + rest;
    assert s == line + "\n" + rest;
    assert s[..|line|] == line && s[|line| + 1..] == rest && line[|line| - 1] == '}';
  }

  lemma SameTrim(a: string, b: string)
    requires Trim(a) == Trim(b)
    ensures DecodeLine(a) == DecodeLine(b)
  {
  }

  lemma TrimmedLine(ev: Event)
    ensures var line := "{" + Joined(FieldsOf(ev)) + "}"; Trim(line) == line && Trim(EncodeLine(ev)) == line && line != []
  {
    var line := "{" + Joined(FieldsOf(ev)) + "}";
    assert line[0] == '{' && line[|line| - 1] == '}';
    TrimLine(line);
  }

  lemma FirstDecoded(ev: Event)
    requires WellFormed(ev)
    ensures var line := "{" + Joined(FieldsOf(ev)) + "}"; Trim(line) != [] && DecodeLine(line) == Some(ev)
  {
    TrimmedLine(ev);
    LineRoundTrip(ev);
    SameTrim(EncodeLine(ev), "{" + Joined(FieldsOf(ev)) + "}");
  }

  lemma DecodeNext(line: string, rest: seq<string>, ev: Event)
    requires Trim(line) != [] && DecodeLine(line) == Some(ev)
    ensures var events := DecodeLines(rest);
            DecodeLines([line] + rest) == if events.None? then None else Some([ev] + events.value)
  {
  }

  predicate Ordered(events: seq<Event>) {
    forall i, j :: 0 <= i < j < |events| ==> events[i].sequence <= events[j].sequence
  }

  lemma {:induction false} SortOrdered(events: seq<Event>)
    requires Ordered(events)
    ensures SortBySequence(events) == events
  {
    if events != [] {
      SortOrdered(events[1..]);
      assert |events| > 1 ==> events[1..][0] == events[1];
    }
  }

  lemma LinesNext(ev: Event, rest: string)
    requires WellFormed(ev)
    ensures var events := DecodeLines(Lines(rest));
            DecodeLines(Lines(EncodeLine(ev) + rest)) == if events.None? then None else Some([ev] + events.value)
  {
    FirstLine(ev, rest);
    FirstDecoded(ev);
    DecodeNext("{" + Joined(FieldsOf(ev)) + "}", Lines(rest), ev);
  }

  lemma {:induction false} LinesDecoded(events: seq<Event>)
    requires forall i :: 0 <= i < |events| ==> WellFormed(events[i])
    ensures DecodeLines(Lines(EncodeLog(events))) == Some(events)
    decreases |events|
  {
    if events != [] {
      LinesDecoded(events[1..]);
      LinesNext(events[0], EncodeLog(events[1..]));
      assert events == [events[0]] + events[1..];
    }
  }

  /** Appending a line per event and loading the file gives the events back. */
  lemma LogRoundTrip(events: seq<Event>)
    requires Ordered(events) && forall i :: 0 <= i < |events| ==> WellFormed(events[i])
    ensures LoadLog(EncodeLog(events)) == Some(events)
  {
    LinesDecoded(events);
    SortOrdered(events);
  }

  // ---- Truncated logs ----

  lemma {:induction false} NoBreak(s: string)
    requires NoNewline(s)
    ensures LineLength(s) == |s|
    decreases |s|
  {
    if s != [] { NoBreak(s[1..]); }
  }

  lemma OnlyLine(s: string)
    requires s != [] && NoNewline(s) && s[|s| - 1] != '\r'
    ensures Lines(s) == [s]
  {
    NoBreak(s);
    assert s[..|s|] == s;
  }

  /** A line without its newline still loads. */
  lemma UnendedLine(ev: Event)
    requires WellFormed(ev)
    ensures DecodeLines(Lines("{" + Joined(FieldsOf(ev)) + "}")) == Some([ev])
  {
    var line := "{" + Joined(FieldsOf(ev)) + "}";
    SolidLine(ev);
    OnlyLine(line);
    FirstDecoded(ev);
    DecodeNext(line, [], ev);
    assert [line] + [] == [line] && [ev] + [] == [ev];
  }

  lemma SolidLine(ev: Event)
    ensures Solid(Joined(FieldsOf(ev))) && NoNewline("{" + Joined(FieldsOf(ev)) + "}")
  {
    EventFieldsPlain(ev);
    JoinedSolid(FieldsOf(ev));
  }

  /** A line cut before its closing brace is refused. */
  lemma CutLine(ev: Event, n: nat)
    requires 0 < n < |EncodeLine(ev)| - 1
    ensures DecodeLines(Lines(EncodeLine(ev)[..n])) == None
  {
    var cut, body := EncodeLine(ev)[..n], Joined(FieldsOf(ev));
    SolidLine(ev);
    assert cut == "{" + body[..n - 1];
    Unclosed(cut);
  }

  lemma Unclosed(cut: string)
    requires cut != [] && Solid(cut)
    ensures DecodeLines(Lines(cut)) == None
  {
    assert NoNewline(cut);
    OnlyLine(cut);
    TrimLine(cut);
    assert DecodeLine(cut) == None;
  }

  /** What the first `n` characters of the log hold. */
  function Kept(events: seq<Event>, n: nat): Option<seq<Event>> {
    if n == 0 then Some([]) else if events == [] then None else
      var line := |EncodeLine(events[0])|;
      if n >= line then
        var rest := Kept(events[1..], n - line);
        if rest.None? then None else Some([events[0]] + rest.value)
      else if n == line - 1 then Some([events[0]]) else None
  }

  lemma {:induction false} CutLogDecoded(events: seq<Event>, n: nat)
    requires n <= |EncodeLog(events)| && forall i :: 0 <= i < |events| ==> WellFormed(events[i])
    ensures DecodeLines(Lines(EncodeLog(events)[..n])) == Kept(events, n)
    decreases |events|
  {
    if n > 0 {
      var ev, first, rest := events[0], EncodeLine(events[0]), EncodeLog(events[1..]);
      if n >= |first| {
        CutLogDecoded(events[1..], n - |first|);
        assert EncodeLog(events)[..n] == first + rest[..n - |first|];
        LinesNext(ev, rest[..n - |first|]);
      } else {
        assert EncodeLog(events)[..n] == first[..n];
        CutFirst(ev, n);
      }
    }
  }

  lemma CutFirst(ev: Event, n: nat)
    requires WellFormed(ev) && 0 < n < |EncodeLine(ev)|
    ensures DecodeLines(Lines(EncodeLine(ev)[..n])) == if n == |EncodeLine(ev)| - 1 then Some([ev]) else None
  {
    if n == |EncodeLine(ev)| - 1 {
      UnendedLine(ev);
      assert EncodeLine(ev)[..n] == "{" + Joined(FieldsOf(ev)) + "}";
    } else {
      CutLine(ev, n);
    }
  }

  /** The cut falls at the end of the first `k` lines, or just before its newline. */
  predicate EndsAfter(events: seq<Event>, k: nat, n: nat)
    requires k <= |events|
  {
    var whole := |EncodeLog(events[..k])|;
    n == whole || (k > 0 && n + 1 == whole)
  }

  lemma KeptNext(events: seq<Event>, k: nat)
    requires 0 < k <= |events|
    ensures |EncodeLog(events[..k])| == |EncodeLine(events[0])| + |EncodeLog(events[1..][..k - 1])|
    ensures EncodeLog(events[1..][..k - 1]) == [] <==> k == 1
  {
    assert events[..k][1..] == events[1..][..k - 1];
  }

  lemma {:induction false} KeptIsPrefix(events: seq<Event>, k: nat, n: nat)
    requires k <= |events| && EndsAfter(events, k, n)
    ensures Kept(events, n) == Some(events[..k])
    decreases |events|
  {
    if k > 0 {
      KeptNext(events, k);
      var line := |EncodeLine(events[0])|;
      if n >= line {
        KeptIsPrefix(events[1..], k - 1, n - line);
        KeptFirst(events, n, events[1..][..k - 1]);
        assert events[..k] == [events[0]] + events[1..][..k - 1];
      } else {
        KeptUnended(events);
        assert events[..1] == [events[0]];
      }
    }
  }

  lemma KeptFirst(events: seq<Event>, n: nat, rest: seq<Event>)
    requires events != [] && n >= |EncodeLine(events[0])| && Kept(events[1..], n - |EncodeLine(events[0])|) == Some(rest)
    ensures Kept(events, n) == Some([events[0]] + rest)
  {
    assert |EncodeLine(events[0])| > 0;
  }

  lemma KeptUnended(events: seq<Event>)
    requires events != []
    ensures |EncodeLine(events[0])| > 1 && Kept(events, |EncodeLine(events[0])| - 1) == Some([events[0]])
  {
  }

  lemma {:induction false} KeptHasPrefix(events: seq<Event>, n: nat) returns (k: nat)
    requires Kept(events, n).Some?
    ensures k <= |events| && EndsAfter(events, k, n)
    decreases |events|
  {
    if n == 0 {
      k := 0;
    } else {
      var line := |EncodeLine(events[0])|;
      if n >= line {
        k := KeptHasPrefix(events[1..], n - line);
        KeptNext(events, k + 1);
        k := k + 1;
      } else {
        k := 1;
        KeptNext(events, 1);
      }
    }
  }

  /** A truncated log loads exactly when the cut is at the end of a line or just before
      its newline, and then gives the events of those lines; any other cut is refused. */
  lemma TruncatedLogExact(events: seq<Event>, n: nat)
    requires Ordered(events) && n <= |EncodeLog(events)| && forall i :: 0 <= i < |events| ==> WellFormed(events[i])
    ensures LoadLog(EncodeLog(events)[..n]).Some? <==> exists k: nat :: k <= |events| && EndsAfter(events, k, n)
    ensures forall k: nat :: k <= |events| && EndsAfter(events, k, n) ==> LoadLog(EncodeLog(events)[..n]) == Some(events[..k])
  {
    CutLogDecoded(events, n);
    if Kept(events, n).Some? {
      var k := KeptHasPrefix(events, n);
    }
    forall k: nat | k <= |events| && EndsAfter(events, k, n) ensures LoadLog(EncodeLog(events)[..n]) == Some(events[..k]) {
      KeptIsPrefix(events, k, n);
      SortOrdered(events[..k]);
    }
  }

  // ---- The cursor loops ----

  ghost function Behind<T>(done: seq<T>, rest: Option<seq<T>>): Option<seq<T>> {
    match rest
    case None => None
    case Some(r) => Some(done + r)
  }

  lemma BehindNothing<T>(rest: Option<seq<T>>)
    ensures Behind([], rest) == rest
  {
    assert rest.Some? ==> [] + rest.value == rest.value;
  }

  lemma BehindOne<T>(done: seq<T>, x: T, rest: Option<seq<T>>)
    ensures Behind(done + [x], rest) == Behind(done, Behind([x], rest))
  {
    assert rest.Some? ==> (done + [x]) + rest.value == done + ([x] + rest.value);
  }

  method PrintHex(s: Bytes) returns (out: string)
    ensures out == HexEncode(s)
  {
    out := [];
    assert s[0..] == s;
    for i := 0 to |s|
      invariant out + HexEncode(s[i..]) == HexEncode(s)
    {
      assert s[i..][1..] == s[i + 1..];
      out := out + [HexChar(s[i] / 16)] + [HexChar(s[i] % 16)];
    }
  }

  method ReadHex(s: string) returns (r: Option<Bytes>)
    ensures r == HexDecode(s)
  {
    if |s| % 2 != 0 {
      return None;
    }
    var out: Bytes, i := [], 0;
    assert s[0..] == s;
    BehindNothing(HexPairs(s));
    while i < |s|
      invariant i % 2 == 0 && i <= |s| && Behind(out, HexPairs(s[i..])) == HexPairs(s)
    {
      assert s[i..][0] == s[i] && s[i..][1] == s[i + 1] && s[i..][2..] == s[i + 2..];
      var hi, lo := HexNibble(s[i]), HexNibble(s[i + 1]);
      if hi.None? || lo.None? {
        return None;
      }
      BehindOne(out, hi.value * 16 + lo.value, HexPairs(s[i + 2..]));
      out := out + [hi.value * 16 + lo.value];
      i := i + 2;
    }
    assert out + [] == out;
    r := Some(out);
  }

  ghost function BehindText(done: string, r: Option<(string, string)>): Option<(string, string)> {
    match r
    case None => None
    case Some((text, rest)) => Some((done + text, rest))
  }

  lemma BehindChar(done: string, c: char, r: Option<(string, string)>)
    ensures BehindText(done + [c], r) == BehindText(done, BehindText([c], r))
  {
    assert r.Some? ==> (done + [c]) + r.value.0 == done + ([c] + r.value.0);
  }

  method ParseJsonString(s: string) returns (r: Option<(string, string)>)
    ensures r == ParseString(s)
  {
    if !StartsWith(s, '"') {
      return None;
    }
    var out, i := "", 1;
    assert ParseString(s).Some? ==> [] + ParseString(s).value.0 == ParseString(s).value.0;
    while i < |s|
      invariant 1 <= i <= |s| && BehindText(out, ScanString(s[i..])) == ParseString(s)
    {
      assert s[i..][0] == s[i] && s[i..][1..] == s[i + 1..];
      if s[i] == '"' {
        assert out + [] == out;
        return Some((out, s[i + 1..]));
      } else if s[i] == '\\' {
        if i + 1 >= |s| {
          return None;
        }
        assert s[i..][1] == s[i + 1] && s[i..][2..] == s[i + 2..];
        BehindChar(out, s[i + 1], ScanString(s[i + 2..]));
        out := out + [s[i + 1]];
        i := i + 2;
      } else {
        BehindChar(out, s[i], ScanString(s[i + 1..]));
        out := out + [s[i]];
        i := i + 1;
      }
    }
    r := None;
  }

  method ReadField(rest: string) returns (r: Option<(string, string, string)>)
    ensures r == ParseField(rest)
  {
    var name := ParseJsonString(TrimStart(rest));
    if name.None? {
      return None;
    }
    var colon := TrimStart(name.value.1);
    if !StartsWith(colon, ':') {
      return None;
    }
    var v: Option<(string, string)>;
    var text := TrimStart(colon[1..]);
    if StartsWith(text, '"') {
      v := ParseJsonString(text);
    } else {
      var end := NumberLength(text);
      v := Some((text[..end], text[end..]));
    }
    if v.None? {
      return None;
    }
    r := Some((name.value.0, v.value.0, TrimStart(v.value.1)));
  }

  method SplitJsonFields(body: string) returns (r: Option<seq<(string, string)>>)
    ensures r == SplitFields(Trim(body))
  {
    var rest, out := Trim(body), [];
    BehindNothing(SplitFields(rest));
    while rest != []
      invariant Behind(out, SplitFields(rest)) == SplitFields(Trim(body))
      decreases |rest|
    {
      var f := ReadField(rest);
      if f.None? {
        return None;
      }
      var (name, v, after) := f.value;
      if after == [] {
        return Some(out + [(name, v)]);
      }
      if after[0] != ',' {
        return None;
      }
      BehindOne(out, (name, v), SplitFields(TrimStart(after[1..])));
      out := out + [(name, v)];
      rest := TrimStart(after[1..]);
    }
    assert out + [] == out;
    r := Some(out);
  }
}
