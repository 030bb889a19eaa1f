/**
 * JSON text as RFC 8259 defines it, as far as command payloads need it: objects (section 4) whose values
 * are true, false, strings (section 7) or arrays of strings (section 5), with insignificant whitespace
 * (section 2) between tokens; and the printer the frontend uses.
 */
module Json {
  import opened Base
  import opened Utf8

  datatype Value = Bool(flag: bool) | Text(text: Bytes) | List(items: seq<Bytes>)
  datatype Member = Member(name: Bytes, value: Value)

  const QUOTE: bv8 := 0x22
  const BACKSLASH: bv8 := 0x5C
  const COMMA: bv8 := 0x2C
  const COLON: bv8 := 0x3A
  const TRUE: Bytes := [0x74, 0x72, 0x75, 0x65]
  const FALSE: Bytes := [0x66, 0x61, 0x6C, 0x73, 0x65]

  // ---- printing ---------------------------------------------------------------------------------

  function HexDigit(n: bv8): bv8
    requires n < 16
  {
    if n < 10 then 0x30 + n else 0x61 + (n - 10)
  }

  /** One byte as it appears between the quotes. */
  function Escape(b: bv8): Bytes {
    if b == QUOTE then [BACKSLASH, QUOTE]
    else if b == BACKSLASH then [BACKSLASH, BACKSLASH]
    else if b == 0x08 then [BACKSLASH, 0x62]
    else if b == 0x0C then [BACKSLASH, 0x66]
    else if b == 0x0A then [BACKSLASH, 0x6E]
    else if b == 0x0D then [BACKSLASH, 0x72]
    else if b == 0x09 then [BACKSLASH, 0x74]
    else if b < 0x20 then [BACKSLASH, 0x75, 0x30, 0x30, HexDigit(b >> 4), HexDigit(b & 0x0F)]
    else [b]
  }

  /** Section 7 of RFC 8259: a byte stands for itself unless it is a control character, a quotation mark or a
      backslash; then it has its two-character escape, or none and is written as four hexadecimal digits. */
  lemma EscapeIsStandard(b: bv8)
    ensures forall k | 0 <= k < |Escape(b)| :: Escape(b)[k] >= 0x20
    ensures Escape(b) == [b] <==> b >= 0x20 && b != 0x22 && b != 0x5C
    ensures var e := Escape(b);
            || e == [b]
            || (|e| == 2 && e[0] == 0x5C
                && (e[1], b) in {(0x22, 0x22), (0x5C, 0x5C), (0x62, 0x08), (0x66, 0x0C), (0x6E, 0x0A), (0x72, 0x0D), (0x74, 0x09)})
            || (|e| == 6 && e[..4] == [0x5C, 0x75, 0x30, 0x30]
                && (e[4] == 0x30 || e[4] == 0x31) && (0x30 <= e[5] <= 0x39 || 0x61 <= e[5] <= 0x66)
                && b == (e[4] - 0x30) * 16 + (if e[5] <= 0x39 then e[5] - 0x30 else e[5] - 0x61 + 10))
  {
  }

  function EscapeAll(v: Bytes): Bytes {
    if v == [] then [] else EscapeAll(v[..|v| - 1]) + Escape(v[|v| - 1])
  }

  function Quote(v: Bytes): Bytes {
    [QUOTE] + EscapeAll(v) + [QUOTE]
  }

  /** Strings separated by commas. */
  function Strings(items: seq<Bytes>): Bytes {
    if items == [] then []
    else if |items| == 1 then Quote(items[0])
    else Strings(items[..|items| - 1]) + [COMMA] + Quote(items[|items| - 1])
  }

  function PrintValue(v: Value): Bytes {
    match v
    case Bool(flag) => if flag then TRUE else FALSE
    case Text(text) => Quote(text)
    case List(items) => [0x5B] + Strings(items) + [0x5D]
  }

  function PrintMember(m: Member): Bytes {
    Quote(m.name) + [COLON] + PrintValue(m.value)
  }

  function Members(ms: seq<Member>): Bytes {
    if ms == [] then []
    else if |ms| == 1 then PrintMember(ms[0])
    else Members(ms[..|ms| - 1]) + [COMMA] + PrintMember(ms[|ms| - 1])
  }

  function Print(ms: seq<Member>): Bytes {
    [0x7B] + Members(ms) + [0x7D]
  }

  // ---- parsing ----------------------------------------------------------------------------------

  datatype Parsed<+T> = Parsed(value: T, rest: Bytes)

  predicate Space(b: bv8) {
    b == 0x20 || b == 0x09 || b == 0x0A || b == 0x0D
  }

  function Skip(s: Bytes): (r: Bytes)
    ensures |r| <= |s|
  {
    if s != [] && Space(s[0]) then Skip(s[1..]) else s
  }

  function HexValue(b: bv8): Option<bv32> {
    if 0x30 <= b <= 0x39 then Some((b - 0x30) as bv32)
    else if 0x61 <= b <= 0x66 then Some((b - 0x61 + 10) as bv32)
    else if 0x41 <= b <= 0x46 then Some((b - 0x41 + 10) as bv32)
    else None
  }

  /** The four hexadecimal digits of a `\u` escape. */
  function Unit(s: Bytes): Option<bv32> {
    if |s| < 4 then None
    else
      var a, b, c, d := HexValue(s[0]), HexValue(s[1]), HexValue(s[2]), HexValue(s[3]);
      if a.None? || b.None? || c.None? || d.None? then None
      else Some((((((a.value << 4) | b.value) << 4) | c.value) << 4) | d.value)
  }

  /** What follows a backslash. Surrogate pairs are not part of this model. */
  function Unescape(s: Bytes): (r: Option<Parsed<Bytes>>)
    ensures r.Some? ==> |r.value.rest| < |s|
  {
    if s == [] then None
    else if s[0] == QUOTE || s[0] == BACKSLASH || s[0] == 0x2F then Some(Parsed([s[0]], s[1..]))
    else if s[0] == 0x62 then Some(Parsed([0x08], s[1..]))
    else if s[0] == 0x66 then Some(Parsed([0x0C], s[1..]))
    else if s[0] == 0x6E then Some(Parsed([0x0A], s[1..]))
    else if s[0] == 0x72 then Some(Parsed([0x0D], s[1..]))
    else if s[0] == 0x74 then Some(Parsed([0x09], s[1..]))
    else if s[0] == 0x75 then
      var unit := Unit(s[1..]);
      if unit.None? || !IsScalar(unit.value) then None else Some(Parsed(Encode(unit.value), s[5..]))
    else None
  }

  /** The characters of a string, up to its closing quote. */
  function Chars(s: Bytes): (r: Option<Parsed<Bytes>>)
    ensures r.Some? ==> |r.value.rest| < |s|
    decreases |s|
  {
    if s == [] || s[0] < 0x20 then None
    else if s[0] == QUOTE then Some(Parsed([], s[1..]))
    else if s[0] == BACKSLASH then
      var one := Unescape(s[1..]);
      if one.None? then None else Then(one.value.value, Chars(one.value.rest))
    else Then([s[0]], Chars(s[1..]))
  }

  function Then(head: Bytes, tail: Option<Parsed<Bytes>>): Option<Parsed<Bytes>> {
    if tail.None? then None else Some(Parsed(head + tail.value.value, tail.value.rest))
  }

  function String(s: Bytes): (r: Option<Parsed<Bytes>>)
    ensures r.Some? ==> |r.value.rest| < |s|
  {
    if s == [] || s[0] != QUOTE then None else Chars(s[1..])
  }

  /** One or more strings separated by commas, up to the closing bracket. */
  function Items(s: Bytes): (r: Option<Parsed<seq<Bytes>>>)
    ensures r.Some? ==> |r.value.rest| < |s|
    decreases |s|
  {
    var first := String(Skip(s));
    if first.None? then None
    else
      var after := Skip(first.value.rest);
      if after == [] then None
      else if after[0] == 0x5D then Some(Parsed([first.value.value], after[1..]))
      else if after[0] != COMMA then None
      else
        var more := Items(after[1..]);
        if more.None? then None else Some(Parsed([first.value.value] + more.value.value, more.value.rest))
  }

  function ParseValue(s: Bytes): (r: Option<Parsed<Value>>)
    ensures r.Some? ==> |r.value.rest| < |s|
  {
    if TRUE <= s then Some(Parsed(Bool(true), s[4..]))
    else if FALSE <= s then Some(Parsed(Bool(false), s[5..]))
    else if s == [] then None
    else if s[0] == QUOTE then
      var text := String(s);
      if text.None? then None else Some(Parsed(Text(text.value.value), text.value.rest))
    else if s[0] == 0x5B then
      var inside := Skip(s[1..]);
      if inside != [] && inside[0] == 0x5D then Some(Parsed(List([]), inside[1..]))
      else
        var items := Items(s[1..]);
        if items.None? then None else Some(Parsed(List(items.value.value), items.value.rest))
    else None
  }

  function ParseMember(s: Bytes): (r: Option<Parsed<Member>>)
    ensures r.Some? ==> |r.value.rest| < |s|
  {
    var name := String(Skip(s));
    if name.None? then None
    else
      var after := Skip(name.value.rest);
      if after == [] || after[0] != COLON then None
      else
        var v := ParseValue(Skip(after[1..]));
        if v.None? then None else Some(Parsed(Member(name.value.value, v.value.value), v.value.rest))
  }

  /** One or more members separated by commas, up to the closing brace. */
  function ParseMembers(s: Bytes): (r: Option<Parsed<seq<Member>>>)
    ensures r.Some? ==> |r.value.rest| < |s|
    decreases |s|
  {
    var first := ParseMember(s);
    if first.None? then None
    else
      var after := Skip(first.value.rest);
      if after == [] then None
      else if after[0] == 0x7D then Some(Parsed([first.value.value], after[1..]))
      else if after[0] != COMMA then None
      else
        var more := ParseMembers(after[1..]);
        if more.None? then None else Some(Parsed([first.value.value] + more.value.value, more.value.rest))
  }

  /** A text that is one object of this kind and nothing else. */
  function ParseObject(text: Bytes): Option<seq<Member>> {
    var s := Skip(text);
    if s == [] || s[0] != 0x7B then None
    else
      var inside := Skip(s[1..]);
      if inside != [] && inside[0] == 0x7D then (if Skip(inside[1..]) == [] then Some([]) else None)
      else
        var ms := ParseMembers(s[1..]);
        if ms.None? || Skip(ms.value.rest) != [] then None else Some(ms.value.value)
  }

  // ---- the round trip ---------------------------------------------------------------------------

  lemma HexDigitRead(n: bv8)
    requires n < 16
    ensures HexValue(HexDigit(n)) == Some(n as bv32)
  {
  }

  lemma ControlUnit(b: bv8)
    requires b < 0x20
    ensures (b >> 4) < 16 && (b & 0x0F) < 16
    ensures ((((((0 as bv32) << 4) | 0) << 4) | ((b >> 4) as bv32)) << 4) | ((b & 0x0F) as bv32) == b as bv32
    ensures IsScalar(b as bv32) && Encode(b as bv32) == [b]
  {
    OneOctet(b);
  }

  lemma ControlRead(b: bv8, tail: Bytes)
    requires b < 0x20 && |Escape(b)| == 6
    ensures Unescape(Escape(b)[1..] + tail) == Some(Parsed([b], tail))
  {
    hide HexDigit, HexValue;
    var s := Escape(b)[1..] + tail;
    ControlUnit(b);
    HexDigitRead(b >> 4);
    HexDigitRead(b & 0x0F);
    assert HexValue(0x30) == Some(0) by { ZeroRead(); }
    assert s[1..] == [0x30, 0x30, HexDigit(b >> 4), HexDigit(b & 0x0F)] + tail && s[5..] == tail;
  }

  lemma ZeroRead()
    ensures HexValue(0x30) == Some(0)
  {
  }

  lemma EscapeShape(b: bv8)
    ensures |Escape(b)| == 1 || |Escape(b)| == 2 || |Escape(b)| == 6
    ensures |Escape(b)| == 1 ==> Escape(b) == [b] && b >= 0x20 && b != QUOTE && b != BACKSLASH
    ensures |Escape(b)| != 1 ==> Escape(b)[0] == BACKSLASH
    ensures |Escape(b)| == 6 ==> b < 0x20
  {
  }

  lemma ShortRead(b: bv8, tail: Bytes)
    requires |Escape(b)| == 2
    ensures Unescape(Escape(b)[1..] + tail) == Some(Parsed([b], tail))
  {
    var s := Escape(b)[1..] + tail;
    assert s[0] == Escape(b)[1] && s[1..] == tail;
  }

  /** An escaped byte is read back as that byte, whatever follows. */
  lemma EscapeRead(b: bv8, tail: Bytes)
    ensures Chars(Escape(b) + tail) == Then([b], Chars(tail))
  {
    hide Escape, Unescape, Then;
    EscapeShape(b);
    var s := Escape(b) + tail;
    assert s[1..] == Escape(b)[1..] + tail;
    if |Escape(b)| == 1 {
      assert s[1..] == tail;
    } else if |Escape(b)| == 2 {
      ShortRead(b, tail);
    } else {
      ControlRead(b, tail);
    }
  }

  lemma {:induction false} EscapeAllCons(b: bv8, v: Bytes)
    ensures EscapeAll([b] + v) == Escape(b) + EscapeAll(v)
  {
    hide Escape;
    if v == [] {
      assert [b] + v == [b] && [b][..0] == [];
    } else {
      var last := v[|v| - 1];
      assert ([b] + v)[..|v|] == [b] + v[..|v| - 1] && ([b] + v)[|v|] == last;
      EscapeAllCons(b, v[..|v| - 1]);
    }
  }

  lemma {:induction false} CharsRead(v: Bytes, rest: Bytes)
    ensures Chars(EscapeAll(v) + [QUOTE] + rest) == Some(Parsed(v, rest))
  {
    if v == [] {
      assert EscapeAll(v) + [QUOTE] + rest == [QUOTE] + rest;
    } else {
      assert v == [v[0]] + v[1..];
      EscapeAllCons(v[0], v[1..]);
      var tail := EscapeAll(v[1..]) + [QUOTE] + rest;
      assert EscapeAll(v) + [QUOTE] + rest == Escape(v[0]) + tail;
      EscapeRead(v[0], tail);
      CharsRead(v[1..], rest);
    }
  }

  lemma StringRead(v: Bytes, rest: Bytes)
    ensures String(Quote(v) + rest) == Some(Parsed(v, rest))
  {
    CharsRead(v, rest);
    assert (Quote(v) + rest)[1..] == EscapeAll(v) + [QUOTE] + rest;
  }

  lemma {:induction false} StringsCons(item: Bytes, items: seq<Bytes>)
    requires items != []
    ensures Strings([item] + items) == Quote(item) + [COMMA] + Strings(items)
  {
    var all := [item] + items;
    assert all[..|all| - 1] == [item] + items[..|items| - 1];
    if |items| > 1 { StringsCons(item, items[..|items| - 1]); }
  }

  lemma {:induction false} ItemsRead(items: seq<Bytes>, rest: Bytes)
    requires items != []
    ensures Items(Strings(items) + [0x5D] + rest) == Some(Parsed(items, rest))
  {
    hide String, Quote;
    if |items| == 1 {
      QuoteStarts(items[0], [0x5D] + rest);
      StringRead(items[0], [0x5D] + rest);
      assert Strings(items) + [0x5D] + rest == Quote(items[0]) + ([0x5D] + rest);
      assert items == [items[0]];
    } else {
      assert items == [items[0]] + items[1..];
      StringsCons(items[0], items[1..]);
      var tail := [COMMA] + (Strings(items[1..]) + [0x5D] + rest);
      assert Strings(items) + [0x5D] + rest == Quote(items[0]) + tail;
      QuoteStarts(items[0], tail);
      StringRead(items[0], tail);
      assert tail[1..] == Strings(items[1..]) + [0x5D] + rest;
      ItemsRead(items[1..], rest);
    }
  }

  lemma QuoteStarts(v: Bytes, rest: Bytes)
    ensures Quote(v) + rest != [] && (Quote(v) + rest)[0] == QUOTE && Skip(Quote(v) + rest) == Quote(v) + rest
  {
  }

  lemma StringsStart(items: seq<Bytes>, rest: Bytes)
    requires items != []
    ensures Strings(items) + rest != [] && (Strings(items) + rest)[0] == QUOTE
  {
  }

  lemma ListRead(items: seq<Bytes>, rest: Bytes)
    ensures ParseValue(PrintValue(List(items)) + rest) == Some(Parsed(List(items), rest))
  {
    hide Strings, Items, Quote, String;
    var s := [0x5B] + (Strings(items) + [0x5D] + rest);
    assert PrintValue(List(items)) + rest == s;
    assert s[0] == 0x5B && s[0] != TRUE[0] && s[0] != FALSE[0];
    assert s[1..] == Strings(items) + [0x5D] + rest;
    if items == [] {
      assert Strings(items) == [] by { NoStrings(); }
      assert s[1..] == [0x5D] + rest && (s[1..])[1..] == rest;
    } else {
      ItemsRead(items, rest);
      StringsStart(items, [0x5D] + rest);
      assert s[1..] == Strings(items) + ([0x5D] + rest) && Skip(s[1..]) == s[1..];
    }
  }

  lemma NoStrings()
    ensures Strings([]) == []
  {
  }

  lemma TextRead(text: Bytes, rest: Bytes)
    ensures ParseValue(PrintValue(Text(text)) + rest) == Some(Parsed(Text(text), rest))
  {
    hide Quote, String;
    QuoteStarts(text, rest);
    StringRead(text, rest);
    assert QUOTE != TRUE[0] && QUOTE != FALSE[0];
  }

  lemma BoolRead(flag: bool, rest: Bytes)
    ensures ParseValue(PrintValue(Bool(flag)) + rest) == Some(Parsed(Bool(flag), rest))
  {
    var s := PrintValue(Bool(flag)) + rest;
    assert flag ==> s[4..] == rest;
    assert !flag ==> s[0] != TRUE[0] && s[5..] == rest;
  }

  lemma ValueRead(v: Value, rest: Bytes)
    ensures ParseValue(PrintValue(v) + rest) == Some(Parsed(v, rest))
  {
    hide ParseValue, PrintValue;
    if v.Bool? { BoolRead(v.flag, rest); } else if v.Text? { TextRead(v.text, rest); } else { ListRead(v.items, rest); }
  }

  lemma ValueStarts(v: Value, rest: Bytes)
    ensures Skip(PrintValue(v) + rest) == PrintValue(v) + rest
  {
    if v.Text? { QuoteStarts(v.text, rest); }
  }

  lemma MemberRead(m: Member, rest: Bytes)
    ensures ParseMember(PrintMember(m) + rest) == Some(Parsed(m, rest))
  {
    hide String, Quote, PrintValue, ParseValue;
    var after := [COLON] + (PrintValue(m.value) + rest);
    assert PrintMember(m) + rest == Quote(m.name) + after;
    QuoteStarts(m.name, after);
    StringRead(m.name, after);
    assert after[1..] == PrintValue(m.value) + rest;
    ValueRead(m.value, rest);
    ValueStarts(m.value, rest);
  }

  lemma {:induction false} MembersCons(m: Member, ms: seq<Member>)
    requires ms != []
    ensures Members([m] + ms) == PrintMember(m) + [COMMA] + Members(ms)
  {
    var all := [m] + ms;
    assert all[..|all| - 1] == [m] + ms[..|ms| - 1];
    if |ms| > 1 { MembersCons(m, ms[..|ms| - 1]); }
  }

  lemma {:induction false} MembersRead(ms: seq<Member>, rest: Bytes)
    requires ms != []
    ensures ParseMembers(Members(ms) + [0x7D] + rest) == Some(Parsed(ms, rest))
  {
    hide ParseMember, PrintMember;
    if |ms| == 1 {
      MemberRead(ms[0], [0x7D] + rest);
      assert Members(ms) + [0x7D] + rest == PrintMember(ms[0]) + ([0x7D] + rest);
      assert ms == [ms[0]];
    } else {
      assert ms == [ms[0]] + ms[1..];
      MembersCons(ms[0], ms[1..]);
      var tail := [COMMA] + (Members(ms[1..]) + [0x7D] + rest);
      assert Members(ms) + [0x7D] + rest == PrintMember(ms[0]) + tail;
      MemberRead(ms[0], tail);
      assert tail[1..] == Members(ms[1..]) + [0x7D] + rest;
      MembersRead(ms[1..], rest);
    }
  }

  lemma MembersStart(ms: seq<Member>, rest: Bytes)
    requires ms != []
    ensures Members(ms) + rest != [] && (Members(ms) + rest)[0] == QUOTE
  {
  }

  /** Every printed object reads back as exactly the members it was printed from, in order. */
  lemma ObjectRoundTrip(ms: seq<Member>)
    ensures ParseObject(Print(ms)) == Some(ms)
  {
    hide ParseMembers, Members;
    var s := Print(ms);
    assert Skip(s) == s && s[0] == 0x7B;
    if ms == [] {
      assert Members(ms) == [] by { NoMembers(); }
      assert s[1..] == [0x7D];
    } else {
      assert s[1..] == Members(ms) + [0x7D] + [];
      MembersRead(ms, []);
      MembersStart(ms, [0x7D] + []);
      assert s[1..] == Members(ms) + ([0x7D] + []) && Skip(s[1..]) == s[1..];
    }
  }

  lemma NoMembers()
    ensures Members([]) == []
  {
  }
}
