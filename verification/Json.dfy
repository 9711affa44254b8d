/**
 The JSON that continuation cursors are made of: strings escaped to ASCII, integers, and flat
 objects of them. Characters are Unicode scalar values.
*/
module Json {
  import opened Options
  import opened Decimals

  // ---------------------------------------------------------------- writing strings

  function HexDigit(d: int): char
    requires 0 <= d < 16
  {
    if d < 10 then ('0' as int + d) as char else ('a' as int + d - 10) as char
  }

  function HexText(u: int): string
    requires 0 <= u < 0x10000
  {
    [HexDigit(u / 4096), HexDigit(u / 256 % 16), HexDigit(u / 16 % 16), HexDigit(u % 16)]
  }

  function UnicodeEscape(u: int): string
    requires 0 <= u < 0x10000
  {
    "\\u" + HexText(u)
  }

  /** Printable ASCII stands for itself; beyond the basic plane a surrogate pair is written. */
  function EscapeChar(c: char): string {
    if c == '"' then "\\\""
    else if c == '\\' then "\\\\"
    else if c == '\n' then "\\n"
    else if c == '\r' then "\\r"
    else if c == '\t' then "\\t"
    else if c as int == 8 then "\\b"
    else if c as int == 12 then "\\f"
    else if ' ' <= c <= '~' then [c]
    else if c as int < 0x10000 then UnicodeEscape(c as int)
    else UnicodeEscape(0xd800 + (c as int - 0x10000) / 0x400) + UnicodeEscape(0xdc00 + (c as int - 0x10000) % 0x400)
  }

  function Escape(s: string): string {
    if s == "" then "" else EscapeChar(s[0]) + Escape(s[1..])
  }

  function Quote(s: string): string {
    "\"" + Escape(s) + "\""
  }

  // ---------------------------------------------------------------- reading strings

  function HexValue(c: char): Option<int> {
    if '0' <= c <= '9' then Some(c as int - '0' as int)
    else if 'a' <= c <= 'f' then Some(c as int - 'a' as int + 10)
    else if 'A' <= c <= 'F' then Some(c as int - 'A' as int + 10)
    else None
  }

  /** The value of four hexadecimal digits at the start of `s`. */
  function ReadHex(s: string): (r: Option<int>)
    ensures r.Some? ==> 0 <= r.value < 0x10000
  {
    if |s| < 4 then None
    else
      var a, b, c, d := HexValue(s[0]), HexValue(s[1]), HexValue(s[2]), HexValue(s[3]);
      if a.None? || b.None? || c.None? || d.None? then None
      else Some(a.value * 4096 + b.value * 256 + c.value * 16 + d.value)
  }

  /** A string read, and the text after it. */
  datatype StringRead = StringRead(value: string, rest: string)

  function Prepend(c: char, r: Option<StringRead>): Option<StringRead> {
    if r.None? then None else Some(StringRead([c] + r.value.value, r.value.rest))
  }

  function SimpleEscape(c: char): Option<char> {
    if c == '"' || c == '\\' || c == '/' then Some(c)
    else if c == 'n' then Some('\n')
    else if c == 'r' then Some('\r')
    else if c == 't' then Some('\t')
    else if c == 'b' then Some(8 as char)
    else if c == 'f' then Some(12 as char)
    else None
  }

  /** The low surrogate of the escape at the start of `s`, if there is one. */
  function ReadLow(s: string): (r: Option<int>)
    ensures r.Some? ==> 0xdc00 <= r.value < 0xe000 && |s| >= 6
  {
    if |s| >= 6 && s[0] == '\\' && s[1] == 'u' && ReadHex(s[2..]).Some? && 0xdc00 <= ReadHex(s[2..]).value < 0xe000
    then ReadHex(s[2..]) else None
  }

  /** Read up to the closing quote. Lone surrogates have no counterpart here and read as `None`. */
  function Unescape(s: string): (r: Option<StringRead>)
    ensures r.Some? ==> |r.value.rest| < |s|
    decreases |s|
  {
    if s == "" then None
    else if s[0] == '"' then Some(StringRead("", s[1..]))
    else if s[0] == '\\' then
      if |s| < 2 then None
      else if s[1] != 'u' then
        (if SimpleEscape(s[1]).None? then None else Prepend(SimpleEscape(s[1]).value, Unescape(s[2..])))
      else
        var u := ReadHex(s[2..]);
        if u.None? then None
        else if u.value < 0xd800 || 0xe000 <= u.value then Prepend(u.value as char, Unescape(s[6..]))
        else
          var low := ReadLow(s[6..]);
          if u.value < 0xdc00 && low.Some?
          then Prepend((0x10000 + (u.value - 0xd800) * 0x400 + (low.value - 0xdc00)) as char, Unescape(s[12..]))
          else None
    else if s[0] < ' ' then None
    else Prepend(s[0], Unescape(s[1..]))
  }

  // ---------------------------------------------------------------- the string round trip

  lemma HexDigitReads(d: int)
    requires 0 <= d < 16
    ensures HexValue(HexDigit(d)) == Some(d)
  {
  }

  lemma FourHexDigitsRead(a: int, b: int, c: int, d: int, rest: string)
    requires 0 <= a < 16 && 0 <= b < 16 && 0 <= c < 16 && 0 <= d < 16
    ensures ReadHex([HexDigit(a), HexDigit(b), HexDigit(c), HexDigit(d)] + rest)
      == Some(a * 4096 + b * 256 + c * 16 + d)
  {
    HexDigitReads(a);
    HexDigitReads(b);
    HexDigitReads(c);
    HexDigitReads(d);
  }

  lemma HexDigitsAddUp(u: int)
    requires 0 <= u < 0x10000
    ensures u / 4096 * 4096 + u / 256 % 16 * 256 + u / 16 % 16 * 16 + u % 16 == u
  {
    var v := u / 16;
    assert v / 16 == u / 256 && u / 256 / 16 == u / 4096;
  }

  lemma HexReads(u: int, rest: string)
    requires 0 <= u < 0x10000
    ensures ReadHex(HexText(u) + rest) == Some(u)
  {
    HexDigitsAddUp(u);
    FourHexDigitsRead(u / 4096, u / 256 % 16, u / 16 % 16, u % 16, rest);
  }

  lemma UnicodeEscapeReads(u: int, rest: string)
    requires 0 <= u < 0x10000
    ensures var s := UnicodeEscape(u) + rest;
            && |s| >= 6 && s[0] == '\\' && s[1] == 'u' && ReadHex(s[2..]) == Some(u) && s[6..] == rest
  {
    var s := UnicodeEscape(u) + rest;
    assert s[2..] == HexText(u) + rest;
    HexReads(u, rest);
  }

  lemma BasicPlaneReads(c: char, rest: string)
    requires c as int < 0x10000
    ensures Unescape(UnicodeEscape(c as int) + rest) == Prepend(c, Unescape(rest))
  {
    UnicodeEscapeReads(c as int, rest);
  }

  lemma SurrogatePairReads(c: char, rest: string)
    requires c as int >= 0x10000
    ensures Unescape(EscapeChar(c) + rest) == Prepend(c, Unescape(rest))
  {
    hide Unescape, UnicodeEscape;
    SurrogatesAddUp(c as int - 0x10000);
    var high, low := 0xd800 + (c as int - 0x10000) / 0x400, 0xdc00 + (c as int - 0x10000) % 0x400;
    Regroup(UnicodeEscape(high), UnicodeEscape(low), rest);
    TwoEscapesRead(high, low, rest);
  }

  lemma SurrogatesAddUp(n: int)
    requires 0 <= n < 0x100000
    ensures n / 0x400 * 0x400 + n % 0x400 == n && 0 <= n / 0x400 < 0x400
  {
  }

  lemma Regroup(x: string, y: string, z: string)
    ensures (x + y) + z == x + (y + z)
  {
  }

  /** A high and a low surrogate written one after the other are read as one character. */
  lemma TwoEscapesRead(high: int, low: int, rest: string)
    requires 0xd800 <= high < 0xdc00 <= low < 0xe000
    ensures Unescape(UnicodeEscape(high) + (UnicodeEscape(low) + rest))
         == Prepend((0x10000 + (high - 0xd800) * 0x400 + (low - 0xdc00)) as char, Unescape(rest))
  {
    hide ReadHex, UnicodeEscape;
    var tail := UnicodeEscape(low) + rest;
    var s := UnicodeEscape(high) + tail;
    UnicodeEscapeReads(high, tail);
    UnicodeEscapeReads(low, rest);
    assert s[12..] == s[6..][6..];
  }

  lemma EscapedCharReads(c: char, rest: string)
    ensures Unescape(EscapeChar(c) + rest) == Prepend(c, Unescape(rest))
  {
    var e := EscapeChar(c);
    var s := e + rest;
    if |e| == 1 {
      assert s[1..] == rest;
    } else if |e| == 2 {
      assert s[2..] == rest;
    } else if c as int < 0x10000 {
      BasicPlaneReads(c, rest);
    } else {
      SurrogatePairReads(c, rest);
    }
  }

  /** Main result. A quoted string of any Unicode text reads back as itself, and reading stops
      right after its closing quote. */
  lemma {:induction false} QuotedStringReads(s: string, rest: string)
    ensures Unescape(Escape(s) + "\"" + rest) == Some(StringRead(s, rest))
    decreases |s|
  {
    if s == "" {
      assert Escape(s) + "\"" + rest == "\"" + rest;
      assert ("\"" + rest)[1..] == rest;
    } else {
      var tail := Escape(s[1..]) + "\"" + rest;
      assert Escape(s) + "\"" + rest == EscapeChar(s[0]) + tail;
      EscapedCharReads(s[0], tail);
      QuotedStringReads(s[1..], rest);
      assert [s[0]] + s[1..] == s;
    }
  }

  lemma QuoteTail(s: string, x: string)
    ensures (Quote(s) + x)[1..] == Escape(s) + "\"" + x && (Quote(s) + x)[0] == '"'
    ensures Unescape((Quote(s) + x)[1..]) == Some(StringRead(s, x))
  {
    hide Escape, Unescape;
    QuotedStringReads(s, x);
    var tail := Escape(s) + "\"" + x;
    assert Quote(s) + x == "\"" + tail;
    assert ("\"" + tail)[1..] == tail;
  }

  /** A quoted string followed by anything determines both. */
  lemma QuoteIsPrefixFree(s: string, x: string, t: string, y: string)
    requires Quote(s) + x == Quote(t) + y
    ensures s == t && x == y
  {
    QuoteTail(s, x);
    QuoteTail(t, y);
  }

  predicate IsPrintableAscii(s: string) {
    forall i :: 0 <= i < |s| ==> ' ' <= s[i] <= '~'
  }

  lemma EscapedCharIsPrintable(c: char)
    ensures IsPrintableAscii(EscapeChar(c))
  {
  }

  /** What is written is printable ASCII only. */
  lemma {:induction false} QuoteIsPrintable(s: string)
    ensures IsPrintableAscii(Escape(s)) && IsPrintableAscii(Quote(s))
    decreases |s|
  {
    if s != "" {
      EscapedCharIsPrintable(s[0]);
      QuoteIsPrintable(s[1..]);
    }
  }

  // ---------------------------------------------------------------- values and flat objects

  datatype Value = Null | Text(text: string) | Number(number: int)

  datatype ValueRead = ValueRead(value: Value, rest: string)

  function WriteValue(v: Value): string {
    match v
    case Null => "null"
    case Text(s) => Quote(s)
    case Number(n) => IntText(n)
  }

  function SkipSpace(s: string): (r: string)
    ensures |r| <= |s|
    decreases |s|
  {
    if s != "" && (s[0] == ' ' || s[0] == '\t' || s[0] == '\n' || s[0] == '\r') then SkipSpace(s[1..]) else s
  }

  /** How many digits `s` starts with. */
  function DigitCount(s: string): (n: nat)
    ensures n <= |s| && AllDigits(s[..n]) && (n < |s| ==> !IsDigit(s[n]))
    decreases |s|
  {
    if s != "" && IsDigit(s[0]) then
      var n := DigitCount(s[1..]);
      assert forall i :: 0 < i <= n ==> s[i] == s[1..][i - 1];
      n + 1
    else 0
  }

  /** A number without sign: no leading zero, and no fraction or exponent after it. */
  function ReadNat(s: string): (r: Option<(nat, string)>)
    ensures r.Some? ==> |r.value.1| < |s|
  {
    var n := DigitCount(s);
    if n == 0 || (n > 1 && s[0] == '0') || (n < |s| && (s[n] == '.' || s[n] == 'e' || s[n] == 'E')) then None
    else Some((NatValue(s[..n]), s[n..]))
  }

  function ReadValue(s: string): (r: Option<ValueRead>)
    ensures r.Some? ==> |r.value.rest| < |s|
  {
    if s == "" then None
    else if s[0] == '"' then
      var t := Unescape(s[1..]);
      if t.None? then None else Some(ValueRead(Text(t.value.value), t.value.rest))
    else if s[0] == '-' then
      var n := ReadNat(s[1..]);
      if n.None? then None else Some(ValueRead(Number(0 - n.value.0 as int), n.value.1))
    else if "null" <= s then Some(ValueRead(Null, s[4..]))
    else
      var n := ReadNat(s);
      if n.None? then None else Some(ValueRead(Number(n.value.0), n.value.1))
  }

  type Members = map<string, Value>

  datatype ObjectRead = ObjectRead(members: Members, rest: string)

  /** The members from a key's opening quote to the closing brace; a later key wins. */
  function ReadMembers(s: string, soFar: Members): Option<ObjectRead>
    decreases |s|
  {
    if s == "" || s[0] != '"' then None
    else
      var key := Unescape(s[1..]);
      if key.None? then None
      else
        var colon := SkipSpace(key.value.rest);
        if colon == "" || colon[0] != ':' then None
        else
          var v := ReadValue(SkipSpace(colon[1..]));
          if v.None? then None
          else
            var members := soFar[key.value.value := v.value.value];
            var next := SkipSpace(v.value.rest);
            if next == "" then None
            else if next[0] == '}' then Some(ObjectRead(members, next[1..]))
            else if next[0] == ',' then ReadMembers(SkipSpace(next[1..]), members)
            else None
  }

  /** A whole text that is one flat object. */
  function ReadObject(s: string): Option<Members> {
    var open := SkipSpace(s);
    if open == "" || open[0] != '{' then None
    else
      var first := SkipSpace(open[1..]);
      var r := if first != "" && first[0] == '}' then Some(ObjectRead(map[], first[1..]))
        else ReadMembers(first, map[]);
      if r.Some? && SkipSpace(r.value.rest) == "" then Some(r.value.members) else None
  }

  // ---------------------------------------------------------------- members read back

  /** Text after which a number has ended. */
  predicate EndsNumber(rest: string) {
    rest != "" && !IsDigit(rest[0]) && rest[0] != '.' && rest[0] != 'e' && rest[0] != 'E'
  }

  lemma {:induction false} CountAll(digits: string, rest: string)
    requires AllDigits(digits) && EndsNumber(rest)
    ensures DigitCount(digits + rest) == |digits|
    decreases |digits|
  {
    if digits == "" {
      assert digits + rest == rest;
    } else {
      assert (digits + rest)[1..] == digits[1..] + rest;
      CountAll(digits[1..], rest);
    }
  }

  lemma {:induction false} NoLeadingZero(n: nat)
    ensures NatText(n) != "" && (NatText(n)[0] == '0' <==> n == 0) && (n == 0 ==> |NatText(n)| == 1)
  {
    if n >= 10 { NoLeadingZero(n / 10); }
  }

  lemma NatReads(n: nat, rest: string)
    requires EndsNumber(rest)
    ensures ReadNat(NatText(n) + rest) == Some((n, rest))
  {
    var t := NatText(n);
    NatTextReads(n);
    NoLeadingZero(n);
    CountAll(t, rest);
    assert (t + rest)[..|t|] == t && (t + rest)[|t|..] == rest;
  }

  lemma NegativeReads(digits: string, n: nat, rest: string)
    requires ReadNat(digits + rest) == Some((n, rest))
    ensures ReadValue(("-" + digits) + rest) == Some(ValueRead(Number(0 - n as int), rest))
  {
    hide ReadNat;
    assert (("-" + digits) + rest)[1..] == digits + rest;
  }

  lemma NaturalReads(digits: string, n: nat, rest: string)
    requires digits != "" && IsDigit(digits[0]) && ReadNat(digits + rest) == Some((n, rest))
    ensures ReadValue(digits + rest) == Some(ValueRead(Number(n), rest))
  {
    hide ReadNat;
    assert (digits + rest)[0] == digits[0] && "null"[0] == 'n';
  }

  lemma NumberReads(n: int, rest: string)
    requires EndsNumber(rest)
    ensures ReadValue(IntText(n) + rest) == Some(ValueRead(Number(n), rest))
  {
    hide ReadValue, ReadNat, NatText, EndsNumber;
    if n < 0 {
      NatReads(-n, rest);
      NegativeReads(NatText(-n), -n, rest);
    } else {
      NatReads(n, rest);
      NatTextStartsWithDigit(n);
      NaturalReads(NatText(n), n, rest);
    }
  }

  lemma NatTextStartsWithDigit(n: nat)
    ensures NatText(n) != "" && IsDigit(NatText(n)[0])
  {
    IntTextShape(n);
  }

  lemma ValueReads(v: Value, rest: string)
    requires EndsNumber(rest)
    ensures ReadValue(WriteValue(v) + rest) == Some(ValueRead(v, rest))
  {
    match v {
      case Text(t) => QuoteTail(t, rest);
      case Null => assert ("null" + rest)[4..] == rest;
      case Number(n) => NumberReads(n, rest);
    }
  }

  /** A written member, as `json.dumps` with compact separators does it. */
  function WriteMember(key: string, v: Value): string {
    Quote(key) + ":" + WriteValue(v)
  }

  lemma ValueStartsDark(v: Value, rest: string)
    ensures WriteValue(v) != "" && SkipSpace(WriteValue(v) + rest) == WriteValue(v) + rest
  {
    if v.Number? {
      IntTextShape(v.number);
      assert (IntText(v.number) + rest)[0] == IntText(v.number)[0];
    }
  }

  /** A written member followed by a comma or the closing brace is read, and nothing more. */
  lemma MemberReads(key: string, v: Value, rest: string, soFar: Members)
    requires rest != "" && (rest[0] == ',' || rest[0] == '}')
    ensures var s := WriteMember(key, v) + rest;
            ReadMembers(s, soFar) ==
            if rest[0] == '}' then Some(ObjectRead(soFar[key := v], rest[1..]))
            else ReadMembers(SkipSpace(rest[1..]), soFar[key := v])
  {
    var tail := ":" + (WriteValue(v) + rest);
    MemberSplits(key, v, rest);
    QuoteTail(key, tail);
    ColonThenValue(v, rest);
    MemberAfterKey(WriteMember(key, v) + rest, key, tail, v, rest, soFar);
  }

  lemma ColonThenValue(v: Value, rest: string)
    requires EndsNumber(rest)
    ensures var tail := ":" + (WriteValue(v) + rest);
            && SkipSpace(tail) == tail && tail != "" && tail[0] == ':'
            && ReadValue(SkipSpace(tail[1..])) == Some(ValueRead(v, rest))
  {
    var tail := ":" + (WriteValue(v) + rest);
    assert tail[1..] == WriteValue(v) + rest;
    ValueStartsDark(v, rest);
    ValueReads(v, rest);
  }

  /** One unfolding of the member reader, for any text whose parts read as given. */
  lemma MemberAfterKey(s: string, key: string, tail: string, v: Value, rest: string, soFar: Members)
    requires s != "" && s[0] == '"' && Unescape(s[1..]) == Some(StringRead(key, tail))
    requires SkipSpace(tail) == tail && tail != "" && tail[0] == ':'
    requires ReadValue(SkipSpace(tail[1..])) == Some(ValueRead(v, rest))
    requires rest != "" && (rest[0] == ',' || rest[0] == '}')
    ensures ReadMembers(s, soFar) ==
            if rest[0] == '}' then Some(ObjectRead(soFar[key := v], rest[1..]))
            else ReadMembers(SkipSpace(rest[1..]), soFar[key := v])
  {
    assert SkipSpace(rest) == rest;
  }

  lemma MemberSplits(key: string, v: Value, rest: string)
    ensures WriteMember(key, v) + rest == Quote(key) + (":" + (WriteValue(v) + rest))
  {
    Reassociate(Quote(key), ":", WriteValue(v), rest);
  }

  lemma Reassociate(w: string, x: string, y: string, z: string)
    ensures (w + x + y) + z == w + (x + (y + z))
  {
  }
}
