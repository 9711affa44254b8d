/**
 Unpadded base64url: the padded encoder with its `=` stripped, and the lenient decoder of
 the runtime, which skips characters outside the alphabet, stops at a complete pad and
 ignores leftover bits.
*/
module Base64Url {
  import opened Options

  type byte = x: int | 0 <= x < 256 witness 0

  type sextet = x: int | 0 <= x < 64 witness 0

  // ---------------------------------------------------------------- alphabet

  /** `[A-Za-z0-9_-]` */
  predicate IsUrlSafe(c: char) {
    'A' <= c <= 'Z' || 'a' <= c <= 'z' || '0' <= c <= '9' || c == '-' || c == '_'
  }

  /** The decoder translates the URL alphabet to the standard one first, so it takes both. */
  function ValueOf(c: char): Option<sextet> {
    if 'A' <= c <= 'Z' then Some(c as int - 'A' as int)
    else if 'a' <= c <= 'z' then Some(c as int - 'a' as int + 26)
    else if '0' <= c <= '9' then Some(c as int - '0' as int + 52)
    else if c == '-' || c == '+' then Some(62)
    else if c == '_' || c == '/' then Some(63)
    else None
  }

  function CharOf(v: sextet): (c: char)
    ensures IsUrlSafe(c) && ValueOf(c) == Some(v)
  {
    if v < 26 then ('A' as int + v) as char
    else if v < 52 then ('a' as int + v - 26) as char
    else if v < 62 then ('0' as int + v - 52) as char
    else if v == 62 then '-' else '_'
  }

  /** The value of a character of the alphabet. */
  function Value(c: char): sextet {
    if ValueOf(c).Some? then ValueOf(c).value else 0
  }

  lemma UrlSafeRoundTrip(c: char)
    requires IsUrlSafe(c)
    ensures ValueOf(c) == Some(Value(c)) && CharOf(Value(c)) == c
  {
  }

  // ---------------------------------------------------------------- encoder

  function First(a: byte): sextet { a / 4 }

  function Second(a: byte, b: byte): sextet { a % 4 * 16 + b / 16 }

  function Third(b: byte, c: byte): sextet { b % 16 * 4 + c / 64 }

  function Fourth(c: byte): sextet { c % 64 }

  /** The padded standard encoding, in the URL alphabet. */
  function EncodePadded(b: seq<byte>): string {
    if |b| == 0 then ""
    else if |b| == 1 then [CharOf(First(b[0])), CharOf(Second(b[0], 0)), '=', '=']
    else if |b| == 2 then [CharOf(First(b[0])), CharOf(Second(b[0], b[1])), CharOf(Third(b[1], 0)), '=']
    else [CharOf(First(b[0])), CharOf(Second(b[0], b[1])), CharOf(Third(b[1], b[2])), CharOf(Fourth(b[2]))]
         + EncodePadded(b[3..])
  }

  function StripPads(s: string): string {
    if s != "" && s[|s| - 1] == '=' then StripPads(s[..|s| - 1]) else s
  }

  function Encode(b: seq<byte>): string {
    StripPads(EncodePadded(b))
  }

  // ---------------------------------------------------------------- decoder

  /** `quad` characters of the current group are in, `left` holds their pending bits and
      `pads` counts the pad characters since. `None` is a raised error. */
  function Scan(s: string, quad: nat, left: int, pads: nat): Option<seq<int>> {
    if s == "" then (if quad == 0 then Some([]) else None)
    else if s[0] == '=' then
      if quad >= 2 && quad + pads + 1 >= 4 then Some([])
      else Scan(s[1..], quad, left, if quad >= 2 then pads + 1 else pads)
    else
      var v := ValueOf(s[0]);
      if v.None? then Scan(s[1..], quad, left, pads)
      else if quad == 0 then Scan(s[1..], 1, v.value, 0)
      else if quad == 1 then Emit(left * 4 + v.value / 16, Scan(s[1..], 2, v.value % 16, 0))
      else if quad == 2 then Emit(left * 16 + v.value / 4, Scan(s[1..], 3, v.value % 4, 0))
      else Emit(left * 64 + v.value, Scan(s[1..], 0, 0, 0))
  }

  function Emit(b: int, rest: Option<seq<int>>): Option<seq<int>> {
    if rest.None? then None else Some([b] + rest.value)
  }

  predicate IsAscii(s: string) {
    forall i :: 0 <= i < |s| ==> s[i] as int < 128
  }

  /** `=` up to the next multiple of four. */
  function Pad(length: nat): string {
    if length % 4 == 0 then "" else if length % 4 == 1 then "===" else if length % 4 == 2 then "==" else "="
  }

  function Decode(s: string): Option<seq<int>> {
    if IsAscii(s) then Scan(s + Pad(|s|), 0, 0, 0) else None
  }

  // ---------------------------------------------------------------- the encoder, directly

  /** The encoding without ever writing a pad. */
  function Body(b: seq<byte>): string {
    if |b| == 0 then ""
    else if |b| == 1 then [CharOf(First(b[0])), CharOf(Second(b[0], 0))]
    else if |b| == 2 then [CharOf(First(b[0])), CharOf(Second(b[0], b[1])), CharOf(Third(b[1], 0))]
    else [CharOf(First(b[0])), CharOf(Second(b[0], b[1])), CharOf(Third(b[1], b[2])),
          CharOf(Fourth(b[2]))] + Body(b[3..])
  }

  predicate AllUrlSafe(s: string) {
    forall i :: 0 <= i < |s| ==> IsUrlSafe(s[i])
  }

  /** Length, alphabet and padding of the encoding. */
  lemma {:induction false} BodyShape(b: seq<byte>)
    ensures |Body(b)| == (4 * |b| + 2) / 3
    ensures AllUrlSafe(Body(b))
    ensures EncodePadded(b) == Body(b) + Pad(|Body(b)|)
    decreases |b|
  {
    if |b| >= 3 {
      var rest := b[3..];
      BodyShape(rest);
      var head := [CharOf(First(b[0])), CharOf(Second(b[0], b[1])), CharOf(Third(b[1], b[2])), CharOf(Fourth(b[2]))];
      GroupShape(head, Body(rest), EncodePadded(rest));
    }
  }

  lemma GroupShape(head: string, body: string, padded: string)
    requires |head| == 4 && AllUrlSafe(head) && AllUrlSafe(body) && padded == body + Pad(|body|)
    ensures AllUrlSafe(head + body) && head + padded == (head + body) + Pad(|head + body|)
  {
  }

  lemma {:induction false} StripOnlyPads(s: string, n: nat)
    requires AllUrlSafe(s)
    ensures StripPads(s + seq(n, _ => '=')) == s
  {
    var t := s + seq(n, _ => '=');
    if n > 0 {
      assert t[..|t| - 1] == s + seq(n - 1, _ => '=');
      StripOnlyPads(s, n - 1);
    } else {
      assert t == s;
    }
  }

  lemma EncodeIsBody(b: seq<byte>)
    ensures Encode(b) == Body(b)
  {
    BodyShape(b);
    var n := |Pad(|Body(b)|)|;
    assert Pad(|Body(b)|) == seq(n, _ => '=');
    StripOnlyPads(Body(b), n);
  }

  /** Main result. An encoding is unpadded, in the URL alphabet, and its length is that of the
      input, four characters for three bytes, rounded up. */
  lemma EncodeShape(b: seq<byte>)
    ensures |Encode(b)| == (4 * |b| + 2) / 3
    ensures AllUrlSafe(Encode(b))
  {
    EncodeIsBody(b);
    BodyShape(b);
  }

  // ---------------------------------------------------------------- decode after encode

  lemma ScanChar(c: char, rest: string, quad: nat, left: int, pads: nat)
    requires IsUrlSafe(c) && quad < 4
    ensures Scan([c] + rest, quad, left, pads) ==
            if quad == 0 then Scan(rest, 1, Value(c), 0)
            else if quad == 1 then Emit(left * 4 + Value(c) / 16, Scan(rest, 2, Value(c) % 16, 0))
            else if quad == 2 then Emit(left * 16 + Value(c) / 4, Scan(rest, 3, Value(c) % 4, 0))
            else Emit(left * 64 + Value(c), Scan(rest, 0, 0, 0))
  {
    assert ([c] + rest)[1..] == rest;
  }

  function FirstByte(w: sextet, x: sextet): byte { w * 4 + x / 16 }

  function SecondByte(x: sextet, y: sextet): byte { x % 16 * 16 + y / 4 }

  function ThirdByte(y: sextet, z: sextet): byte { y % 4 * 64 + z }

  lemma FourThen(w: char, x: char, y: char, z: char, rest: string)
    ensures [w, x, y, z] + rest == [w] + ([x] + ([y] + ([z] + rest)))
  {
  }

  /** Any four characters of the alphabet are read as three bytes. */
  lemma ScanFour(w: char, x: char, y: char, z: char, rest: string)
    requires IsUrlSafe(w) && IsUrlSafe(x) && IsUrlSafe(y) && IsUrlSafe(z)
    ensures var tail := Scan(rest, 0, 0, 0);
            Scan([w, x, y, z] + rest, 0, 0, 0)
            == if tail.None? then None
               else Some([FirstByte(Value(w), Value(x)), SecondByte(Value(x), Value(y)), ThirdByte(Value(y), Value(z))]
                         + tail.value)
  {
    hide Scan, Emit, Value, ValueOf;
    FourThen(w, x, y, z, rest);
    ScanChar(w, [x] + ([y] + ([z] + rest)), 0, 0, 0);
    ScanChar(x, [y] + ([z] + rest), 1, Value(w), 0);
    ScanChar(y, [z] + rest, 2, Value(x) % 16, 0);
    ScanChar(z, rest, 3, Value(y) % 4, 0);
    EmitThree(FirstByte(Value(w), Value(x)), SecondByte(Value(x), Value(y)), ThirdByte(Value(y), Value(z)),
              Scan(rest, 0, 0, 0));
  }

  lemma EmitThree(a: int, b: int, c: int, tail: Option<seq<int>>)
    ensures Emit(a, Emit(b, Emit(c, tail))) == if tail.None? then None else Some([a, b, c] + tail.value)
  {
    if tail.Some? { assert [a] + ([b] + ([c] + tail.value)) == [a, b, c] + tail.value; }
  }

  lemma EmitAtEnd(a: int, b: int)
    ensures Emit(a, Some([])) == Some([a])
    ensures Emit(a, Emit(b, Some([]))) == Some([a, b])
  {
    assert [a] + [] == [a];
    assert [a] + ([b] + []) == [a, b];
  }

  lemma ScanPad(left: int)
    ensures Scan("==", 2, left, 0) == Some([]) && Scan("=", 3, left, 0) == Some([])
  {
    assert "=="[1..] == "=";
  }

  /** A final group of two characters and its pad. */
  lemma ScanTailOfTwo(w: char, x: char)
    requires IsUrlSafe(w) && IsUrlSafe(x)
    ensures Scan([w, x] + "==", 0, 0, 0) == Some([FirstByte(Value(w), Value(x))])
  {
    assert [w, x] + "==" == [w] + ([x] + "==");
    ScanChar(w, [x] + "==", 0, 0, 0);
    ScanChar(x, "==", 1, Value(w), 0);
    ScanPad(Value(x) % 16);
    EmitAtEnd(FirstByte(Value(w), Value(x)), 0);
  }

  /** A final group of three characters and its pad. */
  lemma ScanTailOfThree(w: char, x: char, y: char)
    requires IsUrlSafe(w) && IsUrlSafe(x) && IsUrlSafe(y)
    ensures Scan([w, x, y] + "=", 0, 0, 0) == Some([FirstByte(Value(w), Value(x)), SecondByte(Value(x), Value(y))])
  {
    assert [w, x, y] + "=" == [w] + ([x] + ([y] + "="));
    ScanChar(w, [x] + ([y] + "="), 0, 0, 0);
    ScanChar(x, [y] + "=", 1, Value(w), 0);
    ScanChar(y, "=", 2, Value(x) % 16, 0);
    ScanPad(Value(y) % 4);
    EmitAtEnd(FirstByte(Value(w), Value(x)), SecondByte(Value(x), Value(y)));
  }

  lemma BytesRoundTrip(a: byte, b: byte, c: byte)
    ensures FirstByte(First(a), Second(a, b)) == a
    ensures SecondByte(Second(a, b), Third(b, c)) == b
    ensures ThirdByte(Third(b, c), Fourth(c)) == c
  {
  }

  lemma ScanTwo(w: sextet, x: sextet)
    ensures Scan([CharOf(w), CharOf(x), '=', '='], 0, 0, 0) == Some([FirstByte(w, x)])
  {
    ScanTailOfTwo(CharOf(w), CharOf(x));
    assert [CharOf(w), CharOf(x), '=', '='] == [CharOf(w), CharOf(x)] + "==";
  }

  lemma ScanThree(w: sextet, x: sextet, y: sextet)
    ensures Scan([CharOf(w), CharOf(x), CharOf(y), '='], 0, 0, 0) == Some([FirstByte(w, x), SecondByte(x, y)])
  {
    ScanTailOfThree(CharOf(w), CharOf(x), CharOf(y));
    assert [CharOf(w), CharOf(x), CharOf(y), '='] == [CharOf(w), CharOf(x), CharOf(y)] + "=";
  }

  lemma ScanGroup(w: sextet, x: sextet, y: sextet, z: sextet, rest: string, d: seq<int>)
    requires Scan(rest, 0, 0, 0) == Some(d)
    ensures Scan([CharOf(w), CharOf(x), CharOf(y), CharOf(z)] + rest, 0, 0, 0)
         == Some([FirstByte(w, x), SecondByte(x, y), ThirdByte(y, z)] + d)
  {
    ScanFour(CharOf(w), CharOf(x), CharOf(y), CharOf(z), rest);
  }

  lemma ScanOneByte(a: byte)
    ensures Scan(EncodePadded([a]), 0, 0, 0) == Some([a])
  {
    ScanTwo(First(a), Second(a, 0));
    BytesRoundTrip(a, 0, 0);
  }

  lemma ScanTwoBytes(a: byte, b: byte)
    ensures Scan(EncodePadded([a, b]), 0, 0, 0) == Some([a, b])
  {
    ScanThree(First(a), Second(a, b), Third(b, 0));
    BytesRoundTrip(a, b, 0);
  }

  lemma ScanThreeBytes(a: byte, b: byte, c: byte, rest: string, d: seq<int>)
    requires Scan(rest, 0, 0, 0) == Some(d)
    ensures Scan([CharOf(First(a)), CharOf(Second(a, b)), CharOf(Third(b, c)), CharOf(Fourth(c))] + rest, 0, 0, 0)
         == Some([a, b, c] + d)
  {
    ScanGroup(First(a), Second(a, b), Third(b, c), Fourth(c), rest, d);
    BytesRoundTrip(a, b, c);
  }

  lemma {:induction false} ScanEncoded(b: seq<byte>)
    ensures Scan(EncodePadded(b), 0, 0, 0) == Some(b)
    decreases |b|
  {
    if |b| == 1 {
      ScanOneByte(b[0]);
      assert b == [b[0]];
    } else if |b| == 2 {
      ScanTwoBytes(b[0], b[1]);
      assert b == [b[0], b[1]];
    } else if |b| >= 3 {
      ScanEncoded(b[3..]);
      ScanThreeBytes(b[0], b[1], b[2], EncodePadded(b[3..]), b[3..]);
      assert b == [b[0], b[1], b[2]] + b[3..];
    }
  }

  /** Main result. Decoding undoes encoding for byte strings of every length. */
  lemma DecodeUndoesEncode(b: seq<byte>)
    ensures Decode(Encode(b)) == Some(b)
  {
    EncodeIsBody(b);
    BodyShape(b);
    ScanEncoded(b);
  }

  /** So an encoding stands for one byte string only. */
  lemma EncodeIsInjective(a: seq<byte>, b: seq<byte>)
    requires Encode(a) == Encode(b)
    ensures a == b
  {
    DecodeUndoesEncode(a);
    DecodeUndoesEncode(b);
  }

  // ---------------------------------------------------------------- encode after decode

  /** The string with the bits no byte uses cleared in its last character. */
  function ClearPadBits(s: string): string {
    if |s| % 4 == 2 then s[..|s| - 1] + [CharOf(Value(s[|s| - 1]) / 16 * 16)]
    else if |s| % 4 == 3 then s[..|s| - 1] + [CharOf(Value(s[|s| - 1]) / 4 * 4)]
    else s
  }

  predicate AllBytes(b: seq<int>) {
    forall i :: 0 <= i < |b| ==> 0 <= b[i] < 256
  }

  lemma SextetsRoundTrip(w: sextet, x: sextet, y: sextet, z: sextet)
    ensures First(FirstByte(w, x)) == w
    ensures Second(FirstByte(w, x), SecondByte(x, y)) == x
    ensures Third(SecondByte(x, y), ThirdByte(y, z)) == y
    ensures Fourth(ThirdByte(y, z)) == z
    ensures Second(FirstByte(w, x), 0) == x / 16 * 16
    ensures Third(SecondByte(x, y), 0) == y / 4 * 4
  {
  }

  /** What `ScanUrlSafe` shows of the bytes read from `s`. */
  ghost predicate Reads(s: string, d: seq<int>) {
    AllBytes(d) && |d| == 3 * |s| / 4 && Body(d) == ClearPadBits(s)
  }

  lemma BodyOfTail(w: sextet, x: sextet, y: sextet)
    ensures Body([FirstByte(w, x)]) == [CharOf(w), CharOf(x / 16 * 16)]
    ensures Body([FirstByte(w, x), SecondByte(x, y)]) == [CharOf(w), CharOf(x), CharOf(y / 4 * 4)]
  {
    SextetsRoundTrip(w, x, y, 0);
  }

  lemma ClearTail(a: char, b: char, c: char)
    ensures ClearPadBits([a, b]) == [a, CharOf(Value(b) / 16 * 16)]
    ensures ClearPadBits([a, b, c]) == [a, b, CharOf(Value(c) / 4 * 4)]
  {
    assert [a, b][..1] == [a];
    assert [a, b, c][..2] == [a, b];
  }

  /** The padded string is read, and as the right bytes. */
  ghost predicate ScanReads(s: string) {
    var d := Scan(s + Pad(|s|), 0, 0, 0);
    d.Some? && Reads(s, d.value)
  }

  lemma ScannedAndRead(s: string, d: seq<byte>)
    requires Scan(s + Pad(|s|), 0, 0, 0) == Some(d)
    requires |d| == 3 * |s| / 4 && Body(d) == ClearPadBits(s)
    ensures ScanReads(s)
  {
  }

  /** The byte behind a final group of two characters. */
  lemma TwoAsByte(a: char, b: char) returns (d: seq<byte>)
    requires IsUrlSafe(a) && IsUrlSafe(b)
    ensures |d| == 1 && Scan([a, b] + "==", 0, 0, 0) == Some(d) && Body(d) == ClearPadBits([a, b])
  {
    ScanTailOfTwo(a, b);
    BodyOfTail(Value(a), Value(b), 0);
    ClearTail(a, b, 'A');
    UrlSafeRoundTrip(a);
    d := [FirstByte(Value(a), Value(b))];
  }

  /** The bytes behind a final group of three. */
  lemma ThreeAsBytes(a: char, b: char, c: char) returns (d: seq<byte>)
    requires IsUrlSafe(a) && IsUrlSafe(b) && IsUrlSafe(c)
    ensures |d| == 2 && Scan([a, b, c] + "=", 0, 0, 0) == Some(d) && Body(d) == ClearPadBits([a, b, c])
  {
    ScanTailOfThree(a, b, c);
    BodyOfTail(Value(a), Value(b), Value(c));
    ClearTail(a, b, c);
    UrlSafeRoundTrip(a);
    UrlSafeRoundTrip(b);
    d := [FirstByte(Value(a), Value(b)), SecondByte(Value(b), Value(c))];
  }

  lemma TwoRead(a: char, b: char)
    requires IsUrlSafe(a) && IsUrlSafe(b)
    ensures ScanReads([a, b])
  {
    var d := TwoAsByte(a, b);
    ScannedAndRead([a, b], d);
  }

  lemma ThreeRead(a: char, b: char, c: char)
    requires IsUrlSafe(a) && IsUrlSafe(b) && IsUrlSafe(c)
    ensures ScanReads([a, b, c])
  {
    var d := ThreeAsBytes(a, b, c);
    ScannedAndRead([a, b, c], d);
  }

  lemma TailReads(s: string)
    requires AllUrlSafe(s) && (|s| == 2 || |s| == 3)
    ensures ScanReads(s)
  {
    if |s| == 2 {
      TwoRead(s[0], s[1]);
      assert s == [s[0], s[1]];
    } else {
      ThreeRead(s[0], s[1], s[2]);
      assert s == [s[0], s[1], s[2]];
    }
  }

  lemma GroupBody(w: sextet, x: sextet, y: sextet, z: sextet, d: seq<byte>)
    ensures Body([FirstByte(w, x), SecondByte(x, y), ThirdByte(y, z)] + d)
         == [CharOf(w), CharOf(x), CharOf(y), CharOf(z)] + Body(d)
  {
    SextetsRoundTrip(w, x, y, z);
    var e: seq<byte> := [FirstByte(w, x), SecondByte(x, y), ThirdByte(y, z)] + d;
    assert e[3..] == d;
  }

  lemma ClearGroup(s: string)
    requires |s| >= 4
    ensures ClearPadBits(s) == s[..4] + ClearPadBits(s[4..])
  {
  }

  /** The bytes behind a full group. */
  lemma FourAsBytes(a: char, b: char, c: char, e: char, rest: string, d: seq<byte>) returns (r: seq<byte>)
    requires IsUrlSafe(a) && IsUrlSafe(b) && IsUrlSafe(c) && IsUrlSafe(e) && Scan(rest, 0, 0, 0) == Some(d)
    ensures |r| == 3 + |d| && Scan([a, b, c, e] + rest, 0, 0, 0) == Some(r) && Body(r) == [a, b, c, e] + Body(d)
  {
    ScanFour(a, b, c, e, rest);
    GroupBody(Value(a), Value(b), Value(c), Value(e), d);
    UrlSafeRoundTrip(a);
    UrlSafeRoundTrip(b);
    UrlSafeRoundTrip(c);
    UrlSafeRoundTrip(e);
    r := [FirstByte(Value(a), Value(b)), SecondByte(Value(b), Value(c)), ThirdByte(Value(c), Value(e))] + d;
  }

  lemma PaddedGroup(s: string)
    requires |s| >= 4
    ensures s + Pad(|s|) == [s[0], s[1], s[2], s[3]] + (s[4..] + Pad(|s[4..]|))
  {
  }

  lemma ClearedGroup(s: string, body: string)
    requires |s| >= 4 && body == ClearPadBits(s[4..])
    ensures [s[0], s[1], s[2], s[3]] + body == ClearPadBits(s)
  {
    ClearGroup(s);
    assert s[..4] == [s[0], s[1], s[2], s[3]];
  }

  lemma GroupReads(s: string, d: seq<byte>)
    requires |s| >= 4 && AllUrlSafe(s)
    requires Scan(s[4..] + Pad(|s[4..]|), 0, 0, 0) == Some(d) && |d| == 3 * (|s| - 4) / 4
    requires Body(d) == ClearPadBits(s[4..])
    ensures ScanReads(s)
  {
    PaddedGroup(s);
    var r := FourAsBytes(s[0], s[1], s[2], s[3], s[4..] + Pad(|s[4..]|), d);
    ClearedGroup(s, Body(d));
    ScannedAndRead(s, r);
  }

  lemma {:induction false} ScanUrlSafe(s: string)
    requires AllUrlSafe(s) && |s| % 4 != 1
    ensures ScanReads(s)
    decreases |s|
  {
    if |s| == 0 {
      assert s + Pad(0) == "";
    } else if |s| < 4 {
      TailReads(s);
    } else {
      ScanUrlSafe(s[4..]);
      GroupReads(s, Scan(s[4..] + Pad(|s[4..]|), 0, 0, 0).value);
    }
  }

  /** Main result. The decoder accepts every string of the URL alphabet whose length a byte
      string can have, and encoding the result gives the string back with its pad bits cleared. */
  lemma EncodeAfterDecode(s: string)
    requires AllUrlSafe(s) && |s| % 4 != 1
    ensures Decode(s).Some? && AllBytes(Decode(s).value) && |Decode(s).value| == 3 * |s| / 4
    ensures Encode(Decode(s).value) == ClearPadBits(s)
  {
    ScanUrlSafe(s);
    EncodeIsBody(Decode(s).value);
  }

  // ---------------------------------------------------------------- known answers

  /** Three bytes become the four digits of the number they write in base 256. */
  lemma ThreeBytesAreOneNumber(a: byte, b: byte, c: byte)
    ensures var e := Encode([a, b, c]);
            && |e| == 4
            && ((Value(e[0]) * 64 + Value(e[1])) * 64 + Value(e[2])) * 64 + Value(e[3]) == (a * 256 + b) * 256 + c
  {
    EncodeIsBody([a, b, c]);
    assert Body([a, b, c][3..]) == "";
  }

  /** "f" and "fo" of section 10 of RFC 4648, unpadded, and the two digits in which the URL
      alphabet differs from the standard one. */
  lemma KnownAnswers()
    ensures Encode([]) == "" && Encode([102]) == "Zg" && Encode([102, 111]) == "Zm8" && Encode([0xfb, 0xff]) == "-_8"
  {
    EncodeIsBody([]);
    EncodeIsBody([102]);
    EncodeIsBody([102, 111]);
    EncodeIsBody([0xfb, 0xff]);
  }
}
