/** The opaque continuation cursor of the find endpoint and the scope it is bound to. */
module Continuation {
  import opened Options
  import opened Base64Url
  import opened Json
  import Decimals

  datatype Payload = Payload(scopeKey: string, containerOffset: int, assetOffset: int)

  /** What a client's cursor decodes to; an absent scope key is `Null`. */
  datatype Decoded =
    | Cursor(scopeKey: Value, containerOffset: int, assetOffset: int)
    | Malformed
    | NotModelled  // non-ASCII bytes, or an offset given as text: library behaviour left out

  predicate IsBytesOfAscii(b: seq<int>) {
    forall i :: 0 <= i < |b| ==> 0 <= b[i] < 128
  }

  function AsciiBytes(s: string): seq<byte>
    requires IsPrintableAscii(s)
  {
    seq(|s|, i requires 0 <= i < |s| => s[i] as int)
  }

  function AsciiText(b: seq<int>): string
    requires IsBytesOfAscii(b)
  {
    seq(|b|, i requires 0 <= i < |b| => b[i] as char)
  }

  function AssetPart(p: Payload): string {
    WriteMember("assetOffset", Number(p.assetOffset)) + "}"
  }

  function ContainerPart(p: Payload): string {
    WriteMember("containerOffset", Number(p.containerOffset)) + ("," + AssetPart(p))
  }

  function ScopePart(p: Payload): string {
    WriteMember("scopeKey", Text(p.scopeKey)) + ("," + ContainerPart(p))
  }

  /** The payload as compact JSON, its members in the order the handler lists them. */
  function PayloadText(p: Payload): string {
    "{" + ScopePart(p)
  }

  lemma MemberIsPrintable(key: string, v: Value)
    ensures IsPrintableAscii(WriteMember(key, v))
  {
    QuoteIsPrintable(key);
    match v {
      case Text(t) => QuoteIsPrintable(t);
      case Number(n) => Decimals.IntTextShape(n);
      case Null =>
    }
  }

  lemma BothPrintable(x: string, y: string)
    requires IsPrintableAscii(x) && IsPrintableAscii(y)
    ensures IsPrintableAscii(x + y)
  {
  }

  lemma PartIsPrintable(key: string, v: Value, separator: string, rest: string)
    requires IsPrintableAscii(separator) && IsPrintableAscii(rest)
    ensures IsPrintableAscii(WriteMember(key, v) + (separator + rest))
  {
    MemberIsPrintable(key, v);
    BothPrintable(separator, rest);
    BothPrintable(WriteMember(key, v), separator + rest);
  }

  lemma MemberAndRestPrintable(key: string, v: Value, rest: string)
    requires IsPrintableAscii(rest)
    ensures IsPrintableAscii(WriteMember(key, v) + ("," + rest))
  {
    PartIsPrintable(key, v, ",", rest);
  }

  lemma AssetPartIsPrintable(p: Payload)
    ensures IsPrintableAscii(AssetPart(p))
  {
    MemberIsPrintable("assetOffset", Number(p.assetOffset));
    BothPrintable(WriteMember("assetOffset", Number(p.assetOffset)), "}");
  }

  lemma ContainerPartIsPrintable(p: Payload)
    ensures IsPrintableAscii(ContainerPart(p))
  {
    AssetPartIsPrintable(p);
    MemberAndRestPrintable("containerOffset", Number(p.containerOffset), AssetPart(p));
  }

  lemma ScopePartIsPrintable(p: Payload)
    ensures IsPrintableAscii(ScopePart(p))
  {
    ContainerPartIsPrintable(p);
    MemberAndRestPrintable("scopeKey", Text(p.scopeKey), ContainerPart(p));
  }

  lemma Braced(s: string)
    requires IsPrintableAscii(s)
    ensures IsPrintableAscii("{" + s)
  {
    BothPrintable("{", s);
  }

  lemma PayloadTextIsPrintable(p: Payload)
    ensures IsPrintableAscii(PayloadText(p))
  {
    ScopePartIsPrintable(p);
    Braced(ScopePart(p));
  }

  function EncodeContinuation(p: Payload): string {
    PayloadTextIsPrintable(p);
    Encode(AsciiBytes(PayloadText(p)))
  }

  /** `int(value or 0)` */
  function OffsetOf(m: Members, key: string): Option<int> {
    if key !in m then Some(0)
    else match m[key]
      case Null => Some(0)
      case Number(n) => Some(n)
      case Text(t) => if t == "" then Some(0) else None
  }

  function CursorOf(m: Members): Decoded {
    var containers, assets := OffsetOf(m, "containerOffset"), OffsetOf(m, "assetOffset");
    if containers.None? || assets.None? then NotModelled
    else Cursor(if "scopeKey" in m then m["scopeKey"] else Null, containers.value, assets.value)
  }

  function CursorOfText(text: string): Decoded {
    var parsed := ReadObject(text);
    if parsed.None? then Malformed else CursorOf(parsed.value)
  }

  function DecodeContinuation(value: string): Decoded {
    if value == "" then Cursor(Null, 0, 0)
    else
      var raw := Decode(value);
      if raw.None? then Malformed
      else if !IsBytesOfAscii(raw.value) then NotModelled
      else CursorOfText(AsciiText(raw.value))
  }

  lemma LastMember(key: string, v: Value, m: Members)
    ensures ReadMembers(WriteMember(key, v) + "}", m) == Some(ObjectRead(m[key := v], ""))
  {
    MemberReads(key, v, "}", m);
    assert "}"[1..] == "";
  }

  lemma AssetPartReads(p: Payload, m: Members)
    ensures ReadMembers(AssetPart(p), m) == Some(ObjectRead(m["assetOffset" := Number(p.assetOffset)], ""))
  {
    LastMember("assetOffset", Number(p.assetOffset), m);
  }

  /** A member followed by a comma leaves the rest of the object to read. */
  lemma MemberThenRest(key: string, v: Value, rest: string, m: Members)
    requires SkipSpace(rest) == rest
    ensures ReadMembers(WriteMember(key, v) + ("," + rest), m) == ReadMembers(rest, m[key := v])
  {
    MemberReads(key, v, "," + rest, m);
    assert ("," + rest)[1..] == rest;
  }

  lemma MemberStartsWithQuote(key: string, v: Value, rest: string)
    ensures var s := WriteMember(key, v) + rest; s != "" && s[0] == '"' && SkipSpace(s) == s
  {
    var s := WriteMember(key, v) + rest;
    assert s[0] == Quote(key)[0];
  }

  function PayloadMembers(p: Payload): Members {
    var none: Members := map[];
    none["scopeKey" := Text(p.scopeKey)]
        ["containerOffset" := Number(p.containerOffset)]
        ["assetOffset" := Number(p.assetOffset)]
  }

  lemma ScopePartReads(p: Payload)
    ensures ReadMembers(ScopePart(p), map[]) == Some(ObjectRead(PayloadMembers(p), ""))
  {
    var none: Members := map[];
    var first := none["scopeKey" := Text(p.scopeKey)];
    MemberStartsWithQuote("containerOffset", Number(p.containerOffset), "," + AssetPart(p));
    MemberThenRest("scopeKey", Text(p.scopeKey), ContainerPart(p), none);
    MemberStartsWithQuote("assetOffset", Number(p.assetOffset), "}");
    MemberThenRest("containerOffset", Number(p.containerOffset), AssetPart(p), first);
    AssetPartReads(p, first["containerOffset" := Number(p.containerOffset)]);
  }

  lemma ObjectReads(s: string, m: Members)
    requires s != "" && s[0] == '"' && SkipSpace(s) == s
    requires ReadMembers(s, map[]) == Some(ObjectRead(m, ""))
    ensures ReadObject("{" + s) == Some(m)
  {
    assert ("{" + s)[1..] == s && SkipSpace("{" + s) == "{" + s;
  }

  lemma PayloadReads(p: Payload)
    ensures ReadObject(PayloadText(p)) == Some(PayloadMembers(p))
  {
    MemberStartsWithQuote("scopeKey", Text(p.scopeKey), "," + ContainerPart(p));
    ScopePartReads(p);
    ObjectReads(ScopePart(p), PayloadMembers(p));
  }

  lemma PayloadMembersLookUp(p: Payload)
    ensures CursorOf(PayloadMembers(p)) == Cursor(Text(p.scopeKey), p.containerOffset, p.assetOffset)
  {
    assert "scopeKey"[0] == 's' && "containerOffset"[0] == 'c' && "assetOffset"[0] == 'a';
  }

  lemma TextReads(p: Payload)
    ensures CursorOfText(PayloadText(p)) == Cursor(Text(p.scopeKey), p.containerOffset, p.assetOffset)
  {
    PayloadReads(p);
    PayloadMembersLookUp(p);
  }

  lemma AsciiRoundTrip(text: string)
    requires IsPrintableAscii(text) && text != ""
    ensures var value := Encode(AsciiBytes(text));
            && value != "" && Decode(value).Some? && IsBytesOfAscii(Decode(value).value)
            && AsciiText(Decode(value).value) == text
  {
    DecodeUndoesEncode(AsciiBytes(text));
    EncodeShape(AsciiBytes(text));
  }

  lemma DecodeReadsTheText(text: string)
    requires IsPrintableAscii(text) && text != ""
    ensures DecodeContinuation(Encode(AsciiBytes(text))) == CursorOfText(text)
  {
    AsciiRoundTrip(text);
  }

  /** Main result. Decoding undoes encoding for every scope key, whatever text it quotes, and
      every pair of offsets. */
  lemma DecodeUndoesEncodeContinuation(p: Payload)
    ensures DecodeContinuation(EncodeContinuation(p)) == Cursor(Text(p.scopeKey), p.containerOffset, p.assetOffset)
  {
    PayloadTextIsPrintable(p);
    DecodeReadsTheText(PayloadText(p));
    TextReads(p);
  }

  // ---------------------------------------------------------------- the scope of a cursor

  datatype Scope = Scope(containerId: Option<string>, query: string, sort: string, types: seq<string>)

  function TypesText(types: seq<string>): string {
    if |types| == 0 then "]"
    else if |types| == 1 then Quote(types[0]) + "]"
    else Quote(types[0]) + ("," + TypesText(types[1..]))
  }

  function ContainerText(id: Option<string>): string {
    if id.None? then "null" else Quote(id.value)
  }

  /** The four fields of a find request, keys in alphabetical order. */
  function ScopeKey(q: Scope): string {
    "{\"containerId\":" + (ContainerText(q.containerId) + (",\"query\":" + (Quote(q.query)
    + (",\"sort\":" + (Quote(q.sort) + (",\"types\":[" + (TypesText(q.types) + "}")))))))
  }

  lemma Cancel(prefix: string, x: string, y: string)
    requires prefix + x == prefix + y
    ensures x == y
  {
    assert (prefix + x)[|prefix|..] == x;
    assert (prefix + y)[|prefix|..] == y;
  }

  /** What follows the first type: the end of the list, or a comma and the others. */
  function AfterFirst(types: seq<string>): string
    requires types != []
  {
    if |types| == 1 then "]" else "," + TypesText(types[1..])
  }

  lemma Reassociate(x: string, y: string, z: string)
    ensures (x + y) + z == x + (y + z)
  {
  }

  lemma TypesTextSplits(types: seq<string>)
    requires types != []
    ensures TypesText(types) == Quote(types[0]) + AfterFirst(types)
  {
  }

  lemma FirstType(types: seq<string>, x: string)
    requires types != []
    ensures TypesText(types) + x == Quote(types[0]) + (AfterFirst(types) + x)
    ensures (TypesText(types) + x)[0] == '"'
  {
    TypesTextSplits(types);
    Reassociate(Quote(types[0]), AfterFirst(types), x);
    QuoteTail(types[0], AfterFirst(types) + x);
  }

  lemma AfterFirstSplits(types: seq<string>, x: string)
    requires types != []
    ensures var s := AfterFirst(types) + x;
            if |types| == 1 then s[0] == ']' && s[1..] == x
            else s[0] == ',' && s[1..] == TypesText(types[1..]) + x
  {
    if |types| > 1 { Reassociate(",", TypesText(types[1..]), x); }
  }

  lemma {:induction false} TypesTextIsInjective(a: seq<string>, b: seq<string>, x: string, y: string)
    requires TypesText(a) + x == TypesText(b) + y
    ensures a == b && x == y
    decreases |a|, 1
  {
    if a == [] {
      if b != [] { FirstType(b, y); }
      assert b == [];
      Cancel("]", x, y);
    } else {
      FirstType(a, x);
      if b != [] { FirstType(b, y); }
      assert b != [];
      QuoteIsPrefixFree(a[0], AfterFirst(a) + x, b[0], AfterFirst(b) + y);
      OtherTypes(a, b, x, y);
    }
  }

  lemma {:induction false} OtherTypes(a: seq<string>, b: seq<string>, x: string, y: string)
    requires a != [] && b != [] && a[0] == b[0]
    requires AfterFirst(a) + x == AfterFirst(b) + y
    ensures a == b && x == y
    decreases |a|, 0
  {
    AfterFirstSplits(a, x);
    AfterFirstSplits(b, y);
    if |a| == 1 {
      assert |b| == 1;
      assert a == [a[0]] && b == [b[0]];
    } else {
      assert |b| > 1;
      TypesTextIsInjective(a[1..], b[1..], x, y);
      assert a == [a[0]] + a[1..] && b == [b[0]] + b[1..];
    }
  }

  lemma ContainerTextIsPrefixFree(i: Option<string>, j: Option<string>, x: string, y: string)
    requires ContainerText(i) + x == ContainerText(j) + y
    ensures i == j && x == y
  {
    var s := ContainerText(i) + x;
    assert i.Some? ==> s[0] == Quote(i.value)[0] == '"';
    assert j.Some? ==> s[0] == Quote(j.value)[0] == '"';
    assert i.None? ==> s[0] == "null"[0] == 'n';
    assert j.None? ==> s[0] == "null"[0] == 'n';
    if i.None? { Cancel("null", x, y); } else { QuoteIsPrefixFree(i.value, x, j.value, y); }
  }

  /** Main result. The scope key tells apart any two requests that differ in container, query,
      sort or types. */
  lemma ScopeKeyIsInjective(a: Scope, b: Scope)
    requires ScopeKey(a) == ScopeKey(b)
    ensures a == b
  {
    var a4, b4 := TypesText(a.types) + "}", TypesText(b.types) + "}";
    var a3, b3 := ",\"types\":[" + a4, ",\"types\":[" + b4;
    var a2, b2 := ",\"sort\":" + (Quote(a.sort) + a3), ",\"sort\":" + (Quote(b.sort) + b3);
    var a1, b1 := ",\"query\":" + (Quote(a.query) + a2), ",\"query\":" + (Quote(b.query) + b2);
    Cancel("{\"containerId\":", ContainerText(a.containerId) + a1, ContainerText(b.containerId) + b1);
    ContainerTextIsPrefixFree(a.containerId, b.containerId, a1, b1);
    Cancel(",\"query\":", Quote(a.query) + a2, Quote(b.query) + b2);
    QuoteIsPrefixFree(a.query, a2, b.query, b2);
    Cancel(",\"sort\":", Quote(a.sort) + a3, Quote(b.sort) + b3);
    QuoteIsPrefixFree(a.sort, a3, b.sort, b3);
    Cancel(",\"types\":[", a4, b4);
    TypesTextIsInjective(a.types, b.types, "}", "}");
  }

  /** The find endpoint refuses a cursor that names another scope; one that names none passes. */
  predicate ScopeAccepted(d: Decoded, current: string)
    requires d.Cursor?
  {
    d.scopeKey == Null || d.scopeKey == Text("") || d.scopeKey == Number(0) || d.scopeKey == Text(current)
  }

  lemma ScopeKeyIsNotEmpty(q: Scope)
    ensures ScopeKey(q) != ""
  {
    assert ScopeKey(q)[0] == '{';
  }

  lemma OwnScopeAccepted(issued: Scope, current: Scope, d: Decoded)
    requires d.Cursor? && d.scopeKey == Text(ScopeKey(issued))
    ensures ScopeAccepted(d, ScopeKey(current)) <==> issued == current
  {
    ScopeKeyIsNotEmpty(issued);
    if ScopeKey(issued) == ScopeKey(current) { ScopeKeyIsInjective(issued, current); }
  }

  /** Main result. A cursor the broker produced for one request is accepted back for another if
      and only if both ask for the same container, query, sort and types. */
  lemma CursorIsBoundToItsRequest(issued: Scope, current: Scope, containerOffset: int, assetOffset: int)
    ensures var d := DecodeContinuation(EncodeContinuation(Payload(ScopeKey(issued), containerOffset, assetOffset)));
            && d.Cursor? && d.containerOffset == containerOffset && d.assetOffset == assetOffset
            && (ScopeAccepted(d, ScopeKey(current)) <==> issued == current)
  {
    DecodeUndoesEncodeContinuation(Payload(ScopeKey(issued), containerOffset, assetOffset));
    OwnScopeAccepted(issued, current, Cursor(Text(ScopeKey(issued)), containerOffset, assetOffset));
  }
}
