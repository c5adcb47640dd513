/**
 * `encodeURIComponent` and the `application/x-www-form-urlencoded` body the
 * application form sends, built as `key=value` items joined with '&'.
 * A character outside the unreserved set of `encodeURIComponent` (letters,
 * digits and `- _ . ! ~ * ' ( )`) is written as its UTF-8 bytes (RFC 3629),
 * each as '%' and two upper-case hexadecimal digits (section 2.1 of
 * RFC 3986). The partner of the encoder is a percent-decoder to bytes.
 */
module UrlEncoding {
  import opened Common

  type Byte = x: int | 0 <= x < 256

  /** The characters `encodeURIComponent` leaves as they are. */
  predicate IsUnreserved(c: char) {
    ('a' <= c <= 'z') || ('A' <= c <= 'Z') || ('0' <= c <= '9') ||
    c == '-' || c == '_' || c == '.' || c == '!' || c == '~' || c == '*' ||
    c == '\'' || c == '(' || c == ')'
  }

  // ---------------------------------------------------------------------------
  // UTF-8
  // ---------------------------------------------------------------------------

  /** The UTF-8 bytes of one character. */
  function Utf8Bytes(c: char): (r: seq<Byte>)
    ensures |r| == Utf8Width(c)
    ensures c as int < 0x80 ==> r == [c as int]
  {
    var cp := c as int;
    if cp < 0x80 then [cp]
    else if cp < 0x800 then [0xC0 + cp / 64, 0x80 + cp % 64]
    else if cp < 0x10000 then [0xE0 + cp / 4096, 0x80 + (cp / 64) % 64, 0x80 + cp % 64]
    else [0xF0 + cp / 262144, 0x80 + (cp / 4096) % 64, 0x80 + (cp / 64) % 64, 0x80 + cp % 64]
  }

  /** The UTF-8 encoding of a string. */
  function Utf8(s: string): seq<Byte> {
    if |s| == 0 then [] else Utf8Bytes(s[0]) + Utf8(s[1..])
  }

  /** The length of a sequence as announced by its first byte. */
  function LeadWidth(b: Byte): nat {
    if b < 0x80 then 1 else if b < 0xE0 then 2 else if b < 0xF0 then 3 else 4
  }

  /** The code point a sequence of the announced length carries. */
  function SequenceValue(bs: seq<Byte>): int
    requires |bs| >= 1 && |bs| >= LeadWidth(bs[0])
  {
    match LeadWidth(bs[0])
    case 1 => bs[0]
    case 2 => (bs[0] as int - 0xC0) * 64 + (bs[1] as int - 0x80)
    case 3 => (bs[0] as int - 0xE0) * 4096 + (bs[1] as int - 0x80) * 64 + (bs[2] as int - 0x80)
    case _ =>
      (bs[0] as int - 0xF0) * 262144 + (bs[1] as int - 0x80) * 4096 +
      (bs[2] as int - 0x80) * 64 + (bs[3] as int - 0x80)
  }

  /** The first byte announces the length, and the sequence reads back as the character. */
  lemma Utf8CharReadsBack(c: char)
    ensures LeadWidth(Utf8Bytes(c)[0]) == |Utf8Bytes(c)|
    ensures SequenceValue(Utf8Bytes(c)) == c as int
  {
    var cp := c as int;
    if cp >= 0x80 {
      assert cp == (cp / 64) * 64 + cp % 64;
      if cp >= 0x800 {
        assert cp / 64 == (cp / 4096) * 64 + (cp / 64) % 64;
        if cp >= 0x10000 {
          assert cp / 4096 == (cp / 262144) * 64 + (cp / 4096) % 64;
        }
      }
    }
  }

  /** Every character gives at least one byte. */
  lemma Utf8Length(s: string)
    ensures |Utf8(s)| >= |s|
  {
  }

  /** Different strings have different UTF-8 encodings. */
  lemma {:induction false} Utf8Injective(s: string, t: string)
    requires Utf8(s) == Utf8(t)
    ensures s == t
    decreases |s|
  {
    Utf8Length(s);
    Utf8Length(t);
    if |s| > 0 {
      var a, b := Utf8Bytes(s[0]), Utf8Bytes(t[0]);
      Utf8CharReadsBack(s[0]);
      Utf8CharReadsBack(t[0]);
      assert a[0] == Utf8(s)[0] == Utf8(t)[0] == b[0];
      assert |a| == |b|;
      assert a == Utf8(s)[..|a|] == Utf8(t)[..|b|] == b;
      assert s[0] as int == t[0] as int;
      assert Utf8(s[1..]) == Utf8(s)[|a|..] == Utf8(t)[|b|..] == Utf8(t[1..]);
      Utf8Injective(s[1..], t[1..]);
      assert s == [s[0]] + s[1..] && t == [t[0]] + t[1..];
    }
  }

  // ---------------------------------------------------------------------------
  // percent-encoding
  // ---------------------------------------------------------------------------

  function HexDigit(d: nat): (c: char)
    requires d < 16
    ensures IsUnreserved(c)
  {
    if d < 10 then ('0' as int + d) as char else ('A' as int + d - 10) as char
  }

  /** A hexadecimal digit's value, in either case. */
  function HexValue(c: char): (r: Option<nat>)
    ensures r.Some? ==> r.value < 16
  {
    if '0' <= c <= '9' then Some(c as int - '0' as int)
    else if 'A' <= c <= 'F' then Some(c as int - 'A' as int + 10)
    else if 'a' <= c <= 'f' then Some(c as int - 'a' as int + 10)
    else None
  }

  lemma HexValueOfDigit(d: nat)
    requires d < 16
    ensures HexValue(HexDigit(d)) == Some(d)
  {
  }

  /** Bytes as `%XX` triples. */
  function PercentBytes(bs: seq<Byte>): (r: string)
    ensures |r| == 3 * |bs|
    ensures forall i :: 0 <= i < |r| ==> IsUnreserved(r[i]) || r[i] == '%'
  {
    if |bs| == 0 then ""
    else ['%', HexDigit(bs[0] / 16), HexDigit(bs[0] % 16)] + PercentBytes(bs[1..])
  }

  function EncodeChar(c: char): string {
    if IsUnreserved(c) then [c] else PercentBytes(Utf8Bytes(c))
  }

  /** Characters that can appear in an encoded component. */
  predicate IsEncodedChar(c: char) {
    IsUnreserved(c) || c == '%'
  }

  /**
   * `encodeURIComponent(s)`: only unreserved characters and '%' appear, so
   * neither '&' nor '=' does.
   */
  function EncodeURIComponent(s: string): (r: string)
    ensures forall i :: 0 <= i < |r| ==> IsEncodedChar(r[i])
    ensures '&' !in r && '=' !in r
  {
    if |s| == 0 then ""
    else
      var head, rest := EncodeChar(s[0]), EncodeURIComponent(s[1..]);
      assert forall i :: 0 <= i < |head| ==> IsEncodedChar(head[i]);
      var r := head + rest;
      assert forall i :: 0 <= i < |r| ==> IsEncodedChar(r[i]) by {
        forall i | 0 <= i < |r| ensures IsEncodedChar(r[i]) {
          if i >= |head| { assert r[i] == rest[i - |head|]; }
        }
      }
      assert '&' !in r && '=' !in r by {
        assert !IsEncodedChar('&') && !IsEncodedChar('=');
      }
      r
  }

  /** `Some(bs + rest)`, or None when the rest failed. */
  function Prepend(bs: seq<Byte>, o: Option<seq<Byte>>): Option<seq<Byte>> {
    if o.None? then None else Some(bs + o.value)
  }

  /**
   * Percent-decoding to bytes: a `%XX` triple is one byte, any other
   * character stands for its UTF-8 bytes; a '%' without two hexadecimal
   * digits is malformed.
   */
  function PercentDecode(t: string): Option<seq<Byte>> {
    if |t| == 0 then Some([])
    else if t[0] == '%' then
      if |t| >= 3 && HexValue(t[1]).Some? && HexValue(t[2]).Some? then
        Prepend([HexValue(t[1]).value * 16 + HexValue(t[2]).value], PercentDecode(t[3..]))
      else None
    else Prepend(Utf8Bytes(t[0]), PercentDecode(t[1..]))
  }

  lemma PrependAssoc(a: seq<Byte>, b: seq<Byte>, o: Option<seq<Byte>>)
    ensures Prepend(a, Prepend(b, o)) == Prepend(a + b, o)
  {
    if o.Some? {
      assert a + (b + o.value) == (a + b) + o.value;
    }
  }

  /** One `%XX` triple decodes to its byte. */
  lemma DecodeTriple(b: Byte, rest: string)
    ensures PercentDecode(['%', HexDigit(b / 16), HexDigit(b % 16)] + rest) == Prepend([b], PercentDecode(rest))
  {
    var u := ['%', HexDigit(b / 16), HexDigit(b % 16)] + rest;
    HexValueOfDigit(b / 16);
    HexValueOfDigit(b % 16);
    assert u[1] == HexDigit(b / 16) && u[2] == HexDigit(b % 16);
    assert u[3..] == rest;
  }

  lemma {:induction false} DecodePercentBytes(bs: seq<Byte>, t: string)
    ensures PercentDecode(PercentBytes(bs) + t) == Prepend(bs, PercentDecode(t))
    decreases |bs|
  {
    if |bs| == 0 {
      assert PercentBytes(bs) + t == t;
      assert Prepend([], PercentDecode(t)) == PercentDecode(t) by {
        if PercentDecode(t).Some? { assert [] + PercentDecode(t).value == PercentDecode(t).value; }
      }
    } else {
      var rest := PercentBytes(bs[1..]) + t;
      assert PercentBytes(bs) + t == ['%', HexDigit(bs[0] / 16), HexDigit(bs[0] % 16)] + rest;
      DecodeTriple(bs[0], rest);
      DecodePercentBytes(bs[1..], t);
      PrependAssoc([bs[0]], bs[1..], PercentDecode(t));
      assert [bs[0]] + bs[1..] == bs;
    }
  }

  lemma DecodeEncodeChar(c: char, t: string)
    ensures PercentDecode(EncodeChar(c) + t) == Prepend(Utf8Bytes(c), PercentDecode(t))
  {
    if IsUnreserved(c) {
      assert (EncodeChar(c) + t)[0] == c;
      assert (EncodeChar(c) + t)[1..] == t;
    } else {
      DecodePercentBytes(Utf8Bytes(c), t);
    }
  }

  /** Decoding an encoded component gives back the UTF-8 bytes of the original. */
  lemma {:induction false} DecodeEncode(s: string)
    ensures PercentDecode(EncodeURIComponent(s)) == Some(Utf8(s))
    decreases |s|
  {
    if |s| > 0 {
      DecodeEncode(s[1..]);
      DecodeEncodeChar(s[0], EncodeURIComponent(s[1..]));
    }
  }

  /** Different strings have different encodings. */
  lemma EncodeInjective(s: string, t: string)
    requires EncodeURIComponent(s) == EncodeURIComponent(t)
    ensures s == t
  {
    DecodeEncode(s);
    DecodeEncode(t);
    Utf8Injective(s, t);
  }

  // ---------------------------------------------------------------------------
  // the form body
  // ---------------------------------------------------------------------------

  /** `encodeURIComponent(key) + '=' + encodeURIComponent(value)`. */
  function Item(key: string, value: string): string {
    EncodeURIComponent(key) + "=" + EncodeURIComponent(value)
  }

  /** The items, one per pair, in the pairs' order. */
  function Items(pairs: seq<(string, string)>): (r: seq<string>)
    ensures |r| == |pairs|
    ensures forall i :: 0 <= i < |pairs| ==> r[i] == Item(pairs[i].0, pairs[i].1)
  {
    if |pairs| == 0 then [] else [Item(pairs[0].0, pairs[0].1)] + Items(pairs[1..])
  }

  /** `Object.keys(payload).map(...).join('&')` over the payload's pairs. */
  function FormBody(pairs: seq<(string, string)>): string {
    Join(Items(pairs), '&')
  }

  /** Splitting an item on '=' gives back the two encoded halves. */
  lemma ItemSplits(key: string, value: string)
    ensures Split(Item(key, value), '=') == [EncodeURIComponent(key), EncodeURIComponent(value)]
  {
    var xs := [EncodeURIComponent(key), EncodeURIComponent(value)];
    assert xs[1..] == [EncodeURIComponent(value)];
    assert Join(xs, '=') == Item(key, value);
    SplitJoin(xs, '=');
  }

  /** Splitting a non-empty body on '&' gives one item per pair, in order. */
  lemma FormBodySplits(pairs: seq<(string, string)>)
    requires |pairs| >= 1
    ensures Split(FormBody(pairs), '&') == Items(pairs)
  {
    var items := Items(pairs);
    forall k | 0 <= k < |items| ensures '&' !in items[k] {
      assert items[k] == Item(pairs[k].0, pairs[k].1);
    }
    SplitJoin(items, '&');
  }

  /** One item decoded to its key and value bytes, or None when malformed. */
  function DecodeItem(item: string): Option<(seq<Byte>, seq<Byte>)> {
    var halves := Split(item, '=');
    if |halves| != 2 then None
    else
      var k, v := PercentDecode(halves[0]), PercentDecode(halves[1]);
      if k.Some? && v.Some? then Some((k.value, v.value)) else None
  }

  function DecodeItems(items: seq<string>): Option<seq<(seq<Byte>, seq<Byte>)>> {
    if |items| == 0 then Some([])
    else
      var head, rest := DecodeItem(items[0]), DecodeItems(items[1..]);
      if head.Some? && rest.Some? then Some([head.value] + rest.value) else None
  }

  /** How the receiving end reads the body. */
  function ParseForm(body: string): Option<seq<(seq<Byte>, seq<Byte>)>> {
    DecodeItems(Split(body, '&'))
  }

  /** The pairs, each half as its UTF-8 bytes. */
  function Utf8Pairs(pairs: seq<(string, string)>): seq<(seq<Byte>, seq<Byte>)> {
    if |pairs| == 0 then [] else [(Utf8(pairs[0].0), Utf8(pairs[0].1))] + Utf8Pairs(pairs[1..])
  }

  lemma {:induction false} DecodeItemsOfPairs(pairs: seq<(string, string)>)
    ensures DecodeItems(Items(pairs)) == Some(Utf8Pairs(pairs))
    decreases |pairs|
  {
    if |pairs| > 0 {
      var (k, v) := pairs[0];
      ItemSplits(k, v);
      DecodeEncode(k);
      DecodeEncode(v);
      assert Items(pairs)[1..] == Items(pairs[1..]);
      DecodeItemsOfPairs(pairs[1..]);
    }
  }

  /**
   * The receiving end recovers every key and value, in order: parsing a body
   * of at least one pair gives the pairs' UTF-8 bytes.
   */
  lemma ParseFormBody(pairs: seq<(string, string)>)
    requires |pairs| >= 1
    ensures ParseForm(FormBody(pairs)) == Some(Utf8Pairs(pairs))
  {
    FormBodySplits(pairs);
    DecodeItemsOfPairs(pairs);
  }
}
