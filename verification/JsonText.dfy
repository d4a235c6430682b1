/** JSON strings: what the feature code prints and what the strict reader accepts, after section 7 of
    RFC 8259. */
module JsonText {
  import opened Options
  import opened Wire
  import opened Utf8

  const QUOTE: Byte := 34
  const BACKSLASH: Byte := 92
  const MAX_FEATURE_BYTES := 8192

  // ----- printing -----

  function HexDigit(n: nat): Byte
    requires n < 16
  {
    if n < 10 then 48 + n else 87 + n
  }

  /** One byte as it is printed inside quotes. */
  function Escape(c: Byte): seq<Byte> {
    if c == QUOTE then [BACKSLASH, QUOTE]
    else if c == BACKSLASH then [BACKSLASH, BACKSLASH]
    else if c < 0x20 then [BACKSLASH, 117, 48, 48, HexDigit(c / 16), HexDigit(c % 16)]
    else [c]
  }

  function EscapeAll(s: seq<Byte>): seq<Byte> {
    if s == [] then [] else Escape(s[0]) + EscapeAll(s[1..])
  }

  function Quoted(s: seq<Byte>): seq<Byte> {
    [QUOTE] + EscapeAll(s) + [QUOTE]
  }

  // ----- reading -----

  function HexValue(c: Byte): Option<nat> {
    if 48 <= c <= 57 then Some(c - 48)
    else if 97 <= c <= 102 then Some(c - 87)
    else if 65 <= c <= 70 then Some(c - 55)
    else None
  }

  /** Four hexadecimal digits. */
  function CodeUnit(d: seq<Byte>): Option<nat>
    requires |d| == 4
  {
    var a, b, c, e := HexValue(d[0]), HexValue(d[1]), HexValue(d[2]), HexValue(d[3]);
    if a.None? || b.None? || c.None? || e.None? then None
    else Some(a.value * 4096 + b.value * 256 + c.value * 16 + e.value)
  }

  /** What a backslash and a letter other than u stand for. */
  function Simple(e: Byte): Option<Byte> {
    if e == QUOTE || e == BACKSLASH || e == 47 then Some(e)
    else if e == 98 then Some(8)
    else if e == 102 then Some(12)
    else if e == 110 then Some(10)
    else if e == 114 then Some(13)
    else if e == 116 then Some(9)
    else None
  }

  /** One item of a string's body: the bytes it adds and how many it takes. */
  datatype Item = End | Malformed | Item(bytes: seq<Byte>, length: nat)

  function ItemAt(text: seq<Byte>): (i: Item)
    ensures i.Item? ==> 1 <= i.length <= |text|
    ensures i.End? ==> text != []
  {
    if text == [] then Malformed
    else if text[0] == QUOTE then End
    else if text[0] < 0x20 then Malformed
    else if text[0] != BACKSLASH then Item([text[0]], 1)
    else if |text| < 2 then Malformed
    else if text[1] == 117 then
      if |text| < 6 then Malformed
      else
        var code := CodeUnit(text[2..6]);
        if code.None? || !Scalar(code.value) then Malformed else Item(Encode(code.value), 6)
    else
      var e := Simple(text[1]);
      if e.None? then Malformed else Item([e.value], 2)
  }

  /** The rest of a string after its opening quote, added to what was read so far. */
  function Body(text: seq<Byte>, out: seq<Byte>): Option<(seq<Byte>, seq<Byte>)>
    decreases |text|
  {
    match ItemAt(text)
    case End => Some((out, text[1..]))
    case Malformed => None
    case Item(bytes, length) => Body(text[length..], out + bytes)
  }

  predicate Space(c: Byte) {
    c == 32 || c == 9 || c == 13 || c == 10
  }

  function Skip(text: seq<Byte>): (rest: seq<Byte>)
    ensures |rest| <= |text|
    ensures rest != [] ==> !Space(rest[0])
  {
    if text != [] && Space(text[0]) then Skip(text[1..]) else text
  }

  /** A string: its value and the text after it. */
  function Str(text: seq<Byte>): (r: Option<(seq<Byte>, seq<Byte>)>)
    ensures r.Some? ==> |r.value.1| < |text|
  {
    var t := Skip(text);
    if t == [] || t[0] != QUOTE then None
    else
      BodyShrinks(t[1..], []);
      Body(t[1..], [])
  }

  lemma {:induction false} BodyShrinks(text: seq<Byte>, out: seq<Byte>)
    ensures Body(text, out).Some? ==> |Body(text, out).value.1| < |text|
    decreases |text|
  {
    var i := ItemAt(text);
    if i.Item? {
      BodyShrinks(text[i.length..], out + i.bytes);
    }
  }

  // ----- printing then reading -----

  lemma HexRoundTrip(n: nat)
    requires n < 16
    ensures HexValue(HexDigit(n)) == Some(n)
  {
  }

  /** The printed form of a byte is one item, and stands for that byte. */
  lemma ItemOfEscape(c: Byte, rest: seq<Byte>)
    ensures ItemAt(Escape(c) + rest) == Item([c], |Escape(c)|)
  {
    if c < 0x20 {
      HexRoundTrip(c / 16);
      HexRoundTrip(c % 16);
      var text := Escape(c) + rest;
      assert text[2..6] == [48, 48, HexDigit(c / 16), HexDigit(c % 16)];
    }
  }

  lemma {:induction false} BodyOfEscapes(s: seq<Byte>, out: seq<Byte>, rest: seq<Byte>)
    ensures Body(EscapeAll(s) + [QUOTE] + rest, out) == Some((out + s, rest))
  {
    var text := EscapeAll(s) + [QUOTE] + rest;
    if s == [] {
      assert text == [QUOTE] + rest && text[1..] == rest && out + s == out;
    } else {
      var more := EscapeAll(s[1..]) + [QUOTE] + rest;
      assert text == Escape(s[0]) + more;
      ItemOfEscape(s[0], more);
      assert text[|Escape(s[0])|..] == more;
      BodyOfEscapes(s[1..], out + [s[0]], rest);
      assert out + [s[0]] + s[1..] == out + s;
    }
  }

  lemma {:induction false} SkipSpaces(space: seq<Byte>, text: seq<Byte>)
    requires (forall c :: c in space ==> Space(c)) && text != [] && !Space(text[0])
    ensures Skip(space + text) == text
  {
    if space == [] {
      assert space + text == text;
    } else {
      assert (space + text)[1..] == space[1..] + text;
      SkipSpaces(space[1..], text);
    }
  }

  /** Reading undoes printing: for every byte string, in any surroundings, the reader returns it and
      stops right after its closing quote. */
  lemma StringRoundTrip(space: seq<Byte>, s: seq<Byte>, rest: seq<Byte>)
    requires forall c :: c in space ==> Space(c)
    ensures Str(space + Quoted(s) + rest) == Some((s, rest))
  {
    var text := Quoted(s) + rest;
    assert space + Quoted(s) + rest == space + text;
    SkipSpaces(space, text);
    assert text[1..] == EscapeAll(s) + [QUOTE] + rest;
    BodyOfEscapes(s, [], rest);
    assert [] + s == s;
  }

  // ----- reading keeps UTF-8 -----

  lemma {:induction false} EncodeJoin(a: seq<nat>, b: seq<nat>)
    requires Scalars(a) && Scalars(b)
    ensures Scalars(a + b) && EncodeAll(a + b) == EncodeAll(a) + EncodeAll(b)
  {
    if a == [] {
      assert a + b == b;
    } else {
      assert (a + b)[1..] == a[1..] + b;
      EncodeJoin(a[1..], b);
    }
  }

  lemma {:induction false} AcceptsJoin(a: seq<Byte>, b: seq<Byte>)
    requires Accepts(a) && Accepts(b)
    ensures Accepts(a + b)
  {
    DecodeEncodes(a);
    DecodeEncodes(b);
    EncodeJoin(Decode(a), Decode(b));
    AcceptsEncodings(Decode(a) + Decode(b));
  }

  lemma AcceptsOne(code: nat)
    requires Scalar(code)
    ensures Accepts(Encode(code))
  {
    AcceptsEncodings([code]);
    assert EncodeAll([code]) == Encode(code);
  }

  /** The bytes of a longer character are taken one by one, unchanged. */
  lemma {:induction false} RawBytes(text: seq<Byte>, n: nat, out: seq<Byte>)
    requires n <= |text| && forall i :: 0 <= i < n ==> text[i] >= 0x80
    ensures Body(text, out) == Body(text[n..], out + text[..n])
  {
    if n == 0 {
      assert text[0..] == text && out + text[..0] == out;
    } else {
      RawBytes(text[1..], n - 1, out + [text[0]]);
      assert text[1..][n - 1..] == text[n..];
      assert out + [text[0]] + text[1..][..n - 1] == out + text[..n];
    }
  }

  lemma HighBytes(text: seq<Byte>)
    requires text != [] && text[0] >= 0x80 && First(text).Some?
    ensures forall i :: 0 <= i < First(text).value.1 ==> text[i] >= 0x80
  {
    var l := LeadOf(text[0]);
    var tail := text[1..l.count + 1];
    forall i | 0 < i < l.count + 1
      ensures text[i] >= 0x80
    {
      assert text[i] == tail[i - 1];
    }
  }

  lemma {:induction false} AsciiPrefix(text: seq<Byte>, n: nat)
    requires Accepts(text) && n <= |text| && forall i :: 0 <= i < n ==> text[i] < 0x80
    ensures Accepts(text[n..])
  {
    if n > 0 {
      AsciiPrefix(text[1..], n - 1);
      assert text[1..][n - 1..] == text[n..];
    } else {
      assert text[0..] == text;
    }
  }

  lemma HexIsAscii(d: seq<Byte>)
    requires |d| == 4 && CodeUnit(d).Some?
    ensures forall i :: 0 <= i < 4 ==> d[i] < 0x80
  {
  }

  /** An item that starts with an ASCII byte is ASCII, and what it adds is well formed. */
  lemma AsciiItem(text: seq<Byte>)
    requires text != [] && text[0] < 0x80 && ItemAt(text).Item?
    ensures var i := ItemAt(text);
            (forall k :: 0 <= k < i.length ==> text[k] < 0x80) && Accepts(i.bytes)
  {
    var i := ItemAt(text);
    if text[0] != BACKSLASH {
      AcceptsOne(text[0]);
    } else if text[1] == 117 {
      HexIsAscii(text[2..6]);
      forall k | 2 <= k < 6
        ensures text[k] < 0x80
      {
        assert text[k] == text[2..6][k - 2];
      }
      AcceptsOne(CodeUnit(text[2..6]).value);
    } else {
      AcceptsOne(Simple(text[1]).value);
    }
  }

  lemma {:induction false} BodyKeepsUtf8(text: seq<Byte>, out: seq<Byte>)
    requires Accepts(text) && Accepts(out)
    ensures Body(text, out).Some? ==> Accepts(Body(text, out).value.0) && Accepts(Body(text, out).value.1)
    decreases |text|
  {
    if text != [] {
      if text[0] >= 0x80 {
        var n := First(text).value.1;
        HighBytes(text);
        RawBytes(text, n, out);
        FirstIsEncoding(text);
        AcceptsOne(First(text).value.0);
        AcceptsJoin(out, text[..n]);
        BodyKeepsUtf8(text[n..], out + text[..n]);
      } else {
        var i := ItemAt(text);
        if i.Item? {
          AsciiItem(text);
          AsciiPrefix(text, i.length);
          AcceptsJoin(out, i.bytes);
          BodyKeepsUtf8(text[i.length..], out + i.bytes);
        } else if i.End? {
          AsciiPrefix(text, 1);
        }
      }
    }
  }

  lemma {:induction false} SkipKeepsUtf8(text: seq<Byte>)
    requires Accepts(text)
    ensures Accepts(Skip(text))
  {
    if text != [] && Space(text[0]) {
      AsciiPrefix(text, 1);
      SkipKeepsUtf8(text[1..]);
    }
  }

  /** A string read from well-formed UTF-8 is well-formed UTF-8, whatever escapes it uses, and so is
      the text after it. */
  lemma {:induction false} StringKeepsUtf8(text: seq<Byte>)
    requires Accepts(text)
    ensures Str(text).Some? ==> Accepts(Str(text).value.0) && Accepts(Str(text).value.1)
  {
    SkipKeepsUtf8(text);
    var t := Skip(text);
    if t != [] && t[0] == QUOTE {
      AsciiPrefix(t, 1);
      BodyKeepsUtf8(t[1..], []);
    }
  }
}
