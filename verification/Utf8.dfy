/** UTF-8 as the feature code checks it, and as section 3 of RFC 3629 defines it. */
module Utf8 {
  import opened Options
  import opened Wire

  // ----- the encoding -----

  /** A Unicode scalar value: a code point that is not a surrogate. */
  predicate Scalar(code: nat) {
    code <= 0x10FFFF && !(0xD800 <= code <= 0xDFFF)
  }

  /** A byte carrying the low six bits of a code. */
  function Follow(code: nat): Byte {
    0x80 + code % 64
  }

  function Encode(code: nat): seq<Byte>
    requires Scalar(code)
  {
    if code < 0x80 then [code]
    else if code < 0x800 then [0xC0 + code / 64, Follow(code)]
    else if code < 0x10000 then [0xE0 + code / 64 / 64, Follow(code / 64), Follow(code)]
    else [0xF0 + code / 64 / 64 / 64, Follow(code / 64 / 64), Follow(code / 64), Follow(code)]
  }

  predicate Scalars(codes: seq<nat>) {
    forall i :: 0 <= i < |codes| ==> Scalar(codes[i])
  }

  function EncodeAll(codes: seq<nat>): seq<Byte>
    requires Scalars(codes)
  {
    if codes == [] then [] else Encode(codes[0]) + EncodeAll(codes[1..])
  }

  // ----- the checker -----

  /** What a first byte of 0x80 or more announces: how many bytes follow, its own bits, and the
      least code point that needs that many. */
  datatype Lead = Bad | Lead(count: nat, bits: nat, minimum: nat)

  function LeadOf(first: Byte): (l: Lead)
    ensures l.Lead? ==> 1 <= l.count <= 3
  {
    if 0xC2 <= first <= 0xDF then Lead(1, first % 32, 0x80)
    else if 0xE0 <= first <= 0xEF then Lead(2, first % 16, 0x800)
    else if 0xF0 <= first <= 0xF4 then Lead(3, first % 8, 0x10000)
    else Bad
  }

  predicate Continuation(b: Byte) {
    0x80 <= b < 0xC0
  }

  /** Add the low six bits of each following byte. */
  function Gather(code: nat, tail: seq<Byte>): nat {
    if tail == [] then code else More(Gather(code, tail[..|tail| - 1]), tail[|tail| - 1])
  }

  /** The first character of the text, when it is a well-formed one: its code point and length. */
  function First(text: seq<Byte>): (r: Option<(nat, nat)>)
    requires text != []
    ensures r.Some? ==> 1 <= r.value.1 <= |text|
  {
    if text[0] < 0x80 then Some((text[0], 1))
    else
      var l := LeadOf(text[0]);
      if l.Bad? || l.count > |text| - 1 then None
      else
        var tail := text[1..l.count + 1];
        if !(forall i :: 0 <= i < |tail| ==> Continuation(tail[i])) then None
        else
          var code := Gather(l.bits, tail);
          if code < l.minimum || !Scalar(code) then None else Some((code, l.count + 1))
  }

  predicate Accepts(text: seq<Byte>) {
    text == [] || (First(text).Some? && Accepts(text[First(text).value.1..]))
  }

  // ----- one character -----

  /** The six bits a following byte carries. */
  function Low(b: Byte): (n: nat)
    ensures n < 64
  {
    b % 64
  }

  /** A code with six more bits. */
  function More(code: nat, b: Byte): nat {
    code * 64 + Low(b)
  }

  function Two(a: Byte, b: Byte): nat {
    More(a % 32, b)
  }

  function Three(a: Byte, b: Byte, d: Byte): nat {
    More(More(a % 16, b), d)
  }

  function Four(a: Byte, b: Byte, d: Byte, e: Byte): nat {
    More(More(More(a % 8, b), d), e)
  }

  lemma {:induction false} GatherOne(code: nat, t: seq<Byte>)
    requires |t| == 1
    ensures Gather(code, t) == More(code, t[0])
  {
    assert t[..0] == [];
  }

  lemma {:induction false} GatherTwo(code: nat, t: seq<Byte>)
    requires |t| == 2
    ensures Gather(code, t) == More(More(code, t[0]), t[1])
  {
    GatherOne(code, t[..1]);
  }

  lemma {:induction false} GatherThree(code: nat, t: seq<Byte>)
    requires |t| == 3
    ensures Gather(code, t) == More(More(More(code, t[0]), t[1]), t[2])
  {
    GatherTwo(code, t[..2]);
  }

  /** Taking six bits off and putting them back. */
  lemma OffAndOn(code: nat)
    ensures More(code / 64, Follow(code)) == code
  {
  }

  lemma OnAndOff(code: nat, b: Byte)
    requires Continuation(b)
    ensures More(code, b) / 64 == code && Follow(More(code, b)) == b
  {
  }

  lemma FirstOfTwo(text: seq<Byte>)
    requires |text| >= 2 && 0xC2 <= text[0] <= 0xDF
    ensures First(text) == if Continuation(text[1]) && Scalar(Two(text[0], text[1]))
                           then Some((Two(text[0], text[1]), 2))
                           else None
  {
    GatherOne(text[0] % 32, text[1..2]);
    assert text[1..2] == [text[1]];
  }

  lemma FirstOfThree(text: seq<Byte>)
    requires |text| >= 3 && 0xE0 <= text[0] <= 0xEF
    ensures var code := Three(text[0], text[1], text[2]);
            First(text) == if Continuation(text[1]) && Continuation(text[2]) && 0x800 <= code && Scalar(code)
                           then Some((code, 3)) else None
  {
    GatherTwo(text[0] % 16, text[1..3]);
    assert text[1..3] == [text[1], text[2]];
  }

  lemma FirstOfFour(text: seq<Byte>)
    requires |text| >= 4 && 0xF0 <= text[0] <= 0xF4
    ensures var code := Four(text[0], text[1], text[2], text[3]);
            First(text) == if Continuation(text[1]) && Continuation(text[2]) && Continuation(text[3])
                              && 0x10000 <= code && Scalar(code)
                           then Some((code, 4)) else None
  {
    GatherThree(text[0] % 8, text[1..4]);
    assert text[1..4] == [text[1], text[2], text[3]];
  }

  lemma ReadsTwo(code: nat, text: seq<Byte>)
    requires 0x80 <= code < 0x800 && Encode(code) <= text
    ensures First(text) == Some((code, 2))
  {
    var e, top := Encode(code), code / 64;
    assert 2 <= top < 32 && (0xC0 + top) % 32 == top;
    assert text[0] == e[0] && text[1] == e[1];
    OffAndOn(code);
    assert Two(text[0], text[1]) == code;
    FirstOfTwo(text);
  }

  lemma ReadsThree(code: nat, text: seq<Byte>)
    requires 0x800 <= code < 0x10000 && Scalar(code) && Encode(code) <= text
    ensures First(text) == Some((code, 3))
  {
    var e, top := Encode(code), code / 64 / 64;
    assert top < 16 && (0xE0 + top) % 16 == top;
    assert text[0] == e[0] && text[1] == e[1] && text[2] == e[2];
    OffAndOn(code);
    OffAndOn(code / 64);
    assert Three(text[0], text[1], text[2]) == code;
    FirstOfThree(text);
  }

  lemma ReadsFour(code: nat, text: seq<Byte>)
    requires 0x10000 <= code && Scalar(code) && Encode(code) <= text
    ensures First(text) == Some((code, 4))
  {
    var e, top := Encode(code), code / 64 / 64 / 64;
    assert top < 5 && (0xF0 + top) % 8 == top;
    assert text[0] == e[0] && text[1] == e[1] && text[2] == e[2] && text[3] == e[3];
    OffAndOn(code);
    OffAndOn(code / 64);
    OffAndOn(code / 64 / 64);
    assert Four(text[0], text[1], text[2], text[3]) == code;
    FirstOfFour(text);
  }

  /** An encoded scalar value is read back, wherever it stands. */
  lemma FirstReadsEncoding(code: nat, rest: seq<Byte>)
    requires Scalar(code)
    ensures First(Encode(code) + rest) == Some((code, |Encode(code)|))
  {
    var text := Encode(code) + rest;
    assert Encode(code) <= text;
    if code < 0x80 {
      assert text[0] == code;
    } else if code < 0x800 {
      ReadsTwo(code, text);
    } else if code < 0x10000 {
      ReadsThree(code, text);
    } else {
      ReadsFour(code, text);
    }
  }

  lemma JoinTwo(a: Byte, b: Byte)
    requires 0xC2 <= a <= 0xDF && Continuation(b)
    ensures Scalar(Two(a, b)) && Encode(Two(a, b)) == [a, b]
  {
    OnAndOff(a % 32, b);
  }

  lemma JoinThree(a: Byte, b: Byte, d: Byte)
    requires 0xE0 <= a <= 0xEF && Continuation(b) && Continuation(d)
    requires 0x800 <= Three(a, b, d) && Scalar(Three(a, b, d))
    ensures Encode(Three(a, b, d)) == [a, b, d]
  {
    OnAndOff(a % 16, b);
    OnAndOff(More(a % 16, b), d);
  }

  lemma JoinFour(a: Byte, b: Byte, d: Byte, e: Byte)
    requires 0xF0 <= a <= 0xF4 && Continuation(b) && Continuation(d) && Continuation(e)
    requires 0x10000 <= Four(a, b, d, e) && Scalar(Four(a, b, d, e))
    ensures Encode(Four(a, b, d, e)) == [a, b, d, e]
  {
    OnAndOff(a % 8, b);
    OnAndOff(More(a % 8, b), d);
    OnAndOff(More(More(a % 8, b), d), e);
  }

  /** A character that is read is its code point's encoding. */
  lemma FirstIsEncoding(text: seq<Byte>)
    requires text != [] && First(text).Some?
    ensures var (code, n) := First(text).value;
            Scalar(code) && text[..n] == Encode(code)
  {
    if text[0] >= 0xF0 {
      FirstOfFour(text);
      JoinFour(text[0], text[1], text[2], text[3]);
    } else if text[0] >= 0xE0 {
      FirstOfThree(text);
      JoinThree(text[0], text[1], text[2]);
    } else if text[0] >= 0x80 {
      FirstOfTwo(text);
      JoinTwo(text[0], text[1]);
    }
  }

  // ----- whole texts -----

  lemma {:induction false} AcceptsEncodings(codes: seq<nat>)
    requires Scalars(codes)
    ensures Accepts(EncodeAll(codes))
  {
    if codes != [] {
      var rest := EncodeAll(codes[1..]);
      FirstReadsEncoding(codes[0], rest);
      AcceptsEncodings(codes[1..]);
      assert EncodeAll(codes)[|Encode(codes[0])|..] == rest;
    }
  }

  function Decode(text: seq<Byte>): (codes: seq<nat>)
    requires Accepts(text)
  {
    if text == [] then [] else [First(text).value.0] + Decode(text[First(text).value.1..])
  }

  lemma {:induction false} EncodeCons(code: nat, codes: seq<nat>)
    requires Scalar(code) && Scalars(codes)
    ensures Scalars([code] + codes) && EncodeAll([code] + codes) == Encode(code) + EncodeAll(codes)
  {
    assert ([code] + codes)[1..] == codes;
  }

  lemma {:induction false} DecodeEncodes(text: seq<Byte>)
    requires Accepts(text)
    ensures Scalars(Decode(text)) && EncodeAll(Decode(text)) == text
  {
    if text != [] {
      var n := First(text).value.1;
      assert text == text[..n] + text[n..];
      DecodeEncodes(text[n..]);
      FirstIsEncoding(text);
      EncodeCons(First(text).value.0, Decode(text[n..]));
    }
  }

  /** The checker accepts exactly the concatenations of encodings of Unicode scalar values. */
  lemma {:induction false} AcceptsExactlyUtf8(text: seq<Byte>)
    ensures Accepts(text) <==> exists codes :: Scalars(codes) && EncodeAll(codes) == text
  {
    if Accepts(text) {
      DecodeEncodes(text);
    }
    if codes :| Scalars(codes) && EncodeAll(codes) == text {
      AcceptsEncodings(codes);
    }
  }

  // ----- the loop -----

  /** The checker as the program runs it: one pass over the bytes. */
  method ValidUtf8(text: seq<Byte>) returns (ok: bool)
    ensures ok <==> exists codes :: Scalars(codes) && EncodeAll(codes) == text
  {
    AcceptsExactlyUtf8(text);
    ok := Check(text);
  }

  method Check(text: seq<Byte>) returns (ok: bool)
    ensures ok <==> Accepts(text)
  {
    var i := 0;
    assert text[0..] == text;
    while i < |text|
      invariant i <= |text| && (Accepts(text[i..]) <==> Accepts(text))
    {
      var n := Character(text, i);
      if n == 0 {
        return false;
      }
      assert text[i..][n..] == text[i + n..];
      i := i + n;
    }
    ok := true;
  }

  /** The length of the character at a position, or 0 when it is malformed. */
  method Character(text: seq<Byte>, i: nat) returns (n: nat)
    requires i < |text|
    ensures n == if First(text[i..]).Some? then First(text[i..]).value.1 else 0
  {
    ghost var left := text[i..];
    if text[i] < 0x80 {
      return 1;
    }
    var l := LeadOf(text[i]);
    if l.Bad? || l.count > |text| - i - 1 {
      return 0;
    }
    var good, code := Continue(text, i + 1, l);
    assert left[1..l.count + 1] == text[i + 1..i + 1 + l.count];
    if !good || code < l.minimum || code > 0x10FFFF || (0xD800 <= code <= 0xDFFF) {
      return 0;
    }
    n := l.count + 1;
  }

  /** Collect the bytes that follow a lead byte. */
  method Continue(text: seq<Byte>, start: nat, l: Lead) returns (good: bool, code: nat)
    requires l.Lead? && start + l.count <= |text|
    ensures good <==> forall k :: start <= k < start + l.count ==> Continuation(text[k])
    ensures good ==> code == Gather(l.bits, text[start..start + l.count])
  {
    code := l.bits;
    for k := 0 to l.count
      invariant forall j :: start <= j < start + k ==> Continuation(text[j])
      invariant code == Gather(l.bits, text[start..start + k])
    {
      var next := text[start + k];
      if !Continuation(next) {
        return false, code;
      }
      code := More(code, next);
      assert text[start..start + k + 1][..k] == text[start..start + k];
    }
    good := true;
  }
}
