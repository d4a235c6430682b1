/** The strict reader and the bounded printer as the program runs them: a position that advances, a
    buffer that grows. */
module JsonReader {
  import opened Options
  import opened Wire
  import opened Utf8
  import opened JsonText
  import opened JsonDocument

  /** The printer's buffer, which never exceeds the feature limit. */
  class JsonBuffer {
    var data: seq<Byte>

    constructor ()
      ensures data == []
    {
      data := [];
    }

    method Add(text: seq<Byte>) returns (ok: bool)
      modifies this
      ensures ok <==> |old(data)| + |text| <= MAX_FEATURE_BYTES
      ensures data == if ok then old(data) + text else old(data)
    {
      if |text| > MAX_FEATURE_BYTES - |data| {
        return false;
      }
      data := data + text;
      ok := true;
    }

    /** Print a string in quotes; it fails exactly when the whole of it would not fit. */
    method AddQuoted(text: seq<Byte>) returns (ok: bool)
      modifies this
      ensures ok <==> |old(data)| + |Quoted(text)| <= MAX_FEATURE_BYTES
      ensures ok ==> data == old(data) + Quoted(text)
    {
      ghost var whole := data + Quoted(text);
      QuotedStarts(data, text);
      ok := Add([QUOTE]);
      var i := 0;
      while ok && i < |text|
        invariant i <= |text|
        invariant ok ==> data + EscapeAll(text[i..]) + [QUOTE] == whole
        invariant !ok ==> |whole| > MAX_FEATURE_BYTES
        decreases |text| - i
      {
        EscapeStep(data, text, i, whole);
        ok := Add(Escape(text[i]));
        i := i + 1;
      }
      if ok {
        assert data + EscapeAll(text[i..]) == data;
        ok := Add([QUOTE]);
      }
    }
  }

  lemma QuotedStarts(data: seq<Byte>, text: seq<Byte>)
    ensures data + [QUOTE] + EscapeAll(text[0..]) + [QUOTE] == data + Quoted(text)
  {
    assert text[0..] == text;
  }

  lemma EscapeStep(data: seq<Byte>, text: seq<Byte>, i: nat, whole: seq<Byte>)
    requires i < |text| && data + EscapeAll(text[i..]) + [QUOTE] == whole
    ensures data + Escape(text[i]) + EscapeAll(text[i + 1..]) + [QUOTE] == whole
  {
    assert text[i..][1..] == text[i + 1..];
  }

  class Parser {
    const text: seq<Byte>
    const readable: Readable
    var pos: nat

    ghost predicate Valid()
      reads this
    {
      pos <= |text|
    }

    ghost function Left(): seq<Byte>
      requires Valid()
      reads this
    {
      text[pos..]
    }

    constructor (t: seq<Byte>, ok: Readable)
      ensures Valid() && text == t && readable == ok && Left() == t
    {
      text, readable, pos := t, ok, 0;
    }

    method SkipSpace()
      requires Valid()
      modifies this
      ensures Valid() && pos >= old(pos) && Left() == Skip(old(Left()))
    {
      while pos < |text| && Space(text[pos])
        invariant Valid() && pos >= old(pos) && Skip(Left()) == Skip(old(Left()))
        decreases |text| - pos
      {
        assert text[pos..][1..] == text[pos + 1..];
        pos := pos + 1;
      }
    }

    /** Skip to a given byte and past it. */
    method Expect(c: Byte) returns (ok: bool)
      requires Valid()
      modifies this
      ensures Valid() && pos >= old(pos)
      ensures ok <==> Starts(Skip(old(Left())), c)
      ensures Left() == if ok then Skip(old(Left()))[1..] else Skip(old(Left()))
      ensures ok ==> pos > old(pos)
    {
      SkipSpace();
      if pos >= |text| || text[pos] != c {
        return false;
      }
      pos := pos + 1;
      ok := true;
    }

    /** A string, byte by byte, with its escapes. */
    method ReadString() returns (r: Option<seq<Byte>>)
      requires Valid()
      modifies this
      ensures Valid() && (r.Some? <==> Str(old(Left())).Some?)
      ensures r.Some? ==> (r.value, Left()) == Str(old(Left())).value && pos > old(pos)
    {
      var open := Expect(QUOTE);
      if !open {
        return None;
      }
      var out := [];
      ghost var whole := Body(Left(), []);
      while pos < |text|
        invariant Valid() && pos > old(pos) && Body(Left(), out) == whole
        decreases |text| - pos
      {
        var item := ItemAt(text[pos..]);
        match item
        case End =>
          assert text[pos..][1..] == text[pos + 1..];
          pos := pos + 1;
          return Some(out);
        case Malformed =>
          return None;
        case Item(bytes, length) =>
          assert text[pos..][length..] == text[pos + length..];
          pos := pos + length;
          out := out + bytes;
      }
      r := None;
    }

    method ReadLiteral(word: seq<Byte>, j: Json) returns (r: Option<Json>)
      requires Valid() && word != []
      modifies this
      ensures Valid() && (r.Some? <==> Literal(word, j, old(Left())).Some?)
      ensures r.Some? ==> (r.value, Left()) == Literal(word, j, old(Left())).value && pos > old(pos)
    {
      if !(word <= text[pos..]) {
        return None;
      }
      assert text[pos..][|word|..] == text[pos + |word|..];
      pos := pos + |word|;
      r := Some(j);
    }

    method ReadNumberToken() returns (r: Option<Json>)
      requires Valid()
      modifies this
      ensures Valid() && (r.Some? <==> ReadNumber(readable, old(Left())).Some?)
      ensures r.Some? ==> (r.value, Left()) == ReadNumber(readable, old(Left())).value && pos > old(pos)
    {
      var start := pos;
      while pos < |text| && NumberByte(text[pos])
        invariant Valid() && pos >= start
        invariant (pos - start) + NumberLength(Left()) == NumberLength(text[start..])
        decreases |text| - pos
      {
        assert text[pos..][1..] == text[pos + 1..];
        pos := pos + 1;
      }
      assert text[start..][..pos - start] == text[start..pos];
      if pos == start || !readable(text[start..pos]) {
        return None;
      }
      assert text[start..][pos - start..] == text[pos..];
      r := Some(Number(text[start..pos]));
    }

    method ReadValue(depth: nat) returns (r: Option<Json>)
      requires Valid()
      modifies this
      ensures Valid() && (r.Some? <==> Value(readable, old(Left()), depth).Some?)
      ensures r.Some? ==> (r.value, Left()) == Value(readable, old(Left()), depth).value && pos > old(pos)
      decreases |text| - pos, 2
    {
      if depth > MAX_DEPTH {
        return None;
      }
      SkipSpace();
      if pos >= |text| {
        return None;
      }
      var c := text[pos];
      if c == OPEN_BRACE {
        pos := pos + 1;
        r := ReadMembers(depth);
      } else if c == OPEN_BRACKET {
        pos := pos + 1;
        r := ReadItems(depth);
      } else if c == QUOTE {
        assert Skip(Left()) == Left();
        var s := ReadString();
        r := if s.None? then None else Some(Text(s.value));
      } else if c == 116 {
        r := ReadLiteral(TRUE, True);
      } else if c == 102 {
        r := ReadLiteral(FALSE, False);
      } else if c == 110 {
        r := ReadLiteral(NULL, Null);
      } else {
        r := ReadNumberToken();
      }
    }

    /** One member: its key, a colon and its value. */
    method ReadMember(depth: nat, so: seq<Member>) returns (m: Option<Member>)
      requires Valid()
      modifies this
      ensures Valid() && (m.None? ==> Members(readable, old(Left()), depth, so).None?)
      ensures m.Some? ==> pos > old(pos)
      ensures m.Some? ==>
                Members(readable, old(Left()), depth, so) == MoreMembers(readable, Left(), depth, so + [m.value])
      decreases |text| - pos, 3
    {
      var key := ReadString();
      if key.None? {
        return None;
      }
      var colon := Expect(COLON);
      if !colon {
        return None;
      }
      var value := ReadValue(depth + 1);
      if value.None? || HasKey(so, key.value) {
        return None;
      }
      m := Some(Member(key.value, value.value));
    }

    /** After an element: a comma and more, or the end; none when it is neither. */
    method ReadSeparator(close: Byte) returns (more: Option<bool>)
      requires Valid() && close != COMMA
      modifies this
      ensures Valid() && pos >= old(pos)
      ensures var u := Skip(old(Left()));
              && more == (if Starts(u, COMMA) then Some(true) else if Starts(u, close) then Some(false) else None)
              && (more.Some? ==> pos > old(pos) && Left() == u[1..])
    {
      var comma := Expect(COMMA);
      if comma {
        return Some(true);
      }
      assert Skip(Left()) == Left();
      var closed := Expect(close);
      more := if closed then Some(false) else None;
    }

    /** The members of an object, one after another. */
    method ReadMembers(depth: nat) returns (r: Option<Json>)
      requires Valid()
      modifies this
      ensures var u := Skip(old(Left()));
              var spec := if Starts(u, CLOSE_BRACE) then Some((Object([]), u[1..]))
                          else Members(readable, u, depth, []);
              Valid() && (r.Some? <==> spec.Some?) && (r.Some? ==> (r.value, Left()) == spec.value && pos > old(pos))
      decreases |text| - pos, 4
    {
      var empty := Expect(CLOSE_BRACE);
      if empty {
        return Some(Object([]));
      }
      var members := [];
      ghost var spec := Members(readable, Left(), depth, []);
      ghost var entry := pos;
      while true
        invariant Valid() && pos >= entry && Members(readable, Left(), depth, members) == spec
        decreases |text| - pos
      {
        var m := ReadMember(depth, members);
        if m.None? {
          return None;
        }
        members := members + [m.value];
        var more := ReadSeparator(CLOSE_BRACE);
        if more.None? {
          return None;
        }
        if !more.value {
          return Some(Object(members));
        }
      }
    }

    method ReadItems(depth: nat) returns (r: Option<Json>)
      requires Valid()
      modifies this
      ensures var u := Skip(old(Left()));
              var spec := if Starts(u, CLOSE_BRACKET) then Some((Array([]), u[1..])) else Items(readable, u, depth, []);
              Valid() && (r.Some? <==> spec.Some?) && (r.Some? ==> (r.value, Left()) == spec.value && pos > old(pos))
      decreases |text| - pos, 4
    {
      var empty := Expect(CLOSE_BRACKET);
      if empty {
        return Some(Array([]));
      }
      var items := [];
      ghost var spec := Items(readable, Left(), depth, []);
      ghost var entry := pos;
      while true
        invariant Valid() && pos >= entry && Items(readable, Left(), depth, items) == spec
        decreases |text| - pos
      {
        var value := ReadValue(depth + 1);
        if value.None? {
          return None;
        }
        items := items + [value.value];
        var more := ReadSeparator(CLOSE_BRACKET);
        if more.None? {
          return None;
        }
        if !more.value {
          return Some(Array(items));
        }
      }
    }

    /** One complete document. */
    method ReadDocument() returns (r: Option<Json>)
      requires pos == 0
      modifies this
      ensures r == Parse(readable, text)
    {
      assert text[0..] == text;
      r := ReadValue(0);
      if r.Some? {
        SkipSpace();
        if pos != |text| {
          r := None;
        }
      }
    }
  }
}
