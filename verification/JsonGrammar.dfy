/** The grammar the strict reader accepts, after RFC 8259: a text is accepted, with a value, exactly when
    it is the rendering of a syntax tree, with its spacing and escapes, that means that value. */
module JsonGrammar {
  import opened Options
  import opened Wire
  import opened Utf8
  import opened JsonText
  import opened JsonDocument

  // ----- grouping -----

  lemma Group3<T>(a: seq<T>, b: seq<T>, c: seq<T>)
    ensures a + b + c == a + (b + c)
  {
  }

  lemma Group4<T>(a: seq<T>, b: seq<T>, c: seq<T>, d: seq<T>)
    ensures a + b + c + d == a + (b + (c + d)) && a + (b + c) + d == a + (b + (c + d))
  {
  }

  lemma Dropped<T>(a: seq<T>, b: seq<T>)
    ensures (a + b)[|a|..] == b
  {
  }

  // ----- strings -----

  /** One item of a string: a byte as it is, a short escape or a code point. */
  datatype Piece = Plain(c: Byte) | Short(letter: Byte) | Unicode(digits: seq<Byte>)
  {
    predicate Legal() {
      match this
      case Plain(c) => 0x20 <= c && c != QUOTE && c != BACKSLASH
      case Short(letter) => Simple(letter).Some?
      case Unicode(digits) => |digits| == 4 && CodeUnit(digits).Some? && Scalar(CodeUnit(digits).value)
    }

    function Render(): seq<Byte> {
      match this
      case Plain(c) => [c]
      case Short(letter) => [BACKSLASH, letter]
      case Unicode(digits) => [BACKSLASH, 117] + digits
    }

    function Meaning(): seq<Byte>
      requires Legal()
    {
      match this
      case Plain(c) => [c]
      case Short(letter) => [Simple(letter).value]
      case Unicode(digits) => Encode(CodeUnit(digits).value)
    }
  }

  predicate LegalPieces(ps: seq<Piece>) {
    forall i :: 0 <= i < |ps| ==> ps[i].Legal()
  }

  function RenderPieces(ps: seq<Piece>): seq<Byte> {
    if ps == [] then [] else ps[0].Render() + RenderPieces(ps[1..])
  }

  function PiecesMean(ps: seq<Piece>): seq<Byte>
    requires LegalPieces(ps)
  {
    if ps == [] then [] else ps[0].Meaning() + PiecesMean(ps[1..])
  }

  function RenderText(ps: seq<Piece>): seq<Byte> {
    [QUOTE] + RenderPieces(ps) + [QUOTE]
  }

  lemma PieceItem(p: Piece, rest: seq<Byte>)
    requires p.Legal()
    ensures ItemAt(p.Render() + rest) == Item(p.Meaning(), |p.Render()|)
  {
    var text := p.Render() + rest;
    if p.Unicode? {
      assert text[2..6] == p.digits;
    }
  }

  lemma {:induction false} PieceJoins(p: Piece, more: seq<Piece>, out: seq<Byte>, rest: seq<Byte>)
    requires p.Legal() && LegalPieces(more)
    ensures LegalPieces([p] + more) && out + p.Meaning() + PiecesMean(more) == out + PiecesMean([p] + more)
    ensures p.Render() + (RenderPieces(more) + ([QUOTE] + rest)) == RenderPieces([p] + more) + ([QUOTE] + rest)
  {
    assert ([p] + more)[1..] == more;
    Group3(out, p.Meaning(), PiecesMean(more));
    Group3(p.Render(), RenderPieces(more), [QUOTE] + rest);
  }

  lemma {:induction false} BodyReads(ps: seq<Piece>, out: seq<Byte>, rest: seq<Byte>)
    requires LegalPieces(ps)
    ensures Body(RenderPieces(ps) + ([QUOTE] + rest), out) == Some((out + PiecesMean(ps), rest))
  {
    if ps == [] {
      assert [] + ([QUOTE] + rest) == [QUOTE] + rest && ([QUOTE] + rest)[1..] == rest && out + [] == out;
    } else {
      var p, more := ps[0], ps[1..];
      var text := RenderPieces(more) + ([QUOTE] + rest);
      assert ps == [p] + more;
      PieceJoins(p, more, out, rest);
      PieceItem(p, text);
      Dropped(p.Render(), text);
      BodyReads(more, out + p.Meaning(), rest);
    }
  }

  ghost predicate Spaces(s: seq<Byte>) {
    forall c :: c in s ==> Space(c)
  }

  lemma {:induction false} BareStrReads(ps: seq<Piece>, rest: seq<Byte>)
    requires LegalPieces(ps)
    ensures RenderText(ps) + rest == [QUOTE] + (RenderPieces(ps) + ([QUOTE] + rest))
    ensures Str(RenderText(ps) + rest) == Some((PiecesMean(ps), rest))
  {
    var body := RenderPieces(ps) + ([QUOTE] + rest);
    Group4([QUOTE], RenderPieces(ps), [QUOTE], rest);
    assert ([QUOTE] + body)[1..] == body && Skip([QUOTE] + body) == [QUOTE] + body;
    BodyReads(ps, [], rest);
    assert [] + PiecesMean(ps) == PiecesMean(ps);
  }

  lemma {:induction false} StrReads(space: seq<Byte>, ps: seq<Piece>, rest: seq<Byte>)
    requires Spaces(space) && LegalPieces(ps)
    ensures Str(space + RenderText(ps) + rest) == Some((PiecesMean(ps), rest))
  {
    BareStrReads(ps, rest);
    Group3(space, RenderText(ps), rest);
    SkipSpaces(space, RenderText(ps) + rest);
  }

  /** The piece an item was read from. */
  lemma ItemPiece(text: seq<Byte>) returns (p: Piece)
    requires ItemAt(text).Item?
    ensures p.Legal() && p.Meaning() == ItemAt(text).bytes && |p.Render()| == ItemAt(text).length
    ensures text == p.Render() + text[ItemAt(text).length..]
  {
    if text[0] != BACKSLASH {
      p := Plain(text[0]);
    } else if text[1] == 117 {
      p := Unicode(text[2..6]);
    } else {
      p := Short(text[1]);
    }
  }

  lemma {:induction false} BodyPieces(text: seq<Byte>, out: seq<Byte>) returns (ps: seq<Piece>)
    requires Body(text, out).Some?
    ensures LegalPieces(ps)
    ensures Body(text, out).value.0 == out + PiecesMean(ps)
    ensures text == RenderPieces(ps) + ([QUOTE] + Body(text, out).value.1)
    decreases |text|
  {
    var i := ItemAt(text);
    if i.End? {
      ps := [];
      assert text == [QUOTE] + text[1..];
    } else {
      var p := ItemPiece(text);
      var more := BodyPieces(text[i.length..], out + i.bytes);
      ps := [p] + more;
      PieceJoins(p, more, out, Body(text, out).value.1);
    }
  }

  lemma {:induction false} SkipSplits(text: seq<Byte>) returns (space: seq<Byte>)
    ensures Spaces(space) && text == space + Skip(text)
  {
    if text != [] && Space(text[0]) {
      var more := SkipSplits(text[1..]);
      space := [text[0]] + more;
    } else {
      space := [];
    }
  }

  lemma BareStrPieces(text: seq<Byte>) returns (ps: seq<Piece>)
    requires Starts(text, QUOTE) && Str(text).Some?
    ensures LegalPieces(ps) && Str(text).value.0 == PiecesMean(ps) && text == RenderText(ps) + Str(text).value.1
  {
    ps := BodyPieces(text[1..], []);
    assert [] + PiecesMean(ps) == PiecesMean(ps);
    assert text == [QUOTE] + text[1..];
    BareStrReads(ps, Str(text).value.1);
  }

  lemma StrPieces(text: seq<Byte>) returns (space: seq<Byte>, ps: seq<Piece>)
    requires Str(text).Some?
    ensures Spaces(space) && LegalPieces(ps) && Str(text).value.0 == PiecesMean(ps)
    ensures text == space + RenderText(ps) + Str(text).value.1
  {
    space := SkipSplits(text);
    SkipTwice(text);
    ps := BareStrPieces(Skip(text));
    Group3(space, RenderText(ps), Str(text).value.1);
  }

  // ----- values -----

  /** A value with the white space before it. Items and entries carry the space after them. */
  datatype Syntax = Word(space: seq<Byte>, word: Json) | Digits(space: seq<Byte>, token: seq<Byte>)
                  | Chars(space: seq<Byte>, pieces: seq<Piece>)
                  | NoItems(space: seq<Byte>, inner: seq<Byte>) | List(space: seq<Byte>, items: seq<Spaced>)
                  | NoEntries(space: seq<Byte>, inner: seq<Byte>) | Dict(space: seq<Byte>, entries: seq<Entry>)

  datatype Spaced = Spaced(value: Syntax, after: seq<Byte>)

  datatype Entry = Entry(space: seq<Byte>, key: seq<Piece>, colon: seq<Byte>, value: Syntax, after: seq<Byte>)

  function WordText(j: Json): seq<Byte> {
    match j
    case True => TRUE
    case False => FALSE
    case _ => NULL
  }

  /** A tree without the white space before it. */
  function Core(t: Syntax): seq<Byte>
    decreases t, 0
  {
    match t
    case Word(_, word) => WordText(word)
    case Digits(_, token) => token
    case Chars(_, pieces) => RenderText(pieces)
    case NoItems(_, inner) => [OPEN_BRACKET] + inner + [CLOSE_BRACKET]
    case List(_, items) => [OPEN_BRACKET] + RenderItems(items)
    case NoEntries(_, inner) => [OPEN_BRACE] + inner + [CLOSE_BRACE]
    case Dict(_, entries) => [OPEN_BRACE] + RenderEntries(entries)
  }

  function Render(t: Syntax): seq<Byte>
    decreases t, 1
  {
    t.space + Core(t)
  }

  /** Items up to and with the closing bracket. */
  function RenderItems(items: seq<Spaced>): seq<Byte>
    decreases items
  {
    if items == [] then []
    else Render(items[0].value) + (items[0].after
         + (if |items| == 1 then [CLOSE_BRACKET] else [COMMA] + RenderItems(items[1..])))
  }

  function RenderEntries(entries: seq<Entry>): seq<Byte>
    decreases entries
  {
    if entries == [] then []
    else
      var e := entries[0];
      e.space + RenderText(e.key) + (e.colon + ([COLON] + (Render(e.value) + (e.after
      + (if |entries| == 1 then [CLOSE_BRACE] else [COMMA] + RenderEntries(entries[1..]))))))
  }

  /** Spaces are spaces, pieces are legal, numbers convert, brackets nest within the limit. */
  ghost predicate Legal(ok: Readable, t: Syntax, depth: nat)
    decreases t
  {
    && depth <= MAX_DEPTH && Spaces(t.space)
    && match t
       case Word(_, word) => word.Null? || word.True? || word.False?
       case Digits(_, token) => token != [] && NumberLength(token) == |token| && ok(token)
       case Chars(_, pieces) => LegalPieces(pieces)
       case NoItems(_, inner) => Spaces(inner)
       case List(_, items) => items != [] && LegalItems(ok, items, depth + 1)
       case NoEntries(_, inner) => Spaces(inner)
       case Dict(_, entries) => entries != [] && LegalEntries(ok, entries, depth + 1) && Distinct(EntriesMean(entries))
  }

  ghost predicate LegalItems(ok: Readable, items: seq<Spaced>, depth: nat)
    decreases items
  {
    forall i :: 0 <= i < |items| ==> Spaces(items[i].after) && Legal(ok, items[i].value, depth)
  }

  ghost predicate LegalEntries(ok: Readable, entries: seq<Entry>, depth: nat)
    decreases entries
  {
    forall i :: 0 <= i < |entries| ==> LegalEntry(ok, entries[i], depth)
  }

  ghost predicate LegalEntry(ok: Readable, e: Entry, depth: nat)
    decreases e
  {
    Spaces(e.space) && LegalPieces(e.key) && Spaces(e.colon) && Spaces(e.after) && Legal(ok, e.value, depth)
  }

  function KeyMeans(ps: seq<Piece>): seq<Byte> {
    if LegalPieces(ps) then PiecesMean(ps) else []
  }

  function Meaning(t: Syntax): Json
    decreases t
  {
    match t
    case Word(_, word) => word
    case Digits(_, token) => Number(token)
    case Chars(_, pieces) => Text(KeyMeans(pieces))
    case NoItems(_, _) => Array([])
    case List(_, items) => Array(ItemsMean(items))
    case NoEntries(_, _) => Object([])
    case Dict(_, entries) => Object(EntriesMean(entries))
  }

  function ItemsMean(items: seq<Spaced>): (js: seq<Json>)
    decreases items
  {
    if items == [] then [] else [Meaning(items[0].value)] + ItemsMean(items[1..])
  }

  function EntriesMean(entries: seq<Entry>): (ms: seq<Member>)
    decreases entries
  {
    if entries == [] then []
    else [Member(KeyMeans(entries[0].key), Meaning(entries[0].value))] + EntriesMean(entries[1..])
  }

  // ----- rendering then reading -----

  /** A number is read to its last number byte, so something else must follow it. */
  ghost predicate Ends(t: Syntax, rest: seq<Byte>) {
    t.Digits? && rest != [] ==> !NumberByte(rest[0])
  }

  lemma {:induction false} CoreStarts(ok: Readable, t: Syntax, depth: nat)
    requires Legal(ok, t, depth)
    ensures Core(t) != [] && !Space(Core(t)[0]) && Core(t)[0] != CLOSE_BRACKET && Core(t)[0] != CLOSE_BRACE
  {
  }

  lemma {:induction false} RenderSkips(ok: Readable, t: Syntax, depth: nat, rest: seq<Byte>)
    requires Legal(ok, t, depth)
    ensures Skip(Render(t) + rest) == Core(t) + rest
  {
    CoreStarts(ok, t, depth);
    assert Render(t) + rest == t.space + (Core(t) + rest);
    SkipSpaces(t.space, Core(t) + rest);
  }

  lemma {:induction false} SkipTwice(text: seq<Byte>)
    ensures Skip(Skip(text)) == Skip(text)
  {
  }

  lemma {:induction false} ItemsSkip(ok: Readable, text: seq<Byte>, depth: nat, so: seq<Json>)
    ensures Items(ok, Skip(text), depth, so) == Items(ok, text, depth, so)
  {
    SkipTwice(text);
  }

  lemma {:induction false} MembersSkip(ok: Readable, text: seq<Byte>, depth: nat, so: seq<Member>)
    ensures Members(ok, Skip(text), depth, so) == Members(ok, text, depth, so)
  {
    SkipTwice(text);
  }

  lemma {:induction false} WordReads(ok: Readable, t: Syntax, depth: nat, rest: seq<Byte>)
    requires Legal(ok, t, depth) && t.Word?
    ensures Value(ok, Render(t) + rest, depth) == Some((Meaning(t), rest))
  {
    RenderSkips(ok, t, depth, rest);
    assert (Core(t) + rest)[0] == Core(t)[0];
    ReadsLiteral(WordText(t.word), t.word, rest);
  }

  lemma {:induction false} DigitsRead(ok: Readable, t: Syntax, depth: nat, rest: seq<Byte>)
    requires Legal(ok, t, depth) && Ends(t, rest) && t.Digits?
    ensures Value(ok, Render(t) + rest, depth) == Some((Meaning(t), rest))
  {
    RenderSkips(ok, t, depth, rest);
    assert (Core(t) + rest)[0] == t.token[0] && NumberByte(t.token[0]);
    ReadsNumber(ok, t.token, rest);
  }

  lemma {:induction false} CharsRead(ok: Readable, t: Syntax, depth: nat, rest: seq<Byte>)
    requires Legal(ok, t, depth) && t.Chars?
    ensures Value(ok, Render(t) + rest, depth) == Some((Meaning(t), rest))
  {
    RenderSkips(ok, t, depth, rest);
    BareStrReads(t.pieces, rest);
  }

  /** Brackets with nothing but space in between. */
  lemma {:induction false} EmptyParsed(ok: Readable, text: seq<Byte>, depth: nat, body: seq<Byte>, square: bool)
    requires depth <= MAX_DEPTH && Skip(text) == [if square then OPEN_BRACKET else OPEN_BRACE] + body
    requires Starts(Skip(body), if square then CLOSE_BRACKET else CLOSE_BRACE)
    ensures Value(ok, text, depth) == Some((if square then Array([]) else Object([]), Skip(body)[1..]))
  {
    assert Skip(text)[1..] == body;
  }

  lemma {:induction false} EmptyLayout(t: Syntax, rest: seq<Byte>)
    requires t.NoItems? || t.NoEntries?
    ensures var open := if t.NoItems? then OPEN_BRACKET else OPEN_BRACE;
            var close := if t.NoItems? then CLOSE_BRACKET else CLOSE_BRACE;
            && Core(t) + rest == [open] + (t.inner + ([close] + rest))
            && Render(t) + rest == t.space + ([open] + (t.inner + ([close] + rest)))
  {
    var open := if t.NoItems? then OPEN_BRACKET else OPEN_BRACE;
    var close := if t.NoItems? then CLOSE_BRACKET else CLOSE_BRACE;
    Group4([open], t.inner, [close], rest);
    Group3(t.space, Core(t), rest);
  }

  lemma {:induction false} EmptyReads(ok: Readable, t: Syntax, depth: nat, rest: seq<Byte>)
    requires Legal(ok, t, depth) && (t.NoItems? || t.NoEntries?)
    ensures Value(ok, Render(t) + rest, depth) == Some((Meaning(t), rest))
  {
    RenderSkips(ok, t, depth, rest);
    EmptyLayout(t, rest);
    var close := if t.NoItems? then CLOSE_BRACKET else CLOSE_BRACE;
    SeparatorFound(t.inner, close, rest);
    EmptyParsed(ok, Render(t) + rest, depth, t.inner + ([close] + rest), t.NoItems?);
  }

  /** After the spaces a separator is found. */
  lemma {:induction false} SeparatorFound(space: seq<Byte>, c: Byte, rest: seq<Byte>)
    requires Spaces(space) && !Space(c)
    ensures Skip(space + ([c] + rest)) == [c] + rest && ([c] + rest)[1..] == rest
  {
    SkipSpaces(space, [c] + rest);
  }

  lemma {:induction false} MoreItemsAt(ok: Readable, space: seq<Byte>, rest: seq<Byte>, depth: nat, so: seq<Json>)
    requires Spaces(space)
    ensures MoreItems(ok, space + ([CLOSE_BRACKET] + rest), depth, so) == Some((Array(so), rest))
    ensures MoreItems(ok, space + ([COMMA] + rest), depth, so) == Items(ok, rest, depth, so)
  {
    SeparatorFound(space, CLOSE_BRACKET, rest);
    SeparatorFound(space, COMMA, rest);
  }

  lemma {:induction false} MoreMembersAt(ok: Readable, space: seq<Byte>, rest: seq<Byte>, depth: nat, so: seq<Member>)
    requires Spaces(space)
    ensures MoreMembers(ok, space + ([CLOSE_BRACE] + rest), depth, so) == Some((Object(so), rest))
    ensures MoreMembers(ok, space + ([COMMA] + rest), depth, so) == Members(ok, rest, depth, so)
  {
    SeparatorFound(space, CLOSE_BRACE, rest);
    SeparatorFound(space, COMMA, rest);
  }

  /** What follows the first item. */
  function AfterFirst(items: seq<Spaced>, rest: seq<Byte>): seq<Byte>
    requires items != []
  {
    items[0].after + (if |items| == 1 then [CLOSE_BRACKET] + rest else [COMMA] + (RenderItems(items[1..]) + rest))
  }

  lemma {:induction false} ItemsLayout(items: seq<Spaced>, rest: seq<Byte>)
    requires items != []
    ensures RenderItems(items) + rest == Render(items[0].value) + AfterFirst(items, rest)
  {
    var tail := if |items| == 1 then [CLOSE_BRACKET] else [COMMA] + RenderItems(items[1..]);
    Group4(Render(items[0].value), items[0].after, tail, rest);
    if |items| > 1 {
      Group3([COMMA], RenderItems(items[1..]), rest);
    }
  }

  lemma {:induction false} ItemEnds(ok: Readable, items: seq<Spaced>, depth: nat, rest: seq<Byte>)
    requires items != [] && LegalItems(ok, items, depth)
    ensures Ends(items[0].value, AfterFirst(items, rest))
  {
    assert items[0].after != [] ==> items[0].after[0] in items[0].after;
  }

  lemma {:induction false} ItemsRead(ok: Readable, items: seq<Spaced>, depth: nat, so: seq<Json>, rest: seq<Byte>)
    requires items != [] && LegalItems(ok, items, depth + 1)
    ensures Items(ok, RenderItems(items) + rest, depth, so) == Some((Array(so + ItemsMean(items)), rest))
    decreases items, 0
  {
    var all := so + [Meaning(items[0].value)];
    ItemsLayout(items, rest);
    ItemEnds(ok, items, depth + 1, rest);
    TreeReads(ok, items[0].value, depth + 1, AfterFirst(items, rest));
    if |items| == 1 {
      MoreItemsAt(ok, items[0].after, rest, depth, all);
      assert ItemsMean(items) == [Meaning(items[0].value)];
    } else {
      MoreItemsAt(ok, items[0].after, RenderItems(items[1..]) + rest, depth, all);
      ItemsRead(ok, items[1..], depth, all, rest);
      Group3(so, [Meaning(items[0].value)], ItemsMean(items[1..]));
    }
  }

  function AfterEntry(entries: seq<Entry>, rest: seq<Byte>): seq<Byte>
    requires entries != []
  {
    entries[0].after + (if |entries| == 1 then [CLOSE_BRACE] + rest else [COMMA] + (RenderEntries(entries[1..]) + rest))
  }

  /** An entry in front of what follows it. */
  function EntryText(e: Entry, after: seq<Byte>): seq<Byte> {
    e.space + RenderText(e.key) + (e.colon + ([COLON] + (Render(e.value) + after)))
  }

  lemma {:induction false} EntriesLayout(entries: seq<Entry>, rest: seq<Byte>)
    requires entries != []
    ensures RenderEntries(entries) + rest == EntryText(entries[0], AfterEntry(entries, rest))
  {
    var e := entries[0];
    var tail := if |entries| == 1 then [CLOSE_BRACE] else [COMMA] + RenderEntries(entries[1..]);
    Regroup(e.space + RenderText(e.key), e.colon, Render(e.value), e.after, tail, rest);
    if |entries| > 1 {
      Group3([COMMA], RenderEntries(entries[1..]), rest);
    }
  }

  lemma Regroup(a: seq<Byte>, b: seq<Byte>, v: seq<Byte>, d: seq<Byte>, tail: seq<Byte>, rest: seq<Byte>)
    ensures a + (b + ([COLON] + (v + (d + tail)))) + rest == a + (b + ([COLON] + (v + (d + (tail + rest)))))
  {
  }

  lemma {:induction false} EntryEnds(ok: Readable, entries: seq<Entry>, depth: nat, rest: seq<Byte>)
    requires entries != [] && LegalEntries(ok, entries, depth)
    ensures Ends(entries[0].value, AfterEntry(entries, rest))
  {
    assert LegalEntry(ok, entries[0], depth);
    assert entries[0].after != [] ==> entries[0].after[0] in entries[0].after;
  }

  lemma {:induction false} EntryReads(ok: Readable, e: Entry, depth: nat, so: seq<Member>, after: seq<Byte>)
    requires LegalEntry(ok, e, depth + 1) && Ends(e.value, after) && !HasKey(so, KeyMeans(e.key))
    ensures Members(ok, EntryText(e, after), depth, so)
         == MoreMembers(ok, after, depth, so + [Member(KeyMeans(e.key), Meaning(e.value))])
    decreases e, 1
  {
    var value := Render(e.value) + after;
    StrReads(e.space, e.key, e.colon + ([COLON] + value));
    SeparatorFound(e.colon, COLON, value);
    TreeReads(ok, e.value, depth + 1, after);
  }

  lemma {:induction false} EntriesRead(ok: Readable, entries: seq<Entry>, depth: nat, so: seq<Member>, rest: seq<Byte>)
    requires entries != [] && LegalEntries(ok, entries, depth + 1) && Distinct(so + EntriesMean(entries))
    ensures Members(ok, RenderEntries(entries) + rest, depth, so) == Some((Object(so + EntriesMean(entries)), rest))
    decreases entries, 0
  {
    var e := entries[0];
    var m := Member(KeyMeans(e.key), Meaning(e.value));
    assert LegalEntry(ok, e, depth + 1);
    FreshKey(so, m, EntriesMean(entries));
    EntriesLayout(entries, rest);
    EntryEnds(ok, entries, depth + 1, rest);
    EntryReads(ok, e, depth, so, AfterEntry(entries, rest));
    Group3(so, [m], EntriesMean(entries[1..]));
    if |entries| == 1 {
      MoreMembersAt(ok, e.after, rest, depth, so + [m]);
      assert EntriesMean(entries) == [m];
    } else {
      MoreMembersAt(ok, e.after, RenderEntries(entries[1..]) + rest, depth, so + [m]);
      EntriesRead(ok, entries[1..], depth, so + [m], rest);
    }
  }

  lemma FreshKey(so: seq<Member>, m: Member, ms: seq<Member>)
    requires ms != [] && ms[0] == m && Distinct(so + ms)
    ensures !HasKey(so, m.key)
  {
    forall i | 0 <= i < |so|
      ensures so[i].key != m.key
    {
      assert (so + ms)[i] == so[i] && (so + ms)[|so|] == m;
    }
  }

  /** Every legal tree is read back from its rendering, in any surroundings. */
  lemma {:induction false} TreeReads(ok: Readable, t: Syntax, depth: nat, rest: seq<Byte>)
    requires Legal(ok, t, depth) && Ends(t, rest)
    ensures Value(ok, Render(t) + rest, depth) == Some((Meaning(t), rest))
    decreases t, 0
  {
    match t
    case List(_, items) => ListReads(ok, t, depth, rest);
    case Dict(_, entries) => DictReads(ok, t, depth, rest);
    case NoItems(_, _) => EmptyReads(ok, t, depth, rest);
    case NoEntries(_, _) => EmptyReads(ok, t, depth, rest);
    case Word(_, _) => WordReads(ok, t, depth, rest);
    case Digits(_, _) => DigitsRead(ok, t, depth, rest);
    case Chars(_, _) => CharsRead(ok, t, depth, rest);
  }

  lemma {:induction false} ArrayOpens(ok: Readable, text: seq<Byte>, body: seq<Byte>, depth: nat)
    requires depth <= MAX_DEPTH && Skip(text) == [OPEN_BRACKET] + body && !Starts(Skip(body), CLOSE_BRACKET)
    ensures Value(ok, text, depth) == Items(ok, body, depth, [])
  {
    assert Skip(text)[1..] == body;
    ItemsSkip(ok, body, depth, []);
  }

  lemma {:induction false} ObjectOpens(ok: Readable, text: seq<Byte>, body: seq<Byte>, depth: nat)
    requires depth <= MAX_DEPTH && Skip(text) == [OPEN_BRACE] + body && !Starts(Skip(body), CLOSE_BRACE)
    ensures Value(ok, text, depth) == Members(ok, body, depth, [])
  {
    assert Skip(text)[1..] == body;
    MembersSkip(ok, body, depth, []);
  }

  lemma {:induction false} ListReads(ok: Readable, t: Syntax, depth: nat, rest: seq<Byte>)
    requires t.List? && Legal(ok, t, depth)
    ensures Value(ok, Render(t) + rest, depth) == Some((Meaning(t), rest))
    decreases t.items, 1
  {
    var body := RenderItems(t.items) + rest;
    RenderSkips(ok, t, depth, rest);
    assert Core(t) + rest == [OPEN_BRACKET] + body;
    ItemsStart(ok, t.items, depth + 1, rest);
    ArrayOpens(ok, Render(t) + rest, body, depth);
    ItemsRead(ok, t.items, depth, [], rest);
    assert [] + ItemsMean(t.items) == ItemsMean(t.items);
  }

  lemma {:induction false} ItemsStart(ok: Readable, items: seq<Spaced>, depth: nat, rest: seq<Byte>)
    requires items != [] && LegalItems(ok, items, depth)
    ensures !Starts(Skip(RenderItems(items) + rest), CLOSE_BRACKET)
  {
    ItemsLayout(items, rest);
    RenderSkips(ok, items[0].value, depth, AfterFirst(items, rest));
    CoreStarts(ok, items[0].value, depth);
  }

  lemma {:induction false} DictReads(ok: Readable, t: Syntax, depth: nat, rest: seq<Byte>)
    requires t.Dict? && Legal(ok, t, depth)
    ensures Value(ok, Render(t) + rest, depth) == Some((Meaning(t), rest))
    decreases t.entries, 1
  {
    var body := RenderEntries(t.entries) + rest;
    RenderSkips(ok, t, depth, rest);
    assert Core(t) + rest == [OPEN_BRACE] + body;
    EntriesStart(ok, t.entries, depth + 1, rest);
    ObjectOpens(ok, Render(t) + rest, body, depth);
    assert [] + EntriesMean(t.entries) == EntriesMean(t.entries);
    EntriesRead(ok, t.entries, depth, [], rest);
  }

  lemma {:induction false} EntriesStart(ok: Readable, entries: seq<Entry>, depth: nat, rest: seq<Byte>)
    requires entries != [] && LegalEntries(ok, entries, depth)
    ensures Starts(Skip(RenderEntries(entries) + rest), QUOTE)
  {
    assert LegalEntry(ok, entries[0], depth);
    EntriesLayout(entries, rest);
    var e := entries[0];
    var more := RenderText(e.key) + (e.colon + ([COLON] + (Render(e.value) + AfterEntry(entries, rest))));
    assert RenderEntries(entries) + rest == e.space + more;
    SkipSpaces(e.space, more);
  }

  // ----- reading then a tree -----

  /** A tree for a value that was read, and the text after it. */
  ghost predicate Explains(ok: Readable, t: Syntax, text: seq<Byte>, depth: nat, j: Json, rest: seq<Byte>) {
    Legal(ok, t, depth) && Ends(t, rest) && Meaning(t) == j && text == Render(t) + rest
  }

  lemma {:induction false} NumberEnds(text: seq<Byte>)
    ensures var n := NumberLength(text);
            n < |text| ==> !NumberByte(text[n])
  {
    if text != [] && NumberByte(text[0]) {
      NumberEnds(text[1..]);
    }
  }

  /** A leaf in front of what follows it. */
  lemma {:induction false} LeafExplains(ok: Readable, t: Syntax, text: seq<Byte>, depth: nat, rest: seq<Byte>)
    requires Legal(ok, t, depth) && Ends(t, rest) && text == t.space + (Core(t) + rest)
    ensures Explains(ok, t, text, depth, Meaning(t), rest)
  {
    Group3(t.space, Core(t), rest);
  }

  lemma CharsTree(ok: Readable, text: seq<Byte>, depth: nat) returns (t: Syntax)
    requires Value(ok, text, depth).Some? && Starts(Skip(text), QUOTE)
    ensures Explains(ok, t, text, depth, Value(ok, text, depth).value.0, Value(ok, text, depth).value.1)
  {
    var space := SkipSplits(text);
    var pieces := BareStrPieces(Skip(text));
    t := Chars(space, pieces);
    LeafExplains(ok, t, text, depth, Str(Skip(text)).value.1);
  }

  lemma {:induction false} NumberSplits(s: seq<Byte>, token: seq<Byte>, rest: seq<Byte>)
    requires token == s[..NumberLength(s)] && rest == s[NumberLength(s)..]
    ensures s == token + rest && NumberLength(token) == |token| && (rest != [] ==> !NumberByte(rest[0]))
  {
    NumberTaken(s);
    NumberEnds(s);
  }

  lemma DigitsTree(ok: Readable, text: seq<Byte>, depth: nat) returns (t: Syntax)
    requires depth <= MAX_DEPTH && ReadNumber(ok, Skip(text)).Some?
    ensures Explains(ok, t, text, depth, ReadNumber(ok, Skip(text)).value.0, ReadNumber(ok, Skip(text)).value.1)
  {
    var space := SkipSplits(text);
    var token, rest := ReadNumber(ok, Skip(text)).value.0.token, ReadNumber(ok, Skip(text)).value.1;
    NumberSplits(Skip(text), token, rest);
    t := Digits(space, token);
    LeafExplains(ok, t, text, depth, rest);
  }

  lemma {:induction false} LeafTree(ok: Readable, text: seq<Byte>, depth: nat) returns (t: Syntax)
    requires Value(ok, text, depth).Some?
    requires Skip(text) != [] && Skip(text)[0] != OPEN_BRACE && Skip(text)[0] != OPEN_BRACKET
    ensures Explains(ok, t, text, depth, Value(ok, text, depth).value.0, Value(ok, text, depth).value.1)
  {
    var s := Skip(text);
    if s[0] == QUOTE {
      t := CharsTree(ok, text, depth);
    } else if s[0] == 116 {
      t := WordTree(ok, text, depth, True);
    } else if s[0] == 102 {
      t := WordTree(ok, text, depth, False);
    } else if s[0] == 110 {
      t := WordTree(ok, text, depth, Null);
    } else {
      t := DigitsTree(ok, text, depth);
    }
  }

  lemma WordTree(ok: Readable, text: seq<Byte>, depth: nat, j: Json) returns (t: Syntax)
    requires depth <= MAX_DEPTH && (j.True? || j.False? || j.Null?) && Literal(WordText(j), j, Skip(text)).Some?
    ensures var r := Literal(WordText(j), j, Skip(text)).value;
            Explains(ok, t, text, depth, r.0, r.1)
  {
    var space := SkipSplits(text);
    t := Word(space, j);
    var s, n := Skip(text), |WordText(j)|;
    assert s == s[..n] + s[n..] && s[..n] == WordText(j);
    LeafExplains(ok, t, text, depth, s[n..]);
  }

  /** Any value the reader returns was read from the rendering of a legal tree that means it. */
  lemma {:induction false} ValueTree(ok: Readable, text: seq<Byte>, depth: nat) returns (t: Syntax)
    requires Value(ok, text, depth).Some?
    ensures Explains(ok, t, text, depth, Value(ok, text, depth).value.0, Value(ok, text, depth).value.1)
    decreases |text|, 2
  {
    var s := Skip(text);
    if s[0] == OPEN_BRACE {
      t := ObjectTree(ok, text, depth);
    } else if s[0] == OPEN_BRACKET {
      t := ArrayTree(ok, text, depth);
    } else {
      t := LeafTree(ok, text, depth);
    }
  }

  lemma {:induction false} EmptyTree(ok: Readable, text: seq<Byte>, depth: nat, body: seq<Byte>, square: bool)
      returns (t: Syntax)
    requires depth <= MAX_DEPTH && Skip(text) == [if square then OPEN_BRACKET else OPEN_BRACE] + body
    requires Starts(Skip(body), if square then CLOSE_BRACKET else CLOSE_BRACE)
    ensures Explains(ok, t, text, depth, if square then Array([]) else Object([]), Skip(body)[1..])
    ensures Value(ok, text, depth) == Some((if square then Array([]) else Object([]), Skip(body)[1..]))
  {
    EmptyParsed(ok, text, depth, body, square);
    var space := SkipSplits(text);
    var inner := SkipSplits(body);
    t := if square then NoItems(space, inner) else NoEntries(space, inner);
    assert Skip(body) == [Skip(body)[0]] + Skip(body)[1..];
    EmptyLayout(t, Skip(body)[1..]);
  }

  lemma {:induction false} ListExplains(ok: Readable, space: seq<Byte>, items: seq<Spaced>, depth: nat, rest: seq<Byte>)
    requires depth <= MAX_DEPTH && Spaces(space) && items != [] && LegalItems(ok, items, depth + 1)
    ensures Explains(ok, List(space, items), space + ([OPEN_BRACKET] + (RenderItems(items) + rest)), depth,
                     Array(ItemsMean(items)), rest)
  {
    Group4(space, [OPEN_BRACKET], RenderItems(items), rest);
  }

  lemma {:induction false} DictExplains(ok: Readable, space: seq<Byte>, entries: seq<Entry>, depth: nat,
                                        rest: seq<Byte>)
    requires depth <= MAX_DEPTH && Spaces(space) && entries != []
    requires LegalEntries(ok, entries, depth + 1) && Distinct(EntriesMean(entries))
    ensures Explains(ok, Dict(space, entries), space + ([OPEN_BRACE] + (RenderEntries(entries) + rest)), depth,
                     Object(EntriesMean(entries)), rest)
  {
    Group4(space, [OPEN_BRACE], RenderEntries(entries), rest);
  }

  lemma {:induction false} ArrayTree(ok: Readable, text: seq<Byte>, depth: nat) returns (t: Syntax)
    requires Value(ok, text, depth).Some? && Starts(Skip(text), OPEN_BRACKET)
    ensures Explains(ok, t, text, depth, Value(ok, text, depth).value.0, Value(ok, text, depth).value.1)
    decreases |text|, 1
  {
    var body := Skip(text)[1..];
    assert Skip(text) == [OPEN_BRACKET] + body;
    if Starts(Skip(body), CLOSE_BRACKET) {
      t := EmptyTree(ok, text, depth, body, true);
    } else {
      var space := SkipSplits(text);
      ArrayOpens(ok, text, body, depth);
      var items := ItemsTree(ok, body, depth, []);
      assert [] + ItemsMean(items) == ItemsMean(items);
      ListExplains(ok, space, items, depth, Items(ok, body, depth, []).value.1);
      t := List(space, items);
    }
  }

  lemma {:induction false} ItemsGrow(ok: Readable, t: Syntax, after: seq<Byte>, more: seq<Spaced>, depth: nat,
                                     so: seq<Json>, rest: seq<Byte>)
    requires Legal(ok, t, depth) && Spaces(after) && LegalItems(ok, more, depth)
    ensures var items := [Spaced(t, after)] + more;
            && LegalItems(ok, items, depth) && so + [Meaning(t)] + ItemsMean(more) == so + ItemsMean(items)
            && RenderItems(items) + rest
            == Render(t) + (after + (if more == [] then [CLOSE_BRACKET] + rest
                                     else [COMMA] + (RenderItems(more) + rest)))
  {
    var items := [Spaced(t, after)] + more;
    assert items[1..] == more;
    ItemsLayout(items, rest);
  }

  lemma {:induction false} ItemsTree(ok: Readable, text: seq<Byte>, depth: nat, so: seq<Json>)
      returns (items: seq<Spaced>)
    requires Items(ok, text, depth, so).Some?
    ensures items != [] && LegalItems(ok, items, depth + 1)
    ensures var r := Items(ok, text, depth, so).value;
            r.0 == Array(so + ItemsMean(items)) && text == RenderItems(items) + r.1
    decreases |text|, 3
  {
    var t := ValueTree(ok, text, depth + 1);
    var (j, rest) := Value(ok, text, depth + 1).value;
    var after := SkipSplits(rest);
    var u := Skip(rest);
    assert u == [u[0]] + u[1..];
    var more := [];
    if Starts(u, COMMA) {
      more := ItemsTree(ok, u[1..], depth, so + [j]);
    }
    ItemsGrow(ok, t, after, more, depth + 1, so, Items(ok, text, depth, so).value.1);
    items := [Spaced(t, after)] + more;
  }

  lemma {:induction false} ObjectTree(ok: Readable, text: seq<Byte>, depth: nat) returns (t: Syntax)
    requires Value(ok, text, depth).Some? && Starts(Skip(text), OPEN_BRACE)
    ensures Explains(ok, t, text, depth, Value(ok, text, depth).value.0, Value(ok, text, depth).value.1)
    decreases |text|, 1
  {
    var body := Skip(text)[1..];
    assert Skip(text) == [OPEN_BRACE] + body;
    if Starts(Skip(body), CLOSE_BRACE) {
      t := EmptyTree(ok, text, depth, body, false);
    } else {
      var space := SkipSplits(text);
      ObjectOpens(ok, text, body, depth);
      var entries := EntriesTree(ok, body, depth, []);
      assert [] + EntriesMean(entries) == EntriesMean(entries);
      DictExplains(ok, space, entries, depth, Members(ok, body, depth, []).value.1);
      t := Dict(space, entries);
    }
  }

  lemma {:induction false} EntriesGrow(ok: Readable, e: Entry, more: seq<Entry>, depth: nat, so: seq<Member>,
                                       rest: seq<Byte>)
    requires LegalEntry(ok, e, depth) && LegalEntries(ok, more, depth)
    ensures var entries := [e] + more;
            && LegalEntries(ok, entries, depth)
            && so + [Member(KeyMeans(e.key), Meaning(e.value))] + EntriesMean(more) == so + EntriesMean(entries)
            && RenderEntries(entries) + rest
            == EntryText(e, e.after + (if more == [] then [CLOSE_BRACE] + rest
                                       else [COMMA] + (RenderEntries(more) + rest)))
  {
    var entries := [e] + more;
    assert entries[1..] == more;
    EntriesLayout(entries, rest);
  }

  /** The first entry of an object that was read, and the separator after it. */
  lemma {:induction false} EntryTree(ok: Readable, text: seq<Byte>, depth: nat, so: seq<Member>)
      returns (e: Entry, u: seq<Byte>)
    requires Members(ok, text, depth, so).Some?
    ensures LegalEntry(ok, e, depth + 1) && !HasKey(so, KeyMeans(e.key)) && |u| < |text|
    ensures text == EntryText(e, e.after + u) && u != []
    ensures var all := so + [Member(KeyMeans(e.key), Meaning(e.value))];
            if Starts(u, COMMA) then Members(ok, text, depth, so) == Members(ok, u[1..], depth, all)
            else Starts(u, CLOSE_BRACE) && Members(ok, text, depth, so) == Some((Object(all), u[1..]))
    decreases |text|, 0
  {
    var space, key := StrPieces(text);
    var colon := SkipSplits(Str(text).value.1);
    var c := Skip(Str(text).value.1);
    assert c == [COLON] + c[1..];
    var t := ValueTree(ok, c[1..], depth + 1);
    var rest := Value(ok, c[1..], depth + 1).value.1;
    var after := SkipSplits(rest);
    u := Skip(rest);
    e := Entry(space, key, colon, t, after);
  }

  lemma {:induction false} EntriesTree(ok: Readable, text: seq<Byte>, depth: nat, so: seq<Member>)
      returns (entries: seq<Entry>)
    requires Members(ok, text, depth, so).Some? && Distinct(so)
    ensures entries != [] && LegalEntries(ok, entries, depth + 1) && Distinct(so + EntriesMean(entries))
    ensures var r := Members(ok, text, depth, so).value;
            r.0 == Object(so + EntriesMean(entries)) && text == RenderEntries(entries) + r.1
    decreases |text|, 1
  {
    var e, u := EntryTree(ok, text, depth, so);
    var m := Member(KeyMeans(e.key), Meaning(e.value));
    assert u == [u[0]] + u[1..];
    DistinctMore(so, m);
    var more := [];
    if Starts(u, COMMA) {
      more := EntriesTree(ok, u[1..], depth, so + [m]);
    }
    EntriesGrow(ok, e, more, depth + 1, so, Members(ok, text, depth, so).value.1);
    entries := [e] + more;
  }

  lemma DistinctMore(so: seq<Member>, m: Member)
    requires Distinct(so) && !HasKey(so, m.key)
    ensures Distinct(so + [m])
  {
  }

  // ----- documents -----

  /** A text is a document of a value: a legal tree that means it, and white space. */
  ghost predicate Documents(ok: Readable, text: seq<Byte>, j: Json) {
    exists t: Syntax, trail: seq<Byte> :: Writes(ok, t, trail, text, j)
  }

  ghost predicate Writes(ok: Readable, t: Syntax, trail: seq<Byte>, text: seq<Byte>, j: Json) {
    Legal(ok, t, 0) && Spaces(trail) && text == Render(t) + trail && Meaning(t) == j
  }

  /** The reader accepts exactly the grammar: a text is read as a value if and only if it is a document
      of that value. */
  lemma {:induction false} AcceptsExactlyJson(ok: Readable, text: seq<Byte>, j: Json)
    ensures Parse(ok, text) == Some(j) <==> Documents(ok, text, j)
  {
    if Parse(ok, text) == Some(j) {
      var t := ValueTree(ok, text, 0);
      var rest := Value(ok, text, 0).value.1;
      var trail := SkipSplits(rest);
      assert trail + [] == trail;
      assert Writes(ok, t, trail, text, j);
    }
    if Documents(ok, text, j) {
      var t, trail :| Writes(ok, t, trail, text, j);
      assert trail != [] ==> trail[0] in trail;
      TreeReads(ok, t, 0, trail);
      AllSkipped(trail);
    }
  }

  lemma {:induction false} AllSkipped(space: seq<Byte>)
    requires Spaces(space)
    ensures Skip(space) == []
  {
    if space != [] {
      assert space[0] in space;
      AllSkipped(space[1..]);
    }
  }
}
