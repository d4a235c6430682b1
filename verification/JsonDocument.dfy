/** Whole JSON documents: the strict reader's recursive descent, and a compact form it reads back. */
module JsonDocument {
  import opened Options
  import opened Wire
  import opened Utf8
  import opened JsonText

  const MAX_DEPTH := 32

  /** Numbers stay the text they were read from; members keep their order. */
  datatype Json = Null | True | False | Number(token: seq<Byte>) | Text(text: seq<Byte>)
                | Array(items: seq<Json>) | Object(members: seq<Member>)

  datatype Member = Member(key: seq<Byte>, value: Json)

  const TRUE: seq<Byte> := [116, 114, 117, 101]
  const FALSE: seq<Byte> := [102, 97, 108, 115, 101]
  const NULL: seq<Byte> := [110, 117, 108, 108]
  const OPEN_BRACE: Byte := 123
  const CLOSE_BRACE: Byte := 125
  const OPEN_BRACKET: Byte := 91
  const CLOSE_BRACKET: Byte := 93
  const COMMA: Byte := 44
  const COLON: Byte := 58

  /** Which number texts the conversion accepts is left open. */
  type Readable = seq<Byte> -> bool

  // ----- reading -----

  predicate NumberByte(c: Byte) {
    48 <= c <= 57 || c == 46 || c == 101 || c == 69 || c == 43 || c == 45
  }

  /** How many number bytes the text starts with. */
  function NumberLength(text: seq<Byte>): (n: nat)
    ensures n <= |text|
  {
    if text == [] || !NumberByte(text[0]) then 0 else 1 + NumberLength(text[1..])
  }

  function ReadNumber(ok: Readable, text: seq<Byte>): Option<(Json, seq<Byte>)> {
    var n := NumberLength(text);
    if n == 0 || !ok(text[..n]) then None else Some((Number(text[..n]), text[n..]))
  }

  function Literal(word: seq<Byte>, j: Json, text: seq<Byte>): Option<(Json, seq<Byte>)> {
    if word <= text then Some((j, text[|word|..])) else None
  }

  predicate Starts(text: seq<Byte>, c: Byte) {
    text != [] && text[0] == c
  }

  /** A value: what it is and the text after it. */
  function Value(ok: Readable, text: seq<Byte>, depth: nat): (r: Option<(Json, seq<Byte>)>)
    ensures r.Some? ==> |r.value.1| < |text|
    decreases |text|, 2
  {
    var t := Skip(text);
    if depth > MAX_DEPTH || t == [] then None
    else if t[0] == OPEN_BRACE then
      var u := Skip(t[1..]);
      if Starts(u, CLOSE_BRACE) then Some((Object([]), u[1..])) else Members(ok, u, depth, [])
    else if t[0] == OPEN_BRACKET then
      var u := Skip(t[1..]);
      if Starts(u, CLOSE_BRACKET) then Some((Array([]), u[1..])) else Items(ok, u, depth, [])
    else if t[0] == QUOTE then
      var s := Str(t);
      if s.None? then None else Some((Text(s.value.0), s.value.1))
    else if t[0] == 116 then Literal(TRUE, True, t)
    else if t[0] == 102 then Literal(FALSE, False, t)
    else if t[0] == 110 then Literal(NULL, Null, t)
    else ReadNumber(ok, t)
  }

  /** The members of an object after its brace, added to those read so far. */
  function Members(ok: Readable, text: seq<Byte>, depth: nat, so: seq<Member>): (r: Option<(Json, seq<Byte>)>)
    ensures r.Some? ==> |r.value.1| < |text|
    decreases |text|, 1
  {
    var k := Str(text);
    if k.None? then None
    else
      var t := Skip(k.value.1);
      if !Starts(t, COLON) then None
      else
        var v := Value(ok, t[1..], depth + 1);
        if v.None? || HasKey(so, k.value.0) then None
        else MoreMembers(ok, v.value.1, depth, so + [Member(k.value.0, v.value.0)])
  }

  /** After a member: another one, or the end. */
  function MoreMembers(ok: Readable, text: seq<Byte>, depth: nat, so: seq<Member>): (r: Option<(Json, seq<Byte>)>)
    ensures r.Some? ==> |r.value.1| < |text|
    decreases |text|, 0
  {
    var u := Skip(text);
    if Starts(u, COMMA) then Members(ok, u[1..], depth, so)
    else if Starts(u, CLOSE_BRACE) then Some((Object(so), u[1..]))
    else None
  }

  function Items(ok: Readable, text: seq<Byte>, depth: nat, so: seq<Json>): (r: Option<(Json, seq<Byte>)>)
    ensures r.Some? ==> |r.value.1| < |text|
    decreases |text|, 3
  {
    var v := Value(ok, text, depth + 1);
    if v.None? then None else MoreItems(ok, v.value.1, depth, so + [v.value.0])
  }

  function MoreItems(ok: Readable, text: seq<Byte>, depth: nat, so: seq<Json>): (r: Option<(Json, seq<Byte>)>)
    ensures r.Some? ==> |r.value.1| < |text|
    decreases |text|, 0
  {
    var u := Skip(text);
    if Starts(u, COMMA) then Items(ok, u[1..], depth, so)
    else if Starts(u, CLOSE_BRACKET) then Some((Array(so), u[1..]))
    else None
  }

  predicate HasKey(ms: seq<Member>, key: seq<Byte>) {
    exists i :: 0 <= i < |ms| && ms[i].key == key
  }

  /** One complete document. */
  function Parse(ok: Readable, text: seq<Byte>): Option<Json> {
    var v := Value(ok, text, 0);
    if v.None? || Skip(v.value.1) != [] then None else Some(v.value.0)
  }

  // ----- the compact form -----

  function Print(j: Json): seq<Byte>
    decreases j
  {
    match j
    case Null => NULL
    case True => TRUE
    case False => FALSE
    case Number(token) => token
    case Text(s) => Quoted(s)
    case Array(items) => [OPEN_BRACKET] + PrintItems(items) + [CLOSE_BRACKET]
    case Object(members) => [OPEN_BRACE] + PrintMembers(members) + [CLOSE_BRACE]
  }

  function PrintItems(items: seq<Json>): seq<Byte>
    decreases items
  {
    if items == [] then []
    else Print(items[0]) + (if |items| == 1 then [] else [COMMA] + PrintItems(items[1..]))
  }

  function PrintMembers(members: seq<Member>): seq<Byte>
    decreases members
  {
    if members == [] then []
    else
      Quoted(members[0].key) + [COLON] + Print(members[0].value)
      + (if |members| == 1 then [] else [COMMA] + PrintMembers(members[1..]))
  }

  /** Whether every number in a document has a text the reader takes whole. */
  ghost predicate Numeric(ok: Readable, j: Json)
    decreases j
  {
    match j
    case Number(token) => token != [] && NumberLength(token) == |token| && ok(token)
    case Array(items) => forall i :: 0 <= i < |items| ==> Numeric(ok, items[i])
    case Object(members) => forall i :: 0 <= i < |members| ==> Numeric(ok, members[i].value)
    case _ => true
  }

  /** What the reader admits: nesting within the limit and no key twice in an object. */
  ghost predicate Fits(j: Json, depth: nat)
    decreases j
  {
    depth <= MAX_DEPTH &&
    match j
    case Array(items) => forall i :: 0 <= i < |items| ==> Fits(items[i], depth + 1)
    case Object(members) =>
      && (forall i :: 0 <= i < |members| ==> Fits(members[i].value, depth + 1))
      && Distinct(members)
    case _ => true
  }

  ghost predicate Distinct(ms: seq<Member>) {
    forall i, k :: 0 <= i < k < |ms| ==> ms[i].key != ms[k].key
  }

  // ----- printing then reading -----

  /** A number is read to its last number byte, so something else must follow it. */
  ghost predicate Stops(j: Json, rest: seq<Byte>) {
    j.Number? && rest != [] ==> !NumberByte(rest[0])
  }

  lemma {:induction false} PrintStarts(ok: Readable, j: Json)
    requires Numeric(ok, j)
    ensures Print(j) != [] && !Space(Print(j)[0]) && Print(j)[0] != CLOSE_BRACKET && Print(j)[0] != CLOSE_BRACE
  {
  }

  lemma {:induction false} NumberStops(token: seq<Byte>, rest: seq<Byte>)
    requires NumberLength(token) == |token| && (rest == [] || !NumberByte(rest[0]))
    ensures NumberLength(token + rest) == |token|
  {
    if token == [] {
      assert token + rest == rest;
    } else {
      NumberStops(token[1..], rest);
      assert (token + rest)[1..] == token[1..] + rest;
    }
  }

  lemma ReadsNumber(ok: Readable, token: seq<Byte>, rest: seq<Byte>)
    requires Numeric(ok, Number(token)) && Stops(Number(token), rest)
    ensures ReadNumber(ok, token + rest) == Some((Number(token), rest))
  {
    NumberStops(token, rest);
    assert (token + rest)[..|token|] == token && (token + rest)[|token|..] == rest;
  }

  lemma ReadsLiteral(word: seq<Byte>, j: Json, rest: seq<Byte>)
    ensures Literal(word, j, word + rest) == Some((j, rest))
  {
    assert word <= word + rest && (word + rest)[|word|..] == rest;
  }

  /** The simple values. */
  lemma {:induction false} ReadsSimple(ok: Readable, j: Json, depth: nat, rest: seq<Byte>)
    requires !j.Array? && !j.Object? && Numeric(ok, j) && Stops(j, rest)
    ensures Value(ok, Print(j) + rest, depth) == if Fits(j, depth) then Some((j, rest)) else None
  {
    PrintStarts(ok, j);
    var text := Print(j) + rest;
    assert Skip(text) == text && text[0] == Print(j)[0];
    match j
    case Null => ReadsLiteral(NULL, Null, rest);
    case True => ReadsLiteral(TRUE, True, rest);
    case False => ReadsLiteral(FALSE, False, rest);
    case Number(token) => ReadsNumber(ok, token, rest);
    case Text(s) =>
      StringRoundTrip([], s, rest);
      assert [] + Quoted(s) + rest == text;
  }

  ghost predicate AllFit(items: seq<Json>, depth: nat) {
    forall i :: 0 <= i < |items| ==> Fits(items[i], depth)
  }

  ghost predicate AllNumeric(ok: Readable, items: seq<Json>) {
    forall i :: 0 <= i < |items| ==> Numeric(ok, items[i])
  }

  lemma {:induction false} SkipsNothing(c: Byte, rest: seq<Byte>)
    requires !Space(c)
    ensures Skip([c] + rest) == [c] + rest && ([c] + rest)[1..] == rest
  {
  }

  /** What follows the first item. */
  function AfterItem(items: seq<Json>, rest: seq<Byte>): seq<Byte>
    requires items != []
  {
    if |items| == 1 then [CLOSE_BRACKET] + rest
    else [COMMA] + (PrintItems(items[1..]) + [CLOSE_BRACKET] + rest)
  }

  lemma {:induction false} ItemLayout(items: seq<Json>, rest: seq<Byte>)
    requires items != []
    ensures PrintItems(items) + [CLOSE_BRACKET] + rest == Print(items[0]) + AfterItem(items, rest)
  {
  }

  lemma {:induction false} AllFitSplit(items: seq<Json>, depth: nat)
    requires items != []
    ensures AllFit(items, depth) <==> Fits(items[0], depth) && AllFit(items[1..], depth)
  {
    if Fits(items[0], depth) && AllFit(items[1..], depth) {
      forall i | 0 <= i < |items|
        ensures Fits(items[i], depth)
      {
        assert i > 0 ==> items[i] == items[1..][i - 1];
      }
    }
  }

  lemma {:induction false} MoreItemsReads(ok: Readable, depth: nat, so: seq<Json>, rest: seq<Byte>)
    ensures MoreItems(ok, [CLOSE_BRACKET] + rest, depth, so) == Some((Array(so), rest))
    ensures MoreItems(ok, [COMMA] + rest, depth, so) == Items(ok, rest, depth, so)
  {
    SkipsNothing(CLOSE_BRACKET, rest);
    SkipsNothing(COMMA, rest);
  }

  lemma {:induction false} ReadsItem(ok: Readable, j: Json, depth: nat, so: seq<Json>, after: seq<Byte>)
    requires Numeric(ok, j) && Stops(j, after)
    ensures Items(ok, Print(j) + after, depth, so)
         == if Fits(j, depth + 1) then MoreItems(ok, after, depth, so + [j]) else None
    decreases j, 1
  {
    ReadsValue(ok, j, depth + 1, after);
  }

  lemma Rejoined<T>(so: seq<T>, items: seq<T>)
    requires items != []
    ensures so + [items[0]] + items[1..] == so + items
    ensures |items| == 1 ==> so + [items[0]] == so + items
  {
  }

  lemma {:induction false} ReadsItems(ok: Readable, items: seq<Json>, depth: nat, so: seq<Json>, rest: seq<Byte>)
    requires items != [] && AllNumeric(ok, items)
    ensures Items(ok, PrintItems(items) + [CLOSE_BRACKET] + rest, depth, so)
         == if AllFit(items, depth + 1) then Some((Array(so + items), rest)) else None
    decreases items, 0
  {
    var all := so + [items[0]];
    Rejoined(so, items);
    AllFitSplit(items, depth + 1);
    if |items| > 1 {
      ReadsItems(ok, items[1..], depth, all, rest);
    }
    MoreItemsReads(ok, depth, all, if |items| == 1 then rest else PrintItems(items[1..]) + [CLOSE_BRACKET] + rest);
    ReadsItem(ok, items[0], depth, so, AfterItem(items, rest));
    ItemLayout(items, rest);
  }

  ghost predicate MembersFit(members: seq<Member>, depth: nat) {
    forall i :: 0 <= i < |members| ==> Fits(members[i].value, depth)
  }

  ghost predicate MembersNumeric(ok: Readable, members: seq<Member>) {
    forall i :: 0 <= i < |members| ==> Numeric(ok, members[i].value)
  }

  function AfterMember(members: seq<Member>, rest: seq<Byte>): seq<Byte>
    requires members != []
  {
    if |members| == 1 then [CLOSE_BRACE] + rest
    else [COMMA] + (PrintMembers(members[1..]) + [CLOSE_BRACE] + rest)
  }

  lemma {:induction false} MemberLayout(members: seq<Member>, rest: seq<Byte>)
    requires members != []
    ensures PrintMembers(members) + [CLOSE_BRACE] + rest
         == Quoted(members[0].key) + ([COLON] + (Print(members[0].value) + AfterMember(members, rest)))
  {
    var q, v := Quoted(members[0].key), Print(members[0].value);
    if |members| == 1 {
      RegroupLast(q, v, [CLOSE_BRACE], rest);
    } else {
      RegroupMore(q, v, PrintMembers(members[1..]), [CLOSE_BRACE], rest);
    }
  }

  lemma RegroupLast(q: seq<Byte>, v: seq<Byte>, close: seq<Byte>, rest: seq<Byte>)
    ensures q + [COLON] + v + [] + close + rest == q + ([COLON] + (v + (close + rest)))
  {
  }

  lemma RegroupMore(q: seq<Byte>, v: seq<Byte>, more: seq<Byte>, close: seq<Byte>, rest: seq<Byte>)
    ensures q + [COLON] + v + ([COMMA] + more) + close + rest == q + ([COLON] + (v + ([COMMA] + (more + close + rest))))
  {
  }

  lemma {:induction false} MembersFitSplit(members: seq<Member>, depth: nat)
    requires members != []
    ensures MembersFit(members, depth) <==> Fits(members[0].value, depth) && MembersFit(members[1..], depth)
  {
    if Fits(members[0].value, depth) && MembersFit(members[1..], depth) {
      forall i | 0 <= i < |members|
        ensures Fits(members[i].value, depth)
      {
        assert i > 0 ==> members[i] == members[1..][i - 1];
      }
    }
  }

  lemma {:induction false} MoreMembersReads(ok: Readable, depth: nat, so: seq<Member>, rest: seq<Byte>)
    ensures MoreMembers(ok, [CLOSE_BRACE] + rest, depth, so) == Some((Object(so), rest))
    ensures MoreMembers(ok, [COMMA] + rest, depth, so) == Members(ok, rest, depth, so)
  {
    SkipsNothing(CLOSE_BRACE, rest);
    SkipsNothing(COMMA, rest);
  }

  /** One member is read, unless it nests too deep or its key is taken. */
  lemma {:induction false} ReadsMember(ok: Readable, m: Member, depth: nat, so: seq<Member>, after: seq<Byte>)
    requires Numeric(ok, m.value) && Stops(m.value, after)
    ensures Members(ok, Quoted(m.key) + ([COLON] + (Print(m.value) + after)), depth, so)
         == if Fits(m.value, depth + 1) && !HasKey(so, m.key) then MoreMembers(ok, after, depth, so + [m]) else None
    decreases m, 1
  {
    var value := Print(m.value) + after;
    StringRoundTrip([], m.key, [COLON] + value);
    assert [] + Quoted(m.key) == Quoted(m.key);
    SkipsNothing(COLON, value);
    ReadsValue(ok, m.value, depth + 1, after);
  }

  lemma {:induction false} ReadsMembers(ok: Readable, members: seq<Member>, depth: nat, so: seq<Member>,
                                        rest: seq<Byte>)
    requires members != [] && MembersNumeric(ok, members) && Distinct(so)
    ensures Members(ok, PrintMembers(members) + [CLOSE_BRACE] + rest, depth, so)
         == if MembersFit(members, depth + 1) && Distinct(so + members) then Some((Object(so + members), rest))
            else None
    decreases members, 0
  {
    var m := members[0];
    var all := so + [m];
    Rejoined(so, members);
    MembersFitSplit(members, depth + 1);
    DistinctFirst(so, members);
    if |members| > 1 && !HasKey(so, m.key) {
      ReadsMembers(ok, members[1..], depth, all, rest);
    }
    MoreMembersReads(ok, depth, all,
                     if |members| == 1 then rest else PrintMembers(members[1..]) + [CLOSE_BRACE] + rest);
    ReadsMember(ok, m, depth, so, AfterMember(members, rest));
    MemberLayout(members, rest);
  }

  lemma DistinctFirst(so: seq<Member>, members: seq<Member>)
    requires Distinct(so) && members != []
    ensures HasKey(so, members[0].key) ==> !Distinct(so + members)
    ensures !HasKey(so, members[0].key) ==> Distinct(so + [members[0]])
  {
    if HasKey(so, members[0].key) {
      var i :| 0 <= i < |so| && so[i].key == members[0].key;
      assert (so + members)[i].key == (so + members)[|so|].key;
    }
  }

  /** Reading undoes printing for every document: it is returned whole when its nesting is within the
      limit and no object repeats a key, and refused otherwise. */
  lemma {:induction false} ReadsValue(ok: Readable, j: Json, depth: nat, rest: seq<Byte>)
    requires Numeric(ok, j) && Stops(j, rest)
    ensures Value(ok, Print(j) + rest, depth) == if Fits(j, depth) then Some((j, rest)) else None
    decreases j, 0
  {
    match j
    case Array(items) => ReadsArray(ok, items, depth, rest);
    case Object(members) => ReadsObject(ok, members, depth, rest);
    case _ => ReadsSimple(ok, j, depth, rest);
  }

  lemma {:induction false} ReadsArray(ok: Readable, items: seq<Json>, depth: nat, rest: seq<Byte>)
    requires Numeric(ok, Array(items))
    ensures Value(ok, Print(Array(items)) + rest, depth)
         == if Fits(Array(items), depth) then Some((Array(items), rest)) else None
    decreases items, 1
  {
    var body := PrintItems(items) + [CLOSE_BRACKET] + rest;
    assert Print(Array(items)) + rest == [OPEN_BRACKET] + body;
    SkipsNothing(OPEN_BRACKET, body);
    if items == [] {
      assert body == [CLOSE_BRACKET] + rest;
      SkipsNothing(CLOSE_BRACKET, rest);
    } else {
      PrintStarts(ok, items[0]);
      assert body[0] == Print(items[0])[0];
      ReadsItems(ok, items, depth, [], rest);
      assert [] + items == items;
    }
  }

  lemma {:induction false} ReadsObject(ok: Readable, members: seq<Member>, depth: nat, rest: seq<Byte>)
    requires Numeric(ok, Object(members))
    ensures Value(ok, Print(Object(members)) + rest, depth)
         == if Fits(Object(members), depth) then Some((Object(members), rest)) else None
    decreases members, 2
  {
    var body := PrintMembers(members) + [CLOSE_BRACE] + rest;
    ObjectLayout(members, rest);
    SkipsNothing(OPEN_BRACE, body);
    if members == [] {
      SkipsNothing(CLOSE_BRACE, rest);
    } else {
      ReadsMembers(ok, members, depth, [], rest);
      assert [] + members == members;
    }
  }

  lemma {:induction false} ObjectLayout(members: seq<Member>, rest: seq<Byte>)
    ensures var body := PrintMembers(members) + [CLOSE_BRACE] + rest;
            && Print(Object(members)) + rest == [OPEN_BRACE] + body
            && (members == [] ==> body == [CLOSE_BRACE] + rest)
            && (members != [] ==> body[0] == QUOTE && Skip(body) == body)
  {
    if members != [] {
      assert PrintMembers(members)[0] == QUOTE;
    }
  }

  lemma {:induction false} DocumentRoundTrip(ok: Readable, j: Json)
    requires Numeric(ok, j)
    ensures Parse(ok, Print(j)) == if Fits(j, 0) then Some(j) else None
  {
    ReadsValue(ok, j, 0, []);
    assert Print(j) + [] == Print(j);
  }

  // ----- any accepted text -----

  /** A value the reader may return: within the nesting limit, no key twice, every number readable. */
  ghost predicate Admissible(ok: Readable, j: Json, depth: nat) {
    Fits(j, depth) && Numeric(ok, j)
  }

  ghost predicate AllAdmissible(ok: Readable, items: seq<Json>, depth: nat) {
    forall i :: 0 <= i < |items| ==> Admissible(ok, items[i], depth)
  }

  ghost predicate MembersAdmissible(ok: Readable, members: seq<Member>, depth: nat) {
    Distinct(members) && forall i :: 0 <= i < |members| ==> Admissible(ok, members[i].value, depth)
  }

  lemma {:induction false} NumberTaken(text: seq<Byte>)
    ensures NumberLength(text[..NumberLength(text)]) == NumberLength(text)
  {
    var n := NumberLength(text);
    if n > 0 {
      NumberTaken(text[1..]);
      assert text[..n][1..] == text[1..][..n - 1];
    }
  }

  lemma MemberJoins(ok: Readable, so: seq<Member>, m: Member, depth: nat)
    requires MembersAdmissible(ok, so, depth) && Admissible(ok, m.value, depth) && !HasKey(so, m.key)
    ensures MembersAdmissible(ok, so + [m], depth)
  {
  }

  /** Whatever text is accepted, the value read is within the nesting limit, repeats no key in an
      object and has only numbers that were converted. */
  lemma {:induction false} AcceptedFits(ok: Readable, text: seq<Byte>, depth: nat)
    ensures var r := Value(ok, text, depth);
            r.Some? ==> Admissible(ok, r.value.0, depth)
    decreases |text|, 2
  {
    var t := Skip(text);
    if depth <= MAX_DEPTH && t != [] {
      if t[0] == OPEN_BRACE {
        MembersFitting(ok, Skip(t[1..]), depth, []);
      } else if t[0] == OPEN_BRACKET {
        ItemsFitting(ok, Skip(t[1..]), depth, []);
      } else {
        NumberTaken(t);
      }
    }
  }

  lemma {:induction false} MembersFitting(ok: Readable, text: seq<Byte>, depth: nat, so: seq<Member>)
    requires depth <= MAX_DEPTH && MembersAdmissible(ok, so, depth + 1)
    ensures var r := Members(ok, text, depth, so);
            r.Some? ==> Admissible(ok, r.value.0, depth)
    decreases |text|, 1
  {
    var k := Str(text);
    if k.Some? {
      var t := Skip(k.value.1);
      if Starts(t, COLON) {
        AcceptedFits(ok, t[1..], depth + 1);
        var v := Value(ok, t[1..], depth + 1);
        if v.Some? && !HasKey(so, k.value.0) {
          var m := Member(k.value.0, v.value.0);
          MemberJoins(ok, so, m, depth + 1);
          MoreMembersFitting(ok, v.value.1, depth, so + [m]);
        }
      }
    }
  }

  lemma {:induction false} MoreMembersFitting(ok: Readable, text: seq<Byte>, depth: nat, so: seq<Member>)
    requires depth <= MAX_DEPTH && MembersAdmissible(ok, so, depth + 1)
    ensures var r := MoreMembers(ok, text, depth, so);
            r.Some? ==> Admissible(ok, r.value.0, depth)
    decreases |text|, 0
  {
    var u := Skip(text);
    if Starts(u, COMMA) {
      MembersFitting(ok, u[1..], depth, so);
    }
  }

  lemma {:induction false} ItemsFitting(ok: Readable, text: seq<Byte>, depth: nat, so: seq<Json>)
    requires depth <= MAX_DEPTH && AllAdmissible(ok, so, depth + 1)
    ensures var r := Items(ok, text, depth, so);
            r.Some? ==> Admissible(ok, r.value.0, depth)
    decreases |text|, 3
  {
    AcceptedFits(ok, text, depth + 1);
    var v := Value(ok, text, depth + 1);
    if v.Some? {
      MoreItemsFitting(ok, v.value.1, depth, so + [v.value.0]);
    }
  }

  lemma {:induction false} MoreItemsFitting(ok: Readable, text: seq<Byte>, depth: nat, so: seq<Json>)
    requires depth <= MAX_DEPTH && AllAdmissible(ok, so, depth + 1)
    ensures var r := MoreItems(ok, text, depth, so);
            r.Some? ==> Admissible(ok, r.value.0, depth)
    decreases |text|, 0
  {
    var u := Skip(text);
    if Starts(u, COMMA) {
      ItemsFitting(ok, u[1..], depth, so);
    }
  }

  /** Printing what was read from any accepted text, however it was spaced and escaped, gives a text
      that reads the same. */
  lemma {:induction false} AcceptedNormalizes(ok: Readable, text: seq<Byte>)
    ensures var j := Parse(ok, text);
            j.Some? ==> Fits(j.value, 0) && Parse(ok, Print(j.value)) == j
  {
    AcceptedFits(ok, text, 0);
    if Parse(ok, text).Some? {
      DocumentRoundTrip(ok, Parse(ok, text).value);
    }
  }
}
