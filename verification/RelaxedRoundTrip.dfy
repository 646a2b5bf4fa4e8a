/**
 The tolerant parser on RFC 8259 text: a printed value parses to what it denotes, in strict and in
 partial mode, whatever whitespace the text carries.
 */
module RelaxedRoundTrip {
  import opened Units
  import opened JsonGrammar
  import opened JsonLexer
  import opened JsonValue
  import opened RelaxedJson
  import R = JsonReading

  // ---------- whitespace ----------

  predicate IsDelimiter(u: Unit) {
    u == COMMA || u == RBRACE || u == RBRACKET || u == COLON
  }

  /** What may follow a value or key: the end, or whitespace and then the end or a delimiter. */
  predicate Bounded(rest: Text) {
    && (rest == [] || IsWhitespace(rest[0]) || IsDelimiter(rest[0]))
    && (SkipInsignificant(rest) == [] || IsDelimiter(SkipInsignificant(rest)[0]))
  }

  lemma {:induction false} SkipBlank(ws: Text, rest: Text)
    requires AllWhitespace(ws)
    ensures SkipInsignificant(ws + rest) == SkipInsignificant(rest)
  {
    if ws == [] {
      assert ws + rest == rest;
    } else {
      R.Split(ws, rest);
      SkipBlank(ws[1..], rest);
    }
  }

  lemma BlankThen(ws: Text, rest: Text)
    requires AllWhitespace(ws) && (rest != [] ==> !IsWhitespace(rest[0]) && rest[0] != SLASH)
    ensures SkipInsignificant(ws + rest) == rest
  {
    SkipBlank(ws, rest);
  }

  lemma BlankBounded(ws: Text, rest: Text)
    requires AllWhitespace(ws) && (rest != [] ==> IsDelimiter(rest[0]))
    ensures Bounded(ws + rest)
  {
    BlankThen(ws, rest);
    if ws == [] {
      assert ws + rest == rest;
    }
  }

  // ---------- strings ----------

  lemma EscapeRead(mode: LexMode, c: StrChar, rest: Text)
    requires StrCharOk(c) && !c.Raw?
    ensures ReadEscape(mode, PrintChar(c) + rest).units == [DecodeChar(c)]
    ensures ReadEscape(mode, PrintChar(c) + rest).size == |PrintChar(c)|
  {
    var t := PrintChar(c) + rest;
    if c.Hex? {
      assert t[2..] == [c.h0, c.h1, c.h2, c.h3] + rest;
    }
  }

  /** One character of the body; the rest of the token decides everything else. */
  lemma CharRead(mode: LexMode, c: StrChar, rest: Text)
    requires StrCharOk(c)
    ensures ReadString(mode, QUOTE, PrintChar(c) + rest).value == [DecodeChar(c)] + ReadString(mode, QUOTE, rest).value
    ensures ReadString(mode, QUOTE, PrintChar(c) + rest).complete == ReadString(mode, QUOTE, rest).complete
    ensures ReadString(mode, QUOTE, PrintChar(c) + rest).rest == ReadString(mode, QUOTE, rest).rest
  {
    var t := PrintChar(c) + rest;
    assert t[|PrintChar(c)|..] == rest;
    if !c.Raw? {
      EscapeRead(mode, c, rest);
    }
  }

  lemma {:induction false} BodyRead(mode: LexMode, chars: seq<StrChar>, rest: Text)
    requires StrOk(chars) && (mode == Streaming ==> Bounded(rest))
    ensures ReadString(mode, QUOTE, PrintChars(chars) + ([QUOTE] + rest)).complete
    ensures ReadString(mode, QUOTE, PrintChars(chars) + ([QUOTE] + rest)).value == DecodeChars(chars)
    ensures ReadString(mode, QUOTE, PrintChars(chars) + ([QUOTE] + rest)).rest == rest
  {
    var tail := [QUOTE] + rest;
    if chars == [] {
      assert PrintChars(chars) + tail == tail;
      assert tail[1..] == rest;
    } else {
      R.Regroup(PrintChar(chars[0]), PrintChars(chars[1..]), tail);
      CharRead(mode, chars[0], PrintChars(chars[1..]) + tail);
      BodyRead(mode, chars[1..], rest);
    }
  }

  lemma StringText(chars: seq<StrChar>, rest: Text)
    ensures PrintString(chars) + rest == [QUOTE] + (PrintChars(chars) + ([QUOTE] + rest))
    ensures (PrintString(chars) + rest)[0] == QUOTE
    ensures (PrintString(chars) + rest)[1..] == PrintChars(chars) + ([QUOTE] + rest)
  {
    R.Regroup([QUOTE] + PrintChars(chars), [QUOTE], rest);
    R.Regroup([QUOTE], PrintChars(chars), [QUOTE] + rest);
  }

  // ---------- atoms ----------

  lemma {:induction false} RunOf(token: Text, rest: Text)
    requires forall k :: 0 <= k < |token| ==> IsNumberChar(token[k])
    requires rest == [] || !IsNumberChar(rest[0])
    ensures NumberRun(token + rest) == |token|
  {
    if token == [] {
      assert token + rest == rest;
    } else {
      R.Split(token, rest);
      RunOf(token[1..], rest);
    }
  }

  lemma NumberChars(n: Number)
    requires NumberOk(n)
    ensures PrintNumber(n) != [] && IsNumberStart(PrintNumber(n)[0])
    ensures forall k :: 0 <= k < |PrintNumber(n)| ==> IsNumberChar(PrintNumber(n)[k])
  {
    var sign: Text := if n.minus then [MINUS] else [];
    var frac, exp := PrintFrac(n.frac), PrintExp(n.exp);
    assert forall k :: 0 <= k < |exp| ==> IsNumberChar(exp[k]);
    assert forall k :: 0 <= k < |frac| ==> IsNumberChar(frac[k]);
    assert forall k :: 0 <= k < |n.whole| ==> IsDigit(n.whole[k]);
    assert PrintNumber(n) == sign + n.whole + frac + exp;
    assert PrintNumber(n)[0] == if n.minus then MINUS else n.whole[0];
  }

  lemma NumberParsed(partial: bool, n: Number, rest: Text)
    requires NumberOk(n) && Bounded(rest)
    ensures ParseNumber(partial, PrintNumber(n) + rest)
         == if IsFinite(NumberValue(n)) then Got(JNumber(NumberValue(n)), rest)
            else if partial then Incomplete(rest) else Throws
  {
    var token := PrintNumber(n);
    NumberChars(n);
    RunOf(token, rest);
    assert (token + rest)[..|token|] == token && (token + rest)[|token|..] == rest;
    NumberTokenValue(n);
  }

  lemma WordParsed(w: Word, rest: Text)
    requires Bounded(rest)
    ensures ReadKeyword(PrintWord(w) + rest) == Some((w, |PrintWord(w)|))
    ensures (PrintWord(w) + rest)[|PrintWord(w)|..] == rest
    ensures !IsNumberStart((PrintWord(w) + rest)[0]) && (PrintWord(w) + rest)[0] == PrintWord(w)[0]
  {
    var t := PrintWord(w) + rest;
    assert PrintWord(w) <= t;
    assert WordAt(PrintWord(w), t);
    assert t[0] == PrintWord(w)[0];
    if w != True {
      assert !(TRUE_WORD <= t);
    }
    if w == Null {
      assert !(FALSE_WORD <= t);
    }
  }

  // ---------- values ----------

  /** A printed value parses to what it denotes; a number that is no finite double throws. */
  lemma {:induction false} ValueParsed(partial: bool, allowBareword: bool, v: Value, rest: Text)
    requires ValueOk(v) && Bounded(rest) && (partial ==> NumbersFinite(v))
    ensures ParseValue(partial, allowBareword, Print(v) + rest)
         == if NumbersFinite(v) then Got(Decode(v), rest) else Throws
    decreases v, 1
  {
    match v
    case Str(chars) =>
      StringParsed(partial, chars, rest);
    case Num(num) =>
      NumberChars(num);
      assert (Print(v) + rest)[0] == PrintNumber(num)[0];
      NumberParsed(partial, num, rest);
    case Lit(word) =>
      WordParsed(word, rest);
    case _ =>
      ContainerParsed(partial, allowBareword, v, rest);
  }

  lemma {:induction false} ContainerParsed(partial: bool, allowBareword: bool, v: Value, rest: Text)
    requires v.Array? || v.Object? || v.EmptyArray? || v.EmptyObject?
    requires ValueOk(v) && Bounded(rest) && (partial ==> NumbersFinite(v))
    ensures ParseValue(partial, allowBareword, Print(v) + rest)
         == if NumbersFinite(v) then Got(Decode(v), rest) else Throws
    decreases v, 0
  {
    hide ParseElements, ParseMembers, PrintElements, PrintMembers;
    match v
    case EmptyArray(blank) =>
      EmptyParsed(partial, false, blank, rest);
    case Array(elements) =>
      R.Regroup([LBRACKET], PrintElements(elements), rest);
      R.One(LBRACKET, PrintElements(elements) + rest);
      ElementsParsed(partial, [], elements, rest);
    case EmptyObject(blank) =>
      EmptyParsed(partial, true, blank, rest);
    case Object(members) =>
      R.Regroup([LBRACE], PrintMembers(members), rest);
      R.One(LBRACE, PrintMembers(members) + rest);
      MembersParsed(partial, [], members, rest);
  }

  lemma EmptyParsed(partial: bool, isObject: bool, blank: Text, rest: Text)
    requires AllWhitespace(blank)
    ensures var t := [if isObject then LBRACE else LBRACKET] + blank + [if isObject then RBRACE else RBRACKET] + rest;
      && t[0] == (if isObject then LBRACE else LBRACKET)
      && (if isObject then ParseMembers(partial, [], t[1..]) else ParseElements(partial, [], t[1..]))
         == Got(if isObject then JObject([]) else JArray([]), rest)
  {
    var open := if isObject then LBRACE else LBRACKET;
    var close := if isObject then RBRACE else RBRACKET;
    R.Assoc([open], blank, [close], rest);
    R.One(open, blank + ([close] + rest));
    BlankThen(blank, [close] + rest);
    R.One(close, rest);
  }

  lemma StringParsed(partial: bool, chars: seq<StrChar>, rest: Text)
    requires StrOk(chars) && Bounded(rest)
    ensures (PrintString(chars) + rest)[0] == QUOTE
    ensures ParseString(partial, QUOTE, (PrintString(chars) + rest)[1..]) == Got(JString(DecodeChars(chars)), rest)
  {
    StringText(chars, rest);
    BodyRead(Mode(partial), chars, rest);
  }

  lemma ValueStart(v: Value, rest: Text)
    requires ValueOk(v)
    ensures var t := Print(v) + rest;
      && Print(v) != [] && t[0] == Print(v)[0]
      && !IsWhitespace(t[0]) && t[0] != SLASH && !IsDelimiter(t[0])
  {
    if v.Num? {
      NumberChars(v.num);
    }
    assert Print(v) != [];
  }

  lemma {:induction false} ElementsParsed(partial: bool, out: seq<Json>, es: Elements, rest: Text)
    requires ElementsOk(es) && (partial ==> ElementsFinite(es))
    ensures ParseElements(partial, out, PrintElements(es) + rest)
         == if ElementsFinite(es) then Got(JArray(DecodeElements(out, es)), rest) else Throws
    decreases es, 0
  {
    var close := R.ElementTail(es, rest);
    R.ElementText(es, rest);
    ValueStart(es.value, es.post + close);
    BlankThen(es.pre, Print(es.value) + (es.post + close));
    BlankBounded(es.post, close);
    ValueParsed(partial, true, es.value, es.post + close);
    BlankThen(es.post, close);
    if es.MoreElements? {
      R.One(COMMA, PrintElements(es.rest) + rest);
      if NumbersFinite(es.value) {
        ElementsParsed(partial, out + [Decode(es.value)], es.rest, rest);
      }
    } else {
      R.One(RBRACKET, rest);
    }
  }

  lemma {:induction false} MembersParsed(partial: bool, out: seq<(Text, Json)>, ms: Members, rest: Text)
    requires MembersOk(ms) && (partial ==> MembersFinite(ms))
    ensures ParseMembers(partial, out, PrintMembers(ms) + rest)
         == if MembersFinite(ms) then Got(JObject(DecodeMembers(out, ms)), rest) else Throws
    decreases ms, 0
  {
    var close := R.MemberTail(ms, rest);
    var colon := ms.beforeColon + ([COLON] + (ms.afterColon + (Print(ms.value) + (ms.post + close))));
    MemberPieces(ms, rest);
    BlankBounded(ms.beforeColon, [COLON] + (ms.afterColon + (Print(ms.value) + (ms.post + close))));
    KeyParsed(partial, ms, colon);
    BlankThen(ms.beforeColon, [COLON] + (ms.afterColon + (Print(ms.value) + (ms.post + close))));
    R.One(COLON, ms.afterColon + (Print(ms.value) + (ms.post + close)));
    MemberParsed(partial, out, ms, rest);
  }

  lemma MemberPieces(ms: Members, rest: Text)
    ensures PrintMembers(ms) + rest == ms.pre + (PrintString(ms.key) +
      (ms.beforeColon + ([COLON] + (ms.afterColon + (Print(ms.value) + (ms.post + R.MemberTail(ms, rest)))))))
  {
    var colon := ms.beforeColon + ([COLON] + (ms.afterColon + (Print(ms.value) + (ms.post + R.MemberTail(ms, rest)))));
    R.MemberText(ms, rest);
    StringText(ms.key, colon);
    R.Regroup(PrintChars(ms.key), [QUOTE], colon);
  }

  lemma KeyParsed(partial: bool, ms: Members, colon: Text)
    requires MembersOk(ms) && Bounded(colon)
    ensures var t := ms.pre + (PrintString(ms.key) + colon);
      && SkipInsignificant(t) == PrintString(ms.key) + colon
      && (PrintString(ms.key) + colon)[0] == QUOTE
      && ParseKey(partial, PrintString(ms.key) + colon) == Some((DecodeChars(ms.key), colon))
  {
    StringText(ms.key, colon);
    BlankThen(ms.pre, PrintString(ms.key) + colon);
    BodyRead(Mode(partial), ms.key, colon);
  }

  lemma {:induction false} MemberParsed(partial: bool, out: seq<(Text, Json)>, ms: Members, rest: Text)
    requires MembersOk(ms) && (partial ==> MembersFinite(ms))
    ensures ParseMember(partial, out, DecodeChars(ms.key), ms.afterColon + (Print(ms.value) + (ms.post + R.MemberTail(ms, rest))))
         == if MembersFinite(ms) then Got(JObject(DecodeMembers(out, ms)), rest) else Throws
    decreases ms, 0, 0
  {
    var close := R.MemberTail(ms, rest);
    ValueStart(ms.value, ms.post + close);
    BlankThen(ms.afterColon, Print(ms.value) + (ms.post + close));
    BlankBounded(ms.post, close);
    ValueParsed(partial, true, ms.value, ms.post + close);
    BlankThen(ms.post, close);
    if ms.MoreMembers? {
      R.One(COMMA, PrintMembers(ms.rest) + rest);
      if NumbersFinite(ms.value) {
        MembersParsed(partial, Assign(out, DecodeChars(ms.key), Decode(ms.value)), ms.rest, rest);
      }
    } else {
      R.One(RBRACE, rest);
    }
  }

  /**
   The strict parser extends RFC 8259: it reads every JSON text to what the text denotes, and throws
   exactly when one of its numbers is no finite double.
   */
  lemma StrictRoundTrip(pre: Text, v: Value, post: Text)
    requires AllWhitespace(pre) && ValueOk(v) && AllWhitespace(post)
    ensures Parse(false, pre + Print(v) + post) == if NumbersFinite(v) then Got(Decode(v), []) else Throws
  {
    TextParsed(false, pre, v, post);
  }

  lemma TextParsed(partial: bool, pre: Text, v: Value, post: Text)
    requires AllWhitespace(pre) && ValueOk(v) && AllWhitespace(post) && (partial ==> NumbersFinite(v))
    ensures Parse(partial, pre + Print(v) + post) == if NumbersFinite(v) then Got(Decode(v), []) else Throws
  {
    R.Regroup(pre, Print(v), post);
    ValueStart(v, post);
    BlankThen(pre, Print(v) + post);
    assert post + [] == post;
    BlankBounded(post, []);
    ValueParsed(partial, false, v, post);
    BlankThen(post, []);
  }
}
