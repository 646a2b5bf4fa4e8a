/**
 `JSON.parse`: the value of a JSON text, in which a number beyond the range of a double is an infinity.
 The grammar is unambiguous, so this is a function of the text.
 */
module JsonParse {
  import opened Units
  import opened JsonGrammar
  import opened JsonLexer
  import opened JsonValue
  import opened RelaxedRoundTrip
  import R = JsonReading
  import F = IncomingFinal

  // ---------- what a tree denotes ----------

  function JsNumeric(n: Number): Json
    requires NumberOk(n)
  {
    if IsFinite(NumberValue(n)) then JNumber(NumberValue(n)) else JInfinity(n.minus)
  }

  function JsDecode(v: Value): Json
    requires ValueOk(v)
  {
    match v
    case Str(chars) => JString(DecodeChars(chars))
    case Num(num) => JsNumeric(num)
    case Lit(word) => WordValue(word)
    case EmptyArray(_) => JArray([])
    case Array(elements) => JArray(JsElements([], elements))
    case EmptyObject(_) => JObject([])
    case Object(members) => JObject(JsMembers([], members))
  }

  function JsElements(out: seq<Json>, es: Elements): seq<Json>
    requires ElementsOk(es)
    decreases es
  {
    var next := out + [JsDecode(es.value)];
    if es.MoreElements? then JsElements(next, es.rest) else next
  }

  function JsMembers(out: seq<(Text, Json)>, ms: Members): seq<(Text, Json)>
    requires MembersOk(ms)
    decreases ms
  {
    var next := Assign(out, DecodeChars(ms.key), JsDecode(ms.value));
    if ms.MoreMembers? then JsMembers(next, ms.rest) else next
  }

  /** Without overflow the two readings of a tree agree. */
  lemma {:induction false} FiniteDecode(v: Value)
    requires ValueOk(v) && NumbersFinite(v)
    ensures JsDecode(v) == Decode(v)
    decreases v
  {
    match v
    case Array(elements) => FiniteElements([], elements);
    case Object(members) => FiniteMembers([], members);
    case _ =>
  }

  lemma {:induction false} FiniteElements(out: seq<Json>, es: Elements)
    requires ElementsOk(es) && ElementsFinite(es)
    ensures JsElements(out, es) == DecodeElements(out, es)
    decreases es
  {
    FiniteDecode(es.value);
    if es.MoreElements? {
      FiniteElements(out + [Decode(es.value)], es.rest);
    }
  }

  lemma {:induction false} FiniteMembers(out: seq<(Text, Json)>, ms: Members)
    requires MembersOk(ms) && MembersFinite(ms)
    ensures JsMembers(out, ms) == DecodeMembers(out, ms)
    decreases ms
  {
    FiniteDecode(ms.value);
    if ms.MoreMembers? {
      FiniteMembers(Assign(out, DecodeChars(ms.key), Decode(ms.value)), ms.rest);
    }
  }

  // ---------- the grammar is unambiguous ----------

  /** An open-ended token needs a boundary after it. */
  predicate Ended(v: Value, rest: Text) {
    v.Num? || v.Lit? ==> Bounded(rest)
  }

  predicate Alike(v: Value, w: Value)
    requires ValueOk(v) && ValueOk(w)
  {
    JsDecode(v) == JsDecode(w) && (NumbersFinite(v) <==> NumbersFinite(w))
  }

  lemma SameString(a: seq<StrChar>, b: seq<StrChar>, rest: Text, rest2: Text)
    requires StrOk(a) && StrOk(b) && PrintString(a) + rest == PrintString(b) + rest2
    ensures DecodeChars(a) == DecodeChars(b) && rest == rest2
  {
    StringText(a, rest);
    StringText(b, rest2);
    BodyRead(Strict, a, rest);
    BodyRead(Strict, b, rest2);
  }

  lemma TokenSplit(token: Text, rest: Text)
    ensures (token + rest)[..|token|] == token && (token + rest)[|token|..] == rest
  {
  }

  lemma SameNumber(m: Number, n: Number, rest: Text, rest2: Text)
    requires NumberOk(m) && NumberOk(n) && Bounded(rest) && Bounded(rest2)
    requires PrintNumber(m) + rest == PrintNumber(n) + rest2
    ensures NumeralOf(m) == NumeralOf(n) && rest == rest2
  {
    NumberChars(m);
    NumberChars(n);
    RunOf(PrintNumber(m), rest);
    RunOf(PrintNumber(n), rest2);
    TokenSplit(PrintNumber(m), rest);
    TokenSplit(PrintNumber(n), rest2);
    NumeralRead(m);
    NumeralRead(n);
  }

  lemma SameWord(a: Word, b: Word, rest: Text, rest2: Text)
    requires Bounded(rest) && Bounded(rest2) && PrintWord(a) + rest == PrintWord(b) + rest2
    ensures a == b && rest == rest2
  {
    WordParsed(a, rest);
    WordParsed(b, rest2);
  }

  /** What kind of value begins with a unit. */
  datatype Head = StringHead | NumberHead | WordHead | ArrayHead | ObjectHead

  function HeadOf(v: Value): Head {
    match v
    case Str(_) => StringHead
    case Num(_) => NumberHead
    case Lit(_) => WordHead
    case EmptyArray(_) => ArrayHead
    case Array(_) => ArrayHead
    case EmptyObject(_) => ObjectHead
    case Object(_) => ObjectHead
  }

  function HeadAt(u: Unit): Head {
    if u == QUOTE then StringHead
    else if u == LBRACKET then ArrayHead
    else if u == LBRACE then ObjectHead
    else if IsNumberStart(u) then NumberHead
    else WordHead
  }

  lemma HeadIsFirst(v: Value, rest: Text)
    requires ValueOk(v)
    ensures Print(v) + rest != [] && HeadAt((Print(v) + rest)[0]) == HeadOf(v)
  {
    ValueStart(v, rest);
    if v.Num? {
      NumberChars(v.num);
    }
  }

  /** What follows the opening bracket of an array or object. */
  lemma Inside(v: Value, rest: Text)
    requires ValueOk(v) && (HeadOf(v) == ArrayHead || HeadOf(v) == ObjectHead)
    ensures var t, close := Print(v) + rest, if HeadOf(v) == ArrayHead then RBRACKET else RBRACE;
      && t != []
      && (v.EmptyArray? || v.EmptyObject? ==> SkipInsignificant(t[1..]) == [close] + rest)
      && (v.Array? ==> t[1..] == PrintElements(v.elements) + rest)
      && (v.Object? ==> t[1..] == PrintMembers(v.members) + rest)
      && (v.Array? || v.Object? ==> SkipInsignificant(t[1..]) != [] && SkipInsignificant(t[1..])[0] != close)
  {
    match v
    case EmptyArray(blank) => F.EmptyScanned(false, blank, rest, false, 0);
    case EmptyObject(blank) => F.EmptyScanned(true, blank, rest, false, 0);
    case Array(elements) =>
      R.Regroup([LBRACKET], PrintElements(elements), rest);
      R.One(LBRACKET, PrintElements(elements) + rest);
      F.ElementStart(elements, rest);
    case Object(members) =>
      R.Regroup([LBRACE], PrintMembers(members), rest);
      R.One(LBRACE, PrintMembers(members) + rest);
      FirstKey(members, rest);
  }

  lemma FirstKey(ms: Members, rest: Text)
    requires MembersOk(ms)
    ensures var t := SkipInsignificant(PrintMembers(ms) + rest); t != [] && t[0] == QUOTE
  {
    var close := R.MemberTail(ms, rest);
    var colon := ms.beforeColon + ([COLON] + (ms.afterColon + (Print(ms.value) + (ms.post + close))));
    MemberPieces(ms, rest);
    StringText(ms.key, colon);
    BlankThen(ms.pre, PrintString(ms.key) + colon);
  }

  /** Two readings of a text as a value and the rest denote the same and leave the same. */
  lemma {:induction false} SameValue(v: Value, w: Value, rest: Text, rest2: Text)
    requires ValueOk(v) && ValueOk(w) && Ended(v, rest) && Ended(w, rest2) && Print(v) + rest == Print(w) + rest2
    ensures Alike(v, w) && rest == rest2
    decreases v, 1
  {
    HeadIsFirst(v, rest);
    HeadIsFirst(w, rest2);
    if v.Str? {
      SameString(v.chars, w.chars, rest, rest2);
    } else if v.Num? {
      SameNumber(v.num, w.num, rest, rest2);
    } else if v.Lit? {
      SameWord(v.word, w.word, rest, rest2);
    } else {
      SameContainer(v, w, rest, rest2);
    }
  }

  lemma {:induction false} SameContainer(v: Value, w: Value, rest: Text, rest2: Text)
    requires ValueOk(v) && ValueOk(w) && HeadOf(v) == HeadOf(w) && (HeadOf(v) == ArrayHead || HeadOf(v) == ObjectHead)
    requires Print(v) + rest == Print(w) + rest2
    ensures Alike(v, w) && rest == rest2
    decreases v, 0
  {
    Inside(v, rest);
    Inside(w, rest2);
    if v.Array? {
      SameElements([], v.elements, w.elements, rest, rest2);
    } else if v.Object? {
      SameMembers([], v.members, w.members, rest, rest2);
    } else {
      var close := if HeadOf(v) == ArrayHead then RBRACKET else RBRACE;
      R.One(close, rest);
      R.One(close, rest2);
    }
  }

  lemma {:induction false} SameElements(out: seq<Json>, es: Elements, fs: Elements, rest: Text, rest2: Text)
    requires ElementsOk(es) && ElementsOk(fs) && PrintElements(es) + rest == PrintElements(fs) + rest2
    ensures JsElements(out, es) == JsElements(out, fs) && (ElementsFinite(es) <==> ElementsFinite(fs)) && rest == rest2
    decreases es, 0
  {
    var close, close2 := R.ElementTail(es, rest), R.ElementTail(fs, rest2);
    F.ElementStart(es, rest);
    F.ElementStart(fs, rest2);
    SameValue(es.value, fs.value, es.post + close, fs.post + close2);
    BlankThen(es.post, close);
    BlankThen(fs.post, close2);
    if es.MoreElements? {
      R.One(COMMA, PrintElements(es.rest) + rest);
      R.One(COMMA, PrintElements(fs.rest) + rest2);
      SameElements(out + [JsDecode(es.value)], es.rest, fs.rest, rest, rest2);
    } else {
      R.One(RBRACKET, rest);
      R.One(RBRACKET, rest2);
    }
  }

  lemma {:induction false} SameMembers(out: seq<(Text, Json)>, ms: Members, ns: Members, rest: Text, rest2: Text)
    requires MembersOk(ms) && MembersOk(ns) && PrintMembers(ms) + rest == PrintMembers(ns) + rest2
    ensures JsMembers(out, ms) == JsMembers(out, ns) && (MembersFinite(ms) <==> MembersFinite(ns)) && rest == rest2
    decreases ms, 0
  {
    var close, close2 := R.MemberTail(ms, rest), R.MemberTail(ns, rest2);
    F.MemberStart(ms, rest);
    F.MemberStart(ns, rest2);
    SameValue(ms.value, ns.value, ms.post + close, ns.post + close2);
    BlankThen(ms.post, close);
    BlankThen(ns.post, close2);
    if ms.MoreMembers? {
      R.One(COMMA, PrintMembers(ms.rest) + rest);
      R.One(COMMA, PrintMembers(ns.rest) + rest2);
      SameMembers(Assign(out, DecodeChars(ms.key), JsDecode(ms.value)), ms.rest, ns.rest, rest, rest2);
    } else {
      R.One(RBRACE, rest);
      R.One(RBRACE, rest2);
    }
  }

  /** The grammar is unambiguous: two derivations of a text denote the same. */
  lemma SameText(pre: Text, v: Value, post: Text, pre2: Text, w: Value, post2: Text)
    requires AllWhitespace(pre) && ValueOk(v) && AllWhitespace(post)
    requires AllWhitespace(pre2) && ValueOk(w) && AllWhitespace(post2)
    requires pre + Print(v) + post == pre2 + Print(w) + post2
    ensures Alike(v, w)
  {
    R.Regroup(pre, Print(v), post);
    R.Regroup(pre2, Print(w), post2);
    ValueStart(v, post);
    ValueStart(w, post2);
    BlankThen(pre, Print(v) + post);
    BlankThen(pre2, Print(w) + post2);
    assert post + [] == post && post2 + [] == post2;
    BlankBounded(post, []);
    BlankBounded(post2, []);
    SameValue(v, w, post, post2);
  }
}
