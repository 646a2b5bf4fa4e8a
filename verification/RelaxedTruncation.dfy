/**
 The tolerant parser on RFC 8259 text cut short: strict mode rejects it, partial mode yields a value
 that approximates the final one.
 */
module RelaxedTruncation {
  import opened Units
  import opened JsonGrammar
  import opened JsonLexer
  import opened JsonValue
  import opened RelaxedJson
  import opened RelaxedRoundTrip
  import R = JsonReading

  // ---------- approximation ----------

  /** What a cut escape shows of itself. */
  predicate CutEscape(tail: Text) {
    tail == [] || tail == [BACKSLASH]
    || (2 <= |tail| <= 5 && tail[0] == BACKSLASH && tail[1] == LOWER_U
        && forall k :: 2 <= k < |tail| ==> IsHexDigit(tail[k]))
  }

  /** p is a leading part of s, possibly followed by a cut escape. */
  predicate CutOf(p: Text, s: Text) {
    CutEscape(p) || (p != [] && s != [] && p[0] == s[0] && CutOf(p[1..], s[1..]))
  }

  /**
   p has only leading members or elements of v; all but its last are final, and the last one
   approximates in turn. A number leaf may be read from part of its token, a string leaf cut.
   */
  predicate Approximates(p: Json, v: Value)
    requires ValueOk(v)
    decreases v, 1
  {
    match v
    case Str(chars) => p.JString? && (p.s == DecodeChars(chars) || CutOf(p.s, DecodeChars(chars)))
    case Num(num) => p.JNumber? && exists k :: 0 < k <= |PrintNumber(num)| && JsNumber(PrintNumber(num)[..k]) == Some(p.r)
    case Lit(word) => p == WordValue(word)
    case EmptyArray(_) => p == JArray([])
    case Array(elements) => p.JArray? && LeadingElements(p.items, elements)
    case EmptyObject(_) => p == JObject([])
    case Object(members) => p.JObject? && LeadingMembers(p.members, members)
  }

  predicate LeadingElements(items: seq<Json>, es: Elements)
    requires ElementsOk(es)
    decreases es, 0
  {
    items == []
    || (|items| == 1 && Approximates(items[0], es.value))
    || (|items| > 1 && es.MoreElements? && items[0] == Decode(es.value) && LeadingElements(items[1..], es.rest))
  }

  predicate LeadingMembers(items: seq<(Text, Json)>, ms: Members)
    requires MembersOk(ms)
    decreases ms, 0
  {
    items == []
    || (|items| == 1 && items[0].0 == DecodeChars(ms.key) && Approximates(items[0].1, ms.value))
    || (|items| > 1 && ms.MoreMembers? && items[0] == (DecodeChars(ms.key), Decode(ms.value))
        && LeadingMembers(items[1..], ms.rest))
  }

  // ---------- no duplicate keys ----------

  predicate KeyIn(key: Text, ms: Members)
    requires MembersOk(ms)
  {
    key == DecodeChars(ms.key) || (ms.MoreMembers? && KeyIn(key, ms.rest))
  }

  predicate DistinctKeys(v: Value)
    requires ValueOk(v)
  {
    match v
    case Array(elements) => ElementsDistinct(elements)
    case Object(members) => MembersDistinct(members)
    case _ => true
  }

  predicate ElementsDistinct(es: Elements)
    requires ElementsOk(es)
  {
    DistinctKeys(es.value) && (es.MoreElements? ==> ElementsDistinct(es.rest))
  }

  predicate MembersDistinct(ms: Members)
    requires MembersOk(ms)
  {
    DistinctKeys(ms.value)
    && (ms.MoreMembers? ==> !KeyIn(DecodeChars(ms.key), ms.rest) && MembersDistinct(ms.rest))
  }

  // ---------- cutting a concatenation ----------

  /** A proper prefix of a + b is a proper prefix of a, or a and then a proper prefix of b. */
  lemma CutSplit(t: Text, a: Text, b: Text) returns (tail: Text)
    requires t < a + b
    ensures if |t| < |a| then t < a else t == a + tail && tail < b
  {
    if |t| < |a| {
      tail := [];
      assert t == (a + b)[..|t|] == a[..|t|];
    } else {
      tail := t[|a|..];
      assert t == (a + b)[..|t|];
      assert t[..|a|] == a;
      assert tail == b[..|tail|];
    }
  }

  lemma BlankCut(t: Text, ws: Text)
    requires t < ws && AllWhitespace(ws)
    ensures SkipInsignificant(t) == []
  {
    assert AllWhitespace(t);
    SkipBlank(t, []);
    assert t + [] == t;
  }

  // ---------- strings ----------

  lemma {:induction false} HexTail(mode: LexMode, t: Text)
    requires forall k :: 0 <= k < |t| ==> IsHexDigit(t[k])
    ensures !ReadString(mode, QUOTE, t).complete && ReadString(mode, QUOTE, t).value == t
    decreases |t|
  {
    if t != [] {
      assert IsHexDigit(t[0]);
      HexTail(mode, t[1..]);
      assert t == [t[0]] + t[1..];
    }
  }

  lemma CharCut(mode: LexMode, t: Text, c: StrChar)
    requires StrCharOk(c) && t < PrintChar(c)
    ensures !ReadString(mode, QUOTE, t).complete && CutEscape(ReadString(mode, QUOTE, t).value)
  {
    if t != [] {
      assert !c.Raw?;
      assert t[0] == BACKSLASH;
      if |t| == 1 {
        assert t[1..] == [];
      } else {
        assert c.Hex? && t[1] == LOWER_U;
        assert !FourHex(t[2..]);
        HexTail(mode, t[2..]);
      }
    }
  }

  /** A cut body stays open, and shows a leading part of the string. */
  lemma {:induction false} BodyCut(mode: LexMode, t: Text, chars: seq<StrChar>)
    requires StrOk(chars) && t < PrintChars(chars) + [QUOTE]
    ensures !ReadString(mode, QUOTE, t).complete
    ensures CutOf(ReadString(mode, QUOTE, t).value, DecodeChars(chars))
    decreases |chars|
  {
    if chars == [] {
      assert PrintChars(chars) + [QUOTE] == [QUOTE];
      assert t == [];
    } else {
      R.Regroup(PrintChar(chars[0]), PrintChars(chars[1..]), [QUOTE]);
      var tail := CutSplit(t, PrintChar(chars[0]), PrintChars(chars[1..]) + [QUOTE]);
      if |t| < |PrintChar(chars[0])| {
        CharCut(mode, t, chars[0]);
      } else {
        CharRead(mode, chars[0], tail);
        BodyCut(mode, tail, chars[1..]);
        var s := DecodeChars(chars);
        var p := ReadString(mode, QUOTE, t).value;
        assert s[1..] == DecodeChars(chars[1..]);
        assert p[1..] == ReadString(mode, QUOTE, tail).value;
      }
    }
  }

  /** A cut string token: an opening quote and a cut body. */
  lemma StringCut(mode: LexMode, t: Text, chars: seq<StrChar>)
    requires StrOk(chars) && t != [] && t < PrintString(chars)
    ensures t[0] == QUOTE && !ReadString(mode, QUOTE, t[1..]).complete
    ensures CutOf(ReadString(mode, QUOTE, t[1..]).value, DecodeChars(chars))
  {
    R.Regroup([QUOTE], PrintChars(chars), [QUOTE]);
    var tail := CutSplit(t, [QUOTE], PrintChars(chars) + [QUOTE]);
    assert t[1..] == tail;
    BodyCut(mode, tail, chars);
  }

  // ---------- atoms ----------

  lemma NumberCut(partial: bool, t: Text, n: Number)
    requires NumberOk(n) && t != [] && t < PrintNumber(n)
    ensures IsNumberStart(t[0])
    ensures var o := ParseNumber(partial, t);
      match o
      case Throws => !partial
      case Incomplete(rest) => partial && rest == []
      case Got(value, rest) => rest == [] && Approximates(value, Num(n))
  {
    NumberChars(n);
    assert t[0] == PrintNumber(n)[0];
    RunOf(t, []);
    assert t + [] == t && t[..|t|] == t;
    assert t == PrintNumber(n)[..|t|];
  }

  /** A bareword needs a delimiter: text without one yields none. */
  lemma {:induction false} NoBareword(t: Text)
    requires forall k :: 0 <= k < |t| ==> !EndsBareword(t[k])
    ensures ReadBareword(t).None?
    decreases |t|
  {
    NoBarewordRun(t);
  }

  lemma {:induction false} NoBarewordRun(t: Text)
    requires forall k :: 0 <= k < |t| ==> !EndsBareword(t[k])
    ensures BarewordRun(t).None?
    decreases |t|
  {
    if t != [] {
      NoBarewordRun(t[1..]);
    }
  }

  lemma NotAt(word: Text, t: Text)
    requires word != [] && t != [] && (word[0] != t[0] || |t| < |word|)
    ensures !(word <= t)
  {
  }

  lemma WordCut(t: Text, w: Word)
    requires t != [] && t < PrintWord(w)
    ensures ReadKeyword(t).None? && ReadBareword(t).None?
    ensures !IsNumberStart(t[0]) && t[0] == PrintWord(w)[0]
  {
    assert t[0] == PrintWord(w)[0];
    NotAt(TRUE_WORD, t);
    NotAt(FALSE_WORD, t);
    NotAt(NULL_WORD, t);
    NotAt(TRUE_PYTHON, t);
    NotAt(FALSE_PYTHON, t);
    NotAt(NONE_PYTHON, t);
    assert forall k :: 0 <= k < |t| ==> t[k] == PrintWord(w)[k];
    NoBareword(t);
  }

  // ---------- a complete value approximates itself ----------

  function ElementItems(es: Elements): seq<Json>
    requires ElementsOk(es)
  {
    [Decode(es.value)] + (if es.MoreElements? then ElementItems(es.rest) else [])
  }

  lemma {:induction false} DecodeElementsAppends(out: seq<Json>, es: Elements)
    requires ElementsOk(es)
    ensures DecodeElements(out, es) == out + ElementItems(es)
    decreases es
  {
    if es.MoreElements? {
      DecodeElementsAppends(out + [Decode(es.value)], es.rest);
    }
  }

  function MemberItems(ms: Members): seq<(Text, Json)>
    requires MembersOk(ms)
  {
    [(DecodeChars(ms.key), Decode(ms.value))] + (if ms.MoreMembers? then MemberItems(ms.rest) else [])
  }

  /** No key of `out` is used again by ms. */
  predicate Fresh(out: seq<(Text, Json)>, ms: Members)
    requires MembersOk(ms)
  {
    forall k :: 0 <= k < |out| ==> !KeyIn(out[k].0, ms)
  }

  lemma FreshNext(out: seq<(Text, Json)>, ms: Members, value: Json)
    requires MembersOk(ms) && Fresh(out, ms) && MembersDistinct(ms)
    ensures Assign(out, DecodeChars(ms.key), value) == out + [(DecodeChars(ms.key), value)]
    ensures ms.MoreMembers? ==> Fresh(out + [(DecodeChars(ms.key), value)], ms.rest)
  {
    AssignFresh(out, DecodeChars(ms.key), value);
  }

  lemma {:induction false} DecodeMembersAppends(out: seq<(Text, Json)>, ms: Members)
    requires MembersOk(ms) && Fresh(out, ms) && MembersDistinct(ms)
    ensures DecodeMembers(out, ms) == out + MemberItems(ms)
    decreases ms
  {
    FreshNext(out, ms, Decode(ms.value));
    var item := (DecodeChars(ms.key), Decode(ms.value));
    if ms.MoreMembers? {
      DecodeMembersAppends(out + [item], ms.rest);
      assert out + [item] + MemberItems(ms.rest) == out + MemberItems(ms);
    }
  }

  lemma {:induction false} FinalApproximates(v: Value)
    requires ValueOk(v) && NumbersFinite(v) && DistinctKeys(v)
    ensures Approximates(Decode(v), v)
    decreases v, 1
  {
    match v
    case Num(num) =>
      NumberTokenValue(num);
      NumberChars(num);
      assert PrintNumber(num)[..|PrintNumber(num)|] == PrintNumber(num);
    case Array(elements) =>
      DecodeElementsAppends([], elements);
      FinalElements(elements);
      assert [] + ElementItems(elements) == ElementItems(elements);
    case Object(members) =>
      DecodeMembersAppends([], members);
      FinalMembers(members);
      assert [] + MemberItems(members) == MemberItems(members);
    case _ =>
  }

  lemma {:induction false} FinalElements(es: Elements)
    requires ElementsOk(es) && ElementsFinite(es) && ElementsDistinct(es)
    ensures LeadingElements(ElementItems(es), es)
    decreases es, 0
  {
    FinalApproximates(es.value);
    if es.MoreElements? {
      FinalElements(es.rest);
      assert ElementItems(es)[1..] == ElementItems(es.rest);
    }
  }

  lemma {:induction false} FinalMembers(ms: Members)
    requires MembersOk(ms) && MembersFinite(ms) && MembersDistinct(ms)
    ensures LeadingMembers(MemberItems(ms), ms)
    decreases ms, 0
  {
    FinalApproximates(ms.value);
    if ms.MoreMembers? {
      FinalMembers(ms.rest);
      assert MemberItems(ms)[1..] == MemberItems(ms.rest);
    }
  }

  // ---------- cut values ----------

  predicate Clean(partial: bool, v: Value)
    requires ValueOk(v)
  {
    partial ==> NumbersFinite(v) && DistinctKeys(v)
  }

  /** What reading a cut value gives: nothing usable in strict mode, an approximation in partial mode. */
  predicate CutOutcome(partial: bool, o: Outcome, v: Value)
    requires ValueOk(v)
  {
    match o
    case Throws => !partial
    case Incomplete(rest) => partial && rest == []
    case Got(p, rest) => rest == [] && Approximates(p, v) && (partial || v.Num?)
  }

  lemma StringValueCut(partial: bool, t: Text, chars: seq<StrChar>)
    requires StrOk(chars) && t != [] && t < PrintString(chars)
    ensures t[0] == QUOTE && CutOutcome(partial, ParseString(partial, QUOTE, t[1..]), Str(chars))
  {
    StringCut(Mode(partial), t, chars);
  }

  lemma {:induction false} ValueCut(partial: bool, allowBareword: bool, t: Text, v: Value)
    requires ValueOk(v) && Clean(partial, v) && t != [] && t < Print(v)
    ensures CutOutcome(partial, ParseValue(partial, allowBareword, t), v)
    decreases v, 2
  {
    assert t[0] == Print(v)[0];
    match v
    case Str(chars) => StringValueCut(partial, t, chars);
    case Num(num) => NumberCut(partial, t, num);
    case Lit(word) => WordCut(t, word);
    case EmptyArray(blank) =>
      EmptyCut(partial, t, LBRACKET, blank, RBRACKET);
      PassEmpty(partial, [], [], [], t[1..]);
    case Array(elements) =>
      ArrayCut(partial, t, elements);
    case EmptyObject(blank) =>
      EmptyCut(partial, t, LBRACE, blank, RBRACE);
    case Object(members) =>
      ObjectCut(partial, t, members);
  }

  lemma {:induction false} ArrayCut(partial: bool, t: Text, es: Elements)
    requires ElementsOk(es) && Clean(partial, Array(es)) && t != [] && t < [LBRACKET] + PrintElements(es)
    ensures t[0] == LBRACKET && CutOutcome(partial, ParseElements(partial, [], t[1..]), Array(es))
    decreases es, 2
  {
    var tail := HeadCut(t, LBRACKET, PrintElements(es));
    var items := ElementsCut(partial, [], tail, es);
    assert [] + items == items;
  }

  lemma {:induction false} ObjectCut(partial: bool, t: Text, ms: Members)
    requires MembersOk(ms) && Clean(partial, Object(ms)) && t != [] && t < [LBRACE] + PrintMembers(ms)
    ensures t[0] == LBRACE && CutOutcome(partial, ParseMembers(partial, [], t[1..]), Object(ms))
    decreases ms, 2
  {
    var tail := HeadCut(t, LBRACE, PrintMembers(ms));
    var items := MembersCut(partial, [], tail, ms);
    assert [] + items == items;
  }

  lemma HeadCut(t: Text, open: Unit, body: Text) returns (tail: Text)
    requires t != [] && t < [open] + body
    ensures tail == t[1..] && tail < body && t[0] == open
  {
    tail := CutSplit(t, [open], body);
    assert t[1..] == tail;
  }

  lemma EmptyCut(partial: bool, t: Text, open: Unit, blank: Text, close: Unit)
    requires AllWhitespace(blank) && t != [] && t < [open] + blank + [close]
    ensures SkipInsignificant(t[1..]) == []
  {
    R.Regroup([open], blank, [close]);
    var tail := CutSplit(t, [open], blank + [close]);
    assert t[1..] == tail;
    var end := CutSplit(tail, blank, [close]);
    if |tail| < |blank| {
      BlankCut(tail, blank);
    } else {
      assert end == [];
      BlankThen(blank, []);
    }
  }

  /** A cut separator part: blank, or blank and the start of what follows. */
  lemma SeparatorCut(t: Text, ws: Text, tail: Text) returns (end: Text)
    requires AllWhitespace(ws) && tail != [] && IsDelimiter(tail[0]) && t < ws + tail
    ensures Bounded(t) && SkipInsignificant(t) == end && end < tail
  {
    end := CutSplit(t, ws, tail);
    if |t| < |ws| {
      BlankCut(t, ws);
      end := [];
      assert t != [] ==> t[0] == ws[0];
    } else {
      BlankThen(ws, end);
      BlankBounded(ws, end);
    }
  }

  /** The last part of a pass of either loop: a value and its separator, cut somewhere. */
  datatype PassCut = NoValue | ValueCutShort | ValueWhole(end: Text)

  lemma PassSplit(t: Text, pre: Text, v: Value, post: Text, tail: Text) returns (c: PassCut, cut: Text)
    requires AllWhitespace(pre) && ValueOk(v) && AllWhitespace(post) && tail != [] && IsDelimiter(tail[0])
    requires t < pre + (Print(v) + (post + tail))
    ensures c.NoValue? ==> SkipInsignificant(t) == []
    ensures c.ValueCutShort? ==> SkipInsignificant(t) == cut && cut != [] && cut < Print(v)
    ensures c.ValueWhole? ==> SkipInsignificant(t) == Print(v) + cut && Bounded(cut)
    ensures c.ValueWhole? ==> SkipInsignificant(cut) == c.end && c.end < tail
    ensures !c.NoValue? ==> var t1 := SkipInsignificant(t);
      t1 != [] && t1[0] == Print(v)[0] && !IsWhitespace(t1[0]) && t1[0] != SLASH && !IsDelimiter(t1[0])
  {
    var t1 := CutSplit(t, pre, Print(v) + (post + tail));
    ValueStart(v, []);
    assert Print(v) + [] == Print(v);
    if |t| < |pre| {
      BlankCut(t, pre);
      c, cut := NoValue, [];
    } else if t1 == [] {
      BlankThen(pre, []);
      c, cut := NoValue, [];
    } else {
      assert t1[0] == Print(v)[0];
      BlankThen(pre, t1);
      var t2 := CutSplit(t1, Print(v), post + tail);
      if |t1| < |Print(v)| {
        c, cut := ValueCutShort, t1;
      } else {
        var end := SeparatorCut(t2, post, tail);
        c, cut := ValueWhole(end), t2;
      }
    }
  }

  predicate ValueHead(t: Text) {
    t != [] && !IsDelimiter(t[0])
  }

  function ItemsOf(o: Outcome): seq<Json> {
    if o.Got? then [o.value] else []
  }

  /** One pass of the array loop whose value is cut short. */
  lemma ElementShort(partial: bool, out: seq<Json>, t: Text, v: Value)
    requires ValueOk(v) && ValueHead(SkipInsignificant(t))
    requires CutOutcome(partial, ParseValue(partial, true, SkipInsignificant(t)), v)
    ensures ParseElements(partial, out, t) ==
      if partial then Got(JArray(out + ItemsOf(ParseValue(partial, true, SkipInsignificant(t)))), []) else Throws
  {
    assert out + [] == out;
  }

  lemma PassEmpty(partial: bool, out: seq<Json>, members: seq<(Text, Json)>, key: Text, t: Text)
    requires SkipInsignificant(t) == []
    ensures ParseElements(partial, out, t) == if partial then Got(JArray(out), []) else Throws
    ensures ParseMember(partial, members, key, t) == if partial then Got(JObject(members), []) else Throws
  {
  }

  lemma PassThrows(out: seq<Json>, members: seq<(Text, Json)>, key: Text, t: Text)
    requires ValueHead(SkipInsignificant(t)) && ParseValue(false, true, SkipInsignificant(t)).Throws?
    ensures ParseElements(false, out, t).Throws? && ParseMember(false, members, key, t).Throws?
  {
  }

  /** One pass of the array loop that reads its value whole. */
  lemma ElementWhole(partial: bool, out: seq<Json>, t: Text, value: Json, cut: Text)
    requires ValueHead(SkipInsignificant(t))
    requires ParseValue(partial, true, SkipInsignificant(t)) == Got(value, cut)
    requires SkipInsignificant(cut) != [] ==> SkipInsignificant(cut)[0] == COMMA
    ensures ParseElements(partial, out, t) ==
      if SkipInsignificant(cut) != [] then ParseElements(partial, out + [value], SkipInsignificant(cut)[1..])
      else if partial then Got(JArray(out + [value]), []) else Throws
  {
  }

  lemma {:induction false} ElementsCut(partial: bool, out: seq<Json>, t: Text, es: Elements) returns (items: seq<Json>)
    requires ElementsOk(es) && (partial ==> ElementsFinite(es) && ElementsDistinct(es)) && t < PrintElements(es)
    ensures ParseElements(partial, out, t) == if partial then Got(JArray(out + items), []) else Throws
    ensures LeadingElements(items, es)
    decreases es, 1
  {
    var v := es.value;
    var tail := R.ElementTail(es, []);
    R.ElementText(es, []);
    assert PrintElements(es) + [] == PrintElements(es);
    var c, cut := PassSplit(t, es.pre, v, es.post, tail);
    match c
    case NoValue =>
      items := [];
      assert out + [] == out;
      PassEmpty(partial, out, [], [], t);
    case ValueCutShort =>
      ValueCut(partial, true, cut, v);
      ElementShort(partial, out, t, v);
      items := if partial then ItemsOf(ParseValue(partial, true, cut)) else [];
    case ValueWhole(end) =>
      ValueParsed(partial, true, v, cut);
      items := [];
      if NumbersFinite(v) {
        assert end != [] ==> end[0] == tail[0];
        ElementWhole(partial, out, t, Decode(v), cut);
        if end != [] {
          items := ElementsCutAfter(partial, out, end, es);
        } else if partial {
          LeadingNext(es, []);
          items := [Decode(v)];
          assert items + [] == items;
        }
      } else {
        PassThrows(out, [], [], t);
      }
  }

  lemma {:induction false} ElementsCutAfter(partial: bool, out: seq<Json>, end: Text, es: Elements) returns (items: seq<Json>)
    requires ElementsOk(es) && NumbersFinite(es.value) && (partial ==> ElementsFinite(es) && ElementsDistinct(es))
    requires end != [] && end < R.ElementTail(es, [])
    ensures ParseElements(partial, out + [Decode(es.value)], end[1..]) == if partial then Got(JArray(out + items), []) else Throws
    ensures LeadingElements(items, es)
    decreases es, 0
  {
    var value := Decode(es.value);
    ElementTailCut(es, end);
    var more := ElementsCut(partial, out + [value], end[1..], es.rest);
    items := [];
    if partial {
      items := [value] + more;
      Regroup(out, value, more);
      LeadingNext(es, more);
    }
  }

  lemma ElementTailCut(es: Elements, end: Text)
    requires end != [] && end < R.ElementTail(es, [])
    ensures es.MoreElements? && end[1..] < PrintElements(es.rest)
  {
    if es.MoreElements? {
      assert PrintElements(es.rest) + [] == PrintElements(es.rest);
    }
  }

  lemma MemberTailCut(ms: Members, end: Text)
    requires end != [] && end < R.MemberTail(ms, [])
    ensures ms.MoreMembers? && end[1..] < PrintMembers(ms.rest)
  {
    if ms.MoreMembers? {
      assert PrintMembers(ms.rest) + [] == PrintMembers(ms.rest);
    }
  }

  lemma Regroup<T>(out: seq<T>, item: T, more: seq<T>)
    ensures out + [item] + more == out + ([item] + more)
  {
  }

  /** A final element in front of the leading part of the others. */
  lemma LeadingNext(es: Elements, more: seq<Json>)
    requires ElementsOk(es) && NumbersFinite(es.value) && DistinctKeys(es.value)
    requires more == [] || (es.MoreElements? && LeadingElements(more, es.rest))
    ensures LeadingElements([Decode(es.value)] + more, es)
  {
    FinalApproximates(es.value);
    assert ([Decode(es.value)] + more)[1..] == more;
  }

  lemma LeadingNextMember(ms: Members, more: seq<(Text, Json)>)
    requires MembersOk(ms) && NumbersFinite(ms.value) && DistinctKeys(ms.value)
    requires more == [] || (ms.MoreMembers? && LeadingMembers(more, ms.rest))
    ensures LeadingMembers([(DecodeChars(ms.key), Decode(ms.value))] + more, ms)
  {
    FinalApproximates(ms.value);
    assert ([(DecodeChars(ms.key), Decode(ms.value))] + more)[1..] == more;
  }

  /** One pass of the object loop, from its colon, whose value is cut short. */
  lemma MemberShort(partial: bool, out: seq<(Text, Json)>, key: Text, t: Text, v: Value)
    requires ValueOk(v) && ValueHead(SkipInsignificant(t))
    requires CutOutcome(partial, ParseValue(partial, true, SkipInsignificant(t)), v)
    ensures var o := ParseValue(partial, true, SkipInsignificant(t));
      ParseMember(partial, out, key, t) ==
        if !partial then Throws else if o.Got? then Got(JObject(Assign(out, key, o.value)), []) else Got(JObject(out), [])
  {
  }

  lemma MemberWhole(partial: bool, out: seq<(Text, Json)>, key: Text, t: Text, value: Json, cut: Text)
    requires ValueHead(SkipInsignificant(t))
    requires ParseValue(partial, true, SkipInsignificant(t)) == Got(value, cut)
    requires SkipInsignificant(cut) != [] ==> SkipInsignificant(cut)[0] == COMMA
    ensures ParseMember(partial, out, key, t) ==
      if SkipInsignificant(cut) != [] then ParseMembers(partial, Assign(out, key, value), SkipInsignificant(cut)[1..])
      else if partial then Got(JObject(Assign(out, key, value)), []) else Throws
  {
  }

  lemma {:induction false} MembersCut(partial: bool, out: seq<(Text, Json)>, t: Text, ms: Members)
    returns (items: seq<(Text, Json)>)
    requires MembersOk(ms) && (partial ==> MembersFinite(ms) && MembersDistinct(ms) && Fresh(out, ms))
    requires t < PrintMembers(ms)
    ensures ParseMembers(partial, out, t) == if partial then Got(JObject(out + items), []) else Throws
    ensures LeadingMembers(items, ms)
    decreases ms, 1
  {
    var value := ms.afterColon + (Print(ms.value) + (ms.post + R.MemberTail(ms, [])));
    var colon := ms.beforeColon + ([COLON] + value);
    MemberPieces(ms, []);
    assert PrintMembers(ms) + [] == PrintMembers(ms);
    items := [];
    assert out + [] == out;
    var t1 := CutSplit(t, ms.pre, PrintString(ms.key) + colon);
    if |t| < |ms.pre| {
      BlankCut(t, ms.pre);
    } else if t1 == [] {
      BlankThen(ms.pre, []);
    } else {
      var t2 := CutSplit(t1, PrintString(ms.key), colon);
      assert t1[0] == QUOTE;
      BlankThen(ms.pre, t1);
      if |t1| < |PrintString(ms.key)| {
        StringCut(Mode(partial), t1, ms.key);
      } else {
        var end := SeparatorCut(t2, ms.beforeColon, [COLON] + value);
        KeyParsed(partial, ms, t2);
        if end != [] {
          assert end[0] == COLON && end[1..] < value;
          items := MemberCut(partial, out, end[1..], ms);
        }
      }
    }
  }

  lemma {:induction false} MemberCut(partial: bool, out: seq<(Text, Json)>, t: Text, ms: Members)
    returns (items: seq<(Text, Json)>)
    requires MembersOk(ms) && (partial ==> MembersFinite(ms) && MembersDistinct(ms) && Fresh(out, ms))
    requires t < ms.afterColon + (Print(ms.value) + (ms.post + R.MemberTail(ms, [])))
    ensures ParseMember(partial, out, DecodeChars(ms.key), t) == if partial then Got(JObject(out + items), []) else Throws
    ensures LeadingMembers(items, ms)
    decreases ms, 0, 1
  {
    var v := ms.value;
    var key := DecodeChars(ms.key);
    var tail := R.MemberTail(ms, []);
    var c, cut := PassSplit(t, ms.afterColon, v, ms.post, tail);
    items := [];
    assert out + [] == out;
    match c
    case NoValue =>
      PassEmpty(partial, [], out, key, t);
    case ValueCutShort =>
      ValueCut(partial, true, cut, v);
      MemberShort(partial, out, key, t, v);
      var o := ParseValue(partial, true, cut);
      if partial && o.Got? {
        FreshNext(out, ms, o.value);
        items := [(key, o.value)];
      }
    case ValueWhole(end) =>
      ValueParsed(partial, true, v, cut);
      if NumbersFinite(v) {
        assert end != [] ==> end[0] == tail[0];
        MemberWhole(partial, out, key, t, Decode(v), cut);
        if end != [] {
          items := MembersCutAfter(partial, out, end, ms);
        } else if partial {
          FreshNext(out, ms, Decode(v));
          LeadingNextMember(ms, []);
          items := [(key, Decode(v))];
          assert items + [] == items;
        }
      } else {
        PassThrows([], out, key, t);
      }
  }

  lemma {:induction false} MembersCutAfter(partial: bool, out: seq<(Text, Json)>, end: Text, ms: Members)
    returns (items: seq<(Text, Json)>)
    requires MembersOk(ms) && NumbersFinite(ms.value)
    requires partial ==> MembersFinite(ms) && MembersDistinct(ms) && Fresh(out, ms)
    requires end != [] && end < R.MemberTail(ms, [])
    ensures ParseMembers(partial, Assign(out, DecodeChars(ms.key), Decode(ms.value)), end[1..])
         == if partial then Got(JObject(out + items), []) else Throws
    ensures LeadingMembers(items, ms)
    decreases ms, 0, 0
  {
    var item := (DecodeChars(ms.key), Decode(ms.value));
    MemberTailCut(ms, end);
    if partial {
      FreshNext(out, ms, item.1);
    }
    var more := MembersCut(partial, Assign(out, item.0, item.1), end[1..], ms.rest);
    items := [];
    if partial {
      items := [item] + more;
      Regroup(out, item, more);
      LeadingNextMember(ms, more);
    }
  }

  // ---------- the whole text ----------

  /** Strict mode accepts no text cut inside an object or array. */
  lemma StrictPrefixRejected(pre: Text, v: Value, t: Text)
    requires AllWhitespace(pre) && ValueOk(v) && (v.Array? || v.Object? || v.EmptyArray? || v.EmptyObject?)
    requires t < pre + Print(v)
    ensures Parse(false, t) == Throws
  {
    var t1 := CutSplit(t, pre, Print(v));
    if |t| < |pre| {
      BlankCut(t, pre);
    } else {
      assert t1 != [] ==> t1[0] == Print(v)[0];
      BlankThen(pre, t1);
      if t1 != [] {
        ValueCut(false, false, t1, v);
      }
    }
  }

  lemma PrefixCases(t: Text, a: Text, b: Text)
    requires t <= a + b
    ensures a <= t || t < a
  {
    assert t == (a + b)[..|t|];
    if |t| < |a| {
      assert t == a[..|t|];
    } else {
      assert a == t[..|a|];
    }
  }

  /**
   Partial mode on any leading part of a duplicate-free JSON text with finite numbers: undefined, or
   a value that approximates the final one, and the final one itself once its last unit is there.
   */
  lemma PartialApproximates(pre: Text, v: Value, post: Text, t: Text)
    requires AllWhitespace(pre) && ValueOk(v) && AllWhitespace(post) && NumbersFinite(v) && DistinctKeys(v)
    requires t <= pre + Print(v) + post
    ensures var o := Parse(true, t); !o.Throws? && (o.Got? ==> Approximates(o.value, v))
    ensures pre + Print(v) <= t ==> Parse(true, t) == Got(Decode(v), [])
  {
    if pre + Print(v) <= t {
      var cut := t[|pre + Print(v)|..];
      assert t == pre + Print(v) + cut;
      assert cut == post[..|cut|];
      TextParsed(true, pre, v, cut);
      FinalApproximates(v);
    } else {
      PrefixCases(t, pre + Print(v), post);
      var t1 := CutSplit(t, pre, Print(v));
      ValueStart(v, []);
      assert Print(v) + [] == Print(v);
      if |t| < |pre| {
        BlankCut(t, pre);
      } else {
        assert t1 != [] ==> t1[0] == Print(v)[0];
        BlankThen(pre, t1);
        if t1 != [] {
          ValueCut(true, false, t1, v);
        }
      }
    }
  }
}
