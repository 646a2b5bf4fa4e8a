/**
 A scan result that has settled stays settled while more text arrives.

 The one reading that can be withdrawn is a single quote taken as content because a lone `/` at the
 end of the buffer might still open a comment. `Settled` rules it out: the buffer does not end in
 `/`, or the text scanned so far is strict JSON, which has no single-quoted tokens.
 */
module IncomingStability {
  import opened Units
  import opened JsonGrammar
  import opened JsonLexer
  import opened JsonValue
  import opened JsonScanner
  import opened StringStability
  import opened BlankStability
  import opened SingleQuoted
  import opened IncomingScan
  import opened RelaxedTruncation
  import R = JsonReading

  /** Strict JSON can still go on from s through t. */
  predicate Alive(s: State, t: Text) {
    Verdict(s, t) != Invalid
  }

  // ---------- atoms ----------

  lemma {:induction false} NumberRunGrows(t: Text, u: Text)
    requires NumberRun(t) < |t|
    ensures NumberRun(t + u) == NumberRun(t)
  {
    assert (t + u)[0] == t[0] && (t + u)[1..] == t[1..] + u;
    if IsNumberChar(t[0]) {
      NumberRunGrows(t[1..], u);
    }
  }

  lemma {:induction false} KeyRunGrows(t: Text, u: Text)
    requires KeyRun(t) < |t|
    ensures KeyRun(t + u) == KeyRun(t)
  {
    assert (t + u)[0] == t[0] && (t + u)[1..] == t[1..] + u;
    if KeyRun(t) > 0 {
      KeyRunGrows(t[1..], u);
    }
  }

  lemma {:induction false} BarewordGrows(t: Text, u: Text)
    requires BarewordRun(t).Some?
    ensures BarewordRun(t + u) == BarewordRun(t)
  {
    assert (t + u)[0] == t[0] && (t + u)[1..] == t[1..] + u;
    assert |t| >= 2 ==> (t + u)[1] == t[1];
    if !EndsBareword(t[0]) {
      BarewordGrows(t[1..], u);
    }
  }

  /** With a delimiter in sight, whether a word stands here is decided. */
  lemma WordGrows(word: Text, t: Text, u: Text)
    requires |word| < |t| || (exists k :: 0 <= k < |t| && EndsBareword(t[k]))
    requires forall k :: 0 <= k < |word| ==> !EndsBareword(word[k])
    ensures WordAt(word, t + u) <==> WordAt(word, t)
  {
    if |word| < |t| {
      assert (t + u)[|word|] == t[|word|];
      assert (t + u)[..|word|] == t[..|word|];
    } else {
      var k :| 0 <= k < |t| && EndsBareword(t[k]);
      assert (t + u)[k] == t[k];
    }
  }

  lemma KeywordGrows(t: Text, u: Text)
    requires exists k :: 0 <= k < |t| && EndsBareword(t[k])
    ensures ReadKeyword(t + u) == ReadKeyword(t)
  {
    WordGrows(TRUE_WORD, t, u);
    WordGrows(FALSE_WORD, t, u);
    WordGrows(NULL_WORD, t, u);
    WordGrows(TRUE_PYTHON, t, u);
    WordGrows(FALSE_PYTHON, t, u);
    WordGrows(NONE_PYTHON, t, u);
  }

  /** A terminator after a scalar is a bareword delimiter somewhere in the text. */
  lemma TerminatorInSight(t: Text)
    requires SkipInsignificant(t) != [] && EndsBareword(SkipInsignificant(t)[0])
    ensures exists k :: 0 <= k < |t| && EndsBareword(t[k])
  {
    SkipIsSuffix(t);
    assert t[|t| - |SkipInsignificant(t)|] == SkipInsignificant(t)[0];
  }

  lemma ScalarGrows(t: Text, u: Text, ended: bool)
    requires ScalarComplete(t, false)
    ensures ScalarComplete(t + u, ended) && t != []
  {
    SkipGrows(t, u);
  }

  lemma PieceGrows(t: Text, u: Text, k: nat)
    requires k <= |t|
    ensures (t + u)[..k] == t[..k] && (t + u)[k..] == t[k..] + u
  {
  }

  lemma NumberGrows(t: Text, u: Text, ended: bool)
    requires t != [] && IsNumberStart(t[0]) && Done(ScanAtom(t, false))
    ensures ScanAtom(t + u, ended) == Located(ScanAtom(t, false).shape, Some(ScanAtom(t, false).end.value + u))
  {
    ScalarGrows(t[NumberRun(t)..], u, ended);
    PieceGrows(t, u, NumberRun(t));
    NumberRunGrows(t, u);
    assert (t + u)[0] == t[0];
  }

  lemma WordOrBareGrows(t: Text, u: Text, ended: bool)
    requires t != [] && !IsNumberStart(t[0]) && Done(ScanAtom(t, false))
    ensures ScanAtom(t + u, ended) == Located(ScanAtom(t, false).shape, Some(ScanAtom(t, false).end.value + u))
  {
    assert (t + u)[0] == t[0];
    var k := if ReadKeyword(t).Some? then ReadKeyword(t).value.1 else ReadBareword(t).value.1;
    ScalarGrows(t[k..], u, ended);
    PieceGrows(t, u, k);
    TerminatorInSight(t[k..]);
    var j :| 0 <= j < |t[k..]| && EndsBareword(t[k..][j]);
    assert t[k + j] == t[k..][j];
    KeywordGrows(t, u);
    if ReadKeyword(t).None? {
      BarewordGrows(t, u);
    }
  }

  lemma AtomGrows(t: Text, u: Text, ended: bool)
    requires t != [] && Done(ScanAtom(t, false))
    ensures ScanAtom(t + u, ended) == Located(ScanAtom(t, false).shape, Some(ScanAtom(t, false).end.value + u))
  {
    if IsNumberStart(t[0]) {
      NumberGrows(t, u, ended);
    } else {
      WordOrBareGrows(t, u, ended);
    }
  }

  // ---------- strict JSON, in step with the scan ----------

  /** In strict JSON between tokens, only whitespace is insignificant. */
  lemma {:induction false} BlankAlive(s: State, t: Text)
    requires s.mode.Expecting? && Alive(s, t)
    ensures Alive(s, SkipInsignificant(t))
    decreases |t|
  {
    if t != [] && IsWhitespace(t[0]) {
      BlankAlive(s, t[1..]);
    }
  }

  lemma {:induction false} StringAlive(isKey: bool, stack: seq<bool>, t: Text)
    requires Alive(State(InString(isKey, Body), stack), t) && ReadString(Incoming, QUOTE, t).complete
    ensures Alive(if isKey then State(Expecting(ObjColon), stack) else After(stack), ReadString(Incoming, QUOTE, t).rest)
    decreases |t|
  {
    if t[0] == QUOTE {
    } else if t[0] != BACKSLASH {
      StringAlive(isKey, stack, t[1..]);
    } else {
      EscapeAlive(isKey, stack, t);
      StringAlive(isKey, stack, t[ReadEscape(Incoming, t).size..]);
    }
  }

  lemma EscapeAlive(isKey: bool, stack: seq<bool>, t: Text)
    requires t != [] && t[0] == BACKSLASH
    requires Alive(State(InString(isKey, Body), stack), t) && ReadString(Incoming, QUOTE, t).complete
    ensures Alive(State(InString(isKey, Body), stack), t[ReadEscape(Incoming, t).size..])
  {
    assert Alive(State(InString(isKey, Escaped), stack), t[1..]);
    if |t| > 1 && t[1] != LOWER_U {
      assert t[1..][1..] == t[2..];
    } else if |t| > 1 {
      var d := t[2..];
      assert t[1..][1..] == d;
      HexAlive(State(InString(isKey, Digits(4)), stack), d, 4);
      if FourHex(d) {
        assert d[4..] == t[6..];
      } else {
        NoQuoteInHex(d);
      }
    }
  }

  /** Up to `n` pending digits: there are that many and the body goes on, or the text ends among them. */
  lemma {:induction false} HexAlive(s: State, t: Text, n: nat)
    requires s.mode.InString? && s.mode.place == Digits(n) && n >= 1 && Alive(s, t)
    ensures forall k :: 0 <= k < n && k < |t| ==> IsHexDigit(t[k])
    ensures |t| >= n ==> Alive(State(InString(s.mode.isKey, Body), s.stack), t[n..])
    decreases n
  {
    if t != [] {
      if n > 1 {
        HexAlive(State(InString(s.mode.isKey, Digits(n - 1)), s.stack), t[1..], n - 1);
        assert |t| >= n ==> t[1..][n - 1..] == t[n..];
        forall k | 0 <= k < n && k < |t| ensures IsHexDigit(t[k]) {
          if k > 0 {
            assert t[k] == t[1..][k - 1];
          }
        }
      } else {
        assert t[1..] == t[n..];
      }
    }
  }

  /** A number token taken whole: strict JSON goes on after it. */
  lemma {:induction false} NumberAlive(at: NumberPlace, stack: seq<bool>, t: Text)
    requires Alive(State(InNumber(at), stack), t) && NumberRun(t) < |t|
    ensures Alive(After(stack), t[NumberRun(t)..])
    decreases |t|
  {
    if IsNumberChar(t[0]) {
      assert t[1..][NumberRun(t[1..])..] == t[NumberRun(t)..];
      NumberAlive(NumberStep(at, t[0]).value, stack, t[1..]);
    }
  }

  lemma {:induction false} LettersAlive(stack: seq<bool>, left: Text, t: Text)
    requires left != [] && Alive(State(InWord(left), stack), t)
    ensures left <= t ==> Alive(After(stack), t[|left|..])
    ensures left <= t || t < left
    decreases |left|
  {
    if t != [] {
      assert t[0] == left[0];
      if |left| > 1 {
        LettersAlive(stack, left[1..], t[1..]);
        assert left == [left[0]] + left[1..] && t == [t[0]] + t[1..];
        assert left <= t ==> t[1..][|left| - 1..] == t[|left|..];
      }
    }
  }

  // ---------- values and containers ----------

  /** t has settled: nothing at its edge is undecided, or it is strict JSON from s on. */
  predicate Settled(s: State, t: Text) {
    NoEdgeSlash(t) || Alive(s, t)
  }

  /** A closed string token followed by significant text is final. */
  lemma TokenFinal(s: State, t: Text, u: Text)
    requires t != [] && (t[0] == QUOTE || t[0] == SQUOTE)
    requires s.mode.Expecting? && Settled(s, t)
    requires ReadString(Incoming, t[0], t[1..]).complete
    requires SkipInsignificant(ReadString(Incoming, t[0], t[1..]).rest) != []
    ensures (t + u)[0] == t[0]
    ensures var b, c := ReadString(Incoming, t[0], t[1..]), ReadString(Incoming, t[0], (t + u)[1..]);
      c.complete && c.value == b.value && c.rest == b.rest + u
  {
    assert (t + u)[1..] == t[1..] + u;
    if t[0] == QUOTE {
      ClosedTokenFinal(t[1..], u);
    } else {
      assert !Alive(s, t);
      DropSuffix(t, 1);
      SuffixEdge(t[1..], t);
      NothingHinges(t[1..]);
      BodyEdge(t[1..], u);
    }
  }

  lemma StringGrows(s: State, t: Text, u: Text, ended: bool)
    requires t != [] && (t[0] == QUOTE || t[0] == SQUOTE) && Done(ScanString(t, false))
    requires R.AtValue(s) && Settled(s, t)
    ensures ScanString(t + u, ended) == Located(ScanString(t, false).shape, Some(ScanString(t, false).end.value + u))
    ensures Alive(s, t) ==> Alive(After(s.stack), ScanString(t, false).end.value)
  {
    TokenFinal(s, t, u);
    ScalarGrows(ScanString(t, false).end.value, u, ended);
    if Alive(s, t) {
      assert t[0] == QUOTE;
      StringAlive(false, s.stack, t[1..]);
    }
  }

  /** Strict JSON spells its words out, so the keyword reader finds them whole. */
  lemma WordAlive(s: State, t: Text, w: Word)
    requires R.AtValue(s) && t != [] && t[0] == PrintWord(w)[0] && Alive(s, t)
    requires Done(ScanAtom(t, false))
    ensures ReadKeyword(t) == Some((w, |PrintWord(w)|))
    ensures Alive(After(s.stack), t[|PrintWord(w)|..])
  {
    var word := PrintWord(w);
    LettersAlive(s.stack, word[1..], t[1..]);
    WordSplit(word, t);
    if word[1..] <= t[1..] {
      AfterWord(s.stack, t[|word|..]);
      assert |t| > |word| ==> t[|word|] == t[|word|..][0];
      FirstWord(t, w);
    } else {
      WordCut(t, w);
    }
  }

  lemma WordSplit(word: Text, t: Text)
    requires t != [] && word != [] && t[0] == word[0]
    ensures word[1..] <= t[1..] ==> word <= t && t[1..][|word| - 1..] == t[|word|..]
    ensures t[1..] < word[1..] ==> t < word
  {
    assert t == [t[0]] + t[1..] && word == [word[0]] + word[1..];
  }

  lemma AfterWord(stack: seq<bool>, rest: Text)
    requires Alive(After(stack), rest)
    ensures rest != [] ==> !IsIdentChar(rest[0])
  {
  }

  lemma FirstWord(t: Text, w: Word)
    requires WordAt(PrintWord(w), t)
    ensures ReadKeyword(t) == Some((w, |PrintWord(w)|))
  {
    assert t[0] == PrintWord(w)[0];
    if w != True {
      NotAt(TRUE_WORD, t);
    }
    if w == Null {
      NotAt(FALSE_WORD, t);
    }
  }

  lemma AtomAlive(s: State, t: Text)
    requires t != [] && t[0] != QUOTE && t[0] != SQUOTE && t[0] != LBRACE && t[0] != LBRACKET
    requires R.AtValue(s) && !IsWhitespace(t[0]) && (s.mode == Expecting(ArrValueOrEnd) ==> t[0] != RBRACKET)
    requires Alive(s, t) && Done(ScanAtom(t, false))
    ensures Alive(After(s.stack), ScanAtom(t, false).end.value)
  {
    if IsNumberStart(t[0]) {
      assert t[1..][NumberRun(t[1..])..] == t[NumberRun(t)..];
      ScalarGrows(t[NumberRun(t)..], [], false);
      NumberAlive(Step(s, t[0]).value.mode.at, s.stack, t[1..]);
    } else {
      WordAlive(s, t, if t[0] == LOWER_T then True else if t[0] == LOWER_F then False else Null);
    }
  }

  /** A complete value stays complete, with the same shape and the same end. */
  lemma {:induction false} ValueGrows(s: State, t: Text, u: Text, ended: bool, depth: nat)
    requires Done(ScanValue(t, false, depth))
    requires R.AtValue(s) && Settled(s, t) && !IsWhitespace(t[0]) && (s.mode == Expecting(ArrValueOrEnd) ==> t[0] != RBRACKET)
    ensures ScanValue(t + u, ended, depth)
         == Located(ScanValue(t, false, depth).shape, Some(ScanValue(t, false, depth).end.value + u))
    ensures Alive(s, t) ==> Alive(After(s.stack), ScanValue(t, false, depth).end.value)
    decreases |t|, 2
  {
    assert (t + u)[0] == t[0] && (t + u)[1..] == t[1..] + u;
    if t[0] == LBRACE || t[0] == LBRACKET {
      var isObject := t[0] == LBRACE;
      var inner := State(Expecting(if isObject then ObjKeyOrEnd else ArrValueOrEnd), s.stack + [isObject]);
      DropSuffix(t, 1);
      SuffixEdge(t[1..], t);
      assert ScanValue(t, false, depth) == ScanContainer(t, false, depth);
      ItemsGrows(inner, s.stack, t[1..], u, ended, depth, isObject);
    } else if t[0] == QUOTE || t[0] == SQUOTE {
      StringGrows(s, t, u, ended);
    } else {
      AtomGrows(t, u, ended);
      if Alive(s, t) {
        AtomAlive(s, t);
      }
    }
  }

  /** A skipped value and its separator stay skipped. */
  lemma {:induction false} TailGrows(s: State, outer: seq<bool>, t: Text, u: Text, ended: bool, depth: nat, isObject: bool)
    requires R.AtValue(s) && s.stack == outer + [isObject]
    requires SkipValue(t, false, depth, if isObject then RBRACE else RBRACKET) != Open
    requires Settled(s, t) && !IsWhitespace(t[0]) && (s.mode == Expecting(ArrValueOrEnd) ==> t[0] != RBRACKET)
    ensures var close := if isObject then RBRACE else RBRACKET;
      var v := SkipValue(t, false, depth, close);
      && SkipValue(t + u, ended, depth, close) == (if v.Next? then Next(v.rest + u) else Closed(v.rest + u))
      && (NoEdgeSlash(t) ==> NoEdgeSlash(v.rest))
      && (Alive(s, t) ==> Alive(if v.Next? then State(Expecting(if isObject then ObjKey else ExpValue), s.stack) else After(outer), v.rest))
    decreases |t|, 3
  {
    var close := if isObject then RBRACE else RBRACKET;
    ValueGrows(s, t, u, ended, depth);
    TailSuffix(t, false, depth, close);
    SuffixEdge(SkipValue(t, false, depth, close).rest, t);
    SeparatorGrows(ScanValue(t, false, depth), u, close);
    if Alive(s, t) {
      BlankAlive(After(s.stack), ScanValue(t, false, depth).end.value);
      SeparatorAlive(outer, isObject, SkipInsignificant(ScanValue(t, false, depth).end.value));
    }
  }

  lemma SeparatorGrows(s: Scan, u: Text, close: Unit)
    requires TailOf(s, close) != Open && close != SLASH
    ensures TailOf(Located(s.shape, Some(s.end.value + u)), close)
         == (if TailOf(s, close).Next? then Next(TailOf(s, close).rest + u) else Closed(TailOf(s, close).rest + u))
  {
    SkipGrows(s.end.value, u);
    var d := SkipInsignificant(s.end.value);
    assert (d + u)[0] == d[0] && (d + u)[1..] == d[1..] + u;
  }

  lemma SeparatorAlive(outer: seq<bool>, isObject: bool, d: Text)
    requires d != [] && Alive(After(outer + [isObject]), d)
    ensures d[0] == COMMA ==> Alive(State(Expecting(if isObject then ObjKey else ExpValue), outer + [isObject]), d[1..])
    ensures d[0] == (if isObject then RBRACE else RBRACKET) ==> Alive(After(outer), d[1..])
  {
    assert (outer + [isObject])[..|outer|] == outer;
  }

  /** The end of a scanned value is a suffix of the text. */
  lemma {:induction false} EndIsSuffix(t: Text, ended: bool, depth: nat)
    requires Done(ScanValue(t, ended, depth))
    ensures IsSuffix(ScanValue(t, ended, depth).end.value, t)
    decreases |t|, 2
  {
    var end := ScanValue(t, ended, depth).end.value;
    DropSuffix(t, 1);
    if t[0] == LBRACE || t[0] == LBRACKET {
      assert ScanValue(t, ended, depth) == ScanContainer(t, ended, depth);
      ItemsSuffix(t[1..], ended, depth, t[0] == LBRACE);
      SuffixTrans(end, t[1..], t);
    } else if t[0] == QUOTE || t[0] == SQUOTE {
      StringSuffix(t[0], t[1..]);
      SuffixTrans(end, t[1..], t);
    } else {
      AtomSuffix(t, ended);
    }
  }

  lemma AtomSuffix(t: Text, ended: bool)
    requires t != [] && Done(ScanAtom(t, ended))
    ensures IsSuffix(ScanAtom(t, ended).end.value, t)
  {
  }

  lemma {:induction false} StringSuffix(quote: Unit, t: Text)
    requires ReadString(Incoming, quote, t).complete
    ensures IsSuffix(ReadString(Incoming, quote, t).rest, t)
    decreases |t|
  {
    var r := ReadString(Incoming, quote, t).rest;
    var k := if t[0] == quote || t[0] != BACKSLASH then 1 else ReadEscape(Incoming, t).size;
    DropSuffix(t, k);
    if ReadString(Incoming, quote, t[k..]).complete && ReadString(Incoming, quote, t[k..]).rest == r {
      StringSuffix(quote, t[k..]);
      SuffixTrans(r, t[k..], t);
    }
  }

  lemma {:induction false} TailSuffix(t: Text, ended: bool, depth: nat, close: Unit)
    requires SkipValue(t, ended, depth, close) != Open
    ensures IsSuffix(SkipValue(t, ended, depth, close).rest, t)
    decreases |t|, 3
  {
    var end := ScanValue(t, ended, depth).end.value;
    EndIsSuffix(t, ended, depth);
    SkipIsSuffix(end);
    var d := SkipInsignificant(end);
    DropSuffix(d, 1);
    SuffixTrans(d[1..], d, end);
    SuffixTrans(d[1..], end, t);
  }

  /** What is left after what was found at a member start. */
  function Beyond(m: MemberHead): Text
    requires !m.NoMember?
  {
    if m.Keyed? then m.value else m.rest
  }

  lemma MemberSuffix(t: Text)
    requires !ReadMember(t).NoMember?
    ensures IsSuffix(Beyond(ReadMember(t)), t)
    ensures ReadMember(t).Keyed? ==> IsSuffix(ReadMember(t).at, t)
  {
    SkipIsSuffix(t);
    var t1 := SkipInsignificant(t);
    if ReadMember(t).Keyed? {
      MemberValueSuffix(t1);
      SuffixTrans(ReadMember(t).value, t1, t);
    } else {
      DropSuffix(t1, 1);
      SuffixTrans(t1[1..], t1, t);
    }
  }

  lemma KeySuffix(t: Text)
    requires t != [] && ScanKey(t).Some?
    ensures IsSuffix(ScanKey(t).value.1, t)
  {
    DropSuffix(t, 1);
    if t[0] == QUOTE || t[0] == SQUOTE {
      StringSuffix(t[0], t[1..]);
      SuffixTrans(ScanKey(t).value.1, t[1..], t);
    }
  }

  lemma MemberValueSuffix(t1: Text)
    requires t1 != [] && ScanKey(t1).Some? && SkipInsignificant(ScanKey(t1).value.1) != []
    ensures IsSuffix(SkipInsignificant(SkipInsignificant(ScanKey(t1).value.1)[1..]), t1)
  {
    var r := ScanKey(t1).value.1;
    var t2 := SkipInsignificant(r);
    var value := SkipInsignificant(t2[1..]);
    KeySuffix(t1);
    SkipIsSuffix(r);
    DropSuffix(t2, 1);
    SkipIsSuffix(t2[1..]);
    SuffixTrans(value, t2[1..], t2);
    SuffixTrans(value, t2, r);
    SuffixTrans(value, r, t1);
  }

  lemma {:induction false} ItemsSuffix(t: Text, ended: bool, depth: nat, isObject: bool)
    requires ScanItems(t, ended, depth, isObject).Some?
    ensures IsSuffix(ScanItems(t, ended, depth, isObject).value, t)
    decreases |t|, 5
  {
    if isObject {
      MembersSuffix(t, ended, depth);
    } else {
      ElementsSuffix(t, ended, depth);
    }
  }

  lemma {:induction false} MembersSuffix(t: Text, ended: bool, depth: nat)
    requires ScanItems(t, ended, depth, true).Some?
    ensures IsSuffix(ScanItems(t, ended, depth, true).value, t)
    decreases |t|, 4
  {
    var end := ScanItems(t, ended, depth, true).value;
    MemberSuffix(t);
    var rest := Beyond(ReadMember(t));
    if ReadMember(t).Keyed? {
      TailSuffix(rest, ended, depth + 1, RBRACE);
      var v := SkipValue(rest, ended, depth + 1, RBRACE);
      if v.Next? {
        MembersSuffix(v.rest, ended, depth);
        SuffixTrans(end, v.rest, rest);
      }
      SuffixTrans(end, rest, t);
    } else if ReadMember(t).StrayComma? {
      MembersSuffix(rest, ended, depth);
      SuffixTrans(end, rest, t);
    }
  }

  lemma {:induction false} ElementsSuffix(t: Text, ended: bool, depth: nat)
    requires ScanItems(t, ended, depth, false).Some?
    ensures IsSuffix(ScanItems(t, ended, depth, false).value, t)
    decreases |t|, 4
  {
    var end := ScanItems(t, ended, depth, false).value;
    SkipIsSuffix(t);
    var t1 := SkipInsignificant(t);
    DropSuffix(t1, 1);
    if t1[0] == COMMA {
      ElementsSuffix(t1[1..], ended, depth);
      SuffixTrans(end, t1[1..], t1);
    } else if t1[0] != RBRACKET {
      TailSuffix(t1, ended, depth + 1, RBRACKET);
      var v := SkipValue(t1, ended, depth + 1, RBRACKET);
      if v.Next? {
        ElementsSuffix(v.rest, ended, depth);
        SuffixTrans(end, v.rest, t1);
      }
    }
    SuffixTrans(end, t1, t);
  }

  /** A key that is followed by significant text is final. */
  lemma KeyGrows(s: State, t: Text, u: Text)
    requires t != [] && s.mode.Expecting? && Settled(s, t)
    requires ScanKey(t).Some? && SkipInsignificant(ScanKey(t).value.1) != []
    ensures ScanKey(t + u) == Some((ScanKey(t).value.0, ScanKey(t).value.1 + u))
  {
    assert (t + u)[0] == t[0];
    if t[0] == QUOTE || t[0] == SQUOTE {
      TokenFinal(s, t, u);
    } else {
      KeyRunGrows(t, u);
      PieceGrows(t, u, KeyRun(t));
    }
  }

  predicate AtKey(s: State) {
    (s.mode == Expecting(ObjKeyOrEnd) || s.mode == Expecting(ObjKey)) && TopIs(s.stack, true)
  }

  /** What m has become after u arrived. */
  predicate Grown(m: MemberHead, g: MemberHead, u: Text) {
    match m
    case NoMember => true
    case ClosingBrace(rest) => g == ClosingBrace(rest + u)
    case StrayComma(rest) => g == StrayComma(rest + u)
    case Keyed(key, at, value) =>
      g.Keyed? && g.key == key && g.at == at + u && (value != [] && value != [SLASH] ==> g.value == value + u)
  }

  /** What stands at a member start stays, up to the value of the member. */
  lemma MemberGrows(s: State, t: Text, u: Text)
    requires AtKey(s) && Settled(s, t) && !ReadMember(t).NoMember?
    ensures Grown(ReadMember(t), ReadMember(t + u), u)
  {
    BlankSettled(s, t);
    var t1 := SkipInsignificant(t);
    LoneSlashNoMember(t);
    SkipGrows(t, u);
    assert (t1 + u)[0] == t1[0] && (t1 + u)[1..] == t1[1..] + u;
    if ReadMember(t).Keyed? {
      KeyedGrows(s, t1, u);
    }
  }

  lemma LoneSlashNoMember(t: Text)
    ensures SkipInsignificant(t) == [SLASH] ==> ReadMember(t).NoMember?
  {
    var lone: Text := [SLASH];
    assert KeyRun(lone) == 1;
  }

  lemma KeyedGrows(s: State, t1: Text, u: Text)
    requires t1 != [] && s.mode.Expecting? && Settled(s, t1)
    requires ScanKey(t1).Some? && SkipInsignificant(ScanKey(t1).value.1) != [] && SkipInsignificant(ScanKey(t1).value.1)[0] == COLON
    ensures ScanKey(t1 + u) == Some((ScanKey(t1).value.0, ScanKey(t1).value.1 + u))
    ensures var t2, g2 := SkipInsignificant(ScanKey(t1).value.1), SkipInsignificant(ScanKey(t1).value.1 + u);
      && g2 == t2 + u && g2[0] == COLON && g2[1..] == t2[1..] + u
      && (var value := SkipInsignificant(t2[1..]);
          value != [] && value != [SLASH] ==> SkipInsignificant(g2[1..]) == value + u)
  {
    KeyGrows(s, t1, u);
    var r := ScanKey(t1).value.1;
    SkipGrows(r, u);
    var t2 := SkipInsignificant(r);
    assert (t2 + u)[0] == t2[0] && (t2 + u)[1..] == t2[1..] + u;
    var value := SkipInsignificant(t2[1..]);
    if value != [] && value != [SLASH] {
      SkipGrows(t2[1..], u);
    }
  }

  lemma BlankSettled(s: State, t: Text)
    requires s.mode.Expecting? && Settled(s, t)
    ensures Settled(s, SkipInsignificant(t))
    ensures Alive(s, t) ==> Alive(s, SkipInsignificant(t))
  {
    SkipIsSuffix(t);
    SuffixEdge(SkipInsignificant(t), t);
    if Alive(s, t) {
      BlankAlive(s, t);
    }
  }

  lemma MemberAlive(s: State, t: Text)
    requires AtKey(s) && Alive(s, t)
    ensures !ReadMember(t).StrayComma?
    ensures ReadMember(t).ClosingBrace? ==> Alive(After(s.stack[..|s.stack| - 1]), ReadMember(t).rest)
    ensures ReadMember(t).Keyed? ==> Alive(State(Expecting(ExpValue), s.stack), ReadMember(t).value)
  {
    BlankAlive(s, t);
    var t1 := SkipInsignificant(t);
    if ReadMember(t).Keyed? {
      assert t1[0] == QUOTE;
      StringAlive(true, s.stack, t1[1..]);
      var colon := State(Expecting(ObjColon), s.stack);
      BlankAlive(colon, ScanKey(t1).value.1);
      BlankAlive(State(Expecting(ExpValue), s.stack), SkipInsignificant(ScanKey(t1).value.1)[1..]);
    }
  }

  lemma LoneSlashOpen(depth: nat, close: Unit)
    ensures ScanValue([SLASH], false, depth) == Pending && SkipValue([SLASH], false, depth, close) == Open
  {
    var t: Text := [SLASH];
    assert t[1..] == [];
    assert BarewordRun(t).None?;
    assert !(TRUE_WORD <= t) && !(FALSE_WORD <= t) && !(NULL_WORD <= t);
    assert !(TRUE_PYTHON <= t) && !(FALSE_PYTHON <= t) && !(NONE_PYTHON <= t);
  }

  /** A container that has been scanned to its end stays so. */
  lemma {:induction false} ItemsGrows(s: State, outer: seq<bool>, t: Text, u: Text, ended: bool, depth: nat, isObject: bool)
    requires if isObject then AtKey(s) else R.AtValue(s)
    requires s.stack == outer + [isObject] && Settled(s, t)
    requires ScanItems(t, false, depth, isObject).Some?
    ensures ScanItems(t + u, ended, depth, isObject) == Some(ScanItems(t, false, depth, isObject).value + u)
    ensures Alive(s, t) ==> Alive(After(outer), ScanItems(t, false, depth, isObject).value)
    decreases |t|, 5
  {
    if isObject {
      MembersGrow(s, outer, t, u, ended, depth);
    } else {
      ElementsGrow(s, outer, t, u, ended, depth);
    }
  }

  lemma {:induction false} MembersGrow(s: State, outer: seq<bool>, t: Text, u: Text, ended: bool, depth: nat)
    requires AtKey(s) && s.stack == outer + [true] && Settled(s, t)
    requires ScanItems(t, false, depth, true).Some?
    ensures ScanItems(t + u, ended, depth, true) == Some(ScanItems(t, false, depth, true).value + u)
    ensures Alive(s, t) ==> Alive(After(outer), ScanItems(t, false, depth, true).value)
    decreases |t|, 4
  {
    MemberGrows(s, t, u);
    MemberSuffix(t);
    SuffixEdge(Beyond(ReadMember(t)), t);
    assert s.stack[..|s.stack| - 1] == outer;
    if Alive(s, t) {
      MemberAlive(s, t);
    }
    match ReadMember(t)
    case ClosingBrace(rest) =>
    case StrayComma(rest) => MembersGrow(s, outer, rest, u, ended, depth);
    case Keyed(_, _, value) =>
      var at := State(Expecting(ExpValue), s.stack);
      LoneSlashOpen(depth + 1, RBRACE);
      MemberValueSignificant(t);
      TailGrows(at, outer, value, u, ended, depth + 1, true);
      var v := SkipValue(value, false, depth + 1, RBRACE);
      if v.Next? {
        MembersGrow(State(Expecting(ObjKey), s.stack), outer, v.rest, u, ended, depth);
      }
  }

  lemma MemberValueSignificant(t: Text)
    requires ReadMember(t).Keyed? && ReadMember(t).value != []
    ensures !IsWhitespace(ReadMember(t).value[0])
  {
  }

  /** A stray comma is no strict JSON. */
  lemma CommaSettled(s: State, t: Text)
    requires R.AtValue(s) && Settled(s, t) && t != [] && t[0] == COMMA
    ensures Settled(s, t[1..])
  {
    DropSuffix(t, 1);
    SuffixEdge(t[1..], t);
  }

  lemma BracketAlive(s: State, outer: seq<bool>, t: Text)
    requires R.AtValue(s) && s.stack == outer + [false] && t != [] && t[0] == RBRACKET && Alive(s, t)
    ensures Alive(After(outer), t[1..])
  {
    assert s.stack[..|s.stack| - 1] == outer;
  }

  lemma {:induction false} ElementTail(s: State, outer: seq<bool>, t: Text, u: Text, ended: bool, depth: nat)
    requires R.AtValue(s) && s.stack == outer + [false]
    requires SkipValue(t, false, depth, RBRACKET) != Open
    requires Settled(s, t) && !IsWhitespace(t[0]) && t[0] != RBRACKET
    ensures var v := SkipValue(t, false, depth, RBRACKET);
      && SkipValue(t + u, ended, depth, RBRACKET) == (if v.Next? then Next(v.rest + u) else Closed(v.rest + u))
      && (v.Next? ==> Settled(State(Expecting(ExpValue), s.stack), v.rest))
      && (Alive(s, t) ==> Alive(if v.Next? then State(Expecting(ExpValue), s.stack) else After(outer), v.rest))
    decreases |t|, 4, 0
  {
    TailGrows(s, outer, t, u, ended, depth, false);
  }

  lemma {:induction false} ElementsGrow(s: State, outer: seq<bool>, t: Text, u: Text, ended: bool, depth: nat)
    requires R.AtValue(s) && s.stack == outer + [false] && Settled(s, t)
    requires ScanItems(t, false, depth, false).Some?
    ensures ScanItems(t + u, ended, depth, false) == Some(ScanItems(t, false, depth, false).value + u)
    ensures Alive(s, t) ==> Alive(After(outer), ScanItems(t, false, depth, false).value)
    decreases |t|, 4
  {
    hide ScanValue;
    BlankSettled(s, t);
    var t1 := SkipInsignificant(t);
    ElementStart(t, u, depth);
    if t1[0] == COMMA {
      CommaSettled(s, t1);
    } else if t1[0] == RBRACKET && Alive(s, t1) {
      BracketAlive(s, outer, t1);
    }
    assert t1[0] == COMMA ==> !Alive(s, t1);
    hide SkipInsignificant, SkipValue, ScanValue, Verdict, Alive, NoEdgeSlash, Settled;
    if t1[0] == COMMA {
      ElementsGrow(s, outer, t1[1..], u, ended, depth);
    } else if t1[0] != RBRACKET {
      ElementTail(s, outer, t1, u, ended, depth + 1);
      var v := SkipValue(t1, false, depth + 1, RBRACKET);
      if v.Next? {
        ElementsGrow(State(Expecting(ExpValue), s.stack), outer, v.rest, u, ended, depth);
      }
    }
  }

  lemma ElementStart(t: Text, u: Text, depth: nat)
    requires ScanItems(t, false, depth, false).Some?
    ensures var t1, g1 := SkipInsignificant(t), SkipInsignificant(t + u);
      t1 != [] && g1 == t1 + u && g1[0] == t1[0] && g1[1..] == t1[1..] + u
  {
    var t1 := SkipInsignificant(t);
    if t1 == [SLASH] {
      LoneSlashOpen(depth + 1, RBRACKET);
    }
    SkipGrows(t, u);
    assert (t1 + u)[0] == t1[0] && (t1 + u)[1..] == t1[1..] + u;
  }
}
