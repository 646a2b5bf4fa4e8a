/**
 The lexer as the source has it: an object whose readers move a cursor in loops. Each reader is proved
 against its specification on the text from the cursor on.
 */
module LexerCursor {
  import opened Units
  import opened JsonGrammar
  import opened JsonLexer
  import opened JsonValue

  /** A token; no token (`undefined`, lenient modes only); or an exception (strict mode only). */
  datatype Token<T> = Ok(value: T) | Undefined | Throws

  /** Decoded state of a string token (`JsonStringProgress`). */
  datatype Progress = Progress(value: Text, stableLen: nat, complete: bool)

  lemma Ahead(s: Text, i: nat)
    requires i < |s|
    ensures s[i..] != [] && s[i..][0] == s[i] && s[i..][1..] == s[i + 1..]
    ensures i + 1 < |s| ==> s[i..][1] == s[i + 1] && s[i..][2..] == s[i + 2..]
  {
  }

  // ---------- whitespace and comments ----------

  method LineEnd(s: Text, from: nat) returns (i: nat)
    requires from <= |s|
    ensures from <= i <= |s| && s[i..] == SkipLine(s[from..])
  {
    i := from;
    while i < |s| && s[i] != NEWLINE
      invariant from <= i <= |s| && SkipLine(s[i..]) == SkipLine(s[from..])
    {
      Ahead(s, i);
      i := i + 1;
    }
  }

  method BlockEnd(s: Text, from: nat) returns (i: nat)
    requires from <= |s|
    ensures from <= i <= |s| && s[i..] == SkipBlock(s[from..])
  {
    i := from;
    while i + 1 < |s| && !(s[i] == STAR && s[i + 1] == SLASH)
      invariant from <= i <= |s| && SkipBlock(s[i..]) == SkipBlock(s[from..])
    {
      Ahead(s, i);
      i := i + 1;
    }
    if i + 1 < |s| {
      Ahead(s, i);
    }
    i := if i + 2 < |s| then i + 2 else |s|;
  }

  /** Nothing significant was passed over between `from` and i. */
  predicate Skipped(s: Text, from: nat, i: nat)
    requires from <= |s| && i <= |s|
  {
    SkipInsignificant(s[i..]) == SkipInsignificant(s[from..])
  }

  lemma SkipsBlank(s: Text, from: nat, i: nat)
    requires from <= i < |s| && Skipped(s, from, i) && IsWhitespace(s[i])
    ensures Skipped(s, from, i + 1)
  {
    Ahead(s, i);
  }

  lemma SkipsComment(s: Text, from: nat, i: nat, j: nat)
    requires from <= i && i + 1 < |s| && j <= |s| && Skipped(s, from, i) && s[i] == SLASH
    requires (s[i + 1] == SLASH && s[j..] == SkipLine(s[i + 2..])) || (s[i + 1] == STAR && s[j..] == SkipBlock(s[i + 2..]))
    ensures Skipped(s, from, j)
  {
    Ahead(s, i);
  }

  lemma SkipsNoMore(s: Text, from: nat, i: nat)
    requires from <= i <= |s| && Skipped(s, from, i) && (i < |s| ==> !IsWhitespace(s[i]))
    requires i + 1 < |s| && s[i] == SLASH ==> s[i + 1] != SLASH && s[i + 1] != STAR
    ensures s[i..] == SkipInsignificant(s[from..])
  {
    if i < |s| {
      Ahead(s, i);
    }
  }

  /** `skipInsignificant`. */
  method SkipFrom(s: Text, from: nat) returns (i: nat)
    requires from <= |s|
    ensures from <= i <= |s| && s[i..] == SkipInsignificant(s[from..])
  {
    i := from;
    assert Skipped(s, from, from);
    hide Skipped, SkipInsignificant, SkipLine, SkipBlock;
    while true
      invariant from <= i <= |s| && Skipped(s, from, i)
      decreases |s| - i
    {
      while i < |s| && IsWhitespace(s[i])
        invariant from <= i <= |s| && Skipped(s, from, i)
      {
        SkipsBlank(s, from, i);
        i := i + 1;
      }
      if i + 1 < |s| && s[i] == SLASH {
        if s[i + 1] == SLASH {
          var j := LineEnd(s, i + 2);
          SkipsComment(s, from, i, j);
          i := j;
          continue;
        }
        if s[i + 1] == STAR {
          var j := BlockEnd(s, i + 2);
          SkipsComment(s, from, i, j);
          i := j;
          continue;
        }
      }
      SkipsNoMore(s, from, i);
      return;
    }
  }

  // ---------- strings ----------

  /** A token of which `units` are decoded already; `from` is where they may still change. */
  function Resume(units: Text, from: Option<nat>, b: StringBody): StringBody {
    b.(value := units + b.value,
       unstable := if from.Some? then from
                   else if b.unstable.Some? then Some(|units| + b.unstable.value) else None)
  }

  /** The first place that may still change: the one known, or `at` when `here` says so. */
  function Earlier(from: Option<nat>, at: nat, here: bool): Option<nat> {
    if from.Some? then from else if here then Some(at) else None
  }

  lemma ResumePrepend(units: Text, from: Option<nat>, more: Text, here: bool, b: StringBody)
    ensures Resume(units, from, b.Prepend(more, here)) == Resume(units + more, Earlier(from, |units|, here), b)
  {
    assert (units + more) + b.value == units + (more + b.value);
  }

  /** The loop of `string` at i: what is decoded so far and the rest of the text make up the token. */
  predicate Reading(s: Text, mode: LexMode, quote: Unit, start: nat, i: nat, units: Text, from: Option<nat>)
    requires start <= |s| && i <= |s|
  {
    Resume(units, from, ReadString(mode, quote, s[i..])) == ReadString(mode, quote, s[start..])
  }

  /** The decoded text and the run of plain units since. */
  function WithRun(out: Text, s: Text, from: nat, i: nat): Text
    requires from <= i <= |s|
  {
    out + s[from..i]
  }

  lemma Longer(out: Text, s: Text, from: nat, i: nat)
    requires from <= i < |s|
    ensures WithRun(out, s, from, i + 1) == WithRun(out, s, from, i) + [s[i]]
    ensures |WithRun(out, s, from, i)| == |out| + (i - from)
  {
  }

  lemma NoRun(out: Text, s: Text, i: nat)
    requires i <= |s|
    ensures WithRun(out, s, i, i) == out
  {
  }

  /** What the loop returns for the token from `start` on. */
  predicate Ends(s: Text, mode: LexMode, quote: Unit, start: nat, p: Progress, i: nat)
    requires start <= |s|
  {
    var b := ReadString(mode, quote, s[start..]);
    i <= |s| && p == Progress(b.value, b.StableLen(), b.complete) && s[i..] == b.rest
  }

  lemma StartReading(s: Text, mode: LexMode, quote: Unit, i: nat)
    requires i <= |s|
    ensures Reading(s, mode, quote, i, i, [], None)
  {
  }

  lemma PlainUnit(s: Text, mode: LexMode, quote: Unit, start: nat, i: nat, units: Text, from: Option<nat>)
    requires start <= i < |s| && Reading(s, mode, quote, start, i, units, from) && s[i] != BACKSLASH && s[i] != quote
    ensures Reading(s, mode, quote, start, i + 1, units + [s[i]], from)
  {
    Ahead(s, i);
    ResumePrepend(units, from, [s[i]], false, ReadString(mode, quote, s[i + 1..]));
  }

  lemma InnerQuote(s: Text, mode: LexMode, quote: Unit, start: nat, i: nat, units: Text, from: Option<nat>, look: QuoteLook)
    requires start <= i < |s| && Reading(s, mode, quote, start, i, units, from) && s[i] == quote
    requires Lenient(mode, quote) && look == QuoteLookahead(mode, s[i + 1..]) != Closes
    ensures Reading(s, mode, quote, start, i + 1, units + [quote], Earlier(from, |units|, look == Undecided))
  {
    Ahead(s, i);
    ResumePrepend(units, from, [quote], look == Undecided, ReadString(mode, quote, s[i + 1..]));
  }

  lemma ClosingQuote(s: Text, mode: LexMode, quote: Unit, start: nat, i: nat, units: Text, from: Option<nat>)
    requires start <= i < |s| && Reading(s, mode, quote, start, i, units, from) && s[i] == quote
    requires Lenient(mode, quote) ==> QuoteLookahead(mode, s[i + 1..]) == Closes
    ensures Ends(s, mode, quote, start, Progress(units, |units|, true), i + 1)
  {
    Ahead(s, i);
    assert units + [] == units;
  }

  lemma EscapeUnits(s: Text, mode: LexMode, quote: Unit, start: nat, i: nat, units: Text, from: Option<nat>, x: Escape)
    requires start <= i < |s| && Reading(s, mode, quote, start, i, units, from) && s[i] == BACKSLASH && s[i] != quote
    requires x == ReadEscape(mode, s[i..])
    ensures i + x.size <= |s|
    ensures Reading(s, mode, quote, start, i + x.size, units + x.units, Earlier(from, |units|, x.unstable))
  {
    Ahead(s, i);
    assert s[i..][x.size..] == s[i + x.size..];
    ResumePrepend(units, from, x.units, x.unstable, ReadString(mode, quote, s[i + x.size..]));
  }

  lemma EndOfInput(s: Text, mode: LexMode, quote: Unit, start: nat, units: Text, from: Option<nat>)
    requires start <= |s| && Reading(s, mode, quote, start, |s|, units, from)
    ensures Ends(s, mode, quote, start, Progress(units, if from.None? then |units| else from.value, false), |s|)
  {
    assert s[|s|..] == [];
    assert units + [] == units;
  }

  /** `hex4`: the value of four hex digits, or -1. */
  method Hex4At(src: Text, at: nat) returns (value: int)
    requires at <= |src|
    ensures FourHex(src[at..]) ==> value == Hex4(src[at], src[at + 1], src[at + 2], src[at + 3])
    ensures !FourHex(src[at..]) ==> value == -1
  {
    if at + 4 > |src| {
      return -1;
    }
    value := 0;
    for k := at to at + 4
      invariant forall j :: at <= j < k ==> IsHexDigit(src[j])
      invariant k == at ==> value == 0
      invariant k == at + 1 ==> value == HexValue(src[at])
      invariant k == at + 2 ==> value == HexValue(src[at]) * 0x10 + HexValue(src[at + 1])
      invariant k == at + 3 ==> value == HexValue(src[at]) * 0x100 + HexValue(src[at + 1]) * 0x10 + HexValue(src[at + 2])
      invariant k == at + 4 ==> value == Hex4(src[at], src[at + 1], src[at + 2], src[at + 3])
    {
      var cp := src[k];
      if !IsHexDigit(cp) {
        assert !IsHexDigit(src[at..][k - at]);
        return -1;
      }
      value := value * 16 + HexValue(cp);
    }
  }

  method LookPastQuote(src: Text, mode: LexMode, from: nat) returns (look: QuoteLook)
    requires from <= |src|
    ensures look == QuoteLookahead(mode, src[from..])
  {
    var k := SkipFrom(src, from);
    if k >= |src| {
      return Closes;
    }
    var c := src[k];
    if c == COMMA || c == RBRACE || c == RBRACKET || c == COLON {
      return Closes;
    }
    return if c == SLASH && k + 1 == |src| && mode != Strict then Undecided else Inner;
  }

  /** Only a lenient reading looks past the quote. */
  method LookIfLenient(src: Text, mode: LexMode, quote: Unit, from: nat) returns (look: QuoteLook)
    requires from <= |src|
    ensures look == if Lenient(mode, quote) then QuoteLookahead(mode, src[from..]) else Closes
  {
    var lenient := quote == SQUOTE || mode == Streaming;
    if !lenient {
      return Closes;
    }
    look := LookPastQuote(src, mode, from);
  }

  /** The escape at the backslash src[at]. */
  method EscapeAt(src: Text, mode: LexMode, at: nat) returns (x: Escape)
    requires at < |src| && src[at] == BACKSLASH
    ensures x == ReadEscape(mode, src[at..]) && at + x.size <= |src|
  {
    var i, n := at + 1, |src|;
    Ahead(src, at);
    if i >= n {
      return Escape([BACKSLASH], 1, true);
    }
    if src[i] != LOWER_U {
      return Escape(ShortEscape(src[i]), 2, false);
    }
    var unit := Hex4At(src, i + 1);
    if unit >= 0 {
      return Escape([unit], 6, 0xd800 <= unit < 0xdc00 && mode != Strict && i + 4 + 7 > n);
    }
    return Escape([BACKSLASH, LOWER_U], 2, i + 5 > n && mode != Strict);
  }

  /** One pass of the loop at a quote: closed, or how the reading goes on. */
  method AtQuote(src: Text, mode: LexMode, quote: Unit, start: nat, i: nat, ghost units: Text, from: Option<nat>, decoded: nat)
    returns (closed: bool, next: Option<nat>)
    requires start <= i < |src| && Reading(src, mode, quote, start, i, units, from) && src[i] == quote && decoded == |units|
    ensures closed ==> Ends(src, mode, quote, start, Progress(units, |units|, true), i + 1)
    ensures !closed ==> Reading(src, mode, quote, start, i + 1, units + [quote], next)
  {
    hide Ends, Reading;
    var look := LookIfLenient(src, mode, quote, i + 1);
    closed := look == Closes;
    next := from;
    if closed {
      ClosingQuote(src, mode, quote, start, i, units, from);
    } else {
      InnerQuote(src, mode, quote, start, i, units, from, look);
      next := Earlier(from, decoded, look == Undecided);
    }
  }

  /** One pass of the loop at a backslash: the decoded units, and how the reading goes on after them. */
  method AtEscape(src: Text, mode: LexMode, quote: Unit, start: nat, i: nat, ghost units: Text, from: Option<nat>, decoded: nat)
    returns (more: Text, next: Option<nat>, j: nat)
    requires start <= i < |src| && Reading(src, mode, quote, start, i, units, from)
    requires src[i] == BACKSLASH && src[i] != quote && decoded == |units|
    ensures i < j <= |src| && Reading(src, mode, quote, start, j, units + more, next)
  {
    hide Reading, ReadEscape;
    var x := EscapeAt(src, mode, i);
    EscapeUnits(src, mode, quote, start, i, units, from, x);
    more, next, j := x.units, Earlier(from, decoded, x.unstable), i + x.size;
  }

  /** The loop of `string`, from after the opening quote: the decoded token and where the loop stops. */
  method StringLoop(src: Text, mode: LexMode, quote: Unit, start: nat) returns (p: Progress, i: nat)
    requires start <= |src|
    ensures Ends(src, mode, quote, start, p, i)
  {
    i := start;
    var out: Text, runStart: nat, unstableFrom: Option<nat> := [], i, None;
    ghost var units: Text := [];
    StartReading(src, mode, quote, i);
    NoRun(out, src, i);
    hide Ends, Reading, ReadEscape, QuoteLookahead, Lenient, Earlier, WithRun;
    while i < |src|
      invariant start <= runStart <= i <= |src| && units == WithRun(out, src, runStart, i)
      invariant Reading(src, mode, quote, start, i, units, unstableFrom)
    {
      var cc := src[i];
      Longer(out, src, runStart, i);
      if cc == quote {
        var closed, next := AtQuote(src, mode, quote, start, i, units, unstableFrom, |out| + (i - runStart));
        if closed {
          out := WithRun(out, src, runStart, i);
          return Progress(out, |out|, true), i + 1;
        }
        unstableFrom := next;
        units := units + [cc];
        i := i + 1;
      } else if cc == BACKSLASH {
        out := WithRun(out, src, runStart, i);
        var more, next, j := AtEscape(src, mode, quote, start, i, units, unstableFrom, |out|);
        out, unstableFrom, i, runStart := out + more, next, j, j;
        units := out;
        NoRun(out, src, j);
      } else {
        PlainUnit(src, mode, quote, start, i, units, unstableFrom);
        units := units + [cc];
        i := i + 1;
      }
    }
    EndOfInput(src, mode, quote, start, units, unstableFrom);
    out := WithRun(out, src, runStart, i);
    return Progress(out, if unstableFrom.None? then |out| else unstableFrom.value, false), i;
  }

  // ---------- keywords ----------

  const KEYWORDS: seq<(Text, Word)> :=
    [(TRUE_WORD, True), (FALSE_WORD, False), (NULL_WORD, Null),
     (TRUE_PYTHON, True), (FALSE_PYTHON, False), (NONE_PYTHON, Null)]

  lemma FirstKeyword(t: Text, i: nat)
    requires i < |KEYWORDS| && WordAt(KEYWORDS[i].0, t) && forall j :: 0 <= j < i ==> !WordAt(KEYWORDS[j].0, t)
    ensures ReadKeyword(t) == Some((KEYWORDS[i].1, |KEYWORDS[i].0|))
  {
    hide WordAt;
    assert i > 0 ==> !WordAt(KEYWORDS[0].0, t);
    assert i > 1 ==> !WordAt(KEYWORDS[1].0, t);
    assert i > 2 ==> !WordAt(KEYWORDS[2].0, t);
    assert i > 3 ==> !WordAt(KEYWORDS[3].0, t);
    assert i > 4 ==> !WordAt(KEYWORDS[4].0, t);
  }

  lemma NoKeyword(t: Text)
    requires forall j :: 0 <= j < |KEYWORDS| ==> !WordAt(KEYWORDS[j].0, t)
    ensures ReadKeyword(t) == None
  {
    hide WordAt;
    assert !WordAt(KEYWORDS[0].0, t) && !WordAt(KEYWORDS[1].0, t) && !WordAt(KEYWORDS[2].0, t);
    assert !WordAt(KEYWORDS[3].0, t) && !WordAt(KEYWORDS[4].0, t) && !WordAt(KEYWORDS[5].0, t);
  }

  // ---------- runs ----------

  method NumberEnd(s: Text, start: nat) returns (i: nat)
    requires start <= |s|
    ensures start <= i <= |s| && i == start + NumberRun(s[start..])
    ensures s[start..i] == s[start..][..i - start] && s[i..] == s[start..][i - start..]
  {
    i := start;
    while i < |s| && IsNumberChar(s[i])
      invariant start <= i <= |s| && NumberRun(s[start..]) == i - start + NumberRun(s[i..])
    {
      Ahead(s, i);
      i := i + 1;
    }
  }

  method KeyEnd(s: Text, start: nat) returns (i: nat)
    requires start <= |s|
    ensures start <= i <= |s| && i == start + KeyRun(s[start..])
    ensures s[start..i] == s[start..][..i - start] && s[i..] == s[start..][i - start..]
  {
    i := start;
    while i < |s|
      invariant start <= i <= |s| && KeyRun(s[start..]) == i - start + KeyRun(s[i..])
    {
      var cc := s[i];
      Ahead(s, i);
      if cc == COLON || cc == COMMA || cc == RBRACE || IsWhitespace(cc) {
        break;
      }
      i := i + 1;
    }
  }

  // ---------- barewords ----------

  predicate InBareword(s: Text, start: nat, i: nat)
    requires start <= i <= |s|
  {
    var k := BarewordRun(s[i..]);
    BarewordRun(s[start..]) == if k.Some? then Some(i - start + k.value) else None
  }

  lemma StartBareword(s: Text, start: nat)
    requires start <= |s|
    ensures InBareword(s, start, start)
  {
  }

  lemma BarewordUnit(s: Text, start: nat, i: nat)
    requires start <= i < |s| && InBareword(s, start, i) && !EndsBareword(s[i])
    ensures if s[i] == QUOTE || s[i] == LBRACE || s[i] == LBRACKET
               || (s[i] == COLON && (i + 1 >= |s| || (s[i + 1] != SLASH && s[i + 1] != BACKSLASH)))
            then ReadBareword(s[start..]) == None else InBareword(s, start, i + 1)
  {
    Ahead(s, i);
  }

  lemma BarewordEnd(s: Text, start: nat, i: nat)
    requires start <= i <= |s| && InBareword(s, start, i) && (i < |s| ==> EndsBareword(s[i]))
    ensures i == |s| ==> ReadBareword(s[start..]) == None
    ensures i < |s| ==>
      ReadBareword(s[start..])
      == (var word := TrimEnd(s[start..i]); if NonRecoverable(word) then None else Some((word, i - start)))
    ensures s[start..][i - start..] == s[i..]
  {
    if i < |s| {
      Ahead(s, i);
      assert s[start..][..i - start] == s[start..i];
    }
  }

  method TrimmedEnd(s: Text, start: nat, i: nat) returns (end: nat)
    requires start <= i <= |s|
    ensures start <= end <= i && s[start..end] == TrimEnd(s[start..i])
  {
    end := i;
    while end > start && IsWhitespace(s[end - 1])
      invariant start <= end <= i && TrimEnd(s[start..end]) == TrimEnd(s[start..i])
    {
      assert s[start..end][..end - start - 1] == s[start..end - 1];
      end := end - 1;
    }
  }

  class Lexer {
    const src: Text
    const mode: LexMode
    var pos: nat

    constructor (src: Text, mode: LexMode, pos: nat)
      requires pos <= |src|
      ensures this.src == src && this.mode == mode && this.pos == pos
    {
      this.src, this.mode, this.pos := src, mode, pos;
    }

    predicate Valid()
      reads this
    {
      pos <= |src|
    }

    /** The text from the cursor on. */
    function Rest(): Text
      reads this
      requires Valid()
    {
      src[pos..]
    }

    method Ws()
      requires Valid()
      modifies this
      ensures Valid() && Rest() == SkipInsignificant(old(Rest()))
    {
      pos := SkipFrom(src, pos);
    }

    /** `string`, at the opening quote. Strict mode throws on an unterminated string. */
    method String(quote: Unit) returns (r: Token<Progress>)
      requires Valid() && pos < |src|
      modifies this
      ensures Valid()
      ensures var b := ReadString(mode, quote, old(src[pos + 1..]));
        if b.complete || mode != Strict
        then r == Ok(Progress(b.value, b.StableLen(), b.complete)) && Rest() == b.rest else r == Throws
    {
      hide ReadString;
      var progress, i := StringLoop(src, mode, quote, pos + 1);
      if !progress.complete && mode == Strict {
        return Throws;
      }
      pos := i;
      return Ok(progress);
    }

    /** `number`: the cursor is left past the token in any case. */
    method Number() returns (r: Token<real>)
      requires Valid()
      modifies this
      ensures Valid() && Rest() == old(Rest())[NumberRun(old(Rest()))..]
      ensures var n := JsNumber(old(Rest())[..NumberRun(old(Rest()))]);
        r == if n.Some? then Ok(n.value) else if mode == Strict then Throws else Undefined
    {
      hide NumberRun, JsNumber;
      var start := pos;
      var i := NumberEnd(src, start);
      pos := i;
      var value := JsNumber(src[start..i]);
      return if value.Some? then Ok(value.value) else if mode == Strict then Throws else Undefined;
    }

    /** `startsWith` at the cursor, and no identifier going on after it. */
    method Matches(word: Text) returns (r: bool)
      requires Valid()
      ensures r == WordAt(word, Rest())
    {
      if pos + |word| > |src| {
        return false;
      }
      assert Rest()[..|word|] == src[pos..pos + |word|];
      if src[pos..pos + |word|] != word {
        return false;
      }
      return pos + |word| == |src| || !IsIdentChar(src[pos + |word|]);
    }

    /** `keyword`: consumes only on success. */
    method Keyword() returns (r: Option<Word>)
      requires Valid()
      modifies this
      ensures Valid()
      ensures var k := ReadKeyword(old(Rest()));
        if k.Some? then r == Some(k.value.0) && Rest() == old(Rest())[k.value.1..] else r == None && Rest() == old(Rest())
    {
      for i := 0 to |KEYWORDS|
        invariant pos == old(pos)
        invariant forall j :: 0 <= j < i ==> !WordAt(KEYWORDS[j].0, Rest())
      {
        var word := KEYWORDS[i].0;
        var here := Matches(word);
        if here {
          FirstKeyword(Rest(), i);
          assert src[pos + |word|..] == Rest()[|word|..];
          pos := pos + |word|;
          return Some(KEYWORDS[i].1);
        }
      }
      NoKeyword(Rest());
      return None;
    }

    method UnquotedKey() returns (key: Text)
      requires Valid()
      modifies this
      ensures Valid() && key == old(Rest())[..KeyRun(old(Rest()))] && Rest() == old(Rest())[KeyRun(old(Rest()))..]
    {
      hide KeyRun;
      var start := pos;
      var i := KeyEnd(src, start);
      pos := i;
      key := src[start..i];
    }

    /** `bareword`: the cursor only moves on success. */
    method Bareword() returns (r: Token<Text>)
      requires Valid()
      modifies this
      ensures Valid()
      ensures var b := ReadBareword(old(Rest()));
        if b.Some? then r == Ok(b.value.0) && Rest() == old(Rest())[b.value.1..]
        else Rest() == old(Rest()) && r == if mode == Strict then Throws else Undefined
    {
      var start, i := pos, pos;
      ghost var t := src[start..];
      var unexpected := if mode == Strict then Throws else Undefined;
      StartBareword(src, start);
      while i < |src| && !EndsBareword(src[i])
        invariant start <= i <= |src| && pos == start && InBareword(src, start, i)
      {
        var cc := src[i];
        BarewordUnit(src, start, i);
        if cc == QUOTE || cc == LBRACE || cc == LBRACKET
           || (cc == COLON && (i + 1 >= |src| || (src[i + 1] != SLASH && src[i + 1] != BACKSLASH))) {
          return unexpected;
        }
        i := i + 1;
      }
      BarewordEnd(src, start, i);
      if i >= |src| {
        return unexpected;
      }
      var end := TrimmedEnd(src, start, i);
      var word := src[start..end];
      if NonRecoverable(word) {
        return unexpected;
      }
      pos := i;
      return Ok(word);
    }
  }
}
