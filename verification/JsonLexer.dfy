/**
 The tolerant lexer, specified: each reader as a function of the text from the cursor on. The class
 of LexerCursor, which moves a cursor through the source, is proved against these functions.
 */
module JsonLexer {
  import opened Units
  import opened JsonGrammar

  datatype LexMode = Strict | Streaming | Incoming

  // ---------- whitespace and comments ----------

  /** From after `//` to the line end, which stays. */
  function SkipLine(t: Text): (r: Text)
    ensures |r| <= |t|
  {
    if t == [] || t[0] == NEWLINE then t else SkipLine(t[1..])
  }

  /** From after the opening of a block comment to after its end, or to the end of input. */
  function SkipBlock(t: Text): (r: Text)
    ensures |r| <= |t|
  {
    if |t| < 2 then []
    else if t[0] == STAR && t[1] == SLASH then t[2..]
    else SkipBlock(t[1..])
  }

  /** `skipInsignificant`: whitespace and comments; a lone `/` at the end of input is left in place. */
  function SkipInsignificant(t: Text): (r: Text)
    ensures |r| <= |t|
    ensures r != [] ==> !IsWhitespace(r[0])
    decreases |t|
  {
    if t == [] then []
    else if IsWhitespace(t[0]) then SkipInsignificant(t[1..])
    else if |t| >= 2 && t[0] == SLASH && t[1] == SLASH then SkipInsignificant(SkipLine(t[2..]))
    else if |t| >= 2 && t[0] == SLASH && t[1] == STAR then SkipInsignificant(SkipBlock(t[2..]))
    else t
  }

  // ---------- strings ----------

  datatype QuoteLook = Closes | Inner | Undecided

  /** `#quoteLookahead`, from after the candidate closing quote. */
  function QuoteLookahead(mode: LexMode, t: Text): QuoteLook {
    var k := SkipInsignificant(t);
    if k == [] then Closes
    else if k[0] == COMMA || k[0] == RBRACE || k[0] == RBRACKET || k[0] == COLON then Closes
    else if k[0] == SLASH && |k| == 1 && mode != Strict then Undecided
    else Inner
  }

  predicate Lenient(mode: LexMode, quote: Unit) {
    quote == SQUOTE || mode == Streaming
  }

  /** What one backslash escape decodes to, how much of the text it takes, and whether more input may change it. */
  datatype Escape = Escape(units: Text, size: nat, unstable: bool)

  predicate FourHex(t: Text) {
    |t| >= 4 && IsHexDigit(t[0]) && IsHexDigit(t[1]) && IsHexDigit(t[2]) && IsHexDigit(t[3])
  }

  function Hex4(h0: Unit, h1: Unit, h2: Unit, h3: Unit): Unit
    requires IsHexDigit(h0) && IsHexDigit(h1) && IsHexDigit(h2) && IsHexDigit(h3)
  {
    HexValue(h0) * 0x1000 + HexValue(h1) * 0x100 + HexValue(h2) * 0x10 + HexValue(h3)
  }

  /** What the unit after the backslash stands for, other than `u`. */
  function ShortEscape(e: Unit): Text {
    if e == QUOTE || e == SQUOTE || e == BACKSLASH || e == SLASH then [e]
    else if e == LOWER_B then [0x08]
    else if e == LOWER_F then [0x0c]
    else if e == LOWER_N then [NEWLINE]
    else if e == LOWER_R then [RETURN]
    else if e == LOWER_T then [0x09]
    else [BACKSLASH, e]
  }

  /** The escape at the backslash t[0]. */
  function ReadEscape(mode: LexMode, t: Text): (x: Escape)
    requires t != []
    ensures 1 <= x.size <= |t|
  {
    if |t| == 1 then Escape([BACKSLASH], 1, true)
    else if t[1] != LOWER_U then Escape(ShortEscape(t[1]), 2, false)
    else if FourHex(t[2..]) then
      var unit := Hex4(t[2], t[3], t[4], t[5]);
      // a high surrogate may still acquire its low half
      Escape([unit], 6, 0xd800 <= unit < 0xdc00 && mode != Strict && |t| - 5 < 7)
    else Escape([BACKSLASH, LOWER_U], 2, mode != Strict && |t| - 1 < 5)
  }

  /** Decoded content, the first unit more input may change (if any), and the text after the token. */
  datatype StringBody = StringBody(value: Text, unstable: Option<nat>, complete: bool, rest: Text) {
    function StableLen(): nat {
      if complete || unstable.None? then |value| else unstable.value
    }

    predicate Valid() {
      unstable.Some? ==> unstable.value <= |value|
    }

    /** The same token with `units` decoded in front of it. */
    function Prepend(units: Text, unstableHere: bool): StringBody {
      this.(value := units + value,
            unstable := if unstableHere then Some(0)
                        else if unstable.Some? then Some(|units| + unstable.value) else None)
    }
  }

  /** `string`, from after the opening quote. Strict mode turns an incomplete result into an exception. */
  function ReadString(mode: LexMode, quote: Unit, t: Text): (b: StringBody)
    ensures b.Valid() && |b.rest| <= |t|
    ensures b.complete ==> |b.rest| < |t|
    ensures !b.complete ==> b.rest == []
    decreases |t|
  {
    if t == [] then StringBody([], None, false, [])
    else if t[0] == quote then
      var look := if Lenient(mode, quote) then QuoteLookahead(mode, t[1..]) else Closes;
      if look == Closes then StringBody([], None, true, t[1..])
      else ReadString(mode, quote, t[1..]).Prepend([quote], look == Undecided)
    else if t[0] != BACKSLASH then ReadString(mode, quote, t[1..]).Prepend([t[0]], false)
    else
      var x := ReadEscape(mode, t);
      ReadString(mode, quote, t[x.size..]).Prepend(x.units, x.unstable)
  }

  // ---------- numbers, keywords, barewords, keys ----------

  predicate IsNumberStart(u: Unit) {
    u == MINUS || u == PLUS || u == DOT || IsDigit(u)
  }

  predicate IsNumberChar(u: Unit) {
    IsDigit(u) || u == MINUS || u == PLUS || u == DOT || 0x61 <= LowerBit(u) <= 0x66 || LowerBit(u) == 0x78
  }

  predicate IsIdentChar(u: Unit) {
    IsDigit(u) || 0x61 <= LowerBit(u) <= 0x7a || u == 0x5f || u == 0x24
  }

  /** Length of the leading run of number characters. */
  function NumberRun(t: Text): (k: nat)
    ensures k <= |t|
  {
    if t == [] || !IsNumberChar(t[0]) then 0 else 1 + NumberRun(t[1..])
  }

  const TRUE_PYTHON: Text := [0x54, 0x72, 0x75, 0x65]
  const FALSE_PYTHON: Text := [0x46, 0x61, 0x6c, 0x73, 0x65]
  const NONE_PYTHON: Text := [0x4e, 0x6f, 0x6e, 0x65]

  /** `word` stands at the start of t and an identifier does not go on after it. */
  predicate WordAt(word: Text, t: Text) {
    word <= t && (|t| == |word| || !IsIdentChar(t[|word|]))
  }

  /** `keyword`: the literal at the cursor with its length. */
  function ReadKeyword(t: Text): (r: Option<(Word, nat)>)
    ensures r.Some? ==> 0 < r.value.1 <= |t|
  {
    if WordAt(TRUE_WORD, t) then Some((True, 4))
    else if WordAt(FALSE_WORD, t) then Some((False, 5))
    else if WordAt(NULL_WORD, t) then Some((Null, 4))
    else if WordAt(TRUE_PYTHON, t) then Some((True, 4))
    else if WordAt(FALSE_PYTHON, t) then Some((False, 5))
    else if WordAt(NONE_PYTHON, t) then Some((Null, 4))
    else None
  }

  /** Length of an unquoted key: everything up to `:` / `,` / `}` / whitespace. */
  function KeyRun(t: Text): (k: nat)
    ensures k <= |t|
  {
    if t == [] || t[0] == COLON || t[0] == COMMA || t[0] == RBRACE || IsWhitespace(t[0]) then 0
    else 1 + KeyRun(t[1..])
  }

  predicate EndsBareword(u: Unit) {
    u == COMMA || u == RBRACE || u == RBRACKET || u == NEWLINE || u == RETURN
  }

  /** A unit that makes bareword recovery fail: a quote, an opening delimiter, or a key-like colon. */
  predicate BreaksBareword(t: Text)
    requires t != []
  {
    t[0] == QUOTE || t[0] == LBRACE || t[0] == LBRACKET
    || (t[0] == COLON && (|t| < 2 || (t[1] != SLASH && t[1] != BACKSLASH)))
  }

  /** Length of a bareword up to its delimiter; None when it is cut by the end of input or broken. */
  function BarewordRun(t: Text): (k: Option<nat>)
    ensures k.Some? ==> k.value < |t| && EndsBareword(t[k.value])
  {
    if t == [] then None
    else if EndsBareword(t[0]) then Some(0)
    else if BreaksBareword(t) then None
    else
      var k := BarewordRun(t[1..]);
      if k.Some? then Some(k.value + 1) else None
  }

  function TrimEnd(t: Text): Text {
    if t != [] && IsWhitespace(t[|t| - 1]) then TrimEnd(t[..|t| - 1]) else t
  }

  /** The words that the source's table of atoms lists. */
  const LISTED: seq<string> := ["NaN", "Infinity", "-Infinity", "+Infinity", "undefined"]

  /** The properties every JavaScript object inherits; a lookup by name in that table finds these too. */
  const INHERITED: seq<string> := [
    "constructor", "hasOwnProperty", "isPrototypeOf", "propertyIsEnumerable", "toLocaleString", "toString", "valueOf",
    "__proto__", "__defineGetter__", "__defineSetter__", "__lookupGetter__", "__lookupSetter__"
  ]

  /** The units of an ASCII word. */
  function Spelled(word: string): Text {
    seq(|word|, i requires 0 <= i < |word| => word[i] as int % 0x10000)
  }

  /** The lookup of the word in the table is truthy. */
  predicate NonRecoverable(w: Text) {
    (exists k :: 0 <= k < |LISTED| && w == Spelled(LISTED[k])) || (exists k :: 0 <= k < |INHERITED| && w == Spelled(INHERITED[k]))
  }

  /** `bareword`: the recovered word and how much of the text it takes. */
  function ReadBareword(t: Text): (r: Option<(Text, nat)>)
    ensures r.Some? ==> r.value.1 < |t|
  {
    var k := BarewordRun(t);
    if k.None? || NonRecoverable(TrimEnd(t[..k.value])) then None
    else Some((TrimEnd(t[..k.value]), k.value))
  }

  // ---------- which words are recovered ----------

  /** Letters, digits, `_` and `$` only. */
  predicate IsName(w: Text) {
    forall k :: 0 <= k < |w| ==> IsIdentChar(w[k])
  }

  lemma {:induction false} NameRun(w: Text, rest: Text)
    requires IsName(w) && rest != [] && EndsBareword(rest[0])
    ensures BarewordRun(w + rest) == Some(|w|)
  {
    if w == [] {
      assert w + rest == rest;
    } else {
      assert (w + rest)[1..] == w[1..] + rest && (w + rest)[0] == w[0];
      NameRun(w[1..], rest);
    }
  }

  /** A name before a delimiter is recovered as a string, unless the lookup finds it: listed, or inherited. */
  lemma NameRecovered(w: Text, rest: Text)
    requires w != [] && IsName(w) && rest != [] && EndsBareword(rest[0])
    ensures ReadBareword(w + rest) == if NonRecoverable(w) then None else Some((w, |w|))
  {
    NameRun(w, rest);
    assert (w + rest)[..|w|] == w;
  }

  /** `constructor` is no atom of the list, and is not recovered either. */
  lemma ConstructorRefused()
    ensures "constructor" !in LISTED
    ensures ReadBareword(Spelled("constructor") + [COMMA]) == None
  {
    var w := Spelled("constructor");
    assert w == Spelled(INHERITED[0]);
    assert forall k :: 0 <= k < |w| ==> 0x61 <= w[k] <= 0x7a;
    NameRecovered(w, [COMMA]);
  }
}
