/**
 The JSON grammar of RFC 8259 as concrete syntax trees. `Print` is the text of a tree, so
 "t is a JSON text" means that some well-formed tree prints as t.
 */
module JsonGrammar {
  import opened Units

  /** One character of a string body (RFC 8259, section 7). */
  datatype StrChar =
    | Raw(u: Unit)
    | Short(e: Unit)
    | Hex(h0: Unit, h1: Unit, h2: Unit, h3: Unit)

  datatype Option<+T> = None | Some(value: T)

  /** Exponent part of a number: marker, optional sign, digits. */
  datatype Exponent = Exponent(marker: Unit, sign: Text, digits: Text)

  /** A number (RFC 8259, section 6). */
  datatype Number = Number(minus: bool, whole: Text, frac: Option<Text>, exp: Option<Exponent>)

  datatype Word = True | False | Null

  /** A value; whitespace is kept wherever the grammar allows it. */
  datatype Value =
    | Str(chars: seq<StrChar>)
    | Num(num: Number)
    | Lit(word: Word)
    | EmptyArray(blank: Text)
    | Array(elements: Elements)
    | EmptyObject(blank: Text)
    | Object(members: Members)

  datatype Elements =
    | LastElement(pre: Text, value: Value, post: Text)
    | MoreElements(pre: Text, value: Value, post: Text, rest: Elements)

  datatype Members =
    | LastMember(pre: Text, key: seq<StrChar>, beforeColon: Text, afterColon: Text, value: Value, post: Text)
    | MoreMembers(pre: Text, key: seq<StrChar>, beforeColon: Text, afterColon: Text, value: Value, post: Text, rest: Members)

  // ---------- well-formedness ----------

  predicate StrCharOk(c: StrChar) {
    match c
    case Raw(u) => u >= 0x20 && u != QUOTE && u != BACKSLASH
    case Short(e) => IsEscapeChar(e) && e != LOWER_U
    case Hex(h0, h1, h2, h3) => IsHexDigit(h0) && IsHexDigit(h1) && IsHexDigit(h2) && IsHexDigit(h3)
  }

  predicate StrOk(s: seq<StrChar>) {
    forall k :: 0 <= k < |s| ==> StrCharOk(s[k])
  }

  predicate WholeOk(t: Text) {
    t == [0x30] || (t != [] && AllDigits(t) && t[0] != 0x30)
  }

  predicate ExponentOk(e: Exponent) {
    && (e.marker == LOWER_E || e.marker == UPPER_E)
    && (e.sign == [] || e.sign == [PLUS] || e.sign == [MINUS])
    && e.digits != [] && AllDigits(e.digits)
  }

  predicate NumberOk(n: Number) {
    && WholeOk(n.whole)
    && (n.frac.Some? ==> n.frac.value != [] && AllDigits(n.frac.value))
    && (n.exp.Some? ==> ExponentOk(n.exp.value))
  }

  predicate ValueOk(v: Value) {
    match v
    case Str(chars) => StrOk(chars)
    case Num(num) => NumberOk(num)
    case Lit(_) => true
    case EmptyArray(blank) => AllWhitespace(blank)
    case Array(elements) => ElementsOk(elements)
    case EmptyObject(blank) => AllWhitespace(blank)
    case Object(members) => MembersOk(members)
  }

  predicate ElementsOk(es: Elements) {
    && AllWhitespace(es.pre) && AllWhitespace(es.post) && ValueOk(es.value)
    && (es.MoreElements? ==> ElementsOk(es.rest))
  }

  predicate MembersOk(ms: Members) {
    && AllWhitespace(ms.pre) && StrOk(ms.key) && AllWhitespace(ms.beforeColon)
    && AllWhitespace(ms.afterColon) && ValueOk(ms.value) && AllWhitespace(ms.post)
    && (ms.MoreMembers? ==> MembersOk(ms.rest))
  }

  // ---------- printing ----------

  function PrintChar(c: StrChar): Text {
    match c
    case Raw(u) => [u]
    case Short(e) => [BACKSLASH, e]
    case Hex(h0, h1, h2, h3) => [BACKSLASH, LOWER_U, h0, h1, h2, h3]
  }

  function PrintChars(s: seq<StrChar>): Text {
    if s == [] then [] else PrintChar(s[0]) + PrintChars(s[1..])
  }

  function PrintString(s: seq<StrChar>): Text {
    [QUOTE] + PrintChars(s) + [QUOTE]
  }

  function PrintFrac(f: Option<Text>): Text {
    if f.Some? then [DOT] + f.value else []
  }

  function PrintExp(e: Option<Exponent>): Text {
    if e.Some? then [e.value.marker] + e.value.sign + e.value.digits else []
  }

  function PrintNumber(n: Number): Text {
    (if n.minus then [MINUS] else []) + n.whole + PrintFrac(n.frac) + PrintExp(n.exp)
  }

  function PrintWord(w: Word): Text {
    match w
    case True => TRUE_WORD
    case False => FALSE_WORD
    case Null => NULL_WORD
  }

  function Print(v: Value): Text {
    match v
    case Str(chars) => PrintString(chars)
    case Num(num) => PrintNumber(num)
    case Lit(word) => PrintWord(word)
    case EmptyArray(blank) => [LBRACKET] + blank + [RBRACKET]
    case Array(elements) => [LBRACKET] + PrintElements(elements)
    case EmptyObject(blank) => [LBRACE] + blank + [RBRACE]
    case Object(members) => [LBRACE] + PrintMembers(members)
  }

  /** The elements with their separators and the closing bracket. */
  function PrintElements(es: Elements): Text {
    es.pre + Print(es.value) + es.post +
    (if es.MoreElements? then [COMMA] + PrintElements(es.rest) else [RBRACKET])
  }

  /** The members with their separators and the closing brace. */
  function PrintMembers(ms: Members): Text {
    ms.pre + PrintString(ms.key) + ms.beforeColon + [COLON] + ms.afterColon + Print(ms.value) + ms.post +
    (if ms.MoreMembers? then [COMMA] + PrintMembers(ms.rest) else [RBRACE])
  }

  /** t is a JSON text: one value with optional whitespace around it (RFC 8259, section 2). */
  ghost predicate IsJsonText(t: Text) {
    exists pre, v, post ::
      AllWhitespace(pre) && ValueOk(v) && AllWhitespace(post) && t == pre + Print(v) + post
  }
}
