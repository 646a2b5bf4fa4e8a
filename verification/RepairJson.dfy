/**
 The text-level repair of string contents: raw control characters are escaped and the backslash of an
 invalid escape is doubled. It is idempotent, leaves JSON texts alone and keeps what a string means.
 */
module RepairJson {
  import opened Units
  import opened JsonGrammar
  import opened JsonLexer
  import opened JsonValue
  import R = JsonReading

  // ---------- the repaired text ----------

  function HexDigitOf(v: nat): Unit
    requires v < 16
  {
    if v < 10 then 0x30 + v else 0x57 + v
  }

  function ControlEscape(c: Unit): Text
    requires c < 0x20
  {
    if c == 0x08 then [BACKSLASH, LOWER_B]
    else if c == 0x09 then [BACKSLASH, LOWER_T]
    else if c == NEWLINE then [BACKSLASH, LOWER_N]
    else if c == 0x0c then [BACKSLASH, LOWER_F]
    else if c == RETURN then [BACKSLASH, LOWER_R]
    else [BACKSLASH, LOWER_U, 0x30, 0x30, HexDigitOf(c / 16), HexDigitOf(c % 16)]
  }

  /** How much of a string's text is handled at once, and what it is replaced by. */
  datatype Piece = Piece(size: nat, out: Text)

  /** At the start of t, inside a string. */
  function PieceAt(t: Text): (p: Piece)
    requires t != [] && t[0] != QUOTE
    ensures 1 <= p.size <= |t|
    ensures p.out != [] && p.out[0] != QUOTE
  {
    if t[0] == BACKSLASH then
      if |t| >= 2 && t[1] == LOWER_U && FourHex(t[2..]) then Piece(6, t[..6])
      else if |t| >= 2 && t[1] != LOWER_U && IsEscapeChar(t[1]) then Piece(2, t[..2])
      else Piece(1, [BACKSLASH, BACKSLASH])
    else if t[0] < 0x20 then Piece(1, ControlEscape(t[0]))
    else Piece(1, [t[0]])
  }

  function Outside(t: Text): Text
    decreases |t|
  {
    if t == [] then []
    else if t[0] == QUOTE then [QUOTE] + Inside(t[1..])
    else [t[0]] + Outside(t[1..])
  }

  function Inside(t: Text): Text
    decreases |t|
  {
    if t == [] then []
    else if t[0] == QUOTE then [QUOTE] + Outside(t[1..])
    else PieceAt(t).out + Inside(t[PieceAt(t).size..])
  }

  // ---------- the loop ----------

  function Join(parts: seq<Text>): Text {
    if parts == [] then [] else Join(parts[..|parts| - 1]) + parts[|parts| - 1]
  }

  lemma JoinLast(parts: seq<Text>, a: Text, b: Text)
    ensures Join(parts + [a, b]) == Join(parts) + a + b
  {
    var all := parts + [a, b];
    assert all[..|parts| + 1] == parts + [a];
    assert (parts + [a])[..|parts|] == parts;
  }

  /** What the rest of the loop makes of the text from i on. */
  function Rest(json: Text, i: nat, inString: bool): Text
    requires i <= |json|
  {
    if inString then Inside(json[i..]) else Outside(json[i..])
  }

  predicate Progress(json: Text, parts: seq<Text>, lastEmit: nat, i: nat, inString: bool)
    requires lastEmit <= i <= |json|
  {
    Join(parts) + json[lastEmit..i] + Rest(json, i, inString) == Outside(json)
  }

  /** Moving on over text that stays. */
  lemma Advance(json: Text, parts: seq<Text>, lastEmit: nat, i: nat, inString: bool, j: nat, after: bool)
    requires lastEmit <= i <= j <= |json| && Progress(json, parts, lastEmit, i, inString)
    requires Rest(json, i, inString) == json[i..j] + Rest(json, j, after)
    ensures Progress(json, parts, lastEmit, j, after)
  {
    R.Regroup(Join(parts), json[lastEmit..i], json[i..j] + Rest(json, j, after));
    R.Regroup(json[lastEmit..i], json[i..j], Rest(json, j, after));
    assert json[lastEmit..i] + json[i..j] == json[lastEmit..j];
    R.Regroup(Join(parts), json[lastEmit..j], Rest(json, j, after));
  }

  /** One unit is replaced. */
  lemma Replace(json: Text, parts: seq<Text>, lastEmit: nat, i: nat, out: Text)
    requires lastEmit <= i < |json| && Progress(json, parts, lastEmit, i, true)
    requires json[i] != QUOTE && PieceAt(json[i..]) == Piece(1, out)
    ensures Progress(json, parts + [json[lastEmit..i], out], i + 1, i + 1, true)
  {
    JoinLast(parts, json[lastEmit..i], out);
    assert json[i..][1..] == json[i + 1..];
    R.Regroup(Join(parts) + json[lastEmit..i], out, Inside(json[i + 1..]));
    assert json[i + 1..i + 1] == [];
    assert Join(parts) + json[lastEmit..i] + out + [] == Join(parts) + json[lastEmit..i] + out;
  }

  lemma Kept(json: Text, parts: seq<Text>, lastEmit: nat, i: nat, size: nat)
    requires lastEmit <= i < |json| && i + size <= |json| && json[i] != QUOTE
    requires PieceAt(json[i..]) == Piece(size, json[i..][..size]) && Progress(json, parts, lastEmit, i, true)
    ensures Progress(json, parts, lastEmit, i + size, true)
  {
    assert json[i..][size..] == json[i + size..];
    assert json[i..][..size] == json[i..i + size];
    Advance(json, parts, lastEmit, i, true, i + size, true);
  }

  lemma Unquoted(json: Text, i: nat)
    requires i < |json| && json[i] != QUOTE
    ensures Rest(json, i, false) == json[i..i + 1] + Rest(json, i + 1, false)
  {
    assert json[i..][1..] == json[i + 1..];
  }

  lemma Quoted(json: Text, parts: seq<Text>, lastEmit: nat, i: nat, inString: bool)
    requires lastEmit <= i < |json| && json[i] == QUOTE && Progress(json, parts, lastEmit, i, inString)
    ensures Progress(json, parts, lastEmit, i + 1, !inString)
  {
    assert json[i..][1..] == json[i + 1..];
    Advance(json, parts, lastEmit, i, inString, i + 1, !inString);
  }

  lemma AtStart(json: Text)
    ensures Progress(json, [], 0, 0, false)
  {
    assert json[0..0] == [] && json[0..] == json;
  }

  /** `repairJson`. */
  method Repair(json: Text) returns (r: Text)
    ensures r == Outside(json)
  {
    var len := |json|;
    var parts: seq<Text> := [];
    var lastEmit, inString, i := 0, false, 0;
    AtStart(json);
    hide Progress, Rest, PieceAt, Outside, Inside, Join, ControlEscape;
    while i < len
      invariant lastEmit <= i <= len && (parts == [] ==> lastEmit == 0)
      invariant Progress(json, parts, lastEmit, i, inString)
      decreases len - i
    {
      if !inString {
        i := SkipToQuote(json, parts, lastEmit, i);
        if i >= len {
          break;
        }
        Quoted(json, parts, lastEmit, i, false);
        inString := true;
        i := i + 1;
        continue;
      }
      i := SkipPlain(json, parts, lastEmit, i);
      if i >= len {
        break;
      }
      var cp := json[i];
      if cp == QUOTE {
        Quoted(json, parts, lastEmit, i, true);
        inString := false;
        i := i + 1;
        continue;
      }
      if cp == BACKSLASH {
        var size := EscapeSize(json, i);
        if size > 0 {
          Kept(json, parts, lastEmit, i, size);
          i := i + size;
          continue;
        }
        Replace(json, parts, lastEmit, i, [BACKSLASH, BACKSLASH]);
        parts := parts + [json[lastEmit..i], [BACKSLASH, BACKSLASH]];
        lastEmit := i + 1;
        i := i + 1;
        continue;
      }
      ControlPiece(json, i);
      Replace(json, parts, lastEmit, i, ControlEscape(cp));
      parts := parts + [json[lastEmit..i], ControlEscape(cp)];
      lastEmit := i + 1;
      i := i + 1;
    }
    AtEnd(json, parts, lastEmit, inString);
    if |parts| == 0 {
      return json;
    }
    r := Join(parts) + json[lastEmit..];
  }

  /** The length of the valid escape at the backslash; 0 when it is not valid. */
  method EscapeSize(json: Text, i: nat) returns (size: nat)
    requires i < |json| && json[i] == BACKSLASH
    ensures i + size <= |json|
    ensures PieceAt(json[i..]) == if size > 0 then Piece(size, json[i..][..size]) else Piece(1, [BACKSLASH, BACKSLASH])
  {
    var len := |json|;
    ghost var t := json[i..];
    assert |t| >= 2 ==> t[2..] == json[i + 2..];
    if i + 1 >= len {
      return 0;
    }
    if json[i + 1] == LOWER_U {
      if i + 5 < len && IsHexDigit(json[i + 2]) && IsHexDigit(json[i + 3]) && IsHexDigit(json[i + 4]) && IsHexDigit(json[i + 5]) {
        return 6;
      }
      return 0;
    }
    return if IsEscapeChar(json[i + 1]) then 2 else 0;
  }

  lemma ControlPiece(json: Text, i: nat)
    requires i < |json| && json[i] < 0x20
    ensures PieceAt(json[i..]) == Piece(1, ControlEscape(json[i]))
  {
  }

  lemma AtEnd(json: Text, parts: seq<Text>, lastEmit: nat, inString: bool)
    requires lastEmit <= |json| && Progress(json, parts, lastEmit, |json|, inString)
    requires parts == [] ==> lastEmit == 0
    ensures Join(parts) + json[lastEmit..] == Outside(json)
    ensures parts == [] ==> json == Outside(json)
  {
    assert json[|json|..] == [];
    assert Rest(json, |json|, inString) == [];
    assert json[lastEmit..|json|] == json[lastEmit..];
    assert Join(parts) + json[lastEmit..] + [] == Join(parts) + json[lastEmit..];
    if parts == [] {
      assert [] + json[0..] == json;
    }
  }

  method SkipToQuote(json: Text, ghost parts: seq<Text>, ghost lastEmit: nat, i: nat) returns (j: nat)
    requires lastEmit <= i <= |json| && Progress(json, parts, lastEmit, i, false)
    ensures i <= j <= |json| && (j < |json| ==> json[j] == QUOTE) && Progress(json, parts, lastEmit, j, false)
    ensures forall k :: i <= k < j ==> json[k] != QUOTE
  {
    j := i;
    while j < |json| && json[j] != QUOTE
      invariant i <= j <= |json| && Progress(json, parts, lastEmit, j, false)
      invariant forall k :: i <= k < j ==> json[k] != QUOTE
    {
      hide Progress, Rest, Outside, Inside, Join;
      Unquoted(json, j);
      Advance(json, parts, lastEmit, j, false, j + 1, false);
      j := j + 1;
    }
  }

  method SkipPlain(json: Text, ghost parts: seq<Text>, ghost lastEmit: nat, i: nat) returns (j: nat)
    requires lastEmit <= i <= |json| && Progress(json, parts, lastEmit, i, true)
    ensures i <= j <= |json| && Progress(json, parts, lastEmit, j, true)
    ensures j < |json| ==> json[j] < 0x20 || json[j] == QUOTE || json[j] == BACKSLASH
  {
    j := i;
    while j < |json|
      invariant i <= j <= |json| && Progress(json, parts, lastEmit, j, true)
    {
      var cp := json[j];
      if cp < 0x20 || cp == QUOTE || cp == BACKSLASH {
        break;
      }
      assert json[j..][..1] == [json[j]];
      Kept(json, parts, lastEmit, j, 1);
      j := j + 1;
    }
  }

  // ---------- idempotent ----------

  /** What a piece is replaced by is a piece that stays as it is, whatever follows. */
  lemma PieceStays(t: Text, more: Text)
    requires t != [] && t[0] != QUOTE
    ensures PieceAt(PieceAt(t).out + more) == Piece(|PieceAt(t).out|, PieceAt(t).out)
  {
    var p := PieceAt(t);
    var s := p.out + more;
    assert s[..|p.out|] == p.out;
    if |p.out| == 6 {
      assert s[2..][0] == p.out[2] && s[2..][1] == p.out[3] && s[2..][2] == p.out[4] && s[2..][3] == p.out[5];
    }
  }

  lemma InsidePiece(t: Text, more: Text)
    requires t != [] && t[0] != QUOTE
    ensures Inside(PieceAt(t).out + more) == PieceAt(t).out + Inside(more)
  {
    var p := PieceAt(t);
    PieceStays(t, more);
    assert (p.out + more)[|p.out|..] == more;
  }

  /** Repairing twice is repairing once. */
  lemma {:induction false} RepairIsIdempotent(t: Text)
    ensures Outside(Outside(t)) == Outside(t)
    decreases |t|
  {
    if t != [] {
      if t[0] == QUOTE {
        InsideIsIdempotent(t[1..]);
        assert ([QUOTE] + Inside(t[1..]))[1..] == Inside(t[1..]);
      } else {
        RepairIsIdempotent(t[1..]);
        assert ([t[0]] + Outside(t[1..]))[1..] == Outside(t[1..]);
      }
    }
  }

  lemma {:induction false} InsideIsIdempotent(t: Text)
    ensures Inside(Inside(t)) == Inside(t)
    decreases |t|
  {
    if t != [] {
      if t[0] == QUOTE {
        RepairIsIdempotent(t[1..]);
        assert ([QUOTE] + Outside(t[1..]))[1..] == Outside(t[1..]);
      } else {
        var p := PieceAt(t);
        InsideIsIdempotent(t[p.size..]);
        InsidePiece(t, Inside(t[p.size..]));
      }
    }
  }

  // ---------- what a string means ----------

  /** No `\'` in the string from here on, which the lexer reads as an apostrophe and JSON does not know. */
  predicate NoEscapedApostrophe(t: Text)
    decreases |t|
  {
    t != [] && t[0] != QUOTE ==>
      && !(t[0] == BACKSLASH && |t| >= 2 && t[1] == SQUOTE)
      && NoEscapedApostrophe(t[if t[0] == BACKSLASH then ReadEscape(Strict, t).size else 1..])
  }

  /** The string characters a unit or escape of the lexer becomes. */
  function CharsAt(t: Text): (cs: seq<StrChar>)
    requires t != [] && t[0] != QUOTE
  {
    if t[0] == BACKSLASH then
      if |t| >= 2 && t[1] == LOWER_U && FourHex(t[2..]) then [Hex(t[2], t[3], t[4], t[5])]
      else if |t| >= 2 && t[1] != LOWER_U && IsEscapeChar(t[1]) then [Short(t[1])]
      else [Short(BACKSLASH)]
    else if t[0] < 0x20 then
      var e := ControlEscape(t[0]);
      if |e| == 2 then [Short(e[1])] else [Hex(e[2], e[3], e[4], e[5])]
    else [Raw(t[0])]
  }

  lemma CharsPrint(t: Text)
    requires t != [] && t[0] != QUOTE
    ensures |CharsAt(t)| == 1 && StrCharOk(CharsAt(t)[0]) && PrintChar(CharsAt(t)[0]) == PieceAt(t).out
    ensures t[0] != BACKSLASH ==> DecodeChar(CharsAt(t)[0]) == t[0]
  {
    if t[0] == BACKSLASH {
      assert |t| >= 2 && t[1] == LOWER_U && FourHex(t[2..]) ==> t[..6] == [BACKSLASH, LOWER_U, t[2], t[3], t[4], t[5]];
      assert |t| >= 2 ==> t[..2] == [BACKSLASH, t[1]];
    }
  }

  /** The characters of the repaired string, up to its closing quote. */
  function Chars(t: Text): seq<StrChar>
    decreases |t|
  {
    if t == [] || t[0] == QUOTE then [] else CharsAt(t) + Chars(t[PieceAt(t).size..])
  }

  lemma {:induction false} CharsOk(t: Text)
    ensures StrOk(Chars(t))
    decreases |t|
  {
    if t != [] && t[0] != QUOTE {
      CharsPrint(t);
      CharsOk(t[PieceAt(t).size..]);
    }
  }

  lemma OneChar(c: StrChar, more: seq<StrChar>)
    requires StrCharOk(c) && StrOk(more)
    ensures StrOk([c] + more) && DecodeChars([c] + more) == [DecodeChar(c)] + DecodeChars(more)
    ensures PrintChars([c] + more) == PrintChar(c) + PrintChars(more)
  {
    assert ([c] + more)[1..] == more;
  }

  /** One escape of the lexer and the character it becomes denote the same, or the backslash stands for itself. */
  lemma PieceMeans(t: Text)
    requires |t| >= 2 && t[0] == BACKSLASH && t[1] != SQUOTE
    ensures var p, x := PieceAt(t), ReadEscape(Strict, t);
      if p.size == x.size then StrCharOk(CharsAt(t)[0]) && x.units == [DecodeChar(CharsAt(t)[0])]
      else p.size == 1 && x.size == 2 && x.units == [BACKSLASH, t[1]] && t[1] != QUOTE && t[1] != BACKSLASH
           && DecodeChar(CharsAt(t)[0]) == BACKSLASH
  {
    if t[1] == LOWER_U {
      UnicodeMeans(t);
    } else {
      hide Hex4, HexValue, FourHex;
      ShortMeans(t[1]);
    }
  }

  lemma UnicodeMeans(t: Text)
    requires |t| >= 2 && t[0] == BACKSLASH && t[1] == LOWER_U
    ensures var p, x := PieceAt(t), ReadEscape(Strict, t);
      if FourHex(t[2..])
      then p.size == x.size == 6 && StrCharOk(CharsAt(t)[0]) && x.units == [DecodeChar(CharsAt(t)[0])]
      else p.size == 1 && x.size == 2 && x.units == [BACKSLASH, t[1]] && DecodeChar(CharsAt(t)[0]) == BACKSLASH
  {
    hide HexValue;
  }

  lemma ShortMeans(e: Unit)
    requires e != SQUOTE && e != LOWER_U
    ensures ShortEscape(e) == if IsEscapeChar(e) then [DecodeChar(Short(e))] else [BACKSLASH, e]
  {
  }

  /**
   A terminated double-quoted string without `\'` is repaired to a string of RFC 8259, section 7,
   that denotes what the strict lexer reads from the original; the text after it is repaired by itself.
   */
  lemma {:induction false} StringMeaningKept(t: Text)
    requires ReadString(Strict, QUOTE, t).complete && NoEscapedApostrophe(t)
    ensures StrOk(Chars(t)) && DecodeChars(Chars(t)) == ReadString(Strict, QUOTE, t).value
    ensures Inside(t) == PrintChars(Chars(t)) + ([QUOTE] + Outside(ReadString(Strict, QUOTE, t).rest))
    decreases |t|
  {
    CharsOk(t);
    var b := ReadString(Strict, QUOTE, t);
    if t[0] == QUOTE {
      assert PrintChars(Chars(t)) == [];
    } else {
      CharsPrint(t);
      var c := CharsAt(t)[0];
      var next := t[PieceAt(t).size..];
      assert Chars(t) == [c] + Chars(next);
      CharsOk(next);
      OneChar(c, Chars(next));
      if t[0] == BACKSLASH {
        NextString(t);
      }
      StringMeaningKept(next);
      R.Regroup(PieceAt(t).out, PrintChars(Chars(next)), [QUOTE] + Outside(b.rest));
    }
  }

  /** How the string goes on after a backslash that repair handles. */
  lemma NextString(t: Text)
    requires t != [] && t[0] == BACKSLASH && ReadString(Strict, QUOTE, t).complete && NoEscapedApostrophe(t)
    ensures var b, p := ReadString(Strict, QUOTE, t), PieceAt(t);
      var next := ReadString(Strict, QUOTE, t[p.size..]);
      && next.complete && next.rest == b.rest && NoEscapedApostrophe(t[p.size..])
      && b.value == [DecodeChar(CharsAt(t)[0])] + next.value
  {
    PieceMeans(t);
    var x := ReadEscape(Strict, t);
    if PieceAt(t).size != x.size {
      assert t[1..][1..] == t[2..];
      assert t[1..][0] == t[1];
      var after := ReadString(Strict, QUOTE, t[2..]);
      R.Regroup([BACKSLASH], [t[1]], after.value);
      assert [BACKSLASH] + [t[1]] == [BACKSLASH, t[1]];
    }
  }

  // ---------- JSON texts stay ----------

  lemma {:induction false} StringStays(cs: seq<StrChar>, more: Text)
    requires StrOk(cs)
    ensures Inside(PrintChars(cs) + ([QUOTE] + more)) == PrintChars(cs) + ([QUOTE] + Outside(more))
    decreases |cs|
  {
    if cs == [] {
      assert [] + ([QUOTE] + more) == [QUOTE] + more;
      assert ([QUOTE] + more)[1..] == more;
      assert [] + ([QUOTE] + Outside(more)) == [QUOTE] + Outside(more);
    } else {
      var c := PrintChar(cs[0]);
      var rest := PrintChars(cs[1..]) + ([QUOTE] + more);
      StringStays(cs[1..], more);
      CharStays(cs[0], rest);
      R.Regroup(c, PrintChars(cs[1..]), [QUOTE] + more);
      R.Regroup(c, PrintChars(cs[1..]), [QUOTE] + Outside(more));
    }
  }

  lemma CharStays(c: StrChar, more: Text)
    requires StrCharOk(c)
    ensures Inside(PrintChar(c) + more) == PrintChar(c) + Inside(more)
  {
    var t := PrintChar(c) + more;
    assert t[|PrintChar(c)|..] == more && t[..|PrintChar(c)|] == PrintChar(c);
    if c.Hex? {
      assert t[2..][0] == c.h0 && t[2..][1] == c.h1 && t[2..][2] == c.h2 && t[2..][3] == c.h3;
    }
  }

  predicate NoQuotes(t: Text) {
    forall k :: 0 <= k < |t| ==> t[k] != QUOTE
  }

  lemma {:induction false} PlainStays(t: Text, more: Text)
    requires NoQuotes(t)
    ensures Outside(t + more) == t + Outside(more)
    decreases |t|
  {
    if t == [] {
      assert t + more == more;
    } else {
      assert (t + more)[1..] == t[1..] + more;
      PlainStays(t[1..], more);
      R.Regroup([t[0]], t[1..], Outside(more));
      assert [t[0]] + t[1..] == t;
    }
  }

  lemma QuotedStays(cs: seq<StrChar>, more: Text)
    requires StrOk(cs)
    ensures Outside(PrintString(cs) + more) == PrintString(cs) + Outside(more)
  {
    StringStays(cs, more);
    var body := PrintChars(cs);
    R.Regroup([QUOTE] + body, [QUOTE], more);
    R.Regroup([QUOTE], body, [QUOTE] + more);
    assert ([QUOTE] + (body + ([QUOTE] + more)))[1..] == body + ([QUOTE] + more);
    R.Regroup([QUOTE] + body, [QUOTE], Outside(more));
    R.Regroup([QUOTE], body, [QUOTE] + Outside(more));
  }

  lemma {:induction false} ValueStays(v: Value, more: Text)
    requires ValueOk(v)
    ensures Outside(Print(v) + more) == Print(v) + Outside(more)
    decreases v
  {
    match v
    case Str(chars) => QuotedStays(chars, more);
    case Num(num) =>
      NumberPlain(num);
      PlainStays(Print(v), more);
    case Lit(word) => PlainStays(Print(v), more);
    case EmptyArray(blank) => PlainStays(Print(v), more);
    case EmptyObject(blank) => PlainStays(Print(v), more);
    case Array(elements) =>
      ElementsStay(elements, more);
      R.Regroup([LBRACKET], PrintElements(elements), more);
      PlainStays([LBRACKET], PrintElements(elements) + more);
      R.Regroup([LBRACKET], PrintElements(elements), Outside(more));
    case Object(members) =>
      MembersStay(members, more);
      R.Regroup([LBRACE], PrintMembers(members), more);
      PlainStays([LBRACE], PrintMembers(members) + more);
      R.Regroup([LBRACE], PrintMembers(members), Outside(more));
  }

  lemma NumberPlain(n: Number)
    requires NumberOk(n)
    ensures NoQuotes(PrintNumber(n))
  {
    assert NoQuotes(n.whole) && NoQuotes(PrintFrac(n.frac)) && NoQuotes(PrintExp(n.exp));
  }

  /** Two parts that stay, one after the other, stay. */
  lemma BothStay(a: Text, b: Text, more: Text)
    requires Outside(a + (b + more)) == a + Outside(b + more) && Outside(b + more) == b + Outside(more)
    ensures Outside((a + b) + more) == (a + b) + Outside(more)
  {
    R.Regroup(a, b, more);
    R.Regroup(a, b, Outside(more));
  }

  lemma {:induction false} ElementsStay(es: Elements, more: Text)
    requires ElementsOk(es)
    ensures Outside(PrintElements(es) + more) == PrintElements(es) + Outside(more)
    decreases es
  {
    var tail := if es.MoreElements? then [COMMA] + PrintElements(es.rest) else [RBRACKET];
    if es.MoreElements? {
      ElementsStay(es.rest, more);
      PlainStays([COMMA], PrintElements(es.rest) + more);
      BothStay([COMMA], PrintElements(es.rest), more);
    } else {
      PlainStays([RBRACKET], more);
    }
    PlainStays(es.post, tail + more);
    BothStay(es.post, tail, more);
    var t1 := es.post + tail;
    ValueStays(es.value, t1 + more);
    BothStay(Print(es.value), t1, more);
    var t2 := Print(es.value) + t1;
    PlainStays(es.pre, t2 + more);
    BothStay(es.pre, t2, more);
    ElementsRegrouped(es, tail);
  }

  lemma ElementsRegrouped(es: Elements, tail: Text)
    requires tail == if es.MoreElements? then [COMMA] + PrintElements(es.rest) else [RBRACKET]
    ensures PrintElements(es) == es.pre + (Print(es.value) + (es.post + tail))
  {
    hide Print;
  }

  lemma {:induction false} MembersStay(ms: Members, more: Text)
    requires MembersOk(ms)
    ensures Outside(PrintMembers(ms) + more) == PrintMembers(ms) + Outside(more)
    decreases ms
  {
    var tail := if ms.MoreMembers? then [COMMA] + PrintMembers(ms.rest) else [RBRACE];
    if ms.MoreMembers? {
      MembersStay(ms.rest, more);
      PlainStays([COMMA], PrintMembers(ms.rest) + more);
      BothStay([COMMA], PrintMembers(ms.rest), more);
    } else {
      PlainStays([RBRACE], more);
    }
    PlainStays(ms.post, tail + more);
    BothStay(ms.post, tail, more);
    var t1 := ms.post + tail;
    ValueStays(ms.value, t1 + more);
    BothStay(Print(ms.value), t1, more);
    var t2 := Print(ms.value) + t1;
    PlainStays(ms.afterColon, t2 + more);
    BothStay(ms.afterColon, t2, more);
    var t3 := ms.afterColon + t2;
    PlainStays([COLON], t3 + more);
    BothStay([COLON], t3, more);
    var t4 := [COLON] + t3;
    PlainStays(ms.beforeColon, t4 + more);
    BothStay(ms.beforeColon, t4, more);
    var t5 := ms.beforeColon + t4;
    QuotedStays(ms.key, t5 + more);
    BothStay(PrintString(ms.key), t5, more);
    var t6 := PrintString(ms.key) + t5;
    PlainStays(ms.pre, t6 + more);
    BothStay(ms.pre, t6, more);
    MembersRegrouped(ms, tail);
  }

  lemma MembersRegrouped(ms: Members, tail: Text)
    requires tail == if ms.MoreMembers? then [COMMA] + PrintMembers(ms.rest) else [RBRACE]
    ensures PrintMembers(ms)
         == ms.pre + (PrintString(ms.key) + (ms.beforeColon + ([COLON] + (ms.afterColon + (Print(ms.value) + (ms.post + tail))))))
  {
    hide Print, PrintString;
  }

  /** A JSON text needs no repair and gets none. */
  lemma JsonTextStays(t: Text)
    requires IsJsonText(t)
    ensures Outside(t) == t
  {
    var pre, v, post :| AllWhitespace(pre) && ValueOk(v) && AllWhitespace(post) && t == pre + Print(v) + post;
    PlainStays(post, []);
    assert post + [] == post && post + Outside([]) == post;
    ValueStays(v, post);
    PlainStays(pre, Print(v) + post);
    R.Regroup(pre, Print(v), post);
  }
}
