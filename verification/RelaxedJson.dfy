/**
 The tolerant recursive-descent tree builder (`RelaxedJson`), as functions of the text from the
 cursor on. In partial mode the lexer streams and nothing throws; in strict mode anything unfinished
 throws.
 */
module RelaxedJson {
  import opened Units
  import opened JsonGrammar
  import opened JsonLexer
  import opened JsonValue

  /** A value and the text after it; the roll-back sentinel for an incomplete atom; or an exception. */
  datatype Outcome =
    | Got(value: Json, rest: Text)
    | Incomplete(rest: Text)
    | Throws

  function Mode(partial: bool): LexMode {
    if partial then Streaming else Strict
  }

  predicate Within(o: Outcome, n: nat) {
    (o.Got? ==> |o.rest| <= n) && (o.Incomplete? ==> |o.rest| <= n)
  }

  function ParseString(partial: bool, quote: Unit, t: Text): (o: Outcome)
    ensures Within(o, |t|)
  {
    var b := ReadString(Mode(partial), quote, t);
    if !partial && !b.complete then Throws else Got(JString(b.value), b.rest)
  }

  function ParseNumber(partial: bool, t: Text): (o: Outcome)
    ensures Within(o, |t|)
  {
    var k := NumberRun(t);
    var n := JsNumber(t[..k]);
    if n.Some? then Got(JNumber(n.value), t[k..]) else if partial then Incomplete(t[k..]) else Throws
  }

  /** `#value`, with the cursor at the first unit of the value. */
  function ParseValue(partial: bool, allowBareword: bool, t: Text): (o: Outcome)
    ensures Within(o, |t|)
    decreases |t|, 1
  {
    if t == [] then if partial then Incomplete([]) else Throws
    else if t[0] == LBRACE then ParseMembers(partial, [], t[1..])
    else if t[0] == LBRACKET then ParseElements(partial, [], t[1..])
    else if t[0] == QUOTE || t[0] == SQUOTE then ParseString(partial, t[0], t[1..])
    else if IsNumberStart(t[0]) then ParseNumber(partial, t)
    else
      var word := ReadKeyword(t);
      if word.Some? then Got(WordValue(word.value.0), t[word.value.1..])
      else if partial then Incomplete([])
      else if !allowBareword then Throws
      else
        var bare := ReadBareword(t);
        if bare.Some? then Got(JString(bare.value.0), t[bare.value.1..]) else Throws
  }

  /** The loop of `#array`, from after `[` or a separator, with `out` pushed so far. */
  function ParseElements(partial: bool, out: seq<Json>, t: Text): (o: Outcome)
    ensures Within(o, |t|) && !o.Incomplete?
    decreases |t|, 3
  {
    var t1 := SkipInsignificant(t);
    if t1 == [] then if partial then Got(JArray(out), []) else Throws
    else if t1[0] == RBRACKET then Got(JArray(out), t1[1..])
    else if t1[0] == COMMA then ParseElements(partial, out, t1[1..])
    else
      var v := ParseValue(partial, true, t1);
      match v
      case Throws => Throws
      case Incomplete(rest) => Got(JArray(out), rest)
      case Got(value, rest) =>
        var next := out + [value];
        var d := SkipInsignificant(rest);
        if d != [] && d[0] == COMMA then ParseElements(partial, next, d[1..])
        else if d != [] && d[0] == RBRACKET then Got(JArray(next), d[1..])
        else if partial then Got(JArray(next), d)
        else Throws
  }

  /** `#key`: None when it throws. */
  function ParseKey(partial: bool, t: Text): (r: Option<(Text, Text)>)
    requires t != []
    ensures r.Some? ==> |r.value.1| <= |t|
  {
    if t[0] == QUOTE || t[0] == SQUOTE then
      var b := ReadString(Mode(partial), t[0], t[1..]);
      if !partial && !b.complete then None else Some((b.value, b.rest))
    else if KeyRun(t) == 0 && !partial then None
    else Some((t[..KeyRun(t)], t[KeyRun(t)..]))
  }

  /** The loop of `#object`, from after `{` or a separator, with `out` assigned so far. */
  function ParseMembers(partial: bool, out: seq<(Text, Json)>, t: Text): (o: Outcome)
    ensures Within(o, |t|) && !o.Incomplete?
    decreases |t|, 3
  {
    var t1 := SkipInsignificant(t);
    if t1 == [] then if partial then Got(JObject(out), []) else Throws
    else if t1[0] == RBRACE then Got(JObject(out), t1[1..])
    else if t1[0] == COMMA then ParseMembers(partial, out, t1[1..])
    else
      var key := ParseKey(partial, t1);
      if key.None? then Throws
      else
        var t2 := SkipInsignificant(key.value.1);
        if t2 == [] || t2[0] != COLON then if partial then Got(JObject(out), t2) else Throws
        else ParseMember(partial, out, key.value.0, t2[1..])
  }

  /** The rest of one pass of the loop of `#object`, from after the colon. */
  function ParseMember(partial: bool, out: seq<(Text, Json)>, key: Text, t: Text): (o: Outcome)
    ensures Within(o, |t|) && !o.Incomplete?
    decreases |t|, 2
  {
    var t1 := SkipInsignificant(t);
    if t1 == [] then if partial then Got(JObject(out), []) else Throws
    else
      var v := ParseValue(partial, true, t1);
      match v
      case Throws => Throws
      case Incomplete(rest) => Got(JObject(out), rest)
      case Got(value, rest) =>
        var next := Assign(out, key, value);
        var d := SkipInsignificant(rest);
        if d != [] && d[0] == COMMA then ParseMembers(partial, next, d[1..])
        else if d != [] && d[0] == RBRACE then Got(JObject(next), d[1..])
        else if partial then Got(JObject(next), d)
        else Throws
  }

  /** `parse`; an undefined result is Incomplete. */
  function Parse(partial: bool, t: Text): Outcome {
    var t1 := SkipInsignificant(t);
    if t1 == [] then if partial then Incomplete([]) else Throws
    else
      var v := ParseValue(partial, false, t1);
      if !v.Got? then v
      else
        var t2 := SkipInsignificant(v.rest);
        if !partial && t2 != [] then Throws else Got(v.value, t2)
  }

  /** Partial parsing never throws, whatever the text. */
  lemma {:induction false} PartialValueTotal(allowBareword: bool, t: Text)
    ensures !ParseValue(true, allowBareword, t).Throws?
    decreases |t|, 1
  {
    if t != [] && t[0] == LBRACE {
      PartialMembersTotal([], t[1..]);
    } else if t != [] && t[0] == LBRACKET {
      PartialElementsTotal([], t[1..]);
    }
  }

  lemma {:induction false} PartialElementsTotal(out: seq<Json>, t: Text)
    ensures !ParseElements(true, out, t).Throws?
    decreases |t|, 3
  {
    var t1 := SkipInsignificant(t);
    if t1 != [] && t1[0] != RBRACKET {
      if t1[0] == COMMA {
        PartialElementsTotal(out, t1[1..]);
      } else {
        PartialValueTotal(true, t1);
        var v := ParseValue(true, true, t1);
        if v.Got? {
          var d := SkipInsignificant(v.rest);
          if d != [] && d[0] == COMMA {
            PartialElementsTotal(out + [v.value], d[1..]);
          }
        }
      }
    }
  }

  lemma {:induction false} PartialMembersTotal(out: seq<(Text, Json)>, t: Text)
    ensures !ParseMembers(true, out, t).Throws?
    decreases |t|, 3
  {
    var t1 := SkipInsignificant(t);
    if t1 != [] && t1[0] != RBRACE {
      if t1[0] == COMMA {
        PartialMembersTotal(out, t1[1..]);
      } else {
        var key := ParseKey(true, t1);
        var t2 := SkipInsignificant(key.value.1);
        if t2 != [] && t2[0] == COLON {
          PartialMemberTotal(out, key.value.0, t2[1..]);
        }
      }
    }
  }

  lemma {:induction false} PartialMemberTotal(out: seq<(Text, Json)>, key: Text, t: Text)
    ensures !ParseMember(true, out, key, t).Throws?
    decreases |t|, 2
  {
    var t1 := SkipInsignificant(t);
    if t1 != [] {
      PartialValueTotal(true, t1);
      var v := ParseValue(true, true, t1);
      if v.Got? {
        var d := SkipInsignificant(v.rest);
        if d != [] && d[0] == COMMA {
          PartialMembersTotal(Assign(out, key, v.value), d[1..]);
        }
      }
    }
  }

  lemma PartialNeverThrows(t: Text)
    ensures !Parse(true, t).Throws?
  {
    PartialValueTotal(false, SkipInsignificant(t));
  }
}
