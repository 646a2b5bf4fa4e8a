/**
 The tolerant parser as the source has it: methods that descend recursively while the lexer's cursor
 moves on and the containers fill. They are proved to build what the functions of RelaxedJson say.
 */
module RelaxedParser {
  import opened Units
  import opened JsonGrammar
  import opened JsonLexer
  import opened JsonValue
  import opened RelaxedJson
  import opened LexerCursor

  /** A value, the roll-back sentinel, or an exception. */
  datatype Built = Value(value: Json) | Partial | Thrown

  /** The method's result and the text it leaves are what the specification says; after an exception only the result counts. */
  predicate Agrees(b: Built, rest: Text, o: Outcome) {
    match o
    case Got(value, after) => b == Value(value) && rest == after
    case Incomplete(after) => b == Partial && rest == after
    case Throws => b == Thrown
  }

  // ---------- one pass of the loops ----------

  /** A member at t, in an object with `out` assigned so far, and all that follows. */
  function MemberFrom(partial: bool, out: seq<(Text, Json)>, t: Text): Outcome
    requires t != []
  {
    var key := ParseKey(partial, t);
    if key.None? then RelaxedJson.Throws
    else
      var t2 := SkipInsignificant(key.value.1);
      if t2 == [] || t2[0] != COLON then if partial then Got(JObject(out), t2) else RelaxedJson.Throws
      else ParseMember(partial, out, key.value.0, t2[1..])
  }

  lemma MemberPass(partial: bool, out: seq<(Text, Json)>, t: Text)
    ensures var t1 := SkipInsignificant(t);
      ParseMembers(partial, out, t) ==
        if t1 == [] then if partial then Got(JObject(out), []) else RelaxedJson.Throws
        else if t1[0] == RBRACE then Got(JObject(out), t1[1..])
        else if t1[0] == COMMA then ParseMembers(partial, out, t1[1..])
        else MemberFrom(partial, out, t1)
  {
  }

  /** An element at t, in an array with `out` pushed so far, and all that follows. */
  function ElementFrom(partial: bool, out: seq<Json>, t: Text): Outcome {
    var v := ParseValue(partial, true, t);
    if v.Throws? then RelaxedJson.Throws
    else if v.Incomplete? then Got(JArray(out), v.rest)
    else ElementAfter(partial, out + [v.value], SkipInsignificant(v.rest))
  }

  /** After an element and insignificant text. */
  function ElementAfter(partial: bool, out: seq<Json>, d: Text): Outcome {
    if d != [] && d[0] == COMMA then ParseElements(partial, out, d[1..])
    else if d != [] && d[0] == RBRACKET then Got(JArray(out), d[1..])
    else if partial then Got(JArray(out), d)
    else RelaxedJson.Throws
  }

  /** After a member and insignificant text. */
  function MemberAfter(partial: bool, out: seq<(Text, Json)>, d: Text): Outcome {
    if d != [] && d[0] == COMMA then ParseMembers(partial, out, d[1..])
    else if d != [] && d[0] == RBRACE then Got(JObject(out), d[1..])
    else if partial then Got(JObject(out), d)
    else RelaxedJson.Throws
  }

  lemma ElementPass(partial: bool, out: seq<Json>, t: Text)
    ensures var t1 := SkipInsignificant(t);
      ParseElements(partial, out, t) ==
        if t1 == [] then if partial then Got(JArray(out), []) else RelaxedJson.Throws
        else if t1[0] == RBRACKET then Got(JArray(out), t1[1..])
        else if t1[0] == COMMA then ParseElements(partial, out, t1[1..])
        else ElementFrom(partial, out, t1)
  {
  }

  lemma ValuePass(partial: bool, out: seq<(Text, Json)>, key: Text, t: Text)
    ensures var t1 := SkipInsignificant(t);
      ParseMember(partial, out, key, t) ==
        if t1 == [] then if partial then Got(JObject(out), []) else RelaxedJson.Throws
        else
          var v := ParseValue(partial, true, t1);
          if v.Throws? then RelaxedJson.Throws
          else if v.Incomplete? then Got(JObject(out), v.rest)
          else MemberAfter(partial, Assign(out, key, v.value), SkipInsignificant(v.rest))
  {
  }

  /** A value that is neither a container nor a string token. */
  lemma AtomParsed(partial: bool, allowBareword: bool, t: Text)
    requires t != [] && t[0] != LBRACE && t[0] != LBRACKET && t[0] != QUOTE && t[0] != SQUOTE
    ensures IsNumberStart(t[0]) ==> ParseValue(partial, allowBareword, t) == ParseNumber(partial, t)
    ensures !IsNumberStart(t[0]) ==> var word, bare := ReadKeyword(t), ReadBareword(t);
      ParseValue(partial, allowBareword, t) ==
        if word.Some? then Got(WordValue(word.value.0), t[word.value.1..])
        else if partial then Incomplete([])
        else if allowBareword && bare.Some? then Got(JString(bare.value.0), t[bare.value.1..])
        else Outcome.Throws
  {
    hide ParseMembers, ParseElements, ReadKeyword, ReadBareword, NumberRun, JsNumber;
  }

  class Parser {
    const lex: Lexer
    const partial: bool

    constructor (source: Text, partial: bool)
      ensures fresh(lex) && Valid() && this.partial == partial && lex.Rest() == source
    {
      var l := new Lexer(source, Mode(partial), 0);
      this.lex := l;
      this.partial := partial;
      new;
      assert l.src[0..] == source;
    }

    predicate Valid()
      reads this, lex
    {
      lex.Valid() && lex.mode == Mode(partial)
    }

    /** `parse`; an undefined result is Partial. */
    method Parse() returns (b: Built)
      requires Valid()
      modifies lex
      ensures Valid() && Agrees(b, lex.Rest(), RelaxedJson.Parse(partial, old(lex.Rest())))
    {
      hide ParseValue, SkipInsignificant;
      lex.Ws();
      if lex.pos >= |lex.src| {
        return if partial then Partial else Thrown;
      }
      b := ReadValue(false);
      if !b.Value? {
        return;
      }
      lex.Ws();
      if !partial && lex.pos < |lex.src| {
        return Thrown;
      }
    }

    /** `#value`. */
    method ReadValue(allowBareword: bool) returns (b: Built)
      requires Valid()
      modifies lex
      ensures Valid() && Agrees(b, lex.Rest(), ParseValue(partial, allowBareword, old(lex.Rest())))
      decreases |lex.Rest()|, 1
    {
      if lex.pos >= |lex.src| {
        return if partial then Partial else Thrown;
      }
      var c := lex.src[lex.pos];
      Ahead(lex.src, lex.pos);
      hide ParseMembers, ParseElements, ReadString;
      if c == LBRACE {
        b := ReadObject();
      } else if c == LBRACKET {
        b := ReadArray();
      } else if c == QUOTE || c == SQUOTE {
        var s := lex.String(c);
        return if s.Ok? then Value(JString(s.value.value)) else Thrown;
      } else {
        b := ReadAtom(allowBareword);
      }
    }

    /** The part of `#value` that reads numbers, keywords and barewords. */
    method ReadAtom(allowBareword: bool) returns (b: Built)
      requires Valid() && lex.pos < |lex.src|
      requires var c := lex.src[lex.pos]; c != LBRACE && c != LBRACKET && c != QUOTE && c != SQUOTE
      modifies lex
      ensures Valid() && Agrees(b, lex.Rest(), ParseValue(partial, allowBareword, old(lex.Rest())))
    {
      Ahead(lex.src, lex.pos);
      AtomParsed(partial, allowBareword, lex.Rest());
      hide ParseValue, JsNumber, NumberRun, ReadKeyword, ReadBareword;
      if IsNumberStart(lex.src[lex.pos]) {
        var n := lex.Number();
        return match n case Ok(r) => Value(JNumber(r)) case Undefined => Partial case Throws => Thrown;
      }
      var keyword := lex.Keyword();
      if keyword.Some? {
        return Value(WordValue(keyword.value));
      }
      if partial {
        lex.pos := |lex.src|;
        return Partial;
      }
      if allowBareword {
        var word := lex.Bareword();
        return if word.Ok? then Value(JString(word.value)) else Thrown;
      }
      return Thrown;
    }

    /** `#object`, at the opening brace. */
    method ReadObject() returns (b: Built)
      requires Valid() && lex.pos < |lex.src|
      modifies lex
      ensures Valid() && Agrees(b, lex.Rest(), ParseMembers(partial, [], old(lex.src[lex.pos + 1..])))
      decreases |lex.Rest()|, 0
    {
      hide ParseMembers, MemberFrom, SkipInsignificant;
      lex.pos := lex.pos + 1;
      ghost var start := lex.Rest();
      var out: seq<(Text, Json)> := [];
      while true
        invariant Valid() && lex.pos > old(lex.pos)
        invariant ParseMembers(partial, out, lex.Rest()) == ParseMembers(partial, [], start)
        decreases |lex.Rest()|
      {
        MemberPass(partial, out, lex.Rest());
        lex.Ws();
        if lex.pos >= |lex.src| {
          return if partial then Value(JObject(out)) else Thrown;
        }
        var c := lex.src[lex.pos];
        Ahead(lex.src, lex.pos);
        if c == RBRACE {
          lex.pos := lex.pos + 1;
          return Value(JObject(out));
        }
        if c == COMMA {
          lex.pos := lex.pos + 1;
          continue;
        }
        var done, result, next := ReadMember(out);
        if done {
          return result;
        }
        out := next;
      }
    }

    /** One member in the loop of `#object`: the object is built, or there is one more member in it. */
    method ReadMember(out: seq<(Text, Json)>) returns (done: bool, b: Built, next: seq<(Text, Json)>)
      requires Valid() && lex.pos < |lex.src|
      modifies lex
      ensures Valid()
      ensures done ==> Agrees(b, lex.Rest(), MemberFrom(partial, out, old(lex.Rest())))
      ensures !done ==> lex.pos > old(lex.pos) && ParseMembers(partial, next, lex.Rest()) == MemberFrom(partial, out, old(lex.Rest()))
      decreases |lex.Rest()|, 3
    {
      hide ParseKey, ParseMember, ParseMembers, SkipInsignificant;
      next := out;
      var key := ReadKey();
      if key.Throws? {
        return true, Thrown, out;
      }
      lex.Ws();
      if lex.pos < |lex.src| {
        Ahead(lex.src, lex.pos);
      }
      if lex.pos < |lex.src| && lex.src[lex.pos] == COLON {
        lex.pos := lex.pos + 1;
      } else {
        return true, if partial then Value(JObject(out)) else Thrown, out;
      }
      done, b, next := ReadMemberValue(out, key.value);
    }

    /** The member's value, from after the colon. */
    method ReadMemberValue(out: seq<(Text, Json)>, key: Text) returns (done: bool, b: Built, next: seq<(Text, Json)>)
      requires Valid()
      modifies lex
      ensures Valid()
      ensures done ==> Agrees(b, lex.Rest(), ParseMember(partial, out, key, old(lex.Rest())))
      ensures !done ==>
        lex.pos > old(lex.pos) && ParseMembers(partial, next, lex.Rest()) == ParseMember(partial, out, key, old(lex.Rest()))
      decreases |lex.Rest()|, 2
    {
      hide ParseValue, ParseMember, ParseMembers, SkipInsignificant;
      next := out;
      ValuePass(partial, out, key, lex.Rest());
      lex.Ws();
      if lex.pos >= |lex.src| {
        return true, if partial then Value(JObject(out)) else Thrown, out;
      }
      var value := ReadValue(true);
      if value.Thrown? {
        return true, Thrown, out;
      }
      if value.Partial? {
        return true, Value(JObject(out)), out;
      }
      next := Assign(out, key, value.value);
      lex.Ws();
      if lex.pos < |lex.src| {
        Ahead(lex.src, lex.pos);
        if lex.src[lex.pos] == COMMA {
          lex.pos := lex.pos + 1;
          return false, Thrown, next;
        }
        if lex.src[lex.pos] == RBRACE {
          lex.pos := lex.pos + 1;
          return true, Value(JObject(next)), next;
        }
      }
      return true, if partial then Value(JObject(next)) else Thrown, next;
    }

    /** `#key`. */
    method ReadKey() returns (key: Token<Text>)
      requires Valid() && lex.pos < |lex.src|
      modifies lex
      ensures Valid()
      ensures var k := ParseKey(partial, old(lex.Rest()));
        if k.Some? then key == Ok(k.value.0) && lex.Rest() == k.value.1 else key == LexerCursor.Throws
    {
      hide ReadString, KeyRun;
      var c := lex.src[lex.pos];
      Ahead(lex.src, lex.pos);
      if c == QUOTE || c == SQUOTE {
        var s := lex.String(c);
        return if s.Ok? then Ok(s.value.value) else LexerCursor.Throws;
      }
      var k := lex.UnquotedKey();
      return if |k| == 0 && !partial then LexerCursor.Throws else Ok(k);
    }

    /** `#array`, at the opening bracket. */
    method ReadArray() returns (b: Built)
      requires Valid() && lex.pos < |lex.src|
      modifies lex
      ensures Valid() && Agrees(b, lex.Rest(), ParseElements(partial, [], old(lex.src[lex.pos + 1..])))
      decreases |lex.Rest()|, 0
    {
      hide ParseElements, ElementFrom, SkipInsignificant;
      lex.pos := lex.pos + 1;
      ghost var start := lex.Rest();
      var out: seq<Json> := [];
      while true
        invariant Valid() && lex.pos > old(lex.pos)
        invariant ParseElements(partial, out, lex.Rest()) == ParseElements(partial, [], start)
        decreases |lex.Rest()|
      {
        ElementPass(partial, out, lex.Rest());
        lex.Ws();
        if lex.pos >= |lex.src| {
          return if partial then Value(JArray(out)) else Thrown;
        }
        var c := lex.src[lex.pos];
        Ahead(lex.src, lex.pos);
        if c == RBRACKET {
          lex.pos := lex.pos + 1;
          return Value(JArray(out));
        }
        if c == COMMA {
          lex.pos := lex.pos + 1;
          continue;
        }
        var done, result, next := ReadElement(out);
        if done {
          return result;
        }
        out := next;
      }
    }

    /** One element in the loop of `#array`: the array is built, or there is one more element in it. */
    method ReadElement(out: seq<Json>) returns (done: bool, b: Built, next: seq<Json>)
      requires Valid() && lex.pos < |lex.src|
      modifies lex
      ensures Valid()
      ensures done ==> Agrees(b, lex.Rest(), ElementFrom(partial, out, old(lex.Rest())))
      ensures !done ==> lex.pos > old(lex.pos) && ParseElements(partial, next, lex.Rest()) == ElementFrom(partial, out, old(lex.Rest()))
      decreases |lex.Rest()|, 2
    {
      hide ParseValue, ParseElements, SkipInsignificant;
      next := out;
      var value := ReadValue(true);
      if value.Thrown? {
        return true, Thrown, out;
      }
      if value.Partial? {
        return true, Value(JArray(out)), out;
      }
      next := out + [value.value];
      lex.Ws();
      if lex.pos < |lex.src| {
        Ahead(lex.src, lex.pos);
        if lex.src[lex.pos] == COMMA {
          lex.pos := lex.pos + 1;
          return false, Thrown, next;
        }
        if lex.src[lex.pos] == RBRACKET {
          lex.pos := lex.pos + 1;
          return true, Value(JArray(next)), next;
        }
      }
      return true, if partial then Value(JArray(next)) else Thrown, next;
    }
  }
}
