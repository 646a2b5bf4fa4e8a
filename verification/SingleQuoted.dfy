/**
 Single-quoted tokens read while their text is still arriving. An apostrophe inside is content when no
 separator follows, which a slash at the end of the buffer leaves undecided: it may yet begin a comment.
 */
module SingleQuoted {
  import opened Units
  import opened JsonGrammar
  import opened JsonLexer
  import opened StringStability
  import opened BlankStability

  /** The token, from after its opening apostrophe on, was read past an apostrophe whose lookahead is undecided. */
  predicate BodyHinges(t: Text)
    decreases |t|
  {
    if t == [] then false
    else if t[0] == SQUOTE then
      var look := QuoteLookahead(Incoming, t[1..]);
      look == Undecided || (look == Inner && BodyHinges(t[1..]))
    else BodyHinges(t[if t[0] == BACKSLASH then ReadEscape(Incoming, t).size else 1..])
  }

  predicate TokenHinges(t: Text) {
    t != [] && t[0] == SQUOTE && BodyHinges(t[1..])
  }

  // ---------- a slash at the edge ----------

  /** A lone slash is looked at again with what comes after it. */
  lemma {:induction false} SlashGrows(t: Text, u: Text)
    requires SkipInsignificant(t) == [SLASH]
    ensures SkipInsignificant(t + u) == SkipInsignificant([SLASH] + u)
    decreases |t|
  {
    assert (t + u)[0] == t[0] && (t + u)[1..] == t[1..] + u;
    assert |t| >= 2 ==> (t + u)[1] == t[1] && (t + u)[2..] == t[2..] + u;
    if IsWhitespace(t[0]) {
      SlashGrows(t[1..], u);
    } else if |t| >= 2 && t[0] == SLASH && t[1] == SLASH {
      LineGrows(t[2..], u);
      SlashGrows(SkipLine(t[2..]), u);
    } else if |t| >= 2 && t[0] == SLASH && t[1] == STAR {
      BlockGrows(t[2..], u);
      SlashGrows(SkipBlock(t[2..]), u);
    }
  }

  /** With a second slash it opens a comment, and nothing significant is left. */
  lemma SlashesSkipped(t: Text)
    requires SkipInsignificant(t) == [SLASH]
    ensures SkipInsignificant(t + [SLASH]) == []
  {
    SlashGrows(t, [SLASH]);
    var slashes: Text := [SLASH] + [SLASH];
    assert slashes[2..] == [];
  }

  // ---------- closed tokens ----------

  lemma SingleEscapeGrows(t: Text, u: Text)
    requires t != [] && t[0] == BACKSLASH
    requires ReadString(Incoming, SQUOTE, t).complete
    ensures ReadEscape(Incoming, t + u).units == ReadEscape(Incoming, t).units
    ensures ReadEscape(Incoming, t + u).size == ReadEscape(Incoming, t).size
  {
    assert |t| >= 2 ==> (t + u)[1] == t[1] && (t + u)[2..] == t[2..] + u;
    if |t| >= 2 && !FourHex(t[2..]) && FourHex(t[2..] + u) {
      HexHasNoQuote(t[2..]);
    }
  }

  lemma {:induction false} HexHasNoQuote(t: Text)
    requires forall k :: 0 <= k < |t| ==> IsHexDigit(t[k])
    ensures !ReadString(Incoming, SQUOTE, t).complete
    decreases |t|
  {
    if t != [] {
      assert IsHexDigit(t[0]);
      HexHasNoQuote(t[1..]);
    }
  }

  /** A closed token followed by significant text: final, or closed before nothing significant by another slash. */
  lemma {:induction false} BodyEdge(t: Text, u: Text)
    requires ReadString(Incoming, SQUOTE, t).complete && SkipInsignificant(ReadString(Incoming, SQUOTE, t).rest) != []
    ensures var b, c := ReadString(Incoming, SQUOTE, t), ReadString(Incoming, SQUOTE, t + u);
      && (!BodyHinges(t) ==> c.complete && c.value == b.value && c.rest == b.rest + u)
      && (BodyHinges(t) && u == [SLASH] ==> SkipInsignificant(c.rest) == [])
    decreases |t|
  {
    FirstUnit(t, u);
    if t[0] == SQUOTE {
      if QuoteLookahead(Incoming, t[1..]) == Undecided {
        SlashesSkipped(t[1..]);
      } else {
        SkipGrows(t[1..], u);
        if QuoteLookahead(Incoming, t[1..]) == Inner {
          BodyEdge(t[1..], u);
        }
      }
    } else if t[0] != BACKSLASH {
      BodyEdge(t[1..], u);
    } else {
      var x := ReadEscape(Incoming, t);
      SingleEscapeGrows(t, u);
      assert (t + u)[x.size..] == t[x.size..] + u;
      BodyEdge(t[x.size..], u);
    }
  }

  /** Nothing hinges on a slash that is not there. */
  lemma {:induction false} NothingHinges(t: Text)
    requires NoEdgeSlash(t)
    ensures !BodyHinges(t)
    decreases |t|
  {
    if t != [] {
      var k := if t[0] == BACKSLASH then ReadEscape(Incoming, t).size else 1;
      DropSuffix(t, k);
      SuffixEdge(t[k..], t);
      NothingHinges(t[k..]);
      SkipIsSuffix(t[1..]);
      DropSuffix(t, 1);
      SuffixTrans(SkipInsignificant(t[1..]), t[1..], t);
      SuffixEdge(SkipInsignificant(t[1..]), t);
    }
  }

  // ---------- the stable units ----------

  /** The units `before` reported as stable are still there. */
  predicate Extends(before: StringBody, after: StringBody)
    requires before.Valid()
  {
    before.StableLen() <= |after.value| && before.value[..before.StableLen()] == after.value[..before.StableLen()]
  }

  lemma PrependExtends(units: Text, before: StringBody, after: StringBody, edge: bool, later: bool)
    requires before.Valid() && Extends(before, after) && (edge ==> before.complete)
    ensures before.Prepend(units, edge).Valid() && Extends(before.Prepend(units, edge), after.Prepend(units, later))
  {
    var b, a := before.Prepend(units, edge), after.Prepend(units, later);
    assert b.StableLen() == |units| + before.StableLen();
    assert b.value[..b.StableLen()] == units + before.value[..before.StableLen()];
    assert a.value[..b.StableLen()] == units + after.value[..before.StableLen()];
  }

  lemma {:induction false} UnitsStay(t: Text, u: Text)
    requires !(ReadString(Incoming, SQUOTE, t).complete && BodyHinges(t))
    ensures Extends(ReadString(Incoming, SQUOTE, t), ReadString(Incoming, SQUOTE, t + u))
    decreases |t|
  {
    if t == [] {
      return;
    }
    FirstUnit(t, u);
    if t[0] == SQUOTE {
      if QuoteLookahead(Incoming, t[1..]) == Inner {
        SkipGrows(t[1..], u);
        UnitsStay(t[1..], u);
        PrependExtends([SQUOTE], ReadString(Incoming, SQUOTE, t[1..]), ReadString(Incoming, SQUOTE, t[1..] + u), false, false);
      }
    } else if t[0] != BACKSLASH {
      UnitsStay(t[1..], u);
      PrependExtends([t[0]], ReadString(Incoming, SQUOTE, t[1..]), ReadString(Incoming, SQUOTE, t[1..] + u), false, false);
    } else {
      EscapeUnitsStay(t, u);
    }
  }

  lemma {:induction false} EscapeUnitsStay(t: Text, u: Text)
    requires t != [] && t[0] == BACKSLASH && !(ReadString(Incoming, SQUOTE, t).complete && BodyHinges(t))
    ensures Extends(ReadString(Incoming, SQUOTE, t), ReadString(Incoming, SQUOTE, t + u))
    decreases |t|, 0
  {
    FirstUnit(t, u);
    var x, y := ReadEscape(Incoming, t), ReadEscape(Incoming, t + u);
    if ReadString(Incoming, SQUOTE, t).complete || !x.unstable {
      if x.unstable {
        SingleEscapeGrows(t, u);
      } else {
        EscapeStable(t, u);
      }
      assert (t + u)[x.size..] == t[x.size..] + u;
      UnitsStay(t[x.size..], u);
      PrependExtends(x.units, ReadString(Incoming, SQUOTE, t[x.size..]), ReadString(Incoming, SQUOTE, t[x.size..] + u), x.unstable, y.unstable);
    }
  }

  // ---------- the stable length ----------

  /** The escape at the backslash t[0] would still be cut in a text that is n units longer. */
  predicate StillCut(t: Text, n: nat) {
    && |t| >= 2 && t[1] == LOWER_U
    && if FourHex(t[2..]) then 0xd800 <= Hex4(t[2], t[3], t[4], t[5]) < 0xdc00 && |t| + n < 12 else |t| + n < 6
  }

  /** Some escape of the token would be. */
  predicate BodyCut(t: Text, n: nat)
    decreases |t|
  {
    if t == [] then false
    else if t[0] == SQUOTE then QuoteLookahead(Incoming, t[1..]) != Closes && BodyCut(t[1..], n)
    else if t[0] == BACKSLASH then StillCut(t, n) || BodyCut(t[ReadEscape(Incoming, t).size..], n)
    else BodyCut(t[1..], n)
  }

  /** The token had closed and u has opened it again, while an escape in it is still cut. */
  predicate Loses(t: Text, u: Text) {
    && ReadString(Incoming, SQUOTE, t).complete && !ReadString(Incoming, SQUOTE, t + u).complete
    && BodyCut(t, |u|)
  }

  lemma EscapeCut(t: Text, u: Text)
    requires t != [] && t[0] == BACKSLASH && ReadString(Incoming, SQUOTE, t).complete
    ensures ReadEscape(Incoming, t + u).unstable <==> StillCut(t, |u|)
  {
    assert |t| >= 2 ==> (t + u)[1] == t[1] && (t + u)[2..] == t[2..] + u;
    if |t| >= 2 && !FourHex(t[2..]) && FourHex(t[2..] + u) {
      HexHasNoQuote(t[2..]);
    }
  }

  /** Exactly when more input lowers `stableLen`. */
  lemma {:induction false} DropsExactly(t: Text, u: Text)
    requires !(ReadString(Incoming, SQUOTE, t).complete && BodyHinges(t))
    ensures ReadString(Incoming, SQUOTE, t + u).StableLen() < ReadString(Incoming, SQUOTE, t).StableLen() <==> Loses(t, u)
    decreases |t|
  {
    if t == [] {
      return;
    }
    FirstUnit(t, u);
    if t[0] == SQUOTE {
      if QuoteLookahead(Incoming, t[1..]) == Inner {
        SkipGrows(t[1..], u);
        DropsExactly(t[1..], u);
      }
    } else if t[0] != BACKSLASH {
      DropsExactly(t[1..], u);
    } else {
      EscapeDrops(t, u);
    }
  }

  lemma {:induction false} EscapeDrops(t: Text, u: Text)
    requires t != [] && t[0] == BACKSLASH && !(ReadString(Incoming, SQUOTE, t).complete && BodyHinges(t))
    ensures ReadString(Incoming, SQUOTE, t + u).StableLen() < ReadString(Incoming, SQUOTE, t).StableLen() <==> Loses(t, u)
    decreases |t|, 0
  {
    FirstUnit(t, u);
    var x := ReadEscape(Incoming, t);
    if ReadString(Incoming, SQUOTE, t).complete || !x.unstable {
      if ReadString(Incoming, SQUOTE, t).complete {
        SingleEscapeGrows(t, u);
        EscapeCut(t, u);
      } else {
        EscapeStable(t, u);
      }
      assert (t + u)[x.size..] == t[x.size..] + u;
      DropsExactly(t[x.size..], u);
    }
  }

  /** A closed token that hinges on the last slash: with another one it closes earlier. */
  lemma {:induction false} ClosesEarlier(t: Text)
    requires ReadString(Incoming, SQUOTE, t).complete && BodyHinges(t)
    ensures ReadString(Incoming, SQUOTE, t + [SLASH]).complete
    ensures |ReadString(Incoming, SQUOTE, t + [SLASH]).value| < |ReadString(Incoming, SQUOTE, t).value|
    decreases |t|
  {
    FirstUnit(t, [SLASH]);
    if t[0] == SQUOTE {
      if QuoteLookahead(Incoming, t[1..]) == Undecided {
        SlashesSkipped(t[1..]);
      } else {
        SkipGrows(t[1..], [SLASH]);
        ClosesEarlier(t[1..]);
      }
    } else if t[0] != BACKSLASH {
      ClosesEarlier(t[1..]);
    } else {
      var x := ReadEscape(Incoming, t);
      SingleEscapeGrows(t, [SLASH]);
      assert (t + [SLASH])[x.size..] == t[x.size..] + [SLASH];
      ClosesEarlier(t[x.size..]);
    }
  }

  // ---------- tokens of either kind ----------

  predicate IsToken(token: Text) {
    token != [] && (token[0] == QUOTE || token[0] == SQUOTE)
  }

  function Body(token: Text): (b: StringBody)
    requires IsToken(token)
    ensures b.Valid()
  {
    ReadString(Incoming, token[0], token[1..])
  }

  /** The token has closed, on the strength of an undecided lookahead. */
  predicate Shaky(token: Text) {
    TokenHinges(token) && ReadString(Incoming, SQUOTE, token[1..]).complete
  }

  lemma TokenUnitsStay(token: Text, u: Text)
    requires IsToken(token) && !Shaky(token)
    ensures IsToken(token + u) && Extends(Body(token), Body(token + u))
  {
    FirstUnit(token, u);
    if token[0] == QUOTE {
      StableUnitsStay(token[1..], u);
    } else {
      UnitsStay(token[1..], u);
    }
  }

  lemma TokenDropsExactly(token: Text, u: Text)
    requires IsToken(token) && !Shaky(token)
    ensures IsToken(token + u)
    ensures Body(token + u).StableLen() < Body(token).StableLen()
       <==> token[0] == SQUOTE && Body(token).complete && !Body(token + u).complete && BodyCut(token[1..], |u|)
  {
    FirstUnit(token, u);
    if token[0] == QUOTE {
      StableUnitsStay(token[1..], u);
    } else {
      DropsExactly(token[1..], u);
    }
  }

  lemma ShakyDrops(token: Text)
    requires Shaky(token)
    ensures IsToken(token) && IsToken(token + [SLASH]) && Body(token).complete
    ensures |Body(token + [SLASH]).value| < |Body(token).value|
  {
    FirstUnit(token, [SLASH]);
    ClosesEarlier(token[1..]);
  }

  /**
   Exactly when the units reported as stable are: unless the token has closed although an apostrophe in it
   has an undecided lookahead.
   */
  lemma StableExactly(token: Text)
    requires IsToken(token)
    ensures (forall u :: IsToken(token + u) && Extends(Body(token), Body(token + u))) <==> !Shaky(token)
  {
    if Shaky(token) {
      ShakyDrops(token);
      assert !Extends(Body(token), Body(token + [SLASH]));
    } else {
      forall u ensures IsToken(token + u) && Extends(Body(token), Body(token + u)) {
        TokenUnitsStay(token, u);
      }
    }
  }

  // ---------- an apostrophe ----------

  /** `''//',`, a line end and a slash. */
  const APOSTROPHES: Text := [SQUOTE, SQUOTE, SLASH, SLASH, SQUOTE, COMMA, NEWLINE, SLASH]

  lemma OpenRead()
    ensures QuoteLookahead(Incoming, APOSTROPHES[2..]) == Undecided
    ensures ReadString(Incoming, SQUOTE, APOSTROPHES[1..]) == StringBody([SQUOTE, SLASH, SLASH], Some(0), true, [COMMA, NEWLINE, SLASH])
  {
    var t := APOSTROPHES;
    var t1, t2, t3, t4, t5, t6, t7 := t[1..], t[2..], t[3..], t[4..], t[5..], t[6..], t[7..];
    assert t1[1..] == t2 && t2[1..] == t3 && t3[1..] == t4 && t4[1..] == t5 && t5[1..] == t6 && t6[1..] == t7 && t7[1..] == [];
    assert t2[2..] == t4;
    assert SkipLine(t6) == t6 && SkipLine(t5) == t6 && SkipLine(t4) == t6;
    assert SkipInsignificant(t7) == t7 && SkipInsignificant(t6) == t7 && SkipInsignificant(t2) == t7;
    assert QuoteLookahead(Incoming, t2) == Undecided;
    assert SkipInsignificant(t5) == t5 && QuoteLookahead(Incoming, t5) == Closes;
    assert ReadString(Incoming, SQUOTE, t4) == StringBody([], None, true, t5);
    assert ReadString(Incoming, SQUOTE, t3) == StringBody([SLASH], None, true, t5);
    assert ReadString(Incoming, SQUOTE, t2) == StringBody([SLASH, SLASH], None, true, t5);
  }
}
