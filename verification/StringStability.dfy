/**
 A string token read while its text is still arriving: what has been reported as stable stays.
 */
module StringStability {
  import opened Units
  import opened JsonGrammar
  import opened JsonLexer

  /** An escape that is not marked unstable reads the same however the text goes on. */
  lemma EscapeStable(t: Text, u: Text)
    requires t != [] && t[0] == BACKSLASH
    requires !ReadEscape(Incoming, t).unstable
    ensures ReadEscape(Incoming, t + u).units == ReadEscape(Incoming, t).units
    ensures ReadEscape(Incoming, t + u).size == ReadEscape(Incoming, t).size
    ensures !ReadEscape(Incoming, t + u).unstable
  {
    assert |t| >= 2 ==> (t + u)[2..] == t[2..] + u;
  }

  /**
   An unstable escape can only be followed, inside the text at hand, by units that do not reach a
   decision: either the token stays open, or the escape reads the same after all.
   */
  lemma UnstableEscape(t: Text, u: Text)
    requires t != [] && t[0] == BACKSLASH
    requires ReadEscape(Incoming, t).unstable
    requires ReadString(Incoming, QUOTE, t).complete
    ensures ReadEscape(Incoming, t + u).units == ReadEscape(Incoming, t).units
    ensures ReadEscape(Incoming, t + u).size == ReadEscape(Incoming, t).size
  {
    assert |t| >= 2 ==> (t + u)[2..] == t[2..] + u;
    if |t| == 1 {
      assert false;
    } else if !FourHex(t[2..]) && FourHex(t[2..] + u) {
      NoQuoteInHex(t[2..]);
    }
  }

  /** Fewer than four units, all hex digits, contain no closing quote. */
  lemma {:induction false} NoQuoteInHex(t: Text)
    requires forall k :: 0 <= k < |t| ==> IsHexDigit(t[k])
    ensures !ReadString(Incoming, QUOTE, t).complete
    decreases |t|
  {
    if t != [] {
      assert IsHexDigit(t[0]);
      NoQuoteInHex(t[1..]);
    }
  }

  /** A closed double-quoted token is final: the same decoding, and the same text after it. */
  lemma {:induction false} ClosedTokenFinal(t: Text, u: Text)
    requires ReadString(Incoming, QUOTE, t).complete
    ensures ReadString(Incoming, QUOTE, t + u).complete
    ensures ReadString(Incoming, QUOTE, t + u).value == ReadString(Incoming, QUOTE, t).value
    ensures ReadString(Incoming, QUOTE, t + u).rest == ReadString(Incoming, QUOTE, t).rest + u
    decreases |t|
  {
    assert (t + u)[0] == t[0] && (t + u)[1..] == t[1..] + u;
    if t[0] == QUOTE {
    } else if t[0] != BACKSLASH {
      ClosedTokenFinal(t[1..], u);
    } else {
      var x := ReadEscape(Incoming, t);
      if x.unstable {
        UnstableEscape(t, u);
      } else {
        EscapeStable(t, u);
      }
      assert (t + u)[x.size..] == t[x.size..] + u;
      ClosedTokenFinal(t[x.size..], u);
    }
  }

  /** `after` keeps everything `before` reported as stable. */
  predicate Keeps(before: StringBody, after: StringBody)
    requires before.Valid() && after.Valid()
  {
    && before.StableLen() <= after.StableLen()
    && before.value[..before.StableLen()] == after.value[..before.StableLen()]
  }

  lemma PrependKeeps(units: Text, before: StringBody, after: StringBody)
    requires before.Valid() && after.Valid() && Keeps(before, after) && !before.complete
    ensures before.Prepend(units, false).Valid() && after.Prepend(units, false).Valid()
    ensures Keeps(before.Prepend(units, false), after.Prepend(units, false))
  {
    var b, a := before.Prepend(units, false), after.Prepend(units, false);
    assert b.StableLen() == |units| + before.StableLen();
    assert a.StableLen() == |units| + after.StableLen();
    assert b.value[..b.StableLen()] == units + before.value[..before.StableLen()];
    assert a.value[..b.StableLen()] == units + after.value[..before.StableLen()];
  }

  /**
   More input never lowers `stableLen` and never changes the decoded units below it.
   */
  lemma {:induction false} StableUnitsStay(t: Text, u: Text)
    ensures Keeps(ReadString(Incoming, QUOTE, t), ReadString(Incoming, QUOTE, t + u))
    decreases |t|
  {
    if ReadString(Incoming, QUOTE, t).complete {
      ClosedTokenFinal(t, u);
    } else if t != [] {
      assert (t + u)[0] == t[0] && (t + u)[1..] == t[1..] + u;
      if t[0] != BACKSLASH {
        StableUnitsStay(t[1..], u);
        PrependKeeps([t[0]], ReadString(Incoming, QUOTE, t[1..]), ReadString(Incoming, QUOTE, t[1..] + u));
      } else {
        var x := ReadEscape(Incoming, t);
        if !x.unstable {
          EscapeStable(t, u);
          assert (t + u)[x.size..] == t[x.size..] + u;
          StableUnitsStay(t[x.size..], u);
          PrependKeeps(x.units, ReadString(Incoming, QUOTE, t[x.size..]), ReadString(Incoming, QUOTE, t[x.size..] + u));
        }
      }
    }
  }
}
