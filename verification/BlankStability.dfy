/**
 What is significant in a text that is still arriving, past whitespace and comments.
 */
module BlankStability {
  import opened Units
  import opened JsonLexer

  /** The buffer that t is the end of does not end in a slash. */
  predicate NoEdgeSlash(t: Text) {
    t == [] || t[|t| - 1] != SLASH
  }

  predicate IsSuffix(r: Text, t: Text) {
    |r| <= |t| && t[|t| - |r|..] == r
  }

  lemma SuffixTrans(a: Text, b: Text, c: Text)
    requires IsSuffix(a, b) && IsSuffix(b, c)
    ensures IsSuffix(a, c)
  {
    assert c[|c| - |a|..] == c[|c| - |b|..][|b| - |a|..];
  }

  lemma DropSuffix(t: Text, k: nat)
    requires k <= |t|
    ensures IsSuffix(t[k..], t)
  {
  }

  lemma SuffixEdge(r: Text, t: Text)
    requires IsSuffix(r, t)
    ensures NoEdgeSlash(t) ==> NoEdgeSlash(r)
    ensures r != [] ==> r[|r| - 1] == t[|t| - 1]
  {
  }

  // ---------- whitespace and comments ----------

  lemma FirstUnit(t: Text, u: Text)
    requires t != []
    ensures (t + u)[0] == t[0] && (t + u)[1..] == t[1..] + u
  {
  }

  lemma {:induction false} LineGrows(t: Text, u: Text)
    requires SkipLine(t) != []
    ensures SkipLine(t + u) == SkipLine(t) + u
  {
    assert (t + u)[0] == t[0] && (t + u)[1..] == t[1..] + u;
    if t[0] != NEWLINE {
      LineGrows(t[1..], u);
    }
  }

  lemma {:induction false} BlockGrows(t: Text, u: Text)
    requires SkipBlock(t) != []
    ensures SkipBlock(t + u) == SkipBlock(t) + u
  {
    assert (t + u)[0] == t[0] && (t + u)[1] == t[1] && (t + u)[1..] == t[1..] + u;
    if t[0] == STAR && t[1] == SLASH {
      assert (t + u)[2..] == t[2..] + u;
    } else {
      BlockGrows(t[1..], u);
    }
  }

  /** Significant text stays significant, except for a lone slash at the edge. */
  lemma {:induction false} SkipGrows(t: Text, u: Text)
    requires SkipInsignificant(t) != [] && SkipInsignificant(t) != [SLASH]
    ensures SkipInsignificant(t + u) == SkipInsignificant(t) + u
    decreases |t|
  {
    assert (t + u)[0] == t[0] && (t + u)[1..] == t[1..] + u;
    assert |t| >= 2 ==> (t + u)[1] == t[1] && (t + u)[2..] == t[2..] + u;
    if IsWhitespace(t[0]) {
      SkipGrows(t[1..], u);
    } else if |t| >= 2 && t[0] == SLASH && t[1] == SLASH {
      LineGrows(t[2..], u);
      SkipGrows(SkipLine(t[2..]), u);
    } else if |t| >= 2 && t[0] == SLASH && t[1] == STAR {
      BlockGrows(t[2..], u);
      SkipGrows(SkipBlock(t[2..]), u);
    }
  }

  /** The text after the comment at the start of t. */
  function AfterComment(t: Text): Text
    requires |t| >= 2 && t[0] == SLASH && (t[1] == SLASH || t[1] == STAR)
  {
    if t[1] == SLASH then SkipLine(t[2..]) else SkipBlock(t[2..])
  }

  lemma CommentSuffix(t: Text)
    requires |t| >= 2 && t[0] == SLASH && (t[1] == SLASH || t[1] == STAR)
    ensures IsSuffix(AfterComment(t), t) && |AfterComment(t)| < |t|
  {
    DropSuffix(t, 2);
    LineIsSuffix(t[2..]);
    BlockIsSuffix(t[2..]);
    SuffixTrans(AfterComment(t), t[2..], t);
  }

  lemma {:induction false} SkipIsSuffix(t: Text)
    ensures IsSuffix(SkipInsignificant(t), t)
    decreases |t|
  {
    var r := SkipInsignificant(t);
    if t == [] {
    } else if IsWhitespace(t[0]) {
      SkipIsSuffix(t[1..]);
      DropSuffix(t, 1);
      SuffixTrans(r, t[1..], t);
    } else if |t| >= 2 && t[0] == SLASH && (t[1] == SLASH || t[1] == STAR) {
      CommentSuffix(t);
      SkipIsSuffix(AfterComment(t));
      SuffixTrans(r, AfterComment(t), t);
    }
  }

  lemma {:induction false} LineIsSuffix(t: Text)
    ensures IsSuffix(SkipLine(t), t)
  {
    if t != [] && t[0] != NEWLINE {
      LineIsSuffix(t[1..]);
      DropSuffix(t, 1);
      SuffixTrans(SkipLine(t), t[1..], t);
    }
  }

  lemma {:induction false} BlockIsSuffix(t: Text)
    ensures IsSuffix(SkipBlock(t), t)
  {
    if |t| >= 2 && !(t[0] == STAR && t[1] == SLASH) {
      BlockIsSuffix(t[1..]);
      DropSuffix(t, 1);
      SuffixTrans(SkipBlock(t), t[1..], t);
    }
  }
}
