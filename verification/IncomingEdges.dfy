/**
 Exactly when a verdict can be withdrawn. Two things in a buffer hinge on a slash at its end, which may yet
 begin a comment: a value of which nothing but the slash has arrived, and an apostrophe inside a string
 whose lookahead is undecided. A verdict reached past one of them falls with the next slash, and every
 other verdict stands whatever arrives.
 */
module IncomingEdges {
  import opened Units
  import opened JsonGrammar
  import opened JsonLexer
  import opened StringStability
  import opened SingleQuoted
  import opened IncomingScan
  import opened BlankStability
  import opened IncomingStability
  import opened IncomingSelect
  import opened IncomingRuns

  // ---------- what hinges on a slash ----------

  /** A single-quoted token of the value was read past an apostrophe whose lookahead is undecided. */
  predicate ValueHinges(t: Text, depth: nat)
    decreases |t|, 2
  {
    && t != []
    && if t[0] == LBRACE || t[0] == LBRACKET then ItemsHinge(t[1..], depth, t[0] == LBRACE) else TokenHinges(t)
  }

  predicate ItemsHinge(t: Text, depth: nat, isObject: bool)
    decreases |t|, 4
  {
    if isObject then
      match ReadMember(t)
      case StrayComma(rest) => ItemsHinge(rest, depth, true)
      case Keyed(_, at, value) =>
        || TokenHinges(at) || ValueHinges(value, depth + 1)
        || var v := SkipValue(value, false, depth + 1, RBRACE); v.Next? && ItemsHinge(v.rest, depth, true)
      case _ => false
    else
      var t1 := SkipInsignificant(t);
      && t1 != [] && t1[0] != RBRACKET
      && if t1[0] == COMMA then ItemsHinge(t1[1..], depth, false)
         else
           || ValueHinges(t1, depth + 1)
           || var v := SkipValue(t1, false, depth + 1, RBRACKET); v.Next? && ItemsHinge(v.rest, depth, false)
  }

  /** The probe meets such a token, in a value it takes for complete, or a slash where a value should be. */
  predicate ProbeHinges(t: Text, path: seq<Segment>, depth: nat)
    decreases |t|, 1
  {
    if t == [] then false
    else if path == [] then Done(ScanValue(t, false, depth)) && ValueHinges(t, depth)
    else if t == [SLASH] then true
    else
      && t[0] == (if path[0].Key? then LBRACE else LBRACKET) && depth < MAX_DEPTH
      && match path[0]
         case Key(name) => KeyHinges(t[1..], name, path[1..], depth)
         case At(i) => ElementHinges(t[1..], 0, i, path[1..], depth)
  }

  predicate KeyHinges(t: Text, wanted: Text, path: seq<Segment>, depth: nat)
    decreases |t|, 0
  {
    match ReadMember(t)
    case StrayComma(rest) => KeyHinges(rest, wanted, path, depth)
    case Keyed(key, at, value) =>
      || TokenHinges(at)
      || if key == wanted then ProbeHinges(value, path, depth + 1)
         else
           || ValueHinges(value, depth + 1)
           || var v := SkipValue(value, false, depth + 1, RBRACE); v.Next? && KeyHinges(v.rest, wanted, path, depth)
    case _ => false
  }

  predicate ElementHinges(t: Text, element: nat, wanted: nat, path: seq<Segment>, depth: nat)
    decreases |t|, 2
  {
    var t1 := SkipInsignificant(t);
    && t1 != [] && t1[0] != RBRACKET
    && if t1[0] == COMMA then ElementHinges(t1[1..], element, wanted, path, depth)
       else if element == wanted then ProbeHinges(t1, path, depth + 1)
       else
         || ValueHinges(t1, depth + 1)
         || var v := SkipValue(t1, false, depth + 1, RBRACKET);
            v.Next? && ElementHinges(v.rest, element + 1, wanted, path, depth)
  }

  // ---------- tokens and members ----------

  lemma TokenEdge(t: Text, u: Text)
    requires t != [] && (t[0] == QUOTE || t[0] == SQUOTE) && ReadString(Incoming, t[0], t[1..]).complete
    requires SkipInsignificant(ReadString(Incoming, t[0], t[1..]).rest) != []
    ensures (t + u)[0] == t[0]
    ensures var b, c := ReadString(Incoming, t[0], t[1..]), ReadString(Incoming, t[0], (t + u)[1..]);
      && (!TokenHinges(t) ==> c.complete && c.value == b.value && c.rest == b.rest + u)
      && (TokenHinges(t) && u == [SLASH] ==> SkipInsignificant(c.rest) == [])
  {
    FirstUnit(t, u);
    if t[0] == QUOTE {
      ClosedTokenFinal(t[1..], u);
    } else {
      BodyEdge(t[1..], u);
    }
  }

  lemma KeyEdge(t: Text, u: Text)
    requires t != [] && ScanKey(t).Some? && SkipInsignificant(ScanKey(t).value.1) != []
    ensures !TokenHinges(t) ==> ScanKey(t + u) == Some((ScanKey(t).value.0, ScanKey(t).value.1 + u))
    ensures TokenHinges(t) && u == [SLASH] && ScanKey(t + u).Some? ==> SkipInsignificant(ScanKey(t + u).value.1) == []
  {
    FirstUnit(t, u);
    if t[0] == QUOTE || t[0] == SQUOTE {
      TokenEdge(t, u);
    } else {
      KeyRunGrows(t, u);
      PieceGrows(t, u, KeyRun(t));
    }
  }

  /** A member start is as it was, or with another slash there is no member. */
  lemma MemberEdge(t: Text, u: Text)
    requires !ReadMember(t).NoMember?
    ensures var m, g := ReadMember(t), ReadMember(t + u);
      if m.Keyed? && TokenHinges(m.at) then u == [SLASH] ==> g.NoMember?
      else Grown(m, g, u) && (m.Keyed? && m.value == [SLASH] && u == [SLASH] ==> g.value == [])
  {
    var t1 := SkipInsignificant(t);
    LoneSlashNoMember(t);
    SkipGrows(t, u);
    FirstUnit(t1, u);
    if ReadMember(t).Keyed? {
      KeyEdge(t1, u);
      if !TokenHinges(t1) {
        ColonGrows(ScanKey(t1).value.1, u);
      }
    }
  }

  /** After a key: the colon and the value behind it. */
  lemma ColonGrows(r: Text, u: Text)
    requires SkipInsignificant(r) != [] && SkipInsignificant(r)[0] == COLON
    ensures SkipInsignificant(r + u) != [] && SkipInsignificant(r + u)[0] == COLON
    ensures var value, later := SkipInsignificant(SkipInsignificant(r)[1..]), SkipInsignificant(SkipInsignificant(r + u)[1..]);
      && (value != [] && value != [SLASH] ==> later == value + u)
      && (value == [SLASH] && u == [SLASH] ==> later == [])
  {
    var t2 := SkipInsignificant(r);
    SkipGrows(r, u);
    FirstUnit(t2, u);
    var value := SkipInsignificant(t2[1..]);
    if value == [SLASH] && u == [SLASH] {
      SlashesSkipped(t2[1..]);
    } else if value != [] && value != [SLASH] {
      SkipGrows(t2[1..], u);
    }
  }

  // ---------- values and containers ----------

  /** A complete value is final, or another slash reopens it. */
  lemma {:induction false} ValueEdge(t: Text, u: Text, ended: bool, depth: nat)
    requires Done(ScanValue(t, false, depth))
    ensures !ValueHinges(t, depth) ==>
      ScanValue(t + u, ended, depth) == Located(ScanValue(t, false, depth).shape, Some(ScanValue(t, false, depth).end.value + u))
    ensures ValueHinges(t, depth) && u == [SLASH] && !ended ==> !Done(ScanValue(t + u, ended, depth))
    decreases |t|, 2
  {
    FirstUnit(t, u);
    if t[0] == LBRACE || t[0] == LBRACKET {
      assert ScanValue(t, false, depth) == ScanContainer(t, false, depth);
      assert ScanValue(t + u, ended, depth) == ScanContainer(t + u, ended, depth);
      ItemsEdge(t[1..], u, ended, depth, t[0] == LBRACE);
    } else if t[0] == QUOTE || t[0] == SQUOTE {
      StringEdge(t, u, ended);
    } else {
      AtomGrows(t, u, ended);
    }
  }

  lemma StringEdge(t: Text, u: Text, ended: bool)
    requires t != [] && (t[0] == QUOTE || t[0] == SQUOTE) && Done(ScanString(t, false))
    ensures !TokenHinges(t) ==>
      ScanString(t + u, ended) == Located(ScanString(t, false).shape, Some(ScanString(t, false).end.value + u))
    ensures TokenHinges(t) && u == [SLASH] && !ended ==> !Done(ScanString(t + u, ended))
  {
    TokenEdge(t, u);
    ScalarGrows(ScanString(t, false).end.value, u, ended);
  }

  lemma {:induction false} TailEdge(t: Text, u: Text, ended: bool, depth: nat, close: Unit)
    requires SkipValue(t, false, depth, close) != Open && close != SLASH
    ensures var v, g := SkipValue(t, false, depth, close), SkipValue(t + u, ended, depth, close);
      && (!ValueHinges(t, depth) ==> g == if v.Next? then Next(v.rest + u) else Closed(v.rest + u))
      && (ValueHinges(t, depth) && u == [SLASH] && !ended ==> g == Open)
    decreases |t|, 3
  {
    ValueEdge(t, u, ended, depth);
    SeparatorGrows(ScanValue(t, false, depth), u, close);
  }

  lemma {:induction false} ItemsEdge(t: Text, u: Text, ended: bool, depth: nat, isObject: bool)
    requires ScanItems(t, false, depth, isObject).Some?
    ensures !ItemsHinge(t, depth, isObject) ==>
      ScanItems(t + u, ended, depth, isObject) == Some(ScanItems(t, false, depth, isObject).value + u)
    ensures ItemsHinge(t, depth, isObject) && u == [SLASH] && !ended ==> ScanItems(t + u, ended, depth, isObject).None?
    decreases |t|, 5
  {
    if isObject {
      MembersEdge(t, u, ended, depth);
    } else {
      ElementsEdge(t, u, ended, depth);
    }
  }

  lemma {:induction false} MembersEdge(t: Text, u: Text, ended: bool, depth: nat)
    requires ScanItems(t, false, depth, true).Some?
    ensures !ItemsHinge(t, depth, true) ==>
      ScanItems(t + u, ended, depth, true) == Some(ScanItems(t, false, depth, true).value + u)
    ensures ItemsHinge(t, depth, true) && u == [SLASH] && !ended ==> ScanItems(t + u, ended, depth, true).None?
    decreases |t|, 4
  {
    hide ReadMember, SkipValue, ValueHinges, TokenHinges, SkipInsignificant;
    MemberEdge(t, u);
    match ReadMember(t)
    case ClosingBrace(rest) =>
    case StrayComma(rest) => MembersEdge(rest, u, ended, depth);
    case Keyed(_, at, value) =>
      if !TokenHinges(at) {
        LoneSlashOpen(depth + 1, RBRACE);
        NothingOpen(depth + 1, RBRACE);
        TailEdge(value, u, ended, depth + 1, RBRACE);
        var v := SkipValue(value, false, depth + 1, RBRACE);
        if v.Next? && !ValueHinges(value, depth + 1) {
          MembersEdge(v.rest, u, ended, depth);
        }
      }
  }

  lemma NothingOpen(depth: nat, close: Unit)
    ensures SkipValue([], false, depth, close) == Open
  {
  }

  lemma {:induction false} ElementsEdge(t: Text, u: Text, ended: bool, depth: nat)
    requires ScanItems(t, false, depth, false).Some?
    ensures !ItemsHinge(t, depth, false) ==>
      ScanItems(t + u, ended, depth, false) == Some(ScanItems(t, false, depth, false).value + u)
    ensures ItemsHinge(t, depth, false) && u == [SLASH] && !ended ==> ScanItems(t + u, ended, depth, false).None?
    decreases |t|, 4
  {
    hide SkipValue, ValueHinges, SkipInsignificant;
    var t1 := SkipInsignificant(t);
    ElementStart(t, u, depth);
    if t1[0] == COMMA {
      ElementsEdge(t1[1..], u, ended, depth);
    } else if t1[0] != RBRACKET {
      TailEdge(t1, u, ended, depth + 1, RBRACKET);
      var v := SkipValue(t1, false, depth + 1, RBRACKET);
      if v.Next? && !ValueHinges(t1, depth + 1) {
        ElementsEdge(v.rest, u, ended, depth);
      }
    }
  }

  // ---------- probes ----------

  /** What is to be shown of a probe and of the same probe with u added: it stands, or another slash withdraws it. */
  predicate Decided(p: Probe, q: Probe, u: Text, ended: bool, hinges: bool) {
    && (!hinges ==> Stands(p, q, u, ended))
    && (hinges && Shown(p, false) != Waiting && u == [SLASH] && !ended ==> !Stands(p, q, u, ended))
  }

  lemma PlainlyDecided(u: Text, ended: bool, hinges: bool)
    ensures forall q :: Decided(Waiting, q, u, ended, hinges)
    ensures Decided(Missing, Missing, u, ended, false)
    ensures forall p :: Decided(p, Waiting, u, ended, true)
    ensures u != [SLASH] || ended ==> forall p, q :: Decided(p, q, u, ended, true)
  {
  }

  lemma {:induction false} ValueDecided(t: Text, u: Text, path: seq<Segment>, ended: bool, depth: nat)
    requires t != [] && (t == [SLASH] ==> path == [])
    ensures Decided(FreshValue(t, path, false, depth), FreshValue(t + u, path, ended, depth), u, ended, ProbeHinges(t, path, depth))
    decreases |t|, 1
  {
    FirstUnit(t, u);
    if path == [] {
      if Done(ScanValue(t, false, depth)) {
        ValueEdge(t, u, ended, depth);
      }
    } else if t[0] == (if path[0].Key? then LBRACE else LBRACKET) && depth < MAX_DEPTH {
      match path[0]
      case Key(name) => KeyDecided(t[1..], u, name, path[1..], ended, depth);
      case At(i) => ElementDecided(t[1..], u, 0, i, path[1..], ended, depth);
    }
  }

  /** Where a value should begin, t with nothing before it and later the same with u added. */
  lemma {:induction false} StartDecided(t: Text, later: Text, u: Text, path: seq<Segment>, ended: bool, depth: nat)
    requires t != [] && (t != [SLASH] ==> later == t + u) && (t == [SLASH] && u == [SLASH] ==> later == [])
    ensures Decided(FreshValue(t, path, false, depth), FreshValue(later, path, ended, depth), u, ended, ProbeHinges(t, path, depth))
    decreases |t|, 2
  {
    if t != [SLASH] {
      ValueDecided(t, u, path, ended, depth);
    } else {
      LoneSlashOpen(depth, RBRACE);
    }
  }

  lemma {:induction false} KeyDecided(t: Text, u: Text, wanted: Text, path: seq<Segment>, ended: bool, depth: nat)
    ensures Decided(FreshKey(t, wanted, path, false, depth), FreshKey(t + u, wanted, path, ended, depth), u, ended,
                    KeyHinges(t, wanted, path, depth))
    decreases |t|, 0
  {
    PlainlyDecided(u, ended, KeyHinges(t, wanted, path, depth));
    hide ReadMember, SkipValue, FreshKey, Decided;
    FreshHead(t, wanted, path, false, depth);
    FreshHead(t + u, wanted, path, ended, depth);
    if ReadMember(t).NoMember? {
      return;
    }
    MemberEdge(t, u);
    if ReadMember(t).StrayComma? {
      KeyDecided(ReadMember(t).rest, u, wanted, path, ended, depth);
    } else if ReadMember(t).Keyed? && ReadMember(t).value != [] && !TokenHinges(ReadMember(t).at) {
      MemberDecided(t, u, wanted, path, ended, depth);
    }
  }

  lemma {:induction false} MemberDecided(t: Text, u: Text, wanted: Text, path: seq<Segment>, ended: bool, depth: nat)
    requires ReadMember(t).Keyed? && ReadMember(t).value != [] && !TokenHinges(ReadMember(t).at)
    ensures Decided(FreshKey(t, wanted, path, false, depth), FreshKey(t + u, wanted, path, ended, depth), u, ended,
                    KeyHinges(t, wanted, path, depth))
    decreases |ReadMember(t).value|, 3
  {
    PlainlyDecided(u, ended, KeyHinges(t, wanted, path, depth));
    assert FreshValue([], path, ended, depth + 1) == Waiting;
    hide ReadMember, SkipValue, FreshKey, Decided, ValueHinges, FreshValue;
    var value := ReadMember(t).value;
    MemberEdge(t, u);
    FreshPass(t, wanted, path, false, depth);
    FreshHead(t + u, wanted, path, ended, depth);
    if ReadMember(t + u).value != [] {
      FreshPass(t + u, wanted, path, ended, depth);
    }
    if ReadMember(t).key == wanted {
      StartDecided(value, ReadMember(t + u).value, u, path, ended, depth + 1);
    } else if !SkipValue(value, false, depth + 1, RBRACE).Open? {
      LoneSlashOpen(depth + 1, RBRACE);
      TailEdge(value, u, ended, depth + 1, RBRACE);
      var v := SkipValue(value, false, depth + 1, RBRACE);
      if v.Next? && !ValueHinges(value, depth + 1) {
        KeyDecided(v.rest, u, wanted, path, ended, depth);
      }
    }
  }

  lemma {:induction false} ElementDecided(t: Text, u: Text, element: nat, wanted: nat, path: seq<Segment>, ended: bool, depth: nat)
    ensures Decided(FreshElement(t, element, wanted, path, false, depth), FreshElement(t + u, element, wanted, path, ended, depth),
                    u, ended, ElementHinges(t, element, wanted, path, depth))
    decreases |t|, 3
  {
    PlainlyDecided(u, ended, ElementHinges(t, element, wanted, path, depth));
    hide SkipValue, Decided, ValueHinges, FreshValue, ScanValue;
    var t1 := SkipInsignificant(t);
    if t1 == [] {
      return;
    }
    if t1 == [SLASH] {
      LoneElementDecided(t, u, element, wanted, path, ended, depth);
      return;
    }
    SkipGrows(t, u);
    FirstUnit(t1, u);
    if t1[0] == COMMA {
      ElementDecided(t1[1..], u, element, wanted, path, ended, depth);
    } else if t1[0] != RBRACKET {
      if element == wanted {
        ValueDecided(t1, u, path, ended, depth + 1);
      } else if !SkipValue(t1, false, depth + 1, RBRACKET).Open? {
        TailEdge(t1, u, ended, depth + 1, RBRACKET);
        var v := SkipValue(t1, false, depth + 1, RBRACKET);
        if v.Next? && !ValueHinges(t1, depth + 1) {
          ElementDecided(v.rest, u, element + 1, wanted, path, ended, depth);
        }
      }
    }
  }

  lemma LoneElementDecided(t: Text, u: Text, element: nat, wanted: nat, path: seq<Segment>, ended: bool, depth: nat)
    requires SkipInsignificant(t) == [SLASH]
    ensures Decided(FreshElement(t, element, wanted, path, false, depth), FreshElement(t + u, element, wanted, path, ended, depth),
                    u, ended, ElementHinges(t, element, wanted, path, depth))
  {
    LoneSlashOpen(depth + 1, RBRACKET);
    var p := FreshElement(t, element, wanted, path, false, depth);
    assert SkipInsignificant(t)[0] == SLASH;
    if element != wanted {
      assert p == Waiting;
    } else if path == [] {
      assert p == FreshValue([SLASH], path, false, depth + 1) == Found([SLASH], depth + 1);
      assert Shown(p, false) == Waiting;
    } else {
      assert ProbeHinges([SLASH], path, depth + 1);
      if u == [SLASH] {
        SlashesSkipped(t);
      }
    }
  }

  // ---------- the document ----------

  /** The verdict on the text is never contradicted, whatever arrives and whether or not the feed ends. */
  ghost predicate Lasts(text: Text, path: seq<Segment>) {
    forall u, ended :: Stands(Fresh(text, path, false), Fresh(text + u, path, ended), u, ended)
  }

  lemma FreshDecided(text: Text, u: Text, path: seq<Segment>, ended: bool)
    ensures Decided(Fresh(text, path, false), Fresh(text + u, path, ended), u, ended, ProbeHinges(SkipInsignificant(text), path, 0))
  {
    var t := SkipInsignificant(text);
    if t != [] && t != [SLASH] {
      SkipGrows(text, u);
      ValueDecided(t, u, path, ended, 0);
    } else if t == [SLASH] {
      LoneSlashOpen(0, RBRACE);
      if u == [SLASH] {
        SlashesSkipped(text);
      }
    }
  }

  /**
   Exactly when a verdict lasts: it does if and only if the probe met neither a slash where a value should
   be nor a string read past an undecided apostrophe. Whether it lasts shows at once when a slash is added.
   */
  lemma VerdictsExactly(text: Text, path: seq<Segment>)
    requires Shown(Fresh(text, path, false), false) != Waiting
    ensures Lasts(text, path) <==> !ProbeHinges(SkipInsignificant(text), path, 0)
    ensures Lasts(text, path)
       <==> Stands(Fresh(text, path, false), Fresh(text + [SLASH], path, false), [SLASH], false)
  {
    FreshDecided(text, [SLASH], path, false);
    hide Fresh, Stands, ProbeHinges;
    forall u, ended
      ensures Decided(Fresh(text, path, false), Fresh(text + u, path, ended), u, ended, ProbeHinges(SkipInsignificant(text), path, 0))
    {
      FreshDecided(text, u, path, ended);
    }
  }

  // ---------- the two ways ----------

  /** Of a text that is significant only in a last slash: no verdict on the value itself, and none that lasts on any other path. */
  lemma LoneSlashWithdrawn(text: Text, path: seq<Segment>)
    requires SkipInsignificant(text) == [SLASH]
    ensures Shown(Fresh(text, path, false), false) == if path == [] then Waiting else Mismatch(Expected(path[0]), ValueName)
    ensures Lasts(text, path) <==> path == []
  {
    LoneSlashOpen(0, RBRACE);
    if path != [] {
      VerdictsExactly(text, path);
    }
  }

  /** A string read as complete, a separator after it, does not last. */
  lemma ApostropheWithdrawn()
    ensures Done(ScanValue(APOSTROPHES, false, 0))
    ensures ScanValue(APOSTROPHES, false, 0).shape.value == [SQUOTE, SLASH, SLASH]
    ensures Fresh(APOSTROPHES, [], false) == Found(APOSTROPHES, 0) && !Lasts(APOSTROPHES, [])
  {
    OpenRead();
    var t := APOSTROPHES;
    var rest: Text := [COMMA, NEWLINE, SLASH];
    assert SkipInsignificant(rest) == rest && SkipInsignificant(t) == t;
    assert ScanValue(t, false, 0) == ScanString(t, false);
    assert BodyHinges(t[1..]);
    VerdictsExactly(t, []);
  }
}
