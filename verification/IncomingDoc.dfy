/**
 The stateful side of an arriving document: the shared buffer with its kept index, and the cursor
 that hands out a string's decoded text chunk by chunk.
 */
module IncomingDoc {
  import opened Units
  import opened JsonGrammar
  import opened JsonLexer
  import opened IncomingScan
  import opened IncomingSelect
  import opened IncomingResume
  import opened IncomingRuns
  import opened StringStability
  import opened BlankStability
  import opened SingleQuoted

  // ---------- the shared buffer ----------

  class Shared {
    var text: Text
    var end: FeedEnd
    var root: Slot

    constructor ()
      ensures State() == Empty
    {
      text, end, root := [], OpenFeed, Slot(0, None);
    }

    function State(): Doc
      reads this
    {
      Doc(text, end, root)
    }

    /** `push`: false when it throws because the feed is closed. */
    method Push(fragment: Text) returns (ok: bool)
      modifies this
      ensures ok == (old(end) == OpenFeed)
      ensures State() == Step(old(State()), Event.Push(fragment))
    {
      ok := end == OpenFeed;
      if ok {
        text := text + fragment;
      }
    }

    method Finish()
      modifies this
      ensures State() == Step(old(State()), Event.Finish)
    {
      if end == OpenFeed {
        end := Finished;
      }
    }

    method Abort()
      modifies this
      ensures State() == Step(old(State()), Event.Abort)
    {
      if end == OpenFeed {
        end := Aborted;
      }
    }

    /**
     `#locate`. With an index that is right for some earlier buffer the answer is that of a scan from
     scratch, and on a steady buffer the index stays right unless the probe stops at an element's end.
     */
    method Locate(path: seq<Segment>, ghost base: Text, ghost ended: bool) returns (probe: Probe)
      modifies this
      ensures State() == Step(old(State()), Pull(path))
      ensures probe == Kept(text, path, end == Finished, old(root)).0
      ensures old(IndexedAt(State(), base, ended)) ==> probe == Fresh(text, path, end == Finished)
      ensures old(IndexedAt(State(), base, ended)) && (end == Finished || Steady(text)) && !old(PullStops(State(), path)) ==>
        IndexedAt(State(), text, end == Finished)
    {
      ghost var before := State();
      var result := Kept(text, path, end == Finished, root);
      probe := result.0;
      root := result.1;
      if IndexedAt(before, base, ended) {
        PullAgrees(before, base, ended, path);
      }
    }
  }

  // ---------- the string cursor ----------

  /** What one pass of `nextChunk` gives. */
  datatype ChunkResult =
    | Chunk(text: Text)
    | EndOfString
    | Waits          // for the buffer or the feed to change
    | Incomplete     // the feed has finished
    | Abandoned      // the feed was aborted
    | NoValue        // the container closed without the member
    | WrongShape
    | Malformed      // more was handed out than is stable now

  datatype Cursor = Cursor(emitted: nat, done: bool)

  /** `chunkReady`: the located value answers the call. */
  predicate ChunkReady(scan: Scan, emitted: nat) {
    scan.Located? && (!scan.shape.StringShape? || scan.shape.stableLen != emitted || scan.end.Some?)
  }

  lemma StableFits(t: Text, ended: bool, depth: nat)
    ensures var scan := ScanValue(t, ended, depth);
      scan.Located? && scan.shape.StringShape? ==> scan.shape.stableLen <= |scan.shape.value|
  {
  }

  /** The call on a located value that is ready. */
  function TakeChunk(c: Cursor, shape: Shape): (ChunkResult, Cursor)
    requires shape.StringShape? ==> shape.stableLen <= |shape.value|
  {
    if !shape.StringShape? then (WrongShape, c)
    else if shape.stableLen < c.emitted then (Malformed, c)
    else if shape.stableLen > c.emitted then
      (Chunk(shape.value[c.emitted..shape.stableLen]), c.(emitted := shape.stableLen))
    else (EndOfString, c.(done := true))
  }

  /** The call on a value that is not there yet, or not ready. */
  function Unready(end: FeedEnd): ChunkResult {
    match end
    case OpenFeed => Waits
    case Finished => Incomplete
    case Aborted => Abandoned
  }

  /** `#nextChunk`, up to where it waits. */
  function NextChunk(c: Cursor, probe: Probe, end: FeedEnd): (ChunkResult, Cursor) {
    if c.done then (EndOfString, c)
    else match probe
      case Waiting => (Unready(end), c)
      case Missing => (NoValue, c)
      case Mismatch(_, _) => (WrongShape, c)
      case Found(t, depth) =>
        var scan := ScanValue(t, end == Finished, depth);
        StableFits(t, end == Finished, depth);
        if ChunkReady(scan, c.emitted) then TakeChunk(c, scan.shape) else (Unready(end), c)
  }

  class IncomingString {
    var emitted: nat
    var done: bool

    constructor ()
      ensures State() == Cursor(0, false)
    {
      emitted, done := 0, false;
    }

    function State(): Cursor
      reads this
    {
      Cursor(emitted, done)
    }

    /** One pass of `#nextChunk` over what the document answers now. */
    method Next(probe: Probe, end: FeedEnd) returns (r: ChunkResult)
      modifies this
      ensures r == NextChunk(old(State()), probe, end).0 && State() == NextChunk(old(State()), probe, end).1
    {
      if done {
        return EndOfString;
      }
      match probe {
        case Missing => return NoValue;
        case Mismatch(_, _) => return WrongShape;
        case Waiting =>
        case Found(t, depth) =>
          var scan := ScanValue(t, end == Finished, depth);
          StableFits(t, end == Finished, depth);
          if ChunkReady(scan, emitted) {
            r := Take(scan.shape);
            return;
          }
      }
      return Unready(end);
    }

    method Take(shape: Shape) returns (r: ChunkResult)
      requires shape.StringShape? ==> shape.stableLen <= |shape.value|
      modifies this
      ensures r == TakeChunk(old(State()), shape).0 && State() == TakeChunk(old(State()), shape).1
    {
      if !shape.StringShape? {
        return WrongShape;
      }
      var stableLen := shape.stableLen;
      if stableLen < emitted {
        return Malformed;
      }
      if stableLen > emitted {
        r := Chunk(shape.value[emitted..stableLen]);
        emitted := stableLen;
        return r;
      }
      done := true;
      return EndOfString;
    }
  }

  // ---------- the chunks of an arriving string ----------

  datatype StringEvent = Arrive(fragment: Text) | Close(end: FeedEnd) | Ask

  /** A cursor reading one string token, and all it has handed out. */
  datatype Reading = Reading(token: Text, end: FeedEnd, cursor: Cursor, out: Text, failed: bool)

  /** The opening quote has arrived and nothing has been asked for. */
  function Begun(token: Text): Reading {
    Reading(token, OpenFeed, Cursor(0, false), [], false)
  }

  /** A push or a close after the feed is closed changes nothing. */
  function ReadStep(r: Reading, e: StringEvent): Reading {
    match e
    case Arrive(fragment) => if r.end == OpenFeed then r.(token := r.token + fragment) else r
    case Close(end) => if r.end == OpenFeed then r.(end := end) else r
    case Ask =>
      var (result, cursor) := NextChunk(r.cursor, Found(r.token, 0), r.end);
      r.(cursor := cursor,
         out := if result.Chunk? then r.out + result.text else r.out,
         failed := r.failed || result.WrongShape? || result.Malformed?)
  }

  function ReadRun(r: Reading, events: seq<StringEvent>): Reading
    decreases |events|
  {
    if events == [] then r else ReadRun(ReadStep(r, events[0]), events[1..])
  }

  /** The reading of the token is final: it has been settled by what follows it, or the feed has closed. */
  predicate Settles(token: Text)
    requires IsToken(token)
  {
    Body(token).complete && !Shaky(token) && (token[0] == SQUOTE ==> SkipInsignificant(Body(token).rest) != [])
  }

  predicate Last(r: Reading, base: Text) {
    r.end != OpenFeed && base == r.token
  }

  /**
   What has been handed out is a stable leading part of the string read from `base`, the token as it stood
   at some earlier call; all of it once done. Calls on double-quoted tokens do not fail.
   */
  predicate Faithful(r: Reading, base: Text) {
    && IsToken(base) && base <= r.token && (!Shaky(base) || Last(r, base))
    && var b := Body(base);
       && r.cursor.emitted == |r.out| == b.StableLen() && r.out == b.value[..|r.out|]
       && (r.cursor.done ==> b.complete && r.out == b.value && (Settles(base) || Last(r, base)))
       && (base[0] == QUOTE ==> !r.failed)
  }

  /** A call that finds the feed closed, or a token whose closing does not hinge on an undecided lookahead. */
  predicate SoundAsk(r: Reading) {
    r.cursor.done || r.end != OpenFeed || !Shaky(r.token)
  }

  predicate SoundAsks(r: Reading, events: seq<StringEvent>)
    decreases |events|
  {
    events != [] ==> (events[0].Ask? ==> SoundAsk(r)) && SoundAsks(ReadStep(r, events[0]), events[1..])
  }

  /** The units handed out are those of the token as it stands now. */
  lemma OutNow(r: Reading, base: Text)
    requires Faithful(r, base)
    ensures IsToken(r.token) && r.token[0] == base[0] && r.out <= Body(r.token).value
    ensures base[0] == QUOTE ==> |r.out| <= Body(r.token).StableLen()
  {
    if base != r.token {
      var u := r.token[|base|..];
      assert r.token == base + u;
      FirstUnit(base, u);
      TokenUnitsStay(base, u);
      if base[0] == QUOTE {
        StableUnitsStay(base[1..], u);
      }
      assert r.out == Body(base).value[..Body(base).StableLen()][..|r.out|];
      assert Body(r.token).value[..Body(base).StableLen()][..|r.out|] == Body(r.token).value[..|r.out|];
    }
  }

  /** What is located of a token. */
  lemma TokenLocated(token: Text, ended: bool)
    requires IsToken(token)
    ensures var scan, b := ScanValue(token, ended, 0), Body(token);
      && scan.Located? && scan.shape == StringShape(b.value, b.StableLen())
      && (scan.end.Some? ==> b.complete && (ended || SkipInsignificant(b.rest) != []))
  {
    assert ScanValue(token, ended, 0) == ScanString(token, ended);
  }

  /** What a call does to a reading that is not done, in terms of the token as it stands. */
  lemma AskMoves(r: Reading)
    requires IsToken(r.token) && !r.cursor.done
    ensures var s, b, n := ReadStep(r, Ask), Body(r.token), r.cursor.emitted;
      || s == r
      || (b.StableLen() < n && s == r.(failed := true))
      || (b.StableLen() > n && s == r.(cursor := Cursor(b.StableLen(), false), out := r.out + b.value[n..b.StableLen()]))
      || (b.StableLen() == n && s == r.(cursor := Cursor(n, true)) && b.complete
          && (r.end == Finished || SkipInsignificant(b.rest) != []))
  {
    TokenLocated(r.token, r.end == Finished);
    hide Body, ScanValue, SkipInsignificant;
  }

  /** More units of the token are handed out. */
  lemma ChunkFaithful(r: Reading, base: Text, s: Reading)
    requires Faithful(r, base) && !r.cursor.done && IsToken(r.token) && r.token[0] == base[0]
    requires Last(r, r.token) || !Shaky(r.token)
    requires var b := Body(r.token);
      && r.out <= b.value && |r.out| <= b.StableLen()
      && s == r.(cursor := Cursor(b.StableLen(), false), out := r.out + b.value[|r.out|..b.StableLen()])
    ensures Faithful(s, r.token)
  {
    hide Body, Shaky, SkipInsignificant;
    var b := Body(r.token);
    assert b.value[..|r.out|] + b.value[|r.out|..b.StableLen()] == b.value[..b.StableLen()];
  }

  /** All of them have been. */
  lemma EndFaithful(r: Reading, base: Text, s: Reading)
    requires Faithful(r, base) && !r.cursor.done && IsToken(r.token) && r.token[0] == base[0]
    requires Last(r, r.token) || Settles(r.token)
    requires var b := Body(r.token);
      && b.complete && r.out <= b.value && |r.out| == b.StableLen()
      && s == r.(cursor := Cursor(|r.out|, true))
    ensures Faithful(s, r.token)
  {
    hide Body, Shaky, SkipInsignificant;
    var b := Body(r.token);
    assert b.value[..|b.value|] == b.value;
  }

  lemma AskFaithful(r: Reading, base: Text) returns (next: Text)
    requires Faithful(r, base) && SoundAsk(r)
    ensures Faithful(ReadStep(r, Ask), next)
  {
    next := base;
    if !r.cursor.done {
      OutNow(r, base);
      AskMoves(r);
      var b := Body(r.token);
      hide Body, Shaky, SkipInsignificant, ReadStep;
      if b.StableLen() >= r.cursor.emitted && ReadStep(r, Ask) != r {
        next := r.token;
        if b.StableLen() > r.cursor.emitted {
          ChunkFaithful(r, base, ReadStep(r, Ask));
        } else {
          EndFaithful(r, base, ReadStep(r, Ask));
        }
      }
    }
  }

  lemma StepFaithful(r: Reading, e: StringEvent, base: Text) returns (next: Text)
    requires Faithful(r, base) && (e.Ask? ==> SoundAsk(r))
    ensures Faithful(ReadStep(r, e), next)
  {
    if e.Ask? {
      next := AskFaithful(r, base);
    } else {
      next := base;
    }
  }

  /** What a faithful reading has handed out, in terms of the token now. */
  lemma FaithfulOut(r: Reading, base: Text)
    requires Faithful(r, base)
    ensures IsToken(r.token) && r.out <= Body(r.token).value
    ensures r.cursor.done ==> Body(r.token).complete && r.out == Body(r.token).value
    ensures r.token[0] == QUOTE ==> !r.failed
  {
    OutNow(r, base);
    if r.cursor.done && base != r.token {
      var u := r.token[|base|..];
      assert r.token == base + u;
      FirstUnit(base, u);
      if base[0] == QUOTE {
        ClosedTokenFinal(base[1..], u);
      } else {
        BodyEdge(base[1..], u);
      }
    }
  }

  /** The chunks joined are a leading part of the decoded string, and once the cursor is done they are the whole of it. */
  predicate Joins(r: Reading) {
    && IsToken(r.token) && r.out <= Body(r.token).value
    && (r.cursor.done ==> Body(r.token).complete && r.out == Body(r.token).value)
    && (r.token[0] == QUOTE ==> !r.failed)
  }

  /** So it is whatever arrives next. */
  ghost predicate Lasting(r: Reading) {
    forall u :: Joins(ReadStep(r, Arrive(u)))
  }

  lemma FaithfulLasts(r: Reading, base: Text)
    requires Faithful(r, base)
    ensures Lasting(r)
  {
    forall u ensures Joins(ReadStep(r, Arrive(u))) {
      var next := StepFaithful(r, Arrive(u), base);
      FaithfulOut(ReadStep(r, Arrive(u)), next);
    }
  }

  lemma {:induction false} SoundLasts(r: Reading, base: Text, events: seq<StringEvent>, k: nat)
    requires Faithful(r, base) && SoundAsks(r, events) && k <= |events|
    ensures Lasting(ReadRun(r, events[..k]))
    decreases |events|
  {
    if k == 0 {
      FaithfulLasts(r, base);
    } else {
      var next := StepFaithful(r, events[0], base);
      assert events[..k][0] == events[0] && events[..k][1..] == events[1..][..k - 1];
      SoundLasts(ReadStep(r, events[0]), next, events[1..], k - 1);
    }
  }

  /** A call on a token whose closing hinges on the last slash hands out units that another slash takes back. */
  lemma UnsoundAsk(r: Reading, base: Text)
    requires Faithful(r, base) && !SoundAsk(r)
    ensures !Lasting(ReadStep(r, Ask))
  {
    OutNow(r, base);
    var later, u := ReadStep(r, Ask), r.token[|base|..];
    var b, c := Body(r.token), Body(r.token + [SLASH]);
    assert r.token == base + u && r.token + [SLASH] == base + (u + [SLASH]);
    TokenUnitsStay(base, u + [SLASH]);
    ShakyDrops(r.token);
    assert ScanValue(r.token, false, 0) == ScanString(r.token, false);
    assert b.value[..|r.out|] + b.value[|r.out|..] == b.value && b.value[|r.out|..|b.value|] == b.value[|r.out|..];
    assert later.out == b.value;
    assert !Joins(ReadStep(later, Arrive([SLASH])));
  }

  lemma {:induction false} UnsoundBreaks(r: Reading, base: Text, events: seq<StringEvent>) returns (k: nat)
    requires Faithful(r, base) && !SoundAsks(r, events)
    ensures k <= |events| && !Lasting(ReadRun(r, events[..k]))
    decreases |events|
  {
    hide Lasting, Faithful, ReadStep, SoundAsk;
    if events[0].Ask? && !SoundAsk(r) {
      k := 1;
      UnsoundAsk(r, base);
      assert events[..1][1..] == [];
    } else {
      var next := StepFaithful(r, events[0], base);
      k := UnsoundBreaks(ReadStep(r, events[0]), next, events[1..]);
      k := k + 1;
      assert events[..k][0] == events[0] && events[..k][1..] == events[1..][..k - 1];
    }
  }

  lemma BegunFaithful(token: Text)
    requires IsToken(token)
    ensures Faithful(Begun(token), token[..1])
  {
    assert token[..1][1..] == [] && token[..1][0] == token[0];
  }

  /**
   Exactly when the chunks of a string are what they are promised to be, at every point of a run and
   whatever arrives next: when no call finds the token closed on the strength of an undecided lookahead.
   */
  lemma ChunksExactly(token: Text, events: seq<StringEvent>)
    requires IsToken(token)
    ensures SoundAsks(Begun(token), events)
       <==> forall k: nat :: k <= |events| ==> Lasting(ReadRun(Begun(token), events[..k]))
  {
    BegunFaithful(token);
    if SoundAsks(Begun(token), events) {
      forall k: nat | k <= |events| ensures Lasting(ReadRun(Begun(token), events[..k])) {
        SoundLasts(Begun(token), token[..1], events, k);
      }
    } else {
      var k := UnsoundBreaks(Begun(token), token[..1], events);
    }
  }

  /**
   Exactly when a call on a sound reading fails: when the token had closed at the last call that handed out
   units, is open again, and an escape in those units is still cut.
   */
  lemma CallFailsExactly(r: Reading, base: Text)
    requires Faithful(r, base) && !r.cursor.done && !r.failed
    ensures ReadStep(r, Ask).failed
       <==> base[0] == SQUOTE && Body(base).complete && !Body(r.token).complete && BodyCut(base[1..], |r.token| - |base|)
  {
    hide Body, BodyCut, ReadStep, Shaky;
    OutNow(r, base);
    AskFailsBelow(r);
    if base != r.token {
      var u := r.token[|base|..];
      assert r.token == base + u;
      TokenDropsExactly(base, u);
    }
  }

  lemma AskFailsBelow(r: Reading)
    requires IsToken(r.token) && !r.cursor.done && !r.failed
    ensures ReadStep(r, Ask).failed <==> Body(r.token).StableLen() < r.cursor.emitted
  {
    TokenLocated(r.token, r.end == Finished);
    hide Body, ScanValue;
  }

  lemma {:induction false} DoubleQuotedSound(r: Reading, base: Text, events: seq<StringEvent>)
    requires Faithful(r, base) && base[0] == QUOTE
    ensures SoundAsks(r, events)
    decreases |events|
  {
    OutNow(r, base);
    if events != [] {
      var next := StepFaithful(r, events[0], base);
      OutNow(ReadStep(r, events[0]), next);
      DoubleQuotedSound(ReadStep(r, events[0]), next, events[1..]);
    }
  }

  /**
   However a double-quoted token is cut into fragments and whenever chunks are asked for, no call fails,
   and the chunks are a leading part of the decoded string; once the cursor is done, what `text()` returns.
   */
  lemma ChunksJoinToText(token: Text, events: seq<StringEvent>)
    requires IsToken(token) && token[0] == QUOTE
    ensures Joins(ReadRun(Begun(token), events))
  {
    BegunFaithful(token);
    DoubleQuotedSound(Begun(token), token[..1], events);
    SoundLasts(Begun(token), token[..1], events, |events|);
    var r := ReadRun(Begun(token), events);
    assert events[..|events|] == events;
    assert r.token + [] == r.token;
    assert ReadStep(r, Arrive([])) == r;
  }

  /** Once the token has closed and its value is complete, at most two calls finish the string. */
  lemma ClosedStringDrains(r: Reading, base: Text)
    requires Faithful(r, base) && Done(ScanString(r.token, r.end == Finished))
    ensures ReadStep(ReadStep(r, Ask), Ask).cursor.done
    ensures ReadStep(r, Ask).out == Body(r.token).value
  {
    OutNow(r, base);
    FaithfulOut(r, base);
    var b := Body(r.token);
    assert ScanValue(r.token, r.end == Finished, 0) == ScanString(r.token, r.end == Finished);
    assert b.value[..|r.out|] + b.value[|r.out|..] == b.value;
    assert b.value[|r.out|..|b.value|] == b.value[|r.out|..];
  }

  /** `''//',`, a line end and a slash, asked for a chunk: an empty string if the slash becomes a comment. */
  lemma ApostropheHandedOut()
    ensures IsToken(APOSTROPHES) && ReadRun(Begun(APOSTROPHES), [Ask]).out == [SQUOTE, SLASH, SLASH]
    ensures !Lasting(ReadRun(Begun(APOSTROPHES), [Ask]))
  {
    OpenRead();
    var r := Begun(APOSTROPHES);
    BegunFaithful(APOSTROPHES);
    assert ScanValue(APOSTROPHES, false, 0) == ScanString(APOSTROPHES, false);
    assert ReadRun(r, [Ask]) == ReadStep(r, Ask);
    assert BodyHinges(APOSTROPHES[1..]);
    UnsoundAsk(r, APOSTROPHES[..1]);
  }

  /** `'\u'` */
  const CUT_ESCAPE: Text := [SQUOTE, BACKSLASH, LOWER_U, SQUOTE]

  lemma CutBodies()
    ensures IsToken(CUT_ESCAPE) && Body(CUT_ESCAPE) == StringBody([BACKSLASH, LOWER_U], Some(0), true, [])
    ensures IsToken(CUT_ESCAPE + [0x78]) && Body(CUT_ESCAPE + [0x78]).StableLen() == 0
  {
    var t, g := CUT_ESCAPE[1..], (CUT_ESCAPE + [0x78])[1..];
    assert t[2..] == [SQUOTE] && g[2..] == [SQUOTE, 0x78] && g[2..][1..] == [0x78];
    assert ReadString(Incoming, SQUOTE, [SQUOTE]) == StringBody([], None, true, []);
    assert ReadString(Incoming, SQUOTE, [0x78]) == StringBody([0x78], None, false, []);
    assert QuoteLookahead(Incoming, [0x78]) == Inner;
    assert ReadString(Incoming, SQUOTE, [SQUOTE, 0x78]) == StringBody([SQUOTE, 0x78], None, false, []);
    assert ReadEscape(Incoming, g) == Escape([BACKSLASH, LOWER_U], 2, true);
  }

  lemma CutAsked()
    ensures ReadStep(Begun(CUT_ESCAPE), Ask) == Reading(CUT_ESCAPE, OpenFeed, Cursor(2, false), [BACKSLASH, LOWER_U], false)
  {
    CutBodies();
    TokenLocated(CUT_ESCAPE, false);
    hide Body, ScanValue;
  }

  /** That token, handed out whole, and then an `x`. */
  lemma CutEscapeFails()
    ensures ReadRun(Begun(CUT_ESCAPE), [Ask]).out == [BACKSLASH, LOWER_U]
    ensures ReadRun(Begun(CUT_ESCAPE), [Ask, Arrive([0x78]), Ask]).failed
  {
    CutBodies();
    CutAsked();
    var first := ReadStep(Begun(CUT_ESCAPE), Ask);
    AskFailsBelow(ReadStep(first, Arrive([0x78])));
    assert [Ask][1..] == [];
    assert [Ask, Arrive([0x78]), Ask][1..] == [Arrive([0x78]), Ask] && [Arrive([0x78]), Ask][1..] == [Ask];
    hide Body, NextChunk;
  }
}
