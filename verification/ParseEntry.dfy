/**
 The entry points: `JSON.parse` first and the tolerant parser behind it. The two disagree on the texts
 in which a number overflows: `JSON.parse` makes it an infinity, the tolerant parser refuses it.
 */
module ParseEntry {
  import opened Units
  import opened JsonGrammar
  import opened JsonLexer
  import opened JsonValue
  import opened JsonParse
  import opened RelaxedJson
  import opened RelaxedRoundTrip
  import opened RelaxedTruncation
  import R = JsonReading
  import N = NumberRange

  predicate Reads(t: Text, pre: Text, v: Value, post: Text) {
    AllWhitespace(pre) && ValueOk(v) && AllWhitespace(post) && t == pre + Print(v) + post
  }

  /** `JSON.parse(t)` returns j. */
  ghost predicate Parses(t: Text, j: Json) {
    exists pre, v, post :: Reads(t, pre, v, post) && j == JsDecode(v)
  }

  ghost predicate HasParse(t: Text) {
    exists j :: Parses(t, j)
  }

  /** t is a JSON text, and one of its numbers is beyond the range of a double. */
  ghost predicate Overflows(t: Text) {
    exists pre, v, post :: Reads(t, pre, v, post) && !NumbersFinite(v)
  }

  /** `JSON.parse` succeeds on the JSON texts, and on nothing else. */
  lemma ParsesJsonTexts(t: Text)
    ensures HasParse(t) <==> IsJsonText(t)
  {
    if IsJsonText(t) {
      var pre, v, post :| AllWhitespace(pre) && ValueOk(v) && AllWhitespace(post) && t == pre + Print(v) + post;
      assert Reads(t, pre, v, post);
      assert Parses(t, JsDecode(v));
    }
    if HasParse(t) {
      var j :| Parses(t, j);
      var pre, v, post :| Reads(t, pre, v, post) && j == JsDecode(v);
    }
  }

  /** The grammar is unambiguous: a text denotes one value. */
  lemma ParseIsUnique(t: Text, j: Json, k: Json)
    requires Parses(t, j) && Parses(t, k)
    ensures j == k
  {
    var pre, v, post :| Reads(t, pre, v, post) && j == JsDecode(v);
    var pre2, w, post2 :| Reads(t, pre2, w, post2) && k == JsDecode(w);
    SameText(pre, v, post, pre2, w, post2);
  }

  /** The tolerant parser agrees with `JSON.parse` in both modes on the JSON texts without overflow. */
  lemma FastPathAgrees(t: Text, j: Json, partial: bool)
    requires Parses(t, j) && !Overflows(t)
    ensures Parse(partial, t) == Got(j, [])
  {
    var pre, v, post :| Reads(t, pre, v, post) && j == JsDecode(v);
    FiniteDecode(v);
    TextParsed(partial, pre, v, post);
  }

  ghost function ParseJsonWithRepair(t: Text): Outcome {
    if HasParse(t) then
      var j :| Parses(t, j);
      Got(j, [])
    else Parse(false, t)
  }

  /** Exactly when the fast path is only fast: when no number of a JSON text overflows. */
  lemma RepairExactly(t: Text)
    ensures ParseJsonWithRepair(t) == Parse(false, t) <==> !Overflows(t)
    ensures Overflows(t) ==> ParseJsonWithRepair(t).Got? && Parse(false, t) == Throws
  {
    if HasParse(t) {
      var j := ParseJsonWithRepair(t).value;
      assert Parses(t, j);
      if Overflows(t) {
        var pre, v, post :| Reads(t, pre, v, post) && !NumbersFinite(v);
        StrictRoundTrip(pre, v, post);
      } else {
        FastPathAgrees(t, j, false);
      }
    } else if Overflows(t) {
      var pre, v, post :| Reads(t, pre, v, post) && !NumbersFinite(v);
      assert Parses(t, JsDecode(v));
    }
  }

  /** `1e400`: the tolerant parser throws, `JSON.parse` and with it the repairing parse give an infinity. */
  lemma HugeOverflows()
    ensures var t := [0x31, LOWER_E, 0x34, 0x30, 0x30];
      && Overflows(t) && Parse(false, t) == Throws
      && ParseJsonWithRepair(t) == Got(JInfinity(false), [])
  {
    N.HugeIsNotFinite();
    var t, v := PrintNumber(N.HUGE), Num(N.HUGE);
    assert [] + Print(v) + [] == t;
    assert Reads(t, [], v, []);
    RepairExactly(t);
    assert Parses(t, JsDecode(v));
    assert Parses(t, ParseJsonWithRepair(t).value);
    ParseIsUnique(t, JsDecode(v), ParseJsonWithRepair(t).value);
    StrictRoundTrip([], v, []);
  }

  // ---------- streaming ----------

  /** What `trimStart` removes. */
  predicate IsJsSpace(u: Unit) {
    0x09 <= u <= 0x0d || u == 0x20 || u == 0xa0 || u == 0x1680 || 0x2000 <= u <= 0x200a
    || u == 0x2028 || u == 0x2029 || u == 0x202f || u == 0x205f || u == 0x3000 || u == 0xfeff
  }

  function TrimStart(t: Text): (r: Text)
    ensures |r| <= |t|
  {
    if t != [] && IsJsSpace(t[0]) then TrimStart(t[1..]) else t
  }

  ghost function ParseStreamingJson(t: Text): Json {
    var trimmed := TrimStart(t);
    if trimmed == [] then JObject([])
    else if HasParse(trimmed) then
      var j :| Parses(trimmed, j);
      j
    else
      var o := Parse(true, trimmed);
      if o.Got? && o.value != JNull then o.value else JObject([])
  }

  lemma {:induction false} TrimBlank(ws: Text, rest: Text)
    requires AllWhitespace(ws)
    ensures TrimStart(ws + rest) == TrimStart(rest)
    decreases |ws|
  {
    if ws == [] {
      assert ws + rest == rest;
    } else {
      R.Split(ws, rest);
      TrimBlank(ws[1..], rest);
    }
  }

  lemma ValueIsNoSpace(v: Value)
    requires ValueOk(v)
    ensures Print(v) != [] && !IsJsSpace(Print(v)[0])
  {
    ValueStart(v, []);
    assert Print(v) + [] == Print(v);
    if v.Num? {
      NumberChars(v.num);
    }
  }

  /** Of a leading part of a JSON text, trimming leaves a leading part of its value and what follows. */
  lemma TrimmedPrefix(pre: Text, v: Value, post: Text, t: Text)
    requires AllWhitespace(pre) && ValueOk(v) && t <= pre + Print(v) + post
    ensures TrimStart(t) <= Print(v) + post
    ensures pre + Print(v) <= t ==> Print(v) <= TrimStart(t)
  {
    var body := Print(v) + post;
    R.Regroup(pre, Print(v), post);
    ValueIsNoSpace(v);
    if |t| <= |pre| {
      assert t == pre[..|t|];
      TrimBlank(t, []);
      assert t + [] == t;
    } else {
      var rest := t[|pre|..];
      assert t == pre + rest && rest == body[..|rest|];
      TrimBlank(pre, rest);
      assert rest[0] == Print(v)[0];
      if pre + Print(v) <= t {
        assert rest[..|Print(v)|] == (pre + Print(v))[|pre|..];
      }
    }
  }

  lemma StreamingValue(trimmed: Text)
    requires trimmed != [] && TrimStart(trimmed) == trimmed && !Overflows(trimmed)
    ensures var j := ParseStreamingJson(trimmed);
      j == JObject([]) || (Parse(true, trimmed).Got? && Parse(true, trimmed).value == j)
    ensures HasParse(trimmed) ==> Parses(trimmed, ParseStreamingJson(trimmed))
  {
    if HasParse(trimmed) {
      FastPathAgrees(trimmed, ParseStreamingJson(trimmed), true);
    }
  }

  lemma {:induction false} TrimTwice(t: Text)
    ensures TrimStart(TrimStart(t)) == TrimStart(t)
  {
    if t != [] && IsJsSpace(t[0]) {
      TrimTwice(t[1..]);
    }
  }

  lemma NoBlank(pre: Text, w: Value, end: Text, t: Text)
    requires AllWhitespace(pre) && t == pre + Print(w) + end && TrimStart(t) == t
    ensures pre == [] && t == Print(w) + end
  {
    R.Regroup(pre, Print(w), end);
    TrimBlank(pre, Print(w) + end);
    assert |t| == |pre| + |Print(w) + end|;
    assert pre == [] && [] + (Print(w) + end) == Print(w) + end;
  }

  /** Of two readings of a text, one with and one without overflow, both are of a number. */
  lemma BothNumbers(v: Value, w: Value, rest: Text, rest2: Text)
    requires ValueOk(v) && ValueOk(w) && Bounded(rest) && NumbersFinite(v) && !NumbersFinite(w)
    requires Print(v) + rest == Print(w) + rest2
    ensures v.Num? && w.Num?
  {
    HeadIsFirst(v, rest);
    HeadIsFirst(w, rest2);
    if !w.Num? {
      SameValue(v, w, rest, rest2);
    }
  }

  lemma PrefixRest(t: Text, whole: Text, p: Text, end: Text) returns (more: Text)
    requires t <= whole && t == p + end
    ensures whole == p + (end + more)
  {
    more := whole[|t|..];
    assert whole == t + more;
    R.Regroup(p, end, more);
  }

  /** Only a number that is the whole text can begin with a JSON text that overflows. */
  lemma OverflowIsNumber(v: Value, post: Text, trimmed: Text)
    requires ValueOk(v) && AllWhitespace(post) && NumbersFinite(v) && trimmed <= Print(v) + post
    requires TrimStart(trimmed) == trimmed && Overflows(trimmed)
    ensures v.Num? && exists n :: NumberOk(n) && Parses(trimmed, JInfinity(n.minus))
  {
    var pre, w, end :| Reads(trimmed, pre, w, end) && !NumbersFinite(w);
    hide Print, NumbersFinite, Overflows, ValueOk;
    NoBlank(pre, w, end, trimmed);
    var more := PrefixRest(trimmed, Print(v) + post, Print(w), end);
    assert post + [] == post;
    BlankBounded(post, []);
    BothNumbers(v, w, post, end + more);
    OverflowParses(trimmed, pre, w, end);
  }

  lemma OverflowParses(t: Text, pre: Text, w: Value, end: Text)
    requires Reads(t, pre, w, end) && w.Num? && !NumbersFinite(w)
    ensures NumberOk(w.num) && Parses(t, JInfinity(w.num.minus))
  {
    assert Parses(t, JsDecode(w));
  }

  /**
   Streaming a duplicate-free JSON text, at every point: the result is an empty object or approximates
   the final value, exactly unless what has arrived is a number that overflows, of which only more input
   tells that it is a leading part of another. Once the value's last unit has arrived it is the final value.
   */
  lemma StreamingExactly(pre: Text, v: Value, post: Text, t: Text)
    requires AllWhitespace(pre) && ValueOk(v) && AllWhitespace(post) && NumbersFinite(v) && DistinctKeys(v)
    requires t <= pre + Print(v) + post
    ensures ParseStreamingJson(t) == JObject([]) || Approximates(ParseStreamingJson(t), v) <==> !Overflows(TrimStart(t))
    ensures Overflows(TrimStart(t)) ==> v.Num? && !(pre + Print(v) <= t)
    ensures pre + Print(v) <= t ==> ParseStreamingJson(t) == Decode(v)
  {
    var trimmed := TrimStart(t);
    TrimmedPrefix(pre, v, post, t);
    TrimTwice(t);
    if trimmed == [] {
      ValueIsNoSpace(v);
      NothingOverflows();
    } else {
      assert [] + Print(v) + post == Print(v) + post && [] + Print(v) == Print(v);
      assert ParseStreamingJson(t) == ParseStreamingJson(trimmed);
      if pre + Print(v) <= t {
        WholeStreamed(v, post, trimmed);
        FinalApproximates(v);
      } else if Overflows(trimmed) {
        OverflowIsNumber(v, post, trimmed);
        var n :| NumberOk(n) && Parses(trimmed, JInfinity(n.minus));
        assert Parses(trimmed, ParseStreamingJson(trimmed));
        ParseIsUnique(trimmed, JInfinity(n.minus), ParseStreamingJson(trimmed));
      } else {
        PartialApproximates([], v, post, trimmed);
        StreamingValue(trimmed);
      }
    }
  }

  lemma NothingOverflows()
    ensures !Overflows([])
  {
    if Overflows([]) {
      var pre, v, post :| Reads([], pre, v, post) && !NumbersFinite(v);
      TextIsNotEmpty(pre, v, post);
    }
  }

  lemma TextIsNotEmpty(pre: Text, v: Value, post: Text)
    requires ValueOk(v)
    ensures pre + Print(v) + post != []
  {
    ValueIsNoSpace(v);
  }

  /** The whole value has arrived, and perhaps some of the whitespace after it. */
  lemma WholeStreamed(v: Value, post: Text, trimmed: Text)
    requires ValueOk(v) && AllWhitespace(post) && NumbersFinite(v) && Print(v) <= trimmed <= Print(v) + post
    requires TrimStart(trimmed) == trimmed && trimmed != []
    ensures ParseStreamingJson(trimmed) == Decode(v) && !Overflows(trimmed)
  {
    var cut := trimmed[|Print(v)|..];
    assert [] + Print(v) == Print(v);
    assert trimmed == [] + Print(v) + cut && cut == post[..|cut|];
    assert Reads(trimmed, [], v, cut);
    FiniteDecode(v);
    assert Parses(trimmed, Decode(v));
    assert Parses(trimmed, ParseStreamingJson(trimmed));
    ParseIsUnique(trimmed, ParseStreamingJson(trimmed), Decode(v));
    if Overflows(trimmed) {
      var pre, w, end :| Reads(trimmed, pre, w, end) && !NumbersFinite(w);
      SameText([], v, cut, pre, w, end);
    }
  }

  /** A number that overflows, by itself. */
  lemma NumberStreamed(n: Number)
    requires NumberOk(n) && !IsFinite(NumberValue(n))
    ensures ParseStreamingJson(PrintNumber(n)) == JInfinity(n.minus)
  {
    var v := Num(n);
    var t := Print(v);
    ValueIsNoSpace(v);
    assert [] + t + [] == t;
    assert Reads(t, [], v, []);
    assert Parses(t, JInfinity(n.minus));
    assert TrimStart(t) == t;
    assert Parses(t, ParseStreamingJson(t));
    ParseIsUnique(t, ParseStreamingJson(t), JInfinity(n.minus));
  }

  /** A one, 400 zeros and `e-300` is a finite number; streamed up to the `e` it is an infinity. */
  lemma LongNumberStreams(k: nat)
    requires k == 400
    ensures var whole, part := N.Scaled(k), N.Plain(k);
      && NumberOk(whole) && NumbersFinite(Num(whole)) && PrintNumber(part) <= Print(Num(whole))
      && ParseStreamingJson(PrintNumber(part)) == JInfinity(false)
  {
    N.LongThenScaled(k);
    NumberStreamed(N.Plain(k));
  }
}
