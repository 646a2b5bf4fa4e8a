/**
 The append-only message log: a cached copy of the live message list that keeps its longest stable
 prefix, found by comparing digests. Messages are objects that their owners may rewrite in place.
 */
module AppendOnlyContext {
  import opened Units

  // ---------- the digest ----------

  const WORD: int := 0x1_0000_0000

  /** The signed 32-bit number that an integer wraps around to (`| 0`, and the result of `<<`). */
  function ToInt32(x: int): int {
    var m := x % WORD;
    if m >= 0x8000_0000 then m - WORD else m
  }

  /** The base-31 polynomial of the text, unbounded. */
  function Polynomial(s: Text): nat {
    if s == [] then 0 else 31 * Polynomial(s[..|s| - 1]) + s[|s| - 1]
  }

  function Digest(s: Text): nat {
    Polynomial(s) % WORD
  }

  lemma WrapKeeps(x: int)
    ensures ToInt32(x) % WORD == x % WORD && -0x8000_0000 <= ToInt32(x) < 0x8000_0000
  {
  }

  lemma SameRemainder(a: int, b: int, k: int)
    requires a == b + k * WORD
    ensures a % WORD == b % WORD
  {
    var q := b / WORD;
    assert a == (q + k) * WORD + b % WORD;
  }

  /** One turn of the loop, wraps and all, is one step of the polynomial. */
  lemma WrappedStep(hash: int, p: int, c: int)
    requires hash % WORD == p % WORD
    ensures ToInt32(ToInt32(hash * 32) - hash + c) % WORD == (31 * p + c) % WORD
  {
    var shifted := ToInt32(hash * 32);
    WrapKeeps(hash * 32);
    WrapKeeps(shifted - hash + c);
    var k := shifted / WORD - (hash * 32) / WORD;
    assert shifted == hash * 32 + k * WORD;
    var j := hash / WORD - p / WORD;
    assert hash == p + j * WORD;
    SameRemainder(shifted - hash + c, 31 * p + c, k + 31 * j);
  }

  /** The rolling hash over int32, as the loop computes it. */
  method RollingHash(payload: Text) returns (hash32: nat)
    ensures hash32 == Digest(payload)
  {
    var hash := 0;
    for j := 0 to |payload|
      invariant hash % WORD == Polynomial(payload[..j]) % WORD
    {
      WrappedStep(hash, Polynomial(payload[..j]), payload[j]);
      hash := ToInt32(ToInt32(hash * 32) - hash + payload[j]);
      assert payload[..j + 1][..j] == payload[..j];
    }
    assert payload[..|payload|] == payload;
    hash32 := hash % WORD;
  }

  /** 31 has an inverse modulo 2^32, so a step loses nothing. */
  lemma StepInjective(a: int, b: int, c: int)
    requires (31 * a + c) % WORD == (31 * b + c) % WORD
    ensures a % WORD == b % WORD
  {
    var k := (31 * a + c) / WORD - (31 * b + c) / WORD;
    assert 31 * (a - b) == k * WORD;
    // 31 * 3186588639 == 23 * 2^32 + 1
    assert a - b == 3186588639 * (31 * (a - b)) - 23 * WORD * (a - b);
    assert a == b + (3186588639 * k - 23 * (a - b)) * WORD;
    SameRemainder(a, b, 3186588639 * k - 23 * (a - b));
  }

  /** A rewrite of any one code unit always shows in the digest. */
  lemma {:induction false} OneUnitShows(s: Text, i: nat, u: Unit)
    requires i < |s| && u != s[i]
    ensures Digest(s[i := u]) != Digest(s)
    decreases |s|
  {
    var t, n := s[i := u], |s| - 1;
    if i == n {
      assert t[..n] == s[..n];
      if Digest(t) == Digest(s) {
        LastUnitShows(Polynomial(s[..n]), s[n], u);
      }
    } else {
      assert t[..n] == s[..n][i := u];
      OneUnitShows(s[..n], i, u);
      if Digest(t) == Digest(s) {
        StepInjective(Polynomial(t[..n]), Polynomial(s[..n]), s[n]);
      }
    }
  }

  lemma LastUnitShows(p: int, a: Unit, b: Unit)
    requires (31 * p + a) % WORD == (31 * p + b) % WORD
    ensures a == b
  {
    var k := (31 * p + a) / WORD - (31 * p + b) / WORD;
    assert a - b == k * WORD;
  }

  // ---------- how much of the log stays ----------

  /** Length of the longest common prefix. */
  function Common(a: seq<int>, b: seq<int>): (n: nat)
    ensures n <= |a| && n <= |b|
    ensures a[..n] == b[..n]
    ensures n < |a| && n < |b| ==> a[n] != b[n]
  {
    if a == [] || b == [] || a[0] != b[0] then 0
    else
      var n := Common(a[1..], b[1..]);
      assert a[..n + 1] == [a[0]] + a[1..][..n];
      assert b[..n + 1] == [b[0]] + b[1..][..n];
      n + 1
  }

  /** Entries of the log that a sync keeps: none when the list shrank, else up to the first divergence. */
  function Kept(digests: seq<int>, logged: nat, news: seq<int>): (k: nat)
    ensures k <= logged && k <= |news|
  {
    if |news| < |digests| then 0
    else
      var n := Common(news, digests);
      if n < logged then n else logged
  }

  lemma CommonIs(a: seq<int>, b: seq<int>, n: nat)
    requires n <= |a| && n <= |b|
    requires forall i :: 0 <= i < n ==> a[i] == b[i]
    requires n == |a| || n == |b| || a[n] != b[n]
    ensures Common(a, b) == n
  {
    var c := Common(a, b);
    assert forall i :: 0 <= i < c ==> a[i] == a[..c][i] && b[i] == b[..c][i];
  }

  // ---------- messages and the log ----------

  /** `payload` is the text of all the fields a provider may serialise. */
  class Message {
    var payload: Text
    var version: nat

    constructor (payload: Text)
      ensures this.payload == payload && version == 0
    {
      this.payload, version := payload, 0;
    }
  }

  /** The digests of known messages, from their texts. */
  lemma KnownDigests(known: set<Message>, messages: seq<Message>)
    requires forall m :: m in messages ==> m in known
    ensures TextDigests(map m | m in known :: m.payload, messages) == DigestsOf(messages)
  {
  }

  datatype Memo = Memo(version: nat, digest: nat)

  class AppendOnlyLog {
    var entries: seq<Message>

    constructor ()
      ensures entries == []
    {
      entries := [];
    }

    method Append(message: Message)
      modifies this
      ensures entries == old(entries) + [message]
    {
      entries := entries + [message];
    }

    /** Drops what is past the first `count` entries. */
    method Truncate(count: int)
      modifies this
      ensures entries == if count < 0 then [] else if count < |old(entries)| then old(entries)[..count] else old(entries)
    {
      var keep := if count < 0 then 0 else count;
      if keep < |entries| {
        entries := entries[..keep];
      }
    }

    method Clear()
      modifies this
      ensures entries == []
    {
      entries := [];
    }
  }

  ghost function DigestsOf(messages: seq<Message>): (r: seq<int>)
    reads messages
    ensures |r| == |messages|
  {
    seq(|messages|, i requires 0 <= i < |messages| reads messages => Digest(messages[i].payload))
  }

  class Manager {
    const log: AppendOnlyLog
    var lastSyncCount: nat
    var messageDigests: seq<int>
    var digestMemo: map<Message, Memo>

    /** A memo that carries its message's version holds its digest. */
    ghost predicate MemoOk()
      reads this, digestMemo.Keys
    {
      forall m :: m in digestMemo ==>
        digestMemo[m].version <= m.version
        && (digestMemo[m].version == m.version ==> digestMemo[m].digest == Digest(m.payload))
    }

    /** There is a digest for each logged entry, unless the log was cleared behind the manager's back. */
    ghost predicate Valid()
      reads this, log, digestMemo.Keys
    {
      && MemoOk()
      && |messageDigests| == lastSyncCount
      && (|log.entries| == lastSyncCount || log.entries == [])
    }

    /** What a run of the model sees of the manager: the texts of the messages that are known, the log and its digests. */
    ghost function State(known: set<Message>, edited: set<Message>): Cache<Message>
      reads this, log, known
    {
      Cache(map m | m in known :: m.payload, log.entries, messageDigests, edited)
    }

    constructor ()
      ensures Valid() && fresh(log) && log.entries == [] && messageDigests == []
    {
      log := new AppendOnlyLog();
      lastSyncCount, messageDigests, digestMemo := 0, [], map[];
    }

    /** The digest of a message, from the memo when its version is still that of the message. */
    method MessageDigest(m: Message) returns (digest: nat)
      requires MemoOk()
      modifies this`digestMemo
      ensures MemoOk() && digest == Digest(m.payload)
    {
      if m in digestMemo && digestMemo[m].version == m.version {
        return digestMemo[m].digest;
      }
      digest := RollingHash(m.payload);
      digestMemo := digestMemo[m := Memo(m.version, digest)];
    }

    method LongestStablePrefix(messages: seq<Message>) returns (n: nat)
      requires MemoOk() && |messageDigests| == lastSyncCount
      modifies this`digestMemo
      ensures MemoOk() && n == Common(DigestsOf(messages), messageDigests)
    {
      var bound := if lastSyncCount < |messages| then lastSyncCount else |messages|;
      for i := 0 to bound
        invariant MemoOk()
        invariant forall k :: 0 <= k < i ==> Digest(messages[k].payload) == messageDigests[k]
      {
        var digest := MessageDigest(messages[i]);
        if digest != messageDigests[i] {
          CommonIs(DigestsOf(messages), messageDigests, i);
          return i;
        }
      }
      CommonIs(DigestsOf(messages), messageDigests, bound);
      return bound;
    }

    /** The first two parts of a sync: the log and the digests are cut down to what stays. */
    method KeepStable(messages: seq<Message>)
      requires Valid()
      modifies this, log
      ensures Valid()
      ensures var k := Kept(old(messageDigests), |old(log.entries)|, DigestsOf(messages));
        && k <= |messages| && k <= |old(log.entries)|
        && lastSyncCount == k && log.entries == old(log.entries)[..k] && messageDigests == DigestsOf(messages)[..k]
    {
      if |messages| < lastSyncCount {
        log.Clear();
        lastSyncCount, messageDigests := 0, [];
      }
      if lastSyncCount > 0 {
        var stable := LongestStablePrefix(messages);
        var stableCount := if stable < |log.entries| then stable else |log.entries|;
        if stableCount < lastSyncCount {
          log.Truncate(stableCount);
          lastSyncCount := stableCount;
          messageDigests := messageDigests[..stableCount];
        }
      }
    }

    /** The last part: what is past the kept entries is appended. */
    method AppendRest(messages: seq<Message>)
      requires Valid() && lastSyncCount <= |messages| && |log.entries| == lastSyncCount
      requires messageDigests == DigestsOf(messages)[..lastSyncCount]
      modifies this, log
      ensures Valid() && lastSyncCount == |messages| && messageDigests == DigestsOf(messages)
      ensures log.entries == old(log.entries) + messages[old(lastSyncCount)..]
    {
      ghost var digests := DigestsOf(messages);
      for i := lastSyncCount to |messages|
        invariant lastSyncCount == old(lastSyncCount) && MemoOk()
        invariant log.entries == old(log.entries) + messages[lastSyncCount..i]
        invariant messageDigests == digests[..i]
      {
        log.Append(messages[i]);
        var digest := MessageDigest(messages[i]);
        messageDigests := messageDigests + [digest];
        assert messages[lastSyncCount..i + 1] == messages[lastSyncCount..i] + [messages[i]];
        assert digests[..i + 1] == digests[..i] + [digest];
      }
      assert messages[lastSyncCount..|messages|] == messages[lastSyncCount..];
      assert digests[..|messages|] == digests;
      lastSyncCount := |messages|;
    }

    /**
     After a sync the log is as long as the list, and the recorded digests are those of the list. The
     entries up to the first divergence are the very objects that were there, all after it are the list's.
     */
    method SyncMessages(messages: seq<Message>, ghost known: set<Message>, ghost edited: set<Message>)
      requires Valid() && forall m :: m in messages ==> m in known
      modifies this, log
      ensures State(known, {}) == Apply(old(State(known, edited)), Sync(messages))
      ensures Valid() && lastSyncCount == |messages| && messageDigests == DigestsOf(messages)
      ensures var k := Kept(old(messageDigests), |old(log.entries)|, DigestsOf(messages));
        && k <= |messages| && k <= |old(log.entries)|
        && log.entries == old(log.entries)[..k] + messages[k..]
    {
      ghost var before := State(known, edited);
      KnownDigests(known, messages);
      KeepStable(messages);
      AppendRest(messages);
      assert State(known, {}).texts == before.texts;
    }

    method ResetSyncCursor(ghost known: set<Message>, ghost edited: set<Message>)
      requires Valid()
      modifies this, log
      ensures State(known, edited) == Apply(old(State(known, edited)), Reset)
      ensures Valid() && log.entries == [] && messageDigests == [] && digestMemo == old(digestMemo)
    {
      log.Clear();
      lastSyncCount, messageDigests := 0, [];
    }

    /** The log is public: it may be cleared without telling the manager. */
    method ClearLog(ghost known: set<Message>, ghost edited: set<Message>)
      requires Valid()
      modifies log
      ensures State(known, edited) == Apply(old(State(known, edited)), Event.ClearLog)
      ensures Valid() && log.entries == [] && messageDigests == old(messageDigests)
    {
      log.Clear();
    }

    /** An owner rewrites a message in place and bumps its version, as it must. */
    method Rewrite(m: Message, payload: Text, ghost known: set<Message>, ghost edited: set<Message>)
      requires Valid() && m in known
      modifies m
      ensures State(known, edited + {m}) == Apply(old(State(known, edited)), Edit(m, payload))
      ensures Valid() && m.payload == payload && m.version == old(m.version) + 1
    {
      m.payload := payload;
      m.version := m.version + 1;
    }
  }

  // ---------- whole runs ----------

  /** `texts` gives the present text of the messages, `edited` those rewritten since the last sync. */
  datatype Cache<M(==)> = Cache(texts: map<M, Text>, log: seq<M>, digests: seq<int>, edited: set<M>)

  function TextOf<M>(texts: map<M, Text>, m: M): Text {
    if m in texts then texts[m] else []
  }

  datatype Event<M> =
    | Edit(message: M, text: Text)
    | Sync(messages: seq<M>)
    | ClearLog
    | Reset

  function TextDigests<M>(texts: map<M, Text>, messages: seq<M>): (r: seq<int>)
    ensures |r| == |messages|
  {
    seq(|messages|, i requires 0 <= i < |messages| => Digest(TextOf(texts, messages[i])))
  }

  function KeptAt<M(==)>(c: Cache<M>, messages: seq<M>): nat {
    Kept(c.digests, |c.log|, TextDigests(c.texts, messages))
  }

  /** As the methods of the manager change it. */
  function Apply<M(==)>(c: Cache<M>, e: Event<M>): Cache<M> {
    match e
    case Edit(m, text) => c.(texts := c.texts[m := text], edited := c.edited + {m})
    case Sync(messages) =>
      var k := KeptAt(c, messages);
      c.(log := c.log[..k] + messages[k..], digests := TextDigests(c.texts, messages), edited := {})
    case ClearLog => c.(log := [])
    case Reset => c.(log := [], digests := [])
  }

  function After<M(==)>(c: Cache<M>, events: seq<Event<M>>): Cache<M>
    decreases |events|
  {
    if events == [] then c else After(Apply(c, events[0]), events[1..])
  }

  /** A logged message that was rewritten still stands where it stood. */
  predicate EditedStay<M(==)>(c: Cache<M>, messages: seq<M>) {
    forall i :: 0 <= i < |c.log| && i < |messages| && c.log[i] in c.edited ==> messages[i] == c.log[i]
  }

  predicate IsRun<M(==)>(c: Cache<M>, events: seq<Event<M>>)
    decreases |events|
  {
    events == [] ||
    ((events[0].Sync? ==> EditedStay(c, events[0].messages)) && IsRun(Apply(c, events[0]), events[1..]))
  }

  predicate Aligned<M(==)>(c: Cache<M>) {
    c.log == [] || |c.log| == |c.digests|
  }

  predicate CacheOk<M(==)>(c: Cache<M>) {
    Aligned(c) && forall i :: 0 <= i < |c.log| && c.log[i] !in c.edited ==> Digest(TextOf(c.texts, c.log[i])) == c.digests[i]
  }

  /** The log has an entry for each message of the list, with the same digest. */
  predicate Mirrors<M(==)>(c: Cache<M>, messages: seq<M>) {
    |c.log| == |messages| && TextDigests(c.texts, c.log) == TextDigests(c.texts, messages)
  }

  /** The entries a sync keeps were logged with the digests the list has there now. */
  lemma KeptDigests<M>(c: Cache<M>, messages: seq<M>)
    requires Aligned(c)
    ensures KeptAt(c, messages) <= |c.digests|
    ensures forall i :: 0 <= i < KeptAt(c, messages) ==> Digest(TextOf(c.texts, messages[i])) == c.digests[i]
  {
    var news := TextDigests(c.texts, messages);
    var n := Common(news, c.digests);
    assert forall i :: 0 <= i < n ==> news[i] == news[..n][i] && c.digests[i] == c.digests[..n][i];
  }

  /**
   Exactly when the log mirrors the list after a sync: when no entry it keeps has got another digest
   since it was recorded.
   */
  lemma MirrorsExactly<M>(c: Cache<M>, messages: seq<M>)
    requires Aligned(c)
    ensures KeptAt(c, messages) <= |c.log| && KeptAt(c, messages) <= |c.digests|
    ensures Mirrors(Apply(c, Sync(messages)), messages)
       <==> forall i :: 0 <= i < KeptAt(c, messages) ==> Digest(TextOf(c.texts, c.log[i])) == c.digests[i]
  {
    KeptDigests(c, messages);
    var d, k := Apply(c, Sync(messages)), KeptAt(c, messages);
    assert forall i :: 0 <= i < k ==> d.log[i] == c.log[i];
    assert forall i :: k <= i < |messages| ==> d.log[i] == messages[i];
    if Mirrors(d, messages) {
      forall i | 0 <= i < k ensures Digest(TextOf(c.texts, c.log[i])) == c.digests[i] {
        assert TextDigests(d.texts, d.log)[i] == TextDigests(d.texts, messages)[i];
      }
    }
  }

  lemma StepOk<M>(c: Cache<M>, e: Event<M>)
    requires CacheOk(c) && (e.Sync? ==> EditedStay(c, e.messages))
    ensures CacheOk(Apply(c, e))
    ensures e.Sync? ==> Mirrors(Apply(c, e), e.messages)
  {
    if e.Sync? {
      KeptDigests(c, e.messages);
      MirrorsExactly(c, e.messages);
      var d := Apply(c, e);
      assert Mirrors(d, e.messages);
      forall i | 0 <= i < |d.log| ensures Digest(TextOf(d.texts, d.log[i])) == d.digests[i] {
        assert TextDigests(d.texts, d.log)[i] == TextDigests(d.texts, e.messages)[i];
      }
    }
  }

  lemma {:induction false} RunOk<M>(c: Cache<M>, events: seq<Event<M>>)
    requires CacheOk(c) && IsRun(c, events)
    ensures CacheOk(After(c, events))
    decreases |events|
  {
    if events != [] {
      StepOk(c, events[0]);
      RunOk(Apply(c, events[0]), events[1..]);
    }
  }

  /** After any run of syncs, edits, clears and resets, the next sync makes the log mirror the list. */
  lemma LogMirrorsList<M>(texts: map<M, Text>, events: seq<Event<M>>, messages: seq<M>)
    requires IsRun(Cache(texts, [], [], {}), events)
    requires EditedStay(After(Cache(texts, [], [], {}), events), messages)
    ensures Mirrors(Apply(After(Cache(texts, [], [], {}), events), Sync(messages)), messages)
  {
    RunOk(Cache(texts, [], [], {}), events);
    StepOk(After(Cache(texts, [], [], {}), events), Sync(messages));
  }

  /** The log keeps every entry up to the first message whose digest has changed, unless the list shrank. */
  lemma PrefixRetained<M>(c: Cache<M>, messages: seq<M>, n: nat)
    requires |c.log| == |c.digests| <= |messages| && n <= |c.log|
    requires forall i :: 0 <= i < n ==> Digest(TextOf(c.texts, messages[i])) == c.digests[i]
    ensures n <= |Apply(c, Sync(messages)).log| && Apply(c, Sync(messages)).log[..n] == c.log[..n]
  {
    KeptDigests(c, messages);
    var news := TextDigests(c.texts, messages);
    assert forall i :: 0 <= i < n ==> news[i] == c.digests[i];
  }

  /** A message that is logged, replaced in the list by another of the same text and then rewritten goes stale. */
  lemma ReplacedThenEdited(texts: map<nat, Text>, text: Text)
    requires TextOf(texts, 0) == TextOf(texts, 1) && Digest(text) != Digest(TextOf(texts, 0))
    ensures var c := After(Cache(texts, [], [], {}), [Sync([0]), Sync([1]), Edit(0, text)]);
      !Mirrors(Apply(c, Sync([1])), [1])
  {
    var c0 := Cache(texts, [], [], {});
    var c1 := Apply(c0, Sync([0]));
    assert c1.log == [0];
    var c2 := Apply(c1, Sync([1]));
    assert c2.log == [0];
    var c3 := Apply(c2, Edit(0, text));
    var c4 := Apply(c3, Sync([1]));
    assert c4.log == [0];
    assert TextDigests(c4.texts, c4.log)[0] != TextDigests(c4.texts, [1])[0];
    var events := [Sync([0]), Sync([1]), Edit(0, text)];
    assert events[1..] == [Sync([1]), Edit(0, text)] && events[1..][1..] == [Edit(0, text)];
    assert After(c2, [Edit(0, text)]) == c3;
    assert After(c1, [Sync([1]), Edit(0, text)]) == c3;
  }
}
