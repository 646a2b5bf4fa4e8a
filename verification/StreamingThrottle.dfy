/** The gate that decides when a growing buffer is parsed again, and what all the parses cost together. */
module StreamingThrottle {
  import opened JsonGrammar

  const STREAMING_JSON_PARSE_MIN_GROWTH: nat := 256

  function Max(a: nat, b: nat): nat {
    if a < b then b else a
  }

  /** The growth that a buffer of this length must show. */
  function Growth(len: nat, floor: nat): nat {
    Max(floor, len / 32)
  }

  /** The length to remember when a buffer of length `len` is parsed now; none when it is not. */
  function Gate(len: nat, lastParsedLen: nat, floor: nat): Option<nat> {
    if len == 0 then None
    else if lastParsedLen > 0 && len - lastParsedLen < Growth(len, floor) then None
    else Some(len)
  }

  /** The lengths that are parsed while the buffer takes these lengths one after the other. */
  function Parsed(lens: seq<nat>, last: nat, floor: nat): seq<nat> {
    if lens == [] then []
    else
      var now := Gate(lens[0], last, floor);
      if now.None? then Parsed(lens[1..], last, floor) else [lens[0]] + Parsed(lens[1..], lens[0], floor)
  }

  /** The length remembered after them. */
  function LastParsed(lens: seq<nat>, last: nat, floor: nat): nat {
    if lens == [] then last
    else
      var now := Gate(lens[0], last, floor);
      LastParsed(lens[1..], if now.None? then last else lens[0], floor)
  }

  function Sum(s: seq<nat>): nat {
    if s == [] then 0 else s[0] + Sum(s[1..])
  }

  predicate Grows(lens: seq<nat>) {
    forall i, j :: 0 <= i < j < |lens| ==> lens[i] <= lens[j]
  }

  /** A parse is paid for by the growth since the last one. */
  lemma ParsePays(len: nat, last: nat, floor: nat)
    requires 31 <= floor && 0 < last <= len && Gate(len, last, floor).Some?
    ensures 33 * last + len <= 33 * len
  {
  }

  lemma {:induction false} TotalWork(lens: seq<nat>, last: nat, floor: nat)
    requires 31 <= floor && Grows(lens) && (lens != [] ==> last <= lens[0])
    ensures 33 * last + Sum(Parsed(lens, last, floor)) <= 33 * LastParsed(lens, last, floor)
    ensures last <= LastParsed(lens, last, floor)
    ensures lens != [] ==> LastParsed(lens, last, floor) <= lens[|lens| - 1]
    decreases |lens|
  {
    if lens != [] {
      var now := Gate(lens[0], last, floor);
      var next := if now.None? then last else lens[0];
      if |lens| > 1 {
        assert lens[1..][|lens| - 2] == lens[|lens| - 1];
      }
      TotalWork(lens[1..], next, floor);
      if now.Some? && last > 0 {
        ParsePays(lens[0], last, floor);
      }
    }
  }

  /** Linear work: all parses of a buffer that grows to N read at most 33 N units. */
  lemma LinearWork(lens: seq<nat>, n: nat)
    requires Grows(lens) && lens != [] && lens[|lens| - 1] == n
    ensures Sum(Parsed(lens, 0, STREAMING_JSON_PARSE_MIN_GROWTH)) <= 33 * n
  {
    TotalWork(lens, 0, STREAMING_JSON_PARSE_MIN_GROWTH);
  }

  /** The tail that is not parsed yet is always shorter than one step of growth, here below 256 or 1/32 of the buffer. */
  lemma {:induction false} TailIsShort(lens: seq<nat>, last: nat, floor: nat)
    requires floor > 0 && lens != []
    ensures lens[|lens| - 1] - LastParsed(lens, last, floor) < Growth(lens[|lens| - 1], floor)
    decreases |lens|
  {
    var now := Gate(lens[0], last, floor);
    var next := if now.None? then last else lens[0];
    if |lens| == 1 {
      assert LastParsed(lens[1..], next, floor) == next;
    } else {
      assert lens[1..][|lens| - 2] == lens[|lens| - 1];
      TailIsShort(lens[1..], next, floor);
    }
  }
}
