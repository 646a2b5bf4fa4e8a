/**
 Following a path of object keys and array indices into a document that is still arriving.
 `FreshValue` scans from the root every time; `KeptValue` is the source's form, which resumes each
 container's member scan from a kept index.
 */
module IncomingSelect {
  import opened Units
  import opened JsonGrammar
  import opened JsonLexer
  import opened IncomingScan

  datatype Segment = Key(name: Text) | At(i: nat)

  /** Shape name implied by a value's first unit, for mismatch reports. */
  datatype Name = ObjectName | ArrayName | StringName | NumberName | BooleanName | NullName | ValueName

  function CharName(c: Unit): Name {
    if c == LBRACE then ObjectName
    else if c == LBRACKET then ArrayName
    else if c == QUOTE || c == SQUOTE then StringName
    else if IsNumberStart(c) then NumberName
    else if LowerBit(c) == LOWER_T || LowerBit(c) == LOWER_F then BooleanName
    else if LowerBit(c) == LOWER_N then NullName
    else ValueName
  }

  /** Where the path leads: `Found` is the text from the selected value on, and its nesting depth. */
  datatype Probe =
    | Waiting
    | Missing
    | Mismatch(expected: Name, found: Name)
    | Found(t: Text, depth: nat)

  function Expected(segment: Segment): Name {
    if segment.Key? then ObjectName else ArrayName
  }

  /** What the caller is shown: a selected value that has not scanned as started is no answer yet. */
  function Shown(p: Probe, ended: bool): Probe {
    if p.Found? && ScanValue(p.t, ended, p.depth).Pending? then Waiting else p
  }

  // ---------- from scratch ----------

  function FreshValue(t: Text, path: seq<Segment>, ended: bool, depth: nat): Probe
    decreases |t|, 1
  {
    if t == [] then Waiting
    else if path == [] then Found(t, depth)
    else if t[0] != (if path[0].Key? then LBRACE else LBRACKET) then Mismatch(Expected(path[0]), CharName(t[0]))
    else if depth >= MAX_DEPTH then Waiting
    else match path[0]
      case Key(name) => FreshKey(t[1..], name, path[1..], ended, depth)
      case At(i) => FreshElement(t[1..], 0, i, path[1..], ended, depth)
  }

  /** `selectKey` from a member start. */
  function FreshKey(t: Text, wanted: Text, path: seq<Segment>, ended: bool, depth: nat): Probe
    decreases |t|, 0
  {
    match ReadMember(t)
    case NoMember => Waiting
    case ClosingBrace(_) => Missing
    case StrayComma(rest) => FreshKey(rest, wanted, path, ended, depth)
    case Keyed(key, _, value) =>
      if value == [] then Waiting
      else if key == wanted then FreshValue(value, path, ended, depth + 1)
      else
        match SkipValue(value, ended, depth + 1, RBRACE)
        case Open => Waiting
        case Closed(_) => Missing
        case Next(rest) => FreshKey(rest, wanted, path, ended, depth)
  }

  /** `selectIndex` from the start of element number `element`. */
  function FreshElement(t: Text, element: nat, wanted: nat, path: seq<Segment>, ended: bool, depth: nat): Probe
    decreases |t|, 2
  {
    var t1 := SkipInsignificant(t);
    if t1 == [] then Waiting
    else if t1[0] == RBRACKET then Missing
    else if t1[0] == COMMA then FreshElement(t1[1..], element, wanted, path, ended, depth)
    else if element == wanted then FreshValue(t1, path, ended, depth + 1)
    else
      match SkipValue(t1, ended, depth + 1, RBRACKET)
      case Open => Waiting
      case Closed(_) => Missing
      case Next(rest) => FreshElement(rest, element + 1, wanted, path, ended, depth)
  }

  // ---------- with a kept index ----------

  /** A member reached by a selecting scan, with the index of its container value once descended into. */
  datatype Slot = Slot(offset: nat, child: Option<Index>)

  /**
   `ContainerIndex`: `frontier` is the offset after the opening delimiter or after the separator of the
   last member scanned whole; `keys` holds the first member of each key met, `elements` the elements
   scanned whole, `tail` the element after them.
   */
  datatype Index = Index(frontier: nat, keys: map<Text, Slot>, elements: seq<Slot>, tail: Option<Slot>) {
    function Advance(pos: nat): Index {
      if pos > frontier then this.(frontier := pos) else this
    }
  }

  function From(text: Text, pos: nat): Text {
    if pos <= |text| then text[pos..] else []
  }

  function Offset(text: Text, r: Text): nat {
    if |r| <= |text| then |text| - |r| else 0
  }

  function KeptValue(text: Text, pos: nat, path: seq<Segment>, ended: bool, depth: nat, slot: Slot): (Probe, Slot)
    decreases |path|, 0, 0
  {
    var t := From(text, pos);
    if t == [] then (Waiting, slot)
    else if path == [] then (Found(t, depth), slot)
    else if t[0] != (if path[0].Key? then LBRACE else LBRACKET) then (Mismatch(Expected(path[0]), CharName(t[0])), slot)
    else if depth >= MAX_DEPTH then (Waiting, slot)
    else
      var index := if slot.child.Some? then slot.child.value else Index(pos + 1, map[], [], None);
      match path[0]
      case Key(name) =>
        var start := if name in index.keys then index.keys[name].offset else index.frontier;
        var (probe, next) := KeptKey(text, start, name, path[1..], ended, depth, index);
        (probe, slot.(child := Some(next)))
      case At(i) =>
        var known := i < |index.elements|;
        var start := if known then index.elements[i].offset else index.frontier;
        var (probe, next) := KeptElement(text, start, if known then i else |index.elements|, i, path[1..], ended, depth, index);
        (probe, slot.(child := Some(next)))
  }

  /** `selectKey` from offset `pos`. */
  function KeptKey(text: Text, pos: nat, wanted: Text, path: seq<Segment>, ended: bool, depth: nat, index0: Index): (Probe, Index)
    decreases |path|, 1, |From(text, pos)|
  {
    var index := index0.Advance(pos);
    var t := From(text, pos);
    match ReadMember(t)
    case NoMember => (Waiting, index)
    case ClosingBrace(_) => (Missing, index)
    case StrayComma(rest) => KeptKey(text, Offset(text, rest), wanted, path, ended, depth, index)
    case Keyed(key, at, value) =>
      var slot := if key in index.keys then index.keys[key] else Slot(Offset(text, at), None);
      var known := index.(keys := index.keys[key := slot]);
      if value == [] then (Waiting, known)
      else if key == wanted then
        var (probe, next) := KeptValue(text, Offset(text, value), path, ended, depth + 1, slot);
        (probe, known.(keys := known.keys[key := next]))
      else
        match SkipValue(value, ended, depth + 1, RBRACE)
        case Open => (Waiting, known)
        case Closed(_) => (Missing, known)
        case Next(rest) => KeptKey(text, Offset(text, rest), wanted, path, ended, depth, known)
  }

  /** The slot of element number `element`, entered as the tail when it is new. */
  function ElementSlot(index: Index, element: nat, offset: nat): Slot {
    if element < |index.elements| then index.elements[element]
    else if index.tail.Some? then index.tail.value
    else Slot(offset, None)
  }

  function WithSlot(index: Index, element: nat, slot: Slot): Index {
    if element < |index.elements| then index.(elements := index.elements[element := slot])
    else index.(tail := Some(slot))
  }

  /** `selectIndex` from offset `pos`, taken to be the start of element number `element`. */
  function KeptElement(text: Text, pos: nat, element: nat, wanted: nat, path: seq<Segment>, ended: bool, depth: nat, index0: Index): (Probe, Index)
    decreases |path|, 1, |From(text, pos)|
  {
    var index := index0.Advance(pos);
    var t := SkipInsignificant(From(text, pos));
    if t == [] then (Waiting, index)
    else if t[0] == RBRACKET then (Missing, index)
    else if t[0] == COMMA then KeptElement(text, Offset(text, t[1..]), element, wanted, path, ended, depth, index)
    else
      var slot := ElementSlot(index, element, Offset(text, t));
      var entered := WithSlot(index, element, slot);
      if element == wanted then
        var (probe, next) := KeptValue(text, Offset(text, t), path, ended, depth + 1, slot);
        (probe, WithSlot(entered, element, next))
      else
        var s := ScanValue(t, ended, depth + 1);
        if !Done(s) then (Waiting, entered)
        else
          var pushed := if element == |entered.elements| then entered.(elements := entered.elements + [slot], tail := None) else entered;
          match TailOf(s, RBRACKET)
          case Open => (Waiting, pushed)
          case Closed(_) => (Missing, pushed)
          case Next(rest) => KeptElement(text, Offset(text, rest), element + 1, wanted, path, ended, depth, pushed)
  }

  // ---------- the document ----------

  /** A probe from scratch of the value at `path` (`#locate` with an empty index). */
  function Fresh(text: Text, path: seq<Segment>, ended: bool): Probe {
    FreshValue(SkipInsignificant(text), path, ended, 0)
  }

  /** `#locate` with the root slot kept between probes. */
  function Kept(text: Text, path: seq<Segment>, ended: bool, root: Slot): (Probe, Slot) {
    KeptValue(text, Offset(text, SkipInsignificant(text)), path, ended, 0, root)
  }
}
