/**
 The path tree behind grouped file listings: it is built from a flat list of paths, and walked so that
 chains of single directories fold into one header. Reading the walk back gives every path once.
 */
module PathTree {
  import opened Units
  import opened JsonGrammar

  datatype File = File(name: Text, key: Text)
  datatype Dir = Dir(name: Text, node: Node)

  /** Files and subdirectories in the order in which they were first seen. */
  datatype Node = Node(files: seq<File>, subdirs: seq<Dir>)

  datatype Input = Input(path: Text, isDir: bool, key: Option<Text>)

  datatype Event =
    | Header(depth: nat, name: Text)
    | Listed(depth: nat, name: Text, key: Text)

  const EMPTY := Node([], [])

  // ---------- paths ----------

  function Slashes(t: Text): (r: Text)
    ensures |r| == |t|
  {
    seq(|t|, i requires 0 <= i < |t| => if t[i] == BACKSLASH then SLASH else t[i])
  }

  predicate IsLetter(u: Unit) {
    0x41 <= u <= 0x5a || 0x61 <= u <= 0x7a
  }

  /** What follows the first letter of a scheme, up to `://`. */
  predicate SchemeGoesOn(t: Text) {
    (|t| >= 3 && t[0] == COLON && t[1] == SLASH && t[2] == SLASH)
    || (t != [] && (IsLetter(t[0]) || IsDigit(t[0]) || t[0] == PLUS || t[0] == DOT || t[0] == MINUS) && SchemeGoesOn(t[1..]))
  }

  predicate IsUrlLike(t: Text) {
    t != [] && IsLetter(t[0]) && SchemeGoesOn(t[1..])
  }

  function Trim(t: Text): Text {
    if t != [] && t[|t| - 1] == SLASH then t[..|t| - 1] else t
  }

  /** The segments between slashes. */
  function Split(t: Text): (r: seq<Text>)
    ensures r != []
  {
    if t == [] then [[]]
    else
      var rest := Split(t[1..]);
      if t[0] == SLASH then [[]] + rest else [[t[0]] + rest[0]] + rest[1..]
  }

  function Join(parts: seq<Text>): Text {
    if parts == [] then []
    else if |parts| == 1 then parts[0]
    else parts[0] + [SLASH] + Join(parts[1..])
  }

  lemma JoinCons(a: Text, b: seq<Text>)
    ensures Join([a] + b) == if b == [] then a else a + [SLASH] + Join(b)
  {
    assert ([a] + b)[1..] == b;
  }

  lemma {:induction false} JoinSplit(t: Text)
    ensures Join(Split(t)) == t
  {
    if t != [] {
      var rest := Split(t[1..]);
      JoinSplit(t[1..]);
      assert t == [t[0]] + t[1..];
      hide Join;
      if t[0] == SLASH {
        JoinCons([], rest);
        assert [] + [SLASH] + t[1..] == [SLASH] + t[1..];
      } else {
        var head, more := rest[0], rest[1..];
        assert rest == [head] + more;
        JoinCons(head, more);
        JoinCons([t[0]] + head, more);
        assert ([t[0]] + head) + [SLASH] + Join(more) == [t[0]] + (head + [SLASH] + Join(more));
      }
    }
  }

  // ---------- the path of an entry ----------

  /** The path that an entry lists: itself when it is like a URL, otherwise without a last slash; none for a directory. */
  function Listing(e: Input): Option<Text> {
    var normalized := Slashes(e.path);
    if IsUrlLike(normalized) then Some(normalized)
    else if Trim(normalized) == [] || e.isDir then None
    else Some(Trim(normalized))
  }

  function KeyOf(e: Input): Text {
    if e.key.Some? then e.key.value else e.path
  }

  /** The key of the first entry that lists the path. */
  function FirstKey(entries: seq<Input>, path: Text): Option<Text> {
    if entries == [] then None
    else if Listing(entries[0]) == Some(path) then Some(KeyOf(entries[0]))
    else FirstKey(entries[1..], path)
  }

  /** Where a listed path stands in the tree. */
  function Place(path: Text): (r: seq<Text>)
    ensures r != []
  {
    if IsUrlLike(path) then [path] else Split(path)
  }

  lemma PlaceJoins(path: Text)
    ensures Join(Place(path)) == path
  {
    JoinSplit(path);
  }

  // ---------- building ----------

  function FileKey(files: seq<File>, name: Text): Option<Text> {
    if files == [] then None
    else if files[0].name == name then Some(files[0].key)
    else FileKey(files[1..], name)
  }

  function AddFile(node: Node, name: Text, key: Text): Node {
    if FileKey(node.files, name).Some? then node else node.(files := node.files + [File(name, key)])
  }

  /** Adds what `leaf` says at the end of the directories; None adds the directories alone. */
  function AddAt(node: Node, dirs: seq<Text>, leaf: Option<File>): Node
    decreases |dirs|, 1, 0
  {
    if dirs == [] then if leaf.Some? then AddFile(node, leaf.value.name, leaf.value.key) else node
    else node.(subdirs := AddIn(node.subdirs, dirs, leaf))
  }

  function AddIn(subdirs: seq<Dir>, dirs: seq<Text>, leaf: Option<File>): seq<Dir>
    requires dirs != []
    decreases |dirs|, 0, |subdirs|
  {
    if subdirs == [] then [Dir(dirs[0], AddAt(EMPTY, dirs[1..], leaf))]
    else if subdirs[0].name == dirs[0] then [Dir(dirs[0], AddAt(subdirs[0].node, dirs[1..], leaf))] + subdirs[1..]
    else [subdirs[0]] + AddIn(subdirs[1..], dirs, leaf)
  }

  function AddEntry(root: Node, e: Input): Node {
    var normalized := Slashes(e.path);
    if IsUrlLike(normalized) then AddFile(root, normalized, KeyOf(e))
    else
      var trimmed := Trim(normalized);
      if trimmed == [] then root
      else
        var segments := Split(trimmed);
        var n := |segments| - 1;
        if e.isDir then AddAt(root, segments, None)
        else AddAt(root, segments[..n], Some(File(segments[n], KeyOf(e))))
  }

  function Build(root: Node, entries: seq<Input>): Node
    decreases |entries|
  {
    if entries == [] then root else Build(AddEntry(root, entries[0]), entries[1..])
  }

  // ---------- walking ----------

  function Size(node: Node): nat {
    1 + SizeOf(node.subdirs)
  }

  function SizeOf(subdirs: seq<Dir>): nat {
    if subdirs == [] then 0 else 1 + Size(subdirs[0].node) + SizeOf(subdirs[1..])
  }

  /** A directory with the chain of only children below it: their names, and the last one's node. */
  function Fold(name: Text, node: Node): (r: (seq<Text>, Node))
    ensures r.0 != [] && Size(r.1) <= Size(node)
    decreases Size(node)
  {
    if node.files == [] && |node.subdirs| == 1 then
      assert SizeOf(node.subdirs) == 1 + Size(node.subdirs[0].node) + SizeOf(node.subdirs[1..]);
      var below := Fold(node.subdirs[0].name, node.subdirs[0].node);
      ([name] + below.0, below.1)
    else ([name], node)
  }

  function ListFiles(files: seq<File>, depth: nat): seq<Event> {
    if files == [] then [] else [Listed(depth, files[0].name, files[0].key)] + ListFiles(files[1..], depth)
  }

  function Walk(node: Node, depth: nat): seq<Event>
    decreases Size(node), 0
  {
    ListFiles(node.files, depth) + WalkDirs(node.subdirs, depth)
  }

  function WalkDirs(subdirs: seq<Dir>, depth: nat): seq<Event>
    decreases SizeOf(subdirs), 1
  {
    if subdirs == [] then []
    else
      var (parts, node) := Fold(subdirs[0].name, subdirs[0].node);
      [Header(depth, Join(parts))] + Walk(node, depth + 1) + WalkDirs(subdirs[1..], depth)
  }

  // ---------- reading the walk back ----------

  /** The headers in force after an event; a header replaces all that are as deep. */
  function Under(headers: seq<Text>, e: Event): seq<Text> {
    if e.Header? then (if e.depth <= |headers| then headers[..e.depth] else headers) + [e.name] else headers
  }

  datatype Found = Found(path: Text, key: Text)

  /** Each file joined with the headers above it. */
  function Read(events: seq<Event>, headers: seq<Text>): seq<Found>
    decreases |events|
  {
    if events == [] then []
    else
      var e := events[0];
      (if e.Listed? && e.depth <= |headers| then [Found(Join(headers[..e.depth] + [e.name]), e.key)] else [])
      + Read(events[1..], Under(headers, e))
  }

  function HeadersAfter(events: seq<Event>, headers: seq<Text>): seq<Text>
    decreases |events|
  {
    if events == [] then headers else HeadersAfter(events[1..], Under(headers, events[0]))
  }

  lemma {:induction false} ReadAppend(a: seq<Event>, b: seq<Event>, headers: seq<Text>)
    ensures Read(a + b, headers) == Read(a, headers) + Read(b, HeadersAfter(a, headers))
    ensures HeadersAfter(a + b, headers) == HeadersAfter(b, HeadersAfter(a, headers))
    decreases |a|
  {
    if a == [] {
      assert a + b == b;
    } else {
      assert (a + b)[1..] == a[1..] + b;
      ReadAppend(a[1..], b, Under(headers, a[0]));
    }
  }

  // ---------- the files of a tree ----------

  datatype Leaf = Leaf(place: seq<Text>, key: Text)

  function FileLeaves(files: seq<File>): seq<Leaf> {
    if files == [] then [] else [Leaf([files[0].name], files[0].key)] + FileLeaves(files[1..])
  }

  function Below(name: Text, leaves: seq<Leaf>): seq<Leaf> {
    if leaves == [] then [] else [Leaf([name] + leaves[0].place, leaves[0].key)] + Below(name, leaves[1..])
  }

  function Leaves(node: Node): seq<Leaf>
    decreases Size(node), 0
  {
    FileLeaves(node.files) + DirLeaves(node.subdirs)
  }

  function DirLeaves(subdirs: seq<Dir>): seq<Leaf>
    decreases SizeOf(subdirs), 1
  {
    if subdirs == [] then []
    else Below(subdirs[0].name, Leaves(subdirs[0].node)) + DirLeaves(subdirs[1..])
  }

  /** The leaves as paths under headers. */
  function Joined(headers: seq<Text>, leaves: seq<Leaf>): seq<Found> {
    if leaves == [] then []
    else [Found(Join(headers + leaves[0].place), leaves[0].key)] + Joined(headers, leaves[1..])
  }

  lemma {:induction false} JoinedAppend(headers: seq<Text>, a: seq<Leaf>, b: seq<Leaf>)
    ensures Joined(headers, a + b) == Joined(headers, a) + Joined(headers, b)
  {
    if a == [] {
      assert a + b == b;
    } else {
      assert (a + b)[1..] == a[1..] + b;
      JoinedAppend(headers, a[1..], b);
    }
  }

  lemma {:induction false} JoinedBelow(headers: seq<Text>, name: Text, leaves: seq<Leaf>)
    ensures Joined(headers, Below(name, leaves)) == Joined(headers + [name], leaves)
  {
    if leaves != [] {
      JoinedBelow(headers, name, leaves[1..]);
      assert headers + ([name] + leaves[0].place) == (headers + [name]) + leaves[0].place;
    }
  }

  // ---------- folding does not show ----------

  lemma {:induction false} JoinTail(a: seq<Text>, b: seq<Text>, c: seq<Text>)
    requires Join(b) == Join(c) && b != [] && c != []
    ensures Join(a + b) == Join(a + c)
  {
    if a == [] {
      assert a + b == b && a + c == c;
    } else {
      assert (a + b)[1..] == a[1..] + b && (a + c)[1..] == a[1..] + c;
      JoinTail(a[1..], b, c);
    }
  }

  lemma {:induction false} JoinNested(parts: seq<Text>, more: seq<Text>)
    requires parts != []
    ensures Join([Join(parts)] + more) == Join(parts + more)
    decreases |parts|
  {
    if |parts| == 1 {
      assert [Join(parts)] == parts;
    } else {
      var a, rest := parts[0], parts[1..];
      assert parts == [a] + rest;
      assert parts + more == [a] + (rest + more);
      JoinNested(rest, more);
      JoinCons(a, rest);
      JoinCons(a, rest + more);
      JoinCons(Join(parts), more);
      JoinCons(Join(rest), more);
      if more != [] {
        assert (a + [SLASH] + Join(rest)) + [SLASH] + Join(more) == a + [SLASH] + (Join(rest) + [SLASH] + Join(more));
      }
    }
  }

  /** A folded header joins like the headers it stands for. */
  lemma {:induction false} JoinedFolded(headers: seq<Text>, parts: seq<Text>, leaves: seq<Leaf>)
    requires parts != []
    ensures Joined(headers + [Join(parts)], leaves) == Joined(headers + parts, leaves)
    decreases |leaves|
  {
    if leaves != [] {
      var place := leaves[0].place;
      JoinedFolded(headers, parts, leaves[1..]);
      JoinNested(parts, place);
      JoinTail(headers, [Join(parts)] + place, parts + place);
      assert (headers + [Join(parts)]) + place == headers + ([Join(parts)] + place);
      assert (headers + parts) + place == headers + (parts + place);
    }
  }

  /** The leaves below a directory are those below the end of its chain. */
  lemma {:induction false} FoldKeepsLeaves(headers: seq<Text>, name: Text, node: Node)
    ensures var (parts, last) := Fold(name, node);
      Joined(headers + parts, Leaves(last)) == Joined(headers + [name], Leaves(node))
    decreases Size(node)
  {
    if node.files == [] && |node.subdirs| == 1 {
      var only := node.subdirs[0];
      OnlyChild(node);
      var below := Fold(only.name, only.node);
      FoldKeepsLeaves(headers + [name], only.name, only.node);
      JoinedBelow(headers + [name], only.name, Leaves(only.node));
      assert (headers + [name]) + below.0 == headers + ([name] + below.0);
    }
  }

  lemma OnlyChild(node: Node)
    requires node.files == [] && |node.subdirs| == 1
    ensures Size(node.subdirs[0].node) < Size(node)
    ensures Leaves(node) == Below(node.subdirs[0].name, Leaves(node.subdirs[0].node))
  {
    assert node.subdirs[1..] == [];
    assert DirLeaves([]) == [];
    assert Leaves(node) == FileLeaves([]) + DirLeaves(node.subdirs);
    assert Below(node.subdirs[0].name, Leaves(node.subdirs[0].node)) + [] == Below(node.subdirs[0].name, Leaves(node.subdirs[0].node));
  }

  // ---------- the walk reads back as the leaves ----------

  /** Reading the events, with these headers, gives these files and leaves the outer headers in force. */
  predicate ReadsAs(events: seq<Event>, headers: seq<Text>, depth: nat, found: seq<Found>)
    requires depth <= |headers|
  {
    && Read(events, headers) == found
    && depth <= |HeadersAfter(events, headers)| && HeadersAfter(events, headers)[..depth] == headers[..depth]
  }

  lemma {:induction false} FilesRead(files: seq<File>, headers: seq<Text>, depth: nat)
    requires depth <= |headers|
    ensures ReadsAs(ListFiles(files, depth), headers, depth, Joined(headers[..depth], FileLeaves(files)))
    decreases |files|
  {
    if files != [] {
      FilesRead(files[1..], headers, depth);
    }
  }

  lemma ReadBoth(a: seq<Event>, b: seq<Event>, headers: seq<Text>, depth: nat, f: seq<Found>, g: seq<Found>)
    requires depth <= |headers| && ReadsAs(a, headers, depth, f)
    requires ReadsAs(b, HeadersAfter(a, headers), depth, g)
    ensures ReadsAs(a + b, headers, depth, f + g)
  {
    ReadAppend(a, b, headers);
  }

  lemma {:induction false} WalkReads(node: Node, headers: seq<Text>, depth: nat)
    requires depth <= |headers|
    ensures ReadsAs(Walk(node, depth), headers, depth, Joined(headers[..depth], Leaves(node)))
    decreases Size(node), 0
  {
    var outer := headers[..depth];
    FilesRead(node.files, headers, depth);
    var after := HeadersAfter(ListFiles(node.files, depth), headers);
    WalkDirsRead(node.subdirs, after, depth);
    JoinedAppend(outer, FileLeaves(node.files), DirLeaves(node.subdirs));
    hide Read, HeadersAfter, Joined;
    ReadBoth(ListFiles(node.files, depth), WalkDirs(node.subdirs, depth), headers, depth,
      Joined(outer, FileLeaves(node.files)), Joined(outer, DirLeaves(node.subdirs)));
  }

  /** A header and what is below it. */
  lemma HeaderReads(events: seq<Event>, name: Text, headers: seq<Text>, depth: nat, found: seq<Found>)
    requires depth <= |headers| && ReadsAs(events, headers[..depth] + [name], depth + 1, found)
    ensures ReadsAs([Header(depth, name)] + events, headers, depth, found)
  {
    var all := [Header(depth, name)] + events;
    assert all[1..] == events;
    assert Under(headers, all[0]) == headers[..depth] + [name];
    var after := HeadersAfter(events, headers[..depth] + [name]);
    assert after[..depth] == after[..depth + 1][..depth];
    assert (headers[..depth] + [name])[..depth + 1][..depth] == headers[..depth];
    assert [] + Read(events, headers[..depth] + [name]) == Read(events, headers[..depth] + [name]);
  }

  lemma {:induction false} WalkDirsRead(subdirs: seq<Dir>, headers: seq<Text>, depth: nat)
    requires depth <= |headers|
    ensures ReadsAs(WalkDirs(subdirs, depth), headers, depth, Joined(headers[..depth], DirLeaves(subdirs)))
    decreases SizeOf(subdirs), 1
  {
    if subdirs != [] {
      var outer, dir := headers[..depth], subdirs[0];
      var (parts, node) := Fold(dir.name, dir.node);
      var inner := outer + [Join(parts)];
      WalkReads(node, inner, depth + 1);
      assert inner[..depth + 1] == inner;
      HeaderReads(Walk(node, depth + 1), Join(parts), headers, depth, Joined(inner, Leaves(node)));
      JoinedFolded(outer, parts, Leaves(node));
      FoldKeepsLeaves(outer, dir.name, dir.node);
      JoinedBelow(outer, dir.name, Leaves(dir.node));
      var first := [Header(depth, Join(parts))] + Walk(node, depth + 1);
      WalkDirsRead(subdirs[1..], HeadersAfter(first, headers), depth);
      JoinedAppend(outer, Below(dir.name, Leaves(dir.node)), DirLeaves(subdirs[1..]));
      hide Read, HeadersAfter, Joined, Fold, Join;
      ReadBoth(first, WalkDirs(subdirs[1..], depth), headers, depth,
        Joined(outer, Below(dir.name, Leaves(dir.node))), Joined(outer, DirLeaves(subdirs[1..])));
    }
  }

  /** However chains were folded, reading the walk gives the joined leaves of the tree. */
  lemma FoldingRoundTrips(node: Node)
    ensures Read(Walk(node, 0), []) == Joined([], Leaves(node))
  {
    var none: seq<Text> := [];
    WalkReads(node, none, 0);
    assert none[..0] == none;
  }

  // ---------- what a tree holds ----------

  predicate HasDir(subdirs: seq<Dir>, name: Text) {
    exists k :: 0 <= k < |subdirs| && subdirs[k].name == name
  }

  /** No name twice among the files of a node or among its directories. */
  predicate NodeOk(node: Node)
    decreases Size(node), 0
  {
    (forall j, k :: 0 <= j < k < |node.files| ==> node.files[j].name != node.files[k].name) && DirsOk(node.subdirs)
  }

  predicate DirsOk(subdirs: seq<Dir>)
    decreases SizeOf(subdirs), 1
  {
    subdirs == [] || (NodeOk(subdirs[0].node) && !HasDir(subdirs[1..], subdirs[0].name) && DirsOk(subdirs[1..]))
  }

  /** The key of the file at a place of the tree. */
  function Lookup(node: Node, place: seq<Text>): Option<Text>
    decreases |place|, 1, 0
  {
    if place == [] then None
    else if |place| == 1 then FileKey(node.files, place[0])
    else LookupIn(node.subdirs, place)
  }

  function LookupIn(subdirs: seq<Dir>, place: seq<Text>): Option<Text>
    requires |place| > 1
    decreases |place|, 0, |subdirs|
  {
    if subdirs == [] then None
    else if subdirs[0].name == place[0] then Lookup(subdirs[0].node, place[1..])
    else LookupIn(subdirs[1..], place)
  }

  // ---------- adding an entry ----------

  lemma {:induction false} FileKeyAppend(files: seq<File>, f: File, name: Text)
    ensures FileKey(files + [f], name)
         == if FileKey(files, name).Some? then FileKey(files, name) else if f.name == name then Some(f.key) else None
  {
    if files == [] {
      assert files + [f] == [f];
      assert [f][1..] == [];
    } else {
      assert (files + [f])[1..] == files[1..] + [f];
      FileKeyAppend(files[1..], f, name);
    }
  }

  lemma {:induction false} FileKeyIff(files: seq<File>, name: Text)
    ensures FileKey(files, name).Some? <==> exists k :: 0 <= k < |files| && files[k].name == name
  {
    if files != [] {
      FileKeyIff(files[1..], name);
      if FileKey(files[1..], name).Some? {
        var k :| 0 <= k < |files[1..]| && files[1..][k].name == name;
        assert files[k + 1].name == name;
      }
      if k :| 0 <= k < |files| && files[k].name == name {
        if k > 0 {
          assert files[1..][k - 1].name == name;
        }
      }
    }
  }

  /** What a place holds after a leaf was added at another, or the same. */
  function Added(was: Option<Text>, place: seq<Text>, dirs: seq<Text>, leaf: Option<File>): Option<Text> {
    if was.Some? then was
    else if leaf.Some? && place == dirs + [leaf.value.name] then Some(leaf.value.key)
    else None
  }

  lemma {:induction false} AddAtAdds(node: Node, dirs: seq<Text>, leaf: Option<File>, place: seq<Text>)
    ensures Lookup(AddAt(node, dirs, leaf), place) == Added(Lookup(node, place), place, dirs, leaf)
    decreases |dirs|, 1, 0
  {
    if dirs == [] {
      if leaf.Some? {
        assert dirs + [leaf.value.name] == [leaf.value.name];
        if |place| == 1 {
          assert place == [place[0]];
          FileKeyAppend(node.files, File(leaf.value.name, leaf.value.key), place[0]);
        }
      }
    } else if |place| > 1 {
      AddInAdds(node.subdirs, dirs, leaf, place);
    }
  }

  lemma {:induction false} AddInAdds(subdirs: seq<Dir>, dirs: seq<Text>, leaf: Option<File>, place: seq<Text>)
    requires dirs != [] && |place| > 1
    ensures LookupIn(AddIn(subdirs, dirs, leaf), place) == Added(LookupIn(subdirs, place), place, dirs, leaf)
    decreases |dirs|, 0, |subdirs|
  {
    if leaf.Some? {
      var target := dirs + [leaf.value.name];
      assert target[1..] == dirs[1..] + [leaf.value.name];
      assert place == [place[0]] + place[1..] && target == [dirs[0]] + target[1..];
    }
    var all := AddIn(subdirs, dirs, leaf);
    if subdirs == [] {
      AddAtAdds(EMPTY, dirs[1..], leaf, place[1..]);
      assert all[1..] == [];
      EmptyHolds(place[1..]);
    } else if subdirs[0].name == dirs[0] {
      assert all[1..] == subdirs[1..];
      AddAtAdds(subdirs[0].node, dirs[1..], leaf, place[1..]);
    } else {
      assert all[1..] == AddIn(subdirs[1..], dirs, leaf);
      AddInAdds(subdirs[1..], dirs, leaf, place);
    }
  }

  lemma EmptyHolds(place: seq<Text>)
    ensures Lookup(EMPTY, place) == None
  {
  }

  lemma {:induction false} AddAtOk(node: Node, dirs: seq<Text>, leaf: Option<File>)
    requires NodeOk(node)
    ensures NodeOk(AddAt(node, dirs, leaf))
    decreases |dirs|, 1, 0
  {
    if dirs == [] {
      if leaf.Some? {
        FileKeyIff(node.files, leaf.value.name);
      }
    } else {
      AddInOk(node.subdirs, dirs, leaf);
    }
  }

  lemma {:induction false} AddInOk(subdirs: seq<Dir>, dirs: seq<Text>, leaf: Option<File>)
    requires DirsOk(subdirs) && dirs != []
    ensures DirsOk(AddIn(subdirs, dirs, leaf))
    ensures forall name :: HasDir(AddIn(subdirs, dirs, leaf), name) ==> HasDir(subdirs, name) || name == dirs[0]
    decreases |dirs|, 0, |subdirs|
  {
    var all := AddIn(subdirs, dirs, leaf);
    if subdirs == [] {
      AddAtOk(EMPTY, dirs[1..], leaf);
      assert all[1..] == [];
      OneDirOk(all);
    } else if subdirs[0].name == dirs[0] {
      assert all[1..] == subdirs[1..];
      AddAtOk(subdirs[0].node, dirs[1..], leaf);
      forall name | HasDir(all, name) ensures HasDir(subdirs, name) || name == dirs[0] {
        var k :| 0 <= k < |all| && all[k].name == name;
        assert subdirs[k].name == name;
      }
    } else {
      assert all[1..] == AddIn(subdirs[1..], dirs, leaf);
      AddInOk(subdirs[1..], dirs, leaf);
      assert !HasDir(all[1..], subdirs[0].name);
      forall name | HasDir(all, name) ensures HasDir(subdirs, name) || name == dirs[0] {
        var k :| 0 <= k < |all| && all[k].name == name;
        if k == 0 {
          assert subdirs[0].name == name;
        } else {
          assert all[1..][k - 1].name == name;
          if HasDir(subdirs[1..], name) {
            var j :| 0 <= j < |subdirs[1..]| && subdirs[1..][j].name == name;
            assert subdirs[j + 1].name == name;
          }
        }
      }
    }
  }

  lemma OneDirOk(all: seq<Dir>)
    requires |all| == 1 && NodeOk(all[0].node)
    ensures DirsOk(all) && forall name :: HasDir(all, name) ==> name == all[0].name
  {
    assert all[1..] == [];
  }

  // ---------- the leaves are what the tree holds, once each ----------

  predicate Once(leaves: seq<Leaf>) {
    forall j, k :: 0 <= j < k < |leaves| ==> leaves[j].place != leaves[k].place
  }

  lemma {:induction false} FileLeavesHold(files: seq<File>, place: seq<Text>)
    requires forall j, k :: 0 <= j < k < |files| ==> files[j].name != files[k].name
    ensures Once(FileLeaves(files)) && |FileLeaves(files)| == |files|
    ensures forall k :: 0 <= k < |files| ==> FileLeaves(files)[k] == Leaf([files[k].name], files[k].key)
    ensures forall k :: Leaf(place, k) in FileLeaves(files) <==> |place| == 1 && FileKey(files, place[0]) == Some(k)
    decreases |files|
  {
    if files != [] {
      FileLeavesHold(files[1..], place);
      var all := FileLeaves(files);
      forall j, k | 0 <= j < k < |all| ensures all[j].place != all[k].place {
        assert all[j].place[0] == files[j].name && all[k].place[0] == files[k].name;
      }
      if |place| == 1 {
        assert place == [place[0]];
        FileKeyIff(files[1..], place[0]);
      }
    }
  }

  lemma {:induction false} BelowHolds(name: Text, leaves: seq<Leaf>, place: seq<Text>)
    ensures |Below(name, leaves)| == |leaves|
    ensures forall k :: 0 <= k < |leaves| ==> Below(name, leaves)[k] == Leaf([name] + leaves[k].place, leaves[k].key)
    ensures forall k ::
      Leaf(place, k) in Below(name, leaves) <==> place != [] && place[0] == name && Leaf(place[1..], k) in leaves
    decreases |leaves|
  {
    if leaves != [] {
      BelowHolds(name, leaves[1..], place);
      var first := leaves[0].place;
      assert ([name] + first)[1..] == first;
      assert place != [] && place[0] == name && place[1..] == first ==> place == [name] + first;
      assert forall k :: Leaf(place, k) in leaves <==> Leaf(place, k) == leaves[0] || Leaf(place, k) in leaves[1..];
    }
  }

  lemma BelowOnce(name: Text, leaves: seq<Leaf>)
    requires Once(leaves)
    ensures Once(Below(name, leaves))
  {
    BelowHolds(name, leaves, []);
    var all := Below(name, leaves);
    forall j, k | 0 <= j < k < |all| ensures all[j].place != all[k].place {
      assert all[j].place[1..] == leaves[j].place && all[k].place[1..] == leaves[k].place;
    }
  }

  lemma {:induction false} DirLeavesPlaces(subdirs: seq<Dir>, l: Leaf)
    requires l in DirLeaves(subdirs)
    ensures l.place != [] && HasDir(subdirs, l.place[0])
    decreases |subdirs|
  {
    var here := Below(subdirs[0].name, Leaves(subdirs[0].node));
    BelowHolds(subdirs[0].name, Leaves(subdirs[0].node), l.place);
    if l in here {
      assert l == Leaf(l.place, l.key);
      assert subdirs[0].name == l.place[0];
    } else {
      DirLeavesPlaces(subdirs[1..], l);
      var k :| 0 <= k < |subdirs[1..]| && subdirs[1..][k].name == l.place[0];
      assert subdirs[k + 1].name == l.place[0];
    }
  }

  lemma {:induction false} LeavesOnce(node: Node)
    requires NodeOk(node)
    ensures Once(Leaves(node)) && forall k :: 0 <= k < |Leaves(node)| ==> Leaves(node)[k].place != []
    decreases Size(node), 0
  {
    DirLeavesOnce(node.subdirs);
    FileLeavesHold(node.files, []);
    var a, b := FileLeaves(node.files), DirLeaves(node.subdirs);
    forall j, k | 0 <= j < |a| && 0 <= k < |b| ensures a[j].place != b[k].place {
      assert |a[j].place| == 1;
    }
    OnceBoth(a, b);
  }

  lemma OnceBoth(a: seq<Leaf>, b: seq<Leaf>)
    requires Once(a) && Once(b) && forall j, k :: 0 <= j < |a| && 0 <= k < |b| ==> a[j].place != b[k].place
    ensures Once(a + b)
  {
  }

  lemma {:induction false} DirLeavesOnce(subdirs: seq<Dir>)
    requires DirsOk(subdirs)
    ensures Once(DirLeaves(subdirs)) && forall k :: 0 <= k < |DirLeaves(subdirs)| ==> |DirLeaves(subdirs)[k].place| >= 2
    decreases SizeOf(subdirs), 1
  {
    if subdirs != [] {
      var dir := subdirs[0];
      LeavesOnce(dir.node);
      DirLeavesOnce(subdirs[1..]);
      var a, b := Below(dir.name, Leaves(dir.node)), DirLeaves(subdirs[1..]);
      BelowHolds(dir.name, Leaves(dir.node), []);
      BelowOnce(dir.name, Leaves(dir.node));
      forall j, k | 0 <= j < |a| && 0 <= k < |b| ensures a[j].place != b[k].place {
        assert a[j].place[0] == dir.name;
        DirLeavesPlaces(subdirs[1..], b[k]);
      }
      OnceBoth(a, b);
    }
  }

  /** A node's leaves are the files it holds. */
  lemma {:induction false} LeavesAreHeld(node: Node, place: seq<Text>)
    requires NodeOk(node)
    ensures forall k :: Leaf(place, k) in Leaves(node) <==> Lookup(node, place) == Some(k)
    decreases |place|, 1, 0
  {
    FileLeavesHold(node.files, place);
    if |place| > 1 {
      DirLeavesAreHeld(node.subdirs, place);
    } else {
      forall l | l in DirLeaves(node.subdirs) ensures l.place != place {
        DirLeavesOnce(node.subdirs);
      }
    }
  }

  lemma {:induction false} DirLeavesAreHeld(subdirs: seq<Dir>, place: seq<Text>)
    requires DirsOk(subdirs) && |place| > 1
    ensures forall k :: Leaf(place, k) in DirLeaves(subdirs) <==> LookupIn(subdirs, place) == Some(k)
    decreases |place|, 0, |subdirs|
  {
    if subdirs != [] {
      var dir := subdirs[0];
      BelowHolds(dir.name, Leaves(dir.node), place);
      LeavesAreHeld(dir.node, place[1..]);
      DirLeavesAreHeld(subdirs[1..], place);
      if dir.name == place[0] {
        forall k ensures Leaf(place, k) !in DirLeaves(subdirs[1..]) {
          if Leaf(place, k) in DirLeaves(subdirs[1..]) {
            DirLeavesPlaces(subdirs[1..], Leaf(place, k));
          }
        }
      }
    }
  }

  // ---------- what a built tree holds ----------

  lemma {:induction false} SchemePrefix(t: Text, more: Text)
    requires SchemeGoesOn(t)
    ensures SchemeGoesOn(t + more)
    decreases |t|
  {
    var all := t + more;
    assert forall k :: 0 <= k < |t| ==> all[k] == t[k];
    if !(|t| >= 3 && t[0] == COLON && t[1] == SLASH && t[2] == SLASH) {
      SchemePrefix(t[1..], more);
      assert all[1..] == t[1..] + more;
    }
  }

  lemma TrimmedUrl(t: Text)
    ensures IsUrlLike(Trim(t)) ==> IsUrlLike(t)
  {
    var s := Trim(t);
    if t != s {
      assert t == s + [SLASH];
      if IsUrlLike(s) {
        SchemePrefix(s[1..], [SLASH]);
        assert t[1..] == s[1..] + [SLASH];
      }
    }
  }

  /** An entry adds the place of the path it lists, unless that is there, and nothing else. */
  lemma AddEntryAdds(root: Node, e: Input, path: Text)
    requires NodeOk(root)
    ensures NodeOk(AddEntry(root, e))
    ensures Lookup(AddEntry(root, e), Place(path))
         == if Lookup(root, Place(path)).Some? then Lookup(root, Place(path))
            else if Listing(e) == Some(path) then Some(KeyOf(e)) else None
  {
    var normalized := Slashes(e.path);
    PlaceJoins(path);
    if IsUrlLike(normalized) {
      AddAtAdds(root, [], Some(File(normalized, KeyOf(e))), Place(path));
      AddAtOk(root, [], Some(File(normalized, KeyOf(e))));
      SamePlace(normalized, path);
      assert [] + [normalized] == Place(normalized);
    } else if Trim(normalized) != [] {
      var trimmed := Trim(normalized);
      var segments := Split(trimmed);
      var n := |segments| - 1;
      if e.isDir {
        AddAtAdds(root, segments, None, Place(path));
        AddAtOk(root, segments, None);
      } else {
        TrimmedUrl(normalized);
        AddAtAdds(root, segments[..n], Some(File(segments[n], KeyOf(e))), Place(path));
        AddAtOk(root, segments[..n], Some(File(segments[n], KeyOf(e))));
        SamePlace(trimmed, path);
        assert segments[..n] + [segments[n]] == segments;
      }
    }
  }

  /** A path is told by its place. */
  lemma SamePlace(a: Text, b: Text)
    ensures Place(a) == Place(b) <==> a == b
  {
    PlaceJoins(a);
    PlaceJoins(b);
  }

  /** Every place a tree was given, apart from those before, is that of a path one of the entries lists. */
  lemma {:induction false} BuildHolds(root: Node, entries: seq<Input>, path: Text)
    requires NodeOk(root)
    ensures NodeOk(Build(root, entries))
    ensures Lookup(Build(root, entries), Place(path))
         == if Lookup(root, Place(path)).Some? then Lookup(root, Place(path)) else FirstKey(entries, path)
    decreases |entries|
  {
    if entries != [] {
      AddEntryAdds(root, entries[0], path);
      BuildHolds(AddEntry(root, entries[0]), entries[1..], path);
    }
  }

  /** Only places of paths are ever filled. */
  predicate IsPlace(place: seq<Text>) {
    place != [] && Place(Join(place)) == place
  }

  ghost predicate OnlyPlaces(node: Node) {
    forall place :: Lookup(node, place).Some? ==> IsPlace(place)
  }

  lemma {:induction false} AddEntryPlaces(root: Node, e: Input, place: seq<Text>)
    requires Lookup(AddEntry(root, e), place).Some? && Lookup(root, place).None?
    ensures IsPlace(place)
  {
    var normalized := Slashes(e.path);
    if IsUrlLike(normalized) {
      AddAtAdds(root, [], Some(File(normalized, KeyOf(e))), place);
      assert [] + [normalized] == Place(normalized);
      PlaceJoins(normalized);
    } else if Trim(normalized) != [] {
      var trimmed := Trim(normalized);
      var segments := Split(trimmed);
      var n := |segments| - 1;
      if e.isDir {
        AddAtAdds(root, segments, None, place);
      } else {
        TrimmedUrl(normalized);
        AddAtAdds(root, segments[..n], Some(File(segments[n], KeyOf(e))), place);
        assert segments[..n] + [segments[n]] == segments;
        PlaceJoins(trimmed);
      }
    }
  }

  lemma {:induction false} BuildPlaces(root: Node, entries: seq<Input>)
    requires OnlyPlaces(root)
    ensures OnlyPlaces(Build(root, entries))
    decreases |entries|
  {
    if entries != [] {
      var next := AddEntry(root, entries[0]);
      forall place | Lookup(next, place).Some? ensures IsPlace(place) {
        if Lookup(root, place).None? {
          AddEntryPlaces(root, entries[0], place);
        }
      }
      BuildPlaces(next, entries[1..]);
    }
  }

  // ---------- the round trip ----------

  lemma {:induction false} JoinedAt(leaves: seq<Leaf>)
    ensures |Joined([], leaves)| == |leaves|
    ensures forall k :: 0 <= k < |leaves| ==> Joined([], leaves)[k] == Found(Join(leaves[k].place), leaves[k].key)
    decreases |leaves|
  {
    if leaves != [] {
      JoinedAt(leaves[1..]);
      assert [] + leaves[0].place == leaves[0].place;
    }
  }

  /**
   Reading back the walk of the tree of any entries gives every path they list exactly once, with the
   key of the first entry that lists it, and nothing else.
   */
  lemma EveryPathOnce(entries: seq<Input>)
    ensures var found := Read(Walk(Build(EMPTY, entries), 0), []);
      && (forall j, k :: 0 <= j < k < |found| ==> found[j].path != found[k].path)
      && (forall path, key :: Found(path, key) in found <==> FirstKey(entries, path) == Some(key))
  {
    var tree := Build(EMPTY, entries);
    var leaves, found := Leaves(tree), Read(Walk(tree, 0), []);
    FoldingRoundTrips(tree);
    JoinedAt(leaves);
    BuildHolds(EMPTY, entries, []);
    LeavesOnce(tree);
    BuildPlaces(EMPTY, entries);
    forall k | 0 <= k < |leaves| ensures Place(found[k].path) == leaves[k].place {
      LeavesAreHeld(tree, leaves[k].place);
      assert leaves[k] == Leaf(leaves[k].place, leaves[k].key);
    }
    forall j, k | 0 <= j < k < |found| ensures found[j].path != found[k].path {
      assert leaves[j].place != leaves[k].place;
    }
    forall path, key ensures Found(path, key) in found <==> FirstKey(entries, path) == Some(key) {
      FoundIff(entries, path, key);
    }
  }

  lemma FoundIff(entries: seq<Input>, path: Text, key: Text)
    ensures Found(path, key) in Joined([], Leaves(Build(EMPTY, entries))) <==> FirstKey(entries, path) == Some(key)
  {
    var tree := Build(EMPTY, entries);
    var leaves := Leaves(tree);
    JoinedAt(leaves);
    BuildHolds(EMPTY, entries, path);
    EmptyHolds(Place(path));
    LeavesAreHeld(tree, Place(path));
    PlaceJoins(path);
    BuildPlaces(EMPTY, entries);
    if Found(path, key) in Joined([], leaves) {
      var k :| 0 <= k < |leaves| && Joined([], leaves)[k] == Found(path, key);
      LeavesAreHeld(tree, leaves[k].place);
      assert leaves[k] == Leaf(leaves[k].place, key);
    }
    if FirstKey(entries, path) == Some(key) {
      assert Leaf(Place(path), key) in leaves;
      var k :| 0 <= k < |leaves| && leaves[k] == Leaf(Place(path), key);
      assert Joined([], leaves)[k] == Found(path, key);
    }
  }

  // ---------- the loops ----------

  /** `buildPathTree`. */
  method BuildPathTree(entries: seq<Input>) returns (root: Node)
    ensures root == Build(EMPTY, entries)
  {
    root := EMPTY;
    for i := 0 to |entries|
      invariant Build(root, entries[i..]) == Build(EMPTY, entries)
    {
      assert entries[i..][1..] == entries[i + 1..];
      root := AddEntry(root, entries[i]);
    }
  }

  /** The inner loop of `walkPathTree`. */
  method FoldChain(name: Text, node: Node) returns (parts: seq<Text>, dirNode: Node)
    ensures (parts, dirNode) == Fold(name, node)
  {
    parts, dirNode := [name], node;
    ghost var before, last := [], name;
    assert [] + Fold(name, node).0 == Fold(name, node).0;
    while |dirNode.files| == 0 && |dirNode.subdirs| == 1
      invariant parts == before + [last]
      invariant before + Fold(last, dirNode).0 == Fold(name, node).0 && Fold(last, dirNode).1 == Fold(name, node).1
      decreases Size(dirNode)
    {
      var only := dirNode.subdirs[0];
      OnlyChild(dirNode);
      assert before + ([last] + Fold(only.name, only.node).0) == (before + [last]) + Fold(only.name, only.node).0;
      before, last := parts, only.name;
      parts := parts + [only.name];
      dirNode := only.node;
    }
  }
}
