/**
 The Mach-O export trie as the tracker's C code walks it. An image is the byte range from `start`
 to `end`, a pointer into it is an offset, and NULL is the address 0. A symbol is the byte string
 before its terminating NUL.
 */
module ExportTrie {
  import opened Arithmetic
  import opened Bytes
  import opened Uleb
  import opened Wrappers

  /** A call of the walk: the node and what is left of the symbol. */
  datatype Config = Config(node: nat, rest: seq<Byte>)

  /** What one call does: it returns NULL or an offset from the base, or it calls itself. */
  datatype Next = Return(found: Option<nat>) | Descend(to: Config)

  const REEXPORT_BIT := 8

  predicate IsReexport(flags: nat) {
    flags / REEXPORT_BIT % 2 == 1
  }

  /** The test is on the fourth bit alone, whatever the bits above and below it. */
  lemma ReexportIsOneBit(high: nat, bit: nat, low: nat)
    requires bit < 2 && low < 8
    ensures IsReexport(16 * high + 8 * bit + low) <==> bit == 1
  {
    assert (16 * high + 8 * bit + low) / 8 == 2 * high + bit;
  }

  function AddressOf(base: nat, found: Option<nat>): nat {
    if found.Some? then (base + found.value) % WORD else 0
  }

  /** `strnlen` from `at` to the end of the image. */
  function LabelLength(image: seq<Byte>, at: nat): (length: nat)
    requires at <= |image|
    ensures at + length <= |image|
    ensures forall i :: at <= i < at + length ==> image[i] != 0
    ensures at + length < |image| ==> image[at + length] == 0
    decreases |image| - at
  {
    if at == |image| || image[at] == 0 then 0 else 1 + LabelLength(image, at + 1)
  }

  /** The edges from `at` on, of which `remaining` are still to be looked at. */
  function Scan(image: seq<Byte>, at: nat, remaining: nat, rest: seq<Byte>): Next
    requires at <= |image|
    decreases remaining
  {
    if remaining == 0 then Return(None)
    else
      var length := LabelLength(image, at);
      if at + length + 1 > |image| then Return(None)
      else
        var offset := Decoded(image, at + length + 1);
        if image[at..at + length] <= rest && offset < |image|
        then Descend(Config(offset, rest[length..]))
        else Scan(image, GroupEnd(image, at + length + 1, MAX_BYTES), remaining - 1, rest)
  }

  /** The export stored between `cursor` and the children of a node whose terminal size is `size`. */
  function Terminal(image: seq<Byte>, cursor: nat, size: nat): Option<nat>
    requires cursor <= |image|
  {
    if size == 0 || cursor == |image| || IsReexport(Decoded(image, cursor)) then None
    else Some(Decoded(image, GroupEnd(image, cursor, MAX_BYTES)))
  }

  function Step(image: seq<Byte>, c: Config): Next {
    if c.node >= |image| then Return(None)
    else
      var size := Decoded(image, c.node);
      var cursor := GroupEnd(image, c.node, MAX_BYTES);
      if c.rest == [] then Return(Terminal(image, cursor, size))
      else if cursor + size >= |image| then Return(None)
      else Scan(image, cursor + size + 1, image[cursor + size], c.rest)
  }

  /** The call returns after exactly `calls` nested calls. */
  predicate ReturnsAfter(image: seq<Byte>, c: Config, calls: nat)
    decreases calls
  {
    match Step(image, c)
    case Return(_) => calls == 0
    case Descend(d) => calls > 0 && ReturnsAfter(image, d, calls - 1)
  }

  ghost predicate Returns(image: seq<Byte>, c: Config) {
    exists calls: nat :: ReturnsAfter(image, c, calls)
  }

  lemma {:induction false} CallsUnique(image: seq<Byte>, c: Config, j: nat, k: nat)
    requires ReturnsAfter(image, c, j) && ReturnsAfter(image, c, k)
    ensures j == k
    decreases j
  {
    hide Step;
    if Step(image, c).Descend? {
      CallsUnique(image, Step(image, c).to, j - 1, k - 1);
    }
  }

  ghost function Calls(image: seq<Byte>, c: Config): (calls: nat)
    requires Returns(image, c)
    ensures ReturnsAfter(image, c, calls)
  {
    var calls: nat :| ReturnsAfter(image, c, calls);
    calls
  }

  lemma DescendReturns(image: seq<Byte>, c: Config)
    requires Returns(image, c) && Step(image, c).Descend?
    ensures var d := Step(image, c).to;
            Returns(image, d) && Calls(image, d) < Calls(image, c)
  {
    hide Step;
    var d := Step(image, c).to;
    assert ReturnsAfter(image, d, Calls(image, c) - 1);
    CallsUnique(image, d, Calls(image, d), Calls(image, c) - 1);
  }

  /** What a returning walk finds, before the base is added. */
  ghost function Walk(image: seq<Byte>, c: Config): Option<nat>
    requires Returns(image, c)
    decreases Calls(image, c)
  {
    match Step(image, c)
    case Return(found) => found
    case Descend(d) =>
      DescendReturns(image, c);
      Walk(image, d)
  }

  // Termination on arbitrary bytes

  /** The call reached after `calls` nested calls, unless the walk has returned before. */
  function After(image: seq<Byte>, c: Config, calls: nat): Option<Config>
    decreases calls
  {
    if calls == 0 then Some(c)
    else match Step(image, c)
      case Return(_) => None
      case Descend(d) => After(image, d, calls - 1)
  }

  lemma {:induction false} AfterPlus(image: seq<Byte>, c: Config, i: nat, j: nat)
    requires After(image, c, i).Some?
    ensures After(image, c, i + j) == After(image, After(image, c, i).value, j)
    decreases i
  {
    hide Step;
    if i > 0 {
      AfterPlus(image, Step(image, c).to, i - 1, j);
    }
  }

  lemma {:induction false} ReturnedBefore(image: seq<Byte>, c: Config, calls: nat, k: nat)
    requires ReturnsAfter(image, c, k)
    ensures After(image, c, calls).None? <==> k < calls
    decreases calls
  {
    hide Step;
    if calls > 0 && Step(image, c).Descend? {
      ReturnedBefore(image, Step(image, c).to, calls - 1, k - 1);
    }
  }

  lemma {:induction false} ReturnedAt(image: seq<Byte>, c: Config, calls: nat) returns (k: nat)
    requires After(image, c, calls).None?
    ensures k < calls && ReturnsAfter(image, c, k)
    decreases calls
  {
    hide Step;
    if Step(image, c).Return? {
      k := 0;
    } else {
      k := ReturnedAt(image, Step(image, c).to, calls - 1);
      k := k + 1;
    }
  }

  lemma {:induction false} ScanShape(image: seq<Byte>, at: nat, remaining: nat, rest: seq<Byte>)
    requires at <= |image|
    ensures var next := Scan(image, at, remaining, rest);
            next.Descend? ==> next.to.node < |image| && exists k: nat :: k <= |rest| && next.to.rest == rest[k..]
    decreases remaining
  {
    hide Decoded, GroupEnd;
    if remaining > 0 {
      var length := LabelLength(image, at);
      if at + length + 1 <= |image| {
        ScanShape(image, GroupEnd(image, at + length + 1, MAX_BYTES), remaining - 1, rest);
      }
    }
  }

  /** `d` is a node of the image with a suffix of `rest`. */
  predicate IsLater(image: seq<Byte>, rest: seq<Byte>, d: Config) {
    && d.node < |image|
    && |d.rest| <= |rest|
    && d.rest == rest[|rest| - |d.rest|..]
  }

  lemma StepShape(image: seq<Byte>, c: Config)
    ensures Step(image, c).Descend? ==> IsLater(image, c.rest, Step(image, c).to)
  {
    hide Scan, Decoded, GroupEnd, Terminal;
    if Step(image, c).Descend? {
      var kids := GroupEnd(image, c.node, MAX_BYTES) + Decoded(image, c.node);
      ScanShape(image, kids + 1, image[kids], c.rest);
    }
  }

  /** Every later call is at a node of the image with a suffix of the symbol. */
  lemma {:induction false} AfterShape(image: seq<Byte>, c: Config, calls: nat)
    requires c.node < |image|
    ensures var d := After(image, c, calls);
            d.Some? ==> IsLater(image, c.rest, d.value)
    decreases calls
  {
    hide Step;
    if calls > 0 && Step(image, c).Descend? {
      StepShape(image, c);
      AfterShape(image, Step(image, c).to, calls - 1);
    }
  }

  /** A call of the walk as a number: nodes times suffixes. */
  function Code(c: Config, width: nat): nat {
    c.node * width + |c.rest|
  }

  lemma CodeBound(c: Config, width: nat, nodes: nat)
    requires |c.rest| < width && c.node < nodes
    ensures Code(c, width) < nodes * width
  {
    ProductGrows(c.node + 1, nodes, width);
    Distribute(c.node, 1, width);
  }

  lemma CodeInjective(c: Config, d: Config, width: nat)
    requires |c.rest| < width && |d.rest| < width && Code(c, width) == Code(d, width)
    ensures c.node == d.node && |c.rest| == |d.rest|
  {
    MultipleOutgrows(c.node - d.node, width);
    assert (c.node - d.node) * width == |d.rest| - |c.rest|;
  }

  lemma {:induction false} DistinctFit(s: seq<nat>, n: nat)
    requires forall i :: 0 <= i < |s| ==> s[i] < n
    requires forall i, j :: 0 <= i < j < |s| ==> s[i] != s[j]
    ensures |s| <= n
    decreases n
  {
    assert s == [] || s[0] < n;
    if s == [] {
    } else if k :| 0 <= k < |s| && s[k] == n - 1 {
      DistinctFit(s[..k] + s[k + 1..], n - 1);
    } else {
      DistinctFit(s, n - 1);
    }
  }

  /** The largest number of different calls a walk of this symbol can make. */
  function CallBound(image: seq<Byte>, symbol: seq<Byte>): nat {
    |image| * (|symbol| + 1)
  }

  ghost predicate NoCallRepeats(image: seq<Byte>, c: Config) {
    forall i: nat, j: nat :: i < j && After(image, c, i).Some? && After(image, c, j).Some? ==>
      After(image, c, i) != After(image, c, j)
  }

  lemma ReturningNeverRepeats(image: seq<Byte>, c: Config, i: nat, j: nat)
    requires Returns(image, c) && i < j
    requires After(image, c, i).Some? && After(image, c, j).Some?
    ensures After(image, c, i) != After(image, c, j)
  {
    hide Step;
    hide After;
    hide ReturnsAfter;
    var calls := Calls(image, c);
    SuffixReturns(image, c, i, calls);
    SuffixReturns(image, c, j, calls);
    if After(image, c, i) == After(image, c, j) {
      CallsUnique(image, After(image, c, i).value, calls - i, calls - j);
    }
  }

  lemma {:induction false} SuffixReturns(image: seq<Byte>, c: Config, i: nat, calls: nat)
    requires ReturnsAfter(image, c, calls) && After(image, c, i).Some?
    ensures i <= calls && ReturnsAfter(image, After(image, c, i).value, calls - i)
    decreases i
  {
    hide Step;
    if i > 0 {
      SuffixReturns(image, Step(image, c).to, i - 1, calls - 1);
    }
  }

  /** Without a repeated call the walk is over within the bound. */
  lemma NoRepeatIsShort(image: seq<Byte>, c: Config)
    requires c.node < |image| && NoCallRepeats(image, c)
    ensures After(image, c, CallBound(image, c.rest)).None?
  {
    hide Step;
    hide After;
    hide Code;
    var bound, width := CallBound(image, c.rest), |c.rest| + 1;
    if After(image, c, bound).Some? {
      forall i: nat | i <= bound
        ensures After(image, c, i).Some? && Code(After(image, c, i).value, width) < bound
      {
        StillRunning(image, c, i, bound);
        AfterShape(image, c, i);
        CodeBound(After(image, c, i).value, width, |image|);
      }
      var codes := seq(bound + 1, i requires 0 <= i <= bound => Code(After(image, c, i).value, width));
      forall i, j | 0 <= i < j < |codes|
        ensures codes[i] != codes[j]
      {
        AfterShape(image, c, i);
        AfterShape(image, c, j);
        if codes[i] == codes[j] {
          CodeInjective(After(image, c, i).value, After(image, c, j).value, width);
        }
      }
      DistinctFit(codes, bound);
    }
  }

  lemma StillRunning(image: seq<Byte>, c: Config, i: nat, j: nat)
    requires i <= j && After(image, c, j).Some?
    ensures After(image, c, i).Some?
  {
    hide After;
    if After(image, c, i).None? {
      var k := ReturnedAt(image, c, i);
      ReturnedBefore(image, c, j, k);
    }
  }

  /**
   On any bytes whatever, the walk returns exactly when no call repeats, and exactly when it is
   over within nodes times suffixes calls, which a caller can count out beforehand.
   */
  lemma WalkReturnsIff(image: seq<Byte>, node: nat, symbol: seq<Byte>)
    requires node < |image|
    ensures var c := Config(node, symbol);
            && (Returns(image, c) <==> NoCallRepeats(image, c))
            && (Returns(image, c) <==> After(image, c, CallBound(image, symbol)).None?)
  {
    hide Step;
    hide After;
    var c := Config(node, symbol);
    if After(image, c, CallBound(image, symbol)).None? {
      var k := ReturnedAt(image, c, CallBound(image, symbol));
    }
    if Returns(image, c) {
      forall i: nat, j: nat | i < j && After(image, c, i).Some? && After(image, c, j).Some?
        ensures After(image, c, i) != After(image, c, j)
      {
        ReturningNeverRepeats(image, c, i, j);
      }
    }
    if NoCallRepeats(image, c) {
      NoRepeatIsShort(image, c);
    }
  }

  /** The labels a scan of `remaining` edges from `at` looks at are all non-empty. */
  predicate LabelsNonEmpty(image: seq<Byte>, at: nat, remaining: nat)
    requires at <= |image|
    decreases remaining
  {
    remaining == 0 ||
    var after := at + LabelLength(image, at) + 1;
    after > |image| ||
    (LabelLength(image, at) > 0 && LabelsNonEmpty(image, GroupEnd(image, after, MAX_BYTES), remaining - 1))
  }

  /** The node has no edge with an empty label, among those a scan looks at. */
  predicate NodeLabelsNonEmpty(image: seq<Byte>, node: nat) {
    node < |image| ==>
      var kids := GroupEnd(image, node, MAX_BYTES) + Decoded(image, node);
      kids < |image| ==> LabelsNonEmpty(image, kids + 1, image[kids])
  }

  /** No node that the walk visits has an edge with an empty label. */
  ghost predicate VisitedLabelsNonEmpty(image: seq<Byte>, c: Config) {
    forall i: nat :: After(image, c, i).Some? ==> NodeLabelsNonEmpty(image, After(image, c, i).value.node)
  }

  lemma {:induction false} ScanConsumes(image: seq<Byte>, at: nat, remaining: nat, rest: seq<Byte>)
    requires at <= |image| && LabelsNonEmpty(image, at, remaining)
    ensures var next := Scan(image, at, remaining, rest);
            next.Descend? ==> |next.to.rest| < |rest|
    decreases remaining
  {
    hide Decoded, GroupEnd, Terminated;
    if remaining > 0 {
      var length := LabelLength(image, at);
      if at + length + 1 <= |image| {
        ScanConsumes(image, GroupEnd(image, at + length + 1, MAX_BYTES), remaining - 1, rest);
      }
    }
  }

  lemma StepConsumes(image: seq<Byte>, c: Config)
    requires NodeLabelsNonEmpty(image, c.node)
    ensures Step(image, c).Descend? ==> |Step(image, c).to.rest| < |c.rest|
  {
    hide Scan, LabelsNonEmpty, Decoded, GroupEnd, Terminal;
    if Step(image, c).Descend? {
      var kids := GroupEnd(image, c.node, MAX_BYTES) + Decoded(image, c.node);
      ScanConsumes(image, kids + 1, image[kids], c.rest);
    }
  }

  lemma VisitedBehind(image: seq<Byte>, c: Config)
    requires VisitedLabelsNonEmpty(image, c) && Step(image, c).Descend?
    ensures VisitedLabelsNonEmpty(image, Step(image, c).to)
  {
    hide Step, NodeLabelsNonEmpty;
    var d := Step(image, c).to;
    forall i: nat | After(image, d, i).Some?
      ensures NodeLabelsNonEmpty(image, After(image, d, i).value.node)
    {
      assert After(image, c, i + 1) == After(image, d, i);
    }
  }

  /**
   If the nodes the walk visits have no empty edges it makes at most one nested call per byte of the
   symbol, whatever else the image holds.
   */
  lemma {:induction false} NonEmptyEdgesReturn(image: seq<Byte>, c: Config) returns (calls: nat)
    requires VisitedLabelsNonEmpty(image, c)
    ensures ReturnsAfter(image, c, calls) && calls <= |c.rest|
    decreases |c.rest|
  {
    assert After(image, c, 0) == Some(c) && NodeLabelsNonEmpty(image, c.node);
    hide Step, NodeLabelsNonEmpty, VisitedLabelsNonEmpty;
    if Step(image, c).Return? {
      calls := 0;
    } else {
      StepConsumes(image, c);
      VisitedBehind(image, c);
      calls := NonEmptyEdgesReturn(image, Step(image, c).to);
      calls := calls + 1;
    }
  }

  /** The offsets of the children that a scan of `remaining` edges from `at` can descend to. */
  function Children(image: seq<Byte>, at: nat, remaining: nat): set<nat>
    requires at <= |image|
    decreases remaining
  {
    var after := at + LabelLength(image, at) + 1;
    if remaining == 0 || after > |image| then {}
    else {Decoded(image, after)} + Children(image, GroupEnd(image, after, MAX_BYTES), remaining - 1)
  }

  function NodeChildren(image: seq<Byte>, node: nat): set<nat> {
    if node >= |image| then {}
    else
      var kids := GroupEnd(image, node, MAX_BYTES) + Decoded(image, node);
      if kids >= |image| then {} else Children(image, kids + 1, image[kids])
  }

  lemma {:induction false} ScanStaysInside(image: seq<Byte>, at: nat, remaining: nat, rest: seq<Byte>)
    requires at <= |image|
    ensures var next := Scan(image, at, remaining, rest);
            next.Descend? ==> next.to.node in Children(image, at, remaining)
    decreases remaining
  {
    hide Decoded, GroupEnd;
    if remaining > 0 {
      var length := LabelLength(image, at);
      if at + length + 1 <= |image| {
        ScanStaysInside(image, GroupEnd(image, at + length + 1, MAX_BYTES), remaining - 1, rest);
      }
    }
  }

  lemma StepStaysInside(image: seq<Byte>, c: Config)
    ensures Step(image, c).Descend? ==> Step(image, c).to.node in NodeChildren(image, c.node)
  {
    hide Scan, Children, Decoded, GroupEnd, Terminal;
    if Step(image, c).Descend? {
      var kids := GroupEnd(image, c.node, MAX_BYTES) + Decoded(image, c.node);
      ScanStaysInside(image, kids + 1, image[kids], c.rest);
    }
  }

  /** The same, checkable beforehand: a set of nodes that children do not leave, and none with an empty edge. */
  lemma {:induction false} ClosedNodesReturn(image: seq<Byte>, nodes: set<nat>, c: Config) returns (calls: nat)
    requires c.node in nodes
    requires forall node :: node in nodes ==> NodeLabelsNonEmpty(image, node) && NodeChildren(image, node) <= nodes
    ensures ReturnsAfter(image, c, calls) && calls <= |c.rest|
    decreases |c.rest|
  {
    hide Step, NodeLabelsNonEmpty, NodeChildren;
    if Step(image, c).Return? {
      calls := 0;
    } else {
      StepConsumes(image, c);
      StepStaysInside(image, c);
      calls := ClosedNodesReturn(image, nodes, Step(image, c).to);
      calls := calls + 1;
    }
  }

  /**
   The bytes 0, 1, 0, 0 are a root with one edge, labelled with the empty string, back to the
   root: looking up any non-empty symbol there never returns.
   */
  lemma EmptyEdgeLoops(symbol: seq<Byte>)
    requires symbol != []
    ensures !Returns([0, 1, 0, 0], Config(0, symbol))
  {
    var image: seq<Byte> := [0, 1, 0, 0];
    var c := Config(0, symbol);
    assert Decoded(image, 0) == 0 by { assert Value(image[0..1]) == 0; }
    assert Decoded(image, 3) == 0 by { assert Value(image[3..4]) == 0; }
    assert LabelLength(image, 2) == 0;
    assert image[2..2] == [] && symbol[0..] == symbol;
    assert Step(image, c) == Scan(image, 2, 1, symbol) == Descend(c);
    if Returns(image, c) {
      DescendReturns(image, c);
    }
  }

  // The finite map an image stands for

  datatype Export = Export(flags: nat, address: nat)

  /**
   A trie together with where its parts lie in an image: `at` is the node's offset, `info` the
   offset behind its terminal size, and an edge runs from `at` to `next`.
   */
  datatype Trie = Node(at: nat, info: nat, size: nat, held: Option<Export>, edges: seq<Edge>)
  datatype Edge = Edge(at: nat, text: seq<Byte>, next: nat, child: Trie)

  /** One encoded number occupies exactly the bytes from `from` to `to`; padding is allowed. */
  predicate UlebAt(image: seq<Byte>, from: nat, to: nat, value: nat) {
    && from < to <= |image|
    && IsGroup(image[from..to])
    && Value(image[from..to]) == value < WORD
  }

  /** The terminal part: flags, and an address unless the export is a re-export, within `size` bytes. */
  ghost predicate ExportAt(image: seq<Byte>, from: nat, size: nat, held: Option<Export>) {
    match held
    case None => size == 0
    case Some(e) =>
      exists mid: nat :: UlebAt(image, from, mid, e.flags) && mid <= from + size &&
        (IsReexport(e.flags) || exists to: nat :: UlebAt(image, mid, to, e.address) && to <= from + size)
  }

  predicate LabelAt(image: seq<Byte>, at: nat, text: seq<Byte>) {
    && at + |text| < |image|
    && image[at..at + |text|] == text
    && image[at + |text|] == 0
    && (forall i :: 0 <= i < |text| ==> text[i] != 0)
  }

  ghost predicate EdgesAt(image: seq<Byte>, at: nat, edges: seq<Edge>)
    decreases edges
  {
    edges == [] ||
    (&& edges[0].at == at
     && edges[0].text != []
     && LabelAt(image, at, edges[0].text)
     && UlebAt(image, at + |edges[0].text| + 1, edges[0].next, edges[0].child.at)
     && EdgesAt(image, edges[0].next, edges[1..]))
  }

  predicate DistinctFirsts(edges: seq<Edge>) {
    forall i, j :: 0 <= i < j < |edges| && edges[i].text != [] && edges[j].text != [] ==>
      edges[i].text[0] != edges[j].text[0]
  }

  /** The image holds the well-formed trie `t`. */
  ghost predicate LaidOut(image: seq<Byte>, t: Trie) {
    && UlebAt(image, t.at, t.info, t.size)
    && t.info + t.size < |image|
    && ExportAt(image, t.info, t.size, t.held)
    && image[t.info + t.size] == |t.edges|
    && EdgesAt(image, t.info + t.size + 1, t.edges)
    && DistinctFirsts(t.edges)
    && forall e :: e in t.edges ==> LaidOut(image, e.child)
  }

  /** All names of a trie with their exports: the edge labels along a path, put together. */
  function Exports(t: Trie): set<(seq<Byte>, Export)> {
    (if t.held.Some? then {([], t.held.value)} else {}) + EdgeExports(t.edges)
  }

  function EdgeExports(edges: seq<Edge>): set<(seq<Byte>, Export)> {
    if edges == [] then {}
    else (set p | p in Exports(edges[0].child) :: (edges[0].text + p.0, p.1)) + EdgeExports(edges[1..])
  }

  lemma {:induction false} EdgeExportsIff(edges: seq<Edge>, name: seq<Byte>, e: Export)
    ensures (name, e) in EdgeExports(edges) <==>
            exists k :: 0 <= k < |edges| && edges[k].text <= name && (name[|edges[k].text|..], e) in Exports(edges[k].child)
  {
    if edges != [] {
      EdgeExportsIff(edges[1..], name, e);
      var first := edges[0];
      if (name, e) in EdgeExports(edges) {
        if p :| p in Exports(first.child) && (first.text + p.0, p.1) == (name, e) {
          assert name[|first.text|..] == p.0;
        } else {
          var k :| 0 <= k < |edges[1..]| && edges[1..][k].text <= name &&
            (name[|edges[1..][k].text|..], e) in Exports(edges[1..][k].child);
          assert edges[k + 1] == edges[1..][k];
        }
      }
      if k :| 0 <= k < |edges| && edges[k].text <= name && (name[|edges[k].text|..], e) in Exports(edges[k].child) {
        if k == 0 {
          assert first.text + name[|first.text|..] == name;
        } else {
          assert edges[k] == edges[1..][k - 1];
        }
      }
    }
  }

  /** The first edge whose label starts the symbol. */
  function Pick(edges: seq<Edge>, symbol: seq<Byte>): (k: nat)
    ensures k <= |edges|
    ensures k < |edges| ==> edges[k].text <= symbol
    ensures forall i :: 0 <= i < k ==> !(edges[i].text <= symbol)
  {
    if edges == [] then 0
    else if edges[0].text <= symbol then 0
    else 1 + Pick(edges[1..], symbol)
  }

  lemma UlebReads(image: seq<Byte>, from: nat, to: nat, value: nat)
    requires UlebAt(image, from, to, value)
    ensures Decoded(image, from) == value && GroupEnd(image, from, MAX_BYTES) == to
  {
    DecodesGroup(image, from, to);
  }

  lemma {:induction false} LabelReads(image: seq<Byte>, at: nat, text: seq<Byte>)
    requires LabelAt(image, at, text)
    ensures at + |text| < |image| && LabelLength(image, at) == |text| && image[at..at + |text|] == text
  {
    var length := LabelLength(image, at);
    assert forall i :: at <= i < at + |text| ==> image[i] == image[at..at + |text|][i - at];
  }

  /** Scanning laid-out edges takes the first one whose label starts the symbol. */
  lemma {:induction false} ScanPicks(image: seq<Byte>, at: nat, edges: seq<Edge>, symbol: seq<Byte>)
    requires at <= |image| && EdgesAt(image, at, edges)
    requires forall e :: e in edges ==> e.child.at < |image|
    ensures var k := Pick(edges, symbol);
            Scan(image, at, |edges|, symbol) ==
            if k == |edges| then Return(None) else Descend(Config(edges[k].child.at, symbol[|edges[k].text|..]))
    decreases edges
  {
    hide LabelAt, UlebAt, Decoded, GroupEnd, LabelLength;
    if edges != [] {
      var e := edges[0];
      assert e in edges;
      LabelReads(image, at, e.text);
      UlebReads(image, at + |e.text| + 1, e.next, e.child.at);
      ScanPicks(image, e.next, edges[1..], symbol);
    }
  }

  lemma TerminalReads(image: seq<Byte>, t: Trie)
    requires LaidOut(image, t)
    ensures Terminal(image, t.info, t.size) ==
            if t.held.None? || IsReexport(t.held.value.flags) then None else Some(t.held.value.address)
  {
    if t.held.Some? {
      var e := t.held.value;
      var mid: nat :| UlebAt(image, t.info, mid, e.flags) && mid <= t.info + t.size &&
        (IsReexport(e.flags) || exists to: nat :: UlebAt(image, mid, to, e.address) && to <= t.info + t.size);
      UlebReads(image, t.info, mid, e.flags);
      if !IsReexport(e.flags) {
        var to: nat :| UlebAt(image, mid, to, e.address) && to <= t.info + t.size;
        UlebReads(image, mid, to, e.address);
      }
    }
  }

  /** The edges passed over and the ones behind the picked one hold no name that starts like the symbol. */
  lemma PickIsOnlyOne(edges: seq<Edge>, symbol: seq<Byte>, k: nat)
    requires DistinctFirsts(edges) && (forall i :: 0 <= i < |edges| ==> edges[i].text != [])
    requires k < |edges| && edges[k].text <= symbol
    ensures k == Pick(edges, symbol)
  {
    var first := Pick(edges, symbol);
    assert edges[k].text[0] == symbol[0] == edges[first].text[0];
  }

  lemma {:induction false} EdgesAtEach(image: seq<Byte>, at: nat, edges: seq<Edge>, k: nat)
    requires EdgesAt(image, at, edges) && k < |edges|
    ensures edges[k].text != []
    decreases k
  {
    if k > 0 {
      EdgesAtEach(image, edges[0].next, edges[1..], k - 1);
    }
  }

  /** What a call at a laid-out node does, in terms of the trie alone. */
  lemma StepAtNode(image: seq<Byte>, t: Trie, name: seq<Byte>)
    requires LaidOut(image, t)
    ensures name == [] ==>
              Step(image, Config(t.at, name)) ==
              Return(if t.held.None? || IsReexport(t.held.value.flags) then None else Some(t.held.value.address))
    ensures name != [] ==>
              var k := Pick(t.edges, name);
              Step(image, Config(t.at, name)) ==
              if k == |t.edges| then Return(None) else Descend(Config(t.edges[k].child.at, name[|t.edges[k].text|..]))
  {
    hide UlebAt, Decoded, GroupEnd, Terminal, Scan, EdgesAt, ExportAt, DistinctFirsts, Exports, Pick;
    UlebReads(image, t.at, t.info, t.size);
    if name == [] {
      TerminalReads(image, t);
    } else {
      forall e | e in t.edges
        ensures e.child.at < |image|
      {
        NodeInImage(image, e.child);
      }
      ScanPicks(image, t.info + t.size + 1, t.edges, name);
    }
  }

  lemma NodeInImage(image: seq<Byte>, t: Trie)
    requires LaidOut(image, t)
    ensures t.at < |image|
  {
  }

  /** In a laid-out trie the exports of a non-empty name are those behind the picked edge. */
  lemma ExportsBehindPick(image: seq<Byte>, t: Trie, name: seq<Byte>, e: Export)
    requires LaidOut(image, t)
    ensures name == [] ==> ((name, e) in Exports(t) <==> t.held == Some(e))
    ensures name != [] ==>
              var k := Pick(t.edges, name);
              (name, e) in Exports(t) <==> k < |t.edges| && (name[|t.edges[k].text|..], e) in Exports(t.edges[k].child)
  {
    hide UlebAt, ExportAt, EdgesAt, EdgeExports, DistinctFirsts, Pick;
    forall i | 0 <= i < |t.edges|
      ensures t.edges[i].text != []
    {
      EdgesAtEach(image, t.info + t.size + 1, t.edges, i);
    }
    assert DistinctFirsts(t.edges);
    hide LaidOut;
    EdgeExportsIff(t.edges, name, e);
    forall i | 0 <= i < |t.edges| && t.edges[i].text <= name
      ensures i == Pick(t.edges, name)
    {
      PickIsOnlyOne(t.edges, name, i);
    }
  }

  /** A name has at most one export, so `Exports` is a finite map. */
  lemma {:induction false} ExportsAreAMap(image: seq<Byte>, t: Trie, name: seq<Byte>, e: Export, f: Export)
    requires LaidOut(image, t)
    requires (name, e) in Exports(t) && (name, f) in Exports(t)
    ensures e == f
    decreases t
  {
    ExportsBehindPick(image, t, name, e);
    ExportsBehindPick(image, t, name, f);
    hide Exports, Pick;
    if name != [] {
      var edge := t.edges[Pick(t.edges, name)];
      assert edge in t.edges;
      ExportsAreAMap(image, edge.child, name[|edge.text|..], e, f);
    }
  }

  /**
   The walk returns on every laid-out trie, and it finds exactly the map's entry: the address of
   an export that is not a re-export, and nothing for any other name.
   */
  lemma {:induction false} WalkFindsExports(image: seq<Byte>, t: Trie, name: seq<Byte>)
    requires LaidOut(image, t)
    ensures Returns(image, Config(t.at, name))
    ensures forall e :: (name, e) in Exports(t) ==>
              Walk(image, Config(t.at, name)) == if IsReexport(e.flags) then None else Some(e.address)
    ensures (forall e :: (name, e) !in Exports(t)) ==> Walk(image, Config(t.at, name)) == None
    decreases t
  {
    var c := Config(t.at, name);
    StepAtNode(image, t, name);
    hide Step, Exports;
    forall e {
      ExportsBehindPick(image, t, name, e);
    }
    var k := Pick(t.edges, name);
    if name == [] || k == |t.edges| {
      assert ReturnsAfter(image, c, 0);
      if name == [] && t.held.Some? {
        assert (name, t.held.value) in Exports(t);
      }
    } else {
      var child, rest := t.edges[k].child, name[|t.edges[k].text|..];
      assert t.edges[k] in t.edges;
      WalkFindsExports(image, child, rest);
      assert ReturnsAfter(image, c, Calls(image, Config(child.at, rest)) + 1);
      DescendReturns(image, c);
    }
  }

  // The C functions

  /**
   For every well-formed trie the image holds at the node: the result is the base plus the mapped address,
   within 64 bits, for a name of the map that is no re-export, and NULL for any other.
   */
  ghost predicate AgreesWithMap(image: seq<Byte>, node: nat, symbol: seq<Byte>, base: nat, address: nat) {
    forall t: Trie :: LaidOut(image, t) && t.at == node ==>
      && (forall e :: (symbol, e) in Exports(t) && e.flags / 8 % 2 == 0 ==>
           address == (base + e.address) % 0x1_0000_0000_0000_0000)
      && ((forall e :: (symbol, e) in Exports(t) ==> e.flags / 8 % 2 == 1) ==> address == 0)
  }

  lemma WalkAgrees(image: seq<Byte>, node: nat, symbol: seq<Byte>, base: nat)
    requires Returns(image, Config(node, symbol))
    ensures AgreesWithMap(image, node, symbol, base, AddressOf(base, Walk(image, Config(node, symbol))))
  {
    hide LaidOut, Exports, Returns, Walk;
    forall t: Trie | LaidOut(image, t) && t.at == node
      ensures var found := Walk(image, Config(node, symbol));
              && (forall e :: (symbol, e) in Exports(t) && e.flags / 8 % 2 == 0 ==> found == Some(e.address))
              && ((forall e :: (symbol, e) in Exports(t) ==> e.flags / 8 % 2 == 1) ==> found == None)
    {
      WalkFindsExports(image, t, symbol);
    }
  }

  /** The comparing loop of `walk_trie`: how far the edge at `edge` agrees with the symbol. */
  method MatchLength(image: seq<Byte>, edge: nat, length: nat, symbol: seq<Byte>) returns (matched: nat)
    requires edge + length <= |image|
    ensures matched <= length && matched <= |symbol|
    ensures matched == length <==> image[edge..edge + length] <= symbol
  {
    matched := 0;
    while matched < length && matched < |symbol| && symbol[matched] == image[edge + matched]
      invariant matched <= length && matched <= |symbol|
      invariant forall i :: 0 <= i < matched ==> image[edge + i] == symbol[i]
    {
      matched := matched + 1;
    }
    assert matched < length ==> image[edge..edge + length][matched] == image[edge + matched];
  }

  /**
   The C `walk_trie`. It is called only where it returns, which `WalkReturnsIff` makes decidable; every
   byte it reads lies in the image.
   */
  method WalkTrie(image: seq<Byte>, node: nat, symbol: seq<Byte>, base: nat) returns (address: nat)
    requires Returns(image, Config(node, symbol))
    ensures address == AddressOf(base, Walk(image, Config(node, symbol)))
    ensures AgreesWithMap(image, node, symbol, base, address)
    decreases Calls(image, Config(node, symbol)), 1
  {
    hide Returns, Walk, AgreesWithMap, AddressOf;
    address := WalkNode(image, node, symbol, base);
    WalkAgrees(image, node, symbol, base);
  }

  /** Its body, with its loops. */
  method WalkNode(image: seq<Byte>, node: nat, symbol: seq<Byte>, base: nat) returns (address: nat)
    requires Returns(image, Config(node, symbol))
    ensures address == AddressOf(base, Walk(image, Config(node, symbol)))
    decreases Calls(image, Config(node, symbol)), 0
  {
    hide Decoded, GroupEnd, LabelLength, IsReexport, ReturnsAfter, Returns, AgreesWithMap;
    ghost var c := Config(node, symbol);
    if node >= |image| {
      return 0;
    }
    var terminal, cursor := ReadUleb(image, node);
    var children: nat := cursor + terminal;
    if |symbol| == 0 {
      if terminal == 0 || cursor >= |image| {
        return 0;
      }
      var flags, value;
      flags, cursor := ReadUleb(image, cursor);
      if IsReexport(flags) {
        return 0;
      }
      value, cursor := ReadUleb(image, cursor);
      return (base + value) % WORD;
    }
    if children >= |image| {
      return 0;
    }
    var count := image[children];
    children := children + 1;
    var index := 0;
    while index < count
      invariant 0 <= index <= count && children <= |image|
      invariant Step(image, c) == Scan(image, children, count - index, symbol)
    {
      var edge := children;
      var length := LabelLength(image, edge);
      children := children + length + 1;
      if children > |image| {
        return 0;
      }
      var offset;
      offset, children := ReadUleb(image, children);
      var matched := MatchLength(image, edge, length, symbol);
      if matched == length && offset < |image| {
        DescendReturns(image, c);
        address := WalkTrie(image, offset, symbol[matched..], base);
        return;
      }
      index := index + 1;
    }
    return 0;
  }

  // What walks of well-formed tries visit

  lemma {:induction false} EdgesLabels(image: seq<Byte>, at: nat, edges: seq<Edge>)
    requires at <= |image| && EdgesAt(image, at, edges)
    ensures LabelsNonEmpty(image, at, |edges|)
    decreases edges
  {
    hide UlebAt, LabelAt, Decoded, GroupEnd;
    if edges != [] {
      var after := at + |edges[0].text| + 1;
      LabelReads(image, at, edges[0].text);
      UlebReads(image, after, edges[0].next, edges[0].child.at);
      EdgesLabels(image, edges[0].next, edges[1..]);
    }
  }

  /** A walk of a laid-out trie visits nodes without empty edges only, so it makes at most one nested call per byte. */
  lemma {:induction false} LaidOutVisits(image: seq<Byte>, t: Trie, name: seq<Byte>)
    requires LaidOut(image, t)
    ensures VisitedLabelsNonEmpty(image, Config(t.at, name))
    decreases t
  {
    var c := Config(t.at, name);
    LaidOutLabels(image, t);
    StepAtNode(image, t, name);
    hide UlebAt, ExportAt, EdgesAt, DistinctFirsts, Step, NodeLabelsNonEmpty, Exports, Pick;
    forall i: nat | After(image, c, i).Some?
      ensures NodeLabelsNonEmpty(image, After(image, c, i).value.node)
    {
      if i > 0 {
        var k := Pick(t.edges, name);
        var child, rest := t.edges[k].child, name[|t.edges[k].text|..];
        assert child.at == Step(image, c).to.node && t.edges[k] in t.edges;
        LaidOutVisits(image, child, rest);
        assert After(image, c, i) == After(image, Config(child.at, rest), i - 1);
      }
    }
  }

  lemma LaidOutLabels(image: seq<Byte>, t: Trie)
    requires LaidOut(image, t)
    ensures NodeLabelsNonEmpty(image, t.at)
  {
    hide UlebAt, ExportAt, EdgesAt, DistinctFirsts, LabelsNonEmpty, Decoded, GroupEnd;
    UlebReads(image, t.at, t.info, t.size);
    EdgesLabels(image, t.info + t.size + 1, t.edges);
  }

  // A small image

  /** The exports "a", at address 9, and "ab", which is re-exported. */
  const SAMPLE_IMAGE: seq<Byte> := [0, 1, 97, 0, 5, 2, 0, 9, 1, 98, 0, 12, 3, 8, 1, 0, 0]

  function SampleLeaf(): Trie {
    Node(12, 13, 3, Some(Export(8, 0)), [])
  }

  function SampleInner(): Trie {
    Node(5, 6, 2, Some(Export(0, 9)), [Edge(9, [98], 12, SampleLeaf())])
  }

  function SampleTrie(): Trie {
    Node(0, 1, 0, None, [Edge(2, [97], 5, SampleInner())])
  }

  lemma OneByteUleb(image: seq<Byte>, at: nat)
    requires at < |image| && image[at] < 128
    ensures UlebAt(image, at, at + 1, image[at])
  {
    assert image[at..at + 1] == [image[at]];
    assert Value([image[at]]) == image[at] % 128 + 128 * Value([image[at]][1..]);
  }

  lemma OneEdge(image: seq<Byte>, at: nat, edge: Edge)
    requires edge.at == at && |edge.text| == 1 && LabelAt(image, at, edge.text)
    requires UlebAt(image, at + 2, edge.next, edge.child.at)
    ensures EdgesAt(image, at, [edge])
  {
    hide LabelAt, UlebAt;
    assert [edge][1..] == [];
    assert EdgesAt(image, edge.next, []);
  }

  lemma LeafIsLaidOut()
    ensures LaidOut(SAMPLE_IMAGE, SampleLeaf())
  {
    var image := SAMPLE_IMAGE;
    OneByteUleb(image, 12);
    OneByteUleb(image, 13);
    hide UlebAt;
    assert ExportAt(image, 13, 3, SampleLeaf().held);
  }

  lemma InnerEdges()
    ensures EdgesAt(SAMPLE_IMAGE, 9, SampleInner().edges)
  {
    var image := SAMPLE_IMAGE;
    OneByteUleb(image, 11);
    assert SampleLeaf().at == 12;
    hide UlebAt, SampleLeaf, EdgesAt;
    assert image[9..10] == [98];
    OneEdge(image, 9, SampleInner().edges[0]);
  }

  lemma InnerExport()
    ensures ExportAt(SAMPLE_IMAGE, 6, 2, Some(Export(0, 9)))
  {
    var image := SAMPLE_IMAGE;
    OneByteUleb(image, 6);
    OneByteUleb(image, 7);
    hide UlebAt;
    assert UlebAt(image, 6, 7, 0) && UlebAt(image, 7, 8, 9);
  }

  lemma InnerIsLaidOut()
    ensures LaidOut(SAMPLE_IMAGE, SampleInner())
  {
    OneByteUleb(SAMPLE_IMAGE, 5);
    InnerExport();
    InnerEdges();
    LeafIsLaidOut();
    hide UlebAt, LaidOut, SampleLeaf, EdgesAt, ExportAt;
    LaidOutWithOneEdge(SAMPLE_IMAGE, SampleInner());
  }

  lemma LaidOutWithOneEdge(image: seq<Byte>, t: Trie)
    requires |t.edges| == 1 && LaidOut(image, t.edges[0].child)
    requires UlebAt(image, t.at, t.info, t.size) && t.info + t.size < |image|
    requires ExportAt(image, t.info, t.size, t.held) && image[t.info + t.size] == 1
    requires EdgesAt(image, t.info + t.size + 1, t.edges)
    ensures LaidOut(image, t)
  {
    hide UlebAt, ExportAt, EdgesAt;
    assert forall e :: e in t.edges ==> e == t.edges[0];
  }

  /** An image in the linker's format is laid out in the sense above. */
  lemma SampleIsLaidOut()
    ensures LaidOut(SAMPLE_IMAGE, SampleTrie())
  {
    InnerIsLaidOut();
    SampleRoot();
    hide UlebAt, LaidOut, SampleInner, SampleLeaf, EdgesAt, ExportAt;
    LaidOutWithOneEdge(SAMPLE_IMAGE, SampleTrie());
  }

  lemma SampleRoot()
    ensures UlebAt(SAMPLE_IMAGE, 0, 1, 0) && ExportAt(SAMPLE_IMAGE, 1, 0, None)
    ensures EdgesAt(SAMPLE_IMAGE, 2, SampleTrie().edges)
  {
    var image := SAMPLE_IMAGE;
    OneByteUleb(image, 0);
    OneByteUleb(image, 4);
    assert SampleInner().at == 5;
    hide UlebAt, SampleInner, SampleLeaf, EdgesAt;
    assert image[2..3] == [97];
    OneEdge(image, 2, SampleTrie().edges[0]);
  }

  lemma SampleExports()
    ensures Exports(SampleTrie()) == {([97], Export(0, 9)), ([97, 98], Export(8, 0))}
  {
    var root := SampleTrie();
    var a := SampleInner();
    var ab := SampleLeaf();
    assert EdgeExports([]) == {};
    assert Exports(ab) == {([], Export(8, 0))};
    assert EdgeExports(a.edges) == {([98], Export(8, 0))} by {
      assert a.edges[1..] == [] && [98] + [] == [98];
    }
    assert Exports(a) == {([], Export(0, 9)), ([98], Export(8, 0))};
    assert root.edges[1..] == [];
    assert [97] + [] == [97] && [97] + [98] == [97, 98];
  }
}
