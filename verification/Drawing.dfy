/**
 * The printed version tree can be read back: its indentation says which version each one follows, and
 * its branches say where a list of versions ends.
 */
module Drawing {
  import opened Ids
  import opened Catalogue

  /** How far a line is indented; each level takes three characters. */
  function Indent(lines: seq<Line>, k: nat): nat
    requires k < |lines|
  {
    |lines[k].prefix|
  }

  /** What stands below an entry in its own column: nothing under the last one, a trunk under the others. */
  function Column(line: Line): string {
    if line.last then "   " else "\U{2502}  "
  }

  /** Between `j` and `k` every line is indented at least as far as `k`. */
  predicate Inside(lines: seq<Line>, j: nat, k: nat)
    requires k < |lines|
  {
    forall i | j < i < k :: Indent(lines, i) >= Indent(lines, k)
  }

  /** Line `j` is the nearest one above `k` that is indented one level less. */
  predicate Above(lines: seq<Line>, j: nat, k: nat)
    requires k < |lines|
  {
    j < k && Indent(lines, j) + 3 == Indent(lines, k) && Inside(lines, j, k)
  }

  /** Line `j` is a later line of the same list as `k`. */
  predicate SameList(lines: seq<Line>, k: nat, j: nat)
    requires k < |lines|
  {
    k < j < |lines| && Indent(lines, j) == Indent(lines, k) && Inside(lines, k, j)
  }

  /** Is that the entry's parent? */
  predicate Follows(nodes: seq<Node>, id: string, parent: Option<string>) {
    id in ById(nodes) && ById(nodes)[id] == parent
  }

  /** Line `k` hangs in the column that line `j` opens, as its entry follows the entry of `j`. */
  predicate Hangs(nodes: seq<Node>, lines: seq<Line>, j: nat, k: nat)
    requires k < |lines|
  {
    && Above(lines, j, k)
    && lines[k].prefix == lines[j].prefix + Column(lines[j])
    && Follows(nodes, lines[k].id, Some(lines[j].id))
  }

  predicate HangsSomewhere(nodes: seq<Node>, lines: seq<Line>, k: nat)
    requires k < |lines|
  {
    exists j: nat | j < k :: Hangs(nodes, lines, j, k)
  }

  predicate GoesOn(lines: seq<Line>, k: nat)
    requires k < |lines|
  {
    exists j | k < j < |lines| :: SameList(lines, k, j)
  }

  predicate Earlier(nodes: seq<Node>, a: string, b: string) {
    exists i, j | 0 <= i < j < |nodes| :: nodes[i].id == a && nodes[j].id == b
  }

  // ------------------------------------------------------------------ blocks of lines

  /** One line of a block below `parent`: whom its entry follows, and whether its list ends there. */
  predicate Row(nodes: seq<Node>, lines: seq<Line>, k: nat, parent: Option<string>, prefix: string)
    requires k < |lines|
  {
    && ((lines[k].prefix == prefix && Follows(nodes, lines[k].id, parent)) || HangsSomewhere(nodes, lines, k))
    && (lines[k].last <==> !GoesOn(lines, k))
  }

  predicate Drawn(nodes: seq<Node>, lines: seq<Line>, parent: Option<string>, prefix: string) {
    forall k | 0 <= k < |lines| :: Row(nodes, lines, k, parent, prefix)
  }

  predicate InOrder(nodes: seq<Node>, lines: seq<Line>) {
    forall k, j | 0 <= k < j < |lines| && SameList(lines, k, j) :: Earlier(nodes, lines[k].id, lines[j].id)
  }

  /** Every line is indented at least this far. */
  predicate Deep(lines: seq<Line>, least: nat) {
    forall k | 0 <= k < |lines| :: Indent(lines, k) >= least
  }

  /** The lines of `part` stand in `lines` from `off` on. */
  predicate Part(lines: seq<Line>, part: seq<Line>, off: nat) {
    off + |part| <= |lines| && forall k | 0 <= k < |part| :: lines[off + k] == part[k]
  }

  lemma {:induction false} PartInside(lines: seq<Line>, part: seq<Line>, off: nat, j: nat, k: nat)
    requires Part(lines, part, off) && j < k < |part|
    ensures Inside(part, j, k) <==> Inside(lines, off + j, off + k)
  {
    assert Indent(part, k) == Indent(lines, off + k);
    forall i | j < i < k ensures Indent(part, i) == Indent(lines, off + i) {}
    if Inside(part, j, k) {
      forall i | off + j < i < off + k ensures Indent(lines, i) >= Indent(lines, off + k) {
        assert Indent(part, i - off) >= Indent(part, k);
      }
    }
    if Inside(lines, off + j, off + k) {
      forall i | j < i < k ensures Indent(part, i) >= Indent(part, k) {
        assert Indent(lines, off + i) >= Indent(lines, off + k);
      }
    }
  }

  /** A place in a block keeps its parent line in the whole. */
  lemma {:induction false} PartHangs(nodes: seq<Node>, lines: seq<Line>, part: seq<Line>, off: nat, k: nat)
    requires Part(lines, part, off) && k < |part| && HangsSomewhere(nodes, part, k)
    ensures HangsSomewhere(nodes, lines, off + k)
  {
    var j: nat :| j < k && Hangs(nodes, part, j, k);
    PartInside(lines, part, off, j, k);
    hide Inside, Follows, ById;
    assert Hangs(nodes, lines, off + j, off + k);
  }

  lemma {:induction false} PartSame(lines: seq<Line>, part: seq<Line>, off: nat, k: nat, j: nat)
    requires Part(lines, part, off) && k < j < |part|
    ensures SameList(part, k, j) <==> SameList(lines, off + k, off + j)
  {
    PartInside(lines, part, off, k, j);
    hide Inside;
    assert Indent(part, k) == Indent(lines, off + k) && Indent(part, j) == Indent(lines, off + j);
  }

  /** Nothing beyond a block continues a list in it, when the first line beyond it is indented less than the block. */
  lemma {:induction false} NotBeyond(lines: seq<Line>, part: seq<Line>, off: nat, k: nat, j: nat)
    requires Part(lines, part, off) && k < |part| && off + |part| <= j < |lines|
    requires Deep(part, Indent(lines, off + |part|) + 1)
    ensures !SameList(lines, off + k, j)
  {
    var edge := off + |part|;
    assert Indent(part, k) == Indent(lines, off + k);
    assert Inside(lines, off + k, j) && edge < j ==> Indent(lines, edge) >= Indent(lines, j);
  }

  /** So a list in a block goes on in the whole exactly when it goes on in the block. */
  lemma {:induction false} PartGoesOn(lines: seq<Line>, part: seq<Line>, off: nat, k: nat)
    requires Part(lines, part, off) && k < |part|
    requires off + |part| < |lines| ==> Deep(part, Indent(lines, off + |part|) + 1)
    ensures GoesOn(part, k) <==> GoesOn(lines, off + k)
  {
    hide SameList, Deep;
    if GoesOn(part, k) {
      var j :| k < j < |part| && SameList(part, k, j);
      PartSame(lines, part, off, k, j);
      assert SameList(lines, off + k, off + j);
    }
    if GoesOn(lines, off + k) {
      var j :| off + k < j < |lines| && SameList(lines, off + k, j);
      if j < off + |part| {
        PartSame(lines, part, off, k, j - off);
        assert SameList(part, k, j - off);
      } else {
        NotBeyond(lines, part, off, k, j);
      }
    }
  }

  /** One entry, what stands below it, and its later siblings. */
  predicate Joined(here: Line, below: seq<Line>, others: seq<Line>) {
    && Deep(below, |here.prefix| + 3) && Deep(others, |here.prefix|)
    && (others != [] ==> others[0].prefix == here.prefix)
    && (here.last <==> others == [])
  }

  lemma {:induction false} PartsOf(here: Line, below: seq<Line>, others: seq<Line>)
    ensures Part([here] + below + others, below, 1)
    ensures Part([here] + below + others, others, 1 + |below|)
  {}

  /** The list of the first entry goes on exactly when it has later siblings. */
  lemma {:induction false} FirstGoesOn(here: Line, below: seq<Line>, others: seq<Line>)
    requires Joined(here, below, others)
    ensures GoesOn([here] + below + others, 0) <==> others != []
  {
    var lines, n := [here] + below + others, 1 + |below|;
    PartsOf(here, below, others);
    if others != [] {
      forall i | 0 < i < n ensures Indent(lines, i) >= Indent(lines, n) {
        assert Indent(below, i - 1) >= |here.prefix| + 3;
      }
      assert Inside(lines, 0, n);
      assert SameList(lines, 0, n);
    } else {
      forall j | 0 < j < |lines| ensures !SameList(lines, 0, j) {
        assert Indent(below, j - 1) >= |here.prefix| + 3;
      }
    }
  }

  lemma {:induction false} BelowHangs(nodes: seq<Node>, here: Line, below: seq<Line>, others: seq<Line>, k: nat)
    requires Joined(here, below, others) && k < |below|
    requires below[k].prefix == here.prefix + Column(here) && Follows(nodes, below[k].id, Some(here.id))
    ensures HangsSomewhere(nodes, [here] + below + others, 1 + k)
  {
    var lines := [here] + below + others;
    PartsOf(here, below, others);
    hide Follows;
    forall i | 0 < i < 1 + k ensures Indent(lines, i) >= Indent(lines, 1 + k) {
      assert Indent(below, i - 1) >= |here.prefix| + 3;
    }
    assert Above(lines, 0, 1 + k);
    assert Hangs(nodes, lines, 0, 1 + k);
  }

  lemma {:induction false} JoinDrawn(nodes: seq<Node>, here: Line, below: seq<Line>, others: seq<Line>,
                                     parent: Option<string>, prefix: string)
    requires Joined(here, below, others) && here.prefix == prefix && Follows(nodes, here.id, parent)
    requires Drawn(nodes, below, Some(here.id), prefix + Column(here)) && Drawn(nodes, others, parent, prefix)
    ensures Drawn(nodes, [here] + below + others, parent, prefix)
  {
    var lines, n := [here] + below + others, 1 + |below|;
    FirstGoesOn(here, below, others);
    assert Row(nodes, lines, 0, parent, prefix);
    hide Row, Joined;
    forall k | 0 <= k < |lines| ensures Row(nodes, lines, k, parent, prefix) {
      if 0 < k < n {
        BelowRow(nodes, here, below, others, parent, prefix, k - 1);
      } else if n <= k {
        OtherRow(nodes, here, below, others, parent, prefix, k - n);
      }
    }
  }

  lemma {:induction false} BelowRow(nodes: seq<Node>, here: Line, below: seq<Line>, others: seq<Line>,
                                    parent: Option<string>, prefix: string, k: nat)
    requires Joined(here, below, others) && k < |below|
    requires Row(nodes, below, k, Some(here.id), here.prefix + Column(here))
    ensures Row(nodes, [here] + below + others, 1 + k, parent, prefix)
  {
    hide GoesOn, Deep, Follows, HangsSomewhere, Joined;
    var lines := [here] + below + others;
    PartsOf(here, below, others);
    BelowEdge(here, below, others);
    PartGoesOn(lines, below, 1, k);
    if HangsSomewhere(nodes, below, k) {
      PartHangs(nodes, lines, below, 1, k);
    } else {
      BelowHangs(nodes, here, below, others, k);
    }
  }

  lemma {:induction false} OtherRow(nodes: seq<Node>, here: Line, below: seq<Line>, others: seq<Line>,
                                    parent: Option<string>, prefix: string, k: nat)
    requires k < |others| && Row(nodes, others, k, parent, prefix)
    ensures Row(nodes, [here] + below + others, 1 + |below| + k, parent, prefix)
  {
    hide GoesOn, Deep, Follows, HangsSomewhere;
    var lines, n := [here] + below + others, 1 + |below|;
    PartsOf(here, below, others);
    PartGoesOn(lines, others, n, k);
    if HangsSomewhere(nodes, others, k) {
      PartHangs(nodes, lines, others, n, k);
    }
  }

  lemma {:induction false} BelowEdge(here: Line, below: seq<Line>, others: seq<Line>)
    requires Joined(here, below, others)
    ensures var lines := [here] + below + others;
            1 + |below| < |lines| ==> Deep(below, Indent(lines, 1 + |below|) + 1)
  {}

  lemma {:induction false} JoinInOrder(nodes: seq<Node>, here: Line, below: seq<Line>, others: seq<Line>)
    requires Joined(here, below, others) && InOrder(nodes, below) && InOrder(nodes, others)
    requires forall k | 0 <= k < |others| && Indent(others, k) == |here.prefix| :: Earlier(nodes, here.id, others[k].id)
    ensures InOrder(nodes, [here] + below + others)
  {
    var lines, n := [here] + below + others, 1 + |below|;
    PartsOf(here, below, others);
    BelowEdge(here, below, others);
    FirstIsEarlier(nodes, here, below, others);
    OrderOfParts(nodes, lines, below, others);
  }

  lemma {:induction false} OrderOfParts(nodes: seq<Node>, lines: seq<Line>, below: seq<Line>, others: seq<Line>)
    requires var n := 1 + |below|;
             && |lines| == n + |others|
             && Part(lines, below, 1) && Part(lines, others, n) && InOrder(nodes, below) && InOrder(nodes, others)
             && (n < |lines| ==> Deep(below, Indent(lines, n) + 1))
    requires forall j | 0 < j < |lines| && SameList(lines, 0, j) :: Earlier(nodes, lines[0].id, lines[j].id)
    ensures InOrder(nodes, lines)
  {
    var n := 1 + |below|;
    hide Earlier, SameList, Deep, Part;
    forall k, j | 0 <= k < j < |lines| && SameList(lines, k, j) ensures Earlier(nodes, lines[k].id, lines[j].id) {
      if 0 < k < n {
        PartInOrder(nodes, lines, below, 1, k - 1, j - 1);
      } else if n <= k {
        PartInOrder(nodes, lines, others, n, k - n, j - n);
      }
    }
  }

  lemma {:induction false} PartInOrder(nodes: seq<Node>, lines: seq<Line>, part: seq<Line>, off: nat, k: nat, j: nat)
    requires Part(lines, part, off) && InOrder(nodes, part) && k < |part| && k < j < |lines| - off
    requires off + |part| < |lines| ==> Deep(part, Indent(lines, off + |part|) + 1)
    requires SameList(lines, off + k, off + j)
    ensures Earlier(nodes, lines[off + k].id, lines[off + j].id)
  {
    if off + j < off + |part| {
      PartSame(lines, part, off, k, j);
    } else {
      NotBeyond(lines, part, off, k, off + j);
    }
  }

  lemma {:induction false} FirstIsEarlier(nodes: seq<Node>, here: Line, below: seq<Line>, others: seq<Line>)
    requires Joined(here, below, others)
    requires forall k | 0 <= k < |others| && Indent(others, k) == |here.prefix| :: Earlier(nodes, here.id, others[k].id)
    ensures var lines := [here] + below + others;
            forall j | 0 < j < |lines| && SameList(lines, 0, j) :: Earlier(nodes, here.id, lines[j].id)
  {
    var lines, n := [here] + below + others, 1 + |below|;
    hide Earlier;
    forall j | 0 < j < n ensures !SameList(lines, 0, j) {
      assert Indent(below, j - 1) >= |here.prefix| + 3;
    }
    forall j | n <= j < |lines| && SameList(lines, 0, j) ensures Earlier(nodes, here.id, lines[j].id) {
      assert Indent(others, j - n) == |here.prefix|;
    }
  }

  // ------------------------------------------------------------------ the printed tree

  /** The siblings stand in catalogue order. */
  predicate Listed(nodes: seq<Node>, siblings: seq<Node>) {
    forall i, j | 0 <= i < j < |siblings| :: Earlier(nodes, siblings[i].id, siblings[j].id)
  }

  predicate Shown(siblings: seq<Node>, id: string) {
    exists s :: s in siblings && s.id == id
  }

  /** The lines of siblings: indented at least this far, and exactly this far only for the siblings themselves. */
  predicate TopOnes(lines: seq<Line>, siblings: seq<Node>, prefix: string) {
    && Deep(lines, |prefix|)
    && (siblings != [] ==> lines != [] && lines[0].prefix == prefix)
    && (siblings == [] ==> lines == [])
    && forall k | 0 <= k < |lines| && Indent(lines, k) == |prefix| :: Shown(siblings, lines[k].id)
  }

  lemma {:induction false} EarlierMore(nodes: seq<Node>, a: string, b: string)
    requires nodes != []
    ensures var n := |nodes| - 1;
            Earlier(nodes[..n], a, b) || (Names(nodes[..n], a) && nodes[n].id == b) ==> Earlier(nodes, a, b)
  {
    var n := |nodes| - 1;
    if Earlier(nodes[..n], a, b) {
      var i, j :| 0 <= i < j < n && nodes[..n][i].id == a && nodes[..n][j].id == b;
      assert nodes[i].id == a && nodes[j].id == b;
    } else if Names(nodes[..n], a) && nodes[n].id == b {
      var i :| 0 <= i < n && nodes[..n][i].id == a;
      assert nodes[i].id == a;
    }
  }

  lemma {:induction false} ChildrenListed(nodes: seq<Node>, parent: Option<string>)
    ensures Listed(nodes, Children(nodes, parent))
  {
    if nodes != [] {
      var n := |nodes| - 1;
      var before, all := Children(nodes[..n], parent), Children(nodes, parent);
      ChildrenListed(nodes[..n], parent);
      assert all == before + if nodes[n].parent == parent then [nodes[n]] else [];
      hide Children, Earlier, Names;
      forall i, j | 0 <= i < j < |all| ensures Earlier(nodes, all[i].id, all[j].id) {
        EarlierMore(nodes, all[i].id, all[j].id);
        if j == |before| {
          NamesMember(nodes[..n], before[i]);
        }
      }
    }
  }

  lemma {:induction false} NamesMember(nodes: seq<Node>, c: Node)
    requires c in nodes
    ensures Names(nodes, c.id)
  {}

  lemma {:induction false} JoinTop(here: Line, below: seq<Line>, others: seq<Line>, siblings: seq<Node>, prefix: string)
    requires siblings != [] && here.id == siblings[0].id && here.prefix == prefix && Deep(below, |prefix| + 3)
    requires TopOnes(others, siblings[1..], prefix)
    ensures TopOnes([here] + below + others, siblings, prefix)
  {
    var lines, n := [here] + below + others, 1 + |below|;
    assert siblings[0] in siblings;
    forall k | 0 <= k < |lines| ensures Indent(lines, k) >= |prefix|
                                     && (Indent(lines, k) == |prefix| ==> Shown(siblings, lines[k].id)) {
      if 0 < k < n {
        assert Indent(below, k - 1) == Indent(lines, k);
      } else if n <= k {
        assert Indent(others, k - n) == Indent(lines, k);
      }
    }
  }

  lemma {:induction false} FirstOfAll(nodes: seq<Node>, others: seq<Line>, siblings: seq<Node>, prefix: string)
    requires siblings != [] && Listed(nodes, siblings) && TopOnes(others, siblings[1..], prefix)
    ensures forall k | 0 <= k < |others| && Indent(others, k) == |prefix| :: Earlier(nodes, siblings[0].id, others[k].id)
  {
    hide Earlier;
    forall k | 0 <= k < |others| && Indent(others, k) == |prefix| ensures Earlier(nodes, siblings[0].id, others[k].id) {
      assert Shown(siblings[1..], others[k].id);
      var j :| 0 <= j < |siblings| - 1 && siblings[1..][j].id == others[k].id;
      assert Earlier(nodes, siblings[0].id, siblings[1 + j].id);
    }
  }

  lemma {:induction false} RestListed(nodes: seq<Node>, siblings: seq<Node>)
    requires siblings != [] && Listed(nodes, siblings)
    ensures Listed(nodes, siblings[1..])
  {
    hide Earlier;
    var rest := siblings[1..];
    assert forall i | 0 <= i < |rest| :: rest[i] == siblings[1 + i];
  }

  lemma {:induction false} JoinAll(nodes: seq<Node>, siblings: seq<Node>, children: seq<Node>, here: Line,
                                   below: seq<Line>, others: seq<Line>, parent: Option<string>, prefix: string)
    requires siblings != [] && here == Line(prefix, |siblings| == 1, siblings[0].id) && Listed(nodes, siblings)
    requires Follows(nodes, here.id, parent)
    requires var next := prefix + Column(here);
             Drawn(nodes, below, Some(here.id), next) && InOrder(nodes, below) && TopOnes(below, children, next)
    requires Drawn(nodes, others, parent, prefix) && InOrder(nodes, others) && TopOnes(others, siblings[1..], prefix)
    ensures var lines := [here] + below + others;
            Drawn(nodes, lines, parent, prefix) && InOrder(nodes, lines) && TopOnes(lines, siblings, prefix)
  {
    hide Drawn, InOrder, Earlier, Follows, Shown;
    assert Joined(here, below, others);
    FirstOfAll(nodes, others, siblings, prefix);
    JoinTop(here, below, others, siblings, prefix);
    JoinDrawn(nodes, here, below, others, parent, prefix);
    JoinInOrder(nodes, here, below, others);
  }

  /** The block printed for siblings draws them below their parent, in catalogue order. */
  lemma {:induction false} PrintDraws(nodes: seq<Node>, siblings: seq<Node>, parent: Option<string>, prefix: string)
    requires GoodTree(nodes) && (parent.Some? ==> parent.value in ById(nodes)) && Listed(nodes, siblings)
    requires forall c | c in siblings :: c in nodes && c.parent == parent
    ensures var lines := Print(nodes, siblings, parent, prefix);
            Drawn(nodes, lines, parent, prefix) && InOrder(nodes, lines) && TopOnes(lines, siblings, prefix)
    decreases Below(nodes, Level(nodes, parent)), |siblings|
  {
    if siblings != [] {
      var c, rest := siblings[0], siblings[1..];
      var here := Line(prefix, |siblings| == 1, c.id);
      ChildLevel(nodes, c);
      ChildrenListed(nodes, Some(c.id));
      hide Drawn, InOrder, TopOnes, Listed, GoodTree, Level, Below, ById, Children;
      var children, next := Children(nodes, Some(c.id)), prefix + Column(here);
      var below, others := Print(nodes, children, Some(c.id), next), Print(nodes, rest, parent, prefix);
      assert Print(nodes, siblings, parent, prefix) == [here] + below + others;
      hide Print;
      PrintDraws(nodes, children, Some(c.id), next);
      RestListed(nodes, siblings);
      PrintDraws(nodes, rest, parent, prefix);
      JoinAll(nodes, siblings, children, here, below, others, parent, prefix);
    }
  }

  /** A line hangs below one line only. */
  lemma {:induction false} AboveIsOne(lines: seq<Line>, a: nat, b: nat, k: nat)
    requires k < |lines| && Above(lines, a, k) && Above(lines, b, k)
    ensures a == b
  {}

  /** The lines of one list hang below the same line. */
  lemma {:induction false} ListHangsTogether(lines: seq<Line>, a: nat, k: nat, j: nat)
    requires k < |lines| && Above(lines, a, k) && SameList(lines, k, j)
    ensures Above(lines, a, j)
  {
    forall i | a < i < j ensures Indent(lines, i) >= Indent(lines, j) {
      assert i < k ==> Indent(lines, i) >= Indent(lines, k);
    }
  }

  /**
   * The printed tree can be read back. A line that is not indented is a root. Any other line hangs below the
   * nearest line indented one level less: that is its parent, and its prefix continues the parent's column.
   * Its list goes on exactly when its branch says so, with siblings in catalogue order.
   */
  lemma {:induction false} TreeReadsBack(nodes: seq<Node>, k: nat)
    requires GoodTree(nodes) && k < |TreeLines(nodes)|
    ensures var lines := TreeLines(nodes);
            && lines[k].id in ById(nodes)
            && (lines[k].prefix == "" <==> ById(nodes)[lines[k].id].None?)
            && (lines[k].prefix != "" ==> exists j: nat | j < k :: Above(lines, j, k))
            && (forall j: nat | j < k && Above(lines, j, k) :: lines[k].prefix == lines[j].prefix + Column(lines[j])
                                                               && ById(nodes)[lines[k].id] == Some(lines[j].id))
            && (lines[k].last <==> forall j | k < j < |lines| :: !SameList(lines, k, j))
            && (forall j | k < j < |lines| && SameList(lines, k, j) ::
                  Follows(nodes, lines[j].id, ById(nodes)[lines[k].id]) && Earlier(nodes, lines[k].id, lines[j].id))
  {
    var lines := TreeLines(nodes);
    ChildrenListed(nodes, None);
    PrintDraws(nodes, Children(nodes, None), None, "");
    hide GoodTree, TreeLines, Print, Children, Earlier, TopOnes, ById;
    assert Row(nodes, lines, k, None, "");
    forall j: nat | j < k && Above(lines, j, k) ensures Hangs(nodes, lines, j, k) {
      var i: nat :| i < k && Hangs(nodes, lines, i, k);
      AboveIsOne(lines, i, j, k);
    }
    forall j | k < j < |lines| && SameList(lines, k, j) ensures Follows(nodes, lines[j].id, ById(nodes)[lines[k].id]) {
      SameParent(nodes, lines, k, j);
    }
  }

  lemma {:induction false} SameParent(nodes: seq<Node>, lines: seq<Line>, k: nat, j: nat)
    requires k < j < |lines| && SameList(lines, k, j)
    requires Row(nodes, lines, k, None, "") && Row(nodes, lines, j, None, "")
    ensures lines[k].id in ById(nodes) && Follows(nodes, lines[j].id, ById(nodes)[lines[k].id])
  {
    hide ById;
    if lines[k].prefix != "" {
      var a: nat :| a < k && Hangs(nodes, lines, a, k);
      var b: nat :| b < j && Hangs(nodes, lines, b, j);
      ListHangsTogether(lines, a, k, j);
      AboveIsOne(lines, a, b, j);
    }
  }

  // ------------------------------------------------------------------ the ends of the lists

  /** Does the catalogue list another entry with the same parent later on? */
  predicate HasLaterSibling(nodes: seq<Node>, id: string) {
    exists i, j | 0 <= i < j < |nodes| :: nodes[i].id == id && nodes[j].parent == nodes[i].parent
  }

  lemma {:induction false} LaterSiblingOf(nodes: seq<Node>, a: nat)
    requires DistinctIds(nodes) && a < |nodes| - 1
    ensures var n := |nodes| - 1;
            HasLaterSibling(nodes, nodes[a].id)
            <==> HasLaterSibling(nodes[..n], nodes[a].id) || nodes[n].parent == nodes[a].parent
  {
    var n, id := |nodes| - 1, nodes[a].id;
    if HasLaterSibling(nodes, id) && nodes[n].parent != nodes[a].parent {
      var x, y :| 0 <= x < y < |nodes| && nodes[x].id == id && nodes[y].parent == nodes[x].parent;
      assert nodes[..n][x].id == id && nodes[..n][y].parent == nodes[..n][x].parent;
    }
    if HasLaterSibling(nodes[..n], id) {
      var x, y :| 0 <= x < y < n && nodes[..n][x].id == id && nodes[..n][y].parent == nodes[..n][x].parent;
      assert nodes[x].id == id && nodes[y].parent == nodes[x].parent;
    }
  }

  /** Of the children of a parent, exactly the last has no later sibling. */
  predicate EndAtLast(nodes: seq<Node>, siblings: seq<Node>) {
    forall i | 0 <= i < |siblings| :: HasLaterSibling(nodes, siblings[i].id) <==> i + 1 < |siblings|
  }

  lemma {:induction false} ChildrenEndAtLast(nodes: seq<Node>, parent: Option<string>)
    requires DistinctIds(nodes)
    ensures EndAtLast(nodes, Children(nodes, parent))
  {
    if nodes != [] {
      var n := |nodes| - 1;
      var before, all := Children(nodes[..n], parent), Children(nodes, parent);
      DistinctPrefix(nodes, n);
      ChildrenEndAtLast(nodes[..n], parent);
      assert all == before + if nodes[n].parent == parent then [nodes[n]] else [];
      LastHasNone(nodes);
      hide Children, HasLaterSibling, DistinctIds;
      forall i | 0 <= i < |before| ensures HasLaterSibling(nodes, all[i].id) <==> i + 1 < |all| {
        assert before[i] in nodes[..n];
        var a :| 0 <= a < n && nodes[..n][a] == before[i];
        LaterSiblingOf(nodes, a);
      }
    }
  }

  lemma {:induction false} LastHasNone(nodes: seq<Node>)
    requires nodes != [] && DistinctIds(nodes)
    ensures !HasLaterSibling(nodes, nodes[|nodes| - 1].id)
  {}

  predicate BranchesOf(nodes: seq<Node>, lines: seq<Line>) {
    forall k | 0 <= k < |lines| :: lines[k].last <==> !HasLaterSibling(nodes, lines[k].id)
  }

  lemma {:induction false} JoinBranches(nodes: seq<Node>, here: Line, below: seq<Line>, others: seq<Line>)
    requires here.last <==> !HasLaterSibling(nodes, here.id)
    requires BranchesOf(nodes, below) && BranchesOf(nodes, others)
    ensures BranchesOf(nodes, [here] + below + others)
  {
    hide HasLaterSibling;
  }

  lemma {:induction false} PrintBranches(nodes: seq<Node>, siblings: seq<Node>, parent: Option<string>, prefix: string)
    requires GoodTree(nodes) && (parent.Some? ==> parent.value in ById(nodes)) && EndAtLast(nodes, siblings)
    requires forall c | c in siblings :: c in nodes && c.parent == parent
    ensures BranchesOf(nodes, Print(nodes, siblings, parent, prefix))
    decreases Below(nodes, Level(nodes, parent)), |siblings|
  {
    if siblings != [] {
      var c, rest := siblings[0], siblings[1..];
      var here := Line(prefix, |siblings| == 1, c.id);
      ChildLevel(nodes, c);
      ChildrenEndAtLast(nodes, Some(c.id));
      assert forall i | 0 <= i < |rest| :: rest[i] == siblings[1 + i];
      hide BranchesOf, HasLaterSibling, GoodTree, Level, Below, ById, Children;
      var children, next := Children(nodes, Some(c.id)), prefix + Column(here);
      var below, others := Print(nodes, children, Some(c.id), next), Print(nodes, rest, parent, prefix);
      assert Print(nodes, siblings, parent, prefix) == [here] + below + others;
      hide Print;
      PrintBranches(nodes, children, Some(c.id), next);
      PrintBranches(nodes, rest, parent, prefix);
      JoinBranches(nodes, here, below, others);
    }
  }

  /** A branch ends exactly at the entry after which the catalogue lists no sibling of it. */
  lemma {:induction false} BranchesEnd(nodes: seq<Node>, k: nat)
    requires GoodTree(nodes) && k < |TreeLines(nodes)|
    ensures var line := TreeLines(nodes)[k]; line.last <==> !HasLaterSibling(nodes, line.id)
  {
    ChildrenEndAtLast(nodes, None);
    PrintBranches(nodes, Children(nodes, None), None, "");
  }
}
