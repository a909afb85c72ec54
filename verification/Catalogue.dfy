/** The version catalogue as a tree: what validation accepts, and what the printed tree contains. */
module Catalogue {
  import opened Ids

  datatype Status = Released | Development | Planned

  /**
   * One entry. `named` says whether it has every key and its id is a version number, `complete`
   * whether it passes the checks of its other fields, which look at this entry alone.
   */
  datatype Node = Node(id: string, parent: Option<string>, status: Status, named: bool, complete: bool)

  /** The catalogue: whether its schema and repository are accepted, its entries, and the entry it says is under way. */
  datatype Data = Data(header: bool, nodes: seq<Node>, development: Option<string>)

  type Parents = map<string, Option<string>>

  /** What validation ends with; an ancestor that is missing surfaces as a key error of the lookup. */
  datatype Verdict =
    | Accepted(byId: Parents)
    | BadHeader
    | Empty
    | Unnamed(position: nat)
    | Duplicate(id: string)
    | Incomplete(id: string)
    | UnknownParent(id: string)
    | Cycle(id: string)
    | MissingKey(id: string)
    | WrongDevelopment

  // ------------------------------------------------------------------ what a forest is

  predicate DistinctIds(nodes: seq<Node>) {
    forall i, j | 0 <= i < j < |nodes| :: nodes[i].id != nodes[j].id
  }

  /** Each id with its parent; of two entries with one id, the later. */
  function ById(nodes: seq<Node>): Parents {
    if nodes == [] then map[]
    else ById(nodes[..|nodes| - 1])[nodes[|nodes| - 1].id := nodes[|nodes| - 1].parent]
  }

  predicate Closed(byId: Parents) {
    forall id | id in byId :: Parented(byId, id)
  }

  /** Climbing from `id` by parents ends at a root within `n` steps. */
  predicate Climbs(byId: Parents, id: string, n: nat)
    decreases n
  {
    id in byId && (byId[id].None? || (n > 0 && Climbs(byId, byId[id].value, n - 1)))
  }

  ghost predicate Rooted(byId: Parents, id: string) {
    exists n: nat :: Climbs(byId, id, n)
  }

  ghost predicate Forest(byId: Parents) {
    Closed(byId) && forall id | id in byId :: Rooted(byId, id)
  }

  lemma {:induction false} ClimbsMore(byId: Parents, id: string, n: nat, m: nat)
    requires Climbs(byId, id, n) && n <= m
    ensures Climbs(byId, id, m)
    decreases n
  {
    if byId[id].Some? {
      ClimbsMore(byId, byId[id].value, n - 1, m - 1);
    }
  }

  /** Nothing climbs out of a set that contains the parent of each of its members. */
  lemma {:induction false} NoWayOut(byId: Parents, trapped: set<string>, id: string, n: nat)
    requires id in trapped
    requires forall v | v in trapped :: v in byId && byId[v].Some? && byId[v].value in trapped
    ensures !Climbs(byId, id, n)
    decreases n
  {
    if n > 0 {
      NoWayOut(byId, trapped, byId[id].value, n - 1);
    }
  }

  // ------------------------------------------------------------------ validation

  lemma {:induction false} ByIdNames(nodes: seq<Node>)
    ensures forall id :: id in ById(nodes) <==> Names(nodes, id)
  {
    if nodes != [] {
      var n := |nodes| - 1;
      ByIdNames(nodes[..n]);
      forall id ensures id in ById(nodes) <==> Names(nodes, id) {
        if id in ById(nodes[..n]) {
          var i :| 0 <= i < n && nodes[..n][i].id == id;
          assert nodes[i].id == id;
        }
        if Names(nodes, id) {
          var i :| 0 <= i < |nodes| && nodes[i].id == id;
          assert i < n ==> nodes[..n][i].id == id;
        }
      }
    }
  }

  lemma {:induction false} ByIdHas(nodes: seq<Node>)
    ensures forall id :: id in ById(nodes) <==> Names(nodes, id)
    ensures DistinctIds(nodes) ==> forall i | 0 <= i < |nodes| :: nodes[i].id in ById(nodes)
                                                                   && ById(nodes)[nodes[i].id] == nodes[i].parent
  {
    ByIdNames(nodes);
    hide Names;
    if nodes != [] && DistinctIds(nodes) {
      var n := |nodes| - 1;
      DistinctPrefix(nodes, n);
      ByIdHas(nodes[..n]);
      assert forall i | 0 <= i < n :: nodes[..n][i] == nodes[i];
    }
  }

  predicate Names(nodes: seq<Node>, id: string) {
    exists i | 0 <= i < |nodes| :: nodes[i].id == id
  }

  lemma {:induction false} DistinctAppend(nodes: seq<Node>, node: Node)
    ensures DistinctIds(nodes + [node]) <==> DistinctIds(nodes) && !Names(nodes, node.id)
  {
    var all := nodes + [node];
    if DistinctIds(all) {
      assert forall i, j | 0 <= i < j < |nodes| :: nodes[i] == all[i] && nodes[j] == all[j];
      forall i | 0 <= i < |nodes| ensures nodes[i].id != node.id {
        assert all[i].id != all[|nodes|].id;
      }
    }
  }

  lemma {:induction false} DistinctPrefix(nodes: seq<Node>, n: nat)
    requires n <= |nodes|
    ensures DistinctIds(nodes) ==> DistinctIds(nodes[..n])
  {}

  predicate EntryChecks(nodes: seq<Node>) {
    forall i | 0 <= i < |nodes| :: nodes[i].named && nodes[i].complete
  }

  /** The first entry that is refused on its own or for its id is the one at `k`, for this reason. */
  predicate RefusedAt(nodes: seq<Node>, k: nat, v: Verdict)
    requires k < |nodes|
  {
    && DistinctIds(nodes[..k]) && EntryChecks(nodes[..k])
    && match v {
         case Unnamed(position) => !nodes[k].named && position == k
         case Duplicate(id) => nodes[k].named && nodes[k].id == id && Names(nodes[..k], id)
         case Incomplete(id) => nodes[k].named && nodes[k].id == id && !Names(nodes[..k], id) && !nodes[k].complete
         case _ => false
       }
  }

  /** How one more entry changes the two conditions. */
  lemma {:induction false} OneMoreEntry(nodes: seq<Node>, i: nat)
    requires i < |nodes|
    ensures DistinctIds(nodes[..i + 1]) <==> DistinctIds(nodes[..i]) && nodes[i].id !in ById(nodes[..i])
    ensures nodes[i].id in ById(nodes[..i]) <==> Names(nodes[..i], nodes[i].id)
    ensures EntryChecks(nodes[..i + 1]) <==> EntryChecks(nodes[..i]) && nodes[i].named && nodes[i].complete
    ensures ById(nodes[..i + 1]) == ById(nodes[..i])[nodes[i].id := nodes[i].parent]
    ensures DistinctIds(nodes) ==> DistinctIds(nodes[..i + 1])
    ensures EntryChecks(nodes) ==> EntryChecks(nodes[..i + 1])
  {
    ByIdHas(nodes[..i]);
    DistinctPrefix(nodes, i + 1);
    assert nodes[..i + 1][..i] == nodes[..i];
    assert nodes[..i + 1] == nodes[..i] + [nodes[i]];
    DistinctAppend(nodes[..i], nodes[i]);
    hide DistinctIds, Names;
  }

  method CollectIds(nodes: seq<Node>) returns (v: Verdict)
    ensures v.Accepted? <==> DistinctIds(nodes) && EntryChecks(nodes)
    ensures v.Accepted? ==> v.byId == ById(nodes)
    ensures !v.Accepted? ==> exists k: nat | k < |nodes| :: RefusedAt(nodes, k, v)
    ensures !v.Accepted? ==> v.Unnamed? || v.Duplicate? || v.Incomplete?
  {
    var byId: Parents := map[];
    DistinctNone();
    hide DistinctIds, EntryChecks, ById, Names;
    for i := 0 to |nodes|
      invariant byId == ById(nodes[..i]) && DistinctIds(nodes[..i]) && EntryChecks(nodes[..i])
    {
      OneMoreEntry(nodes, i);
      if !nodes[i].named {
        v := Unnamed(i);
        assert RefusedAt(nodes, i, v);
        return;
      }
      if nodes[i].id in byId {
        v := Duplicate(nodes[i].id);
        assert RefusedAt(nodes, i, v);
        return;
      }
      byId := byId[nodes[i].id := nodes[i].parent];
      if !nodes[i].complete {
        v := Incomplete(nodes[i].id);
        assert RefusedAt(nodes, i, v);
        return;
      }
    }
    assert nodes[..|nodes|] == nodes;
    v := Accepted(byId);
  }

  lemma {:induction false} DistinctNone()
    ensures DistinctIds([]) && EntryChecks([]) && ById([]) == map[]
  {}

  datatype Walk = Reached | Repeated(id: string) | Missing(id: string)

  /** `id` has `above` as its parent, or as the parent of its parent, and so on for `n` more steps. */
  predicate Reaches(byId: Parents, id: string, above: string, n: nat)
    decreases n
  {
    id in byId && byId[id].Some?
    && if n == 0 then byId[id].value == above else Reaches(byId, byId[id].value, above, n - 1)
  }

  ghost predicate HasAncestor(byId: Parents, id: string, above: string) {
    exists n: nat :: Reaches(byId, id, above, n)
  }

  lemma {:induction false} ReachesOn(byId: Parents, id: string, here: string, n: nat)
    requires Reaches(byId, id, here, n) && here in byId && byId[here].Some?
    ensures Reaches(byId, id, byId[here].value, n + 1)
    decreases n
  {
    if n > 0 {
      ReachesOn(byId, byId[id].value, here, n - 1);
    }
  }

  lemma {:induction false} AncestorsOn(byId: Parents, seen: set<string>, here: string)
    requires here in byId && byId[here].Some?
    requires forall v | v in seen :: HasAncestor(byId, v, here)
    ensures forall v | v in seen + {here} :: HasAncestor(byId, v, byId[here].value)
  {
    assert Reaches(byId, here, byId[here].value, 0);
    forall v | v in seen ensures HasAncestor(byId, v, byId[here].value) {
      var n: nat :| Reaches(byId, v, here, n);
      ReachesOn(byId, v, here, n);
    }
  }

  /** Climb from one entry, remembering what was seen: it ends, and says how. */
  method WalkUp(byId: Parents, tag: string) returns (w: Walk)
    requires tag in byId
    ensures w.Reached? <==> Rooted(byId, tag)
    ensures w.Repeated? ==> HasAncestor(byId, w.id, w.id) && (w.id == tag || HasAncestor(byId, tag, w.id))
    ensures w.Missing? ==> w.id !in byId && HasAncestor(byId, tag, w.id)
  {
    var seen: set<string> := {};
    var cursor := Some(tag);
    ghost var steps := 0;
    while cursor.Some?
      invariant cursor.Some? ==> forall n: nat :: Climbs(byId, cursor.value, n) ==> Climbs(byId, tag, n + steps)
      invariant cursor.Some? ==> forall v | v in seen :: HasAncestor(byId, v, cursor.value)
      invariant cursor.None? ==> Rooted(byId, tag)
      invariant seen <= byId.Keys
      invariant forall v | v in seen :: byId[v].Some? ==> byId[v].value in seen || cursor == byId[v]
      invariant cursor.Some? ==> forall v | v in seen :: byId[v].Some?
      invariant tag in seen || cursor == Some(tag)
      invariant forall n: nat :: cursor.Some? && !Climbs(byId, cursor.value, n) ==> !Climbs(byId, tag, n + steps)
      decreases byId.Keys - seen, cursor.Some?
    {
      var here := cursor.value;
      if here in seen {
        forall n: nat ensures !Climbs(byId, tag, n) {
          NoWayOut(byId, seen, tag, n);
        }
        return Repeated(here);
      }
      if here !in byId {
        NotRooted(byId, tag, here, steps);
        return Missing(here);
      }
      seen := seen + {here};
      cursor := byId[here];
      if cursor.Some? {
        ClimbOn(byId, tag, here, steps);
        AncestorsOn(byId, seen - {here}, here);
      } else {
        assert Climbs(byId, here, 0);
        assert Climbs(byId, tag, 0 + steps);
      }
      steps := steps + 1;
    }
    w := Reached;
  }

  lemma {:induction false} ClimbOn(byId: Parents, tag: string, here: string, steps: nat)
    requires here in byId && byId[here].Some?
    requires forall n: nat :: Climbs(byId, here, n) ==> Climbs(byId, tag, n + steps)
    requires forall n: nat :: !Climbs(byId, here, n) ==> !Climbs(byId, tag, n + steps)
    ensures forall n: nat :: Climbs(byId, byId[here].value, n) ==> Climbs(byId, tag, n + (steps + 1))
    ensures forall n: nat :: !Climbs(byId, byId[here].value, n) ==> !Climbs(byId, tag, n + (steps + 1))
  {
    forall n: nat
      ensures Climbs(byId, byId[here].value, n) <==> Climbs(byId, tag, n + (steps + 1))
    {
      assert Climbs(byId, here, n + 1) <==> Climbs(byId, byId[here].value, n);
      assert n + 1 + steps == n + (steps + 1);
      assert Climbs(byId, here, n + 1) ==> Climbs(byId, tag, n + 1 + steps);
      assert !Climbs(byId, here, n + 1) ==> !Climbs(byId, tag, n + 1 + steps);
    }
  }

  lemma {:induction false} NotRooted(byId: Parents, tag: string, here: string, steps: nat)
    requires here !in byId
    requires forall n: nat :: !Climbs(byId, here, n) ==> !Climbs(byId, tag, n + steps)
    ensures !Rooted(byId, tag)
  {
    forall n: nat ensures !Climbs(byId, tag, n) {
      if Climbs(byId, tag, n) {
        ClimbsMore(byId, tag, n, n + steps);
        assert !Climbs(byId, here, n);
      }
    }
  }

  predicate Parented(byId: Parents, id: string)
    requires id in byId
  {
    byId[id].None? || byId[id].value in byId
  }

  // ------------------------------------------------------------------ the entry under way

  /** The ids of the entries under development, in catalogue order. */
  function Active(nodes: seq<Node>): seq<string> {
    if nodes == [] then [] else
    var n := |nodes| - 1;
    Active(nodes[..n]) + if nodes[n].status.Development? then [nodes[n].id] else []
  }

  /** `development` names the one entry under development, or nothing when there is none. */
  predicate NamesActive(nodes: seq<Node>, development: Option<string>) {
    && (development.Some? ==> Names(nodes, development.value))
    && forall i | 0 <= i < |nodes| :: nodes[i].status.Development? <==> development == Some(nodes[i].id)
  }

  predicate IsActive(nodes: seq<Node>, id: string) {
    exists i | 0 <= i < |nodes| :: nodes[i].id == id && nodes[i].status.Development?
  }

  predicate NoRepeats(ids: seq<string>) {
    forall i, j | 0 <= i < |ids| && 0 <= j < |ids| && ids[i] == ids[j] :: i == j
  }

  lemma {:induction false} LastIsNew(nodes: seq<Node>)
    requires nodes != []
    ensures DistinctIds(nodes) ==> !IsActive(nodes[..|nodes| - 1], nodes[|nodes| - 1].id)
  {}

  lemma {:induction false} ActiveMembers(nodes: seq<Node>)
    ensures forall id :: id in Active(nodes) <==> IsActive(nodes, id)
    ensures DistinctIds(nodes) ==> NoRepeats(Active(nodes))
  {
    if nodes != [] {
      var n := |nodes| - 1;
      ActiveMembers(nodes[..n]);
      DistinctPrefix(nodes, n);
      forall id ensures IsActive(nodes, id) <==>
                        IsActive(nodes[..n], id) || (nodes[n].id == id && nodes[n].status.Development?) {
        if IsActive(nodes, id) {
          var i :| 0 <= i < |nodes| && nodes[i].id == id && nodes[i].status.Development?;
          assert i < n ==> nodes[..n][i].id == id;
        }
        if IsActive(nodes[..n], id) {
          var i :| 0 <= i < n && nodes[..n][i].id == id && nodes[..n][i].status.Development?;
          assert nodes[i].id == id;
        }
      }
      LastIsNew(nodes);
    }
  }

  lemma {:induction false} OnlyOne(ids: seq<string>, id: string)
    requires NoRepeats(ids)
    ensures ids == [id] <==> id in ids && forall k | 0 <= k < |ids| :: ids[k] == id
  {
    if id in ids && forall k | 0 <= k < |ids| :: ids[k] == id {
      assert ids[|ids| - 1] == ids[0];
    }
  }

  lemma {:induction false} HeadIn(ids: seq<string>)
    ensures ids != [] ==> ids[0] in ids
  {}

  /** The list of active ids is what `development` says exactly when it names the one entry under development. */
  lemma {:induction false} ActiveIs(nodes: seq<Node>, development: Option<string>)
    requires DistinctIds(nodes)
    ensures (Active(nodes) == match development case None => [] case Some(id) => [id])
            <==> NamesActive(nodes, development)
  {
    hide Active, NoRepeats;
    var active := Active(nodes);
    ActiveMembers(nodes);
    forall i | 0 <= i < |nodes| ensures nodes[i].id in active <==> nodes[i].status.Development? {
      if IsActive(nodes, nodes[i].id) {
        var k :| 0 <= k < |nodes| && nodes[k].id == nodes[i].id && nodes[k].status.Development?;
        assert k == i;
      }
    }
    HeadIn(active);
    if development.Some? {
      OnlyOne(active, development.value);
      forall k | 0 <= k < |active| ensures active[k] in active && IsActive(nodes, active[k]) {
        assert active[k] in active;
      }
    }
  }

  // ------------------------------------------------------------------ the whole validation

  ghost predicate Acceptable(data: Data) {
    && data.header && data.nodes != [] && EntryChecks(data.nodes)
    && DistinctIds(data.nodes) && Forest(ById(data.nodes))
    && NamesActive(data.nodes, data.development)
  }

  /** The entries before `k` climb to a root, and the one at `k` does not, for this reason. */
  ghost predicate LostAt(nodes: seq<Node>, k: nat, v: Verdict)
    requires k < |nodes|
  {
    var byId, id := ById(nodes), nodes[k].id;
    && (forall i | 0 <= i < k :: Rooted(byId, nodes[i].id))
    && id in byId
    && match v {
         case UnknownParent(tag) => tag == id && !Parented(byId, id)
         case Cycle(at) => HasAncestor(byId, at, at) && (at == id || HasAncestor(byId, id, at))
         case MissingKey(lost) => Parented(byId, id) && lost !in byId && HasAncestor(byId, id, lost)
         case _ => false
       }
  }

  ghost predicate Explains(data: Data, v: Verdict) {
    match v
    case Accepted(byId) => Acceptable(data) && byId == ById(data.nodes)
    case BadHeader => !data.header
    case Empty => data.header && data.nodes == []
    case Unnamed(_) => data.header && exists k: nat | k < |data.nodes| :: RefusedAt(data.nodes, k, v)
    case Duplicate(_) => data.header && exists k: nat | k < |data.nodes| :: RefusedAt(data.nodes, k, v)
    case Incomplete(_) => data.header && exists k: nat | k < |data.nodes| :: RefusedAt(data.nodes, k, v)
    case WrongDevelopment =>
      && data.header && EntryChecks(data.nodes) && DistinctIds(data.nodes) && Forest(ById(data.nodes))
      && !NamesActive(data.nodes, data.development)
    case _ =>
      && data.header && EntryChecks(data.nodes) && DistinctIds(data.nodes)
      && exists k: nat | k < |data.nodes| :: LostAt(data.nodes, k, v)
  }

  /** Climb from every entry in turn; the first that does not come to a root is named. */
  method CheckParents(nodes: seq<Node>) returns (v: Verdict)
    requires DistinctIds(nodes)
    ensures v.Accepted? <==> Forest(ById(nodes))
    ensures v.Accepted? ==> v.byId == ById(nodes)
    ensures !v.Accepted? ==> exists k: nat | k < |nodes| :: LostAt(nodes, k, v)
    ensures !v.Accepted? ==> v.UnknownParent? || v.Cycle? || v.MissingKey?
  {
    hide DistinctIds, HasAncestor, Rooted;
    var byId := ById(nodes);
    ByIdHas(nodes);
    hide ById;
    for i := 0 to |nodes|
      invariant forall k | 0 <= k < i :: Parented(byId, nodes[k].id) && Rooted(byId, nodes[k].id)
    {
      var tag := nodes[i].id;
      if !Parented(byId, tag) {
        v := UnknownParent(tag);
        assert LostAt(nodes, i, v);
        return;
      }
      var walk := WalkUp(byId, tag);
      match walk {
        case Reached =>
        case Repeated(id) =>
          v := Cycle(id);
          assert LostAt(nodes, i, v);
          return;
        case Missing(id) =>
          v := MissingKey(id);
          assert LostAt(nodes, i, v);
          return;
      }
    }
    v := Accepted(byId);
  }

  /** Accepts exactly the non-empty forests with distinct ids, sound entries and one named entry under way at most. */
  method Validate(data: Data) returns (v: Verdict)
    ensures v.Accepted? <==> Acceptable(data)
    ensures Explains(data, v)
  {
    hide EntryChecks, NamesActive, Active, DistinctIds, Forest, RefusedAt, LostAt, ById;
    if !data.header {
      return BadHeader;
    }
    if data.nodes == [] {
      return Empty;
    }
    v := CollectIds(data.nodes);
    if !v.Accepted? {
      return;
    }
    v := CheckParents(data.nodes);
    if !v.Accepted? {
      return;
    }
    ActiveIs(data.nodes, data.development);
    if Active(data.nodes) != (match data.development case None => [] case Some(id) => [id]) {
      return WrongDevelopment;
    }
  }

  // ------------------------------------------------------------------ depth

  /** How many steps up the root is, for a climb known to end. */
  function Steps(byId: Parents, id: string, n: nat): (d: nat)
    requires Climbs(byId, id, n)
    ensures d <= n
    decreases n
  {
    if byId[id].None? then 0 else 1 + Steps(byId, byId[id].value, n - 1)
  }

  lemma {:induction false} StepsAgree(byId: Parents, id: string, n: nat, m: nat)
    requires Climbs(byId, id, n) && Climbs(byId, id, m)
    ensures Steps(byId, id, n) == Steps(byId, id, m)
    decreases n
  {
    if byId[id].Some? {
      StepsAgree(byId, byId[id].value, n - 1, m - 1);
    }
  }

  ghost function Depth(byId: Parents, id: string): nat
    requires Rooted(byId, id)
  {
    var n: nat :| Climbs(byId, id, n);
    Steps(byId, id, n)
  }

  lemma {:induction false} DepthIs(byId: Parents, id: string, n: nat)
    requires Climbs(byId, id, n)
    ensures Rooted(byId, id) && Depth(byId, id) == Steps(byId, id, n)
  {
    var m: nat :| Climbs(byId, id, m) && Depth(byId, id) == Steps(byId, id, m);
    StepsAgree(byId, id, n, m);
  }

  lemma {:induction false} DepthStep(byId: Parents, id: string)
    requires Rooted(byId, id)
    ensures byId[id].None? ==> Depth(byId, id) == 0
    ensures byId[id].Some? ==> Rooted(byId, byId[id].value) && Depth(byId, id) == 1 + Depth(byId, byId[id].value)
  {
    var n: nat :| Climbs(byId, id, n);
    DepthIs(byId, id, n);
    if byId[id].Some? {
      DepthIs(byId, byId[id].value, n - 1);
    }
  }

  // ------------------------------------------------------------------ printing

  datatype Line = Line(prefix: string, last: bool, id: string)

  const TRUNK := "\U{2502}  "
  const BLANK := "   "

  /** The entries directly below `parent`, in catalogue order. */
  function Children(nodes: seq<Node>, parent: Option<string>): (children: seq<Node>)
    ensures forall c | c in children :: c in nodes && c.parent == parent
  {
    if nodes == [] then [] else
    var n := |nodes| - 1;
    Children(nodes[..n], parent) + if nodes[n].parent == parent then [nodes[n]] else []
  }

  ghost predicate GoodTree(nodes: seq<Node>) {
    DistinctIds(nodes) && Forest(ById(nodes))
  }

  /** How deep the children of `parent` lie. */
  ghost function Level(nodes: seq<Node>, parent: Option<string>): nat
    requires GoodTree(nodes) && (parent.Some? ==> parent.value in ById(nodes))
  {
    if parent.None? then 0 else 1 + Depth(ById(nodes), parent.value)
  }

  /** The entries at that depth or deeper: what is left to print below. */
  ghost function Below(nodes: seq<Node>, level: nat): set<string>
    requires GoodTree(nodes)
  {
    set id | id in ById(nodes) && Depth(ById(nodes), id) >= level
  }

  lemma {:induction false} ChildLevel(nodes: seq<Node>, c: Node)
    requires GoodTree(nodes) && c in nodes
    ensures c.id in ById(nodes) && ById(nodes)[c.id] == c.parent
    ensures c.parent.Some? ==> c.parent.value in ById(nodes)
    ensures Depth(ById(nodes), c.id) == Level(nodes, c.parent)
    ensures Below(nodes, Level(nodes, Some(c.id))) < Below(nodes, Level(nodes, c.parent))
  {
    ByIdHas(nodes);
    DepthStep(ById(nodes), c.id);
    assert c.id in Below(nodes, Level(nodes, c.parent));
    assert c.id !in Below(nodes, Level(nodes, Some(c.id)));
  }

  /** Siblings one after the other, each followed by what lies below it. */
  ghost function Print(nodes: seq<Node>, siblings: seq<Node>, parent: Option<string>, prefix: string): seq<Line>
    requires GoodTree(nodes) && (parent.Some? ==> parent.value in ById(nodes))
    requires forall c | c in siblings :: c in nodes && c.parent == parent
    decreases Below(nodes, Level(nodes, parent)), |siblings|
  {
    if siblings == [] then [] else
    var c, last := siblings[0], |siblings| == 1;
    ChildLevel(nodes, c);
    [Line(prefix, last, c.id)]
    + Print(nodes, Children(nodes, Some(c.id)), Some(c.id), prefix + if last then BLANK else TRUNK)
    + Print(nodes, siblings[1..], parent, prefix)
  }

  ghost function TreeLines(nodes: seq<Node>): seq<Line>
    requires GoodTree(nodes)
  {
    Print(nodes, Children(nodes, None), None, "")
  }

  class Printer {
    var lines: seq<Line>

    constructor ()
      ensures lines == []
    {
      lines := [];
    }

    /** The recursion of the program: list the children, then go below each in turn. It ends. */
    method Visit(nodes: seq<Node>, parent: Option<string>, prefix: string)
      requires GoodTree(nodes) && (parent.Some? ==> parent.value in ById(nodes))
      modifies this
      ensures lines == old(lines) + Print(nodes, Children(nodes, parent), parent, prefix)
      decreases Below(nodes, Level(nodes, parent))
    {
      hide Print, Children, Level, Below;
      var children := Children(nodes, parent);
      for index := 0 to |children|
        invariant lines + Print(nodes, children[index..], parent, prefix)
                  == old(lines) + Print(nodes, children, parent, prefix)
      {
        var node := children[index];
        var last := index == |children| - 1;
        ChildLevel(nodes, node);
        ghost var before := lines;
        lines := lines + [Line(prefix, last, node.id)];
        Visit(nodes, Some(node.id), prefix + if last then BLANK else TRUNK);
        PrintOne(nodes, children, index, parent, prefix, before, lines);
      }
      PrintNone(nodes, parent, prefix);
      assert children[|children|..] == [];
    }
  }

  lemma {:induction false} PrintNone(nodes: seq<Node>, parent: Option<string>, prefix: string)
    requires GoodTree(nodes) && (parent.Some? ==> parent.value in ById(nodes))
    ensures Print(nodes, [], parent, prefix) == []
  {}

  lemma {:induction false} PrintOne(nodes: seq<Node>, siblings: seq<Node>, i: nat, parent: Option<string>,
                                    prefix: string,
                 before: seq<Line>, after: seq<Line>)
    requires GoodTree(nodes) && (parent.Some? ==> parent.value in ById(nodes)) && i < |siblings|
    requires forall c | c in siblings :: c in nodes && c.parent == parent
    requires siblings[i].id in ById(nodes)
    requires var last := i == |siblings| - 1;
             after == before + [Line(prefix, last, siblings[i].id)]
                      + Print(nodes, Children(nodes, Some(siblings[i].id)), Some(siblings[i].id),
                              prefix + if last then BLANK else TRUNK)
    ensures after + Print(nodes, siblings[i + 1..], parent, prefix)
            == before + Print(nodes, siblings[i..], parent, prefix)
  {
    var rest := siblings[i..];
    assert rest[0] == siblings[i] && rest[1..] == siblings[i + 1..];
    var here := [Line(prefix, |rest| == 1, rest[0].id)];
    var below := Print(nodes, Children(nodes, Some(rest[0].id)), Some(rest[0].id),
                       prefix + if |rest| == 1 then BLANK else TRUNK);
    var others := Print(nodes, rest[1..], parent, prefix);
    assert Print(nodes, rest, parent, prefix) == here + below + others;
    hide *;
    Regroup(before, here, below, others);
  }

  lemma {:induction false} Regroup(a: seq<Line>, b: seq<Line>, c: seq<Line>, d: seq<Line>)
    ensures a + b + c + d == a + (b + c + d)
  {}

  /** Validate, then print: the lines of an accepted catalogue, and none of a refused one. */
  method PrintTree(data: Data) returns (v: Verdict, lines: seq<Line>)
    ensures Explains(data, v) && (v.Accepted? <==> Acceptable(data))
    ensures v.Accepted? ==> GoodTree(data.nodes) && lines == TreeLines(data.nodes)
    ensures !v.Accepted? ==> lines == []
  {
    lines := [];
    v := Validate(data);
    if v.Accepted? {
      var printer := new Printer();
      printer.Visit(data.nodes, None, "");
      lines := printer.lines;
    }
  }

  // ------------------------------------------------------------------ once each

  function Count(lines: seq<Line>, id: string): nat {
    if lines == [] then 0 else Count(lines[..|lines| - 1], id) + if lines[|lines| - 1].id == id then 1 else 0
  }

  lemma {:induction false} CountConcat(a: seq<Line>, b: seq<Line>, id: string)
    ensures Count(a + b, id) == Count(a, id) + Count(b, id)
  {
    if b == [] {
      assert a + b == a;
    } else {
      CountConcat(a, b[..|b| - 1], id);
      assert (a + b)[..|a + b| - 1] == a + b[..|b| - 1];
    }
  }

  /** Is `id` this entry, or somewhere below it? */
  ghost predicate Within(byId: Parents, id: string, top: string)
    requires Rooted(byId, id)
    decreases Depth(byId, id)
  {
    DepthStep(byId, id);
    id == top || (byId[id].Some? && Within(byId, byId[id].value, top))
  }

  ghost predicate UnderParent(byId: Parents, id: string, parent: Option<string>)
    requires Rooted(byId, id)
  {
    DepthStep(byId, id);
    parent.None? || (byId[id].Some? && Within(byId, byId[id].value, parent.value))
  }

  lemma {:induction false} WithinIsDeeper(byId: Parents, id: string, top: string)
    requires Rooted(byId, id) && Within(byId, id, top)
    ensures Rooted(byId, top) && Depth(byId, top) <= Depth(byId, id)
    ensures Depth(byId, top) == Depth(byId, id) ==> id == top
    decreases Depth(byId, id)
  {
    DepthStep(byId, id);
    if id != top {
      WithinIsDeeper(byId, byId[id].value, top);
    }
  }

  /** Of entries at one depth, an entry lies within at most one. */
  lemma {:induction false} WithinOne(byId: Parents, id: string, a: string, b: string)
    requires Rooted(byId, id) && Within(byId, id, a) && Within(byId, id, b)
    requires Rooted(byId, a) && Rooted(byId, b) && Depth(byId, a) == Depth(byId, b)
    ensures a == b
    decreases Depth(byId, id)
  {
    DepthStep(byId, id);
    WithinIsDeeper(byId, id, a);
    WithinIsDeeper(byId, id, b);
    if id != a && id != b {
      WithinOne(byId, byId[id].value, a, b);
    }
  }

  /** What lies under `parent` lies within exactly one of its children, and nothing else does. */
  lemma {:induction false} ThroughAChild(byId: Parents, id: string, parent: Option<string>) returns (c: string)
    requires Rooted(byId, id) && UnderParent(byId, id, parent)
    ensures Within(byId, id, c) && c in byId && byId[c] == parent
    decreases Depth(byId, id)
  {
    DepthStep(byId, id);
    if byId[id] == parent {
      c := id;
    } else {
      var up := byId[id].value;
      DepthStep(byId, up);
      c := ThroughAChild(byId, up, parent);
    }
  }

  lemma {:induction false} ChildIsUnder(byId: Parents, id: string, c: string)
    requires Rooted(byId, id) && Within(byId, id, c) && c in byId
    ensures UnderParent(byId, id, byId[c])
    decreases Depth(byId, id)
  {
    DepthStep(byId, id);
    if id != c {
      var up := byId[id].value;
      ChildIsUnder(byId, up, c);
      DepthStep(byId, up);
      if byId[c].Some? {
        assert Within(byId, up, byId[c].value);
      }
    } else if byId[c].Some? {
      DepthStep(byId, byId[c].value);
    }
  }

  lemma {:induction false} ChildrenAre(nodes: seq<Node>, parent: Option<string>)
    ensures forall c | c in nodes && c.parent == parent :: c in Children(nodes, parent)
  {
    if nodes != [] {
      var n := |nodes| - 1;
      ChildrenAre(nodes[..n], parent);
      assert nodes == nodes[..n] + [nodes[n]];
    }
  }

  lemma {:induction false} ChildrenDistinct(nodes: seq<Node>, parent: Option<string>)
    requires DistinctIds(nodes)
    ensures DistinctIds(Children(nodes, parent))
  {
    hide DistinctIds;
    if nodes == [] {
      DistinctNone();
    } else {
      var n := |nodes| - 1;
      var before := Children(nodes[..n], parent);
      DistinctPrefix(nodes, n);
      ChildrenDistinct(nodes[..n], parent);
      assert nodes == nodes[..n] + [nodes[n]];
      DistinctAppend(nodes[..n], nodes[n]);
      DistinctAppend(before, nodes[n]);
      assert before + [] == before;
      ChildrenNames(nodes[..n], parent, nodes[n].id);
    }
  }

  lemma {:induction false} ChildrenNames(nodes: seq<Node>, parent: Option<string>, id: string)
    ensures Names(Children(nodes, parent), id) ==> Names(nodes, id)
  {
    var children := Children(nodes, parent);
    if Names(children, id) {
      var i :| 0 <= i < |children| && children[i].id == id;
      assert children[i] in children;
      var k :| 0 <= k < |nodes| && nodes[k] == children[i];
    }
  }

  /** Some sibling is this entry or has it below. */
  ghost predicate WithinSome(nodes: seq<Node>, id: string, siblings: seq<Node>)
    requires Rooted(ById(nodes), id)
  {
    exists i | 0 <= i < |siblings| :: Within(ById(nodes), id, siblings[i].id)
  }

  /** Siblings print an entry once when it is within one of them, and not at all otherwise. */
  lemma {:induction false} PrintCounts(nodes: seq<Node>, siblings: seq<Node>, parent: Option<string>,
                                       prefix: string, id: string)
    requires GoodTree(nodes) && (parent.Some? ==> parent.value in ById(nodes)) && id in ById(nodes)
    requires forall c | c in siblings :: c in nodes && c.parent == parent
    requires DistinctIds(siblings)
    ensures Count(Print(nodes, siblings, parent, prefix), id) == if WithinSome(nodes, id, siblings) then 1 else 0
    decreases Below(nodes, Level(nodes, parent)), |siblings|
  {
    if siblings != [] {
      hide Within, UnderParent, GoodTree, WithinSome, DistinctIds;
      var c, last := siblings[0], |siblings| == 1;
      assert c in siblings;
      ChildLevel(nodes, c);
      var rest, children := siblings[1..], Children(nodes, Some(c.id));
      var next := prefix + if last then BLANK else TRUNK;
      SiblingsDistinct(nodes, siblings, c);
      PrintCounts(nodes, children, Some(c.id), next, id);
      PrintCounts(nodes, rest, parent, prefix, id);
      BelowOrHere(nodes, c, id);
      FirstOrRest(nodes, siblings, parent, id);
      CountThree(Line(prefix, last, c.id), Print(nodes, children, Some(c.id), next), Print(nodes, rest, parent, prefix), id);
    } else {
      NotWithinNone(nodes, id);
    }
  }

  lemma {:induction false} NotWithinNone(nodes: seq<Node>, id: string)
    requires Rooted(ById(nodes), id)
    ensures !WithinSome(nodes, id, [])
  {}

  lemma {:induction false} SiblingsDistinct(nodes: seq<Node>, siblings: seq<Node>, c: Node)
    requires GoodTree(nodes) && DistinctIds(siblings) && siblings != []
    ensures DistinctIds(siblings[1..]) && DistinctIds(Children(nodes, Some(c.id)))
  {
    ChildrenDistinct(nodes, Some(c.id));
    var rest := siblings[1..];
    assert forall i, j | 0 <= i < j < |rest| :: rest[i] == siblings[i + 1] && rest[j] == siblings[j + 1];
  }

  lemma {:induction false} CountThree(here: Line, below: seq<Line>, others: seq<Line>, id: string)
    ensures Count([here] + below + others, id) == (if id == here.id then 1 else 0) + Count(below, id) + Count(others, id)
  {
    CountConcat([here], below, id);
    CountConcat([here] + below, others, id);
    assert [here][..0] == [];
  }

  /** Within an entry means: it, or within one of its children, and not both. */
  lemma {:induction false} BelowOrHere(nodes: seq<Node>, c: Node, id: string)
    requires GoodTree(nodes) && c in nodes && id in ById(nodes)
    ensures Within(ById(nodes), id, c.id) <==> id == c.id || WithinSome(nodes, id, Children(nodes, Some(c.id)))
    ensures id == c.id ==> !WithinSome(nodes, id, Children(nodes, Some(c.id)))
  {
    hide Children, WithinSome;
    if WithinSome(nodes, id, Children(nodes, Some(c.id))) {
      BelowIsWithin(nodes, c, id);
    } else if Within(ById(nodes), id, c.id) && id != c.id {
      WithinIsBelow(nodes, c, id);
    }
  }

  lemma {:induction false} BelowIsWithin(nodes: seq<Node>, c: Node, id: string)
    requires GoodTree(nodes) && c in nodes && id in ById(nodes)
    requires WithinSome(nodes, id, Children(nodes, Some(c.id)))
    ensures Within(ById(nodes), id, c.id) && id != c.id
  {
    var byId, children := ById(nodes), Children(nodes, Some(c.id));
    var i :| 0 <= i < |children| && Within(byId, id, children[i].id);
    assert children[i] in children;
    ChildLevel(nodes, children[i]);
    ChildIsUnder(byId, id, children[i].id);
    WithinIsDeeper(byId, id, children[i].id);
    DepthStep(byId, children[i].id);
    DepthStep(byId, id);
  }

  lemma {:induction false} WithinIsBelow(nodes: seq<Node>, c: Node, id: string)
    requires GoodTree(nodes) && c in nodes && id in ById(nodes)
    requires Within(ById(nodes), id, c.id) && id != c.id
    ensures WithinSome(nodes, id, Children(nodes, Some(c.id)))
  {
    var byId := ById(nodes);
    DepthStep(byId, id);
    var d := ThroughAChild(byId, id, Some(c.id));
    ChildIsListed(nodes, d, Some(c.id), id);
  }

  lemma {:induction false} ChildIsListed(nodes: seq<Node>, d: string, parent: Option<string>, id: string)
    requires GoodTree(nodes) && d in ById(nodes) && ById(nodes)[d] == parent && id in ById(nodes)
    requires Within(ById(nodes), id, d)
    ensures WithinSome(nodes, id, Children(nodes, parent))
  {
    ByIdHas(nodes);
    var k :| 0 <= k < |nodes| && nodes[k].id == d;
    ChildrenAre(nodes, parent);
    assert nodes[k] in Children(nodes, parent);
    var i :| 0 <= i < |Children(nodes, parent)| && Children(nodes, parent)[i] == nodes[k];
    assert Within(ById(nodes), id, Children(nodes, parent)[i].id);
  }

  /** An entry within the first of several siblings is within none of the others. */
  lemma {:induction false} FirstOrRest(nodes: seq<Node>, siblings: seq<Node>, parent: Option<string>, id: string)
    requires GoodTree(nodes) && siblings != [] && DistinctIds(siblings) && id in ById(nodes)
    requires forall c | c in siblings :: c in nodes && c.parent == parent
    ensures WithinSome(nodes, id, siblings) <==> Within(ById(nodes), id, siblings[0].id) || WithinSome(nodes, id, siblings[1..])
    ensures !(Within(ById(nodes), id, siblings[0].id) && WithinSome(nodes, id, siblings[1..]))
  {
    var byId := ById(nodes);
    var rest := siblings[1..];
    if WithinSome(nodes, id, rest) {
      var i :| 0 <= i < |rest| && Within(byId, id, rest[i].id);
      assert Within(byId, id, siblings[i + 1].id);
      if Within(byId, id, siblings[0].id) {
        assert siblings[0] in siblings && siblings[i + 1] in siblings;
        ChildLevel(nodes, siblings[0]);
        ChildLevel(nodes, siblings[i + 1]);
        WithinOne(byId, id, siblings[0].id, siblings[i + 1].id);
        assert false;
      }
    }
    if WithinSome(nodes, id, siblings) && !Within(byId, id, siblings[0].id) {
      var i :| 0 <= i < |siblings| && Within(byId, id, siblings[i].id);
      assert Within(byId, id, rest[i - 1].id);
    }
  }

  /** Every version of an accepted catalogue is printed exactly once, and nothing else is. */
  lemma {:induction false} EachVersionOnce(nodes: seq<Node>, id: string)
    requires GoodTree(nodes)
    ensures Count(TreeLines(nodes), id) == if id in ById(nodes) then 1 else 0
  {
    var roots := Children(nodes, None);
    ChildrenAre(nodes, None);
    ChildrenDistinct(nodes, None);
    if id in ById(nodes) {
      PrintCounts(nodes, roots, None, "", id);
      ByIdHas(nodes);
      var byId := ById(nodes);
      assert UnderParent(byId, id, None);
      var d := ThroughAChild(byId, id, None);
      ChildIsListed(nodes, d, None, id);
    } else {
      PrintOnlyIds(nodes, roots, None, "", id);
    }
  }

  lemma {:induction false} PrintOnlyIds(nodes: seq<Node>, siblings: seq<Node>, parent: Option<string>,
                                        prefix: string, id: string)
    requires GoodTree(nodes) && (parent.Some? ==> parent.value in ById(nodes)) && id !in ById(nodes)
    requires forall c | c in siblings :: c in nodes && c.parent == parent
    ensures Count(Print(nodes, siblings, parent, prefix), id) == 0
    decreases Below(nodes, Level(nodes, parent)), |siblings|
  {
    if siblings != [] {
      var c, last := siblings[0], |siblings| == 1;
      assert c in siblings;
      ChildLevel(nodes, c);
      var children := Children(nodes, Some(c.id));
      var next := prefix + if last then BLANK else TRUNK;
      PrintOnlyIds(nodes, children, Some(c.id), next, id);
      PrintOnlyIds(nodes, siblings[1..], parent, prefix, id);
      CountThree(Line(prefix, last, c.id), Print(nodes, children, Some(c.id), next),
                 Print(nodes, siblings[1..], parent, prefix), id);
    }
  }
}
