/** Facts about the list of rules: sorting, replacing and standing down. */
module Rules {
  import opened Ids
  import opened Engine

  ghost predicate DistinctIds(rules: seq<Rule>) {
    forall i, j | 0 <= i < j < |rules| :: rules[i].id != rules[j].id
  }

  ghost predicate SortedRules(rules: seq<Rule>) {
    forall i, j | 0 <= i < j < |rules| :: RuleLeq(rules[i], rules[j])
  }

  /** At most one enabled rule per target. */
  ghost predicate OneOwner(rules: seq<Rule>) {
    forall i, j | 0 <= i < j < |rules| && rules[i].enabled && rules[j].enabled :: rules[i].target != rules[j].target
  }

  /** The rules a report leaves in memory. */
  function Loaded(report: seq<Rule>): seq<Rule> {
    ResolveConflicts(SortRules(SortRules(report)))
  }

  /** Every enabled rule drives the channel that the first rule with its id names. */
  ghost predicate Unambiguous(rules: seq<Rule>) {
    forall r | r in rules && r.enabled :: rules[FindFirst(rules, r)].target == r.target
  }

  /** Position of the first rule that shares the id of a listed rule. */
  function FindFirst(rules: seq<Rule>, r: Rule): (i: nat)
    requires r in rules
    ensures i < |rules| && i == FindRule(rules, r.id)
  {
    FindRule(rules, r.id)
  }

  lemma {:induction false} RuleLeqTotal(a: Rule, b: Rule)
    ensures RuleLeq(a, b) || RuleLeq(b, a)
  {
    IdLeqTotal(a.id, b.id);
  }

  lemma {:induction false} RuleLeqTransitive(a: Rule, b: Rule, c: Rule)
    requires RuleLeq(a, b) && RuleLeq(b, c)
    ensures RuleLeq(a, c)
  {
    if a.priority == b.priority == c.priority {
      IdLeqTransitive(a.id, b.id, c.id);
    }
  }

  lemma {:induction false} InsertMembers(r: Rule, rules: seq<Rule>)
    ensures |Insert(r, rules)| == |rules| + 1
    ensures multiset(Insert(r, rules)) == multiset(rules) + multiset{r}
    ensures forall q :: q in Insert(r, rules) <==> q == r || q in rules
  {
    if rules != [] && !RuleLeq(r, rules[0]) {
      InsertMembers(r, rules[1..]);
      assert rules == [rules[0]] + rules[1..];
    }
  }

  lemma {:induction false} InsertSorted(r: Rule, rules: seq<Rule>)
    requires SortedRules(rules)
    ensures SortedRules(Insert(r, rules))
  {
    if rules == [] {
    } else if RuleLeq(r, rules[0]) {
      forall i | 0 < i < |rules| ensures RuleLeq(r, rules[i]) {
        RuleLeqTransitive(r, rules[0], rules[i]);
      }
    } else {
      RuleLeqTotal(r, rules[0]);
      InsertSorted(r, rules[1..]);
      InsertMembers(r, rules[1..]);
      var rest := Insert(r, rules[1..]);
      forall i | 0 <= i < |rest| ensures RuleLeq(rules[0], rest[i]) {
        assert rest[i] in rest;
        if rest[i] != r {
          var k :| 0 <= k < |rules| - 1 && rules[1..][k] == rest[i];
          assert rules[k + 1] == rest[i];
        }
      }
    }
  }

  lemma {:induction false} InsertDistinct(r: Rule, rules: seq<Rule>)
    requires DistinctIds(rules) && r.id !in RuleIds(rules)
    ensures DistinctIds(Insert(r, rules))
  {
    if rules == [] {
    } else if RuleLeq(r, rules[0]) {
      assert forall i | 0 <= i < |rules| :: rules[i] in rules;
    } else {
      assert rules == [rules[0]] + rules[1..];
      InsertDistinct(r, rules[1..]);
      InsertMembers(r, rules[1..]);
      var rest := Insert(r, rules[1..]);
      forall i | 0 <= i < |rest| ensures rest[i].id != rules[0].id {
        assert rest[i] in rest;
        if rest[i] != r {
          var k :| 0 <= k < |rules| - 1 && rules[1..][k] == rest[i];
          assert rules[k + 1] == rest[i];
        }
      }
    }
  }

  lemma {:induction false} SortFacts(rules: seq<Rule>)
    ensures |SortRules(rules)| == |rules|
    ensures multiset(SortRules(rules)) == multiset(rules)
    ensures SortedRules(SortRules(rules))
    ensures forall q :: q in SortRules(rules) <==> q in rules
  {
    if rules != [] {
      SortFacts(rules[1..]);
      InsertMembers(rules[0], SortRules(rules[1..]));
      InsertSorted(rules[0], SortRules(rules[1..]));
      assert rules == [rules[0]] + rules[1..];
    }
  }

  lemma {:induction false} SortDistinct(rules: seq<Rule>)
    requires DistinctIds(rules)
    ensures DistinctIds(SortRules(rules))
  {
    if rules != [] {
      assert rules == [rules[0]] + rules[1..];
      SortDistinct(rules[1..]);
      SortFacts(rules[1..]);
      assert rules[0].id !in RuleIds(rules[1..]) by {
        assert forall q | q in rules[1..] :: exists k :: 0 < k < |rules| && rules[k] == q;
      }
      InsertDistinct(rules[0], SortRules(rules[1..]));
    }
  }

  lemma {:induction false} WithoutMembers(rules: seq<Rule>, id: RuleId)
    ensures forall r :: r in WithoutRule(rules, id) <==> (r in rules && r.id != id)
  {
    if rules != [] {
      WithoutMembers(rules[1..], id);
      assert rules == [rules[0]] + rules[1..];
    }
  }

  /** `at` lists, in order, where in `rules` the elements of `w` come from. */
  ghost predicate Embeds(at: seq<nat>, w: seq<Rule>, rules: seq<Rule>) {
    && |at| == |w|
    && (forall i | 0 <= i < |at| :: at[i] < |rules| && rules[at[i]] == w[i])
    && (forall i, j | 0 <= i < j < |at| :: at[i] < at[j])
  }

  lemma {:induction false} EmbedsBehind(at: seq<nat>, w: seq<Rule>, rules: seq<Rule>,
                                        r: Rule) returns (shifted: seq<nat>)
    requires Embeds(at, w, rules)
    ensures Embeds(shifted, w, [r] + rules)
    ensures Embeds([0] + shifted, [r] + w, [r] + rules)
  {
    shifted := seq(|at|, k requires 0 <= k < |at| => at[k] + 1);
    assert forall i | 0 <= i < |at| :: ([r] + rules)[shifted[i]] == rules[at[i]];
    assert forall i | 0 < i < |[0] + shifted| :: ([0] + shifted)[i] == shifted[i - 1] && ([r] + w)[i] == w[i - 1];
  }

  /** Removing rules keeps the order and the identity of the others. */
  lemma {:induction false} WithoutSubsequence(rules: seq<Rule>, id: RuleId) returns (at: seq<nat>)
    ensures Embeds(at, WithoutRule(rules, id), rules)
  {
    if rules == [] {
      at := [];
    } else {
      hide Embeds;
      var rest := WithoutSubsequence(rules[1..], id);
      var shifted := EmbedsBehind(rest, WithoutRule(rules[1..], id), rules[1..], rules[0]);
      assert rules == [rules[0]] + rules[1..];
      assert [] + WithoutRule(rules[1..], id) == WithoutRule(rules[1..], id);
      at := if rules[0].id == id then shifted else [0] + shifted;
    }
  }

  lemma {:induction false} WithoutKeeps(rules: seq<Rule>, id: RuleId)
    ensures DistinctIds(rules) ==> DistinctIds(WithoutRule(rules, id))
    ensures OneOwner(rules) ==> OneOwner(WithoutRule(rules, id))
    ensures SortedRules(rules) ==> SortedRules(WithoutRule(rules, id))
  {
    var at := WithoutSubsequence(rules, id);
    var w := WithoutRule(rules, id);
    if OneOwner(rules) {
      forall i, j | 0 <= i < j < |w| && w[i].enabled && w[j].enabled ensures w[i].target != w[j].target {
        assert at[i] < at[j];
      }
    }
  }

  /** Removing one id leaves the first rule of every other id where the search finds it. */
  lemma {:induction false} WithoutFinds(rules: seq<Rule>, id: RuleId, other: RuleId)
    requires id != other && FindRule(rules, other) < |rules|
    ensures FindRule(WithoutRule(rules, id), other) < |WithoutRule(rules, id)|
    ensures WithoutRule(rules, id)[FindRule(WithoutRule(rules, id), other)] == rules[FindRule(rules, other)]
  {
    var w, rest := WithoutRule(rules, id), WithoutRule(rules[1..], id);
    if rules[0].id == other {
      assert w[0] == rules[0];
    } else {
      WithoutFinds(rules[1..], id, other);
      assert w == if rules[0].id == id then rest else [rules[0]] + rest;
      assert rules[0].id != id ==> w[1..] == rest;
    }
  }

  /** Inserting a rule leaves the first rule of every other id where the search finds it. */
  lemma {:induction false} PlacedFinds(rules: seq<Rule>, r: Rule, k: nat, other: RuleId)
    requires k <= |rules| && other != r.id && FindRule(rules, other) < |rules|
    ensures var p := rules[..k] + [r] + rules[k..];
            FindRule(p, other) < |p| && p[FindRule(p, other)] == rules[FindRule(rules, other)]
  {
    var p := rules[..k] + [r] + rules[k..];
    var i := FindRule(rules, other);
    var at := if i < k then i else i + 1;
    assert p[at] == rules[i];
    assert forall j | 0 <= j < at :: p[j].id != other;
    assert FindRule(p, other) == at;
  }

  /** Sorting a sorted list with one more rule at its end only moves that rule. */
  lemma {:induction false} SortPlaces(rules: seq<Rule>, r: Rule) returns (k: nat)
    requires SortedRules(rules)
    ensures k <= |rules|
    ensures SortRules(rules + [r]) == rules[..k] + [r] + rules[k..]
  {
    if rules == [] {
      k := 0;
      assert rules + [r] == [r];
    } else {
      var k0 := SortPlaces(rules[1..], r);
      assert (rules + [r])[1..] == rules[1..] + [r];
      var tail := rules[1..][..k0] + [r] + rules[1..][k0..];
      if k0 == 0 && !RuleLeq(rules[0], r) {
        k := 0;
        assert tail[0] == r && tail[1..] == rules[1..];
        assert |rules| > 1 ==> RuleLeq(rules[0], rules[1]);
        assert Insert(rules[0], rules[1..]) == [rules[0]] + rules[1..];
        assert SortRules(rules + [r]) == [r] + ([rules[0]] + rules[1..]);
      } else {
        k := k0 + 1;
        assert RuleLeq(rules[0], tail[0]);
        assert SortRules(rules + [r]) == [rules[0]] + tail;
      }
    }
  }

  /** Standing down changes nothing but the `enabled` mark, and only ever clears it. */
  ghost predicate StoodDown(before: seq<Rule>, after: seq<Rule>) {
    |before| == |after|
    && forall i | 0 <= i < |before| :: after[i] == before[i] || after[i] == before[i].(enabled := false)
  }

  /** The first enabled rule of each target keeps it; every later one is stood down. */
  ghost predicate KeepsFirst(rules: seq<Rule>, done: seq<Rule>) {
    && StoodDown(rules, done)
    && forall i | 0 <= i < |rules| :: done[i].enabled <==> rules[i].enabled && FirstOfTarget(rules, i)
  }

  ghost predicate FirstOfTarget(rules: seq<Rule>, i: nat)
    requires i < |rules|
  {
    forall j | 0 <= j < i && rules[j].enabled :: rules[j].target != rules[i].target
  }

  lemma {:induction false} ResolveKeepsFirst(rules: seq<Rule>)
    ensures KeepsFirst(rules, ResolveConflicts(rules))
  {
    if rules != [] {
      var n := |rules| - 1;
      ResolveKeepsFirst(rules[..n]);
      KeepsFirstMore(rules, ResolveConflicts(rules[..n]));
    }
  }

  lemma {:induction false} FirstInPrefix(rules: seq<Rule>, n: nat, i: nat)
    requires i < n <= |rules|
    ensures FirstOfTarget(rules, i) <==> FirstOfTarget(rules[..n], i)
  {
    assert forall j | 0 <= j < n :: rules[..n][j] == rules[j];
  }

  lemma {:induction false} KeepsFirstMore(rules: seq<Rule>, done: seq<Rule>)
    requires rules != [] && KeepsFirst(rules[..|rules| - 1], done)
    ensures var n := |rules| - 1;
            KeepsFirst(rules, done + [if rules[n].enabled && Claimant(done, rules[n].target) < n
                                      then rules[n].(enabled := false) else rules[n]])
  {
    var n := |rules| - 1;
    var init := rules[..n];
    forall i | 0 <= i < n ensures rules[i] == init[i] && (FirstOfTarget(rules, i) <==> FirstOfTarget(init, i)) {
      FirstInPrefix(rules, n, i);
    }
    NewcomerKept(rules, done);
    hide FirstOfTarget, Claimant;
  }

  lemma {:induction false} NewcomerKept(rules: seq<Rule>, done: seq<Rule>)
    requires rules != [] && KeepsFirst(rules[..|rules| - 1], done)
    ensures var n := |rules| - 1;
            rules[n].enabled ==> (FirstOfTarget(rules, n) <==> Claimant(done, rules[n].target) == n)
  {
    var n := |rules| - 1;
    var init := rules[..n];
    if rules[n].enabled && !FirstOfTarget(rules, n) {
      assert exists j :: 0 <= j < n && init[j].enabled && init[j].target == rules[n].target;
      FirstEnabledKept(init, done, rules[n].target);
    }
  }

  /** Of the enabled rules for a target, one survives the standing down. */
  lemma {:induction false} FirstEnabledKept(rules: seq<Rule>, done: seq<Rule>, c: Channel)
    requires KeepsFirst(rules, done)
    requires exists j :: 0 <= j < |rules| && rules[j].enabled && rules[j].target == c
    ensures Claimant(done, c) < |done|
  {
    var i := Claimant(rules, c);
    assert done[i].enabled && done[i].target == c;
  }

  lemma {:induction false} KeepsFirstOwner(rules: seq<Rule>, done: seq<Rule>)
    requires KeepsFirst(rules, done)
    ensures OneOwner(done)
  {
    forall i, j | 0 <= i < j < |done| && done[i].enabled && done[j].enabled ensures done[i].target != done[j].target {
      assert rules[i].enabled && FirstOfTarget(rules, j);
    }
  }

  lemma {:induction false} StoodDownSame(rules: seq<Rule>, done: seq<Rule>)
    requires StoodDown(rules, done)
    ensures DistinctIds(rules) ==> DistinctIds(done)
    ensures RuleIds(done) == RuleIds(rules)
  {
    forall i | 0 <= i < |rules| ensures done[i].id in RuleIds(rules) && rules[i].id in RuleIds(done) {
      assert rules[i] in rules && done[i] in done;
    }
  }

  lemma {:induction false} StoodDownSorted(rules: seq<Rule>, done: seq<Rule>)
    requires StoodDown(rules, done) && SortedRules(rules)
    ensures SortedRules(done)
  {
    forall i, j | 0 <= i < j < |done| ensures RuleLeq(done[i], done[j]) {
      assert RuleLeq(rules[i], rules[j]);
    }
  }

  /** What a load leaves: the sorted files, the later claimants of each target stood down. */
  lemma {:induction false} LoadedFacts(report: seq<Rule>)
    ensures KeepsFirst(SortRules(SortRules(report)), Loaded(report))
    ensures OneOwner(Loaded(report)) && SortedRules(Loaded(report))
    ensures RuleIds(Loaded(report)) == RuleIds(report)
    ensures DistinctIds(report) ==> DistinctIds(Loaded(report))
  {
    var sorted := SortRules(SortRules(report));
    SortFacts(report);
    SortFacts(SortRules(report));
    if DistinctIds(report) {
      SortDistinct(report);
      SortDistinct(SortRules(report));
    }
    ResolveKeepsFirst(sorted);
    KeepsFirstOwner(sorted, Loaded(report));
    StoodDownSame(sorted, Loaded(report));
    StoodDownSorted(sorted, Loaded(report));
    assert RuleIds(sorted) == RuleIds(report);
  }
}
