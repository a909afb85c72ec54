/** Naming devices and their capabilities so that nothing overwrites anything. */
module Naming {
  // ------------------------------------------------------------------ decimal suffixes

  function Digit(n: nat): char
    requires n < 10
  {
    "0123456789"[n]
  }

  function Decimal(n: nat): (s: string)
    ensures s != ""
  {
    if n < 10 then [Digit(n)] else Decimal(n / 10) + [Digit(n % 10)]
  }

  lemma {:induction false} DecimalInjective(m: nat, n: nat)
    requires Decimal(m) == Decimal(n)
    ensures m == n
  {
    var s, t := Decimal(m), Decimal(n);
    assert s[|s| - 1] == Digit(m % 10) && t[|t| - 1] == Digit(n % 10);
    if m >= 10 && n >= 10 {
      assert s[..|s| - 1] == Decimal(m / 10) && t[..|t| - 1] == Decimal(n / 10);
      DecimalInjective(m / 10, n / 10);
    }
  }

  // ------------------------------------------------------------------ device ids

  ghost function AtLeast(used: set<string>, length: nat): set<string> {
    set u | u in used && |u| >= length
  }

  /** Each further underscore leaves fewer used ids that are long enough to be in the way. */
  lemma {:induction false} LongerIsRarer(used: set<string>, attempt: string)
    requires attempt in used
    ensures AtLeast(used, |attempt + "_"|) < AtLeast(used, |attempt|)
  {
    assert attempt in AtLeast(used, |attempt|);
    assert attempt !in AtLeast(used, |attempt + "_"|);
  }

  /** The first of `attempt`, `attempt_`, `attempt__`, ... that nobody uses. */
  function FirstFree(used: set<string>, attempt: string): (id: string)
    ensures id !in used
    decreases AtLeast(used, |attempt|)
  {
    if attempt !in used then attempt else
    LongerIsRarer(used, attempt);
    FirstFree(used, attempt + "_")
  }

  function ClaimId(used: set<string>, candidate: string, slot: nat): (id: string)
    ensures id !in used
    ensures candidate !in used ==> id == candidate
  {
    if candidate !in used then candidate else FirstFree(used, candidate + "_slot" + Decimal(slot))
  }

  /** Hands out device ids and records the ones that had to follow the order of the tree. */
  class Allocator {
    var used: set<string>
    var ambiguous: seq<string>

    constructor ()
      ensures used == {} && ambiguous == []
    {
      used, ambiguous := {}, [];
    }

    /** Always a fresh id; a collision is recorded, never hidden. The loop ends because `used` is finite. */
    method Claim(candidate: string, slot: nat) returns (id: string)
      modifies this
      ensures id == ClaimId(old(used), candidate, slot)
      ensures id !in old(used) && used == old(used) + {id}
      ensures ambiguous == if candidate in old(used) then old(ambiguous) + [id] else old(ambiguous)
    {
      if candidate !in used {
        used := used + {candidate};
        return candidate;
      }
      id := candidate + "_slot" + Decimal(slot);
      while id in used
        invariant used == old(used) && ambiguous == old(ambiguous)
        invariant FirstFree(used, id) == ClaimId(used, candidate, slot)
        decreases AtLeast(used, |id|)
      {
        LongerIsRarer(used, id);
        id := id + "_";
      }
      used := used + {id};
      ambiguous := ambiguous + [id];
    }
  }

  // ------------------------------------------------------------------ capability ids

  function Suffixed(candidate: string, k: nat): string {
    candidate + "_" + Decimal(k)
  }

  function FreeSuffix(existing: seq<string>, candidate: string, k: nat): string
    decreases 100 - k
  {
    if k >= 100 then candidate
    else if Suffixed(candidate, k) !in existing then Suffixed(candidate, k)
    else FreeSuffix(existing, candidate, k + 1)
  }

  function Unique(existing: seq<string>, candidate: string): string {
    if candidate !in existing then candidate else FreeSuffix(existing, candidate, 2)
  }

  /** Make a capability id unique by appending `_2` to `_99`; after that, give the name back as it came. */
  method Uniquify(existing: seq<string>, candidate: string) returns (id: string)
    ensures id == Unique(existing, candidate)
  {
    if candidate !in existing {
      return candidate;
    }
    var suffix := 2;
    while suffix < 100
      invariant 2 <= suffix <= 100
      invariant FreeSuffix(existing, candidate, suffix) == Unique(existing, candidate)
    {
      var attempt := Suffixed(candidate, suffix);
      if attempt !in existing {
        return attempt;
      }
      suffix := suffix + 1;
    }
    id := candidate;
  }

  /** The names a candidate may end up with: itself, and its 98 suffixes. */
  function Name(candidate: string, k: nat): string {
    if k == 1 then candidate else Suffixed(candidate, k)
  }

  predicate SomeNameFree(existing: seq<string>, candidate: string) {
    exists k | 1 <= k < 100 :: Name(candidate, k) !in existing
  }

  lemma {:induction false} FreeSuffixFinds(existing: seq<string>, candidate: string, k: nat)
    requires 2 <= k <= 100
    ensures FreeSuffix(existing, candidate, k) !in existing
            <==> candidate !in existing || exists j | k <= j < 100 :: Name(candidate, j) !in existing
    ensures exists j | 1 <= j < 100 :: FreeSuffix(existing, candidate, k) == Name(candidate, j)
    decreases 100 - k
  {
    if k == 100 {
      assert Name(candidate, 1) == candidate;
    } else {
      FreeSuffixFinds(existing, candidate, k + 1);
      assert Name(candidate, k) == Suffixed(candidate, k);
    }
  }

  /** The id is new to the device exactly when one of the 99 names still is. */
  lemma {:induction false} UniqueIsFresh(existing: seq<string>, candidate: string)
    ensures Unique(existing, candidate) !in existing <==> SomeNameFree(existing, candidate)
    ensures exists j | 1 <= j < 100 :: Unique(existing, candidate) == Name(candidate, j)
  {
    assert Name(candidate, 1) == candidate;
    FreeSuffixFinds(existing, candidate, 2);
  }

  lemma {:induction false} NamesDiffer(candidate: string, j: nat, k: nat)
    requires 1 <= j && 1 <= k && Name(candidate, j) == Name(candidate, k)
    ensures j == k
  {
    var a, b := Name(candidate, j), Name(candidate, k);
    if j != 1 && k != 1 {
      assert a[|candidate| + 1..] == Decimal(j) && b[|candidate| + 1..] == Decimal(k);
      DecimalInjective(j, k);
    } else {
      assert j == 1 ==> |a| == |candidate|;
      assert k == 1 ==> |b| == |candidate|;
    }
  }

  function NamesBelow(candidate: string, n: nat): set<string> {
    set k | 1 <= k < n :: Name(candidate, k)
  }

  lemma {:induction false} NamesCount(candidate: string, n: nat)
    requires n >= 1
    ensures |NamesBelow(candidate, n)| == n - 1
  {
    if n > 1 {
      NamesCount(candidate, n - 1);
      assert NamesBelow(candidate, n) == NamesBelow(candidate, n - 1) + {Name(candidate, n - 1)};
      if Name(candidate, n - 1) in NamesBelow(candidate, n - 1) {
        var k :| 1 <= k < n - 1 && Name(candidate, k) == Name(candidate, n - 1);
        NamesDiffer(candidate, k, n - 1);
        assert false;
      }
    } else {
      assert NamesBelow(candidate, n) == {};
    }
  }

  lemma {:induction false} SubsetSize<T>(a: set<T>, b: set<T>)
    requires a <= b
    ensures |a| <= |b|
  {
    if a != {} {
      var x :| x in a;
      SubsetSize(a - {x}, b - {x});
    }
  }

  function Elements(s: seq<string>): set<string> {
    set x | x in s
  }

  lemma {:induction false} ElementsSize(s: seq<string>)
    ensures |Elements(s)| <= |s|
  {
    if s == [] {
      assert Elements(s) == {};
    } else {
      var n := |s| - 1;
      ElementsSize(s[..n]);
      assert s == s[..n] + [s[n]];
      assert Elements(s) == Elements(s[..n]) + {s[n]};
    }
  }

  /** Pigeonhole: fewer than 99 ids cannot use up 99 names. */
  lemma {:induction false} FewLeaveOneFree(existing: seq<string>, candidate: string)
    requires |existing| < 99
    ensures SomeNameFree(existing, candidate)
  {
    if !SomeNameFree(existing, candidate) {
      assert NamesBelow(candidate, 100) <= Elements(existing);
      NamesCount(candidate, 100);
      ElementsSize(existing);
      SubsetSize(NamesBelow(candidate, 100), Elements(existing));
      assert false;
    }
  }

  predicate Distinct(ids: seq<string>) {
    forall i, j | 0 <= i < j < |ids| :: ids[i] != ids[j]
  }

  /** The ids of a device's sensors, named one after the other. */
  function Assign(candidates: seq<string>): (ids: seq<string>)
    ensures |ids| == |candidates|
  {
    if candidates == [] then [] else
    var before := Assign(candidates[..|candidates| - 1]);
    before + [Unique(before, candidates[|candidates| - 1])]
  }

  lemma {:induction false} DistinctGrows(ids: seq<string>, id: string)
    ensures Distinct(ids + [id]) <==> Distinct(ids) && id !in ids
  {
    var all := ids + [id];
    if Distinct(all) {
      assert forall i, j | 0 <= i < j < |ids| :: ids[i] == all[i] && ids[j] == all[j];
      forall i | 0 <= i < |ids| ensures ids[i] != id {
        assert all[i] != all[|ids|];
      }
    }
  }

  predicate FreeAt(candidates: seq<string>, k: nat)
    requires k < |candidates|
  {
    SomeNameFree(Assign(candidates[..k]), candidates[k])
  }

  /** Names stay distinct exactly as long as every sensor still found one of its 99 names free. */
  lemma {:induction false} AssignDistinct(candidates: seq<string>)
    ensures Distinct(Assign(candidates)) <==> forall k | 0 <= k < |candidates| :: FreeAt(candidates, k)
  {
    hide SomeNameFree, Unique, Distinct;
    if candidates == [] {
      DistinctEmpty();
    } else {
      var n := |candidates| - 1;
      var before := Assign(candidates[..n]);
      AssignDistinct(candidates[..n]);
      UniqueIsFresh(before, candidates[n]);
      DistinctGrows(before, Unique(before, candidates[n]));
      assert forall k | 0 <= k < n :: candidates[..n][..k] == candidates[..k];
      assert Assign(candidates) == before + [Unique(before, candidates[n])];
      assert FreeAt(candidates, n) <==> SomeNameFree(before, candidates[n]);
      forall k | 0 <= k < n ensures FreeAt(candidates[..n], k) <==> FreeAt(candidates, k) {
        assert candidates[..n][..k] == candidates[..k];
      }
      if forall k | 0 <= k < n :: FreeAt(candidates[..n], k) {
        assert forall k | 0 <= k < n :: FreeAt(candidates, k);
      } else {
        var k :| 0 <= k < n && !FreeAt(candidates[..n], k);
        assert !FreeAt(candidates, k);
      }
    }
  }

  lemma {:induction false} DistinctEmpty()
    ensures Distinct([])
  {}

  /** Up to 99 sensors on one device always get distinct ids, whatever they are called. */
  lemma {:induction false} UpTo99AreDistinct(candidates: seq<string>)
    requires |candidates| <= 99
    ensures Distinct(Assign(candidates))
  {
    AssignDistinct(candidates);
    forall k | 0 <= k < |candidates| ensures FreeAt(candidates, k) {
      FewLeaveOneFree(Assign(candidates[..k]), candidates[k]);
    }
  }

  lemma {:induction false} AssignUsesNames(candidates: seq<string>, candidate: string)
    requires forall k | 0 <= k < |candidates| :: candidates[k] == candidate
    ensures forall k | 0 <= k < |candidates| :: Assign(candidates)[k] in NamesBelow(candidate, 100)
  {
    if candidates != [] {
      var n := |candidates| - 1;
      AssignUsesNames(candidates[..n], candidate);
      UniqueIsFresh(Assign(candidates[..n]), candidate);
    }
  }

  lemma {:induction false} DistinctSize(ids: seq<string>)
    requires Distinct(ids)
    ensures |Elements(ids)| == |ids|
  {
    if ids == [] {
      assert Elements(ids) == {};
    } else {
      var n := |ids| - 1;
      DistinctSize(ids[..n]);
      assert ids == ids[..n] + [ids[n]];
      assert Elements(ids) == Elements(ids[..n]) + {ids[n]};
      assert ids[n] !in ids[..n];
    }
  }

  /** A hundred sensors of one name never do, however they are ordered. */
  lemma {:induction false} HundredOfOneNameCollide(candidates: seq<string>, candidate: string)
    requires |candidates| >= 100
    requires forall k | 0 <= k < |candidates| :: candidates[k] == candidate
    ensures !Distinct(Assign(candidates))
  {
    var ids := Assign(candidates);
    AssignUsesNames(candidates, candidate);
    if Distinct(ids) {
      DistinctSize(ids);
      NamesCount(candidate, 100);
      assert Elements(ids) <= NamesBelow(candidate, 100);
      SubsetSize(Elements(ids), NamesBelow(candidate, 100));
      assert false;
    }
  }

  // ------------------------------------------------------------------ ids that had to follow the order of the tree

  function Underscores(n: nat): string {
    if n == 0 then "" else Underscores(n - 1) + "_"
  }

  lemma {:induction false} FirstFreeIs(used: set<string>, attempt: string) returns (n: nat)
    ensures FirstFree(used, attempt) == attempt + Underscores(n)
    decreases AtLeast(used, |attempt|)
  {
    if attempt !in used {
      n := 0;
      assert attempt + "" == attempt;
    } else {
      LongerIsRarer(used, attempt);
      var m := FirstFreeIs(used, attempt + "_");
      n := m + 1;
      UnderscoreFirst(m);
      assert attempt + "_" + Underscores(m) == attempt + ("_" + Underscores(m));
    }
  }

  lemma {:induction false} UnderscoreFirst(n: nat)
    ensures "_" + Underscores(n) == Underscores(n + 1)
  {
    if n > 0 {
      UnderscoreFirst(n - 1);
      assert "_" + (Underscores(n - 1) + "_") == ("_" + Underscores(n - 1)) + "_";
    }
  }

  lemma {:induction false} UnderscoresOnly(n: nat)
    ensures |Underscores(n)| == n && forall i | 0 <= i < n :: Underscores(n)[i] == '_'
  {
    if n > 0 {
      UnderscoresOnly(n - 1);
    }
  }

  lemma {:induction false} DecimalDigits(n: nat)
    ensures forall i | 0 <= i < |Decimal(n)| :: Decimal(n)[i] != '_'
  {
    if n >= 10 {
      DecimalDigits(n / 10);
    }
  }

  /** A number followed by underscores determines the number. */
  lemma {:induction false} NumberReadsBack(s: nat, i: nat, t: nat, j: nat)
    requires Decimal(s) + Underscores(i) == Decimal(t) + Underscores(j)
    ensures s == t
  {
    DecimalDigits(s);
    DecimalDigits(t);
    UnderscoresOnly(i);
    UnderscoresOnly(j);
    var a, b := Decimal(s) + Underscores(i), Decimal(t) + Underscores(j);
    assert forall k | 0 <= k < |Decimal(s)| :: a[k] == Decimal(s)[k];
    assert forall k | 0 <= k < |Decimal(t)| :: b[k] == Decimal(t)[k];
    assert |Decimal(s)| < |a| ==> a[|Decimal(s)|] == '_';
    assert |Decimal(t)| < |b| ==> b[|Decimal(t)|] == '_';
    assert |Decimal(s)| == |Decimal(t)|;
    assert a[..|Decimal(s)|] == Decimal(s) && b[..|Decimal(s)|] == Decimal(t);
    DecimalInjective(s, t);
  }

  /** A node whose candidate is taken gets it with its slot number; nodes at different slots never get the same id. */
  lemma {:induction false} SlotTellsApart(used: set<string>, other: set<string>, candidate: string, s: nat, t: nat)
    requires candidate in used && candidate in other && s != t
    ensures candidate + "_slot" + Decimal(s) <= ClaimId(used, candidate, s)
    ensures candidate + "_slot" + Decimal(s) !in used ==> ClaimId(used, candidate, s) == candidate + "_slot" + Decimal(s)
    ensures ClaimId(used, candidate, s) != ClaimId(other, candidate, t)
  {
    var head := candidate + "_slot";
    var i := FirstFreeIs(used, head + Decimal(s));
    var j := FirstFreeIs(other, head + Decimal(t));
    var x, y := Decimal(s) + Underscores(i), Decimal(t) + Underscores(j);
    assert ClaimId(used, candidate, s) == head + x && ClaimId(other, candidate, t) == head + y;
    if head + x == head + y {
      assert (head + x)[|head|..] == x && (head + y)[|head|..] == y;
      NumberReadsBack(s, i, t, j);
    }
  }
}
