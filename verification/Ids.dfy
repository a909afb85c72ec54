/** Identifiers shared by the automation model: optional values, output channels and rule ids. */
module Ids {
  datatype Option<+T> = None | Some(value: T)

  /** One controllable output: a capability of a device. */
  datatype Channel = Channel(device: string, capability: string)

  /** Rule ids are ordered the way Rust orders strings. */
  type RuleId = string

  /** `device/capability`, the text the engine compares targets by. */
  function QualifiedId(c: Channel): string {
    c.device + "/" + c.capability
  }

  /** Device and capability ids are built from letters, digits and `.`, `_`, `-`, `:`; never from a slash. */
  predicate ValidId(s: string) {
    s != "" && '/' !in s
  }

  /** The text comparison of two targets decides the same question as comparing the pair. */
  lemma {:induction false} QualifiedIdInjective(a: Channel, b: Channel)
    requires ValidId(a.device) && ValidId(b.device)
    requires QualifiedId(a) == QualifiedId(b)
    ensures a == b
  {
    var s, t := QualifiedId(a), QualifiedId(b);
    var m, n := |a.device|, |b.device|;
    assert s[m] == '/' && t[n] == '/';
    assert forall i | 0 <= i < n :: t[i] == b.device[i] && t[i] in b.device;
    assert forall i | 0 <= i < m :: s[i] == a.device[i] && s[i] in a.device;
    assert m == n;
    assert s[..m] == a.device && t[..n] == b.device;
    assert s[m + 1..] == a.capability && t[n + 1..] == b.capability;
  }

  /** Lexicographic order on ids. */
  predicate IdLeq(a: string, b: string) {
    a == "" || (b != "" && (a[0] < b[0] || (a[0] == b[0] && IdLeq(a[1..], b[1..]))))
  }

  lemma {:induction false} IdLeqTotal(a: string, b: string)
    ensures IdLeq(a, b) || IdLeq(b, a)
  {
    if a != "" && b != "" {
      IdLeqTotal(a[1..], b[1..]);
    }
  }

  lemma {:induction false} IdLeqAntisymmetric(a: string, b: string)
    requires IdLeq(a, b) && IdLeq(b, a)
    ensures a == b
  {
    if a != "" && b != "" {
      IdLeqAntisymmetric(a[1..], b[1..]);
      assert a == [a[0]] + a[1..] && b == [b[0]] + b[1..];
    }
  }

  lemma {:induction false} IdLeqTransitive(a: string, b: string, c: string)
    requires IdLeq(a, b) && IdLeq(b, c)
    ensures IdLeq(a, c)
  {
    if a != "" && b != "" && c != "" && a[0] == b[0] == c[0] {
      IdLeqTransitive(a[1..], b[1..], c[1..]);
    }
  }
}
