/** Tree coordinates (src/coordinates.rs): the ports from the root down to a node, and the distance between two of
    them. */
module Coordinates {
  import opened Types

  type Port = U64
  type Coords = seq<Port>

  /** c is the length of the longest common prefix of a and b. */
  ghost predicate IsCommonPrefix(a: Coords, b: Coords, c: nat) {
    && c <= |a| && c <= |b|
    && a[..c] == b[..c]
    && (c == |a| || c == |b| || a[c] != b[c])
  }

  function CommonPrefix(a: Coords, b: Coords): (c: nat)
    ensures IsCommonPrefix(a, b, c)
  {
    if a == [] || b == [] || a[0] != b[0] then 0
    else
      var c := CommonPrefix(a[1..], b[1..]);
      assert a[..c + 1] == [a[0]] + a[1..][..c] && b[..c + 1] == [b[0]] + b[1..][..c];
      1 + c
  }

  lemma CommonPrefixIsLongest(a: Coords, b: Coords, c: nat)
    requires c <= |a| && c <= |b| && a[..c] == b[..c]
    ensures c <= CommonPrefix(a, b)
  {
  }

  /** `get_common_prefix`. */
  method GetCommonPrefix(a: Coords, b: Coords) returns (c: nat)
    ensures c == CommonPrefix(a, b)
  {
    c := 0;
    var l := |a|;
    if |b| < l { l := |b|; }
    for i := 0 to l
      invariant c == i
      invariant a[..c] == b[..c]
    {
      if a[i] != b[i] { break; }
      c := c + 1;
    }
    CommonPrefixIsLongest(a, b, c);
    var p := CommonPrefix(a, b);
    assert forall i :: 0 <= i < p ==> a[i] == a[..p][i] && b[i] == b[..p][i];
  }

  /** `distance_to`; the subtraction cannot underflow. */
  function Distance(a: Coords, b: Coords): (d: nat) {
    |a| + |b| - 2 * CommonPrefix(a, b)
  }

  method DistanceTo(a: Coords, b: Coords) returns (d: nat)
    ensures d == Distance(a, b)
  {
    var c := GetCommonPrefix(a, b);
    d := |a| + |b| - 2 * c;
  }

  /** The ultrametric law: two prefixes shared with b are shared with each other. */
  lemma CommonPrefixUltrametric(a: Coords, b: Coords, c: Coords)
    ensures CommonPrefix(a, c) >= CommonPrefix(a, b) || CommonPrefix(a, c) >= CommonPrefix(b, c)
  {
  }

  /** `distance_to` is a metric. */
  lemma DistanceIsMetric(a: Coords, b: Coords, c: Coords)
    ensures Distance(a, b) == 0 <==> a == b
    ensures Distance(a, b) == Distance(b, a)
    ensures Distance(a, c) <= Distance(a, b) + Distance(b, c)
  {
  }

  /** Going down the branch that leads to d, when a is above d, is one step closer. */
  lemma DownIsCloser(a: Coords, d: Coords)
    requires |a| < |d| && d[..|a|] == a
    ensures Distance(d[..|a| + 1], d) < Distance(a, d)
  {
  }

  /** Going up to the parent, when a is not above d, is one step closer. */
  lemma UpIsCloser(a: Coords, d: Coords)
    requires |a| > 0 && !(|a| <= |d| && d[..|a|] == a)
    ensures Distance(a[..|a| - 1], d) < Distance(a, d)
  {
  }
}
