/** Small shared vocabulary: optional values, results, and the ordered views of
    finite key sets that B-tree maps and ascending index scans give. */
module Common {

  datatype Option<+T> = None | Some(value: T)

  datatype Result<+T, +E> = Ok(value: T) | Err(error: E)

  /** The least element of a non-empty finite set of naturals, found by
      setting an arbitrary element against the least of the rest. */
  ghost function LeastOf(s: set<nat>): (m: nat)
    requires s != {}
    ensures m in s && forall y :: y in s ==> m <= y
    decreases s
  {
    var x :| x in s;
    if s - {x} == {} then
      assert forall y :: y in s ==> y == x || y in s - {x};
      x
    else
      var m := LeastOf(s - {x});
      assert forall y :: y in s ==> y == x || y in s - {x};
      if x < m then x else m
  }

  /** The least element, as executable code picks it: it is unique. */
  function SetMin(s: set<nat>): (m: nat)
    requires s != {}
    ensures m in s
    ensures forall y :: y in s ==> m <= y
  {
    var least := LeastOf(s);
    var m :| m in s && forall y :: y in s ==> m <= y;
    m
  }

  predicate StrictlyIncreasing(xs: seq<nat>)
  {
    forall i, j :: 0 <= i < j < |xs| ==> xs[i] < xs[j]
  }

  /** The elements of a finite set in ascending order: the order in which a
      B-tree map yields its keys, and the order the model assumes for the
      rows of an ascending scan. */
  function Ascending(s: set<nat>): (xs: seq<nat>)
    ensures |xs| == |s|
    ensures forall i :: 0 <= i < |xs| ==> xs[i] in s
    ensures StrictlyIncreasing(xs)
    decreases |s|
  {
    if s == {} then []
    else
      var m := SetMin(s);
      [m] + Ascending(s - {m})
  }

  /** Every element of the set has its place in the ascending sequence. */
  lemma {:induction false} AscendingHas(s: set<nat>, x: nat)
    requires x in s
    ensures exists i :: 0 <= i < |Ascending(s)| && Ascending(s)[i] == x
    decreases |s|
  {
    var m := SetMin(s);
    if x != m {
      AscendingHas(s - {m}, x);
      var i :| 0 <= i < |Ascending(s - {m})| && Ascending(s - {m})[i] == x;
      assert Ascending(s)[i + 1] == x;
    } else {
      assert Ascending(s)[0] == x;
    }
  }

  /** Reversal of a sequence, as `Vec::reverse` leaves it. */
  function Reverse<T>(xs: seq<T>): (r: seq<T>)
    ensures |r| == |xs|
    ensures forall i :: 0 <= i < |xs| ==> r[i] == xs[|xs| - 1 - i]
  {
    if xs == [] then [] else Reverse(xs[1..]) + [xs[0]]
  }

  /** Reversing a sequence after appending one element puts that element first. */
  lemma ReverseSnoc<T>(xs: seq<T>, x: T)
    ensures Reverse(xs + [x]) == [x] + Reverse(xs)
  {
  }
}
