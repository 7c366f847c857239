/** What the order of the buffers means: it is the order in which they were last in use. */
module Recency {
  import opened BufferCache

  /** The places after the last holders of these buffers have let go of them, one after the other. */
  function Places(pos: seq<nat>, released: seq<nat>): (r: seq<nat>)
    ensures |r| == |pos|
  {
    if |released| == 0 then pos
    else
      var before := Places(pos, released[..|released| - 1]);
      var i := released[|released| - 1];
      if i < |pos| then FrontPositions(before, i) else before
  }

  /** When buffer i was last released; 0 for never. */
  function LastRelease(released: seq<nat>, i: nat): (n: nat)
    ensures n <= |released|
  {
    if |released| == 0 then 0
    else if released[|released| - 1] == i then |released|
    else LastRelease(released[..|released| - 1], i)
  }

  /** The list is in order of use: of two buffers, the one released later stands in front, and those never
      released stand behind as they did. */
  lemma {:induction false} OrderOfUse(lru: seq<nat>, pos: seq<nat>, released: seq<nat>, a: nat, b: nat)
    requires Ordered(lru, pos) && (forall k :: 0 <= k < |released| ==> released[k] < NBUF) && a < NBUF && b < NBUF
    ensures var p, x, y := Places(pos, released), LastRelease(released, a), LastRelease(released, b);
            p[a] < p[b] <==> a != b && (x > y || (x == y && pos[a] < pos[b]))
    decreases |released|
  {
    hide Ordered, FrontPositions;
    PlacesApart(lru, pos, a, b);
    if |released| > 0 {
      var n := |released| - 1;
      OrderOfUse(lru, pos, released[..n], a, b);
      OrderOfUse(lru, pos, released[..n], a, released[n]);
      OrderOfUse(lru, pos, released[..n], released[n], a);
      OrderOfUse(lru, pos, released[..n], b, released[n]);
      OrderOfUse(lru, pos, released[..n], released[n], b);
      PlacesApart(lru, pos, a, released[n]);
      PlacesApart(lru, pos, b, released[n]);
      FrontIsFirst(Places(pos, released[..n]), released[n], a, b);
    }
  }

  lemma PlacesApart(lru: seq<nat>, pos: seq<nat>, a: nat, b: nat)
    requires Ordered(lru, pos) && a < NBUF && b < NBUF
    ensures |pos| == NBUF && (pos[a] == pos[b] ==> a == b)
  {}

  /** One release: the buffer is in front of all others, which stay in order. */
  lemma FrontIsFirst(pos: seq<nat>, i: nat, a: nat, b: nat)
    requires i < |pos| && a < |pos| && b < |pos|
    requires (a != i ==> pos[a] != pos[i]) && (b != i ==> pos[b] != pos[i])
    ensures var p := FrontPositions(pos, i);
            p[a] < p[b] <==> b != i && (a == i || pos[a] < pos[b])
  {}
}
