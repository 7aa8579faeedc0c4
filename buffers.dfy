/**
 * The two caller-owned buffers every writer fills: the growing list of
 * positions and the fixed-size index array.
 */
module Buffers {
  import opened Geometry

  /**
   * The shared `positions` array. Writers only ever append to it with `push`,
   * so the points already in it are never changed.
   */
  class PointList {
    var points: seq<Vec3>

    method Push(p: Vec3)
      modifies this
      ensures points == old(points) + [p]
    {
      points := points + [p];
    }
  }

  /** Appending in two steps is appending the concatenation. */
  lemma AppendAssoc(p: seq<Vec3>, q: seq<Vec3>, r: seq<Vec3>)
    ensures p + q + r == p + (q + r)
  {
  }

  /**
   * The effect of one typed-array store `indices[slot] = value` on the array's
   * contents: a store at or past the end of a typed array is silently dropped.
   */
  function Put(a: seq<int>, slot: nat, value: int): (r: seq<int>)
    ensures |r| == |a|
    ensures forall k :: 0 <= k < |a| ==> r[k] == (if k == slot then value else a[k])
  {
    if slot < |a| then a[slot := value] else a
  }

  /**
   * The effect of storing `vals` one after the other into the slots
   * off, off + 1, ..., as the writers do with their post-incremented offset.
   */
  function Overlay(a: seq<int>, off: nat, vals: seq<int>): (r: seq<int>)
    decreases |vals|
    ensures |r| == |a|
  {
    if vals == [] then a else Overlay(Put(a, off, vals[0]), off + 1, vals[1..])
  }

  /**
   * After the stores, a slot in off .. off + |vals| - 1 holds its value from
   * `vals` and every other slot keeps its old contents.
   */
  lemma {:induction false} OverlayAt(a: seq<int>, off: nat, vals: seq<int>, k: nat)
    requires k < |a|
    ensures Overlay(a, off, vals)[k] == if off <= k < off + |vals| then vals[k - off] else a[k]
    decreases |vals|
  {
    if vals != [] {
      OverlayAt(Put(a, off, vals[0]), off + 1, vals[1..], k);
    }
  }

  /** Two consecutive slices written one after the other are one slice. */
  lemma OverlayConcat(a: seq<int>, off: nat, u: seq<int>, v: seq<int>)
    ensures Overlay(Overlay(a, off, u), off + |u|, v) == Overlay(a, off, u + v)
  {
    var lhs, rhs := Overlay(Overlay(a, off, u), off + |u|, v), Overlay(a, off, u + v);
    forall k | 0 <= k < |a| ensures lhs[k] == rhs[k] {
      OverlayAt(Overlay(a, off, u), off + |u|, v, k);
      OverlayAt(a, off, u, k);
      OverlayAt(a, off, u + v, k);
      if off + |u| <= k < off + |u| + |v| {
        assert (u + v)[k - off] == v[k - off - |u|];
      }
    }
  }

  /** Four consecutive slices written one after the other are one slice. */
  lemma OverlayFour(a: seq<int>, off: nat, u: seq<int>, v: seq<int>, w: seq<int>, x: seq<int>)
    ensures Overlay(Overlay(Overlay(Overlay(a, off, u), off + |u|, v), off + |u| + |v|, w), off + |u| + |v| + |w|, x)
         == Overlay(a, off, u + v + w + x)
  {
    OverlayConcat(a, off, u, v);
    OverlayConcat(a, off, u + v, w);
    OverlayConcat(a, off, u + v + w, x);
  }

  /** Writing one more value after a written slice extends the slice by that value. */
  lemma OverlaySnoc(a: seq<int>, off: nat, u: seq<int>, x: int)
    ensures Put(Overlay(a, off, u), off + |u|, x) == Overlay(a, off, u + [x])
  {
    assert Overlay(Overlay(a, off, u), off + |u|, [x]) == Put(Overlay(a, off, u), off + |u|, x);
    OverlayConcat(a, off, u, [x]);
  }

  /** `indices[slot] = value` on a Uint16Array or Uint32Array. */
  method Store(indices: array<int>, slot: nat, value: int)
    modifies indices
    ensures indices[..] == Put(old(indices[..]), slot, value)
  {
    if slot < indices.Length {
      indices[slot] := value;
    }
  }

  /** `indices[slot] = first; indices[slot + 1] = second;`: one line segment. */
  method StorePair(indices: array<int>, slot: nat, first: int, second: int)
    modifies indices
    ensures indices[..] == Overlay(old(indices[..]), slot, [first, second])
  {
    ghost var a := indices[..];
    Store(indices, slot, first);
    Store(indices, slot + 1, second);
    OverlaySnoc(a, slot, [], first);
    OverlaySnoc(a, slot, [first], second);
  }
}
