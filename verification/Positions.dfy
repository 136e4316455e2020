/** Positions in a JSON value. A position is the path of item and member numbers that leads to it. */
module Positions {
  import opened Json

  function ValueAt(v: Json, path: seq<nat>): Option<Json>
    decreases |path|
  {
    if path == [] then Some(v)
    else
      match v
      case Arr(items) => if path[0] < |items| then ValueAt(items[path[0]], path[1..]) else None
      case Obj(fields) => if path[0] < |fields| then ValueAt(fields[path[0]].value, path[1..]) else None
      case _ => None
  }

  /** The first list comes to its end, or to the smaller number, at position `k`, up to which the two agree. */
  predicate BelowAt(a: seq<nat>, b: seq<nat>, k: nat) {
    && k <= |a| && k < |b|
    && (forall i | 0 <= i < k :: a[i] == b[i])
    && (k == |a| || a[k] < b[k])
  }

  /** The lexicographic order; of positions, the order of the text. */
  ghost predicate Below(a: seq<nat>, b: seq<nat>) {
    exists k: nat :: BelowAt(a, b, k)
  }

  lemma BelowAsymmetric(a: seq<nat>, b: seq<nat>)
    requires Below(a, b)
    ensures !Below(b, a) && a != b
  {
    var k: nat :| BelowAt(a, b, k);
    if j: nat :| BelowAt(b, a, j) {
      assert false;
    }
  }

  // ---- A step down ----

  lemma Step(v: Json, i: nat, path: seq<nat>)
    ensures ValueAt(v, [i] + path) ==
      match v
      case Arr(items) => if i < |items| then ValueAt(items[i], path) else None
      case Obj(fields) => if i < |fields| then ValueAt(fields[i].value, path) else None
      case _ => None
  {
    assert ([i] + path)[1..] == path;
  }

  lemma BelowStep(i: nat, a: seq<nat>, j: nat, b: seq<nat>)
    ensures i < j || (i == j && Below(a, b)) ==> Below([i] + a, [j] + b)
    ensures Below([], [j] + b)
  {
    assert BelowAt([], [j] + b, 0);
    if i < j {
      assert BelowAt([i] + a, [j] + b, 0);
    } else if i == j && Below(a, b) {
      var k: nat :| BelowAt(a, b, k);
      assert BelowAt([i] + a, [j] + b, k + 1);
    }
  }

  // ---- Members and items ----

  /** A member of an object, if it is one and has it. */
  function In(v: Json, k: string): Option<Json> {
    if v.Obj? then Get(v.fields, k) else None
  }

  predicate Lists(v: Option<Json>, text: string) {
    v.Some? && v.value.Arr? && exists i | 0 <= i < |v.value.items| :: v.value.items[i] == Str(text)
  }
}
