/** The overlay list walk of src/engine/debugoverlay.cpp, which unlinks dead overlays in place. */
module DebugOverlay {
  import opened Bytes

  datatype OverlayType = Box | Sphere | Line | SmartAmmo | Triangle | SweptBox | Box2 | Capsule

  // An __int64 stored to an int
  function ToInt32(x: int): (r: int)
    ensures -0x8000_0000 <= r < 0x8000_0000 && (r - x) % 0x1_0000_0000 == 0
  {
    (x + 0x8000_0000) % 0x1_0000_0000 - 0x8000_0000
  }

  /**
    OverlayBase_t.  The walk only relinks and destroys overlays, so what it reads otherwise is constant;
    `dead` is what IsDead answers.  A destroyed overlay cannot be read or relinked: every access goes through
    a member that asks for one that is not.
   */
  class Overlay {
    const kind: OverlayType
    const creationTick: int
    const unk: int
    const dead: bool
    var next: Overlay?
    var destroyed: bool

    constructor (kind: OverlayType, creationTick: int, unk: int, dead: bool, next: Overlay?)
      ensures this.kind == kind && this.creationTick == creationTick && this.unk == unk && this.dead == dead
      ensures this.next == next && !destroyed
    {
      this.kind, this.creationTick, this.unk, this.dead, this.next := kind, creationTick, unk, dead, next;
      destroyed := false;
    }

    function Next(): Overlay?
      requires !destroyed
      reads this
    {
      next
    }

    predicate IsDead()
      requires !destroyed
      reads this`destroyed
    {
      dead
    }

    // bShouldDraw
    method DueNow(renderTick: int, overlayTick: int) returns (due: bool)
      requires !destroyed
      ensures due == Due(this, renderTick, overlayTick)
    {
      if creationTick == -1 {
        var low := ToInt32(unk);
        if low == -1 {
          due := true;
        } else {
          due := low == overlayTick;
        }
      } else {
        due := creationTick == renderTick;
      }
    }

    method Relink(to: Overlay?)
      requires !destroyed
      modifies this`next
      ensures next == to
    {
      next := to;
    }

    // DestroyOverlay: the memory may hold anything afterwards.
    method Destroy()
      requires !destroyed
      modifies this
      ensures destroyed
    {
      destroyed := true;
      next := null;
    }
  }

  predicate Due(o: Overlay, renderTick: int, overlayTick: int) {
    if o.creationTick == -1 then ToInt32(o.unk) == -1 || ToInt32(o.unk) == overlayTick
    else o.creationTick == renderTick
  }

  // Equal in their lower 32 bits
  ghost predicate Congruent(x: int, y: int) {
    exists k: int :: x == y + k * 0x1_0000_0000
  }

  lemma ToInt32Iff(x: int, y: int)
    requires -0x8000_0000 <= y < 0x8000_0000
    ensures ToInt32(x) == y <==> Congruent(x, y)
  {
    var k := (x - ToInt32(x)) / 0x1_0000_0000;
    assert x == ToInt32(x) + k * 0x1_0000_0000;
    if Congruent(x, y) {
      var l: int :| x == y + l * 0x1_0000_0000;
    }
  }

  // An overlay of a render tick is due in that tick; any other one always, or in its own overlay tick.
  lemma DueIff(o: Overlay, renderTick: int, overlayTick: int)
    requires -0x8000_0000 <= overlayTick < 0x8000_0000
    ensures Due(o, renderTick, overlayTick) <==>
              || (o.creationTick != -1 && o.creationTick == renderTick)
              || (o.creationTick == -1 && (Congruent(o.unk, -1) || Congruent(o.unk, overlayTick)))
  {
    ToInt32Iff(o.unk, -1);
    ToInt32Iff(o.unk, overlayTick);
    hide ToInt32, Congruent;
  }

  // The settings of one pass
  datatype Pass = Pass(render: bool, enabled: bool, renderTick: int, overlayTick: int)

  predicate Drawn(o: Overlay, p: Pass) {
    !o.dead && Due(o, p.renderTick, p.overlayTick) && p.render && (p.enabled || o.kind == SmartAmmo)
  }

  // The overlays of a list that are kept, destroyed and drawn, in its order

  function Live(nodes: seq<Overlay>): seq<Overlay> {
    if nodes == [] then []
    else Live(nodes[..|nodes| - 1]) + if nodes[|nodes| - 1].dead then [] else [nodes[|nodes| - 1]]
  }

  function Dead(nodes: seq<Overlay>): seq<Overlay> {
    if nodes == [] then []
    else Dead(nodes[..|nodes| - 1]) + if nodes[|nodes| - 1].dead then [nodes[|nodes| - 1]] else []
  }

  function DrawnOf(nodes: seq<Overlay>, p: Pass): seq<Overlay> {
    if nodes == [] then []
    else DrawnOf(nodes[..|nodes| - 1], p) + if Drawn(nodes[|nodes| - 1], p) then [nodes[|nodes| - 1]] else []
  }

  lemma FilterStep(nodes: seq<Overlay>, i: nat, p: Pass)
    requires i < |nodes|
    ensures Live(nodes[..i + 1]) == if nodes[i].dead then Live(nodes[..i]) else Live(nodes[..i]) + [nodes[i]]
    ensures Dead(nodes[..i + 1]) == if nodes[i].dead then Dead(nodes[..i]) + [nodes[i]] else Dead(nodes[..i])
    ensures DrawnOf(nodes[..i + 1], p)
         == if Drawn(nodes[i], p) then DrawnOf(nodes[..i], p) + [nodes[i]] else DrawnOf(nodes[..i], p)
  {
    hide Drawn;
    assert nodes[..i + 1][..i] == nodes[..i];
  }

  // What is drawn keeps its order; it is what is alive and due, if the pass renders, and of that only smart ammo
  // where overlays are not enabled.
  lemma {:induction false} DrawnIff(nodes: seq<Overlay>, p: Pass)
    ensures Subsequence(DrawnOf(nodes, p), nodes)
    ensures forall o :: o in DrawnOf(nodes, p) <==>
              && o in nodes && !o.dead && p.render && Due(o, p.renderTick, p.overlayTick)
              && (o.kind == SmartAmmo || p.enabled)
  {
    hide Due;
    if nodes == [] {
      SubsequenceNone(nodes);
    } else {
      var before, last := nodes[..|nodes| - 1], nodes[|nodes| - 1];
      DrawnIff(before, p);
      assert nodes == before + [last];
      SubsequenceNext(DrawnOf(before, p), before, last);
      SubsequenceWithin(DrawnOf(before, p), before, nodes);
    }
  }

  lemma FilterNone(p: Pass)
    ensures Live([]) == Dead([]) == DrawnOf([], p) == []
  {
  }

  ghost predicate Distinct(nodes: seq<Overlay>) {
    forall i, j | 0 <= i < j < |nodes| :: nodes[i] != nodes[j]
  }

  lemma {:induction false} LiveAndDead(nodes: seq<Overlay>)
    requires Distinct(nodes)
    ensures Distinct(Live(nodes)) && Distinct(Dead(nodes))
    ensures forall i | 0 <= i < |Live(nodes)| :: Live(nodes)[i] in nodes && !Live(nodes)[i].dead
    ensures forall i | 0 <= i < |Dead(nodes)| :: Dead(nodes)[i] in nodes && Dead(nodes)[i].dead
    ensures forall i | 0 <= i < |nodes| :: nodes[i] in if nodes[i].dead then Dead(nodes) else Live(nodes)
    ensures |Live(nodes)| + |Dead(nodes)| == |nodes|
  {
    if nodes != [] {
      var before := nodes[..|nodes| - 1];
      LiveAndDead(before);
      assert nodes == before + [nodes[|nodes| - 1]];
    }
  }

  // Filtering keeps the order: what comes first in the list comes first in what is left.
  lemma {:induction false} LiveConcat(a: seq<Overlay>, b: seq<Overlay>)
    ensures Live(a + b) == Live(a) + Live(b)
  {
    if b == [] {
      assert a + b == a;
    } else {
      LiveConcat(a, b[..|b| - 1]);
      assert (a + b)[..|a + b| - 1] == a + b[..|b| - 1];
    }
  }

  function Successor(nodes: seq<Overlay>, i: nat, end: Overlay?): Overlay? {
    if i + 1 < |nodes| then nodes[i + 1] else end
  }

  // From `head` the links run through the nodes, none destroyed, to `end`: with distinct nodes, no cycle.
  ghost predicate Linked(head: Overlay?, nodes: seq<Overlay>, end: Overlay?)
    reads nodes
  {
    && head == (if nodes == [] then end else nodes[0])
    && (forall i | 0 <= i < |nodes| :: !nodes[i].destroyed && nodes[i].next == Successor(nodes, i, end))
  }

  // The walk steps over its current overlay.
  lemma LinkedShift(head: Overlay?, kept: seq<Overlay>, rest: seq<Overlay>)
    requires rest != [] && Linked(head, kept, rest[0]) && Linked(rest[0], rest, null)
    ensures Linked(head, kept + [rest[0]], rest[0].next) && Linked(rest[0].next, rest[1..], null)
  {
  }

  lemma LinkedStart(head: Overlay?, nodes: seq<Overlay>)
    requires Linked(head, nodes, null)
    ensures Linked(head, [], head) && Linked(head, nodes[0..], null)
    ensures nodes[..0] == []
  {
    assert nodes[0..] == nodes;
  }

  lemma LinkedFirst(head: Overlay?, nodes: seq<Overlay>)
    requires Linked(head, nodes, null)
    ensures if head == null then nodes == [] else nodes != [] && head == nodes[0] && !head.destroyed
  {
  }

  lemma LinkedAlive(head: Overlay?, nodes: seq<Overlay>, end: Overlay?)
    requires Linked(head, nodes, end)
    ensures forall i | 0 <= i < |nodes| :: !nodes[i].destroyed
  {
  }

  // What is kept so far and what is still to come are apart.
  lemma Apart(nodes: seq<Overlay>, i: nat)
    requires Distinct(nodes) && i <= |nodes|
    ensures var kept := Live(nodes[..i]);
            && Distinct(kept) && Distinct(nodes[i..])
            && (forall j | 0 <= j < |kept| :: kept[j] in nodes)
            && (forall j, k | 0 <= j < |kept| && 0 <= k < |nodes[i..]| :: kept[j] != nodes[i..][k])
  {
    LiveAndDead(nodes[..i]);
    hide Live, Dead;
    var kept := Live(nodes[..i]);
    forall j | 0 <= j < |kept| ensures exists m :: 0 <= m < i && nodes[m] == kept[j] {
      assert kept[j] in nodes[..i];
    }
    forall j, k | 0 <= j < |kept| && 0 <= k < |nodes[i..]| ensures kept[j] != nodes[i..][k] {
      var m :| 0 <= m < i && nodes[m] == kept[j];
      assert nodes[i..][k] == nodes[i + k];
    }
  }

  lemma DeadDestroyed(head: Overlay?, nodes: seq<Overlay>)
    requires Distinct(nodes) && Linked(head, Live(nodes), null)
    requires forall k | 0 <= k < |Dead(nodes)| :: Dead(nodes)[k].destroyed
    ensures Distinct(Live(nodes)) && Distinct(Dead(nodes))
    ensures forall i | 0 <= i < |nodes| :: nodes[i].destroyed == nodes[i].dead
  {
    LiveAndDead(nodes);
    LinkedAlive(head, Live(nodes), null);
    hide Live, Dead, Linked;
  }

  lemma GoneApart(head: Overlay?, kept: seq<Overlay>, curr: Overlay, gone: seq<Overlay>)
    requires Linked(head, kept, curr) && !curr.destroyed
    requires forall k | 0 <= k < |gone| :: gone[k].destroyed
    ensures forall k | 0 <= k < |gone| :: gone[k] !in kept && gone[k] != curr
  {
    LinkedAlive(head, kept, curr);
  }

  class OverlayList {
    var head: Overlay?
    // What was destroyed and drawn so far
    var destroyed: seq<Overlay>
    var drawn: seq<Overlay>

    constructor ()
      ensures head == null && destroyed == [] && drawn == []
    {
      head, destroyed, drawn := null, [], [];
    }

    // Unlinks and destroys the current overlay, the first of `rest`; `kept` are those before it.
    method RemoveDead(prev: Overlay?, curr: Overlay, ghost kept: seq<Overlay>, ghost rest: seq<Overlay>)
      returns (next: Overlay?)
      requires rest != [] && rest[0] == curr && Distinct(kept) && Distinct(rest)
      requires forall i, j | 0 <= i < |kept| && 0 <= j < |rest| :: kept[i] != rest[j]
      requires Linked(head, kept, curr) && Linked(curr, rest, null)
      requires prev == if kept == [] then null else kept[|kept| - 1]
      modifies this, kept, curr
      ensures Linked(head, kept, next) && Linked(next, rest[1..], null)
      ensures curr.destroyed && destroyed == old(destroyed) + [curr] && drawn == old(drawn)
    {
      if prev != null {
        prev.Relink(curr.Next());
      } else {
        head := curr.Next();
      }
      next := curr.Next();
      curr.Destroy();
      destroyed := destroyed + [curr];
    }

    // The same, with what went before: it is still gone.
    method SweepDead(prev: Overlay?, curr: Overlay, ghost kept: seq<Overlay>, ghost rest: seq<Overlay>,
                     ghost gone: seq<Overlay>)
      returns (next: Overlay?)
      requires rest != [] && rest[0] == curr && Distinct(kept) && Distinct(rest)
      requires forall i, j | 0 <= i < |kept| && 0 <= j < |rest| :: kept[i] != rest[j]
      requires Linked(head, kept, curr) && Linked(curr, rest, null)
      requires prev == if kept == [] then null else kept[|kept| - 1]
      requires forall k | 0 <= k < |gone| :: gone[k].destroyed
      modifies this, kept, curr
      ensures Linked(head, kept, next) && Linked(next, rest[1..], null)
      ensures destroyed == old(destroyed) + [curr] && drawn == old(drawn)
      ensures forall k | 0 <= k <= |gone| :: (gone + [curr])[k].destroyed
    {
      hide Distinct, Linked;
      LinkedFirst(curr, rest);
      GoneApart(head, kept, curr, gone);
      next := RemoveDead(prev, curr, kept, rest);
    }

    method DrawOverlay(curr: Overlay, pass: Pass)
      requires !curr.destroyed && !curr.dead
      modifies this`drawn
      ensures drawn == old(drawn) + if Drawn(curr, pass) then [curr] else []
    {
      var due := curr.DueNow(pass.renderTick, pass.overlayTick);
      if due && pass.render && (pass.enabled || curr.kind == SmartAmmo) {
        drawn := drawn + [curr];
      }
    }

    // Before the i-th overlay: `kept` are linked up to it, `gone` destroyed, and the rest is linked as it was.
    ghost predicate Walked(nodes: seq<Overlay>, i: nat, prev: Overlay?, curr: Overlay?, kept: seq<Overlay>,
                           gone: seq<Overlay>)
      reads this, nodes, kept, gone
    {
      && i <= |nodes| && kept == Live(nodes[..i]) && gone == Dead(nodes[..i])
      && Linked(head, kept, curr) && Linked(curr, nodes[i..], null)
      && prev == (if kept == [] then null else kept[|kept| - 1])
      && forall k | 0 <= k < |gone| :: gone[k].destroyed
    }

    // One turn of the loop
    method Visit(pass: Pass, prev: Overlay?, curr: Overlay, ghost nodes: seq<Overlay>, ghost i: nat,
                 ghost kept: seq<Overlay>, ghost gone: seq<Overlay>)
      returns (newPrev: Overlay?, newCurr: Overlay?, ghost newKept: seq<Overlay>, ghost newGone: seq<Overlay>)
      requires Distinct(nodes) && Walked(nodes, i, prev, curr, kept, gone)
      modifies this, nodes
      ensures i < |nodes| && Walked(nodes, i + 1, newPrev, newCurr, newKept, newGone)
      ensures destroyed == old(destroyed) + (if nodes[i].dead then [nodes[i]] else [])
      ensures drawn == old(drawn) + (if Drawn(nodes[i], pass) then [nodes[i]] else [])
    {
      hide Due, Live, Dead, Linked, Distinct;
      LinkedFirst(curr, nodes[i..]);
      FilterStep(nodes, i, pass);
      assert nodes[i..][1..] == nodes[i + 1..];
      newKept, newGone := kept, gone;
      if curr.IsDead() {
        Apart(nodes, i);
        newGone := gone + [curr];
        newPrev := prev;
        newCurr := SweepDead(prev, curr, kept, nodes[i..], gone);
      } else {
        DrawOverlay(curr, pass);
        LinkedShift(head, kept, nodes[i..]);
        newPrev := curr;
        newCurr := curr.Next();
        newKept := kept + [curr];
      }
    }

    /**
      DrawAllOverlays on the list of `nodes`: afterwards the list is the nodes that are not dead in the same
      order, every dead one was destroyed once and no other was, and what is due was drawn.
     */
    method DrawAllOverlays(pass: Pass, ghost nodes: seq<Overlay>)
      requires Distinct(nodes) && Linked(head, nodes, null)
      modifies this, nodes
      ensures Linked(head, Live(nodes), null) && Distinct(Live(nodes))
      ensures destroyed == old(destroyed) + Dead(nodes) && Distinct(Dead(nodes))
      ensures forall i | 0 <= i < |nodes| :: nodes[i].destroyed == nodes[i].dead
      ensures drawn == old(drawn) + DrawnOf(nodes, pass)
    {
      hide Drawn, Live, Dead, DrawnOf, Linked, Distinct;
      FilterNone(pass);
      LinkedStart(head, nodes);
      var prev: Overlay?, curr := null, head;
      ghost var i, kept, gone := 0, [], [];
      assert Walked(nodes, 0, prev, curr, kept, gone);
      while curr != null
        invariant Walked(nodes, i, prev, curr, kept, gone)
        invariant destroyed == old(destroyed) + gone && drawn == old(drawn) + DrawnOf(nodes[..i], pass)
        decreases |nodes| - i
      {
        LinkedFirst(curr, nodes[i..]);
        FilterStep(nodes, i, pass);
        prev, curr, kept, gone := Visit(pass, prev, curr, nodes, i, kept, gone);
        i := i + 1;
      }
      LinkedFirst(curr, nodes[i..]);
      assert nodes[..i] == nodes;
      DeadDestroyed(head, nodes);
    }
  }
}
