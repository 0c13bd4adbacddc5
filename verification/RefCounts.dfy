/**
  COM reference counts of the device's objects: client references, device bindings, and the
  references that textures and swapchains hold on their surfaces.
 */
module RefCounts {
  import opened Options

  // Object ids are not reused; 0 is the null pointer.
  type Id = nat

  // A surface has the container that owns it; a texture or swapchain has the surfaces it owns.
  datatype Object = Object(refs: int, container: Option<Id>, children: seq<Id>)

  // The device's binding slots: four render targets, depth, sixteen textures, sixteen
  // streams, indices, declaration, two shaders, and the swapchain.
  const DECLARATION := 38
  const SWAPCHAIN := 41
  const SLOTS := 42

  // client counts the references handed out to the application; open says that the device has
  // not had its last release.
  datatype World = World(objects: map<Id, Object>, slots: seq<Id>, client: map<Id, nat>, open: bool)

  function Client(w: World, x: Id): nat {
    if x in w.client then w.client[x] else 0
  }

  function Count(s: seq<Id>, x: Id): nat
    decreases |s|
  {
    if s == [] then 0 else (if s[0] == x then 1 else 0) + Count(s[1..], x)
  }

  function Owned(w: World, x: Id): nat
    requires x in w.objects
  {
    if w.objects[x].container.Some? then 1 else 0
  }

  // ---------------------------------------------------------------- references

  function WithRefs(w: World, x: Id, refs: int): World
    requires x in w.objects
  {
    w.(objects := w.objects[x := w.objects[x].(refs := refs)])
  }

  function AddRef(w: World, x: Id): World
    requires x in w.objects
  {
    WithRefs(w, x, w.objects[x].refs + 1)
  }

  // Release of an object that owns nothing.
  function DropLeaf(w: World, x: Id): World
    requires x in w.objects
  {
    if w.objects[x].refs > 1 then WithRefs(w, x, w.objects[x].refs - 1) else w.(objects := w.objects - {x})
  }

  function Detach(w: World, x: Id): World
    requires x in w.objects
  {
    w.(objects := w.objects[x := w.objects[x].(container := None)])
  }

  // The owner is going away: each of its surfaces loses its container and one reference.
  function DropChildren(w: World, cs: seq<Id>): World
    decreases |cs|
  {
    if cs == [] then w
    else if cs[0] in w.objects then DropChildren(DropLeaf(Detach(w, cs[0]), cs[0]), cs[1..])
    else DropChildren(w, cs[1..])
  }

  function Release(w: World, x: Id): World
    requires x in w.objects
  {
    if w.objects[x].refs > 1 then WithRefs(w, x, w.objects[x].refs - 1)
    else DropChildren(w.(objects := w.objects - {x}), w.objects[x].children)
  }

  function SafeRelease(w: World, x: Id): World {
    if x in w.objects then Release(w, x) else w
  }

  // ---------------------------------------------------------------- the invariant

  // References that are accounted for.
  function Expected(w: World, x: Id): nat
    requires x in w.objects
  {
    Client(w, x) + Count(w.slots, x) + Owned(w, x)
  }

  // The count of every object is what is accounted for, and one more for the object due.
  ghost predicate Balanced(w: World, due: Id) {
    forall x :: x in w.objects ==> 0 < w.objects[x].refs == Expected(w, x) + if x == due then 1 else 0
  }

  ghost predicate ChildOf(w: World, c: Id, owner: Id) {
    c in w.objects && w.objects[c].container == Some(owner) && w.objects[c].children == []
  }

  // Containers and children agree, except for the surfaces cs of an owner that is gone.
  ghost predicate Linked(w: World, gone: Id, cs: seq<Id>) {
    && (forall o, i :: o in w.objects && 0 <= i < |w.objects[o].children| ==> ChildOf(w, w.objects[o].children[i], o))
    && (forall o, i, j :: o in w.objects && 0 <= i < j < |w.objects[o].children| ==>
          w.objects[o].children[i] != w.objects[o].children[j])
    && (forall c {:trigger w.objects[c]} :: c in w.objects && w.objects[c].container.Some? ==>
          var o := w.objects[c].container.value;
          (o in w.objects && c in w.objects[o].children) || (o == gone && c in cs))
  }

  ghost predicate Bound(w: World) {
    && |w.slots| == SLOTS && 0 !in w.objects
    && (forall i :: 0 <= i < SLOTS && w.slots[i] != 0 ==> w.slots[i] in w.objects)
    && (forall x :: Client(w, x) > 0 ==> x in w.objects)
  }

  ghost predicate Owed(w: World, due: Id) {
    Bound(w) && Linked(w, 0, []) && Balanced(w, due)
  }

  ghost predicate Inv(w: World) {
    Owed(w, 0)
  }

  lemma {:induction false} CountUpdate(s: seq<Id>, i: nat, y: Id, x: Id)
    requires i < |s|
    ensures Count(s[i := y], x) + (if s[i] == x then 1 else 0) == Count(s, x) + (if y == x then 1 else 0)
    decreases i
  {
    if i > 0 {
      CountUpdate(s[1..], i - 1, y, x);
      assert s[i := y][1..] == s[1..][i - 1 := y];
    } else {
      assert s[0 := y][1..] == s[1..];
    }
  }

  lemma {:induction false} CountPositive(s: seq<Id>, i: nat)
    requires i < |s|
    ensures Count(s, s[i]) > 0
    decreases i
  {
    if i > 0 { CountPositive(s[1..], i - 1); }
  }

  // The owner is removed, and the surfaces cs it leaves still count its references.
  ghost predicate Orphaned(w: World, gone: Id, cs: seq<Id>) {
    && Bound(w) && Balanced(w, 0) && Linked(w, gone, cs) && gone !in w.objects
    && (forall i :: 0 <= i < |cs| ==> ChildOf(w, cs[i], gone))
    && (forall i, j :: 0 <= i < j < |cs| ==> cs[i] != cs[j])
  }

  lemma {:induction false} DropOne(w: World, gone: Id, cs: seq<Id>)
    requires Orphaned(w, gone, cs) && cs != []
    ensures Orphaned(DropLeaf(Detach(w, cs[0]), cs[0]), gone, cs[1..])
  {
    var c := cs[0];
    assert ChildOf(w, c, gone);
    var v := DropLeaf(Detach(w, c), c);
    assert cs == [c] + cs[1..];
    forall i | 0 <= i < |cs| - 1 ensures ChildOf(v, cs[1..][i], gone) {
      assert ChildOf(w, cs[i + 1], gone) && cs[i + 1] != c;
    }
    DropOneBound(w, gone, cs);
    DropOneLinked(w, gone, cs);
  }

  lemma {:induction false} DropOneBound(w: World, gone: Id, cs: seq<Id>)
    requires Orphaned(w, gone, cs) && cs != []
    ensures var v := DropLeaf(Detach(w, cs[0]), cs[0]);
      Bound(v) && Balanced(v, 0)
  {
    hide Linked;
    var c := cs[0];
    assert ChildOf(w, c, gone);
    var v := DropLeaf(Detach(w, c), c);
    forall i | 0 <= i < SLOTS && v.slots[i] != 0 ensures v.slots[i] in v.objects {
      CountPositive(w.slots, i);
    }
    forall x | Client(v, x) > 0 ensures x in v.objects {
      assert Client(w, x) > 0;
    }
  }

  lemma {:induction false} DropOneLinked(w: World, gone: Id, cs: seq<Id>)
    requires Orphaned(w, gone, cs) && cs != []
    ensures Linked(DropLeaf(Detach(w, cs[0]), cs[0]), gone, cs[1..])
  {
    hide Bound, Balanced, DropLeaf;
    var c := cs[0];
    assert ChildOf(w, c, gone);
    var v := DropLeaf(Detach(w, c), c);
    hide Detach;
    forall x ensures LeafLeft(w, v, c, x) { LeafDropped(w, c, x); }
    forall o, i | o in v.objects && 0 <= i < |v.objects[o].children| ensures ChildOf(v, v.objects[o].children[i], o) {
      assert LeafLeft(w, v, c, o) && LeafLeft(w, v, c, v.objects[o].children[i]);
      assert ChildOf(w, w.objects[o].children[i], o);
    }
    forall o, i, j | o in v.objects && 0 <= i < j < |v.objects[o].children|
      ensures v.objects[o].children[i] != v.objects[o].children[j]
    {
      assert LeafLeft(w, v, c, o);
      assert w.objects[o].children[i] != w.objects[o].children[j];
    }
    forall x | x in v.objects && v.objects[x].container.Some?
      ensures var o := v.objects[x].container.value;
        (o in v.objects && x in v.objects[o].children) || (o == gone && x in cs[1..])
    {
      assert LeafLeft(w, v, c, x);
      var o := w.objects[x].container.value;
      assert LeafLeft(w, v, c, o);
      if o in w.objects && x in w.objects[o].children {
        assert o != c;
      }
    }
  }

  // What dropping a surface c leaves of an object.
  predicate LeafLeft(w: World, v: World, c: Id, x: Id) {
    && (x != c ==> (x in v.objects <==> x in w.objects) && (x in w.objects ==> v.objects[x] == w.objects[x]))
    && (x == c && x in v.objects ==> v.objects[x].container.None? && c in w.objects && v.objects[x].children == w.objects[x].children)
  }

  lemma {:induction false} LeafDropped(w: World, c: Id, x: Id)
    requires c in w.objects
    ensures LeafLeft(w, DropLeaf(Detach(w, c), c), c, x)
  {
  }

  lemma {:induction false} DropChildrenOk(w: World, gone: Id, cs: seq<Id>)
    requires Orphaned(w, gone, cs)
    ensures var v := DropChildren(w, cs);
      Inv(v) && v.slots == w.slots && v.client == w.client
    decreases |cs|
  {
    if cs != [] {
      assert ChildOf(w, cs[0], gone);
      DropOne(w, gone, cs);
      hide Orphaned;
      DropChildrenOk(DropLeaf(Detach(w, cs[0]), cs[0]), gone, cs[1..]);
    }
  }

  // ---------------------------------------------------------------- releasing

  // Nothing refers to an object whose count would reach zero.
  lemma {:induction false} UnusedWhenZero(w: World, x: Id)
    requires Owed(w, x) && x in w.objects && w.objects[x].refs <= 1
    ensures Client(w, x) == 0 && Owned(w, x) == 0 && forall i :: 0 <= i < SLOTS ==> w.slots[i] != x
  {
    hide Linked;
    forall i | 0 <= i < SLOTS ensures w.slots[i] != x {
      CountPositive(w.slots, i);
    }
  }

  lemma {:induction false} RemovedLinked(w: World, x: Id)
    requires Linked(w, 0, []) && 0 !in w.objects && x in w.objects && w.objects[x].container.None?
    ensures Linked(w.(objects := w.objects - {x}), x, w.objects[x].children)
  {
    var v := w.(objects := w.objects - {x});
    forall o, i | o in v.objects && 0 <= i < |v.objects[o].children| ensures ChildOf(v, v.objects[o].children[i], o) {
      assert ChildOf(w, w.objects[o].children[i], o);
    }
  }

  lemma {:induction false} RemovedOrphans(w: World, x: Id)
    requires Owed(w, x) && x in w.objects && w.objects[x].refs <= 1
    ensures Orphaned(w.(objects := w.objects - {x}), x, w.objects[x].children)
  {
    UnusedWhenZero(w, x);
    RemovedLinked(w, x);
    var v := w.(objects := w.objects - {x});
    var cs := w.objects[x].children;
    forall i | 0 <= i < |cs| ensures ChildOf(v, cs[i], x) {
      assert ChildOf(w, cs[i], x);
    }
    hide Linked;
    forall y | Client(v, y) > 0 ensures y in v.objects {
      assert Client(w, y) > 0;
    }
  }

  lemma {:induction false} CountedDown(w: World, x: Id)
    requires Owed(w, x) && x in w.objects && w.objects[x].refs > 1
    ensures Inv(WithRefs(w, x, w.objects[x].refs - 1))
  {
    hide Linked;
    RefsKeepLinks(w, x, w.objects[x].refs - 1);
    var v := WithRefs(w, x, w.objects[x].refs - 1);
    forall y | Client(v, y) > 0 ensures y in v.objects { assert Client(w, y) > 0; }
    forall y | y in v.objects ensures 0 < v.objects[y].refs == Expected(v, y) {
      assert 0 < w.objects[y].refs == Expected(w, y) + if y == x then 1 else 0;
    }
  }

  /** Releasing the reference that is one too many restores the balance: whatever is freed was
      not bound, not held by the client and not owned. */
  lemma {:induction false} ReleaseOk(w: World, x: Id)
    requires Owed(w, x) && x in w.objects
    ensures var v := Release(w, x);
      Inv(v) && v.slots == w.slots && v.client == w.client
  {
    hide Orphaned, Owed;
    if w.objects[x].refs > 1 {
      CountedDown(w, x);
    } else {
      RemovedOrphans(w, x);
      DropChildrenOk(w.(objects := w.objects - {x}), x, w.objects[x].children);
    }
  }

  // Changing a count changes no link.
  lemma {:induction false} RefsKeepLinks(w: World, x: Id, refs: int)
    requires Linked(w, 0, []) && x in w.objects
    ensures Linked(WithRefs(w, x, refs), 0, [])
  {
    var v := WithRefs(w, x, refs);
    forall o, i | o in v.objects && 0 <= i < |v.objects[o].children| ensures ChildOf(v, v.objects[o].children[i], o) {
      assert ChildOf(w, w.objects[o].children[i], o);
    }
  }

  // ---------------------------------------------------------------- the device's calls

  datatype Op =
    | CreateObject(id: Id)
    | CreateOwner(id: Id, kids: seq<Id>)
    | ClientAddRef(id: Id)
    | ClientRelease(id: Id)
    | GetSlot(slot: nat)
    | GetChild(owner: Id, level: nat)
    | GetBackBuffer
    | SetSlot(slot: nat, id: Id)
    | SetFvf
    | Reset(chain: Id, back: Id)
    | CloseDevice

  predicate Distinct(ids: seq<Id>) {
    forall i, j :: 0 <= i < j < |ids| ==> ids[i] != ids[j]
  }

  // Fresh ids are not null, not in use and different from each other.
  predicate Fresh(w: World, ids: seq<Id>) {
    Distinct(ids) && forall i :: 0 <= i < |ids| ==> ids[i] != 0 && ids[i] !in w.objects
  }

  // The application passes only pointers it holds a reference to, and calls the device only
  // while it is open; it may release objects after that.
  predicate Enabled(w: World, op: Op) {
    |w.slots| == SLOTS
    && (w.open || op.ClientAddRef? || op.ClientRelease? || op.GetChild?)
    && match op
    case CreateObject(id) => Fresh(w, [id])
    case CreateOwner(id, kids) => Fresh(w, [id] + kids)
    case ClientAddRef(id) => id in w.objects && Client(w, id) > 0
    case ClientRelease(id) => id in w.objects && Client(w, id) > 0
    case GetSlot(slot) => slot < SLOTS && (w.slots[slot] != 0 ==> w.slots[slot] in w.objects)
    case GetBackBuffer => w.slots[SWAPCHAIN] in w.objects && BackBufferAlive(w, w.slots[SWAPCHAIN])
    case GetChild(owner, level) =>
      owner in w.objects && Client(w, owner) > 0 && level < |w.objects[owner].children|
      && w.objects[owner].children[level] in w.objects
    case SetSlot(slot, id) => slot < SWAPCHAIN && (id != 0 ==> id in w.objects && Client(w, id) > 0)
    case SetFvf => true
    case Reset(chain, back) => Fresh(w, [chain, back])
    case CloseDevice => true
  }

  predicate BackBufferAlive(w: World, chain: Id)
    requires chain in w.objects
  {
    w.objects[chain].children != [] ==> w.objects[chain].children[0] in w.objects
  }

  function HandOut(w: World, x: Id): World
    requires x in w.objects
  {
    var v := AddRef(w, x);
    v.(client := v.client[x := Client(w, x) + 1])
  }

  // The surfaces of a new owner, each with one reference and its container.
  function AddKids(objects: map<Id, Object>, owner: Id, kids: seq<Id>): map<Id, Object>
    decreases |kids|
  {
    if kids == [] then objects else AddKids(objects[kids[0] := Object(1, Some(owner), [])], owner, kids[1..])
  }

  function NewOwner(w: World, id: Id, kids: seq<Id>): World {
    w.(objects := AddKids(w.objects[id := Object(1, None, kids)], id, kids))
  }

  // Unbinding a slot: release, then clear.
  function Unbind(w: World, slot: nat): World
    requires slot < |w.slots|
  {
    var v := SafeRelease(w, w.slots[slot]);
    if slot < |v.slots| then v.(slots := v.slots[slot := 0]) else v
  }

  function UnbindFrom(w: World, slot: nat): World
    decreases SLOTS - slot
  {
    if slot >= SLOTS || slot >= |w.slots| then w else UnbindFrom(Unbind(w, slot), slot + 1)
  }

  function Bind(w: World, slot: nat, id: Id): World
    requires slot < |w.slots|
  {
    if w.slots[slot] == id then w
    else
      var added := if id in w.objects then AddRef(w, id) else w;
      var released := SafeRelease(added, w.slots[slot]);
      if slot < |released.slots| then released.(slots := released.slots[slot := id]) else released
  }

  function ResetDevice(w: World, chain: Id, back: Id): World {
    var cleared := UnbindFrom(w, 0);
    var made := NewOwner(cleared, chain, [back]);
    var bound := if back in made.objects then AddRef(made, back) else made;
    if |bound.slots| == SLOTS then bound.(slots := bound.slots[SWAPCHAIN := chain][0 := back]) else bound
  }

  function Next(w: World, op: Op): World
    requires Enabled(w, op)
  {
    match op
    case CreateObject(id) => w.(objects := w.objects[id := Object(1, None, [])], client := w.client[id := 1])
    case CreateOwner(id, kids) =>
      var v := NewOwner(w, id, kids);
      v.(client := v.client[id := 1])
    case ClientAddRef(id) => HandOut(w, id)
    case ClientRelease(id) => Release(w.(client := w.client[id := Client(w, id) - 1]), id)
    case GetSlot(slot) => if w.slots[slot] == 0 then w else HandOut(w, w.slots[slot])
    case GetChild(owner, level) => HandOut(w, w.objects[owner].children[level])
    case GetBackBuffer =>
      var surfaces := w.objects[w.slots[SWAPCHAIN]].children;
      if surfaces == [] then w else HandOut(w, surfaces[0])
    case SetSlot(slot, id) => Bind(w, slot, id)
    case SetFvf => Unbind(w, DECLARATION)
    case Reset(chain, back) => ResetDevice(w, chain, back)
    case CloseDevice => UnbindFrom(w, 0).(open := false)
  }

  /** The device's objects and bindings, with the calls as they update them. */
  class BoundObjects {
    var objects: map<Id, Object>
    var slots: seq<Id>
    var client: map<Id, nat>
    var open: bool

    function Value(): World
      reads this
    {
      World(objects, slots, client, open)
    }

    constructor ()
      ensures Start(Value())
    {
      objects, client, open := map[], map[], true;
      slots := seq(SLOTS, _ => 0);
    }

    method AddReference(x: Id)
      requires x in objects
      modifies `objects
      ensures Value() == AddRef(old(Value()), x)
    {
      objects := objects[x := objects[x].(refs := objects[x].refs + 1)];
    }

    // Release of a surface by the owner that goes away.
    method DropSurface(c: Id)
      requires c in objects
      modifies `objects
      ensures Value() == DropLeaf(Detach(old(Value()), c), c)
    {
      objects := objects[c := objects[c].(container := None)];
      var left := objects[c].refs - 1;
      if left > 0 {
        objects := objects[c := objects[c].(refs := left)];
      } else {
        objects := objects - {c};
      }
    }

    method ReleaseObject(x: Id)
      modifies `objects
      ensures Value() == SafeRelease(old(Value()), x)
    {
      if x !in objects { return; }
      var left := objects[x].refs - 1;
      if left > 0 {
        objects := objects[x := objects[x].(refs := left)];
        return;
      }
      var surfaces := objects[x].children;
      objects := objects - {x};
      ghost var start := Value();
      for i := 0 to |surfaces|
        invariant DropChildren(Value(), surfaces[i..]) == DropChildren(start, surfaces)
        invariant (slots, client, open) == (start.slots, start.client, start.open)
      {
        assert surfaces[i..][0] == surfaces[i] && surfaces[i..][1..] == surfaces[i + 1..];
        if surfaces[i] in objects { DropSurface(surfaces[i]); }
      }
    }

    method SetBinding(slot: nat, id: Id)
      requires slot < |slots|
      modifies `objects, `slots
      ensures Value() == Bind(old(Value()), slot, id)
    {
      if slots[slot] == id { return; }
      ghost var before := Value();
      if id in objects { AddReference(id); }
      ghost var added := Value();
      ReleaseObject(slots[slot]);
      ReleaseKeepsRest(added, slots[slot]);
      slots := slots[slot := id];
    }

    // The device's bindings and its swapchain, in slot order.
    method ReleaseBindings()
      requires |slots| == SLOTS
      modifies `objects, `slots
      ensures Value() == UnbindFrom(old(Value()), 0)
    {
      hide UnbindFrom, SafeRelease;
      ghost var start := Value();
      for i := 0 to SLOTS
        invariant |slots| == SLOTS && client == start.client && open == start.open
        invariant UnbindFrom(Value(), i) == UnbindFrom(start, 0)
      {
        ghost var before := Value();
        ReleaseObject(slots[i]);
        ReleaseKeepsRest(before, slots[i]);
        slots := slots[i := 0];
        UnbindNext(before, i);
      }
      UnbindDone(Value());
    }

    // The device's last release.
    method Close()
      requires |slots| == SLOTS
      modifies `objects, `slots, `open
      ensures Value() == UnbindFrom(old(Value()), 0).(open := false)
    {
      ReleaseBindings();
      open := false;
    }
  }

  lemma {:induction false} UnbindNext(w: World, slot: nat)
    requires slot < SLOTS == |w.slots|
    ensures UnbindFrom(w, slot) == UnbindFrom(Unbind(w, slot), slot + 1)
  {
    hide Unbind;
  }

  lemma {:induction false} UnbindDone(w: World)
    ensures UnbindFrom(w, SLOTS) == w
  {
  }

  lemma {:induction false} DropsKeepRest(w: World, cs: seq<Id>)
    ensures DropChildren(w, cs).slots == w.slots && DropChildren(w, cs).client == w.client
    ensures DropChildren(w, cs).open == w.open
    decreases |cs|
  {
    if cs != [] {
      if cs[0] in w.objects {
        DropsKeepRest(DropLeaf(Detach(w, cs[0]), cs[0]), cs[1..]);
      } else {
        DropsKeepRest(w, cs[1..]);
      }
    }
  }

  lemma {:induction false} ReleaseKeepsRest(w: World, x: Id)
    ensures SafeRelease(w, x).slots == w.slots && SafeRelease(w, x).client == w.client
    ensures SafeRelease(w, x).open == w.open
  {
    if x in w.objects { DropsKeepRest(w.(objects := w.objects - {x}), w.objects[x].children); }
  }

  // ---------------------------------------------------------------- every call keeps the balance

  lemma {:induction false} HandOutOk(w: World, x: Id)
    requires Inv(w) && x in w.objects
    ensures Inv(HandOut(w, x))
  {
    hide Linked;
    var v := HandOut(w, x);
    AddRefOwes(w, x);
    SameObjectsLinked(AddRef(w, x), v);
    forall y | Client(v, y) > 0 ensures y in v.objects {
      if y != x { assert Client(w, y) > 0; }
    }
    forall y | y in v.objects ensures 0 < v.objects[y].refs == Expected(v, y) {
      assert 0 < w.objects[y].refs == Expected(w, y);
    }
  }

  lemma {:induction false} SameObjectsLinked(w: World, v: World)
    requires Linked(w, 0, []) && v.objects == w.objects
    ensures Linked(v, 0, [])
  {
    forall o, i | o in v.objects && 0 <= i < |v.objects[o].children| ensures ChildOf(v, v.objects[o].children[i], o) {
      assert ChildOf(w, w.objects[o].children[i], o);
    }
  }

  // Emptying a slot leaves its object one reference too many.
  lemma {:induction false} EmptiedSlot(w: World, slot: nat)
    requires Inv(w) && slot < SLOTS && w.slots[slot] != 0
    ensures Owed(w.(slots := w.slots[slot := 0]), w.slots[slot])
  {
    var v := w.(slots := w.slots[slot := 0]);
    var bound := w.slots[slot];
    SameObjectsLinked(w, v);
    hide Linked;
    forall x | x in v.objects
      ensures 0 < v.objects[x].refs == Expected(v, x) + if x == bound then 1 else 0
    {
      CountUpdate(w.slots, slot, 0, x);
      assert 0 < w.objects[x].refs == Expected(w, x);
    }
    forall y | Client(v, y) > 0 ensures y in v.objects {
      assert Client(w, y) > 0;
    }
  }

  // Release does not look at the slots.
  lemma {:induction false} DropChildrenSlots(w: World, cs: seq<Id>, slots: seq<Id>)
    ensures DropChildren(w.(slots := slots), cs) == DropChildren(w, cs).(slots := slots)
    decreases |cs|
  {
    if cs != [] {
      if cs[0] in w.objects {
        DropChildrenSlots(DropLeaf(Detach(w, cs[0]), cs[0]), cs[1..], slots);
      } else {
        DropChildrenSlots(w, cs[1..], slots);
      }
    }
  }

  lemma {:induction false} ReleaseSlots(w: World, x: Id, slots: seq<Id>)
    requires x in w.objects
    ensures Release(w.(slots := slots), x) == Release(w, x).(slots := slots)
  {
    if w.objects[x].refs <= 1 {
      DropChildrenSlots(w.(objects := w.objects - {x}), w.objects[x].children, slots);
    }
  }

  lemma {:induction false} UnbindOk(w: World, slot: nat)
    requires Inv(w) && slot < SLOTS
    ensures var v := Unbind(w, slot);
      Inv(v) && v.slots == w.slots[slot := 0] && v.client == w.client
  {
    var bound := w.slots[slot];
    if bound != 0 {
      EmptiedSlot(w, slot);
      ReleaseOk(w.(slots := w.slots[slot := 0]), bound);
      ReleaseSlots(w, bound, w.slots[slot := 0]);
      ReleaseKeepsRest(w, bound);
    } else {
      assert w.slots[slot := 0] == w.slots;
    }
  }

  lemma {:induction false} UnbindFromOk(w: World, slot: nat)
    requires Inv(w) && slot <= SLOTS && forall i :: 0 <= i < slot ==> w.slots[i] == 0
    ensures var v := UnbindFrom(w, slot);
      Inv(v) && v.client == w.client && forall i :: 0 <= i < SLOTS ==> v.slots[i] == 0
    decreases SLOTS - slot
  {
    if slot < SLOTS {
      UnbindOk(w, slot);
      hide Unbind;
      UnbindFromOk(Unbind(w, slot), slot + 1);
    }
  }

  // A slot that is filled accounts for one reference more.
  lemma {:induction false} FilledSlot(w: World, slot: nat, id: Id)
    requires Owed(w, id) && slot < SLOTS && w.slots[slot] == 0 && id in w.objects && id != 0
    ensures Inv(w.(slots := w.slots[slot := id]))
  {
    var v := w.(slots := w.slots[slot := id]);
    SameObjectsLinked(w, v);
    hide Linked;
    forall x | x in v.objects ensures 0 < v.objects[x].refs == Expected(v, x) {
      CountUpdate(w.slots, slot, id, x);
      assert 0 < w.objects[x].refs == Expected(w, x) + if x == id then 1 else 0;
    }
    forall y | Client(v, y) > 0 ensures y in v.objects {
      assert Client(w, y) > 0;
    }
  }

  lemma {:induction false} AddRefOwes(w: World, x: Id)
    requires Inv(w) && x in w.objects
    ensures Owed(AddRef(w, x), x)
  {
    RefsKeepLinks(w, x, w.objects[x].refs + 1);
    hide Linked;
    var v := AddRef(w, x);
    forall y | Client(v, y) > 0 ensures y in v.objects {
      assert Client(w, y) > 0;
    }
  }

  // One object's balance when its slot changes hands.
  lemma {:induction false} SwappedRefs(w: World, slot: nat, id: Id, x: Id)
    requires |w.slots| == SLOTS && slot < SLOTS && w.slots[slot] != id && x in w.objects
    requires w.objects[x].refs == Expected(w, x) + if x == id then 1 else 0
    ensures w.objects[x].refs == Expected(w.(slots := w.slots[slot := id]), x) + if x == w.slots[slot] then 1 else 0
  {
    CountUpdate(w.slots, slot, id, x);
    hide Count;
  }

  // Swapping a slot's object, after the new one got its reference, leaves the old one due.
  lemma {:induction false} SwappedSlot(w: World, slot: nat, id: Id)
    requires Owed(w, id) && slot < SLOTS && w.slots[slot] != id && w.slots[slot] != 0 && id in w.objects
    ensures Owed(w.(slots := w.slots[slot := id]), w.slots[slot])
  {
    var v := w.(slots := w.slots[slot := id]);
    SameObjectsLinked(w, v);
    hide Linked, Count, Owned;
    forall x | x in v.objects ensures 0 < v.objects[x].refs == Expected(v, x) + if x == w.slots[slot] then 1 else 0 {
      assert 0 < w.objects[x].refs == Expected(w, x) + if x == id then 1 else 0;
      SwappedRefs(w, slot, id, x);
    }
    forall y | Client(v, y) > 0 ensures y in v.objects {
      assert Client(w, y) > 0;
    }
  }

  lemma {:induction false} BindOk(w: World, slot: nat, id: Id)
    requires Inv(w) && slot < SLOTS && (id != 0 ==> id in w.objects)
    ensures Inv(Bind(w, slot, id)) && Bind(w, slot, id).slots == w.slots[slot := id]
    ensures Bind(w, slot, id).client == w.client
  {
    var gone := w.slots[slot];
    if gone == id {
      assert w.slots[slot := id] == w.slots;
    } else if id == 0 {
      UnbindOk(w, slot);
    } else {
      var added := AddRef(w, id);
      if gone == 0 {
        AddRefOwes(w, id);
        hide Owed;
        FilledSlotOwed(added, slot, id);
      } else {
        AddRefOwes(w, id);
        SwappedSlot(added, slot, id);
        ReleaseOk(added.(slots := w.slots[slot := id]), gone);
        ReleaseSlots(added, gone, w.slots[slot := id]);
        ReleaseKeepsRest(added, gone);
        hide Release, AddRef, Owed;
      }
    }
  }

  lemma {:induction false} FilledSlotOwed(w: World, slot: nat, id: Id)
    requires Owed(w, id) && slot < SLOTS && w.slots[slot] == 0 && id in w.objects && id != 0
    ensures Inv(w.(slots := w.slots[slot := id]))
  {
    FilledSlot(w, slot, id);
  }

  // ---------------------------------------------------------------- creation

  lemma {:induction false} AddKidsAre(objects: map<Id, Object>, owner: Id, kids: seq<Id>, x: Id)
    ensures var after := AddKids(objects, owner, kids);
      if x in kids then x in after && after[x] == Object(1, Some(owner), [])
      else (x in after <==> x in objects) && (x in objects ==> after[x] == objects[x])
    decreases |kids|
  {
    if kids != [] {
      AddKidsAre(objects[kids[0] := Object(1, Some(owner), [])], owner, kids[1..], x);
    }
  }

  lemma {:induction false} FreshParts(w: World, id: Id, kids: seq<Id>)
    requires Fresh(w, [id] + kids)
    ensures id != 0 && id !in w.objects && id !in kids && Distinct(kids)
    ensures forall k :: k in kids ==> k != 0 && k !in w.objects
  {
    var all := [id] + kids;
    assert all[0] == id;
    forall i | 0 <= i < |kids| ensures kids[i] != 0 && kids[i] !in w.objects && kids[i] != id {
      assert all[i + 1] == kids[i];
    }
    forall i, j | 0 <= i < j < |kids| ensures kids[i] != kids[j] {
      assert all[i + 1] == kids[i] && all[j + 1] == kids[j];
    }
  }

  // Every object of a world with a new owner.
  lemma {:induction false} NewOwnerObjects(w: World, id: Id, kids: seq<Id>, x: Id)
    requires Fresh(w, [id] + kids)
    ensures var v := NewOwner(w, id, kids);
      && (x in v.objects <==> x in w.objects || x == id || x in kids)
      && (x == id ==> v.objects[x] == Object(1, None, kids))
      && (x in kids ==> v.objects[x] == Object(1, Some(id), []))
      && (x in w.objects ==> v.objects[x] == w.objects[x])
  {
    FreshParts(w, id, kids);
    AddKidsAre(w.objects[id := Object(1, None, kids)], id, kids, x);
  }

  lemma {:induction false} NewOwnerLinked(w: World, id: Id, kids: seq<Id>)
    requires Inv(w) && Fresh(w, [id] + kids)
    ensures Linked(NewOwner(w, id, kids), 0, [])
  {
    hide NewOwner, Balanced;
    FreshParts(w, id, kids);
    var v := NewOwner(w, id, kids);
    forall x: Id ensures (x in v.objects <==> x in w.objects || x == id || x in kids)
      && (x == id ==> v.objects[x] == Object(1, None, kids))
      && (x in kids ==> v.objects[x] == Object(1, Some(id), []))
      && (x in w.objects ==> v.objects[x] == w.objects[x])
    {
      NewOwnerObjects(w, id, kids, x);
    }
    forall o, i | o in v.objects && 0 <= i < |v.objects[o].children| ensures ChildOf(v, v.objects[o].children[i], o) {
      if o == id {
        assert kids[i] in kids;
      } else {
        assert o in w.objects;
        assert ChildOf(w, w.objects[o].children[i], o);
      }
    }
  }

  lemma {:induction false} NewOwnerOk(w: World, id: Id, kids: seq<Id>)
    requires Inv(w) && Fresh(w, [id] + kids)
    ensures Owed(NewOwner(w, id, kids), id)
    ensures NewOwner(w, id, kids).slots == w.slots && NewOwner(w, id, kids).client == w.client
  {
    NewOwnerLinked(w, id, kids);
    FreshParts(w, id, kids);
    hide Linked, NewOwner, AddKids;
    var v := NewOwner(w, id, kids);
    assert v.slots == w.slots && v.client == w.client by { NewOwnerRest(w, id, kids); }
    forall x | x in v.objects ensures 0 < v.objects[x].refs == Expected(v, x) + if x == id then 1 else 0 {
      NewOwnerObjects(w, id, kids, x);
      if x !in w.objects {
        NothingRefers(w, x);
      } else {
        assert 0 < w.objects[x].refs == Expected(w, x);
      }
    }
    NewOwnerObjects(w, id, kids, 0);
    forall i | 0 <= i < SLOTS && v.slots[i] != 0 ensures v.slots[i] in v.objects {
      NewOwnerObjects(w, id, kids, v.slots[i]);
    }
    forall y | Client(v, y) > 0 ensures y in v.objects {
      assert Client(w, y) > 0;
      NewOwnerObjects(w, id, kids, y);
    }
  }

  lemma {:induction false} NewOwnerRest(w: World, id: Id, kids: seq<Id>)
    ensures NewOwner(w, id, kids).slots == w.slots && NewOwner(w, id, kids).client == w.client
  {
  }

  // An id that is not in use has no references.
  lemma {:induction false} NothingRefers(w: World, x: Id)
    requires Inv(w) && x !in w.objects && x != 0
    ensures Client(w, x) == 0 && Count(w.slots, x) == 0
  {
    hide Linked;
    if Count(w.slots, x) > 0 {
      var i := FindCount(w.slots, x);
    }
  }

  lemma {:induction false} FindCount(s: seq<Id>, x: Id) returns (i: nat)
    requires Count(s, x) > 0
    ensures i < |s| && s[i] == x
    decreases |s|
  {
    if s[0] == x {
      i := 0;
    } else {
      var j := FindCount(s[1..], x);
      i := j + 1;
    }
  }

  // The client's first reference settles what a new object owes.
  lemma {:induction false} ClientSettles(w: World, id: Id)
    requires Owed(w, id) && id in w.objects && Client(w, id) == 0
    ensures Inv(w.(client := w.client[id := 1]))
  {
    hide Linked, Count;
    var v := w.(client := w.client[id := 1]);
    SameObjectsLinked(w, v);
    forall x | x in v.objects ensures 0 < v.objects[x].refs == Expected(v, x) {
      assert 0 < w.objects[x].refs == Expected(w, x) + if x == id then 1 else 0;
    }
    forall y | Client(v, y) > 0 ensures y in v.objects {
      if y != id { assert Client(w, y) > 0; }
    }
  }

  lemma {:induction false} CreateOwnerOk(w: World, id: Id, kids: seq<Id>)
    requires Inv(w) && Fresh(w, [id] + kids)
    ensures var v := NewOwner(w, id, kids);
      Inv(v.(client := v.client[id := 1]))
  {
    NewOwnerOk(w, id, kids);
    FreshParts(w, id, kids);
    NothingRefers(w, id);
    NewOwnerObjects(w, id, kids, id);
    hide NewOwner, Owed;
    ClientSettles(NewOwner(w, id, kids), id);
  }

  // ---------------------------------------------------------------- reset

  predicate Shrinks(w: World, v: World) {
    forall x :: x in v.objects ==> x in w.objects
  }

  lemma {:induction false} DropChildrenShrinks(w: World, cs: seq<Id>)
    ensures Shrinks(w, DropChildren(w, cs))
    decreases |cs|
  {
    if cs != [] {
      if cs[0] in w.objects {
        DropChildrenShrinks(DropLeaf(Detach(w, cs[0]), cs[0]), cs[1..]);
      } else {
        DropChildrenShrinks(w, cs[1..]);
      }
    }
  }

  lemma {:induction false} UnbindShrinks(w: World, slot: nat)
    requires slot < |w.slots|
    ensures Shrinks(w, Unbind(w, slot))
  {
    var x := w.slots[slot];
    if x in w.objects && w.objects[x].refs <= 1 {
      DropChildrenShrinks(w.(objects := w.objects - {x}), w.objects[x].children);
    }
  }

  lemma {:induction false} UnbindFromShrinks(w: World, slot: nat)
    ensures Shrinks(w, UnbindFrom(w, slot))
    decreases SLOTS - slot
  {
    if slot < SLOTS && slot < |w.slots| {
      UnbindShrinks(w, slot);
      hide Unbind;
      UnbindFromShrinks(Unbind(w, slot), slot + 1);
    }
  }

  lemma {:induction false} ResetOk(w: World, chain: Id, back: Id)
    requires Inv(w) && Fresh(w, [chain, back])
    ensures Inv(ResetDevice(w, chain, back))
  {
    UnbindFromOk(w, 0);
    UnbindFromShrinks(w, 0);
    var cleared := UnbindFrom(w, 0);
    assert [chain, back] == [chain] + [back];
    assert [chain, back][0] == chain && [chain, back][1] == back;
    assert Fresh(cleared, [chain] + [back]);
    NewOwnerOk(cleared, chain, [back]);
    NewOwnerObjects(cleared, chain, [back], chain);
    NewOwnerObjects(cleared, chain, [back], back);
    hide UnbindFrom, NewOwner, Linked, Balanced;
    var made := NewOwner(cleared, chain, [back]);
    assert back in [back];
    var filled := made.(slots := made.slots[SWAPCHAIN := chain]);
    FilledSlot(made, SWAPCHAIN, chain);
    AddRefOwes(filled, back);
    FilledSlot(AddRef(filled, back), 0, back);
  }

  // ---------------------------------------------------------------- runs

  // A reference that the client gives up is one too many.
  lemma {:induction false} GivenUp(w: World, id: Id)
    requires Inv(w) && id in w.objects && Client(w, id) > 0
    ensures Owed(w.(client := w.client[id := Client(w, id) - 1]), id)
  {
    hide Linked;
    var v := w.(client := w.client[id := Client(w, id) - 1]);
    SameObjectsLinked(w, v);
    forall x | x in v.objects ensures 0 < v.objects[x].refs == Expected(v, x) + if x == id then 1 else 0 {
      assert 0 < w.objects[x].refs == Expected(w, x);
    }
    forall y | Client(v, y) > 0 ensures y in v.objects {
      assert Client(w, y) > 0;
    }
  }

  lemma {:induction false} ClientReleaseOk(w: World, id: Id)
    requires Inv(w) && id in w.objects && Client(w, id) > 0
    ensures Inv(Release(w.(client := w.client[id := Client(w, id) - 1]), id))
  {
    hide Owed, Release;
    GivenUp(w, id);
    ReleaseOk(w.(client := w.client[id := Client(w, id) - 1]), id);
  }

  lemma {:induction false} CreateObjectOk(w: World, id: Id)
    requires Inv(w) && Fresh(w, [id])
    ensures Inv(w.(objects := w.objects[id := Object(1, None, [])], client := w.client[id := 1]))
  {
    assert [id] + [] == [id];
    CreateOwnerOk(w, id, []);
    assert NewOwner(w, id, []).objects == w.objects[id := Object(1, None, [])];
  }

  lemma {:induction false} FlagKeeps(w: World)
    requires Inv(w)
    ensures Inv(w.(open := false))
  {
    hide Linked;
    var v := w.(open := false);
    SameObjectsLinked(w, v);
    forall x | x in v.objects ensures 0 < v.objects[x].refs == Expected(v, x) {
      assert 0 < w.objects[x].refs == Expected(w, x);
    }
    forall y | Client(v, y) > 0 ensures y in v.objects { assert Client(w, y) > 0; }
  }

  lemma {:induction false} CloseOk(w: World)
    requires Inv(w)
    ensures Inv(UnbindFrom(w, 0).(open := false))
  {
    hide UnbindFrom, Balanced, Linked;
    NothingBefore(w);
    UnbindFromOk(w, 0);
    FlagKeeps(UnbindFrom(w, 0));
  }

  lemma {:induction false} NothingBefore(w: World)
    requires Inv(w)
    ensures |w.slots| == SLOTS
  {
  }

  lemma {:induction false} StepKeepsInv(w: World, op: Op)
    requires Inv(w) && Enabled(w, op)
    ensures Inv(Next(w, op))
  {
    hide Inv, Release, HandOut, Bind, Unbind, ResetDevice, NewOwner;
    match op
    case CreateObject(id) => CreateObjectOk(w, id);
    case CreateOwner(id, kids) => CreateOwnerOk(w, id, kids);
    case ClientAddRef(id) => HandOutOk(w, id);
    case ClientRelease(id) => ClientReleaseOk(w, id);
    case GetSlot(slot) => if w.slots[slot] != 0 { HandOutOk(w, w.slots[slot]); }
    case GetChild(owner, level) => HandOutOk(w, w.objects[owner].children[level]);
    case SetSlot(slot, id) => BindOk(w, slot, id);
    case SetFvf => UnbindOk(w, DECLARATION);
    case Reset(chain, back) => ResetOk(w, chain, back);
    case GetBackBuffer =>
      var surfaces := w.objects[w.slots[SWAPCHAIN]].children;
      if surfaces != [] { HandOutOk(w, surfaces[0]); }
    case CloseDevice => CloseOk(w);
  }

  // ---------------------------------------------------------------- what a call gives and binds

  // How many more references to an object a call leaves with the client.
  function Given(w: World, op: Op, x: Id): int
    requires Enabled(w, op)
  {
    match op
    case CreateObject(id) => if x == id then 1 else 0
    case CreateOwner(id, _) => if x == id then 1 else 0
    case ClientAddRef(id) => if x == id then 1 else 0
    case ClientRelease(id) => if x == id then -1 else 0
    case GetSlot(slot) => if x == w.slots[slot] != 0 then 1 else 0
    case GetChild(owner, level) => if x == w.objects[owner].children[level] then 1 else 0
    case GetBackBuffer =>
      var surfaces := w.objects[w.slots[SWAPCHAIN]].children;
      if surfaces != [] && x == surfaces[0] then 1 else 0
    case _ => 0
  }

  // What a slot holds after a call.
  function HeldAfter(w: World, op: Op, slot: nat): Id
    requires |w.slots| == SLOTS && slot < SLOTS
  {
    match op
    case SetSlot(at, id) => if slot == at then id else w.slots[slot]
    case SetFvf => if slot == DECLARATION then 0 else w.slots[slot]
    case Reset(chain, back) => if slot == SWAPCHAIN then chain else if slot == 0 then back else 0
    case CloseDevice => 0
    case _ => w.slots[slot]
  }

  // The surfaces a live object owns after a call.
  function OwnsAfter(w: World, op: Op, x: Id): seq<Id> {
    if op.CreateOwner? && x == op.id then op.kids
    else if op.Reset? && x == op.chain then [op.back]
    else if x in w.objects then w.objects[x].children
    else []
  }

  ghost predicate Owns(w: World, op: Op, v: World) {
    forall x :: x in v.objects ==> v.objects[x].children == OwnsAfter(w, op, x)
  }

  // What is left has the surfaces it had.
  ghost predicate KeepsSurfaces(w: World, v: World) {
    forall x :: x in v.objects ==> x in w.objects && v.objects[x].children == w.objects[x].children
  }

  lemma {:induction false} DropsKeepSurfaces(w: World, cs: seq<Id>)
    ensures KeepsSurfaces(w, DropChildren(w, cs))
    decreases |cs|
  {
    if cs != [] {
      if cs[0] in w.objects {
        DropsKeepSurfaces(DropLeaf(Detach(w, cs[0]), cs[0]), cs[1..]);
      } else {
        DropsKeepSurfaces(w, cs[1..]);
      }
    }
  }

  lemma {:induction false} ReleaseKeepsSurfaces(w: World, x: Id)
    ensures KeepsSurfaces(w, SafeRelease(w, x))
  {
    if x in w.objects { DropsKeepSurfaces(w.(objects := w.objects - {x}), w.objects[x].children); }
  }

  lemma {:induction false} UnbindKeepsSurfaces(w: World, slot: nat)
    ensures KeepsSurfaces(w, UnbindFrom(w, slot))
    decreases SLOTS - slot
  {
    if slot < SLOTS && slot < |w.slots| {
      ReleaseKeepsSurfaces(w, w.slots[slot]);
      hide SafeRelease;
      UnbindKeepsSurfaces(Unbind(w, slot), slot + 1);
    }
  }

  lemma {:induction false} BindKeepsSurfaces(w: World, slot: nat, id: Id)
    requires slot < |w.slots|
    ensures KeepsSurfaces(w, Bind(w, slot, id))
  {
    var added := if id in w.objects then AddRef(w, id) else w;
    ReleaseKeepsSurfaces(added, w.slots[slot]);
    hide SafeRelease;
  }

  lemma {:induction false} NewOwnerOwns(w: World, id: Id, kids: seq<Id>)
    requires Fresh(w, [id] + kids)
    ensures var v := NewOwner(w, id, kids);
      forall x :: x in v.objects ==>
        && (x == id || x in kids || x in w.objects)
        && v.objects[x].children == if x == id then kids else if x in w.objects then w.objects[x].children else []
  {
    FreshParts(w, id, kids);
    hide NewOwner;
    var v := NewOwner(w, id, kids);
    forall x | x in v.objects
      ensures x == id || x in kids || x in w.objects
      ensures v.objects[x].children == if x == id then kids else if x in w.objects then w.objects[x].children else []
    {
      NewOwnerObjects(w, id, kids, x);
    }
  }

  lemma {:induction false} ResetOwns(w: World, chain: Id, back: Id)
    requires Fresh(w, [chain, back])
    ensures Owns(w, Reset(chain, back), ResetDevice(w, chain, back))
  {
    hide UnbindFrom, NewOwner;
    UnbindFromShrinks(w, 0);
    UnbindKeepsSurfaces(w, 0);
    assert [chain, back] == [chain] + [back];
    assert [chain, back][0] == chain && [chain, back][1] == back;
    NewOwnerOwns(UnbindFrom(w, 0), chain, [back]);
  }

  lemma {:induction false} ReleaseOwns(w: World, op: Op)
    requires Enabled(w, op) && (op.ClientRelease? || op.SetSlot? || op.SetFvf? || op.CloseDevice?)
    ensures Owns(w, op, Next(w, op))
  {
    hide SafeRelease, Bind, UnbindFrom;
    match op
    case ClientRelease(id) => ReleaseKeepsSurfaces(w.(client := w.client[id := Client(w, id) - 1]), id); ReleaseIsSafe(w, id);
    case SetSlot(slot, id) => BindKeepsSurfaces(w, slot, id);
    case SetFvf => ReleaseKeepsSurfaces(w, w.slots[DECLARATION]);
    case CloseDevice => UnbindKeepsSurfaces(w, 0);
  }

  lemma {:induction false} ReleaseIsSafe(w: World, id: Id)
    requires id in w.objects && Client(w, id) > 0
    ensures var given := w.(client := w.client[id := Client(w, id) - 1]);
      SafeRelease(given, id) == Release(given, id)
  {
  }

  lemma {:induction false} CreationOwns(w: World, op: Op)
    requires Enabled(w, op) && (op.CreateObject? || op.CreateOwner?)
    ensures Owns(w, op, Next(w, op))
  {
    if op.CreateOwner? {
      hide NewOwner;
      NewOwnerOwns(w, op.id, op.kids);
    } else {
      assert [op.id][0] == op.id;
    }
  }

  /** What each call makes of ownership: a new texture owns the surfaces it was made with, a reset
      leaves a swapchain that owns its back buffer, and no call changes what another object owns. */
  lemma {:induction false} OwnershipKept(w: World, op: Op)
    requires Enabled(w, op)
    ensures Owns(w, op, Next(w, op))
  {
    hide Release, Bind, Unbind, ResetDevice, NewOwner, UnbindFrom;
    match op
    case CreateObject(_) => CreationOwns(w, op);
    case CreateOwner(_, _) => CreationOwns(w, op);
    case ClientRelease(_) => ReleaseOwns(w, op);
    case SetSlot(_, _) => ReleaseOwns(w, op);
    case SetFvf => ReleaseOwns(w, op);
    case CloseDevice => ReleaseOwns(w, op);
    case Reset(chain, back) => ResetOwns(w, chain, back);
    case _ =>
  }

  lemma {:induction false} HandOutGives(w: World, x: Id)
    requires x in w.objects
    ensures var v := HandOut(w, x);
      v.slots == w.slots && v.open == w.open && forall y :: Client(v, y) == Client(w, y) + if y == x then 1 else 0
  {
  }

  lemma {:induction false} KeepsLength(w: World)
    requires Inv(w)
    ensures |w.slots| == SLOTS && |UnbindFrom(w, 0).slots| == SLOTS
  {
    UnbindFromOk(w, 0);
    hide UnbindFrom, Linked, Balanced;
  }

  lemma {:induction false} ResetGives(w: World, chain: Id, back: Id)
    requires Inv(w) && Fresh(w, [chain, back])
    ensures var v := ResetDevice(w, chain, back);
      && v.client == w.client && |w.slots| == |v.slots| == SLOTS
      && forall i :: 0 <= i < SLOTS ==> v.slots[i] == HeldAfter(w, Reset(chain, back), i)
  {
    hide Inv, UnbindFrom, NewOwner;
    KeepsLength(w);
    UnbindFromOk(w, 0);
    NewOwnerRest(UnbindFrom(w, 0), chain, [back]);
  }

  lemma {:induction false} CreationGives(w: World, op: Op)
    requires Inv(w) && Enabled(w, op) && (op.CreateObject? || op.CreateOwner?)
    ensures var v := Next(w, op);
      v.slots == w.slots && forall x :: Client(v, x) == Client(w, x) + Given(w, op, x)
  {
    hide Linked, Balanced, NewOwner;
    var kids := if op.CreateOwner? then op.kids else [];
    assert op.CreateObject? ==> [op.id] + kids == [op.id];
    FreshParts(w, op.id, kids);
    NewOwnerRest(w, op.id, kids);
    assert Client(w, op.id) == 0;
  }

  /** What each call does that can be seen from outside: a creation, an AddRef or a Get gives the
      client exactly one more reference to its object, a Release takes one, and no other call
      changes what the client holds; a Set, the FVF, a reset and the last release leave in every
      slot what they should, and no other call touches one. */
  lemma {:induction false} CallEffects(w: World, op: Op)
    requires Inv(w) && Enabled(w, op)
    ensures var v := Next(w, op);
      && (forall x :: Client(v, x) == Client(w, x) + Given(w, op, x))
      && |v.slots| == SLOTS && (forall i :: 0 <= i < SLOTS ==> v.slots[i] == HeldAfter(w, op, i))
  {
    hide Inv, Release, HandOut, Bind, Unbind, ResetDevice, NewOwner, UnbindFrom;
    match op
    case CreateObject(id) => CreationGives(w, op);
    case CreateOwner(id, kids) => CreationGives(w, op);
    case ClientAddRef(id) => HandOutGives(w, id);
    case ClientRelease(id) => ReleaseGives(w, id);
    case GetSlot(slot) => if w.slots[slot] != 0 { HandOutGives(w, w.slots[slot]); }
    case GetChild(owner, level) => HandOutGives(w, w.objects[owner].children[level]);
    case SetSlot(slot, id) => BindOk(w, slot, id);
    case SetFvf => UnbindOk(w, DECLARATION);
    case Reset(chain, back) => ResetGives(w, chain, back);
    case GetBackBuffer =>
      var surfaces := w.objects[w.slots[SWAPCHAIN]].children;
      if surfaces != [] { HandOutGives(w, surfaces[0]); }
    case CloseDevice =>
      UnbindFromOk(w, 0);
      KeepsLength(w);
  }

  lemma {:induction false} ReleaseGives(w: World, id: Id)
    requires id in w.objects && Client(w, id) > 0
    ensures var v := Release(w.(client := w.client[id := Client(w, id) - 1]), id);
      v.slots == w.slots && forall x :: Client(v, x) == Client(w, x) - if x == id then 1 else 0
  {
    ReleaseKeepsRest(w.(client := w.client[id := Client(w, id) - 1]), id);
    hide Release;
  }

  predicate Possible(w: World, ops: seq<Op>)
    decreases |ops|
  {
    ops == [] || (Enabled(w, ops[0]) && Possible(Next(w, ops[0]), ops[1..]))
  }

  function Run(w: World, ops: seq<Op>): World
    requires Possible(w, ops)
    decreases |ops|
  {
    if ops == [] then w else Run(Next(w, ops[0]), ops[1..])
  }

  ghost predicate Start(w: World) {
    w.open && w.objects == map[] && w.client == map[] && |w.slots| == SLOTS && forall i :: 0 <= i < SLOTS ==> w.slots[i] == 0
  }

  lemma {:induction false} RunKeepsInv(w: World, ops: seq<Op>)
    requires Inv(w) && Possible(w, ops)
    ensures Inv(Run(w, ops))
    decreases |ops|
  {
    hide Inv, Enabled, Next;
    if ops != [] {
      StepKeepsInv(w, ops[0]);
      RunKeepsInv(Next(w, ops[0]), ops[1..]);
    }
  }

  /** Conservation: in every run, each live object's count is the client's references plus the
      slots it is bound to plus its owner's reference; what is bound or held by the client is
      alive; and a surface's container is null or a live owner that lists the surface. */
  lemma {:induction false} CountsConserved(w: World, ops: seq<Op>)
    requires Start(w) && Possible(w, ops)
    ensures var v := Run(w, ops);
      && (forall x :: x in v.objects ==> v.objects[x].refs == Client(v, x) + Count(v.slots, x) + Owned(v, x))
      && (forall i :: 0 <= i < |v.slots| && v.slots[i] != 0 ==> v.slots[i] in v.objects)
      && (forall x :: Client(v, x) > 0 ==> x in v.objects)
      && (forall c {:trigger v.objects[c]} :: c in v.objects && v.objects[c].container.Some? ==>
            v.objects[c].container.value in v.objects && c in v.objects[v.objects[c].container.value].children)
  {
    RunKeepsInv(w, ops);
    hide Run, Possible;
  }

  // A closed device binds nothing.
  ghost predicate ClosedUnbound(w: World) {
    !w.open ==> |w.slots| == SLOTS && forall i :: 0 <= i < SLOTS ==> w.slots[i] == 0
  }

  lemma {:induction false} StepClosed(w: World, op: Op)
    requires Inv(w) && ClosedUnbound(w) && Enabled(w, op)
    ensures ClosedUnbound(Next(w, op))
  {
    if op.CloseDevice? {
      UnbindFromOk(w, 0);
    } else if op.ClientRelease? {
      ReleaseKeepsRest(w.(client := w.client[op.id := Client(w, op.id) - 1]), op.id);
    } else if w.open {
      StaysOpen(w, op);
    }
    hide Inv, UnbindFrom, Release, ResetDevice, Bind, Unbind, NewOwner;
  }

  lemma {:induction false} StaysOpen(w: World, op: Op)
    requires Enabled(w, op) && w.open && !op.CloseDevice?
    ensures Next(w, op).open
  {
    match op
    case SetSlot(slot, id) =>
      if w.slots[slot] != id {
        ReleaseKeepsRest(if id in w.objects then AddRef(w, id) else w, w.slots[slot]);
      }
    case SetFvf => ReleaseKeepsRest(w, w.slots[DECLARATION]);
    case Reset(chain, back) => UnbindFromOpen(w, 0);
    case ClientRelease(id) => ReleaseKeepsRest(w.(client := w.client[id := Client(w, id) - 1]), id);
    case _ =>
  }

  lemma {:induction false} UnbindFromOpen(w: World, slot: nat)
    ensures UnbindFrom(w, slot).open == w.open
    decreases SLOTS - slot
  {
    if slot < SLOTS && slot < |w.slots| {
      ReleaseKeepsRest(w, w.slots[slot]);
      UnbindFromOpen(Unbind(w, slot), slot + 1);
    }
  }

  lemma {:induction false} RunClosed(w: World, ops: seq<Op>)
    requires Inv(w) && ClosedUnbound(w) && Possible(w, ops)
    ensures ClosedUnbound(Run(w, ops))
    decreases |ops|
  {
    hide Inv, ClosedUnbound, Enabled, Next;
    if ops != [] {
      StepKeepsInv(w, ops[0]);
      StepClosed(w, ops[0]);
      RunClosed(Next(w, ops[0]), ops[1..]);
    }
  }

  lemma {:induction false} CountNothing(s: seq<Id>, x: Id)
    requires x != 0 && forall i :: 0 <= i < |s| ==> s[i] == 0
    ensures Count(s, x) == 0
    decreases |s|
  {
    if s != [] { CountNothing(s[1..], x); }
  }

  lemma {:induction false} OwnedOwnNothing(w: World, c: Id)
    requires Linked(w, 0, []) && c in w.objects && w.objects[c].container.Some?
    ensures w.objects[c].children == []
  {
    var o := w.objects[c].container.value;
    var j :| 0 <= j < |w.objects[o].children| && w.objects[o].children[j] == c;
    assert ChildOf(w, w.objects[o].children[j], o);
  }

  /** After the device's last release nothing leaks: what is still alive is held by the client,
      or belongs to an owner that is. */
  lemma {:induction false} ClosedHoldsNothing(w: World, ops: seq<Op>, x: Id)
    requires Start(w) && Possible(w, ops) && !Run(w, ops).open && x in Run(w, ops).objects
    ensures var v := Run(w, ops);
      Client(v, x) > 0
      || (v.objects[x].container.Some? && v.objects[x].container.value in v.objects && Client(v, v.objects[x].container.value) > 0)
  {
    RunKeepsInv(w, ops);
    RunClosed(w, ops);
    var v := Run(w, ops);
    hide Run, Possible, Start;
    if Client(v, x) == 0 {
      CountNothing(v.slots, x);
      assert 0 < v.objects[x].refs == Expected(v, x);
      var o := v.objects[x].container.value;
      CountNothing(v.slots, o);
      assert o in v.objects && x in v.objects[o].children;
      if v.objects[o].container.Some? { OwnedOwnNothing(v, o); }
      assert 0 < v.objects[o].refs == Expected(v, o);
    }
  }
}
