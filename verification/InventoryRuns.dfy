/**
  Runs of calls on the inventory. First, when a run keeps each item in one place. Second,
  that handles, cells and bags amount to a plain table from ids to items with the display
  order of the ids, which has no aliases. Third, what a lookup finds after any run.
 */
module InventoryRuns {
  import opened Wrappers
  import opened Inventory

  datatype Op =
    | AddOp(x: Item, h: Handle)
    | RemoveOp(x: Item)
    | EquipOp(uid: nat, slot: nat, h: Handle)
    | UnequipOp(slot: nat, h: Handle)
    | SwapOp(a: nat, b: nat)
    | FillOp(slot: nat, x: Item)

  /** What the source demands: live items with a category, a handle from malloc not in use, ids that are present. */
  predicate Callable(s: State, op: Op)
    requires Valid(s)
  {
    match op
    case AddOp(x, h) => x.category < CATS && x !in s.gone && h !in s.cells
    case RemoveOp(x) => x.category < CATS && x !in s.gone
    case EquipOp(uid, slot, h) => Usable(s, slot) && h !in s.cells
    case UnequipOp(slot, h) => Usable(s, slot) && h !in s.cells
    case SwapOp(a, b) => a in s.items && b in s.items
    case FillOp(slot, x) => x !in s.gone
  }

  function Step(s: State, op: Op): State
    requires Valid(s) && Callable(s, op)
  {
    match op
    case AddOp(x, h) => Add(s, x, h).0
    case RemoveOp(x) => Remove(s, x)
    case EquipOp(uid, slot, h) => Equip(s, uid, slot, h).0
    case UnequipOp(slot, h) => Unequip(s, slot, h).0
    case SwapOp(a, b) => Swap(s, a, b).0
    case FillOp(slot, x) => Fill(s, slot, x)
  }

  /**
    What a caller can check beforehand: the item that a removal or an equip is going to destroy
    has the category of the item that it is called for.
   */
  predicate Safe(s: State, op: Op)
    requires Valid(s) && Callable(s, op)
  {
    match op
    case RemoveOp(x) => Fits(s, x)
    case EquipOp(uid, slot, h) => EquipFits(s, uid, slot)
    case _ => true
  }

  /** Exactly then table and bags stay consistent: no handle dangles, and each is in one bag, that of its item. */
  lemma StepKeepsSoundIff(s: State, op: Op)
    requires Sound(s) && Callable(s, op)
    ensures Sound(Step(s, op)) <==> Safe(s, op)
  {
    match op
    case AddOp(x, h) => AddKeepsSound(s, x, h);
    case RemoveOp(x) => RemoveKeepsSoundIff(s, x);
    case EquipOp(uid, slot, h) => EquipKeepsSoundIff(s, uid, slot, h);
    case UnequipOp(slot, h) => UnequipKeepsSound(s, slot, h);
    case SwapOp(a, b) => SwapKeepsSound(s, a, b);
    case FillOp(slot, x) => SoundWithSlots(s, s.equipped[slot := x]);
  }

  /**
    What keeps each item in one place needs more: an item to be taken in is not in the inventory yet, one
    to be removed has the category its key leads to, one to be equipped is found by its own key.
   */
  ghost predicate Right(s: State, op: Op)
    requires Valid(s) && Callable(s, op)
  {
    match op
    case AddOp(x, h) => x.uid in s.items || !Holds(s, x)
    case RemoveOp(x) => Fits(s, x)
    case EquipOp(uid, slot, h) => CanEquip(s, uid, slot) ==> s.cells[s.items[uid]].uid == uid
    case UnequipOp(slot, h) => true
    case SwapOp(a, b) => true
    case FillOp(slot, x) => !InBags(s, x) && forall e :: e in s.equipped && e != slot ==> s.equipped[e] != x
  }

  lemma StepKeepsOnePlaceIff(s: State, op: Op)
    requires OnePlace(s) && Callable(s, op)
    ensures OnePlace(Step(s, op)) <==> Right(s, op)
  {
    match op
    case AddOp(x, h) => AddKeepsOnePlaceIff(s, x, h);
    case RemoveOp(x) => RemoveKeepsOnePlaceIff(s, x);
    case EquipOp(uid, slot, h) =>
      EquipSteps(s, uid, slot, h);
      EquipKeepsOnePlaceIff(s, uid, slot, h);
    case UnequipOp(slot, h) => UnequipKeepsOnePlace(s, slot, h);
    case SwapOp(a, b) => SwapKeepsOnePlace(s, a, b);
    case FillOp(slot, x) => FillKeepsOnePlaceIff(s, slot, x);
  }

  // ---- runs ----

  /** Every call can be made and is safe in the state it meets. */
  ghost predicate SafeRun(s: State, ops: seq<Op>)
    requires Sound(s)
    decreases ops
  {
    ops == [] ||
    (Callable(s, ops[0]) && Safe(s, ops[0]) &&
     (StepKeepsSoundIff(s, ops[0]); SafeRun(Step(s, ops[0]), ops[1..])))
  }

  ghost function Run(s: State, ops: seq<Op>): State
    requires Sound(s) && SafeRun(s, ops)
    decreases ops
  {
    if ops == [] then s
    else
      StepKeepsSoundIff(s, ops[0]);
      Run(Step(s, ops[0]), ops[1..])
  }

  lemma {:induction false} RunKeepsSound(s: State, ops: seq<Op>)
    requires Sound(s) && SafeRun(s, ops)
    ensures Sound(Run(s, ops))
    decreases ops
  {
    if ops != [] {
      StepKeepsSoundIff(s, ops[0]);
      RunKeepsSound(Step(s, ops[0]), ops[1..]);
    }
  }

  /** Every call can be made and is right in the state it meets. */
  ghost predicate RightRun(s: State, ops: seq<Op>)
    requires OnePlace(s)
    decreases ops
  {
    ops == [] ||
    (Callable(s, ops[0]) && Right(s, ops[0]) &&
     (StepKeepsOnePlaceIff(s, ops[0]); RightRun(Step(s, ops[0]), ops[1..])))
  }

  /** A call that is right is safe. */
  lemma RightIsSafe(s: State, op: Op)
    requires OnePlace(s) && Callable(s, op) && Right(s, op)
    ensures Safe(s, op)
  {
    StepKeepsOnePlaceIff(s, op);
    StepKeepsSoundIff(s, op);
  }

  /** Over any such run, swaps included, every item stays in one place, and the bags hold no destroyed item. */
  lemma {:induction false} RunKeepsOnePlace(s: State, ops: seq<Op>)
    requires OnePlace(s) && RightRun(s, ops)
    ensures SafeRun(s, ops) && OnePlace(Run(s, ops))
    ensures BagsAlive(s) ==> BagsAlive(Run(s, ops))
    decreases ops
  {
    if ops != [] {
      RightIsSafe(s, ops[0]);
      StepKeepsOnePlaceIff(s, ops[0]);
      if BagsAlive(s) {
        OnePlaceSpares(s, ops[0]);
        StepKeepsBagsAliveIff(s, ops[0]);
      }
      RunKeepsOnePlace(Step(s, ops[0]), ops[1..]);
    }
  }

  // ---- when the bags hold no destroyed item ----

  /** No other key leads to the item that the call destroys. */
  predicate Spares(s: State, op: Op)
    requires Valid(s) && Callable(s, op)
  {
    match op
    case RemoveOp(x) => x.uid in s.items ==> SoleKey(s, x.uid, s.cells[s.items[x.uid]])
    case EquipOp(uid, slot, h) =>
      CanEquip(s, uid, slot) && OwnKeyFinds(s, uid, slot).Some? ==>
        SoleOnceFree(s, slot, s.cells[s.items[uid]].uid, OwnKeyFinds(s, uid, slot).value)
    case _ => true
  }

  /** No key but v leads to y, not even after what the slot holds was unequipped. */
  predicate SoleOnceFree(s: State, slot: nat, v: nat, y: Item)
    requires Valid(s)
  {
    SoleKey(s, v, y) && (slot in s.equipped && s.equipped[slot].uid != v ==> s.equipped[slot] != y)
  }

  lemma StepKeepsBagsAliveIff(s: State, op: Op)
    requires Sound(s) && BagsAlive(s) && Callable(s, op) && Safe(s, op)
    ensures Valid(Step(s, op))
    ensures BagsAlive(Step(s, op)) <==> Spares(s, op)
  {
    StepKeepsSoundIff(s, op);
    match op
    case AddOp(x, h) => AddKeepsBagsAlive(s, x, h);
    case RemoveOp(x) => RemoveKeepsBagsAliveIff(s, x);
    case EquipOp(uid, slot, h) => EquipKeepsBagsAliveIff(s, uid, slot, h);
    case UnequipOp(slot, h) => UnequipKeepsBagsAlive(s, slot, h);
    case SwapOp(a, b) => SwapKeepsBagsAlive(s, a, b);
    case FillOp(slot, x) =>
  }

  /** Where each item is in one place every call spares the others. */
  lemma OnePlaceSpares(s: State, op: Op)
    requires OnePlace(s) && Callable(s, op)
    ensures Spares(s, op)
  {
  }

  lemma SwapKeepsBagsAlive(s: State, a: nat, b: nat)
    requires Valid(s) && OneKeyEach(s.items) && BagsAlive(s) && a in s.items && b in s.items
    ensures BagsAlive(Swap(s, a, b).0)
  {
    SwapMoves(s, a, b);
  }

  lemma AddKeepsBagsAlive(s: State, x: Item, h: Handle)
    requires Valid(s) && BagsAlive(s) && x.category < CATS && x !in s.gone && h !in s.cells
    ensures BagsAlive(Add(s, x, h).0)
  {
  }

  lemma UnequipKeepsBagsAlive(s: State, slot: nat, h: Handle)
    requires Valid(s) && BagsAlive(s) && Usable(s, slot) && h !in s.cells
    ensures BagsAlive(Unequip(s, slot, h).0)
  {
    if slot in s.equipped {
      AddKeepsBagsAlive(s, s.equipped[slot], h);
    }
  }

  lemma EquipKeepsBagsAliveIff(s: State, uid: nat, slot: nat, h: Handle)
    requires Sound(s) && BagsAlive(s) && Usable(s, slot) && h !in s.cells && EquipFits(s, uid, slot)
    ensures Valid(Equip(s, uid, slot, h).0)
    ensures BagsAlive(Equip(s, uid, slot, h).0) <==> Spares(s, EquipOp(uid, slot, h))
  {
    EquipSteps(s, uid, slot, h);
    EquipKeepsSoundIff(s, uid, slot, h);
    UnequipKeepsBagsAlive(s, slot, h);
    if CanEquip(s, uid, slot) {
      UnequipKeepsSound(s, slot, h);
      var t, x := FreeSlot(s, slot, h).0, s.cells[s.items[uid]];
      IntoSlotKeepsBagsAliveIff(t, slot, x);
      if x.uid in t.items {
        FreedSoleKey(s, slot, h, x.uid, t.cells[t.items[x.uid]]);
      }
    }
  }

  lemma IntoSlotKeepsBagsAliveIff(t: State, slot: nat, x: Item)
    requires Sound(t) && BagsAlive(t) && x.category < CATS && Fits(t, x)
    ensures Valid(IntoSlot(t, slot, x))
    ensures BagsAlive(IntoSlot(t, slot, x)) <==> x.uid in t.items ==> SoleKey(t, x.uid, t.cells[t.items[x.uid]])
  {
    SoundWithSlots(t, t.equipped[slot := x]);
    RemoveKeepsBagsAliveIff(t.(equipped := t.equipped[slot := x]), x);
  }

  lemma FreedSoleKey(s: State, slot: nat, h: Handle, v: nat, y: Item)
    requires Valid(s) && Usable(s, slot) && h !in s.cells && FreeSlot(s, slot, h).1
    ensures SoleKey(FreeSlot(s, slot, h).0, v, y) <==> SoleOnceFree(s, slot, v, y)
  {
    var t := FreeSlot(s, slot, h).0;
    assert forall u :: u in s.items ==> u in t.items && t.cells[t.items[u]] == s.cells[s.items[u]];
    if slot in s.equipped {
      var w := s.equipped[slot].uid;
      assert w in t.items && t.cells[t.items[w]] == s.equipped[slot];
      assert forall u :: u in t.items ==> u in s.items || u == w;
    }
  }

  /** The item that a call puts into the inventory, and the one it takes out. */
  predicate Gains(s: State, op: Op, y: Item)
    requires Valid(s) && Callable(s, op)
  {
    match op
    case AddOp(x, _) => y == x && x.uid !in s.items
    case FillOp(_, x) => y == x
    case _ => false
  }

  predicate Loses(s: State, op: Op, y: Item)
    requires Valid(s) && Callable(s, op)
  {
    match op
    case RemoveOp(x) => Lookup(s, x.uid) == Some(y)
    case EquipOp(uid, slot, _) =>
      CanEquip(s, uid, slot) && s.cells[s.items[uid]].uid != uid && OwnKeyFinds(s, uid, slot) == Some(y)
    case FillOp(slot, x) => slot in s.equipped && y == s.equipped[slot]
    case _ => false
  }

  /**
    Nothing else enters or leaves: unequipping and swapping only move items, and so does equipping
    an item that is found by its own key.
   */
  lemma StepConserves(s: State, op: Op, y: Item)
    requires OnePlace(s) && Callable(s, op) && Safe(s, op)
    ensures Valid(Step(s, op))
    ensures Holds(Step(s, op), y) <==> (Holds(s, y) && !Loses(s, op, y)) || Gains(s, op, y)
  {
    StepKeepsSoundIff(s, op);
    match op
    case AddOp(x, h) => AddHolds(s, x, h, y);
    case RemoveOp(x) => RemoveHolds(s, x, y);
    case EquipOp(uid, slot, h) => EquipConserves(s, uid, slot, h, y);
    case UnequipOp(slot, h) => UnequipConserves(s, slot, h, y);
    case SwapOp(a, b) => SwapHolds(s, a, b, y);
    case FillOp(slot, x) => FillHolds(s, slot, x, y);
  }

  lemma AddHolds(s: State, x: Item, h: Handle, y: Item)
    requires Valid(s) && x.category < CATS && h !in s.cells
    ensures Holds(Add(s, x, h).0, y) <==> Holds(s, y) || (y == x && x.uid !in s.items)
  {
    AddConserves(s, x, h, y);
  }

  lemma RemoveHolds(s: State, x: Item, y: Item)
    requires OnePlace(s) && x.category < CATS && Fits(s, x)
    ensures Valid(Remove(s, x))
    ensures Holds(Remove(s, x), y) <==> Holds(s, y) && Lookup(s, x.uid) != Some(y)
  {
    RemoveConserves(s, x, y);
  }

  lemma SwapHolds(s: State, a: nat, b: nat, y: Item)
    requires OnePlace(s) && a in s.items && b in s.items
    ensures Holds(Swap(s, a, b).0, y) <==> Holds(s, y)
  {
    SwapConserves(s, a, b, y);
  }

  lemma FillHolds(s: State, slot: nat, x: Item, y: Item)
    requires OnePlace(s)
    ensures Holds(Fill(s, slot, x), y)
            <==> y == x || (Holds(s, y) && !(slot in s.equipped && y == s.equipped[slot]))
  {
    FillConserves(s, slot, x, y);
  }

  lemma AddConserves(s: State, x: Item, h: Handle, y: Item)
    requires Valid(s) && x.category < CATS && h !in s.cells
    ensures InBags(Add(s, x, h).0, y) <==> InBags(s, y) || (y == x && x.uid !in s.items)
    ensures InSlots(Add(s, x, h).0, y) <==> InSlots(s, y)
  {
    var t := Add(s, x, h).0;
    assert forall u :: u in s.items ==> u in t.items && t.cells[t.items[u]] == s.cells[s.items[u]];
    if x.uid !in s.items {
      assert t.cells[t.items[x.uid]] == x;
    }
  }

  lemma RemoveConserves(s: State, x: Item, y: Item)
    requires Sound(s) && OneItemEach(s) && x.category < CATS && Fits(s, x)
    ensures Valid(Remove(s, x))
    ensures InBags(Remove(s, x), y) <==> InBags(s, y) && Lookup(s, x.uid) != Some(y)
    ensures InSlots(Remove(s, x), y) <==> InSlots(s, y)
  {
    RemoveKeepsSound(s, x);
    var t := Remove(s, x);
    assert forall u :: u in t.items ==> u in s.items && t.cells[t.items[u]] == s.cells[s.items[u]];
    assert forall u :: u in s.items && u != x.uid ==> u in t.items;
  }

  lemma UnequipConserves(s: State, slot: nat, h: Handle, y: Item)
    requires OnePlace(s) && Usable(s, slot) && h !in s.cells
    ensures Holds(Unequip(s, slot, h).0, y) <==> Holds(s, y)
  {
    if slot in s.equipped {
      var (t, ok) := Unequip(s, slot, h);
      AddConserves(s, s.equipped[slot], h, y);
      assert forall e :: e in t.equipped ==> e in s.equipped && t.equipped[e] == s.equipped[e];
      assert forall e :: e in s.equipped && e != slot ==> e in t.equipped;
    }
  }

  lemma FillConserves(s: State, slot: nat, x: Item, y: Item)
    requires OnePlace(s)
    ensures InBags(Fill(s, slot, x), y) <==> InBags(s, y)
    ensures InSlots(Fill(s, slot, x), y)
            <==> y == x || (InSlots(s, y) && !(slot in s.equipped && s.equipped[slot] == y))
  {
    var t := Fill(s, slot, x);
    assert t.equipped[slot] == x;
    assert forall e :: e in s.equipped && e != slot ==> e in t.equipped && t.equipped[e] == s.equipped[e];
  }

  lemma EquipConserves(s: State, uid: nat, slot: nat, h: Handle, y: Item)
    requires OnePlace(s) && Usable(s, slot) && h !in s.cells && EquipFits(s, uid, slot)
    ensures Valid(Equip(s, uid, slot, h).0)
    ensures Holds(Equip(s, uid, slot, h).0, y) <==> Holds(s, y) && !Loses(s, EquipOp(uid, slot, h), y)
  {
    EquipKeepsSoundIff(s, uid, slot, h);
    EquipSteps(s, uid, slot, h);
    UnequipConserves(s, slot, h, y);
    if CanEquip(s, uid, slot) {
      FreeSlotKeepsOnePlace(s, slot, h);
      IntoSlotConserves(FreeSlot(s, slot, h).0, uid, slot, y);
    }
  }

  lemma IntoSlotConserves(t: State, uid: nat, slot: nat, y: Item)
    requires OnePlace(t) && uid in t.items && Fits(t, t.cells[t.items[uid]]) && slot !in t.equipped
    ensures var x := t.cells[t.items[uid]];
            && Valid(IntoSlot(t, slot, x))
            && (Holds(IntoSlot(t, slot, x), y) <==> Holds(t, y) && !(x.uid != uid && Lookup(t, x.uid) == Some(y)))
  {
    var x := t.cells[t.items[uid]];
    FillConserves(t, slot, x, y);
    SoundWithSlots(t, t.equipped[slot := x]);
    RemoveConserves(Fill(t, slot, x), x, y);
    assert InBags(t, x);
    assert InBags(IntoSlot(t, slot, x), y) <==> InBags(t, y) && Lookup(t, x.uid) != Some(y);
    assert InSlots(IntoSlot(t, slot, x), y) <==> y == x || InSlots(t, y);
  }

  lemma SwapConserves(s: State, a: nat, b: nat, y: Item)
    requires OnePlace(s) && a in s.items && b in s.items
    ensures InBags(Swap(s, a, b).0, y) <==> InBags(s, y)
    ensures InSlots(Swap(s, a, b).0, y) <==> InSlots(s, y)
  {
    SwapMoves(s, a, b);
    var (t, ok) := Swap(s, a, b);
    if InBags(s, y) {
      var u :| u in s.items && s.cells[s.items[u]] == y;
      assert ok ==> t.cells[t.items[Exchanged(a, b, u)]] == y;
      assert !ok ==> t.cells[t.items[u]] == y;
    }
  }

  // ---- the inventory without handles ----

  /** Which item each id leads to, the ids of each bag in display order, and the slots. */
  datatype Plain = Plain(table: map<nat, Item>, order: seq<seq<nat>>, equipped: map<nat, Item>)

  function PlainAdd(p: Plain, x: Item): Plain
  {
    if x.uid in p.table || x.category >= |p.order| then p
    else p.(table := p.table[x.uid := x], order := p.order[x.category := p.order[x.category] + [x.uid]])
  }

  function PlainRemove(p: Plain, x: Item): Plain
  {
    if x.uid !in p.table || x.category >= |p.order| then p
    else p.(table := p.table - {x.uid}, order := p.order[x.category := Without(p.order[x.category], x.uid)])
  }

  predicate PlainFree(p: Plain, slot: nat) { slot in p.equipped ==> p.equipped[slot].uid !in p.table }

  function PlainUnequip(p: Plain, slot: nat): Plain
  {
    if slot in p.equipped && PlainFree(p, slot)
    then PlainAdd(p, p.equipped[slot]).(equipped := p.equipped - {slot})
    else p
  }

  function PlainEquip(p: Plain, uid: nat, slot: nat): Plain
  {
    if uid !in p.table || !PlainFree(p, slot) then p
    else
      var x, q := p.table[uid], PlainUnequip(p, slot);
      PlainRemove(q.(equipped := q.equipped[slot := x]), x)
  }

  function PlainSwap(p: Plain, a: nat, b: nat): Plain
  {
    if a !in p.table || b !in p.table || p.table[a].category != p.table[b].category then p
    else p.(table := p.table[a := p.table[b]][b := p.table[a]])
  }

  function PlainStep(p: Plain, op: Op): Plain
  {
    match op
    case AddOp(x, _) => PlainAdd(p, x)
    case RemoveOp(x) => PlainRemove(p, x)
    case EquipOp(uid, slot, _) => PlainEquip(p, uid, slot)
    case UnequipOp(slot, _) => PlainUnequip(p, slot)
    case SwapOp(a, b) => PlainSwap(p, a, b)
    case FillOp(slot, x) => p.(equipped := p.equipped[slot := x])
  }

  /** The handles that the table has for the keys q. */
  function Handles(items: map<nat, Handle>, q: seq<nat>): (hs: seq<Handle>)
    requires forall u :: u in q ==> u in items
    ensures |hs| == |q|
    ensures forall i :: 0 <= i < |q| ==> hs[i] == items[q[i]]
  {
    if q == [] then [] else [items[q[0]]] + Handles(items, q[1..])
  }

  /** The keys q are those of the handles hs. */
  predicate Names(items: map<nat, Handle>, q: seq<nat>, hs: seq<Handle>)
  {
    (forall u :: u in q ==> u in items) && hs == Handles(items, q)
  }

  ghost predicate Mirrors(s: State, p: Plain)
    requires Valid(s)
  {
    && p.table.Keys == s.items.Keys
    && (forall u :: u in s.items ==> p.table[u] == s.cells[s.items[u]])
    && p.equipped == s.equipped
    && |p.order| == CATS
    && (forall c :: 0 <= c < CATS ==> Names(s.items, p.order[c], s.bags[c]))
  }

  lemma {:induction false} HandlesAgree(items: map<nat, Handle>, items': map<nat, Handle>, q: seq<nat>)
    requires forall u :: u in q ==> u in items && u in items' && items'[u] == items[u]
    ensures Handles(items', q) == Handles(items, q)
  {
    if q != [] {
      HandlesAgree(items, items', q[1..]);
    }
  }

  /** Dropping a key from the order is dropping its handle from the bag. */
  lemma {:induction false} HandlesWithout(items: map<nat, Handle>, q: seq<nat>, u: nat)
    requires OneKeyEach(items) && u in items && forall v :: v in q ==> v in items
    ensures forall v :: v in Without(q, u) ==> v in q
    ensures Handles(items, Without(q, u)) == Without(Handles(items, q), items[u])
  {
    if q != [] {
      HandlesWithout(items, q[1..], u);
      assert Handles(items, q)[1..] == Handles(items, q[1..]);
    }
  }

  lemma NamesMore(items: map<nat, Handle>, u: nat, h: Handle, q: seq<nat>, hs: seq<Handle>)
    requires Names(items, q, hs) && u !in items
    ensures Names(items[u := h], q, hs)
    ensures Names(items[u := h], q + [u], hs + [h])
  {
    HandlesAgree(items, items[u := h], q);
    HandlesSnoc(items[u := h], q, u);
  }

  lemma {:induction false} HandlesSnoc(items: map<nat, Handle>, q: seq<nat>, u: nat)
    requires u in items && forall v :: v in q ==> v in items
    ensures Handles(items, q + [u]) == Handles(items, q) + [items[u]]
  {
    assert forall i :: 0 <= i <= |q| ==> Handles(items, q + [u])[i] == (Handles(items, q) + [items[u]])[i];
  }

  lemma AddMirrors(s: State, p: Plain, x: Item, h: Handle)
    requires Valid(s) && Mirrors(s, p) && x.category < CATS && h !in s.cells
    ensures Mirrors(Add(s, x, h).0, PlainAdd(p, x))
  {
    var t, q := Add(s, x, h).0, PlainAdd(p, x);
    if x.uid !in s.items {
      forall c | 0 <= c < CATS
        ensures Names(t.items, q.order[c], t.bags[c])
      {
        NamesMore(s.items, x.uid, h, p.order[c], s.bags[c]);
      }
    }
  }

  /** Bag c after the removal, seen through the keys. */
  lemma RemoveNames(s: State, p: Plain, x: Item, c: nat)
    requires Sound(s) && Mirrors(s, p) && x.category < CATS && Fits(s, x) && x.uid in s.items && c < CATS
    ensures Names(Remove(s, x).items, PlainRemove(p, x).order[c], Remove(s, x).bags[c])
  {
    assert Names(s.items, p.order[c], s.bags[c]);
    HandlesWithout(s.items, p.order[c], x.uid);
    RemoveFromBag(s, x, c);
    HandlesRemain(s.items, x.uid, PlainRemove(p, x).order[c]);
  }

  lemma HandlesRemain(items: map<nat, Handle>, u: nat, q: seq<nat>)
    requires u in items && (forall v :: v in q ==> v in items)
    requires items[u] !in Handles(items, q)
    ensures Names(items - {u}, q, Handles(items, q))
  {
    forall v | v in q
      ensures v != u
    {
      var i :| 0 <= i < |q| && q[i] == v;
      assert Handles(items, q)[i] == items[v];
    }
    HandlesAgree(items, items - {u}, q);
  }

  lemma RemoveMirrors(s: State, p: Plain, x: Item)
    requires Sound(s) && Mirrors(s, p) && x.category < CATS && Fits(s, x)
    ensures Valid(Remove(s, x)) && Mirrors(Remove(s, x), PlainRemove(p, x))
  {
    RemoveKeepsSound(s, x);
    if x.uid in s.items {
      forall c | 0 <= c < CATS
        ensures Names(Remove(s, x).items, PlainRemove(p, x).order[c], Remove(s, x).bags[c])
      {
        RemoveNames(s, p, x, c);
      }
    }
  }

  lemma SwapMirrors(s: State, p: Plain, a: nat, b: nat)
    requires Valid(s) && OneKeyEach(s.items) && Mirrors(s, p) && a in s.items && b in s.items
    ensures Mirrors(Swap(s, a, b).0, PlainSwap(p, a, b))
  {
    SwapMoves(s, a, b);
    PlainSwapMoves(p, a, b);
    SameHandles(s, Swap(s, a, b).0, p, PlainSwap(p, a, b));
  }

  lemma PlainSwapMoves(p: Plain, a: nat, b: nat)
    requires a in p.table && b in p.table
    ensures var q := PlainSwap(p, a, b);
            && q.table.Keys == p.table.Keys
            && forall u :: u in p.table ==>
                 q.table[u] == p.table[if p.table[a].category == p.table[b].category then Exchanged(a, b, u) else u]
  {
  }

  /** Only what the keys lead to has changed. */
  lemma SameHandles(s: State, t: State, p: Plain, q: Plain)
    requires Valid(s) && Valid(t) && Mirrors(s, p)
    requires t.items == s.items && t.bags == s.bags && t.equipped == s.equipped
    requires q.order == p.order && q.equipped == p.equipped && q.table.Keys == p.table.Keys
    requires forall u :: u in s.items ==> q.table[u] == t.cells[t.items[u]]
    ensures Mirrors(t, q)
  {
  }

  lemma SlotsMirror(s: State, p: Plain, equipped: map<nat, Item>)
    requires Valid(s) && Mirrors(s, p)
    ensures Mirrors(s.(equipped := equipped), p.(equipped := equipped))
  {
  }

  lemma UnequipMirrors(s: State, p: Plain, slot: nat, h: Handle)
    requires Valid(s) && Mirrors(s, p) && Usable(s, slot) && h !in s.cells
    ensures Mirrors(Unequip(s, slot, h).0, PlainUnequip(p, slot))
  {
    if slot in s.equipped {
      var x := s.equipped[slot];
      var t := Add(s, x, h).0;
      AddMirrors(s, p, x, h);
      SlotsMirror(t, PlainAdd(p, x), s.equipped - {slot});
    }
  }

  lemma IntoSlotMirrors(t: State, q: Plain, slot: nat, x: Item)
    requires Sound(t) && Mirrors(t, q) && x.category < CATS && Fits(t, x)
    ensures Valid(IntoSlot(t, slot, x))
    ensures Mirrors(IntoSlot(t, slot, x), PlainRemove(q.(equipped := q.equipped[slot := x]), x))
  {
    var e := t.equipped[slot := x];
    SlotsMirror(t, q, e);
    SoundWithSlots(t, e);
    RemoveMirrors(t.(equipped := e), q.(equipped := e), x);
  }

  lemma FreeSlotMirrors(s: State, p: Plain, slot: nat, h: Handle)
    requires Valid(s) && Mirrors(s, p) && Usable(s, slot) && h !in s.cells
    ensures var (t, free) := FreeSlot(s, slot, h);
            && Mirrors(t, if free then PlainUnequip(p, slot) else p) && (free <==> PlainFree(p, slot))
            && (free ==> forall u :: u in p.table ==>
                  u in PlainUnequip(p, slot).table && PlainUnequip(p, slot).table[u] == p.table[u])
  {
    UnequipMirrors(s, p, slot, h);
  }

  lemma EquipMirrors(s: State, p: Plain, uid: nat, slot: nat, h: Handle)
    requires Sound(s) && Mirrors(s, p) && Usable(s, slot) && h !in s.cells && EquipFits(s, uid, slot)
    ensures Valid(Equip(s, uid, slot, h).0)
    ensures Mirrors(Equip(s, uid, slot, h).0, PlainEquip(p, uid, slot))
  {
    EquipKeepsSoundIff(s, uid, slot, h);
    EquipSteps(s, uid, slot, h);
    FreeSlotMirrors(s, p, slot, h);
    if CanEquip(s, uid, slot) {
      UnequipKeepsSound(s, slot, h);
      IntoSlotMirrors(FreeSlot(s, slot, h).0, PlainUnequip(p, slot), slot, s.cells[s.items[uid]]);
    }
  }

  lemma StepMirrors(s: State, p: Plain, op: Op)
    requires Sound(s) && Callable(s, op) && Safe(s, op) && Mirrors(s, p)
    ensures Valid(Step(s, op)) && Mirrors(Step(s, op), PlainStep(p, op))
  {
    match op
    case AddOp(x, h) => AddMirrors(s, p, x, h);
    case RemoveOp(x) => RemoveMirrors(s, p, x);
    case EquipOp(uid, slot, h) => EquipMirrors(s, p, uid, slot, h);
    case UnequipOp(slot, h) => UnequipMirrors(s, p, slot, h);
    case SwapOp(a, b) => SwapMirrors(s, p, a, b);
    case FillOp(slot, x) => SlotsMirror(s, p, s.equipped[slot := x]);
  }

  // ---- what a lookup finds after a run ----

  function PlainRun(p: Plain, ops: seq<Op>): Plain
    decreases ops
  {
    if ops == [] then p else PlainRun(PlainStep(p, ops[0]), ops[1..])
  }

  /** A run on the inventory is the same run on the plain one. */
  lemma {:induction false} RunMirrors(s: State, p: Plain, ops: seq<Op>)
    requires Sound(s) && SafeRun(s, ops) && Mirrors(s, p)
    ensures Valid(Run(s, ops)) && Mirrors(Run(s, ops), PlainRun(p, ops))
    decreases ops
  {
    if ops != [] {
      StepKeepsSoundIff(s, ops[0]);
      StepMirrors(s, p, ops[0]);
      RunMirrors(Step(s, ops[0]), PlainStep(p, ops[0]), ops[1..]);
    }
  }

  ghost function KeysFor(items: map<nat, Handle>, hs: seq<Handle>): (q: seq<nat>)
    requires forall h :: h in hs ==> InTable(items, h)
    ensures Names(items, q, hs)
  {
    if hs == [] then []
    else
      assert hs[0] in hs && InTable(items, hs[0]);
      var u :| u in items && items[u] == hs[0];
      [u] + KeysFor(items, hs[1..])
  }

  lemma AllInTable(s: State, c: nat)
    requires Sound(s) && c < CATS
    ensures forall h :: h in s.bags[c] ==> InTable(s.items, h)
  {
    assert BagSound(s, c);
  }

  ghost function OrderOf(s: State, n: nat): (order: seq<seq<nat>>)
    requires Sound(s) && n <= CATS
    ensures |order| == n && forall c :: 0 <= c < n ==> Names(s.items, order[c], s.bags[c])
  {
    if n == 0 then []
    else
      AllInTable(s, n - 1);
      OrderOf(s, n - 1) + [KeysFor(s.items, s.bags[n - 1])]
  }

  /** Every sound inventory has a plain one. */
  ghost function PlainOf(s: State): (p: Plain)
    requires Sound(s)
    ensures Mirrors(s, p)
  {
    Plain(map u | u in s.items :: s.cells[s.items[u]], OrderOf(s, CATS), s.equipped)
  }

  lemma {:induction false} PlainRunSnoc(p: Plain, ops: seq<Op>, op: Op)
    ensures PlainRun(p, ops + [op]) == PlainStep(PlainRun(p, ops), op)
    decreases ops
  {
    if ops == [] {
      assert PlainRun(p, [op]) == PlainRun(PlainStep(p, op), []);
    } else {
      PlainRunSnoc(PlainStep(p, ops[0]), ops[1..], op);
      assert (ops + [op])[1..] == ops[1..] + [op];
    }
  }

  /** Where the item that an id leads to comes from: the key it had at the start, or the id it entered under. */
  datatype Source = Start(key: nat) | Entered(key: nat)

  /** The item is the one that the key led to at the start, or entered with that id. */
  predicate ComesFrom(x: Item, source: Source, start: map<nat, Item>)
  {
    match source
    case Start(v) => v in start && start[v] == x
    case Entered(v) => x.uid == v
  }

  /** Traces the id u back through the run: a swap is the only call that moves an item from key to key. */
  function SourceOf(p: Plain, ops: seq<Op>, u: nat): Source
    decreases ops
  {
    if ops == [] then Start(u)
    else
      var init, op := ops[..|ops| - 1], ops[|ops| - 1];
      var q := PlainRun(p, init);
      if u !in q.table then Entered(u) else SourceOf(p, init, KeyBefore(q, op, u))
  }

  function KeyBefore(q: Plain, op: Op, u: nat): (v: nat)
    requires u in q.table
    ensures v in q.table
  {
    match op
    case SwapOp(a, b) =>
      if a in q.table && b in q.table && q.table[a].category == q.table[b].category
      then Exchanged(a, b, u) else u
    case _ => u
  }

  lemma PlainStepTraces(q: Plain, op: Op, u: nat)
    requires u in PlainStep(q, op).table
    ensures u in q.table ==> PlainStep(q, op).table[u] == q.table[KeyBefore(q, op, u)]
    ensures u !in q.table ==> PlainStep(q, op).table[u].uid == u
  {
  }

  /** After any run an id leads to the item its source key led to, or to one that entered under that key. */
  lemma {:induction false} PlainRunTraces(p: Plain, ops: seq<Op>, u: nat)
    requires u in PlainRun(p, ops).table
    ensures ComesFrom(PlainRun(p, ops).table[u], SourceOf(p, ops, u), p.table)
    decreases ops
  {
    if ops != [] {
      var init, op := ops[..|ops| - 1], ops[|ops| - 1];
      var q := PlainRun(p, init);
      assert ops == init + [op];
      PlainRunSnoc(p, init, op);
      PlainStepTraces(q, op, u);
      if u in q.table {
        PlainRunTraces(p, init, KeyBefore(q, op, u));
      }
    }
  }

  /** What a lookup finds after any run: what a lookup under the source key found before it, or what entered there. */
  lemma RunLookup(s: State, p: Plain, ops: seq<Op>, u: nat)
    requires Sound(s) && SafeRun(s, ops) && Mirrors(s, p)
    ensures Valid(Run(s, ops))
    ensures Lookup(Run(s, ops), u).Some? <==> u in PlainRun(p, ops).table
    ensures Lookup(Run(s, ops), u).Some? ==> ComesFrom(Lookup(Run(s, ops), u).value, SourceOf(p, ops, u), p.table)
  {
    RunMirrors(s, p, ops);
    if u in PlainRun(p, ops).table {
      PlainRunTraces(p, ops, u);
    }
  }

  /** So if keys are true before a run, they are true after it if and only if each leads back to itself. */
  lemma RunKeepsKeyedIff(s: State, p: Plain, ops: seq<Op>)
    requires Sound(s) && Keyed(s) && SafeRun(s, ops) && Mirrors(s, p)
    ensures Valid(Run(s, ops))
    ensures Keyed(Run(s, ops)) <==> forall u :: u in Run(s, ops).items ==> SourceOf(p, ops, u).key == u
  {
    RunMirrors(s, p, ops);
    var t := Run(s, ops);
    forall u | u in t.items
      ensures t.cells[t.items[u]].uid == SourceOf(p, ops, u).key
    {
      RunLookup(s, p, ops, u);
      assert Lookup(t, u) == Some(t.cells[t.items[u]]);
    }
  }

  /** And what the client sees after any run: each bag shows the items of its ids in the plain order. */
  lemma RunShows(s: State, p: Plain, ops: seq<Op>, c: nat, k: nat, x: Item)
    requires Sound(s) && SafeRun(s, ops) && Mirrors(s, p)
    ensures Valid(Run(s, ops))
    ensures var q := PlainRun(p, ops);
            At(Run(s, ops), c, k, x)
            <==> c < |q.order| && k < |q.order[c]| && q.order[c][k] in q.table && q.table[q.order[c][k]] == x
  {
    RunMirrors(s, p, ops);
  }

  // ---- two adds and a swap are enough ----

  const FIRST := Item(10, 1, 1)
  const SECOND := Item(20, 2, 1)
  const THIRD := Item(30, 3, 1)
  const HOLDING := State(map[1 := 100, 2 := 200, 3 := 300], map[100 := FIRST, 200 := SECOND, 300 := THIRD],
                         NO_BAGS[1 := [100, 200, 300]], map[], {})

  lemma HoldingReached()
    ensures HOLDING == Add(Add(Add(EMPTY, FIRST, 100).0, SECOND, 200).0, THIRD, 300).0
  {
    var one := Add(EMPTY, FIRST, 100).0;
    assert NO_BAGS[1] + [100] == [100];
    assert one.bags == NO_BAGS[1 := [100]];
    var two := Add(one, SECOND, 200).0;
    assert one.bags[1] + [200] == [100, 200];
    assert two.bags == NO_BAGS[1 := [100, 200]];
    var three := Add(two, THIRD, 300).0;
    assert two.bags[1] + [300] == [100, 200, 300];
    assert three.bags == NO_BAGS[1 := [100, 200, 300]];
  }

  /** Live items in bags only, each found under its id. */
  ghost predicate Plainly(s: State) { OnePlace(s) && Keyed(s) && s.equipped == map[] && s.gone == {} }

  lemma AddKeepsPlainly(s: State, x: Item, h: Handle)
    requires Plainly(s) && x.category < CATS && h !in s.cells && x.uid !in s.items
    ensures Plainly(Add(s, x, h).0)
  {
    assert !InBags(s, x);
    AddKeepsOnePlaceIff(s, x, h);
    AddKeepsItems(s, x, h);
  }

  lemma HoldingIsPlain()
    ensures Plainly(HOLDING)
  {
    EmptyIsOnePlace();
    AddKeepsPlainly(EMPTY, FIRST, 100);
    AddKeepsPlainly(Add(EMPTY, FIRST, 100).0, SECOND, 200);
    AddKeepsPlainly(Add(Add(EMPTY, FIRST, 100).0, SECOND, 200).0, THIRD, 300);
    HoldingReached();
  }

  const SWAPPED := HOLDING.(cells := map[100 := SECOND, 200 := FIRST, 300 := THIRD])

  const EQUIPPED := State(map[1 := 100, 3 := 300], map[100 := SECOND, 300 := THIRD],
                          NO_BAGS[1 := [100, 300]], map[0 := SECOND], {FIRST})

  const UNEQUIPPED := State(map[1 := 100, 3 := 300, 2 := 500], map[100 := SECOND, 300 := THIRD, 500 := SECOND],
                            NO_BAGS[1 := [100, 300, 500]], map[], {FIRST})

  const REMOVED := State(map[1 := 100, 3 := 300], map[100 := SECOND, 300 := THIRD],
                         NO_BAGS[1 := [100, 300]], map[], {FIRST, SECOND})

  lemma SwapStep()
    ensures Valid(HOLDING) && Swap(HOLDING, 1, 2) == (SWAPPED, true)
  {
    assert Swap(HOLDING, 1, 2).0.cells == SWAPPED.cells;
  }

  lemma OneBag(q: seq<Handle>, r: seq<Handle>)
    ensures NO_BAGS[1 := q][1] == q && NO_BAGS[1 := q][1 := r] == NO_BAGS[1 := r]
  {
  }

  lemma EquipStep()
    ensures Valid(SWAPPED) && IntoSlot(SWAPPED, 0, SECOND) == EQUIPPED
  {
    SwapStep();
    assert SWAPPED.items[2] == 200 && SWAPPED.cells[200] == FIRST;
    assert Without([100, 200, 300], 200) == [100, 300];
    OneBag([100, 200, 300], [100, 300]);
    EquipMaps();
  }

  lemma EquipMaps()
    ensures SWAPPED.items - {2} == EQUIPPED.items && SWAPPED.cells - {200} == EQUIPPED.cells
    ensures SWAPPED.equipped[0 := SECOND] == EQUIPPED.equipped && SWAPPED.gone + {FIRST} == EQUIPPED.gone
  {
  }

  /**
    After a swap of two ids, equipping one of them puts the other's item into the slot, leaves it in
    the bag as well, and destroys the item that has the id, which was never to leave. That call is
    safe and not right.
   */
  lemma SwapThenEquip()
    ensures Valid(HOLDING) && Swap(HOLDING, 1, 2) == (SWAPPED, true)
    ensures Valid(SWAPPED) && Equip(SWAPPED, 1, 0, 400) == (EQUIPPED, true)
    ensures Safe(SWAPPED, EquipOp(1, 0, 400)) && !Right(SWAPPED, EquipOp(1, 0, 400))
    ensures Valid(EQUIPPED) && EQUIPPED.equipped[0] == SECOND && At(EQUIPPED, 1, 0, SECOND) && FIRST in EQUIPPED.gone
  {
    SwapStep();
    EquipStep();
    assert Lookup(SWAPPED, 1) == Some(SECOND) && Lookup(SWAPPED, 2) == Some(FIRST);
    EquipSteps(SWAPPED, 1, 0, 400);
  }

  lemma UnequipStep()
    ensures Valid(EQUIPPED) && Usable(EQUIPPED, 0) && Unequip(EQUIPPED, 0, 500) == (UNEQUIPPED, true)
  {
    SwapThenEquip();
    var t := Add(EQUIPPED, SECOND, 500).0;
    assert EQUIPPED.bags[1] + [500] == [100, 300, 500];
    OneBag([100, 300], [100, 300, 500]);
    assert Unequip(EQUIPPED, 0, 500).0.equipped == map[];
  }

  lemma RemoveStep()
    ensures Valid(UNEQUIPPED) && Remove(UNEQUIPPED, SECOND) == REMOVED
  {
    UnequipStep();
    var t := Remove(UNEQUIPPED, SECOND);
    assert Without([100, 300, 500], 500) == [100, 300];
    OneBag([100, 300, 500], [100, 300]);
    assert t.items == map[1 := 100, 3 := 300] && t.cells == map[100 := SECOND, 300 := THIRD];
  }

  lemma FirstTwoSteps(rest: seq<Op>)
    ensures Sound(HOLDING) && Sound(EQUIPPED)
    ensures SafeRun(EQUIPPED, rest) ==>
              && SafeRun(HOLDING, [SwapOp(1, 2)] + ([EquipOp(1, 0, 400)] + rest))
              && Run(HOLDING, [SwapOp(1, 2)] + ([EquipOp(1, 0, 400)] + rest)) == Run(EQUIPPED, rest)
  {
    HoldingIsPlain();
    SwapThenEquip();
    StepKeepsSoundIff(HOLDING, SwapOp(1, 2));
    StepKeepsSoundIff(SWAPPED, EquipOp(1, 0, 400));
    if SafeRun(EQUIPPED, rest) {
      RunStep(SWAPPED, EquipOp(1, 0, 400), rest);
      RunStep(HOLDING, SwapOp(1, 2), [EquipOp(1, 0, 400)] + rest);
    }
  }

  lemma LastTwoSteps()
    requires Sound(EQUIPPED)
    ensures SafeRun(EQUIPPED, [UnequipOp(0, 500)] + [RemoveOp(SECOND)])
    ensures Run(EQUIPPED, [UnequipOp(0, 500)] + [RemoveOp(SECOND)]) == REMOVED
  {
    UnequipStep();
    RemoveStep();
    StepKeepsSoundIff(EQUIPPED, UnequipOp(0, 500));
    StepKeepsSoundIff(UNEQUIPPED, RemoveOp(SECOND));
    RunStep(UNEQUIPPED, RemoveOp(SECOND), []);
    assert [RemoveOp(SECOND)] + [] == [RemoveOp(SECOND)];
    RunStep(EQUIPPED, UnequipOp(0, 500), [RemoveOp(SECOND)]);
  }

  /** An unequip and the removal of the item just put back leave a key, and a bag, with a destroyed item. */
  lemma DestroyedButShown()
    ensures OnePlace(HOLDING) && BagsAlive(HOLDING)
    ensures var ops := [SwapOp(1, 2), EquipOp(1, 0, 400), UnequipOp(0, 500), RemoveOp(SECOND)];
            SafeRun(HOLDING, ops) && Run(HOLDING, ops) == REMOVED
    ensures Valid(REMOVED) && Lookup(REMOVED, 1) == Some(SECOND) && At(REMOVED, 1, 0, SECOND) && SECOND in REMOVED.gone
  {
    HoldingIsPlain();
    var last := [UnequipOp(0, 500)] + [RemoveOp(SECOND)];
    FirstTwoSteps(last);
    LastTwoSteps();
    assert [SwapOp(1, 2), EquipOp(1, 0, 400), UnequipOp(0, 500), RemoveOp(SECOND)]
        == [SwapOp(1, 2)] + ([EquipOp(1, 0, 400)] + last);
    RemovedShows();
  }

  lemma RemovedShows()
    ensures Valid(REMOVED) && Lookup(REMOVED, 1) == Some(SECOND) && At(REMOVED, 1, 0, SECOND) && SECOND in REMOVED.gone
  {
  }

  lemma RunStep(s: State, op: Op, rest: seq<Op>)
    requires Sound(s) && Callable(s, op) && Safe(s, op)
    requires Sound(Step(s, op)) && SafeRun(Step(s, op), rest)
    ensures SafeRun(s, [op] + rest) && Run(s, [op] + rest) == Run(Step(s, op), rest)
  {
    assert ([op] + rest)[0] == op && ([op] + rest)[1..] == rest;
  }

  /** After a swap of the first two, a swap of the second and third moves the first instead of the second. */
  lemma SwapThenSwap()
    ensures Valid(HOLDING) && Swap(HOLDING, 1, 2).1
    ensures var s := Swap(HOLDING, 1, 2).0;
            var (t, ok) := Swap(s, 2, 3);
            && ok && At(s, 1, 0, SECOND) && At(s, 1, 1, FIRST) && At(s, 1, 2, THIRD)
            && At(t, 1, 0, SECOND) && At(t, 1, 1, THIRD) && At(t, 1, 2, FIRST)
  {
  }
}
