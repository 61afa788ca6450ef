/**
  The inventory of a commander. Items are held through handles: a table finds the handle
  of an actor id, each category has a bag of handles in display order, and slots hold the
  equipped items themselves. Handles are addresses, so several tables see one cell.
 */
module Inventory {
  import opened Wrappers

  const CATS := 16                               // ITEM_CAT_COUNT
  const BAG_SIZE := 5000                         // the span of bag indexes of one category

  type Handle = nat

  /** An item is known by its address; its actor id and category never change. */
  datatype Item = Item(addr: nat, uid: nat, category: nat)

  /** The cells are the handles in use and what they point to; gone are the items that were destroyed. */
  datatype State = State(items: map<nat, Handle>, cells: map<Handle, Item>, bags: seq<seq<Handle>>,
                         equipped: map<nat, Item>, gone: set<Item>)

  /** No handle in the table or the bags dangles, and items have a category. */
  predicate Valid(s: State)
  {
    && |s.bags| == CATS
    && (forall u :: u in s.items ==> s.items[u] in s.cells && s.cells[s.items[u]].category < CATS)
    && (forall c, h :: 0 <= c < CATS && h in s.bags[c] ==> h in s.cells)
  }

  const NO_BAGS: seq<seq<Handle>> := seq(CATS, _ => [])

  const EMPTY := State(map[], map[], NO_BAGS, map[], {})

  // ---- the operations as functions of the state ----

  function Lookup(s: State, uid: nat): Option<Item>
    requires Valid(s)
  {
    if uid in s.items then Some(s.cells[s.items[uid]]) else None
  }

  /** A taken key refuses the item; the new handle h is then in no table. */
  function Add(s: State, x: Item, h: Handle): (r: (State, bool))
    requires Valid(s) && x.category < CATS && h !in s.cells
    ensures Valid(r.0)
    ensures r.1 <==> Lookup(s, x.uid) == None
    ensures r.1 ==> Lookup(r.0, x.uid) == Some(x)
    ensures r.1 ==> r.0.bags[x.category] == s.bags[x.category] + [h] && r.0.cells[h] == x
    ensures forall u :: u != x.uid || !r.1 ==> Lookup(r.0, u) == Lookup(s, u)
  {
    var t := s.(cells := s.cells[h := x]);
    if x.uid in s.items then (t, false)
    else (t.(items := s.items[x.uid := h], bags := s.bags[x.category := s.bags[x.category] + [h]]), true)
  }

  function Without(q: seq<Handle>, h: Handle): seq<Handle>
  {
    if q == [] then [] else if q[0] == h then q[1..] else [q[0]] + Without(q[1..], h)
  }

  /** The handle that the key of x finds is unlinked and freed, and the item it points to destroyed. */
  function Remove(s: State, x: Item): State
    requires Valid(s) && x.category < CATS
  {
    if x.uid !in s.items then s
    else
      var h := s.items[x.uid];
      s.(bags := s.bags[x.category := Without(s.bags[x.category], h)],
         items := s.items - {x.uid},
         cells := s.cells - {h},
         gone := s.gone + {s.cells[h]})
  }

  predicate Usable(s: State, slot: nat)
  {
    slot in s.equipped ==> s.equipped[slot] !in s.gone && s.equipped[slot].category < CATS
  }

  function Unequip(s: State, slot: nat, h: Handle): (r: (State, bool))
    requires Valid(s) && Usable(s, slot) && h !in s.cells
    ensures Valid(r.0)
  {
    if slot !in s.equipped then (s, false)
    else
      var (t, ok) := Add(s, s.equipped[slot], h);
      if ok then (t.(equipped := t.equipped - {slot}), true) else (t, false)
  }

  /** Unequips what the slot holds, if anything. */
  function FreeSlot(s: State, slot: nat, h: Handle): (r: (State, bool))
    requires Valid(s) && Usable(s, slot) && h !in s.cells
    ensures Valid(r.0)
  {
    if slot in s.equipped then Unequip(s, slot, h) else (s, true)
  }

  /** The end of Equip, once the slot is free: x goes there, and what its own key finds is removed. */
  function IntoSlot(t: State, slot: nat, x: Item): State
    requires Valid(t) && x.category < CATS
  {
    Remove(t.(equipped := t.equipped[slot := x]), x)
  }

  function Equip(s: State, uid: nat, slot: nat, h: Handle): (r: (State, bool))
    requires Valid(s) && Usable(s, slot) && h !in s.cells
  {
    match Lookup(s, uid)
    case None => (s, false)
    case Some(x) =>
      var (t, free) := FreeSlot(s, slot, h);
      if free then (IntoSlot(t, slot, x), true) else (t, false)
  }

  /** The guard of Equip: the id is present, and the slot is free or what it holds can be added. */
  predicate CanEquip(s: State, uid: nat, slot: nat)
  {
    uid in s.items && (slot in s.equipped ==> s.equipped[slot].uid !in s.items)
  }

  /** What the own key of the item to be equipped finds once the slot is free: the item that Equip destroys. */
  function OwnKeyFinds(s: State, uid: nat, slot: nat): Option<Item>
    requires Valid(s) && uid in s.items
  {
    var v := s.cells[s.items[uid]].uid;
    if v in s.items then Some(s.cells[s.items[v]])
    else if slot in s.equipped && s.equipped[slot].uid == v then Some(s.equipped[slot])
    else None
  }

  /** Exchanges what the two handles point to. */
  function Swap(s: State, a: nat, b: nat): (r: (State, bool))
    requires Valid(s) && a in s.items && b in s.items
    ensures Valid(r.0)
    ensures r.1 ==> Lookup(r.0, a) == Lookup(s, b) && Lookup(r.0, b) == Lookup(s, a)
  {
    var h, g := s.items[a], s.items[b];
    if s.cells[h].category != s.cells[g].category then (s, false)
    else (s.(cells := s.cells[h := s.cells[g]][g := s.cells[h]]), true)
  }

  /** A new or loaded commander gets its equipment put into the slots directly. */
  function Fill(s: State, slot: nat, x: Item): State { s.(equipped := s.equipped[slot := x]) }

  // ---- each handle in one bag, the bag of its item's category ----

  predicate NoDuplicates(q: seq<Handle>) { forall i, j :: 0 <= i < j < |q| ==> q[i] != q[j] }

  /** The handle is in use and in the bag of its item's category. */
  predicate Stored(s: State, h: Handle)
    requires |s.bags| == CATS
  {
    h in s.cells && s.cells[h].category < CATS && h in s.bags[s.cells[h].category]
  }

  ghost predicate InTable(items: map<nat, Handle>, h: Handle) { exists u :: u in items && items[u] == h }

  predicate OneKeyEach(items: map<nat, Handle>)
  {
    forall u, v :: u in items && v in items && items[u] == items[v] ==> u == v
  }

  ghost predicate BagSound(s: State, c: nat)
    requires c < |s.bags|
  {
    && NoDuplicates(s.bags[c])
    && (forall h :: h in s.bags[c] ==> InTable(s.items, h) && h in s.cells && s.cells[h].category == c)
  }

  /** Table and bags hold the same handles, each under one key and once in one bag, that of its item. */
  ghost predicate Sound(s: State)
  {
    && Valid(s)
    && OneKeyEach(s.items)
    && (forall u :: u in s.items ==> Stored(s, s.items[u]))
    && (forall c :: 0 <= c < CATS ==> BagSound(s, c))
  }

  lemma {:induction false} WithoutHandle(q: seq<Handle>, h: Handle)
    requires NoDuplicates(q)
    ensures NoDuplicates(Without(q, h))
    ensures forall g :: g in Without(q, h) <==> g in q && g != h
  {
    if q != [] {
      var rest := q[1..];
      assert forall i :: 0 <= i < |rest| ==> rest[i] == q[i + 1];
      assert q[0] !in rest;
      assert forall g :: g in q <==> g == q[0] || g in rest;
      WithoutHandle(rest, h);
    }
  }

  /** Removing a handle leaves the others in their order. */
  lemma {:induction false} WithoutAt(q: seq<Handle>, i: nat)
    requires i < |q| && q[i] !in q[..i]
    ensures Without(q, q[i]) == q[..i] + q[i + 1..]
  {
    if i > 0 {
      assert q[0] == q[..i][0];
      assert q[1..][..i - 1] == q[..i][1..];
      WithoutAt(q[1..], i - 1);
      assert q[1..][i..] == q[i + 1..];
    }
  }

  lemma {:induction false} WithoutAbsent(q: seq<Handle>, h: Handle)
    requires h !in q
    ensures Without(q, h) == q
  {
    if q != [] {
      WithoutAbsent(q[1..], h);
    }
  }

  /** What Remove does to the bags: the one handle goes, those after it move up by one, and nothing else changes. */
  lemma RemoveOrder(s: State, x: Item, i: nat)
    requires Sound(s) && x.category < CATS && x.uid in s.items && Fits(s, x)
    requires i < |s.bags[x.category]| && s.bags[x.category][i] == s.items[x.uid]
    ensures Remove(s, x).bags == s.bags[x.category := s.bags[x.category][..i] + s.bags[x.category][i + 1..]]
  {
    assert BagSound(s, x.category);
    WithoutAt(s.bags[x.category], i);
  }

  lemma AddKeepsSound(s: State, x: Item, h: Handle)
    requires Sound(s) && x.category < CATS && h !in s.cells
    ensures Sound(Add(s, x, h).0)
  {
    var t := Add(s, x, h).0;
    assert forall u :: u in s.items ==> s.items[u] in s.cells;
    if x.uid !in s.items {
      assert t.items[x.uid] == h;
      assert forall u :: u in s.items ==> t.items[u] == s.items[u];
      assert forall g :: InTable(s.items, g) ==> InTable(t.items, g);
      forall c | 0 <= c < CATS
        ensures BagSound(t, c)
      {
        assert BagSound(s, c);
      }
    } else {
      forall c | 0 <= c < CATS
        ensures BagSound(t, c)
      {
        assert BagSound(s, c);
      }
    }
  }

  lemma SwapKeepsSound(s: State, a: nat, b: nat)
    requires Sound(s) && a in s.items && b in s.items
    ensures Sound(Swap(s, a, b).0)
  {
    var t := Swap(s, a, b).0;
    assert forall h :: h in s.cells ==> h in t.cells && t.cells[h].category == s.cells[h].category;
    forall c | 0 <= c < CATS
      ensures BagSound(t, c)
    {
      assert BagSound(s, c);
    }
  }

  /** What Remove asks of its caller: the key of x leads to an item of the same category. */
  predicate Fits(s: State, x: Item)
    requires Valid(s)
  {
    x.uid in s.items ==> s.cells[s.items[x.uid]].category == x.category
  }

  lemma RemoveFromBag(s: State, x: Item, c: nat)
    requires Sound(s) && x.category < CATS && x.uid in s.items && Fits(s, x) && c < CATS
    ensures forall g :: g in Remove(s, x).bags[c] <==> g in s.bags[c] && g != s.items[x.uid]
    ensures NoDuplicates(Remove(s, x).bags[c])
  {
    assert BagSound(s, c);
    WithoutHandle(s.bags[c], s.items[x.uid]);
  }

  lemma RemoveKeepsSound(s: State, x: Item)
    requires Sound(s) && x.category < CATS && Fits(s, x)
    ensures Sound(Remove(s, x))
  {
    if x.uid in s.items {
      var h, t := s.items[x.uid], Remove(s, x);
      forall c | 0 <= c < CATS
        ensures BagSound(t, c)
        ensures forall g :: g in t.bags[c] <==> g in s.bags[c] && g != h
      {
        assert BagSound(s, c);
        RemoveFromBag(s, x, c);
        forall g | g in t.bags[c]
          ensures InTable(t.items, g)
        {
          var u :| u in s.items && s.items[u] == g;
          assert u in t.items && t.items[u] == g;
        }
      }
      assert forall u :: u in t.items ==> t.items[u] == s.items[u] != h;
    }
  }

  lemma RemoveKeepsSoundIff(s: State, x: Item)
    requires Sound(s) && x.category < CATS
    ensures Sound(Remove(s, x)) <==> Fits(s, x)
  {
    if Fits(s, x) {
      RemoveKeepsSound(s, x);
    } else {
      var h, t := s.items[x.uid], Remove(s, x);
      var c := s.cells[h].category;
      assert Stored(s, h) && h in t.bags[c];
      assert !BagSound(t, c);
    }
  }

  lemma SoundWithSlots(s: State, equipped: map<nat, Item>)
    requires Sound(s)
    ensures Sound(s.(equipped := equipped))
  {
    var t := s.(equipped := equipped);
    forall c | 0 <= c < CATS
      ensures BagSound(t, c)
    {
      assert BagSound(s, c);
    }
  }

  lemma UnequipKeepsSound(s: State, slot: nat, h: Handle)
    requires Sound(s) && Usable(s, slot) && h !in s.cells
    ensures Sound(Unequip(s, slot, h).0)
  {
    if slot in s.equipped {
      AddKeepsSound(s, s.equipped[slot], h);
      SoundWithSlots(Add(s, s.equipped[slot], h).0, s.equipped - {slot});
    }
  }

  /** What Equip asks of its caller: what is going to be destroyed has the category of what is equipped. */
  predicate EquipFits(s: State, uid: nat, slot: nat)
    requires Valid(s)
  {
    CanEquip(s, uid, slot) ==>
      match OwnKeyFinds(s, uid, slot)
      case Some(y) => y.category == s.cells[s.items[uid]].category
      case None => true
  }

  /** Equip succeeds on its guard, and then ends as IntoSlot; its removal is of what OwnKeyFinds names. */
  lemma EquipSteps(s: State, uid: nat, slot: nat, h: Handle)
    requires Valid(s) && Usable(s, slot) && h !in s.cells
    ensures Equip(s, uid, slot, h).1 <==> CanEquip(s, uid, slot)
    ensures var t := FreeSlot(s, slot, h).0;
            CanEquip(s, uid, slot) ==>
              && FreeSlot(s, slot, h).1
              && uid in t.items && t.cells[t.items[uid]] == s.cells[s.items[uid]]
              && Lookup(t, s.cells[s.items[uid]].uid) == OwnKeyFinds(s, uid, slot)
              && Equip(s, uid, slot, h).0 == IntoSlot(t, slot, s.cells[s.items[uid]])
    ensures !CanEquip(s, uid, slot) ==> Equip(s, uid, slot, h).0 == s || Equip(s, uid, slot, h) == FreeSlot(s, slot, h)
  {
  }

  lemma EquipKeepsSoundIff(s: State, uid: nat, slot: nat, h: Handle)
    requires Sound(s) && Usable(s, slot) && h !in s.cells
    ensures Sound(Equip(s, uid, slot, h).0) <==> EquipFits(s, uid, slot)
  {
    EquipSteps(s, uid, slot, h);
    UnequipKeepsSound(s, slot, h);
    if CanEquip(s, uid, slot) {
      IntoSlotKeepsSoundIff(FreeSlot(s, slot, h).0, slot, s.cells[s.items[uid]]);
    }
  }

  lemma IntoSlotKeepsSoundIff(t: State, slot: nat, x: Item)
    requires Sound(t) && x.category < CATS
    ensures Sound(IntoSlot(t, slot, x)) <==> Fits(t, x)
  {
    SoundWithSlots(t, t.equipped[slot := x]);
    RemoveKeepsSoundIff(t.(equipped := t.equipped[slot := x]), x);
  }

  // ---- each item in one place ----

  ghost predicate InBags(s: State, x: Item)
    requires Valid(s)
  {
    exists u :: u in s.items && s.cells[s.items[u]] == x
  }

  ghost predicate InSlots(s: State, x: Item) { exists e :: e in s.equipped && s.equipped[e] == x }

  ghost predicate Holds(s: State, x: Item)
    requires Valid(s)
  {
    InBags(s, x) || InSlots(s, x)
  }

  /** Different keys lead to different items. */
  predicate OneItemEach(s: State)
    requires Valid(s)
  {
    forall u, v :: u in s.items && v in s.items && s.cells[s.items[u]] == s.cells[s.items[v]] ==> u == v
  }

  /** Different slots hold different items, and none that a key leads to. */
  predicate SlotsApart(s: State)
    requires Valid(s)
  {
    && (forall e, f :: e in s.equipped && f in s.equipped && s.equipped[e] == s.equipped[f] ==> e == f)
    && (forall e, u :: e in s.equipped && u in s.items ==> s.equipped[e] != s.cells[s.items[u]])
  }

  ghost predicate OnePlace(s: State)
  {
    Sound(s) && OneItemEach(s) && SlotsApart(s)
  }

  /** Bag c shows the item at position k. */
  predicate At(s: State, c: nat, k: nat, x: Item)
    requires Valid(s)
  {
    c < CATS && k < |s.bags[c]| && s.cells[s.bags[c][k]] == x
  }

  /** What OnePlace is for: an item is at one position of one bag, or in one slot, and never in both. */
  lemma OnePlaceOnly(s: State, x: Item, c: nat, k: nat)
    requires OnePlace(s) && At(s, c, k, x)
    ensures InBags(s, x) && !InSlots(s, x)
    ensures forall c', k' :: At(s, c', k', x) ==> c' == c && k' == k
  {
    var u := KeyAt(s, c, k);
    forall c', k' | At(s, c', k', x)
      ensures c' == c && k' == k
    {
      var v := KeyAt(s, c', k');
      assert u == v && BagSound(s, c) && BagSound(s, c');
    }
  }

  lemma EmptyIsOnePlace()
    ensures OnePlace(EMPTY) && Keyed(EMPTY)
  {
    assert forall c :: 0 <= c < CATS ==> BagSound(EMPTY, c);
  }

  /** The key that leads to position k of bag c. */
  lemma KeyAt(s: State, c: nat, k: nat) returns (u: nat)
    requires Sound(s) && c < CATS && k < |s.bags[c]|
    ensures u in s.items && s.items[u] == s.bags[c][k]
  {
    assert BagSound(s, c) && s.bags[c][k] in s.bags[c];
    assert InTable(s.items, s.bags[c][k]);
    u :| u in s.items && s.items[u] == s.bags[c][k];
  }

  /** The other way round: a bag shows whatever a key leads to. */
  lemma PositionOf(s: State, u: nat) returns (c: nat, k: nat)
    requires Sound(s) && u in s.items
    ensures c < CATS && k < |s.bags[c]| && s.bags[c][k] == s.items[u]
    ensures At(s, c, k, s.cells[s.items[u]])
  {
    assert Stored(s, s.items[u]);
    c := s.cells[s.items[u]].category;
    k :| 0 <= k < |s.bags[c]| && s.bags[c][k] == s.items[u];
  }

  /** Every key leads to the item of that actor id. */
  predicate Keyed(s: State)
    requires Valid(s)
  {
    forall u :: u in s.items ==> s.cells[s.items[u]].uid == u
  }

  /** When keys are true, a lookup finds an item exactly if it has the id asked for and one of the bags shows it. */
  lemma LookupFindsIff(s: State, uid: nat, x: Item)
    requires Sound(s) && Keyed(s)
    ensures Lookup(s, uid) == Some(x) <==> x.uid == uid && exists c, k :: At(s, c, k, x)
  {
    if Lookup(s, uid) == Some(x) {
      var c, k := PositionOf(s, uid);
      assert At(s, c, k, x);
    }
    if x.uid == uid && exists c, k :: At(s, c, k, x) {
      var c, k :| At(s, c, k, x);
      var u := KeyAt(s, c, k);
      assert u == uid;
    }
  }

  // ---- when a call keeps each item in one place ----

  lemma AddKeepsOnePlaceIff(s: State, x: Item, h: Handle)
    requires OnePlace(s) && x.category < CATS && h !in s.cells
    ensures OnePlace(Add(s, x, h).0) <==> x.uid in s.items || !Holds(s, x)
  {
    var t := Add(s, x, h).0;
    AddKeepsSound(s, x, h);
    AddKeepsItems(s, x, h);
    if x.uid !in s.items {
      NewKey(s, t, x);
    }
  }

  lemma AddKeepsItems(s: State, x: Item, h: Handle)
    requires Valid(s) && x.category < CATS && h !in s.cells
    ensures var t := Add(s, x, h).0;
            && t.items.Keys == s.items.Keys + (if x.uid in s.items then {} else {x.uid})
            && (forall u :: u in s.items ==> t.cells[t.items[u]] == s.cells[s.items[u]])
  {
  }

  /** The state t has one key more than s, which leads to x. */
  lemma NewKey(s: State, t: State, x: Item)
    requires Valid(s) && OneItemEach(s) && SlotsApart(s)
    requires Valid(t) && t.equipped == s.equipped
    requires x.uid !in s.items && t.items.Keys == s.items.Keys + {x.uid} && t.cells[t.items[x.uid]] == x
    requires forall u :: u in s.items ==> t.cells[t.items[u]] == s.cells[s.items[u]]
    ensures OneItemEach(t) && SlotsApart(t) <==> !Holds(s, x)
  {
    if Holds(s, x) {
      if InBags(s, x) {
        var u :| u in s.items && s.cells[s.items[u]] == x;
        assert u in t.items && u != x.uid;
      }
    } else {
      assert forall u :: u in t.items && u != x.uid ==> u in s.items && t.cells[t.items[u]] != x;
    }
  }

  lemma RemoveKeepsOnePlaceIff(s: State, x: Item)
    requires OnePlace(s) && x.category < CATS
    ensures OnePlace(Remove(s, x)) <==> Fits(s, x)
  {
    RemoveKeepsSoundIff(s, x);
  }

  lemma SwapKeepsOnePlace(s: State, a: nat, b: nat)
    requires OnePlace(s) && a in s.items && b in s.items
    ensures OnePlace(Swap(s, a, b).0)
  {
    SwapKeepsSound(s, a, b);
    SwapMoves(s, a, b);
  }

  function Exchanged(a: nat, b: nat, u: nat): nat { if u == a then b else if u == b then a else u }

  lemma SwapMoves(s: State, a: nat, b: nat)
    requires Valid(s) && OneKeyEach(s.items) && a in s.items && b in s.items
    ensures var (t, ok) := Swap(s, a, b);
            forall u :: u in s.items ==>
              t.cells[t.items[u]] == s.cells[s.items[if ok then Exchanged(a, b, u) else u]]
  {
  }

  lemma UnequipKeepsOnePlace(s: State, slot: nat, h: Handle)
    requires OnePlace(s) && Usable(s, slot) && h !in s.cells
    ensures OnePlace(Unequip(s, slot, h).0)
  {
    if slot in s.equipped {
      var x := s.equipped[slot];
      if x.uid in s.items {
        AddKeepsOnePlaceIff(s, x, h);
      } else {
        var cleared := s.(equipped := s.equipped - {slot});
        SoundWithSlots(s, cleared.equipped);
        AddKeepsOnePlaceIff(cleared, x, h);
        assert Unequip(s, slot, h).0 == Add(cleared, x, h).0;
      }
    }
  }

  lemma FreeSlotKeepsOnePlace(s: State, slot: nat, h: Handle)
    requires OnePlace(s) && Usable(s, slot) && h !in s.cells
    ensures var (t, free) := FreeSlot(s, slot, h);
            && OnePlace(t) && (free ==> slot !in t.equipped)
            && (free <==> slot in s.equipped ==> s.equipped[slot].uid !in s.items)
            && (forall u :: u in s.items ==> u in t.items && t.cells[t.items[u]] == s.cells[s.items[u]])
  {
    UnequipKeepsOnePlace(s, slot, h);
  }

  lemma IntoSlotKeepsOnePlace(t: State, slot: nat, x: Item)
    requires OnePlace(t) && slot !in t.equipped
    requires x.uid in t.items && t.cells[t.items[x.uid]] == x
    ensures OnePlace(IntoSlot(t, slot, x))
  {
    var u, r := t.(equipped := t.equipped[slot := x]), IntoSlot(t, slot, x);
    SoundWithSlots(t, u.equipped);
    RemoveKeepsSound(u, x);
    assert forall v :: v in r.items ==> v in t.items && v != x.uid && r.cells[r.items[v]] == t.cells[t.items[v]];
    assert forall v :: v in r.items ==> r.cells[r.items[v]] != x;
  }

  /** If another key leads to x, it does so still, and x is in two places. */
  lemma IntoSlotTwice(t: State, uid: nat, slot: nat)
    requires OnePlace(t) && uid in t.items && t.cells[t.items[uid]].uid != uid
    ensures var x := t.cells[t.items[uid]];
            var r := IntoSlot(t, slot, x);
            && uid in r.items && r.items[uid] in r.cells && r.cells[r.items[uid]] == x && r.equipped[slot] == x
            && !OnePlace(r)
  {
    var x := t.cells[t.items[uid]];
    var r := IntoSlot(t, slot, x);
    assert r.equipped[slot] == x;
  }

  lemma EquipKeepsOnePlaceIff(s: State, uid: nat, slot: nat, h: Handle)
    requires OnePlace(s) && Usable(s, slot) && h !in s.cells
    ensures var (t, ok) := Equip(s, uid, slot, h);
            OnePlace(t) <==> ok ==> s.cells[s.items[uid]].uid == uid
  {
    if uid in s.items {
      FreeSlotKeepsOnePlace(s, slot, h);
      var (t, free) := FreeSlot(s, slot, h);
      var x := s.cells[s.items[uid]];
      if free {
        if x.uid == uid {
          IntoSlotKeepsOnePlace(t, slot, x);
        } else {
          IntoSlotTwice(t, uid, slot);
        }
      }
    }
  }

  lemma FillKeepsOnePlaceIff(s: State, slot: nat, x: Item)
    requires OnePlace(s)
    ensures OnePlace(Fill(s, slot, x))
            <==> !InBags(s, x) && forall e :: e in s.equipped && e != slot ==> s.equipped[e] != x
  {
    var t := Fill(s, slot, x);
    SoundWithSlots(s, t.equipped);
    assert t.equipped[slot] == x;
    assert forall e :: e in s.equipped && e != slot ==> e in t.equipped && t.equipped[e] == s.equipped[e];
  }

  // ---- what equipping does ----

  predicate KeyFinds(s: State, u: nat, x: Item) { u in s.items && s.items[u] in s.cells && s.cells[s.items[u]] == x }

  /**
    When equipping succeeds, and where the two items are afterwards. The item leaves the bag
    if and only if the key it was found by is its own.
   */
  lemma EquipOutcome(s: State, uid: nat, slot: nat, h: Handle)
    requires OnePlace(s) && Usable(s, slot) && h !in s.cells
    ensures var (t, ok) := Equip(s, uid, slot, h);
            && (ok <==> CanEquip(s, uid, slot))
            && (!ok ==> t.items == s.items && t.bags == s.bags && t.equipped == s.equipped && t.gone == s.gone)
            && (ok ==> Equipped(s, t, slot, s.cells[s.items[uid]], uid))
  {
    if uid in s.items {
      FreeSlotKeepsOnePlace(s, slot, h);
      FreeSlotOutcome(s, slot, h);
      var (t, free) := FreeSlot(s, slot, h);
      if free {
        IntoSlotOutcome(t, uid, slot);
        assert s.equipped[slot := s.cells[s.items[uid]]] == t.equipped[slot := s.cells[s.items[uid]]];
      }
    }
  }

  lemma FreeSlotOutcome(s: State, slot: nat, h: Handle)
    requires Valid(s) && Usable(s, slot) && h !in s.cells
    ensures var (t, free) := FreeSlot(s, slot, h);
            && (free <==> slot in s.equipped ==> s.equipped[slot].uid !in s.items)
            && t.gone == s.gone
            && (!free ==> t.items == s.items && t.bags == s.bags && t.equipped == s.equipped)
            && (free ==> t.equipped == s.equipped - {slot})
            && (free && slot in s.equipped ==> KeyFinds(t, s.equipped[slot].uid, s.equipped[slot]))
  {
  }

  /** The item x, found by the key uid, was put into the slot. */
  ghost predicate Equipped(s: State, t: State, slot: nat, x: Item, uid: nat)
  {
    && t.equipped == s.equipped[slot := x]
    && ((exists u :: KeyFinds(t, u, x)) <==> x.uid != uid)
    && (slot in s.equipped ==>
          (KeyFinds(t, s.equipped[slot].uid, s.equipped[slot]) <==> s.equipped[slot].uid != x.uid))
  }

  lemma IntoSlotOutcome(t: State, uid: nat, slot: nat)
    requires OnePlace(t) && uid in t.items && slot !in t.equipped
    ensures var x := t.cells[t.items[uid]];
            var r := IntoSlot(t, slot, x);
            && r.equipped == t.equipped[slot := x]
            && ((exists u :: KeyFinds(r, u, x)) <==> x.uid != uid)
            && (forall y: Item :: KeyFinds(t, y.uid, y) ==> (KeyFinds(r, y.uid, y) <==> y.uid != x.uid))
  {
    var x := t.cells[t.items[uid]];
    var r := IntoSlot(t, slot, x);
    if x.uid == uid {
      assert forall u :: u in r.items ==> r.cells[r.items[u]] == t.cells[t.items[u]] && u != uid;
    } else {
      assert KeyFinds(r, uid, x);
    }
  }

  predicate BagsAlive(s: State)
    requires Valid(s)
  {
    forall u :: u in s.items ==> s.cells[s.items[u]] !in s.gone
  }

  /** No key but v leads to y. */
  predicate SoleKey(s: State, v: nat, y: Item)
    requires Valid(s)
  {
    forall u :: u in s.items && u != v ==> s.cells[s.items[u]] != y
  }

  /** A removal leaves the bags without a destroyed item if and only if no other key leads to what it destroys. */
  lemma RemoveKeepsBagsAliveIff(s: State, x: Item)
    requires Sound(s) && BagsAlive(s) && x.category < CATS && Fits(s, x)
    ensures Valid(Remove(s, x))
    ensures BagsAlive(Remove(s, x))
            <==> x.uid in s.items ==> SoleKey(s, x.uid, s.cells[s.items[x.uid]])
  {
    RemoveKeepsSound(s, x);
    if x.uid in s.items && !SoleKey(s, x.uid, s.cells[s.items[x.uid]]) {
      var u :| u in s.items && u != x.uid && s.cells[s.items[u]] == s.cells[s.items[x.uid]];
      assert u in Remove(s, x).items && Remove(s, x).cells[s.items[u]] in Remove(s, x).gone;
    }
  }

  predicate SlotsAlive(s: State) { forall e :: e in s.equipped ==> s.equipped[e] !in s.gone }

  /** Equip destroys what the own key of its item finds, in any state, and nothing else. */
  lemma EquipDestroys(s: State, uid: nat, slot: nat, h: Handle)
    requires Valid(s) && Usable(s, slot) && h !in s.cells
    ensures Equip(s, uid, slot, h).0.gone
         == s.gone + if CanEquip(s, uid, slot) && OwnKeyFinds(s, uid, slot).Some?
                     then {OwnKeyFinds(s, uid, slot).value} else {}
  {
    EquipSteps(s, uid, slot, h);
    FreeSlotOutcome(s, slot, h);
  }

  /**
    The removal that ends a successful equip destroys what the item's own key finds. So it
    destroys the item just equipped if and only if that was found by its own key, and no
    other item in a slot ever.
   */
  lemma EquippedItemGone(s: State, uid: nat, slot: nat, h: Handle)
    requires OnePlace(s) && BagsAlive(s) && SlotsAlive(s) && Usable(s, slot) && h !in s.cells
    ensures var (t, ok) := Equip(s, uid, slot, h);
            && (SlotsAlive(t) <==> ok ==> s.cells[s.items[uid]].uid != uid)
            && (ok ==> forall e :: e in t.equipped && e != slot ==> t.equipped[e] !in t.gone)
            && (ok && s.cells[s.items[uid]].uid in s.items ==> Lookup(s, s.cells[s.items[uid]].uid).value in t.gone)
  {
    if uid in s.items {
      FreeSlotKeepsOnePlace(s, slot, h);
      FreeSlotOutcome(s, slot, h);
      FreeSlotKeepsAlive(s, slot, h);
      IntoSlotDestroys(FreeSlot(s, slot, h).0, uid, slot);
    }
  }

  lemma FreeSlotKeepsAlive(s: State, slot: nat, h: Handle)
    requires OnePlace(s) && BagsAlive(s) && Usable(s, slot) && h !in s.cells
    ensures var t := FreeSlot(s, slot, h).0;
            t.gone == s.gone && BagsAlive(t) && (SlotsAlive(s) ==> SlotsAlive(t))
  {
    FreeSlotOutcome(s, slot, h);
  }

  lemma IntoSlotDestroys(t: State, uid: nat, slot: nat)
    requires OnePlace(t) && BagsAlive(t) && SlotsAlive(t) && uid in t.items
    ensures var x := t.cells[t.items[uid]];
            var r := IntoSlot(t, slot, x);
            && slot in r.equipped && r.equipped[slot] == x && (x in r.gone <==> x.uid == uid)
            && (forall e :: e in r.equipped && e != slot ==> r.equipped[e] !in r.gone)
            && (x.uid in t.items ==> t.cells[t.items[x.uid]] in r.gone)
  {
  }

  /** Deleting what a lookup found destroys it if and only if it was found by its own key. */
  lemma DeleteDestroysIff(s: State, uid: nat)
    requires OnePlace(s) && BagsAlive(s) && uid in s.items
    ensures var x := Lookup(s, uid).value;
            && (x in Remove(s, x).gone <==> x.uid == uid)
            && (KeyFinds(Remove(s, x), uid, x) <==> x.uid != uid)
  {
  }

  // ---- what swapping does ----

  function ExchangedItems(x: Item, y: Item, z: Item): Item { if z == x then y else if z == y then x else z }

  /** The swap exchanges the places of the two items that its keys lead to, and moves no other. */
  ghost predicate ExchangesItems(s: State, a: nat, b: nat)
    requires Valid(s) && a in s.items && b in s.items
  {
    forall c: nat, k: nat, z: Item ::
      At(Swap(s, a, b).0, c, k, z)
      <==> At(s, c, k, ExchangedItems(s.cells[s.items[a]], s.cells[s.items[b]], z))
  }

  /** No key besides a and b leads to what one of these leads to. */
  predicate SoleKeys(s: State, a: nat, b: nat)
    requires Valid(s) && a in s.items && b in s.items
  {
    forall u :: u in s.items && u != a && u != b ==>
      s.cells[s.items[u]] != s.cells[s.items[a]] && s.cells[s.items[u]] != s.cells[s.items[b]]
  }

  /** A swap that succeeds does that if and only if no third key leads to one of two different items. */
  lemma SwapExchangesItemsIff(s: State, a: nat, b: nat)
    requires Sound(s) && a in s.items && b in s.items && Swap(s, a, b).1
    ensures ExchangesItems(s, a, b) <==> s.cells[s.items[a]] == s.cells[s.items[b]] || SoleKeys(s, a, b)
  {
    var x, y := s.cells[s.items[a]], s.cells[s.items[b]];
    if x == y || SoleKeys(s, a, b) {
      forall c: nat, k: nat, z: Item
        ensures At(Swap(s, a, b).0, c, k, z) <==> At(s, c, k, ExchangedItems(x, y, z))
      {
        SwapExchangesAt(s, a, b, c, k, z);
      }
    } else {
      var u :| u in s.items && u != a && u != b && (s.cells[s.items[u]] == x || s.cells[s.items[u]] == y);
      var z := s.cells[s.items[u]];
      var c, k := PositionOf(s, u);
      SwapMoves(s, a, b);
      assert At(Swap(s, a, b).0, c, k, z) && !At(s, c, k, ExchangedItems(x, y, z));
    }
  }

  lemma SwapExchangesAt(s: State, a: nat, b: nat, c: nat, k: nat, z: Item)
    requires Sound(s) && a in s.items && b in s.items && Swap(s, a, b).1
    requires s.cells[s.items[a]] == s.cells[s.items[b]] || SoleKeys(s, a, b)
    ensures At(Swap(s, a, b).0, c, k, z)
            <==> At(s, c, k, ExchangedItems(s.cells[s.items[a]], s.cells[s.items[b]], z))
  {
    SwapMoves(s, a, b);
    if c < CATS && k < |s.bags[c]| {
      var u := KeyAt(s, c, k);
      assert Swap(s, a, b).0.cells[s.items[u]] == s.cells[s.items[Exchanged(a, b, u)]];
    }
  }

  /** In particular where each item is in one place. */
  lemma SwapExchangesItems(s: State, a: nat, b: nat)
    requires OnePlace(s) && a in s.items && b in s.items && Swap(s, a, b).1
    ensures ExchangesItems(s, a, b)
  {
    SwapExchangesItemsIff(s, a, b);
  }

  lemma SwapKeepsKeyedIff(s: State, a: nat, b: nat)
    requires Sound(s) && Keyed(s) && a in s.items && b in s.items
    ensures var (t, ok) := Swap(s, a, b); Keyed(t) <==> !ok || a == b
  {
    var (t, ok) := Swap(s, a, b);
    if ok {
      assert t.cells[t.items[a]].uid == b;
    }
  }

  /** No two items in the bags have the same id. */
  predicate IdsDistinct(s: State)
    requires Valid(s)
  {
    forall u, v :: u in s.items && v in s.items && s.cells[s.items[u]].uid == s.cells[s.items[v]].uid ==> u == v
  }

  /** Position k of bag c is the first that shows an item with this id. */
  predicate ShownAt(s: State, c: nat, uid: nat, k: nat)
    requires Valid(s) && c < CATS
  {
    && k < |s.bags[c]| && s.cells[s.bags[c][k]].uid == uid
    && forall j :: 0 <= j < k ==> s.cells[s.bags[c][j]].uid != uid
  }

  lemma ShownOnce(s: State, c: nat, uid: nat, k: nat)
    requires Sound(s) && IdsDistinct(s) && c < CATS
    ensures ShownAt(s, c, uid, k) <==> k < |s.bags[c]| && s.cells[s.bags[c][k]].uid == uid
  {
    if k < |s.bags[c]| && s.cells[s.bags[c][k]].uid == uid {
      var u := KeyAt(s, c, k);
      forall j | 0 <= j < k
        ensures s.cells[s.bags[c][j]].uid != uid
      {
        var v := KeyAt(s, c, j);
        assert BagSound(s, c);
      }
    }
  }

  /** After a swap an id is shown where the swap's other item was before, if it is the id of one of the two. */
  lemma SwapShows(s: State, a: nat, b: nat, c: nat, u: nat, k: nat)
    requires Sound(s) && IdsDistinct(s) && a in s.items && b in s.items && c < CATS && Swap(s, a, b).1
    ensures var p, q := s.cells[s.items[a]].uid, s.cells[s.items[b]].uid;
            ShownAt(Swap(s, a, b).0, c, u, k) <==> ShownAt(s, c, Exchanged(p, q, u), k)
  {
    var p, q := s.cells[s.items[a]].uid, s.cells[s.items[b]].uid;
    var t := Swap(s, a, b).0;
    SwapKeepsSound(s, a, b);
    SwapMoves(s, a, b);
    ShownOnce(t, c, u, k);
    ShownOnce(s, c, Exchanged(p, q, u), k);
    if k < |s.bags[c]| {
      var v := KeyAt(s, c, k);
      assert t.cells[t.bags[c][k]] == s.cells[s.items[Exchanged(a, b, v)]];
    }
  }

  /** The swap exchanges the places of the ids it was given. */
  ghost predicate SwapsPlaces(s: State, a: nat, b: nat)
    requires Valid(s) && a in s.items && b in s.items
  {
    forall c: nat, u: nat, k: nat :: c < CATS ==>
      (ShownAt(Swap(s, a, b).0, c, u, k) <==> ShownAt(s, c, Exchanged(a, b, u), k))
  }

  /** That is so if and only if the two keys lead to the items with those two ids, in either order. */
  lemma SwapsPlacesIff(s: State, a: nat, b: nat)
    requires Sound(s) && IdsDistinct(s) && a in s.items && b in s.items && Swap(s, a, b).1
    ensures var p, q := s.cells[s.items[a]].uid, s.cells[s.items[b]].uid;
            SwapsPlaces(s, a, b) <==> a == b || (p == a && q == b) || (p == b && q == a)
  {
    var p, q := s.cells[s.items[a]].uid, s.cells[s.items[b]].uid;
    if a == b || (p == a && q == b) || (p == b && q == a) {
      forall c: nat, u: nat, k: nat | c < CATS
        ensures ShownAt(Swap(s, a, b).0, c, u, k) <==> ShownAt(s, c, Exchanged(a, b, u), k)
      {
        SwapShows(s, a, b, c, u, k);
      }
    } else {
      var c, k := PositionOf(s, a);
      ShownOnce(s, c, p, k);
      SwapShows(s, a, b, c, q, k);
      assert Exchanged(p, q, q) == p;
      assert Exchanged(a, b, q) != p;
      assert ShownAt(Swap(s, a, b).0, c, q, k) && !ShownAt(s, c, Exchanged(a, b, q), k);
    }
  }

  /** Two bags show items under one index. */
  predicate SharedIndex(s: State, c: nat, d: nat, i: nat, j: nat)
    requires |s.bags| == CATS
  {
    c < d < CATS && i < |s.bags[c]| && j < |s.bags[d]|
    && BAG_SIZE * c + i + 1 == BAG_SIZE * d + j + 1
  }

  /** Bag c is so long that it reaches the span of the later bag d, which is not empty. */
  predicate Reaches(s: State, c: nat, d: nat)
    requires |s.bags| == CATS
  {
    c < d < CATS && |s.bags[c]| > BAG_SIZE * (d - c) && s.bags[d] != []
  }

  /** An index is ambiguous if and only if that is so somewhere; it takes a bag of more than BAG_SIZE items. */
  lemma IndexesSharedIff(s: State)
    requires |s.bags| == CATS
    ensures (exists c: nat, d: nat, i: nat, j: nat :: SharedIndex(s, c, d, i, j))
            <==> exists c: nat, d: nat :: Reaches(s, c, d)
    ensures (forall c :: 0 <= c < CATS ==> |s.bags[c]| <= BAG_SIZE) ==>
              forall c: nat, d: nat :: !Reaches(s, c, d)
  {
    if c: nat, d: nat, i: nat, j: nat :| SharedIndex(s, c, d, i, j) {
      assert Reaches(s, c, d);
    }
    if c: nat, d: nat :| Reaches(s, c, d) {
      assert SharedIndex(s, c, d, BAG_SIZE * (d - c), 0);
    }
  }

  // ---- the object ----

  class Inventory {
    var items: map<nat, Handle>
    var cells: map<Handle, Item>
    var bags: seq<seq<Handle>>
    var equipped: map<nat, Item>
    var gone: set<Item>

    ghost function Now(): State
      reads this
    {
      State(items, cells, bags, equipped, gone)
    }

    constructor ()
      ensures Now() == EMPTY
    {
      items, cells, bags, equipped, gone := map[], map[], NO_BAGS, map[], {};
    }

    method AddItem(x: Item, h: Handle) returns (ok: bool)
      requires Valid(Now()) && x.category < CATS && h !in cells
      modifies this
      ensures (Now(), ok) == Add(old(Now()), x, h)
    {
      cells := cells[h := x];
      if x.uid in items {
        return false;
      }
      items := items[x.uid := h];
      bags := bags[x.category := bags[x.category] + [h]];
      return true;
    }

    method RemoveItem(x: Item) returns (ok: bool)
      requires Valid(Now()) && x.category < CATS
      modifies this
      ensures ok && Now() == Remove(old(Now()), x)
    {
      if x.uid in items {
        var h := items[x.uid];
        bags := bags[x.category := Without(bags[x.category], h)];
        items := items - {x.uid};
        gone := gone + {cells[h]};
        cells := cells - {h};
      }
      return true;
    }

    method GetItemByActorId(uid: nat) returns (found: Option<Item>)
      requires Valid(Now())
      ensures found == Lookup(Now(), uid)
    {
      found := None;
      if uid in items {
        found := Some(cells[items[uid]]);
      }
    }

    method UnequipItem(slot: nat, h: Handle) returns (ok: bool)
      requires Valid(Now()) && Usable(Now(), slot) && h !in cells
      modifies this
      ensures (Now(), ok) == Unequip(old(Now()), slot, h)
    {
      if slot !in equipped {
        return false;
      }
      ok := AddItem(equipped[slot], h);
      if ok {
        equipped := equipped - {slot};
      }
    }

    method EquipItem(uid: nat, slot: nat, h: Handle) returns (ok: bool)
      requires Valid(Now()) && Usable(Now(), slot) && h !in cells
      modifies this
      ensures (Now(), ok) == Equip(old(Now()), uid, slot, h)
    {
      var found := GetItemByActorId(uid);
      if found == None {
        return false;
      }
      if slot in equipped {
        var free := UnequipItem(slot, h);
        if !free {
          return false;
        }
      }
      equipped := equipped[slot := found.value];
      ok := RemoveItem(found.value);
    }

    method SwapItems(a: nat, b: nat) returns (ok: bool)
      requires Valid(Now()) && a in items && b in items
      modifies this
      ensures (Now(), ok) == Swap(old(Now()), a, b)
    {
      var h, g := items[a], items[b];
      if cells[h].category != cells[g].category {
        return false;
      }
      var temp := cells[h];
      cells := cells[h := cells[g]];
      cells := cells[g := temp];
      return true;
    }

    /** What is done to the slots of a new or loaded commander. */
    method PutIntoSlot(slot: nat, x: Item)
      modifies this
      ensures Now() == Fill(old(Now()), slot, x)
    {
      equipped := equipped[slot := x];
    }

    /** The index of the first position that shows the id, or -1. */
    method GetBagIndexByActorId(category: nat, uid: nat) returns (bagIndex: int)
      requires Valid(Now()) && category < CATS
      ensures bagIndex == -1 ==> forall k :: 0 <= k < |bags[category]| ==> cells[bags[category][k]].uid != uid
      ensures bagIndex != -1 ==>
                exists k :: 0 <= k < |bags[category]| && bagIndex == 5000 * category + k + 1
                  && cells[bags[category][k]].uid == uid
                  && forall j :: 0 <= j < k ==> cells[bags[category][j]].uid != uid
    {
      bagIndex := -1;
      var index, bag := 1, bags[category];
      while index <= |bag|
        invariant 1 <= index <= |bag| + 1
        invariant bagIndex == -1
        invariant forall j :: 0 <= j < index - 1 ==> cells[bag[j]].uid != uid
      {
        assert bag[index - 1] in bag;
        if uid == cells[bag[index - 1]].uid {
          bagIndex := BAG_SIZE * category + index;
          assert 0 <= index - 1 < |bag| && bagIndex == 5000 * category + (index - 1) + 1;
          break;
        }
        index := index + 1;
      }
    }
  }
}
