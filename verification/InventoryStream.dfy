/**
  The inventory written to a stream and read back, record by record. Reading fills bags
  and slots and leaves the table of ids empty; the number of bag items is written from the
  table. So bags and slots come back once, and ids do not.
 */
module InventoryStream {
  import opened LittleEndian
  import opened Inventory
  import opened InventoryRuns

  const SLOTS := 20                              // EQSLOT_COUNT
  const NO_SLOT := 21                            // EQSLOT_NOSLOT

  /** A count of 32 bits, or what an item is written as. */
  datatype Record = Count(n: nat) | Written(uid: nat, category: nat, slot: nat)

  // ---- writing ----

  /** The items in the slots below n. */
  function SlotRecords(s: State, n: nat): (rs: seq<Record>)
    ensures |rs| <= n && forall r :: r in rs ==> r.Written?
  {
    if n == 0 then []
    else
      SlotRecords(s, n - 1)
      + if n - 1 in s.equipped then [Written(s.equipped[n - 1].uid, s.equipped[n - 1].category, n - 1)] else []
  }

  /** The record that slot e is written as. */
  function SlotRecord(s: State, e: nat): Record
    requires e in s.equipped
  {
    Written(s.equipped[e].uid, s.equipped[e].category, e)
  }

  /** The records are those of slots below n, in their order. */
  predicate InSlotOrder(s: State, rs: seq<Record>, n: nat)
    requires forall r :: r in rs ==> r.Written?
  {
    && (forall i :: 0 <= i < |rs| ==>
          rs[i].slot < n && rs[i].slot in s.equipped && rs[i] == SlotRecord(s, rs[i].slot))
    && (forall i, j :: 0 <= i < j < |rs| ==> rs[i].slot < rs[j].slot)
  }

  lemma SlotOrderSnoc(s: State, rs: seq<Record>, n: nat)
    requires (forall r :: r in rs ==> r.Written?) && InSlotOrder(s, rs, n) && n in s.equipped
    ensures forall r :: r in rs + [SlotRecord(s, n)] ==> r.Written?
    ensures InSlotOrder(s, rs + [SlotRecord(s, n)], n + 1)
  {
    var all := rs + [SlotRecord(s, n)];
    forall i | 0 <= i < |all|
      ensures if i < |rs| then all[i] == rs[i] else all[i] == SlotRecord(s, n)
    {
    }
  }

  /** The records of the slots come in the order of the slots, each as that slot's item. */
  lemma {:induction false} SlotRecordsOrdered(s: State, n: nat)
    ensures InSlotOrder(s, SlotRecords(s, n), n)
  {
    if n > 0 {
      SlotRecordsOrdered(s, n - 1);
      if n - 1 in s.equipped {
        SlotOrderSnoc(s, SlotRecords(s, n - 1), n - 1);
        assert SlotRecords(s, n) == SlotRecords(s, n - 1) + [SlotRecord(s, n - 1)];
      } else {
        assert SlotRecords(s, n) == SlotRecords(s, n - 1);
      }
    }
  }

  /** And no slot that is filled is left out. */
  lemma {:induction false} SlotRecordsComplete(s: State, n: nat, e: nat)
    requires e < n && e in s.equipped
    ensures SlotRecord(s, e) in SlotRecords(s, n)
  {
    if e < n - 1 {
      SlotRecordsComplete(s, n - 1, e);
    }
  }

  /** The first n items of bag c. */
  function BagRecords(s: State, c: nat, n: nat): (rs: seq<Record>)
    requires Valid(s) && c < CATS && n <= |s.bags[c]|
    ensures |rs| == n && forall r :: r in rs ==> r.Written?
  {
    if n == 0 then []
    else
      assert s.bags[c][n - 1] in s.bags[c];
      var x := s.cells[s.bags[c][n - 1]];
      BagRecords(s, c, n - 1) + [Written(x.uid, x.category, NO_SLOT)]
  }

  /** Each of them in its place. */
  lemma {:induction false} BagRecordsAt(s: State, c: nat, n: nat, k: nat)
    requires Valid(s) && c < CATS && k < n <= |s.bags[c]|
    ensures s.bags[c][k] in s.cells
    ensures BagRecords(s, c, n)[k] == Written(s.cells[s.bags[c][k]].uid, s.cells[s.bags[c][k]].category, NO_SLOT)
  {
    assert s.bags[c][k] in s.bags[c];
    if k < n - 1 {
      BagRecordsAt(s, c, n - 1, k);
    }
  }

  /** The bags one after the other, in the order of the categories. */
  function BagsRecords(s: State, c: nat): (rs: seq<Record>)
    requires Valid(s) && c <= CATS
    ensures forall r :: r in rs ==> r.Written?
  {
    if c == 0 then [] else BagsRecords(s, c - 1) + BagRecords(s, c - 1, |s.bags[c - 1]|)
  }

  /** The number of ids, in the 32 bits of itemsCount. */
  function ItemsCount(s: State): nat { |s.items| % B4 }

  function Serialized(s: State): seq<Record>
    requires Valid(s)
  {
    [Count(|SlotRecords(s, SLOTS)|)] + SlotRecords(s, SLOTS)
    + [Count(ItemsCount(s))] + BagsRecords(s, CATS)
  }

  method SerializeSPacket(inv: Inventory) returns (stream: seq<Record>)
    requires Valid(inv.Now())
    ensures stream == Serialized(inv.Now())
  {
    ghost var s := inv.Now();
    var equipmentCount := 0;
    for slot := 0 to SLOTS
      invariant equipmentCount == |SlotRecords(s, slot)|
    {
      if slot in inv.equipped {
        equipmentCount := equipmentCount + 1;
      }
    }
    stream := [Count(equipmentCount)];
    ghost var before := stream;
    for slot := 0 to SLOTS
      invariant stream == before + SlotRecords(s, slot)
    {
      if slot in inv.equipped {
        stream := stream + [Written(inv.equipped[slot].uid, inv.equipped[slot].category, slot)];
      }
    }
    stream := stream + [Count(|inv.items| % B4)];
    before := stream;
    for cat := 0 to CATS
      invariant stream == before + BagsRecords(s, cat)
    {
      var bag := SerializeBag(inv, cat);
      stream := stream + bag;
    }
  }

  method SerializeBag(inv: Inventory, cat: nat) returns (stream: seq<Record>)
    requires Valid(inv.Now()) && cat < CATS
    ensures stream == BagRecords(inv.Now(), cat, |inv.bags[cat]|)
  {
    stream := [];
    var bag := inv.bags[cat];
    for k := 0 to |bag|
      invariant stream == BagRecords(inv.Now(), cat, k)
    {
      assert bag[k] in bag;
      var item := inv.cells[bag[k]];
      stream := stream + [Written(item.uid, item.category, NO_SLOT)];
    }
  }

  // ---- reading ----

  /** Where malloc puts the items and handles that are read: at addresses not in use, all different. */
  datatype Heap = Heap(item: nat -> nat, handle: nat -> Handle)

  ghost predicate Fresh(s: State, heap: Heap)
  {
    && (forall i, j :: heap.handle(i) == heap.handle(j) ==> i == j)
    && (forall i :: heap.handle(i) !in s.cells)
  }

  function ItemOf(r: Record, addr: nat): Item
    requires r.Written?
  {
    Item(addr, r.uid, r.category)
  }

  /** The slots after the first n records. */
  function SlotsRead(rs: seq<Record>, heap: Heap, n: nat): map<nat, Item>
    requires n <= |rs| && forall r :: r in rs ==> r.Written?
  {
    if n == 0 then map[] else SlotsRead(rs, heap, n - 1)[rs[n - 1].slot := ItemOf(rs[n - 1], heap.item(n - 1))]
  }

  /** The cells after the first n records; the handles lost by the purge stay allocated. */
  function CellsRead(cells: map<Handle, Item>, rs: seq<Record>, heap: Heap, k: nat, n: nat): map<Handle, Item>
    requires n <= |rs| && forall r :: r in rs ==> r.Written?
  {
    if n == 0 then cells
    else CellsRead(cells, rs, heap, k, n - 1)[heap.handle(n - 1) := ItemOf(rs[n - 1], heap.item(k + n - 1))]
  }

  /** Bag c after the first n records. */
  function BagRead(rs: seq<Record>, heap: Heap, c: nat, n: nat): seq<Handle>
    requires n <= |rs| && forall r :: r in rs ==> r.Written?
  {
    if n == 0 then []
    else BagRead(rs, heap, c, n - 1) + if rs[n - 1].category == c then [heap.handle(n - 1)] else []
  }

  /** The inventory s after slots and items were read into it. */
  function Loaded(s: State, slots: seq<Record>, items: seq<Record>, heap: Heap): State
    requires forall r :: r in slots ==> r.Written?
    requires forall r :: r in items ==> r.Written?
  {
    State(map[],
          CellsRead(s.cells, items, heap, |slots|, |items|),
          seq(CATS, c requires 0 <= c < CATS => BagRead(items, heap, c, |items|)),
          SlotsRead(slots, heap, |slots|),
          s.gone + s.equipped.Values)
  }

  /** Where the two counts of a stream are and what they count off, as the source takes for granted. */
  ghost predicate Readable(stream: seq<Record>, k: nat, n: nat)
  {
    && k + n + 2 <= |stream| && stream[0] == Count(k) && stream[k + 1] == Count(n)
    && (forall r :: r in stream[1..k + 1] ==> r.Written? && r.slot < SLOTS)
    && (forall r :: r in stream[k + 2..k + 2 + n] ==> r.Written? && r.category < CATS)
  }

  method ReadSlots(inv: Inventory, stream: seq<Record>, heap: Heap, equipmentCount: nat, ghost slots: seq<Record>)
    requires equipmentCount + 1 <= |stream| && slots == stream[1..equipmentCount + 1]
    requires forall r :: r in slots ==> r.Written? && r.slot < SLOTS
    modifies inv`equipped, inv`gone
    ensures inv.equipped == SlotsRead(slots, heap, equipmentCount)
    ensures inv.gone == old(inv.gone) + old(inv.equipped).Values
  {
    inv.gone := inv.gone + inv.equipped.Values;
    inv.equipped := map[];
    for i := 0 to equipmentCount
      invariant inv.equipped == SlotsRead(slots, heap, i)
      invariant inv.gone == old(inv.gone) + old(inv.equipped).Values
    {
      var r := stream[1 + i];
      assert r == slots[i];
      inv.equipped := inv.equipped[r.slot := ItemOf(r, heap.item(i))];
    }
  }

  method ReadItems(inv: Inventory, stream: seq<Record>, heap: Heap, from: nat, itemsCount: nat, k: nat,
                   ghost items: seq<Record>)
    requires from + itemsCount <= |stream| && items == stream[from..from + itemsCount]
    requires forall r :: r in items ==> r.Written? && r.category < CATS
    modifies inv`items, inv`bags, inv`cells
    ensures inv.items == map[] && inv.cells == CellsRead(old(inv.cells), items, heap, k, itemsCount)
    ensures |inv.bags| == CATS && forall c :: 0 <= c < CATS ==> inv.bags[c] == BagRead(items, heap, c, itemsCount)
  {
    inv.items := map[];
    inv.bags := NO_BAGS;
    for i := 0 to itemsCount
      invariant inv.items == map[] && inv.cells == CellsRead(old(inv.cells), items, heap, k, i)
      invariant |inv.bags| == CATS && forall c :: 0 <= c < CATS ==> inv.bags[c] == BagRead(items, heap, c, i)
    {
      var r := stream[from + i];
      assert r == items[i];
      var h := heap.handle(i);
      inv.cells := inv.cells[h := ItemOf(r, heap.item(k + i))];
      inv.bags := inv.bags[r.category := inv.bags[r.category] + [h]];
    }
  }

  method UnserializeSPacket(inv: Inventory, stream: seq<Record>, heap: Heap, ghost k: nat, ghost n: nat)
    requires Readable(stream, k, n)
    modifies inv
    ensures inv.Now() == Loaded(old(inv.Now()), stream[1..k + 1], stream[k + 2..k + 2 + n], heap)
  {
    var equipmentCount := stream[0].n;
    ReadSlots(inv, stream, heap, equipmentCount, stream[1..k + 1]);
    var itemsCount := stream[equipmentCount + 1].n;
    ReadItems(inv, stream, heap, equipmentCount + 2, itemsCount, equipmentCount, stream[k + 2..k + 2 + n]);
  }

  // ---- what comes back ----

  /** What bag c shows, item by item. */
  function Shown(s: State, c: nat): seq<Record>
    requires Valid(s) && c < CATS
  {
    BagRecords(s, c, |s.bags[c]|)
  }

  /** The items of category c, in order. */
  function Chosen(rs: seq<Record>, c: nat): (chosen: seq<Record>)
    requires forall r :: r in rs ==> r.Written?
    decreases |rs|
  {
    if rs == [] then []
    else
      var last := rs[|rs| - 1];
      Chosen(rs[..|rs| - 1], c) + if last.category == c then [last] else []
  }

  lemma ChosenSnoc(rs: seq<Record>, c: nat, n: nat)
    requires Items(rs) && 0 < n <= |rs|
    ensures Items(rs[..n]) && Items(rs[..n - 1]) && Items([rs[n - 1]])
    ensures Chosen(rs[..n], c) == Chosen(rs[..n - 1], c) + if rs[n - 1].category == c then [rs[n - 1]] else []
  {
    ItemsPrefix(rs, n);
    ItemsPrefix(rs, n - 1);
    assert rs[n - 1] in rs;
    assert rs[..n][..n - 1] == rs[..n - 1];
  }

  predicate Items(rs: seq<Record>) { forall r :: r in rs ==> r.Written? && r.category < CATS && r.slot == NO_SLOT }

  lemma {:induction false} CellsReadAt(cells: map<Handle, Item>, rs: seq<Record>, heap: Heap, k: nat, n: nat, i: nat)
    requires Items(rs) && n <= |rs| && i < n
    requires forall i, j :: heap.handle(i) == heap.handle(j) ==> i == j
    ensures heap.handle(i) in CellsRead(cells, rs, heap, k, n)
    ensures CellsRead(cells, rs, heap, k, n)[heap.handle(i)] == ItemOf(rs[i], heap.item(k + i))
  {
    if i < n - 1 {
      CellsReadAt(cells, rs, heap, k, n - 1, i);
    }
  }

  lemma {:induction false} BagReadFrom(rs: seq<Record>, heap: Heap, c: nat, n: nat, h: Handle) returns (i: nat)
    requires Items(rs) && n <= |rs| && h in BagRead(rs, heap, c, n)
    ensures i < n && h == heap.handle(i) && rs[i].category == c
  {
    if h in BagRead(rs, heap, c, n - 1) {
      i := BagReadFrom(rs, heap, c, n - 1, h);
    } else {
      i := n - 1;
    }
  }

  lemma LoadedValid(t: State, slots: seq<Record>, items: seq<Record>, heap: Heap)
    requires Fresh(t, heap) && Items(items) && forall r :: r in slots ==> r.Written?
    ensures Valid(Loaded(t, slots, items, heap))
  {
    var r := Loaded(t, slots, items, heap);
    forall c, h | 0 <= c < CATS && h in r.bags[c]
      ensures h in r.cells
    {
      var i := BagReadFrom(items, heap, c, |items|, h);
      CellsReadAt(t.cells, items, heap, |slots|, |items|, i);
    }
  }

  /** Each bag shows the items of its category that were read, in order. */
  lemma LoadedShows(t: State, slots: seq<Record>, items: seq<Record>, heap: Heap, c: nat)
    requires Fresh(t, heap) && Items(items) && c < CATS && forall r :: r in slots ==> r.Written?
    ensures Valid(Loaded(t, slots, items, heap))
    ensures Shown(Loaded(t, slots, items, heap), c) == Chosen(items, c)
  {
    LoadedValid(t, slots, items, heap);
    ShownSoFar(t, slots, items, heap, c, |items|);
    assert items[..|items|] == items;
  }

  lemma {:induction false} ShownSoFar(t: State, slots: seq<Record>, items: seq<Record>, heap: Heap, c: nat, n: nat)
    requires Fresh(t, heap) && Items(items) && c < CATS && n <= |items| && forall r :: r in slots ==> r.Written?
    requires Valid(Loaded(t, slots, items, heap))
    ensures Items(items[..n])
    ensures var r := Loaded(t, slots, items, heap);
            && |BagRead(items, heap, c, n)| <= |r.bags[c]|
            && r.bags[c][..|BagRead(items, heap, c, n)|] == BagRead(items, heap, c, n)
            && BagRecords(r, c, |BagRead(items, heap, c, n)|) == Chosen(items[..n], c)
  {
    var r := Loaded(t, slots, items, heap);
    BagReadPrefix(items, heap, c, n, |items|);
    if n > 0 {
      ShownSoFar(t, slots, items, heap, c, n - 1);
      ChosenSnoc(items, c, n);
      CellsReadAt(t.cells, items, heap, |slots|, |items|, n - 1);
      if items[n - 1].category == c {
        var m := |BagRead(items, heap, c, n)|;
        assert r.bags[c][m - 1] == r.bags[c][..m][m - 1] == heap.handle(n - 1);
        assert items[n - 1] in items;
      }
    }
  }

  lemma {:induction false} BagReadPrefix(rs: seq<Record>, heap: Heap, c: nat, m: nat, n: nat)
    requires m <= n <= |rs| && Items(rs)
    ensures |BagRead(rs, heap, c, m)| <= |BagRead(rs, heap, c, n)|
    ensures BagRead(rs, heap, c, n)[..|BagRead(rs, heap, c, m)|] == BagRead(rs, heap, c, m)
  {
    if m < n {
      BagReadPrefix(rs, heap, c, m, n - 1);
    }
  }

  /** Every bag shows items of its own category. */
  predicate BagsTrue(s: State)
    requires Valid(s)
  {
    forall c, h :: 0 <= c < CATS && h in s.bags[c] ==> s.cells[h].category == c
  }

  lemma {:induction false} ChosenJoin(a: seq<Record>, b: seq<Record>, c: nat)
    requires Items(a) && Items(b)
    ensures Items(a + b) && Chosen(a + b, c) == Chosen(a, c) + Chosen(b, c)
    decreases |b|
  {
    if b == [] {
      assert a + b == a;
    } else {
      var b' := b[..|b| - 1];
      ItemsPrefix(b, |b| - 1);
      ChosenJoin(a, b', c);
      assert (a + b)[..|a + b| - 1] == a + b';
      assert (a + b)[|a + b| - 1] == b[|b| - 1];
    }
  }

  lemma {:induction false} BagRecordsChosen(s: State, c: nat, n: nat, d: nat)
    requires Valid(s) && BagsTrue(s) && c < CATS && n <= |s.bags[c]|
    ensures Items(BagRecords(s, c, n))
    ensures Chosen(BagRecords(s, c, n), d) == if d == c then BagRecords(s, c, n) else []
  {
    if n > 0 {
      BagRecordsChosen(s, c, n - 1, d);
      assert s.bags[c][n - 1] in s.bags[c];
      var x := s.cells[s.bags[c][n - 1]];
      assert x.category == c;
      AllOrNoneChosen(BagRecords(s, c, n - 1), Written(x.uid, c, NO_SLOT), d);
    }
  }

  lemma AllOrNoneChosen(a: seq<Record>, r: Record, d: nat)
    requires Items(a) && Items([r]) && Chosen(a, d) == if d == r.category then a else []
    ensures Items(a + [r]) && Chosen(a + [r], d) == if d == r.category then a + [r] else []
  {
    ChosenAppend(a, r, d);
  }

  lemma ChosenAppend(a: seq<Record>, r: Record, c: nat)
    requires Items(a) && Items([r])
    ensures Items(a + [r]) && Chosen(a + [r], c) == Chosen(a, c) + if r.category == c then [r] else []
  {
    ChosenJoin(a, [r], c);
    ChosenSnoc([r], c, 1);
    assert [r][..1] == [r] && [r][..0] == [];
  }

  lemma BagsRecordsSnoc(s: State, c: nat)
    requires Valid(s) && c < CATS
    ensures BagsRecords(s, c + 1) == BagsRecords(s, c) + Shown(s, c)
  {
  }

  /** Of the first c bags written one after the other, the records of category d are those of bag d. */
  lemma {:induction false} BagsRecordsChosen(s: State, c: nat, d: nat)
    requires Valid(s) && BagsTrue(s) && c <= CATS && d < CATS
    ensures Items(BagsRecords(s, c)) && Chosen(BagsRecords(s, c), d) == ShownBelow(s, c, d)
  {
    if c > 0 {
      BagsRecordsChosen(s, c - 1, d);
      NextBagChosen(s, c - 1, d);
    }
  }

  function ShownBelow(s: State, c: nat, d: nat): seq<Record>
    requires Valid(s) && d < CATS
  {
    if d < c then Shown(s, d) else []
  }

  lemma NextBagChosen(s: State, c: nat, d: nat)
    requires Valid(s) && BagsTrue(s) && c < CATS && d < CATS && Items(BagsRecords(s, c))
    requires Chosen(BagsRecords(s, c), d) == ShownBelow(s, c, d)
    ensures Items(BagsRecords(s, c + 1)) && Chosen(BagsRecords(s, c + 1), d) == ShownBelow(s, c + 1, d)
  {
    BagRecordsChosen(s, c, |s.bags[c]|, d);
    BagsRecordsSnoc(s, c);
    ChosenOfOne(BagsRecords(s, c + 1), BagsRecords(s, c), Shown(s, c), d, ShownBelow(s, c + 1, d));
  }

  lemma ChosenOfOne(whole: seq<Record>, a: seq<Record>, b: seq<Record>, d: nat, chosen: seq<Record>)
    requires Items(a) && Items(b) && whole == a + b
    requires || (Chosen(a, d) == [] && Chosen(b, d) == chosen)
             || (Chosen(a, d) == chosen && Chosen(b, d) == [])
    ensures Items(whole) && Chosen(whole, d) == chosen
  {
    ChosenJoin(a, b, d);
    assert [] + chosen == chosen && chosen + [] == chosen;
  }

  /** The bags are true, and the table has no more ids than they show items. */
  predicate Countable(s: State) { Valid(s) && BagsTrue(s) && ItemsCount(s) <= |BagsRecords(s, CATS)| }

  /** Reading what was written of s into t. */
  function Reloaded(t: State, s: State, heap: Heap): State
    requires Countable(s)
  {
    Loaded(t, SlotRecords(s, SLOTS), BagsRecords(s, CATS)[..ItemsCount(s)], heap)
  }

  /** So it is what the two methods do one after the other, whatever follows in the stream. */
  lemma SerializedReadable(s: State, rest: seq<Record>)
    requires Countable(s)
    ensures var stream, k, n := Serialized(s) + rest, |SlotRecords(s, SLOTS)|, ItemsCount(s);
            && Readable(stream, k, n)
            && stream[1..k + 1] == SlotRecords(s, SLOTS)
            && stream[k + 2..k + 2 + n] == BagsRecords(s, CATS)[..n]
  {
    ItemsRead(s);
    SlotRecordsInRange(s, SLOTS);
    StreamParts(SlotRecords(s, SLOTS), ItemsCount(s), BagsRecords(s, CATS), rest);
  }

  lemma StreamParts(a: seq<Record>, n: nat, b: seq<Record>, rest: seq<Record>)
    requires n <= |b|
    ensures var stream := [Count(|a|)] + a + [Count(n)] + b + rest;
            && stream[0] == Count(|a|) && stream[1..|a| + 1] == a
            && stream[|a| + 1] == Count(n) && stream[|a| + 2..|a| + 2 + n] == b[..n]
  {
    var head := [Count(|a|)] + a + [Count(n)];
    assert head + b + rest == head + (b + rest);
    assert (b + rest)[..n] == b[..n];
    assert head[1..|a| + 1] == a;
  }

  lemma {:induction false} SlotRecordsInRange(s: State, n: nat)
    ensures forall r :: r in SlotRecords(s, n) ==> r.slot < n
  {
    if n > 0 {
      SlotRecordsInRange(s, n - 1);
    }
  }

  /** The records are of items below category c, and come in the order of their categories. */
  predicate Sorted(rs: seq<Record>, c: nat)
    requires forall r :: r in rs ==> r.Written?
  {
    && (forall i :: 0 <= i < |rs| ==> rs[i].category < c)
    && (forall i, j :: 0 <= i < j < |rs| ==> rs[i].category <= rs[j].category)
  }

  lemma SortedJoin(a: seq<Record>, b: seq<Record>, c: nat)
    requires forall r :: r in a ==> r.Written?
    requires forall r :: r in b ==> r.Written?
    requires Sorted(a, c) && forall i :: 0 <= i < |b| ==> b[i].category == c
    ensures forall r :: r in a + b ==> r.Written?
    ensures Sorted(a + b, c + 1)
  {
    var rs := a + b;
    forall i | 0 <= i < |rs|
      ensures if i < |a| then rs[i] == a[i] else rs[i].category == c
    {
    }
  }

  /** The records of true bags come in the order of the categories. */
  lemma {:induction false} BagsRecordsSorted(s: State, c: nat)
    requires Valid(s) && BagsTrue(s) && c <= CATS
    ensures Sorted(BagsRecords(s, c), c)
  {
    if c > 0 {
      BagsRecordsSorted(s, c - 1);
      var b := Shown(s, c - 1);
      forall k | 0 <= k < |b|
        ensures b[k].category == c - 1
      {
        BagRecordsAt(s, c - 1, |s.bags[c - 1]|, k);
        assert s.bags[c - 1][k] in s.bags[c - 1];
      }
      SortedJoin(BagsRecords(s, c - 1), b, c - 1);
      assert BagsRecords(s, c) == BagsRecords(s, c - 1) + b;
    }
  }

  /** What reading does to memory: the old equipment is destroyed and nothing else, and old handles stay allocated. */
  lemma LoadedMemory(t: State, slots: seq<Record>, items: seq<Record>, heap: Heap, x: Item, h: Handle)
    requires Fresh(t, heap) && Items(items) && forall r :: r in slots ==> r.Written?
    ensures var r := Loaded(t, slots, items, heap);
            && (x in r.gone <==> x in t.gone || InSlots(t, x))
            && (h in t.cells ==> h in r.cells && r.cells[h] == t.cells[h])
  {
    if h in t.cells {
      CellsKept(t, items, heap, |slots|, |items|, h);
    }
  }

  lemma {:induction false} CellsKept(t: State, rs: seq<Record>, heap: Heap, k: nat, n: nat, h: Handle)
    requires Fresh(t, heap) && Items(rs) && n <= |rs| && h in t.cells
    ensures h in CellsRead(t.cells, rs, heap, k, n) && CellsRead(t.cells, rs, heap, k, n)[h] == t.cells[h]
  {
    if n > 0 {
      CellsKept(t, rs, heap, k, n - 1, h);
    }
  }

  /** A slot holds what the last record for it says, at that record's address, and a slot without one is empty. */
  lemma {:induction false} LastRecordWins(rs: seq<Record>, heap: Heap, n: nat, e: nat)
    requires n <= |rs| && forall r :: r in rs ==> r.Written?
    ensures e in SlotsRead(rs, heap, n) <==> exists i :: 0 <= i < n && rs[i].slot == e
    ensures forall i :: 0 <= i < n && rs[i].slot == e && (forall j :: i < j < n ==> rs[j].slot != e) ==>
              SlotsRead(rs, heap, n)[e] == Item(heap.item(i), rs[i].uid, rs[i].category)
  {
    if n > 0 {
      LastRecordWins(rs, heap, n - 1, e);
    }
  }

  /** Both states show the same in every bag. */
  ghost predicate SameBags(s: State, r: State)
    requires Valid(s) && Valid(r)
  {
    forall c :: 0 <= c < CATS ==> Shown(r, c) == Shown(s, c)
  }

  lemma {:induction false} SameBagsSameRecords(s: State, r: State, c: nat)
    requires Valid(s) && Valid(r) && SameBags(s, r) && c <= CATS
    ensures BagsRecords(r, c) == BagsRecords(s, c)
  {
    if c > 0 {
      SameBagsSameRecords(s, r, c - 1);
      assert Shown(r, c - 1) == Shown(s, c - 1);
    }
  }

  /** However the items are spread over the bags, their number stays. */
  lemma {:induction false} RecordsCounted(rs: seq<Record>, r: State, c: nat)
    requires Valid(r) && Items(rs) && c <= CATS
    requires forall d :: 0 <= d < CATS ==> Shown(r, d) == Chosen(rs, d)
    ensures |BagsRecords(r, c)| == |Below(rs, c)|
  {
    if c == 0 {
      NoneBelow(rs);
    } else {
      RecordsCounted(rs, r, c - 1);
      BelowStep(rs, c - 1);
    }
  }

  function Below(rs: seq<Record>, c: nat): (below: seq<Record>)
    requires forall r :: r in rs ==> r.Written?
    decreases |rs|
  {
    if rs == [] then []
    else
      var last := rs[|rs| - 1];
      Below(rs[..|rs| - 1], c) + if last.category < c then [last] else []
  }

  lemma {:induction false} NoneBelow(rs: seq<Record>)
    requires Items(rs)
    ensures Below(rs, 0) == [] && Below(rs, CATS) == rs
    decreases |rs|
  {
    if rs != [] {
      NoneBelow(rs[..|rs| - 1]);
      assert rs[|rs| - 1] in rs;
    }
  }

  lemma {:induction false} BelowStep(rs: seq<Record>, c: nat)
    requires Items(rs)
    ensures |Below(rs, c + 1)| == |Below(rs, c)| + |Chosen(rs, c)|
    decreases |rs|
  {
    if rs != [] {
      BelowStep(rs[..|rs| - 1], c);
    }
  }

  lemma LoadedBagsTrue(t: State, slots: seq<Record>, items: seq<Record>, heap: Heap)
    requires Fresh(t, heap) && Items(items) && forall r :: r in slots ==> r.Written?
    ensures Valid(Loaded(t, slots, items, heap)) && BagsTrue(Loaded(t, slots, items, heap))
  {
    LoadedValid(t, slots, items, heap);
    var r := Loaded(t, slots, items, heap);
    forall c, h | 0 <= c < CATS && h in r.bags[c]
      ensures r.cells[h].category == c
    {
      var i := BagReadFrom(items, heap, c, |items|, h);
      CellsReadAt(t.cells, items, heap, |slots|, |items|, i);
    }
  }

  /** What is read of the bags are whole records of items. */
  lemma ItemsRead(s: State)
    requires Countable(s)
    ensures Items(BagsRecords(s, CATS)) && Items(BagsRecords(s, CATS)[..ItemsCount(s)])
  {
    BagsRecordsChosen(s, CATS, 0);
    ItemsPrefix(BagsRecords(s, CATS), ItemsCount(s));
  }

  lemma ItemsPrefix(rs: seq<Record>, n: nat)
    requires Items(rs) && n <= |rs|
    ensures Items(rs[..n])
  {
    assert forall r :: r in rs[..n] ==> r in rs;
  }

  lemma ReloadedBagsTrue(t: State, s: State, heap: Heap)
    requires Countable(s) && Fresh(t, heap)
    ensures Valid(Reloaded(t, s, heap)) && BagsTrue(Reloaded(t, s, heap))
  {
    ItemsRead(s);
    LoadedBagsTrue(t, SlotRecords(s, SLOTS), BagsRecords(s, CATS)[..ItemsCount(s)], heap);
  }

  lemma ReloadedShows(t: State, s: State, heap: Heap, c: nat)
    requires Countable(s) && Fresh(t, heap) && c < CATS
    ensures Valid(Reloaded(t, s, heap)) && Items(BagsRecords(s, CATS)[..ItemsCount(s)])
    ensures Shown(Reloaded(t, s, heap), c) == Chosen(BagsRecords(s, CATS)[..ItemsCount(s)], c)
  {
    ItemsRead(s);
    LoadedShows(t, SlotRecords(s, SLOTS), BagsRecords(s, CATS)[..ItemsCount(s)], heap, c);
  }

  /** If all bags were counted, they come back. */
  lemma AllCounted(s: State, r: State, rs: seq<Record>)
    requires Valid(s) && BagsTrue(s) && Valid(r) && Items(rs) && rs == BagsRecords(s, CATS)
    requires forall c :: 0 <= c < CATS ==> Shown(r, c) == Chosen(rs, c)
    ensures SameBags(s, r)
  {
    forall c: nat | c < CATS
      ensures Shown(r, c) == Shown(s, c)
    {
      BagsRecordsChosen(s, CATS, c);
    }
  }

  /** If fewer were, they do not. */
  lemma NotAllCounted(s: State, r: State, rs: seq<Record>)
    requires Valid(s) && Valid(r) && Items(rs) && |rs| < |BagsRecords(s, CATS)|
    requires forall c :: 0 <= c < CATS ==> Shown(r, c) == Chosen(rs, c)
    ensures !SameBags(s, r)
  {
    RecordsCounted(rs, r, CATS);
    NoneBelow(rs);
    if SameBags(s, r) {
      SameBagsSameRecords(s, r, CATS);
    }
  }

  /**
    The bags come back, item for item and in order, if and only if the table, whose size is
    what gets written, has as many ids as the bags show items.
   */
  lemma BagsComeBackIff(t: State, s: State, heap: Heap)
    requires Countable(s) && Fresh(t, heap)
    ensures Valid(Reloaded(t, s, heap))
    ensures SameBags(s, Reloaded(t, s, heap)) <==> ItemsCount(s) == |BagsRecords(s, CATS)|
  {
    var r, rs := Reloaded(t, s, heap), BagsRecords(s, CATS)[..ItemsCount(s)];
    ReloadedShows(t, s, heap, 0);
    forall c: nat | c < CATS
      ensures Shown(r, c) == Chosen(rs, c)
    {
      ReloadedShows(t, s, heap, c);
    }
    if ItemsCount(s) == |BagsRecords(s, CATS)| {
      assert rs == BagsRecords(s, CATS);
      AllCounted(s, r, rs);
    } else {
      NotAllCounted(s, r, rs);
    }
  }

  function Elements(q: seq<nat>): set<nat> { set u | u in q }

  lemma {:induction false} SeqSetSize(q: seq<nat>)
    requires NoDuplicates(q)
    ensures |Elements(q)| == |q|
  {
    if q == [] {
      assert Elements(q) == {};
    } else {
      var rest := q[1..];
      assert forall i :: 0 <= i < |rest| ==> rest[i] == q[i + 1];
      assert q[0] !in rest;
      SeqSetSize(rest);
      assert Elements(q) == Elements(rest) + {q[0]};
    }
  }

  function KeysBelow(s: State, c: nat): set<nat>
    requires Valid(s)
  {
    set u | u in s.items && s.cells[s.items[u]].category < c
  }

  function KeysIn(s: State, c: nat): set<nat>
    requires Valid(s)
  {
    set u | u in s.items && s.cells[s.items[u]].category == c
  }

  lemma KeysOfBag(s: State, c: nat)
    requires Sound(s) && c < CATS
    ensures |KeysIn(s, c)| == |s.bags[c]|
  {
    assert BagSound(s, c);
    var q := KeysFor(s.items, s.bags[c]);
    forall u | u in s.items && s.cells[s.items[u]].category == c
      ensures u in q
    {
      assert Stored(s, s.items[u]);
      var i :| 0 <= i < |s.bags[c]| && s.bags[c][i] == s.items[u];
      assert q[i] in q && s.items[q[i]] == s.items[u];
    }
    forall u | u in q
      ensures u in s.items && s.cells[s.items[u]].category == c
    {
      var i :| 0 <= i < |q| && q[i] == u;
      assert s.items[u] == s.bags[c][i];
    }
    SeqSetSize(q);
    assert KeysIn(s, c) == Elements(q);
  }

  lemma {:induction false} KeysCounted(s: State, c: nat)
    requires Sound(s) && c <= CATS
    ensures |KeysBelow(s, c)| == |BagsRecords(s, c)|
  {
    if c == 0 {
      assert KeysBelow(s, 0) == {};
    } else {
      KeysCounted(s, c - 1);
      KeysOfBag(s, c - 1);
      KeysSplit(s, c - 1);
    }
  }

  lemma KeysSplit(s: State, c: nat)
    requires Valid(s)
    ensures |KeysBelow(s, c + 1)| == |KeysBelow(s, c)| + |KeysIn(s, c)|
  {
    assert KeysBelow(s, c + 1) == KeysBelow(s, c) + KeysIn(s, c);
    assert KeysBelow(s, c) !! KeysIn(s, c);
  }

  lemma SoundIsTrue(s: State)
    requires Sound(s)
    ensures BagsTrue(s) && |s.items| == |BagsRecords(s, CATS)|
  {
    forall c, h | 0 <= c < CATS && h in s.bags[c]
      ensures s.cells[h].category == c
    {
      assert BagSound(s, c);
    }
    KeysCounted(s, CATS);
    assert KeysBelow(s, CATS) == s.items.Keys;
    assert |s.items.Keys| == |s.items|;
  }

  /** In particular the bags of any sound inventory come back. */
  lemma SoundBagsComeBack(t: State, s: State, heap: Heap)
    requires Sound(s) && |s.items| < B4 && Fresh(t, heap)
    ensures Countable(s)
    ensures Valid(Reloaded(t, s, heap)) && SameBags(s, Reloaded(t, s, heap))
  {
    SoundIsTrue(s);
    assert ItemsCount(s) == |s.items|;
    BagsComeBackIff(t, s, heap);
  }

  lemma {:induction false} SlotsReadLocal(a: seq<Record>, b: seq<Record>, heap: Heap, n: nat)
    requires n <= |a| && n <= |b| && a[..n] == b[..n]
    requires (forall r :: r in a ==> r.Written?) && (forall r :: r in b ==> r.Written?)
    ensures SlotsRead(a, heap, n) == SlotsRead(b, heap, n)
  {
    if n > 0 {
      assert a[n - 1] == a[..n][n - 1] && b[n - 1] == b[..n][n - 1];
      assert a[..n - 1] == a[..n][..n - 1] && b[..n - 1] == b[..n][..n - 1];
      SlotsReadLocal(a, b, heap, n - 1);
    }
  }

  lemma SlotsReadLast(a: seq<Record>, r: Record, heap: Heap)
    requires (forall r :: r in a ==> r.Written?) && r.Written?
    ensures SlotsRead(a + [r], heap, |a| + 1) == SlotsRead(a, heap, |a|)[r.slot := ItemOf(r, heap.item(|a|))]
  {
    SlotsReadLocal(a, a + [r], heap, |a|);
  }

  /** The slots below n, written and read. */
  lemma {:induction false} SlotsReadBack(s: State, heap: Heap, n: nat, e: nat)
    ensures var rs := SlotRecords(s, n);
            var read := SlotsRead(rs, heap, |rs|);
            && (e in read <==> e < n && e in s.equipped)
            && (e in read ==> read[e].uid == s.equipped[e].uid && read[e].category == s.equipped[e].category)
  {
    if n > 0 {
      SlotsReadBack(s, heap, n - 1, e);
      var rs, rs' := SlotRecords(s, n), SlotRecords(s, n - 1);
      if n - 1 in s.equipped {
        var w := Written(s.equipped[n - 1].uid, s.equipped[n - 1].category, n - 1);
        SlotsReadLast(rs', w, heap);
        assert rs == rs' + [w];
      } else {
        assert rs == rs';
      }
    }
  }

  lemma {:induction false} SameSlotRecords(s: State, r: State, n: nat)
    requires forall e :: 0 <= e < n ==> (e in r.equipped <==> e in s.equipped)
    requires forall e :: 0 <= e < n && e in r.equipped ==>
               r.equipped[e].uid == s.equipped[e].uid && r.equipped[e].category == s.equipped[e].category
    ensures SlotRecords(r, n) == SlotRecords(s, n)
  {
    if n > 0 {
      SameSlotRecords(s, r, n - 1);
    }
  }

  /** The slots always come back. */
  lemma SlotsComeBack(t: State, s: State, heap: Heap)
    requires Countable(s)
    ensures SlotRecords(Reloaded(t, s, heap), SLOTS) == SlotRecords(s, SLOTS)
  {
    var r := Reloaded(t, s, heap);
    forall e: nat | e < SLOTS
      ensures e in r.equipped <==> e in s.equipped
      ensures e in r.equipped ==>
                r.equipped[e].uid == s.equipped[e].uid && r.equipped[e].category == s.equipped[e].category
    {
      SlotsReadBack(s, heap, SLOTS, e);
    }
    SameSlotRecords(s, r, SLOTS);
  }

  /** Ids do not come back: no lookup finds anything, nothing can be removed, and only an empty table survives. */
  lemma LookupSurvivesIff(t: State, s: State, heap: Heap)
    requires Countable(s) && Fresh(t, heap)
    ensures Valid(Reloaded(t, s, heap))
    ensures forall x: Item :: x.category < CATS ==> Remove(Reloaded(t, s, heap), x) == Reloaded(t, s, heap)
    ensures (forall u :: Lookup(Reloaded(t, s, heap), u).Some? <==> Lookup(s, u).Some?) <==> s.items == map[]
  {
    BagsComeBackIff(t, s, heap);
    if s.items != map[] {
      var u :| u in s.items;
      assert Lookup(s, u).Some? && !Lookup(Reloaded(t, s, heap), u).Some?;
    }
  }

  lemma NoIdsNoItems(t: State, s: State, heap: Heap, c: nat)
    requires Valid(s) && BagsTrue(s) && s.items == map[] && c < CATS
    ensures Countable(s) && Reloaded(t, s, heap).bags[c] == []
  {
  }

  /** And as the table is empty after one trip, a second trip loses every item in the bags. */
  lemma SecondTripEmptiesBags(t: State, t': State, s: State, heap: Heap, heap': Heap, c: nat)
    requires Countable(s) && Fresh(t, heap) && c < CATS
    ensures Countable(Reloaded(t, s, heap))
    ensures Reloaded(t', Reloaded(t, s, heap), heap').bags[c] == []
    ensures SlotRecords(Reloaded(t', Reloaded(t, s, heap), heap'), SLOTS) == SlotRecords(s, SLOTS)
  {
    var r := Reloaded(t, s, heap);
    ReloadedBagsTrue(t, s, heap);
    NoIdsNoItems(t', r, heap', c);
    SlotsComeBack(t, s, heap);
    SlotsComeBack(t', r, heap');
  }
}
