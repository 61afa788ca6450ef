/**
  Reference counts of JSON values. The count is a size_t; the value (size_t)-1 marks
  an object that is never deleted, and counting up can reach it.
 */
module RefCount {
  import opened Wrappers

  const IMMORTAL: nat := 0xFFFF_FFFF_FFFF_FFFF

  type size_t = n: nat | n <= 0xFFFF_FFFF_FFFF_FFFF

  /** The count after json_incref. */
  function Inc(count: size_t): size_t
  {
    if count != IMMORTAL then count + 1 else count
  }

  /** The count after json_decref; the decrement wraps like a size_t. */
  function Dec(count: size_t): size_t
  {
    if count == IMMORTAL then count else if count == 0 then IMMORTAL else count - 1
  }

  /** json_decref calls json_delete. */
  predicate Deletes(count: size_t)
  {
    count != IMMORTAL && Dec(count) == 0
  }

  /** Off the mark both counts are one more and one less, in 64 bits; the mark they leave alone. */
  lemma CountsWrap(count: size_t)
    ensures count != IMMORTAL ==> Inc(count) == (count + 1) % 0x1_0000_0000_0000_0000
    ensures count != IMMORTAL ==> Dec(count) == (count - 1) % 0x1_0000_0000_0000_0000
    ensures Inc(IMMORTAL) == Dec(IMMORTAL) == IMMORTAL
    ensures Deletes(count) <==> count == 1
  {
  }

  class Json {
    var refcount: size_t
    var deletions: nat                           // calls of json_delete, whose body is not part of this model

    constructor (refcount: size_t)
      ensures this.refcount == refcount && deletions == 0
    {
      this.refcount, deletions := refcount, 0;
    }

    static method Incref(json: Json?) returns (r: Json?)
      modifies json
      ensures r == json
      ensures json != null ==> json.refcount == Inc(old(json.refcount)) && json.deletions == old(json.deletions)
    {
      if json != null && json.refcount != IMMORTAL {
        json.refcount := json.refcount + 1;
      }
      r := json;
    }

    static method Decref(json: Json?)
      modifies json
      ensures json != null ==>
                && json.refcount == Dec(old(json.refcount))
                && json.deletions == old(json.deletions) + (if Deletes(old(json.refcount)) then 1 else 0)
    {
      if json != null && json.refcount != IMMORTAL {
        json.refcount := if json.refcount == 0 then IMMORTAL else json.refcount - 1;
        if json.refcount == 0 {
          json.deletions := json.deletions + 1;
        }
      }
    }
  }

  /** A place in a container that holds one reference: the value under a key, or an array element. */
  class Slot {
    var value: Json?

    constructor ()
      ensures value == null
    {
      value := null;
    }

    /**
      The ownership contract of the _new setters, whose bodies are not part of this
      model: they take over one reference to value. If they store it, the reference
      the slot held is dropped; if they refuse, the one they took over is.
     */
    method SetNew(json: Json?, accepts: bool) returns (r: int)
      modifies this, value, json
      ensures r == (if json != null && accepts then 0 else -1)
      ensures value == (if r == 0 then json else old(value))
      ensures var (dropped, kept) := if r == 0 then (old(value), json) else (json, old(value));
              && (dropped != null ==>
                    && dropped.refcount == Dec(old(dropped.refcount))
                    && dropped.deletions == old(dropped.deletions) + (if Deletes(old(dropped.refcount)) then 1 else 0))
              && (kept != null && kept != dropped ==>
                    kept.refcount == old(kept.refcount) && kept.deletions == old(kept.deletions))
    {
      if json == null || !accepts {
        Json.Decref(json);
        return -1;
      }
      var displaced := value;
      value := json;
      Json.Decref(displaced);
      return 0;
    }

    /**
      json_object_set, json_object_set_nocheck, json_object_iter_set, json_array_set,
      json_array_append and json_array_insert: the value is borrowed, so the caller's own reference survives.
     */
    method Set(json: Json?, accepts: bool) returns (r: int)
      modifies this, value, json
      ensures r == (if json != null && accepts then 0 else -1)
      ensures value == (if r == 0 then json else old(value))
      ensures json != null ==>
                var c := old(json.refcount);
                json.refcount == (if r != 0 || json == old(value) then Dec(Inc(c)) else Inc(c))
      ensures json != null && 0 < old(json.refcount) ==> json.deletions == old(json.deletions)
      ensures var d := old(value);
              d != null && d != json ==>
                && d.refcount == (if r == 0 then Dec(old(d.refcount)) else old(d.refcount))
                && d.deletions == old(d.deletions) + (if r == 0 && Deletes(old(d.refcount)) then 1 else 0)
    {
      var taken := Json.Incref(json);
      r := SetNew(taken, accepts);
    }
  }

  // ---- one object over a whole run ----

  datatype Step = Acquire | Release

  /** An object's count, how many owners it really has, and how often it was deleted. */
  datatype Life = Life(count: size_t, owners: nat, deletions: nat)

  /** What an owner does: take a further reference, or drop its own. */
  function Turn(l: Life, step: Step): Life
    requires l.owners > 0
  {
    match step
    case Acquire => Life(Inc(l.count), l.owners + 1, l.deletions)
    case Release => Life(Dec(l.count), l.owners - 1, l.deletions + (if Deletes(l.count) then 1 else 0))
  }

  /** Every step is taken by somebody who owns a reference at the time. */
  predicate Owned(owners: nat, steps: seq<Step>)
    decreases steps
  {
    steps == [] ||
    (owners > 0 && Owned(if steps[0].Acquire? then owners + 1 else owners - 1, steps[1..]))
  }

  function Run(l: Life, steps: seq<Step>): Life
    requires Owned(l.owners, steps)
    decreases steps
  {
    if steps == [] then l else Run(Turn(l, steps[0]), steps[1..])
  }

  /** The largest number of owners the object has at any point of the run. */
  function Peak(owners: nat, steps: seq<Step>): (p: nat)
    requires Owned(owners, steps)
    ensures p >= owners
    decreases steps
  {
    if steps == [] then owners
    else
      var p := Peak(if steps[0].Acquire? then owners + 1 else owners - 1, steps[1..]);
      if p < owners then owners else p
  }

  /** Invariant of every run: the count is the number of owners, unless it is the mark. */
  predicate Sound(l: Life)
  {
    if l.count == IMMORTAL then l.deletions == 0
    else l.count == l.owners && l.deletions == (if l.owners == 0 then 1 else 0)
  }

  lemma {:induction false} RunKeepsSound(l: Life, steps: seq<Step>)
    requires Sound(l) && Owned(l.owners, steps)
    ensures Sound(Run(l, steps))
    decreases steps
  {
    if steps != [] {
      RunKeepsSound(Turn(l, steps[0]), steps[1..]);
    }
  }

  /** While an owner remains the object has not been deleted, whether or not the count ever reached the mark. */
  lemma NeverDeletedWhileOwned(l: Life, steps: seq<Step>)
    requires Sound(l) && Owned(l.owners, steps)
    ensures Run(l, steps).owners > 0 ==> Run(l, steps).deletions == 0
    ensures Run(l, steps).deletions <= 1
  {
    RunKeepsSound(l, steps);
  }

  /** The count reaches the mark, and then keeps it, exactly when as many owners existed at one time. */
  lemma {:induction false} SaturatesIff(l: Life, steps: seq<Step>)
    requires Sound(l) && l.count != IMMORTAL && Owned(l.owners, steps)
    ensures Run(l, steps).count == IMMORTAL <==> Peak(l.owners, steps) >= IMMORTAL
    decreases steps
  {
    if steps != [] {
      var t := Turn(l, steps[0]);
      if t.count == IMMORTAL {
        MarkStays(t, steps[1..]);
      } else {
        SaturatesIff(t, steps[1..]);
      }
    }
  }

  lemma {:induction false} MarkStays(l: Life, steps: seq<Step>)
    requires l.count == IMMORTAL && Owned(l.owners, steps)
    ensures Run(l, steps).count == IMMORTAL && Run(l, steps).deletions == l.deletions
    decreases steps
  {
    if steps != [] {
      MarkStays(Turn(l, steps[0]), steps[1..]);
    }
  }

  /**
    After any part of a run from a counted object, it has been deleted exactly when
    its last owner is gone and never so many owned it at once that the count saturated.
   */
  lemma DeletedIff(l: Life, steps: seq<Step>)
    requires Sound(l) && l.count != IMMORTAL && Owned(l.owners, steps)
    ensures Run(l, steps).deletions == 1
            <==> Run(l, steps).owners == 0 && Peak(l.owners, steps) < IMMORTAL
  {
    RunKeepsSound(l, steps);
    SaturatesIff(l, steps);
  }

  // ---- all objects at once: handles, containers and the borrowing setters ----

  type Id = nat

  /** Counts of all objects, those deleted, and every reference held by a handle or a container slot. */
  datatype Heap = Heap(count: map<Id, size_t>, dead: set<Id>, held: multiset<Id>)

  datatype Outcome = Stored(displaced: Option<Id>) | Rejected

  /**
    New: a constructor hands out the first reference. Ref and Unref: a holder takes
    another reference or drops one. Set: a borrowing setter is called with a value that
    somebody holds, or with no value; what it displaces was held by the slot.
   */
  datatype Op = New(o: Id) | Ref(o: Id) | Unref(o: Id) | Set(json: Option<Id>, outcome: Outcome)

  predicate Legal(h: Heap, op: Op)
  {
    match op
    case New(o) => o !in h.count
    case Ref(o) => h.held[o] > 0
    case Unref(o) => h.held[o] > 0
    case Set(o, outcome) =>
      && (o.Some? ==> h.held[o.value] > 0)
      && (o.None? ==> outcome.Rejected?)
      && (outcome.Stored? && outcome.displaced.Some? ==> h.held[outcome.displaced.value] > 0)
  }

  function Incref(h: Heap, o: Id): Heap
    requires o in h.count
  {
    h.(count := h.count[o := Inc(h.count[o])])
  }

  function Decref(h: Heap, o: Id): Heap
    requires o in h.count
  {
    h.(count := h.count[o := Dec(h.count[o])],
       dead := if Deletes(h.count[o]) then h.dead + {o} else h.dead)
  }

  /** An object held is known; at the mark it is alive; otherwise it counts its holders and is dead without any. */
  ghost predicate BalancedAt(h: Heap, o: Id)
  {
    && (h.held[o] > 0 || o in h.dead ==> o in h.count)
    && (o in h.count ==>
          if h.count[o] == IMMORTAL then o !in h.dead
          else h.count[o] == h.held[o] && (o in h.dead <==> h.held[o] == 0))
  }

  ghost predicate Balanced(h: Heap)
  {
    forall o :: BalancedAt(h, o)
  }

  /** A setter's own steps in order: json_incref, then what the _new callee does with the reference. */
  ghost function SetSteps(h: Heap, o: Id, outcome: Outcome): Heap
    requires Balanced(h) && Legal(h, Set(Some(o), outcome))
  {
    assert BalancedAt(h, o);
    assert outcome.Stored? && outcome.displaced.Some? ==> BalancedAt(h, outcome.displaced.value);
    var taken := Incref(h, o);
    match outcome
    case Rejected => Decref(taken, o)
    case Stored(None) => taken.(held := h.held + multiset{o})
    case Stored(Some(d)) =>
      Decref(taken, d).(held := h.held + multiset{o} - multiset{d})
  }

  ghost function Apply(h: Heap, op: Op): Heap
    requires Balanced(h) && Legal(h, op)
  {
    assert (op.Ref? || op.Unref?) ==> BalancedAt(h, op.o);
    match op
    case New(o) => h.(count := h.count[o := 1], held := h.held + multiset{o})
    case Ref(o) => Incref(h, o).(held := h.held + multiset{o})
    case Unref(o) => Decref(h, o).(held := h.held - multiset{o})
    case Set(None, _) => h
    case Set(Some(o), outcome) => SetSteps(h, o, outcome)
  }

  lemma ApplyKeepsBalanced(h: Heap, op: Op)
    requires Balanced(h) && Legal(h, op)
    ensures Balanced(Apply(h, op))
  {
    forall x: Id
      ensures BalancedAt(Apply(h, op), x)
    {
      assert BalancedAt(h, x);
      if op.Set? && op.json.Some? {
        SetKeepsBalancedAt(h, op.json.value, op.outcome, x);
      }
    }
  }

  /**
    Who holds what after each operation: one reference more to what is made, taken or stored,
    one less to what is dropped or displaced, and otherwise all as before.
   */
  lemma HeldAfter(h: Heap, op: Op, x: Id)
    requires Balanced(h) && Legal(h, op)
    ensures var r := Apply(h, op);
            match op
            case New(o) => r.held[x] == h.held[x] + (if x == o then 1 else 0)
            case Ref(o) => r.held[x] == h.held[x] + (if x == o then 1 else 0)
            case Unref(o) => r.held[x] == h.held[x] - (if x == o then 1 else 0)
            case Set(Some(o), Stored(Some(d))) =>
              r.held[x] == h.held[x] + (if x == o then 1 else 0) - (if x == d then 1 else 0)
            case Set(Some(o), Stored(None)) => r.held[x] == h.held[x] + (if x == o then 1 else 0)
            case Set(_, _) => r.held[x] == h.held[x]
  {
  }

  /** And what is counted and what has died: only a constructor counts a new object, and only the last holder kills. */
  lemma KnownAfter(h: Heap, op: Op, x: Id)
    requires Balanced(h) && Legal(h, op)
    ensures x in Apply(h, op).count <==> x in h.count || op == New(x)
    ensures x in h.count && h.count[x] != IMMORTAL && Apply(h, op).count[x] != IMMORTAL ==>
              (x in Apply(h, op).dead <==> Apply(h, op).held[x] == 0)
  {
    ApplyKeepsBalanced(h, op);
    assert BalancedAt(h, x) && BalancedAt(Apply(h, op), x);
    if op.Set? && op.json.Some? {
      assert BalancedAt(h, op.json.value);
      if op.outcome.Stored? && op.outcome.displaced.Some? {
        assert BalancedAt(h, op.outcome.displaced.value);
      }
    } else if op.Ref? || op.Unref? {
      assert BalancedAt(h, op.o);
    }
  }

  lemma SetKeepsBalancedAt(h: Heap, o: Id, outcome: Outcome, x: Id)
    requires Balanced(h) && Legal(h, Set(Some(o), outcome))
    ensures BalancedAt(SetSteps(h, o, outcome), x)
  {
    assert BalancedAt(h, x) && BalancedAt(h, o);
    if outcome.Stored? && outcome.displaced.Some? {
      assert BalancedAt(h, outcome.displaced.value);
    }
  }

  ghost predicate AllLegal(h: Heap, ops: seq<Op>)
    requires Balanced(h)
    decreases ops
  {
    ops == [] ||
    (Legal(h, ops[0]) && (ApplyKeepsBalanced(h, ops[0]); AllLegal(Apply(h, ops[0]), ops[1..])))
  }

  ghost function ApplyAll(h: Heap, ops: seq<Op>): (r: Heap)
    requires Balanced(h) && AllLegal(h, ops)
    ensures Balanced(r)
    decreases ops
  {
    if ops == [] then h
    else
      ApplyKeepsBalanced(h, ops[0]);
      ApplyAll(Apply(h, ops[0]), ops[1..])
  }

  /**
    Over any run of constructors, references, releases and borrowing setters, stored or
    rejected, an object somebody holds is never deleted, and an object whose count is
    not the mark counts its holders exactly.
   */
  lemma HoldersAreSafe(h: Heap, ops: seq<Op>, o: Id)
    requires Balanced(h) && AllLegal(h, ops)
    ensures var r := ApplyAll(h, ops);
            && (r.held[o] > 0 ==> o in r.count && o !in r.dead)
            && (o in r.count && r.count[o] != IMMORTAL ==> r.count[o] == r.held[o])
  {
    assert BalancedAt(ApplyAll(h, ops), o);
  }

  /** A borrowing setter leaves the caller's reference alone: the value gains one holder if stored and none if not. */
  lemma SetterBorrows(h: Heap, o: Id, outcome: Outcome)
    requires Balanced(h) && Legal(h, Set(Some(o), outcome))
    ensures var r := Apply(h, Set(Some(o), outcome));
            && o in h.count && o !in r.dead && r.held[o] > 0
            && (outcome.Rejected? ==>
                  && r.held == h.held && r.dead == h.dead
                  && r.count == h.count[o := if h.count[o] == IMMORTAL - 1 then IMMORTAL else h.count[o]])
            && (outcome == Stored(Some(o)) ==> r.held == h.held && r.dead == h.dead)
            && (outcome.Stored? && outcome.displaced != Some(o) ==> r.held[o] == h.held[o] + 1)
  {
    ApplyKeepsBalanced(h, Set(Some(o), outcome));
    assert BalancedAt(h, o) && BalancedAt(Apply(h, Set(Some(o), outcome)), o);
  }
}
