/** Loading the metadata area at startup: of several entries of one object the one with the highest
    version wins, all others are wiped, and the allocator ends up with exactly the winning slots. */
module Metadata {
  import opened Counters

  /** One metadata entry per data block. */
  datatype Slot = Empty | Corrupt | Entry(oid: nat, version: nat)

  /** Slot `i` is the entry that the loader keeps for object `o` among the first `n` slots: no slot
      has a higher version and no earlier slot the same one. */
  ghost predicate Winner(slots: seq<Slot>, n: nat, o: nat, i: int) {
    && 0 <= i < n <= |slots| && slots[i].Entry? && slots[i].oid == o
    && forall j :: 0 <= j < n && slots[j].Entry? && slots[j].oid == o ==>
         slots[j].version < slots[i].version || (slots[j].version == slots[i].version && i <= j)
  }

  /** The state of the loader after `n` slots. */
  ghost predicate Loaded(slots: seq<Slot>, n: nat, clean: map<nat, CleanRef>, alloc: set<int>) {
    && n <= |slots|
    && (forall o :: o in clean ==>
          Winner(slots, n, o, clean[o].location) && clean[o].version == slots[clean[o].location].version)
    && (forall j :: 0 <= j < n && slots[j].Entry? ==> slots[j].oid in clean)
    && (forall b :: b in alloc <==> Kept(clean, slots, n, b))
  }

  /** Block `b` is the location of a loaded entry. */
  ghost predicate Kept(clean: map<nat, CleanRef>, slots: seq<Slot>, n: nat, b: int) {
    0 <= b < n <= |slots| && slots[b].Entry? && slots[b].oid in clean && clean[slots[b].oid].location == b
  }

  /** What the loader leaves of the first `n` slots. */
  ghost predicate Wiped(slots: seq<Slot>, now: seq<Slot>, n: nat, alloc: set<int>) {
    |now| == |slots| && forall i :: 0 <= i < |slots| ==> now[i] == if i in alloc || i >= n then slots[i] else Empty
  }

  /** What the loader does with slot `n`: the new databases, and the slot to wipe. */
  datatype Outcome = Outcome(clean: map<nat, CleanRef>, alloc: set<int>, wipe: int)

  function Next(slot: Slot, n: nat, clean: map<nat, CleanRef>, alloc: set<int>): Outcome {
    match slot
    case Entry(o, v) =>
      if o !in clean then Outcome(clean[o := CleanRef(v, n)], alloc + {n}, -1)
      else if clean[o].version < v then
        Outcome(clean[o := CleanRef(v, n)], alloc - {clean[o].location} + {n}, clean[o].location)
      else Outcome(clean, alloc, n)
    case Corrupt => Outcome(clean, alloc, n)
    case Empty => Outcome(clean, alloc, -1)
  }

  lemma LoadWinners(slots: seq<Slot>, n: nat, clean: map<nat, CleanRef>, alloc: set<int>)
    requires Loaded(slots, n, clean, alloc) && n < |slots|
    ensures var clean' := Next(slots[n], n, clean, alloc).clean;
            forall o :: o in clean' ==>
              Winner(slots, n + 1, o, clean'[o].location) && clean'[o].version == slots[clean'[o].location].version
  {
    var clean' := Next(slots[n], n, clean, alloc).clean;
    forall o | o in clean'
      ensures Winner(slots, n + 1, o, clean'[o].location) && clean'[o].version == slots[clean'[o].location].version
    {
      if o in clean { assert Winner(slots, n, o, clean[o].location); }
    }
  }

  lemma LoadAlloc(slots: seq<Slot>, n: nat, clean: map<nat, CleanRef>, alloc: set<int>, b: int)
    requires Loaded(slots, n, clean, alloc) && n < |slots|
    ensures var r := Next(slots[n], n, clean, alloc); b in r.alloc <==> Kept(r.clean, slots, n + 1, b)
  {
    assert b in alloc <==> Kept(clean, slots, n, b);
    if slots[n].Entry? && slots[n].oid in clean { LocationOf(slots, n, clean, alloc, slots[n].oid); }
    hide Loaded;
  }

  lemma LoadNext(slots: seq<Slot>, n: nat, clean: map<nat, CleanRef>, alloc: set<int>)
    requires Loaded(slots, n, clean, alloc) && n < |slots|
    ensures var r := Next(slots[n], n, clean, alloc); Loaded(slots, n + 1, r.clean, r.alloc) && -1 <= r.wipe <= n
  {
    var r := Next(slots[n], n, clean, alloc);
    if slots[n].Entry? && slots[n].oid in clean { LocationOf(slots, n, clean, alloc, slots[n].oid); }
    assert forall j :: 0 <= j < n + 1 && slots[j].Entry? ==> slots[j].oid in r.clean;
    hide Winner, Kept;
    LoadWinners(slots, n, clean, alloc);
    forall b ensures b in r.alloc <==> Kept(r.clean, slots, n + 1, b) { LoadAlloc(slots, n, clean, alloc, b); }
  }

  lemma CountNext(slot: Slot, n: nat, clean: map<nat, CleanRef>, alloc: set<int>)
    ensures |Next(slot, n, clean, alloc).clean| == |clean| + if slot.Entry? && slot.oid !in clean then 1 else 0
  {
    if slot.Entry? && slot.oid in clean {
      assert clean[slot.oid := CleanRef(slot.version, n)].Keys == clean.Keys;
      SameSize(clean[slot.oid := CleanRef(slot.version, n)], clean);
    }
  }

  lemma SameSize(a: map<nat, CleanRef>, b: map<nat, CleanRef>)
    requires a.Keys == b.Keys
    ensures |a| == |b|
  {
    assert |a| == |a.Keys| && |b| == |b.Keys|;
  }

  lemma LocationOf(slots: seq<Slot>, n: nat, clean: map<nat, CleanRef>, alloc: set<int>, o: nat)
    requires Loaded(slots, n, clean, alloc) && o in clean
    ensures var i := clean[o].location; 0 <= i < n && slots[i].Entry? && slots[i].oid == o && i in alloc
  {
    assert Winner(slots, n, o, clean[o].location);
    assert Kept(clean, slots, n, clean[o].location);
  }

  lemma WipeNext(slots: seq<Slot>, now: seq<Slot>, n: nat, clean: map<nat, CleanRef>, alloc: set<int>)
    requires Loaded(slots, n, clean, alloc) && n < |slots| && Wiped(slots, now, n, alloc)
    ensures var r := Next(slots[n], n, clean, alloc);
            && -1 <= r.wipe <= n
            && Wiped(slots, if r.wipe >= 0 then now[r.wipe := Empty] else now, n + 1, r.alloc)
  {
    assert n !in alloc by { assert n in alloc <==> Kept(clean, slots, n, n); }
    if slots[n].Entry? && slots[n].oid in clean { LocationOf(slots, n, clean, alloc, slots[n].oid); }
  }

  /** `handle_meta_block` over the whole metadata area, with the area in memory. */
  method LoadMetadata(slots: array<Slot>) returns (clean: map<nat, CleanRef>, alloc: set<int>, usedBlocks: nat)
    modifies slots
    ensures Loaded(old(slots[..]), slots.Length, clean, alloc)
    ensures Wiped(old(slots[..]), slots[..], slots.Length, alloc)
    ensures usedBlocks == |clean|
  {
    clean, alloc, usedBlocks := map[], {}, 0;
    ghost var was := slots[..];
    LoadStart(was);
    hide Loaded, Wiped, Next;
    for i := 0 to slots.Length
      invariant Loaded(was, i, clean, alloc) && Wiped(was, slots[..], i, alloc) && usedBlocks == |clean|
    {
      ghost var now := slots[..];
      NotYet(was, now, i, clean, alloc);
      assert slots[i] == was[i];
      LoadNext(was, i, clean, alloc);
      WipeNext(was, now, i, clean, alloc);
      CountNext(was[i], i, clean, alloc);
      var r := Next(slots[i], i, clean, alloc);
      if slots[i].Entry? && slots[i].oid !in clean {
        usedBlocks := usedBlocks + 1;
      }
      clean, alloc := r.clean, r.alloc;
      if r.wipe >= 0 {
        slots[r.wipe] := Empty;
        assert slots[..] == now[r.wipe := Empty];
      }
    }
  }

  lemma LoadStart(slots: seq<Slot>)
    ensures Loaded(slots, 0, map[], {}) && Wiped(slots, slots, 0, {})
  {
  }

  lemma NotYet(slots: seq<Slot>, now: seq<Slot>, n: nat, clean: map<nat, CleanRef>, alloc: set<int>)
    requires Loaded(slots, n, clean, alloc) && n < |slots| && Wiped(slots, now, n, alloc)
    ensures now[n] == slots[n]
  {
  }
}
