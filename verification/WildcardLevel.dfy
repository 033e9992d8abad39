/**
 One level of wildcard tables in a packed hash (src/core/ngx_hash.c, lines 589-594 and 82):
 the lookup through the packed memory answers as the list of the level's labels does.
 A slot is a pointer to a value or to a table, a multiple of 4, with the two bits of lines 581
 and 584 added; the pointer to the n-th target is 4 * n.
 */
module WildcardLevel {
  import opened WildcardHash
  import HashPack

  type Slots = seq<(string, Slot)>

  /** What a slot's pointer points to. */
  datatype Target = ValueAt(value: Value) | TableAt(t: Table)

  function TargetOf(slot: Slot): Target {
    match slot
    case Data(v) => ValueAt(v)
    case StarData(v) => ValueAt(v)
    case Sub(t) => TableAt(t)
    case StarSub(t) => TableAt(t)
  }

  /** Lines 581 and 584: bit 1 for a table, bit 0 for a name that begins with "*.". */
  function TagOf(slot: Slot): nat {
    match slot
    case Data(_) => 0
    case StarData(_) => 1
    case Sub(_) => 2
    case StarSub(_) => 3
  }

  /** Lines 99-135: what the bits say about the target. */
  function Untag(tag: nat, target: Target): Slot
    requires tag / 2 == 1 <==> target.TableAt?
  {
    if tag / 2 == 1 then if tag % 2 == 1 then StarSub(target.t) else Sub(target.t)
    else if tag % 2 == 1 then StarData(target.value)
    else Data(target.value)
  }

  lemma UntagIs(slot: Slot)
    ensures TagOf(slot) < 4 && (TagOf(slot) / 2 == 1 <==> TargetOf(slot).TableAt?)
    ensures Untag(TagOf(slot), TargetOf(slot)) == slot
  {
  }

  /** The elements of curr_names: label, key_hash and value. */
  function NamesOf(slots: Slots, hash: string -> nat, base: nat): (names: seq<HashPack.Name>)
    ensures |names| == |slots|
    decreases |slots|
  {
    if slots == [] then []
    else
      [HashPack.Name(slots[0].0, hash(slots[0].0), 4 * (base + 1) + TagOf(slots[0].1))]
        + NamesOf(slots[1..], hash, base + 1)
  }

  ghost predicate LowerCase(slots: Slots) { forall i :: 0 <= i < |slots| ==> HashPack.Lower(slots[i].0) == slots[i].0 }

  /** v says where the label is first in the list, or that it is not there. */
  ghost predicate Tells(slots: Slots, base: nat, key: string, v: HashPack.Option) {
    match v
    case None => forall own, rq :: First(rq) == key ==> AskIn(own, slots, rq) == own
    case Some(w) =>
      var n := w / 4;
      && base < n <= base + |slots| && w % 4 == TagOf(slots[n - 1 - base].1)
      && forall own, rq :: First(rq) == key ==> AskIn(own, slots, rq) == AskSlot(slots[n - 1 - base].1, rq)
  }

  lemma {:induction false} FirstTells(slots: Slots, hash: string -> nat, base: nat, key: string)
    requires LowerCase(slots)
    ensures Tells(slots, base, key, HashPack.FirstIn(NamesOf(slots, hash, base), key))
    decreases |slots|
  {
    if slots != [] {
      var names := NamesOf(slots, hash, base);
      assert names[1..] == NamesOf(slots[1..], hash, base + 1);
      FirstTells(slots[1..], hash, base + 1, key);
    }
  }

  lemma {:induction false} NamesAre(slots: Slots, hash: string -> nat, base: nat)
    requires LowerCase(slots)
    ensures forall n :: n in NamesOf(slots, hash, base) ==>
            n.Name? && n.value > 0 && n.hash == hash(HashPack.Lower(n.key))
    decreases |slots|
  {
    if slots != [] { NamesAre(slots[1..], hash, base + 1); }
  }

  /** ngx_hash_find on the packed level, and the two bits of what it finds. */
  method FindPacked(h: HashPack.Hash, targets: seq<Target>, hash: string -> nat, key: string, ghost slots: Slots,
                    ghost widths: seq<nat>)
      returns (found: bool, slot: Slot)
    requires LowerCase(slots) && HashPack.Packed(h, NamesOf(slots, hash, 0), widths)
    requires |targets| == |slots| && forall i :: 0 <= i < |slots| ==> targets[i] == TargetOf(slots[i].1)
    ensures found ==> forall own, rq :: First(rq) == key ==> AskIn(own, slots, rq) == AskSlot(slot, rq)
    ensures !found ==> forall own, rq :: First(rq) == key ==> AskIn(own, slots, rq) == own
  {
    ghost var names := NamesOf(slots, hash, 0);
    NamesAre(slots, hash, 0);
    var r := HashPack.Find(h, hash(key), key, names, widths);
    HashPack.FindIffSupplied(names, h.size, hash, key);
    FirstTells(slots, hash, 0, key);
    if r.None? {
      return false, Data(0);
    }
    slot := Follow(r.value, targets, key, slots);
    return true, slot;
  }

  /** Lines 88-135 */
  method Follow(w: nat, targets: seq<Target>, key: string, ghost slots: Slots) returns (slot: Slot)
    requires Tells(slots, 0, key, HashPack.Some(w))
    requires |targets| == |slots| && forall i :: 0 <= i < |slots| ==> targets[i] == TargetOf(slots[i].1)
    ensures forall own, rq :: First(rq) == key ==> AskIn(own, slots, rq) == AskSlot(slot, rq)
  {
    var n := w / 4;
    UntagIs(slots[n - 1].1);
    slot := Untag(w % 4, targets[n - 1]);
  }
}
