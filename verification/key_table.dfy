/** The open-addressed table that gives every distinct public key its group number. */
module KeyTables {
  import opened Wrappers
  import opened Arith
  import opened Counts
  import opened Ecdsa

  // idx is the group number, counted from 1; 0 marks an empty slot.
  datatype Slot = Slot(key: Key, idx: nat)

  predicate PowerOfTwo(k: nat) {
    k == 1 || (k > 1 && k % 2 == 0 && PowerOfTwo(k / 2))
  }

  /** Where probing for a key starts; masking with a power of two less one is the remainder. */
  function Home(key: Key, cap: nat): (h: nat)
    requires cap > 0
    ensures h < cap
  {
    FromLe(key[..8]) * 0x9E37_79B9_7F4A_7C15 % 0x1_0000_0000_0000_0000 % cap
  }

  // The slot visited at step t.
  function At(home: nat, t: nat, cap: nat): (j: nat)
    requires cap > 0
    ensures j < cap
  {
    (home + t) % cap
  }

  lemma NextSlot(home: nat, t: nat, cap: nat)
    requires cap > 0
    ensures (At(home, t, cap) + 1) % cap == At(home, t + 1, cap)
  {
    ModAdd(home + t, 1, cap);
  }

  lemma EverySlotVisited(home: nat, j: nat, cap: nat) returns (t: nat)
    requires j < cap
    ensures t < cap && At(home, t, cap) == j
  {
    t := (j - home) % cap;
    ModAdd(j - home, home, cap);
    ModSmall(j, cap);
  }

  ghost predicate Passed(slots: seq<Slot>, home: nat, t: nat)
    requires |slots| > 0
  {
    forall u {:trigger At(home, u, |slots|)} :: 0 <= u < t ==> slots[At(home, u, |slots|)].idx > 0
  }

  // Group k's key sits where steps[k] says, past occupied slots only.
  ghost predicate EntryAt(slots: seq<Slot>, keys: seq<Key>, steps: seq<nat>, k: nat)
    requires |slots| > 0 && k < |keys| == |steps|
  {
    var home := Home(keys[k], |slots|);
    slots[At(home, steps[k], |slots|)] == Slot(keys[k], k + 1) && Passed(slots, home, steps[k])
  }

  // An occupied slot is the place of its group.
  ghost predicate SlotAt(slots: seq<Slot>, keys: seq<Key>, steps: seq<nat>, j: nat)
    requires j < |slots| && |keys| == |steps|
  {
    var idx := slots[j].idx;
    idx > 0 ==> idx <= |keys| && At(Home(keys[idx - 1], |slots|), steps[idx - 1], |slots|) == j
  }

  ghost predicate Distinct(keys: seq<Key>) {
    forall i, j :: 0 <= i < j < |keys| ==> keys[i] != keys[j]
  }

  ghost predicate TableOk(slots: seq<Slot>, keys: seq<Key>, steps: seq<nat>) {
    && |slots| > 0 && |keys| == |steps| && Distinct(keys)
    && (forall k {:trigger EntryAt(slots, keys, steps, k)} :: 0 <= k < |keys| ==> EntryAt(slots, keys, steps, k))
    && (forall j {:trigger SlotAt(slots, keys, steps, j)} :: 0 <= j < |slots| ==> SlotAt(slots, keys, steps, j))
  }

  // The places of the groups.
  ghost function Places(slots: seq<Slot>, keys: seq<Key>, steps: seq<nat>): (s: set<nat>)
    requires |slots| > 0 && |keys| == |steps|
    ensures |s| <= |keys|
    decreases |keys|
  {
    if keys == [] then {}
    else
      var k := |keys| - 1;
      Places(slots, keys[..k], steps[..k]) + {At(Home(keys[k], |slots|), steps[k], |slots|)}
  }

  lemma {:induction false} PlacesHold(slots: seq<Slot>, keys: seq<Key>, steps: seq<nat>, k: nat)
    requires |slots| > 0 && k < |keys| == |steps|
    ensures At(Home(keys[k], |slots|), steps[k], |slots|) in Places(slots, keys, steps)
    decreases |keys|
  {
    var e := |keys| - 1;
    if k < e {
      assert keys[..e][k] == keys[k] && steps[..e][k] == steps[k];
      PlacesHold(slots, keys[..e], steps[..e], k);
    }
  }

  lemma {:induction false} BelowCard(n: nat, s: set<nat>)
    requires forall j: nat :: j < n ==> j in s
    ensures n <= |s|
    decreases n
  {
    if n > 0 {
      BelowCard(n - 1, s - {n - 1});
    }
  }

  /** With fewer groups than slots a probe meets an empty slot. */
  lemma NotFull(slots: seq<Slot>, keys: seq<Key>, steps: seq<nat>, home: nat)
    requires TableOk(slots, keys, steps) && |keys| < |slots|
    ensures !Passed(slots, home, |slots|)
  {
    if Passed(slots, home, |slots|) {
      forall j: nat | j < |slots| ensures j in Places(slots, keys, steps) {
        var t := EverySlotVisited(home, j, |slots|);
        assert SlotAt(slots, keys, steps, j);
        PlacesHold(slots, keys, steps, slots[j].idx - 1);
      }
      BelowCard(|slots|, Places(slots, keys, steps));
    }
  }

  // The t slots probed so far are occupied by other keys.
  ghost predicate Probed(slots: seq<Slot>, key: Key, t: nat)
    requires |slots| > 0
  {
    forall u {:trigger At(Home(key, |slots|), u, |slots|)} :: 0 <= u < t ==>
      slots[At(Home(key, |slots|), u, |slots|)].idx > 0 && slots[At(Home(key, |slots|), u, |slots|)].key != key
  }

  // A probe that ended at an empty slot did not stop short of group k's place.
  lemma OtherKey(slots: seq<Slot>, keys: seq<Key>, steps: seq<nat>, key: Key, t: nat, k: nat)
    requires |slots| > 0 && Probed(slots, key, t) && slots[At(Home(key, |slots|), t, |slots|)].idx == 0
    requires k < |keys| == |steps| && EntryAt(slots, keys, steps, k)
    ensures keys[k] != key
  {}

  /** An empty slot at the end of a probe means the key has no group. */
  lemma EmptyMeansAbsent(slots: seq<Slot>, keys: seq<Key>, steps: seq<nat>, key: Key, t: nat)
    requires TableOk(slots, keys, steps) && Probed(slots, key, t)
    requires slots[At(Home(key, |slots|), t, |slots|)].idx == 0
    ensures key !in keys
  {
    forall k | 0 <= k < |keys| ensures keys[k] != key {
      assert EntryAt(slots, keys, steps, k);
      OtherKey(slots, keys, steps, key, t, k);
    }
  }

  /** Taking the empty slot for a new key keeps every earlier group where it was. */
  lemma Inserted(slots: seq<Slot>, keys: seq<Key>, steps: seq<nat>, key: Key, t: nat)
    requires TableOk(slots, keys, steps) && Probed(slots, key, t) && key !in keys
    requires slots[At(Home(key, |slots|), t, |slots|)].idx == 0
    ensures TableOk(slots[At(Home(key, |slots|), t, |slots|) := Slot(key, |keys| + 1)], keys + [key], steps + [t])
  {
    var place := At(Home(key, |slots|), t, |slots|);
    var slots', keys', steps' := slots[place := Slot(key, |keys| + 1)], keys + [key], steps + [t];
    forall k | 0 <= k < |keys'| ensures EntryAt(slots', keys', steps', k) {
      if k < |keys| { assert EntryAt(slots, keys, steps, k); }
    }
    forall j | 0 <= j < |slots| ensures SlotAt(slots', keys', steps', j) {
      assert SlotAt(slots, keys, steps, j);
    }
  }

  lemma EmptyTable(slots: seq<Slot>)
    requires slots != [] && forall j :: 0 <= j < |slots| ==> slots[j].idx == 0
    ensures TableOk(slots, [], [])
  {
    forall j | 0 <= j < |slots| ensures SlotAt(slots, [], [], j) { assert slots[j].idx == 0; }
  }

  lemma {:induction false} TwicePower(k: nat)
    ensures PowerOfTwo(1) && (PowerOfTwo(k) ==> k > 0 && PowerOfTwo(k * 2))
  {}

  class KeyTable {
    const slots: array<Slot>
    var size: nat
    ghost var keys: seq<Key>
    ghost var steps: seq<nat>

    ghost predicate Valid()
      reads this, slots
    {
      TableOk(slots[..], keys, steps) && size == |keys|
    }

    /** An empty table, at most half full once n keys are in it. */
    constructor (n: nat)
      requires n > 0
      ensures Valid() && fresh(slots) && size == 0 && 2 * n <= slots.Length && PowerOfTwo(slots.Length)
    {
      hide PowerOfTwo, Home, TableOk;
      var cap := 1;
      TwicePower(cap);
      while cap < n * 2
        invariant PowerOfTwo(cap)
        decreases n * 2 - cap
      {
        TwicePower(cap);
        cap := cap * 2;
      }
      slots := new Slot[cap](_ => Slot(seq(33, _ => 0), 0));
      size, keys, steps := 0, [], [];
      new;
      EmptyTable(slots[..]);
    }

    /** Linear probing: the slot of the key, or the empty slot where it belongs. */
    method Find(key: Key) returns (j: nat, ghost t: nat)
      requires Valid() && size < slots.Length
      ensures j < slots.Length && j == At(Home(key, slots.Length), t, slots.Length) && Probed(slots[..], key, t)
      ensures slots[j].idx == 0 ==> key !in keys
      ensures slots[j].idx > 0 ==> slots[j].key == key
    {
      ghost var home := Home(key, slots.Length);
      j := Home(key, slots.Length);
      t := 0;
      ModSmall(j, slots.Length);
      while slots[j].idx != 0
        invariant j == At(home, t, slots.Length) && t <= slots.Length && Probed(slots[..], key, t)
        decreases slots.Length - t
      {
        if slots[j].key == key {
          return;
        }
        NextSlot(home, t, slots.Length);
        NotFull(slots[..], keys, steps, home);
        j := (j + 1) % slots.Length;
        t := t + 1;
      }
      EmptyMeansAbsent(slots[..], keys, steps, key, t);
    }

    /** The group of a key: the same key always gets the same group, a new key the next number. */
    method Route(key: Key) returns (group: nat, isNew: bool)
      requires Valid() && size < slots.Length
      modifies this, slots
      ensures Valid() && 1 <= group <= size == |keys|
      ensures keys == if isNew then old(keys) + [key] else old(keys)
      ensures isNew == (key !in old(keys)) && (isNew ==> group == size)
      ensures keys[group - 1] == key
    {
      var j;
      ghost var t;
      j, t := Find(key);
      isNew := slots[j].idx == 0;
      if isNew {
        Inserted(slots[..], keys, steps, key, t);
        size := size + 1;
        ghost var before := slots[..];
        slots[j] := Slot(key, size);
        assert slots[..] == before[j := Slot(key, size)];
        keys, steps := keys + [key], steps + [t];
      } else {
        assert SlotAt(slots[..], keys, steps, j);
        assert EntryAt(slots[..], keys, steps, slots[j].idx - 1);
      }
      group := slots[j].idx;
    }
  }
}
