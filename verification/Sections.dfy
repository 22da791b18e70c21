/** The allocator of job slots: free slots are kept as half-open intervals in a
    fixed table of sections, in no particular order. */
module Sections {
  import opened Options

  datatype Section = Section(a: nat, b: nat, active: bool)

  predicate InSection(s: Section, x: nat) {
    s.active && s.a <= x < s.b
  }

  /** The slot numbers. */
  function Below(n: nat): (r: set<nat>)
    ensures forall x: nat :: x in r <==> x < n
  {
    if n == 0 then {} else Below(n - 1) + {n - 1}
  }

  ghost predicate IsFree(table: seq<Section>, x: nat) {
    exists i :: 0 <= i < |table| && InSection(table[i], x)
  }

  /** The free slots below n, by the table. */
  ghost function FreeSlots(table: seq<Section>, n: nat): set<nat> {
    set x | x in Below(n) && IsFree(table, x)
  }

  /** Active sections are non-empty, within the array and pairwise disjoint. */
  ghost predicate WellFormed(table: seq<Section>, n: nat) {
    && (forall i | 0 <= i < |table| && table[i].active :: table[i].a < table[i].b <= n)
    && (forall i, j | 0 <= i < j < |table| && table[i].active && table[j].active ::
          table[i].b <= table[j].a || table[j].b <= table[i].a)
  }

  ghost predicate NoneActive(table: seq<Section>) {
    forall i | 0 <= i < |table| :: !table[i].active
  }

  ghost predicate AllActive(table: seq<Section>) {
    forall i | 0 <= i < |table| :: table[i].active
  }

  /** Does releasing x extend section s? */
  predicate Touches(s: Section, x: nat) {
    s.active && (x + 1 == s.a || s.b == x)
  }

  function Extended(s: Section, x: nat): Section {
    if x + 1 == s.a then s.(a := x) else s.(b := x + 1)
  }

  function Shrunk(s: Section): Section
    requires s.a < s.b
  {
    Section(s.a + 1, s.b, s.a + 1 < s.b)
  }

  // ---------------------------------------------------------------- lemmas

  lemma ShrinkFrees(table: seq<Section>, n: nat, i: nat)
    requires WellFormed(table, n) && i < |table| && table[i].active
    ensures WellFormed(table[i := Shrunk(table[i])], n)
    ensures table[i].a in FreeSlots(table, n)
    ensures FreeSlots(table[i := Shrunk(table[i])], n) == FreeSlots(table, n) - {table[i].a}
  {
    var t := table[i := Shrunk(table[i])];
    assert InSection(table[i], table[i].a);
    forall x: nat | x < n
      ensures x in FreeSlots(t, n) <==> x in FreeSlots(table, n) && x != table[i].a
    {
      if x in FreeSlots(t, n) {
        var k :| 0 <= k < |t| && InSection(t[k], x);
        assert InSection(table[k], x);
      }
      if x in FreeSlots(table, n) && x != table[i].a {
        var k :| 0 <= k < |table| && InSection(table[k], x);
        assert InSection(t[k], x);
      }
    }
  }

  /** A section grown by x, or a new one that holds just x. */
  predicate Grown(was: Section, s: Section, x: nat) {
    || (Touches(was, x) && s == Extended(was, x))
    || (!was.active && s == Section(x, x + 1, true))
  }

  lemma GrownHolds(was: Section, s: Section, x: nat, y: nat)
    requires Grown(was, s, x) && (was.active ==> was.a < was.b)
    ensures InSection(s, y) <==> InSection(was, y) || y == x
  {
  }

  lemma GrowIsFree(table: seq<Section>, i: nat, s: Section, x: nat, y: nat)
    requires i < |table| && Grown(table[i], s, x) && (table[i].active ==> table[i].a < table[i].b)
    ensures IsFree(table[i := s], y) <==> IsFree(table, y) || y == x
  {
    var t := table[i := s];
    GrownHolds(table[i], s, x, y);
    if k :| 0 <= k < |table| && InSection(table[k], y) {
      assert InSection(t[k], y);
    }
    if k :| 0 <= k < |t| && InSection(t[k], y) {
      assert k == i || InSection(table[k], y);
    }
    if y == x {
      assert InSection(t[i], x);
    }
  }

  lemma GrowWellFormed(table: seq<Section>, n: nat, i: nat, s: Section, x: nat)
    requires WellFormed(table, n) && i < |table| && x < n && Grown(table[i], s, x)
    requires forall k | 0 <= k < |table| :: !InSection(table[k], x)
    ensures WellFormed(table[i := s], n)
  {
  }

  /** Replacing section i by one that has x as well, x being free nowhere. */
  lemma GrowFrees(table: seq<Section>, n: nat, i: nat, s: Section, x: nat)
    requires WellFormed(table, n) && i < |table| && x < n && x !in FreeSlots(table, n) && Grown(table[i], s, x)
    ensures WellFormed(table[i := s], n)
    ensures FreeSlots(table[i := s], n) == FreeSlots(table, n) + {x}
  {
    assert !IsFree(table, x);
    GrowWellFormed(table, n, i, s, x);
    forall y: nat
      ensures IsFree(table[i := s], y) <==> IsFree(table, y) || y == x
    {
      GrowIsFree(table, i, s, x, y);
    }
  }

  lemma StartIsFree(table: seq<Section>, n: nat, i: nat)
    requires WellFormed(table, n) && i < |table| && table[i].active
    ensures table[i].a in FreeSlots(table, n)
  {
    assert InSection(table[i], table[i].a);
  }

  ghost predicate FirstActive(table: seq<Section>, i: nat) {
    i < |table| && table[i].active && forall k | 0 <= k < i :: !table[k].active
  }

  /** A slot in use touches a section exactly when the slot before it or the one after it
      is free. */
  lemma TouchesNeighbours(table: seq<Section>, n: nat, x: nat)
    requires WellFormed(table, n) && x < n && x !in FreeSlots(table, n)
    ensures (exists i :: 0 <= i < |table| && Touches(table[i], x))
       <==> x + 1 in FreeSlots(table, n) || (x > 0 && x - 1 in FreeSlots(table, n))
  {
    assert !IsFree(table, x);
    if i :| 0 <= i < |table| && Touches(table[i], x) {
      assert InSection(table[i], if x + 1 == table[i].a then x + 1 else x - 1);
    }
    if x + 1 in FreeSlots(table, n) {
      var i :| 0 <= i < |table| && InSection(table[i], x + 1);
      assert !InSection(table[i], x);
      assert Touches(table[i], x);
    }
    if x > 0 && x - 1 in FreeSlots(table, n) {
      var i :| 0 <= i < |table| && InSection(table[i], x - 1);
      assert !InSection(table[i], x);
      assert Touches(table[i], x);
    }
  }

  /** The claimed slot is the start of the first active entry.  It is the lowest free
      slot exactly when no later entry starts below it; releases fill entries in
      any order, so that is not always so. */
  lemma LowestExactlyWhen(table: seq<Section>, n: nat, i: nat)
    requires WellFormed(table, n) && FirstActive(table, i)
    ensures (forall x | x in FreeSlots(table, n) :: table[i].a <= x)
       <==> (forall j | 0 <= j < |table| && table[j].active :: table[i].a <= table[j].a)
  {
    forall j | 0 <= j < |table| && table[j].active
      ensures table[j].a in FreeSlots(table, n)
    {
      StartIsFree(table, n, j);
    }
  }

  lemma NoneFree(table: seq<Section>, n: nat)
    requires WellFormed(table, n)
    ensures NoneActive(table) <==> FreeSlots(table, n) == {}
  {
    if i :| 0 <= i < |table| && table[i].active {
      StartIsFree(table, n, i);
    }
  }

  // ------------------------------------------------------------- the allocator

  class SlotAllocator {
    const table: array<Section>
    const slots: nat
    var warn: bool                 // SCHEDI_JOB_ARRAY_SECTION_WARN
    ghost var used: set<nat>       // claimed and not released
    ghost var leaked: set<nat>     // released with no room to note it

    ghost predicate Valid()
      reads this, table
    {
      && 0 < table.Length
      && WellFormed(table[..], slots)
      && (forall x: nat | x in used + leaked :: x < slots)
      && used !! leaked !! FreeSlots(table[..], slots)
      && used + leaked + FreeSlots(table[..], slots) == Below(slots)
      && (leaked != {} <==> warn)
    }

    /** sections_init: everything is one free section. */
    constructor (slots: nat, sections: nat)
      requires 0 < slots && 0 < sections
      ensures Valid() && fresh(table) && this.slots == slots
      ensures used == {} && leaked == {} && !warn
    {
      this.slots := slots;
      table := new Section[sections](_ => Section(0, 0, false));
      warn := false;
      used, leaked := {}, {};
      new;
      table[0] := Section(0, slots, true);
      forall x: nat | x < slots
        ensures x in FreeSlots(table[..], slots)
      {
        assert InSection(table[..][0], x);
      }
    }

    /** section_claim: a slot that was free, NULL only when none is.  When nothing
        was ever leaked, NULL means that every slot is in use. */
    method Claim() returns (slot: Option<nat>)
      requires Valid()
      modifies this`used, table
      ensures Valid()
      ensures slot.None? <==> old(FreeSlots(table[..], slots)) == {}
      ensures slot.None? ==> table[..] == old(table[..]) && used == old(used)
      ensures slot.None? && leaked == {} ==> used == Below(slots)
      ensures slot.Some? ==> slot.value in old(FreeSlots(table[..], slots)) && slot.value !in old(used + leaked)
      ensures slot.Some? ==> exists i: nat :: FirstActive(old(table[..]), i) && slot.value == old(table[..])[i].a
      ensures slot.Some? ==> used == old(used) + {slot.value}
      ensures slot.Some? ==> FreeSlots(table[..], slots) == old(FreeSlots(table[..], slots)) - {slot.value}
    {
      NoneFree(table[..], slots);
      var i := 0;
      while i < table.Length
        invariant 0 <= i <= table.Length
        invariant table[..] == old(table[..]) && used == old(used)
        invariant forall k | 0 <= k < i :: !table[..][k].active
      {
        if table[i].active {
          assert FirstActive(table[..], i);
          ShrinkFrees(table[..], slots, i);
          var s := table[i];
          table[i] := s.(a := s.a + 1, active := s.a + 1 < s.b);
          assert table[..] == old(table[..])[i := Shrunk(s)];
          used := used + {s.a};
          return Some(s.a);
        }
        i := i + 1;
      }
      return None;
    }

    /** The first loop of section_release: the slot joins a section it touches. */
    method Merge(x: nat) returns (merged: bool)
      requires Valid() && x in used
      modifies this`used, table
      ensures merged <==> exists i :: 0 <= i < table.Length && Touches(old(table[..])[i], x)
      ensures merged ==> Valid() && used == old(used) - {x}
      ensures merged ==> FreeSlots(table[..], slots) == old(FreeSlots(table[..], slots)) + {x}
      ensures !merged ==> used == old(used) && table[..] == old(table[..])
    {
      var i := 0;
      while i < table.Length
        invariant 0 <= i <= table.Length
        invariant table[..] == old(table[..]) && used == old(used)
        invariant forall k | 0 <= k < i :: !Touches(table[..][k], x)
      {
        var s := table[i];
        if s.active && (x + 1 == s.a || s.b == x) {
          assert Touches(table[..][i], x);
          GrowFrees(table[..], slots, i, Extended(s, x), x);
          table[i] := if x + 1 == s.a then s.(a := x) else s.(b := x + 1);
          assert table[..] == old(table[..])[i := Extended(s, x)];
          used := used - {x};
          return true;
        }
        i := i + 1;
      }
      return false;
    }

    /** The second loop of section_release: a section of its own, if an entry is left. */
    method NewSection(x: nat) returns (noted: bool)
      requires Valid() && x in used
      modifies this`used, table
      ensures noted <==> !AllActive(old(table[..]))
      ensures noted ==> Valid() && used == old(used) - {x}
      ensures noted ==> FreeSlots(table[..], slots) == old(FreeSlots(table[..], slots)) + {x}
      ensures !noted ==> used == old(used) && table[..] == old(table[..])
    {
      var i := 0;
      while i < table.Length
        invariant 0 <= i <= table.Length
        invariant table[..] == old(table[..]) && used == old(used)
        invariant forall k | 0 <= k < i :: table[..][k].active
      {
        if !table[i].active {
          assert !table[..][i].active;
          GrowFrees(table[..], slots, i, Section(x, x + 1, true), x);
          table[i] := Section(x, x + 1, true);
          assert table[..] == old(table[..])[i := Section(x, x + 1, true)];
          used := used - {x};
          return true;
        }
        i := i + 1;
      }
      return false;
    }

    /** section_release of a slot in use.  It becomes free again, unless neither of its
        neighbours is free and no section entry is left: then it leaks, and SECTION_WARN
        is raised. */
    method Release(x: nat)
      requires Valid() && x in used
      modifies this, table
      ensures Valid()
      ensures used == old(used) - {x}
      ensures var free := old(FreeSlots(table[..], slots));
              var full := (forall i | 0 <= i < table.Length :: old(table[..])[i].active) && x + 1 !in free && !(x > 0 && x - 1 in free);
              && (full ==> leaked == old(leaked) + {x} && warn && table[..] == old(table[..]))
              && (!full ==> leaked == old(leaked) && warn == old(warn)
                            && FreeSlots(table[..], slots) == old(FreeSlots(table[..], slots)) + {x})
    {
      TouchesNeighbours(table[..], slots, x);
      var merged := Merge(x);
      if !merged {
        var noted := NewSection(x);
        if !noted {
          warn := true;
          used := used - {x};
          leaked := leaked + {x};
        }
      }
    }
  }
}
