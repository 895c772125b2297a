/** Selecting questionnaire fields with a bit mask: the toggles, the boxes and the counter. */
module RefreshMask {
  import opened Prelude

  // ------------------------------------------------------------------ bits of a natural number

  predicate Bit(m: nat, i: nat) {
    if i == 0 then m % 2 == 1 else Bit(m / 2, i - 1)
  }

  /** `1 << i` */
  function Shift(i: nat): (r: nat)
    ensures r > 0
  {
    if i == 0 then 1 else 2 * Shift(i - 1)
  }

  /** `a ^ b` */
  function Xor(a: nat, b: nat): nat
    decreases a + b
  {
    if a == 0 then b else if b == 0 then a
    else 2 * Xor(a / 2, b / 2) + (if a % 2 == b % 2 then 0 else 1)
  }

  /** `a & b` */
  function And(a: nat, b: nat): nat {
    if a == 0 || b == 0 then 0
    else 2 * And(a / 2, b / 2) + (if a % 2 == 1 && b % 2 == 1 then 1 else 0)
  }

  /** `m.bit_count()` */
  function BitCount(m: nat): nat {
    if m == 0 then 0 else m % 2 + BitCount(m / 2)
  }

  lemma {:induction false} ZeroHasNoBits(i: nat)
    ensures !Bit(0, i)
    decreases i
  {
    if i > 0 { ZeroHasNoBits(i - 1); }
  }

  lemma {:induction false} ShiftBit(i: nat, k: nat)
    ensures Bit(Shift(i), k) <==> i == k
    decreases k
  {
    if k == 0 {
    } else if i == 0 {
      assert Shift(0) / 2 == 0;
      ZeroHasNoBits(k - 1);
    } else {
      assert Shift(i) / 2 == Shift(i - 1);
      ShiftBit(i - 1, k - 1);
    }
  }

  lemma {:induction false} XorBit(a: nat, b: nat, k: nat)
    ensures Bit(Xor(a, b), k) <==> Bit(a, k) != Bit(b, k)
    decreases k
  {
    if a == 0 || b == 0 {
      ZeroHasNoBits(k);
    } else if k > 0 {
      assert Xor(a, b) / 2 == Xor(a / 2, b / 2);
      XorBit(a / 2, b / 2, k - 1);
    }
  }

  lemma {:induction false} AndShift(m: nat, i: nat)
    ensures And(m, Shift(i)) != 0 <==> Bit(m, i)
    decreases i
  {
    if m == 0 {
      ZeroHasNoBits(i);
    } else if i == 0 {
      assert Shift(0) / 2 == 0 && And(m / 2, 0) == 0;
    } else {
      assert Shift(i) / 2 == Shift(i - 1) && Shift(i) % 2 == 0;
      AndShift(m / 2, i - 1);
    }
  }

  /** The positions of the set bits. */
  function Bits(m: nat): set<nat> {
    set i: nat | i < m && Bit(m, i)
  }

  lemma {:induction false} BitBelow(m: nat, i: nat)
    requires Bit(m, i)
    ensures i < m
    decreases i
  {
    if i > 0 {
      BitBelow(m / 2, i - 1);
    }
  }

  lemma BitsHold(m: nat, i: nat)
    ensures i in Bits(m) <==> Bit(m, i)
  {
    if Bit(m, i) { BitBelow(m, i); }
  }

  lemma {:induction false} SameSize(a: set<nat>, b: set<nat>)
    requires b == set i | i in a :: i + 1
    ensures |a| == |b|
    decreases |a|
  {
    if a != {} {
      var x :| x in a;
      var rest := set i | i in a - {x} :: i + 1;
      forall y: nat ensures y in rest <==> y in b - {x + 1} {
        if y in b {
          var i :| i in a && i + 1 == y;
          assert y != x + 1 ==> i in a - {x};
        }
      }
      assert b - {x + 1} == rest;
      SameSize(a - {x}, b - {x + 1});
    }
  }

  /** The counter is the number of set bits. */
  lemma {:induction false} BitCountIsSize(m: nat)
    ensures BitCount(m) == |Bits(m)|
    decreases m
  {
    if m > 0 {
      var half := Bits(m / 2);
      var up := set i | i in half :: i + 1;
      BitCountIsSize(m / 2);
      SameSize(half, up);
      forall i: nat ensures i in Bits(m) <==> i in up || (i == 0 && m % 2 == 1) {
        BitsHold(m, i);
        if i > 0 {
          BitsHold(m / 2, i - 1);
          assert i in up <==> i - 1 in half;
        }
      }
      assert Bits(m) == up + (if m % 2 == 1 then {0} else {});
    } else {
      forall i: nat ensures i !in Bits(0) { ZeroHasNoBits(i); }
    }
  }

  // ------------------------------------------------------------------ the catalogue

  /** A referral that is already a concrete username cannot be chosen; everything else can. */
  function Selectable(concreteReferral: bool): (r: set<nat>)
    ensures forall i :: i in r ==> i < FIELDS
  {
    set i: nat | i < FIELDS && (FieldId(i) != "referral" || !concreteReferral)
  }

  /** All seven questions are offered, but for the third when the referral is already a username. */
  lemma SelectableQuestions(concreteReferral: bool)
    ensures Selectable(concreteReferral) == if concreteReferral then {0, 1, 3, 4, 5, 6} else {0, 1, 2, 3, 4, 5, 6}
  {
    forall i: nat | i < FIELDS && FieldId(i) == "referral" ensures i == 2 {
      FieldIdsDiffer(i, 2);
    }
  }

  // ------------------------------------------------------------------ keyboard and selection

  /** What a keyboard shows: a box for each selectable field, and the counter. */
  datatype Keyboard = Keyboard(checked: map<nat, bool>, counter: nat)

  function Render(selectable: set<nat>, mask: nat): Keyboard {
    Keyboard(map i | i in selectable :: And(mask, Shift(i)) != 0, BitCount(mask))
  }

  /** One press of the box at `i`; a box that is not offered is refused. */
  function Toggle(selectable: set<nat>, mask: nat, i: int): nat {
    if i < 0 || i !in selectable then mask else Xor(mask, Shift(i))
  }

  /** The fields handed to the workflow. */
  function Selected(selectable: set<nat>, mask: nat): set<string>
    requires forall i :: i in selectable ==> i < FIELDS
  {
    set i | i in selectable && And(mask, Shift(i)) != 0 :: FieldId(i)
  }

  function Presses(ps: seq<int>, i: int): nat {
    if ps == [] then 0 else (if ps[|ps| - 1] == i then 1 else 0) + Presses(ps[..|ps| - 1], i)
  }

  /** The mask after a sequence of presses, starting from nothing chosen. */
  function MaskAfter(selectable: set<nat>, ps: seq<int>): nat {
    if ps == [] then 0 else Toggle(selectable, MaskAfter(selectable, ps[..|ps| - 1]), ps[|ps| - 1])
  }

  /** A bit is set exactly when its box is offered and was pressed an odd number of times. */
  lemma {:induction false} BitIsParity(selectable: set<nat>, ps: seq<int>, i: nat)
    ensures Bit(MaskAfter(selectable, ps), i) <==> i in selectable && Presses(ps, i) % 2 == 1
    decreases |ps|
  {
    if ps == [] {
      ZeroHasNoBits(i);
    } else {
      var before, p := ps[..|ps| - 1], ps[|ps| - 1];
      BitIsParity(selectable, before, i);
      if p >= 0 {
        XorBit(MaskAfter(selectable, before), Shift(p), i);
        ShiftBit(p, i);
      }
    }
  }

  /** The chosen indices among those offered. */
  function Chosen(selectable: set<nat>, mask: nat): set<nat> {
    set i | i in selectable && And(mask, Shift(i)) != 0
  }

  lemma {:induction false} NamesCount(chosen: set<nat>, names: set<string>)
    requires forall i :: i in chosen ==> i < FIELDS
    requires names == set i | i in chosen :: FieldId(i)
    ensures |names| == |chosen|
    decreases |chosen|
  {
    if chosen != {} {
      var x :| x in chosen;
      var rest := set i | i in chosen - {x} :: FieldId(i);
      NamesCount(chosen - {x}, rest);
      forall i | i in chosen - {x} ensures FieldId(i) != FieldId(x) {
        if FieldId(i) == FieldId(x) { FieldIdsDiffer(i, x); }
      }
      assert names == rest + {FieldId(x)};
    }
  }

  lemma ChosenAreBits(selectable: set<nat>, mask: nat)
    ensures Chosen(selectable, mask) <= Bits(mask)
    ensures Chosen(selectable, mask) == Bits(mask) <==> Bits(mask) <= selectable
  {
    forall i: nat ensures i in Chosen(selectable, mask) <==> i in selectable && i in Bits(mask) {
      AndShift(mask, i);
      BitsHold(mask, i);
    }
  }

  lemma SizeOfSubset(a: set<nat>, b: set<nat>)
    requires a <= b
    ensures |a| <= |b| && (|a| == |b| <==> a == b)
  {
    assert b == a + (b - a);
  }

  /** For any mask, the counter shown is the size of the handed set exactly when no bit is foreign. */
  lemma CounterIff(concrete: bool, mask: nat)
    ensures var s := Selectable(concrete);
            |Selected(s, mask)| <= Render(s, mask).counter
            && (|Selected(s, mask)| == Render(s, mask).counter <==> Bits(mask) <= s)
  {
    var s := Selectable(concrete);
    ChosenAreBits(s, mask);
    BitCountIsSize(mask);
    assert Selected(s, mask) == set i | i in Chosen(s, mask) :: FieldId(i);
    NamesCount(Chosen(s, mask), Selected(s, mask));
    SizeOfSubset(Chosen(s, mask), Bits(mask));
  }

  lemma MaskBits(selectable: set<nat>, ps: seq<int>, i: nat)
    ensures i in Bits(MaskAfter(selectable, ps)) <==> i in selectable && Presses(ps, i) % 2 == 1
    ensures And(MaskAfter(selectable, ps), Shift(i)) != 0 <==> i in Bits(MaskAfter(selectable, ps))
  {
    var m := MaskAfter(selectable, ps);
    BitIsParity(selectable, ps, i);
    BitsHold(m, i);
    AndShift(m, i);
  }

  /** The handed set holds exactly the fields whose boxes are checked. */
  lemma SelectedAreChecked(concrete: bool, mask: nat, i: nat)
    requires i in Selectable(concrete)
    ensures FieldId(i) in Selected(Selectable(concrete), mask) <==> Render(Selectable(concrete), mask).checked[i]
  {
    var s := Selectable(concrete);
    if FieldId(i) in Selected(s, mask) {
      var j :| j in s && And(mask, Shift(j)) != 0 && FieldId(j) == FieldId(i);
      FieldIdsDiffer(i, j);
    }
  }

  /**
   After any presses: no bit outside the offered boxes; a box is checked exactly when pressed an
   odd number of times; the counter is the size of the handed set.
   */
  lemma ToggleRun(concrete: bool, ps: seq<int>)
    ensures var s := Selectable(concrete);
            var m := MaskAfter(s, ps);
            && Bits(m) <= s
            && (forall i :: i in s ==> (Render(s, m).checked[i] <==> Presses(ps, i) % 2 == 1))
            && Render(s, m).counter == |Selected(s, m)|
  {
    var s := Selectable(concrete);
    var m := MaskAfter(s, ps);
    forall i: nat
      ensures i in Bits(m) <==> i in s && Presses(ps, i) % 2 == 1
      ensures And(m, Shift(i)) != 0 <==> i in Bits(m)
    {
      MaskBits(s, ps, i);
    }
    CounterIff(concrete, m);
  }
}
