/**
  The shape the two emitters share.  A layout lists the members of a struct in order, each with the
  way its line of C is printed; Emit prints the body of the function that rebuilds the struct.
  The results here hold for every layout that tiles its struct, so for descriptor and GbE alike.
  */
module StructLayout {
  import opened Words
  import opened Memory
  import opened EmittedC

  /**
    Scalar: printed as `member = 0x%0Nx;` with N = digits.
    Derived: printed as a fixed expression in romSize and hasGbe, whatever the value is.
    Padding: a byte array, compressed to a fill loop when it is all 0xFF and unrolled otherwise.
    */
  datatype Slot =
    | Scalar(f: Field, digits: nat)
    | Derived(f: Field, rhs: Expr)
    | Padding(f: Field)

  type Layout = seq<Slot>

  /** The members follow each other without gap or overlap from bit `from` to bit `to`. */
  predicate Tiles(ls: Layout, from: nat, to: nat) {
    if ls == [] then from == to
    else ls[0].f.off == from && (ls[0].Padding? ==> ls[0].f.width % 8 == 0) && Tiles(ls[1..], ls[0].f.End(), to)
  }

  /** The same as Tiles, member by member. */
  lemma {:induction false} TilesByStep(ls: Layout, from: nat, to: nat)
    requires ls != [] && ls[0].f.off == from && ls[|ls| - 1].f.End() == to
    requires forall i :: 0 <= i < |ls| - 1 ==> ls[i + 1].f.off == ls[i].f.End()
    requires forall i :: 0 <= i < |ls| && ls[i].Padding? ==> ls[i].f.width % 8 == 0
    ensures Tiles(ls, from, to)
  {
    if |ls| > 1 {
      TilesByStep(ls[1..], ls[0].f.End(), to);
    } else {
      assert ls[1..] == [];
    }
  }

  predicate Inside(ls: Layout, size: nat) {
    forall s :: s in ls ==> s.f.End() <= size
  }

  lemma {:induction false} TilesInside(ls: Layout, from: nat, to: nat)
    requires Tiles(ls, from, to)
    ensures from <= to && Inside(ls, to)
    ensures forall s :: s in ls ==> from <= s.f.off && (s.Padding? ==> s.f.width % 8 == 0)
  {
    if ls != [] {
      TilesInside(ls[1..], ls[0].f.End(), to);
      assert forall s :: s in ls ==> s == ls[0] || s in ls[1..];
    }
  }

  lemma {:induction false} TilesAppend(ls: Layout, ms: Layout, from: nat, mid: nat, to: nat)
    requires Tiles(ls, from, mid) && Tiles(ms, mid, to)
    ensures Tiles(ls + ms, from, to)
  {
    if ls == [] {
      assert ls + ms == ms;
    } else {
      TilesAppend(ls[1..], ms, ls[0].f.End(), mid, to);
      assert (ls + ms)[1..] == ls[1..] + ms;
    }
  }

  /** A bit belongs to one member only. */
  lemma {:induction false} TilesUnique(ls: Layout, from: nat, to: nat, s: Slot, u: Slot, k: nat)
    requires Tiles(ls, from, to) && s in ls && u in ls && s.f.Covers(k) && u.f.Covers(k)
    ensures s == u
  {
    TilesInside(ls[1..], ls[0].f.End(), to);
    if s in ls[1..] && u in ls[1..] {
      TilesUnique(ls[1..], ls[0].f.End(), to, s, u, k);
    }
  }

  // ----- the emitter -----

  /** Byte i of a byte array. */
  function Element(f: Field, i: nat): Field { Field(f.off + 8 * i, 8) }

  function PrintConstant(f: Field, digits: nat, d: Bits): Stmt
    requires f.In(d)
  {
    Assign(f, Hex(Get(d, f), digits))
  }

  /** Every byte of the array is 0xFF. */
  predicate Blank(f: Field, d: Bits)
    requires f.In(d)
  {
    forall i :: 0 <= i < f.width / 8 ==> Get(d, Element(f, i)) == 0xFF
  }

  function Unrolled(f: Field, d: Bits): Program
    requires f.In(d)
  {
    seq(f.width / 8, i requires 0 <= i < f.width / 8 => PrintConstant(Element(f, i), 2, d))
  }

  function EmitPadding(f: Field, d: Bits): Program
    requires f.In(d)
  {
    if Blank(f, d) then [Fill(f)] else Unrolled(f, d)
  }

  function EmitSlot(s: Slot, d: Bits): Program
    requires s.f.In(d)
  {
    match s
    case Scalar(f, digits) => [PrintConstant(f, digits, d)]
    case Derived(f, e) => [Assign(f, e)]
    case Padding(f) => EmitPadding(f, d)
  }

  function Emit(ls: Layout, d: Bits): Program
    requires Inside(ls, |d|)
  {
    if ls == [] then [] else EmitSlot(ls[0], d) + Emit(ls[1..], d)
  }

  lemma {:induction false} EmitAppend(ls: Layout, ms: Layout, d: Bits)
    requires Inside(ls, |d|) && Inside(ms, |d|)
    ensures Emit(ls + ms, d) == Emit(ls, d) + Emit(ms, d)
  {
    if ls == [] {
      assert ls + ms == ms;
    } else {
      EmitAppend(ls[1..], ms, d);
      EmitStep(ls, ms, d);
      AppendAssociates(EmitSlot(ls[0], d), Emit(ls[1..], d), Emit(ms, d));
    }
  }

  lemma EmitStep(ls: Layout, ms: Layout, d: Bits)
    requires ls != [] && Inside(ls, |d|) && Inside(ms, |d|)
    ensures Emit(ls + ms, d) == EmitSlot(ls[0], d) + Emit(ls[1..] + ms, d)
  {
    var all := ls + ms;
    assert all[0] == ls[0];
    assert all[1..] == ls[1..] + ms;
    assert all != [];
  }

  lemma EmitOne(f: Field, d: Bits)
    requires f.In(d)
    ensures Emit([Padding(f)], d) == EmitPadding(f, d)
  {
    assert [Padding(f)][1..] == [];
    assert Emit([Padding(f)], d) == EmitPadding(f, d) + [];
  }

  lemma AppendAssociates(p: Program, q: Program, r: Program)
    ensures p + (q + r) == (p + q) + r
  {
  }

  predicate OnlyMembers(ls: Layout) { forall s :: s in ls ==> !s.Padding? }

  /** One line for each member: its value in hexadecimal, or its expression. */
  method WriteMembers(ls: Layout, d: Bits, out0: Program) returns (out: Program)
    requires Inside(ls, |d|) && OnlyMembers(ls)
    ensures out == out0 + Emit(ls, d)
  {
    out := out0;
    var n := 0;
    while n < |ls|
      invariant n <= |ls| && Inside(ls[n..], |d|)
      invariant out + Emit(ls[n..], d) == out0 + Emit(ls, d)
    {
      ghost var before := out;
      assert ls[n] in ls;
      match ls[n] {
        case Scalar(f, digits) =>
          out := out + [PrintConstant(f, digits, d)];
        case Derived(f, e) =>
          out := out + [Assign(f, e)];
        case Padding(_) =>
          assert false;
      }
      assert out == before + EmitSlot(ls[n], d);
      assert ls[n..][1..] == ls[n + 1..];
      AppendAssociates(before, EmitSlot(ls[n], d), Emit(ls[n + 1..], d));
      n := n + 1;
    }
  }

  /** The unrolled form: one assignment for each byte of the array. */
  method WriteEachByte(f: Field, d: Bits, out0: Program) returns (out: Program)
    requires f.In(d) && f.width % 8 == 0
    ensures out == out0 + Unrolled(f, d)
  {
    out := out0;
    var count := f.width / 8;
    var j := 0;
    while j < count
      invariant j <= count && out == out0 + Unrolled(f, d)[..j]
    {
      assert Unrolled(f, d)[..j + 1] == Unrolled(f, d)[..j] + [PrintConstant(Element(f, j), 2, d)];
      out := out + [PrintConstant(Element(f, j), 2, d)];
      j := j + 1;
    }
    assert Unrolled(f, d)[..count] == Unrolled(f, d);
  }

  /**
    The padding loop of descriptor.c: scan the array; at the first byte that is not 0xFF print every
    byte and stop, at the last byte print the fill loop.
    */
  method WritePaddingByScan(f: Field, d: Bits, out0: Program) returns (out: Program)
    requires f.In(d) && f.width % 8 == 0 && f.width > 0
    ensures out == out0 + EmitPadding(f, d)
  {
    out := out0;
    var count := f.width / 8;
    var i := 0;
    while i < count
      invariant i < count && out == out0
      invariant forall k :: 0 <= k < i ==> Get(d, Element(f, k)) == 0xFF
    {
      if Get(d, Element(f, i)) != 0xFF {
        out := WriteEachByte(f, d, out);
        return;
      } else if i == count - 1 {
        out := out + [Fill(f)];
        return;
      }
      i := i + 1;
    }
  }

  /** Assume that the array is all 0xFF, then try to disprove it. */
  method PaddingIdentical(f: Field, d: Bits) returns (identical: bool)
    requires f.In(d) && f.width % 8 == 0
    ensures identical == Blank(f, d)
  {
    var paddingSize := f.width / 8;
    identical := true;
    var i := 0;
    while i < paddingSize
      invariant i <= paddingSize && identical
      invariant forall k :: 0 <= k < i ==> Get(d, Element(f, k)) == 0xFF
    {
      if Get(d, Element(f, i)) != 0xFF {
        identical := false;
        break;
      }
      i := i + 1;
    }
  }

  /** The padding code of gbe.c: decide first, then print. */
  method WritePaddingByFlag(f: Field, d: Bits, out0: Program) returns (out: Program)
    requires f.In(d) && f.width % 8 == 0
    ensures out == out0 + EmitPadding(f, d)
  {
    var identical := PaddingIdentical(f, d);
    if !identical {
      out := WriteEachByte(f, d, out0);
    } else {
      out := out0 + [Fill(f)];
    }
  }

  lemma EmitWithPadding(ls: Layout, f: Field, d: Bits)
    requires Inside(ls, |d|) && f.In(d)
    ensures Inside(ls + [Padding(f)], |d|)
    ensures Emit(ls + [Padding(f)], d) == Emit(ls, d) + EmitPadding(f, d)
  {
    EmitAppend(ls, [Padding(f)], d);
    EmitOne(f, d);
  }

  /** The members, then the padding of a struct that ends with it. */
  method WriteWithPadding(ls: Layout, f: Field, d: Bits) returns (out: Program)
    requires Inside(ls, |d|) && OnlyMembers(ls) && f.In(d) && f.width % 8 == 0
    ensures Inside(ls + [Padding(f)], |d|) && out == Emit(ls + [Padding(f)], d)
  {
    EmitWithPadding(ls, f, d);
    out := WriteMembers(ls, d, []);
    assert out == Emit(ls, d);
    out := WritePaddingByFlag(f, d, out);
  }

  // ----- what the emitted program rebuilds -----

  /** Member s of t is what the emitted line for s sets it to, when d was printed. */
  predicate SlotHolds(s: Slot, d: Bits, a: Args, t: Bits) {
    && s.f.In(d) && s.f.In(t)
    && if s.Derived? then Get(t, s.f) == Eval(s.rhs, a) % Pow2(s.f.width) else Same(d, t, s.f)
  }

  lemma ConstantHolds(f: Field, digits: nat, d: Bits, a: Args, t: Bits)
    requires f.In(d) && f.In(t)
    ensures Holds(PrintConstant(f, digits, d), a, t) <==> Same(d, t, f)
  {
    var v := Get(d, f);
    ConstantIs(v, digits);
    GetBits(d, f);
    SmallMod(v, Pow2(f.width));
    AssignHolds(f, Hex(v, digits), a, t);
    GetSame(d, t, f);
  }

  /** The statements printed for an array hold exactly when the array is the printed one. */
  lemma PaddingHolds(f: Field, d: Bits, a: Args, t: Bits)
    requires f.In(d) && f.In(t) && f.width % 8 == 0
    ensures (forall st :: st in EmitPadding(f, d) ==> Holds(st, a, t)) <==> Same(d, t, f)
  {
    if Blank(f, d) {
      BlankBits(f, d);
      assert Holds(Fill(f), a, t) <==> Same(d, t, f);
    } else {
      var p := Unrolled(f, d);
      forall i | 0 <= i < f.width / 8
        ensures Holds(p[i], a, t) <==> Same(d, t, Element(f, i))
      {
        ConstantHolds(Element(f, i), 2, d, a, t);
      }
      BytewiseSame(f, d, t);
      assert (forall st :: st in p ==> Holds(st, a, t)) <==> (forall i :: 0 <= i < |p| ==> Holds(p[i], a, t));
    }
  }

  lemma BytewiseSame(f: Field, d: Bits, t: Bits)
    requires f.In(d) && f.In(t) && f.width % 8 == 0
    ensures Same(d, t, f) <==> forall i :: 0 <= i < f.width / 8 ==> Same(d, t, Element(f, i))
  {
    if forall i :: 0 <= i < f.width / 8 ==> Same(d, t, Element(f, i)) {
      forall k | f.off <= k < f.End()
        ensures d[k] == t[k]
      {
        var i := (k - f.off) / 8;
        assert Same(d, t, Element(f, i));
      }
    }
  }

  lemma BlankBits(f: Field, d: Bits)
    requires f.In(d) && f.width % 8 == 0 && Blank(f, d)
    ensures forall k :: f.off <= k < f.End() ==> d[k]
  {
    forall k | f.off <= k < f.End()
      ensures d[k]
    {
      var i := (k - f.off) / 8;
      var e := Element(f, i);
      GetBits(d, e);
      assert Get(d, e) == 0xFF;
      AllOnes();
      assert d[e.off + (k - e.off)] == BitOf(Get(d, e), k - e.off);
    }
  }

  lemma SlotEmitted(s: Slot, d: Bits, a: Args, t: Bits)
    requires s.f.In(d) && s.f.In(t) && (s.Padding? ==> s.f.width % 8 == 0)
    ensures (forall st :: st in EmitSlot(s, d) ==> Holds(st, a, t)) <==> SlotHolds(s, d, a, t)
  {
    match s
    case Scalar(f, digits) => ConstantHolds(f, digits, d, a, t);
    case Derived(f, e) => AssignHolds(f, e, a, t);
    case Padding(f) => PaddingHolds(f, d, a, t);
  }

  lemma {:induction false} EmitHolds(ls: Layout, d: Bits, a: Args, t: Bits)
    requires Inside(ls, |d|) && |t| == |d|
    requires forall s :: s in ls && s.Padding? ==> s.f.width % 8 == 0
    ensures (forall st :: st in Emit(ls, d) ==> Holds(st, a, t)) <==> (forall s :: s in ls ==> SlotHolds(s, d, a, t))
  {
    if ls != [] {
      SlotEmitted(ls[0], d, a, t);
      EmitHolds(ls[1..], d, a, t);
      assert forall s :: s in ls <==> s == ls[0] || s in ls[1..];
    }
  }

  lemma {:induction false} UnrolledTiled(f: Field, d: Bits, n: nat)
    requires f.In(d) && f.width % 8 == 0 && n <= f.width / 8
    ensures Tiled(Unrolled(f, d)[n..], f.off + 8 * n, f.End())
    decreases f.width / 8 - n
  {
    if n < f.width / 8 {
      UnrolledTiled(f, d, n + 1);
      assert Unrolled(f, d)[n..][1..] == Unrolled(f, d)[n + 1..];
    }
  }

  lemma {:induction false} EmitTiled(ls: Layout, d: Bits, from: nat)
    requires Tiles(ls, from, |d|) && Inside(ls, |d|)
    ensures Tiled(Emit(ls, d), from, |d|)
    decreases |ls|
  {
    if ls != [] {
      var s := ls[0];
      EmitTiled(ls[1..], d, s.f.End());
      if s.Padding? && !Blank(s.f, d) {
        UnrolledTiled(s.f, d, 0);
        assert Unrolled(s.f, d)[0..] == Unrolled(s.f, d);
      } else {
        SingleTiled(EmitSlot(s, d)[0]);
        assert EmitSlot(s, d) == [EmitSlot(s, d)[0]];
      }
      TiledAppend(EmitSlot(s, d), Emit(ls[1..], d), from, s.f.End(), |d|);
    }
  }

  lemma SingleTiled(st: Stmt)
    requires st.Fill? ==> st.f.width % 8 == 0
    ensures Tiled([st], st.f.off, st.f.End())
  {
    assert [st][1..] == [];
  }

  /** The emitted body fits the struct it rebuilds and assigns all of it, each member once. */
  lemma EmittedCoversStruct(ls: Layout, d: Bits)
    requires Tiles(ls, 0, |d|)
    ensures Inside(ls, |d|) && Fits(Emit(ls, d), |d|) && Tiled(Emit(ls, d), 0, |d|)
  {
    TilesInside(ls, 0, |d|);
    EmitTiled(ls, d, 0);
    TiledFits(Emit(ls, d), 0, |d|);
  }

  /**
    Code generation theorem.  Print the program for d, run it with any arguments from any memory m:
    it builds t exactly when t agrees with d on every printed member and holds the value of the
    expression, cut to the member's width, in every derived member.
    */
  lemma Regeneration(ls: Layout, d: Bits, a: Args, m: Bits, t: Bits)
    requires Tiles(ls, 0, |d|) && |m| == |d| && |t| == |d|
    requires Inside(ls, |d|) && Fits(Emit(ls, d), |d|)
    ensures Run(Emit(ls, d), a, m) == t <==> forall s :: s in ls ==> SlotHolds(s, d, a, t)
  {
    TilesInside(ls, 0, |d|);
    EmittedCoversStruct(ls, d);
    RunBuilds(Emit(ls, d), a, m, t);
    EmitHolds(ls, d, a, t);
  }

  // ----- a shipped program is what the emitter prints from its own result -----

  predicate Written(s: Slot, st: Stmt) {
    && st.f == s.f
    && match s
       case Scalar(f, digits) => st.Assign? && st.rhs.Hex? && st.rhs.digits == digits && st.rhs.printed < Pow2(f.width)
       case Derived(f, e) => st.Assign? && st.rhs == e
       case Padding(f) => st.Fill?
  }

  /** Line by line, p has the form the emitter gives to a struct whose arrays are all 0xFF. */
  predicate WrittenFor(ls: Layout, p: Program) {
    |ls| == |p| && forall i :: 0 <= i < |ls| ==> Written(ls[i], p[i])
  }

  lemma WrittenAppend(ls: Layout, p: Program, ms: Layout, q: Program)
    requires WrittenFor(ls, p) && WrittenFor(ms, q)
    ensures WrittenFor(ls + ms, p + q)
  {
    forall i | 0 <= i < |ls + ms|
      ensures Written((ls + ms)[i], (p + q)[i])
    {
      if i < |ls| {
        assert Written(ls[i], p[i]);
      } else {
        assert Written(ms[i - |ls|], q[i - |ls|]);
      }
    }
  }

  /** One more section and its all-0xFF padding array. */
  lemma WrittenGrow(ls: Layout, p: Program, ms: Layout, q: Program, f: Field)
    requires WrittenFor(ls, p) && WrittenFor(ms, q)
    ensures WrittenFor(ls + ms + [Padding(f)], p + q + [Fill(f)])
  {
    WrittenAppend(ls, p, ms, q);
    assert Written(Padding(f), Fill(f));
    assert WrittenFor([Padding(f)], [Fill(f)]);
    WrittenAppend(ls + ms, p + q, [Padding(f)], [Fill(f)]);
  }

  lemma TailWritten(ls: Layout, p: Program)
    requires ls != [] && WrittenFor(ls, p)
    ensures WrittenFor(ls[1..], p[1..])
  {
    forall i | 0 <= i < |ls[1..]|
      ensures Written(ls[1..][i], p[1..][i])
    {
      assert Written(ls[i + 1], p[i + 1]);
    }
  }

  lemma {:induction false} WrittenTiled(ls: Layout, p: Program, from: nat, to: nat)
    requires WrittenFor(ls, p) && Tiles(ls, from, to)
    ensures Tiled(p, from, to)
  {
    if ls != [] {
      assert Written(ls[0], p[0]);
      TailWritten(ls, p);
      WrittenTiled(ls[1..], p[1..], ls[0].f.End(), to);
    }
  }

  /** If every line of p holds in t, printing t gives p back, text and all. */
  lemma {:induction false} EmitWritten(ls: Layout, p: Program, a: Args, t: Bits)
    requires WrittenFor(ls, p) && Inside(ls, |t|)
    requires forall s :: s in ls && s.Padding? ==> s.f.width % 8 == 0
    requires forall st :: st in p ==> Holds(st, a, t)
    ensures Emit(ls, t) == p
  {
    if ls != [] {
      TailWritten(ls, p);
      EmitWritten(ls[1..], p[1..], a, t);
      assert Written(ls[0], p[0]);
      SlotWritten(ls[0], p[0], a, t);
      assert p == [p[0]] + p[1..];
    }
  }

  lemma SlotWritten(s: Slot, st: Stmt, a: Args, t: Bits)
    requires s.f.In(t) && Written(s, st) && Holds(st, a, t)
    requires s.Padding? ==> s.f.width % 8 == 0
    ensures EmitSlot(s, t) == [st]
  {
    match s
    case Scalar(f, digits) =>
      ConstantIs(st.rhs.printed, digits);
      AssignHolds(f, st.rhs, a, t);
      SmallMod(Eval(st.rhs, a), Pow2(f.width));
    case Derived(f, e) =>
    case Padding(f) => FilledIsBlank(f, a, t);
  }

  lemma FilledIsBlank(f: Field, a: Args, t: Bits)
    requires f.In(t) && Holds(Fill(f), a, t)
    ensures Blank(f, t)
  {
    forall i | 0 <= i < f.width / 8
      ensures Get(t, Element(f, i)) == 0xFF
    {
      AllOnes();
      GetFromBits(t, Element(f, i), 0xFF);
      assert Pow2(8) == 0x100 by { Pow2Values(); }
      SmallMod(0xFF, 0x100);
    }
  }

  /**
    Self-reproduction: a shipped program written for the layout is exactly, statement by statement,
    what the emitter prints from the struct the program builds, for all arguments.
    */
  lemma SelfReproduction(ls: Layout, p: Program, a: Args, m: Bits)
    requires Tiles(ls, 0, |m|) && WrittenFor(ls, p)
    ensures Inside(ls, |m|) && Tiled(p, 0, |m|) && Fits(p, |m|)
    ensures Emit(ls, Run(p, a, m)) == p
  {
    TilesInside(ls, 0, |m|);
    WrittenTiled(ls, p, 0, |m|);
    TiledFits(p, 0, |m|);
    RunHolds(p, a, m, 0);
    EmitWritten(ls, p, a, Run(p, a, m));
  }

  // ----- the struct as a list of member values -----

  function Unpack(ls: Layout, d: Bits): seq<nat>
    requires Inside(ls, |d|)
  {
    seq(|ls|, i requires 0 <= i < |ls| => Get(d, ls[i].f))
  }

  function Pack(ls: Layout, vs: seq<nat>, m: Bits): (r: Bits)
    requires Inside(ls, |m|) && |vs| == |ls|
    ensures |r| == |m|
  {
    if ls == [] then m else Pack(ls[1..], vs[1..], Put(m, ls[0].f, vs[0]))
  }

  lemma {:induction false} PackGets(ls: Layout, vs: seq<nat>, m: Bits, from: nat)
    requires Tiles(ls, from, |m|) && Inside(ls, |m|) && |vs| == |ls|
    requires forall i :: 0 <= i < |ls| ==> vs[i] < Pow2(ls[i].f.width)
    ensures forall k :: 0 <= k < from && k < |m| ==> Pack(ls, vs, m)[k] == m[k]
    ensures forall i :: 0 <= i < |ls| ==> Get(Pack(ls, vs, m), ls[i].f) == vs[i]
    decreases |ls|
  {
    if ls != [] {
      var f := ls[0].f;
      var next := Put(m, f, vs[0]);
      TilesInside(ls[1..], f.End(), |m|);
      PackGets(ls[1..], vs[1..], next, f.End());
      GetPut(m, f, vs[0]);
      SmallMod(vs[0], Pow2(f.width));
      GetSame(next, Pack(ls, vs, m), f);
      forall i | 0 <= i < |ls|
        ensures Get(Pack(ls, vs, m), ls[i].f) == vs[i]
      {
        if i > 0 { assert ls[i] == ls[1..][i - 1] && vs[i] == vs[1..][i - 1]; }
      }
    }
  }

  lemma {:induction false} ValuesDetermine(ls: Layout, t: Bits, u: Bits, from: nat)
    requires Tiles(ls, from, |t|) && Inside(ls, |t|) && |t| == |u|
    requires forall i :: 0 <= i < |ls| ==> Get(t, ls[i].f) == Get(u, ls[i].f)
    ensures forall k :: from <= k < |t| ==> t[k] == u[k]
    decreases |ls|
  {
    if ls != [] {
      TilesInside(ls[1..], ls[0].f.End(), |t|);
      GetSame(t, u, ls[0].f);
      forall i | 0 <= i < |ls[1..]|
        ensures Get(t, ls[1..][i].f) == Get(u, ls[1..][i].f)
      {
        assert ls[1..][i] == ls[i + 1];
      }
      ValuesDetermine(ls[1..], t, u, ls[0].f.End());
    }
  }

  /** Unpack after Pack: any list of member values that fit is the list of exactly the memory packed from it. */
  lemma UnpackOfPack(ls: Layout, vs: seq<nat>, m: Bits)
    requires Tiles(ls, 0, |m|) && Inside(ls, |m|) && |vs| == |ls|
    requires forall i :: 0 <= i < |ls| ==> vs[i] < Pow2(ls[i].f.width)
    ensures Unpack(ls, Pack(ls, vs, m)) == vs
  {
    PackGets(ls, vs, m, 0);
  }

  /** Pack after Unpack: the member values of a struct rebuild its memory bit for bit; there is no hidden bit. */
  lemma PackOfUnpack(ls: Layout, d: Bits, m: Bits)
    requires Tiles(ls, 0, |d|) && Inside(ls, |d|) && |m| == |d|
    ensures Pack(ls, Unpack(ls, d), m) == d
  {
    var vs := Unpack(ls, d);
    forall i | 0 <= i < |ls|
      ensures vs[i] < Pow2(ls[i].f.width)
    {
      GetBits(d, ls[i].f);
    }
    PackGets(ls, vs, m, 0);
    ValuesDetermine(ls, d, Pack(ls, vs, m), 0);
  }
}
