/**
  The C that ich9deblob writes: a function body that declares an uninitialised struct, assigns every
  member once, and returns it.  This file gives that language a syntax, a meaning as a function from
  memory to memory, and an executor that works in place; the main result is that a program whose
  statements tile the struct determines the whole struct, whatever the memory held before.
  */
module EmittedC {
  import opened Words
  import opened Memory
  import opened HexText

  const ROMSIZE_512KB: nat := 0x8_0000
  const ROMSIZE_1MB: nat := 0x10_0000
  const ROMSIZE_2MB: nat := 0x20_0000
  const ROMSIZE_4MB: nat := 0x40_0000
  const ROMSIZE_8MB: nat := 0x80_0000
  const ROMSIZE_16MB: nat := 0x100_0000

  /** Flash chip size code of the component section; sizes without a code get the reserved 7. */
  function ComponentDensity(romSizeInBytes: nat): (r: nat)
    ensures r < 8
  {
    if romSizeInBytes == ROMSIZE_512KB then 0
    else if romSizeInBytes == ROMSIZE_1MB then 1
    else if romSizeInBytes == ROMSIZE_2MB then 2
    else if romSizeInBytes == ROMSIZE_4MB then 3
    else if romSizeInBytes == ROMSIZE_8MB then 4
    else if romSizeInBytes == ROMSIZE_16MB then 5
    else 7
  }

  /** Codes 0 to 5 stand for 512 KiB * 2^k, 7 for every other size, and 6 for none. */
  lemma DensityCode(size: nat)
    ensures forall k: nat :: k <= 5 ==> (ComponentDensity(size) == k <==> size == ROMSIZE_512KB * Pow2(k))
    ensures ComponentDensity(size) == 7 <==> forall k: nat :: k <= 5 ==> size != ROMSIZE_512KB * Pow2(k)
    ensures ComponentDensity(size) != 6
  {
    assert Pow2(0) == 1 && Pow2(1) == 2 && Pow2(2) == 4 && Pow2(3) == 8 && Pow2(4) == 16 && Pow2(5) == 32;
    forall k: nat | k <= 5
      ensures ComponentDensity(size) == k <==> size == ROMSIZE_512KB * Pow2(k)
    {
    }
  }

  // ----- syntax -----

  /**
    Right-hand sides.  Hex(v, n) is the text printf("0x%0nx", v) leaves in the file; Const is a decimal
    constant or one of the size macros.
    */
  datatype Expr =
    | Hex(printed: nat, digits: nat)
    | Const(value: nat)
    | RomSizeArg
    | IfGbe(yes: Expr, no: Expr)
    | Plus(left: Expr, right: Expr)
    | Minus(left: Expr, right: Expr)
    | ShiftRight(left: Expr, places: nat)
    | Density(arg: Expr)

  /** Assign: `member = rhs;`  Fill: `for (i = 0; i < n; i++) array[i] = 0xFF;` over an array of 8*n bits. */
  datatype Stmt = Assign(f: Field, rhs: Expr) | Fill(f: Field)

  type Program = seq<Stmt>

  /** The arguments of the emitted function; hasGbe is a C truth value. */
  datatype Args = Args(romSize: nat, hasGbe: int)

  // ----- meaning -----

  /** What the compiler reads from the text printed for a constant (text that is no constant counts as 0). */
  function Constant(v: nat, digits: nat): nat {
    match ParseHex(PrintHex(v, digits))
    case Some(n) => n
    case None => 0
  }

  /** Printing a constant and compiling it again loses nothing. */
  lemma ConstantIs(v: nat, digits: nat)
    ensures Constant(v, digits) == v
  {
    ParseOfPrint(v, digits);
  }

  /** Unsigned 32-bit evaluation. */
  function Eval(e: Expr, a: Args): nat {
    match e
    case Hex(v, digits) => Constant(v, digits)
    case Const(v) => v
    case RomSizeArg => a.romSize
    case IfGbe(yes, no) => if a.hasGbe != 0 then Eval(yes, a) else Eval(no, a)
    case Plus(l, r) => Add32(Eval(l, a), Eval(r, a))
    case Minus(l, r) => Sub32(Eval(l, a), Eval(r, a))
    case ShiftRight(l, k) => Shr(Eval(l, a), k)
    case Density(x) => ComponentDensity(Eval(x, a))
  }

  predicate Fits(p: Program, size: nat) {
    forall s :: s in p ==> s.f.End() <= size
  }

  /** The first n turns of a fill loop starting at bit off. */
  function FillBytes(m: Bits, off: nat, n: nat): (r: Bits)
    requires off + 8 * n <= |m|
    ensures |r| == |m|
  {
    if n == 0 then m else Put(FillBytes(m, off, n - 1), Field(off + 8 * (n - 1), 8), 0xFF)
  }

  function Exec(s: Stmt, a: Args, m: Bits): (r: Bits)
    requires s.f.In(m)
    ensures |r| == |m|
  {
    match s
    case Assign(f, e) => Put(m, f, Eval(e, a))
    case Fill(f) => FillBytes(m, f.off, f.width / 8)
  }

  function Run(p: Program, a: Args, m: Bits): (r: Bits)
    requires Fits(p, |m|)
    ensures |r| == |m|
  {
    if p == [] then m else Run(p[1..], a, Exec(p[0], a, m))
  }

  // ----- execution in place -----

  method AssignMember(mem: array<bool>, f: Field, v: nat)
    requires f.End() <= mem.Length
    modifies mem
    ensures mem[..] == Put(old(mem[..]), f, v)
  {
    forall k | f.off <= k < f.End() {
      mem[k] := BitOf(v, k - f.off);
    }
  }

  method FillArray(mem: array<bool>, f: Field)
    requires f.End() <= mem.Length
    modifies mem
    ensures mem[..] == FillBytes(old(mem[..]), f.off, f.width / 8)
  {
    var i := 0;
    while i < f.width / 8
      invariant i <= f.width / 8
      invariant mem[..] == FillBytes(old(mem[..]), f.off, i)
    {
      AssignMember(mem, Field(f.off + 8 * i, 8), 0xFF);
      i := i + 1;
    }
  }

  /** Runs an emitted body statement by statement on the struct's memory. */
  method Execute(p: Program, a: Args, mem: array<bool>)
    requires Fits(p, mem.Length)
    modifies mem
    ensures mem[..] == Run(p, a, old(mem[..]))
  {
    var n := 0;
    while n < |p|
      invariant n <= |p|
      invariant Fits(p[n..], mem.Length)
      invariant Run(p[n..], a, mem[..]) == Run(p, a, old(mem[..]))
    {
      ghost var before := mem[..];
      match p[n] {
        case Assign(f, e) =>
          AssignMember(mem, f, Eval(e, a));
        case Fill(f) =>
          FillArray(mem, f);
      }
      assert mem[..] == Exec(p[n], a, before);
      assert p[n..][1..] == p[n + 1..];
      n := n + 1;
    }
  }

  // ----- what a program does to the struct -----

  /** The statements assign consecutive members, from bit `from` up to bit `to`, none twice. */
  predicate Tiled(p: Program, from: nat, to: nat) {
    if p == [] then from == to
    else p[0].f.off == from && (p[0].Fill? ==> p[0].f.width % 8 == 0) && Tiled(p[1..], p[0].f.End(), to)
  }

  /** Memory t shows the effect of statement s. */
  predicate Holds(s: Stmt, a: Args, t: Bits) {
    && s.f.In(t)
    && forall k :: s.f.off <= k < s.f.End() ==> t[k] == (if s.Assign? then BitOf(Eval(s.rhs, a), k - s.f.off) else true)
  }

  lemma {:induction false} TiledFits(p: Program, from: nat, to: nat)
    requires Tiled(p, from, to)
    ensures from <= to && Fits(p, to)
    ensures forall s :: s in p ==> from <= s.f.off
  {
    if p != [] {
      TiledFits(p[1..], p[0].f.End(), to);
      assert forall s :: s in p ==> s == p[0] || s in p[1..];
    }
  }

  lemma {:induction false} TiledAppend(p: Program, q: Program, from: nat, mid: nat, to: nat)
    requires Tiled(p, from, mid) && Tiled(q, mid, to)
    ensures Tiled(p + q, from, to)
  {
    if p == [] {
      assert p + q == q;
    } else {
      TiledAppend(p[1..], q, p[0].f.End(), mid, to);
      assert (p + q)[1..] == p[1..] + q;
    }
  }

  lemma {:induction false} FillBits(m: Bits, off: nat, n: nat)
    requires off + 8 * n <= |m|
    ensures forall k :: 0 <= k < |m| ==> FillBytes(m, off, n)[k] == (off <= k < off + 8 * n || m[k])
  {
    if n > 0 {
      FillBits(m, off, n - 1);
      Pow2Values();
      AllOnes();
    }
  }

  lemma AllOnes()
    ensures forall i :: 0 <= i < 8 ==> BitOf(0xFF, i)
  {
    forall i | 0 <= i < 8
      ensures BitOf(0xFF, i)
    {
      assert BitOf(0xFF, 0) && BitOf(0xFF, 1) && BitOf(0xFF, 2) && BitOf(0xFF, 3);
      assert BitOf(0xFF, 4) && BitOf(0xFF, 5) && BitOf(0xFF, 6) && BitOf(0xFF, 7);
    }
  }

  lemma ExecHolds(s: Stmt, a: Args, m: Bits)
    requires s.f.In(m) && (s.Fill? ==> s.f.width % 8 == 0)
    ensures Holds(s, a, Exec(s, a, m))
    ensures forall k :: 0 <= k < |m| && !s.f.Covers(k) ==> Exec(s, a, m)[k] == m[k]
  {
    if s.Fill? {
      FillBits(m, s.f.off, s.f.width / 8);
    }
  }

  /** After a tiled program every one of its statements holds: none undoes another. */
  lemma {:induction false} RunHolds(p: Program, a: Args, m: Bits, from: nat)
    requires Tiled(p, from, |m|) && Fits(p, |m|)
    ensures forall k :: 0 <= k < from && k < |m| ==> Run(p, a, m)[k] == m[k]
    ensures forall s :: s in p ==> Holds(s, a, Run(p, a, m))
    decreases |p|
  {
    if p != [] {
      var next := Exec(p[0], a, m);
      TiledFits(p[1..], p[0].f.End(), |m|);
      ExecHolds(p[0], a, m);
      RunHolds(p[1..], a, next, p[0].f.End());
      forall s | s in p
        ensures Holds(s, a, Run(p, a, m))
      {
        assert s == p[0] || s in p[1..];
      }
    }
  }

  lemma {:induction false} HoldsDetermines(p: Program, a: Args, t: Bits, u: Bits, from: nat)
    requires Tiled(p, from, |t|) && |t| == |u|
    requires forall s :: s in p ==> Holds(s, a, t) && Holds(s, a, u)
    ensures forall k :: from <= k < |t| ==> t[k] == u[k]
    decreases |p|
  {
    if p != [] {
      assert Holds(p[0], a, t) && Holds(p[0], a, u);
      HoldsDetermines(p[1..], a, t, u, p[0].f.End());
    }
  }

  /**
    A tiled program builds t, from any uninitialised memory, exactly when every statement holds in t.
    In particular its result never depends on what the memory held before.
    */
  lemma RunBuilds(p: Program, a: Args, m: Bits, t: Bits)
    requires Tiled(p, 0, |m|) && Fits(p, |m|) && |t| == |m|
    ensures Run(p, a, m) == t <==> forall s :: s in p ==> Holds(s, a, t)
  {
    RunHolds(p, a, m, 0);
    if forall s :: s in p ==> Holds(s, a, t) {
      HoldsDetermines(p, a, t, Run(p, a, m), 0);
      assert Run(p, a, m) == t;
    }
  }

  /** Uninitialised memory cannot leak into the struct an emitted function returns. */
  lemma RunIgnoresMemory(p: Program, a: Args, m: Bits, n: Bits)
    requires Tiled(p, 0, |m|) && Fits(p, |m|) && |n| == |m|
    ensures Run(p, a, m) == Run(p, a, n)
  {
    RunHolds(p, a, n, 0);
    RunBuilds(p, a, m, Run(p, a, n));
  }

  /** A statement holds for a member exactly when the member has the value of its right-hand side. */
  lemma AssignHolds(f: Field, e: Expr, a: Args, t: Bits)
    requires f.In(t)
    ensures Holds(Assign(f, e), a, t) <==> Get(t, f) == Eval(e, a) % Pow2(f.width)
  {
    var v := Eval(e, a);
    var u := Put(t, f, v);
    GetPut(t, f, v);
    GetSame(t, u, f);
    assert Same(t, u, f) <==> Holds(Assign(f, e), a, t);
  }

  /** The value a member has after the run is the value of the one statement that assigns it. */
  lemma RunAssigns(p: Program, a: Args, m: Bits, f: Field, e: Expr)
    requires Tiled(p, 0, |m|) && Fits(p, |m|) && Assign(f, e) in p
    ensures f.In(m) && Get(Run(p, a, m), f) == Eval(e, a) % Pow2(f.width)
  {
    RunHolds(p, a, m, 0);
    AssignHolds(f, e, a, Run(p, a, m));
  }

  /** After the run an array that is filled consists of ones. */
  lemma RunFills(p: Program, a: Args, m: Bits, f: Field)
    requires Tiled(p, 0, |m|) && Fits(p, |m|) && Fill(f) in p
    ensures f.In(m) && forall k :: f.off <= k < f.End() ==> Run(p, a, m)[k]
  {
    RunHolds(p, a, m, 0);
    assert Holds(Fill(f), a, Run(p, a, m));
  }
}
