// `RvEmitter` as it runs: maps and counters updated line by line, blocks
// appended as they are produced, branch targets filled in by the assembler.

module EmitterUnits {
  import opened Integers
  import opened Rv32
  import opened Ptx
  import opened Emitter
  import opened Compiled

  // A block seen through a larger allocation is the same block.
  lemma LinesGrow(a: Alloc, b: Alloc, n: Instr, x: nat)
    requires Grows(a, b) && Has(a, n) && Accepted(n)
    ensures Lines(b, n, x) == Lines(a, n, x)
  {
    hide Grows, Has, Lines, IntNames, FloatNames;
    Names(a, n);
    forall m | m in a.i ensures Ir(b, m) == Ir(a, m) {
      SameRegister(a, b, m);
    }
    forall m | m in a.f ensures Fr(b, m) == Fr(a, m) {
      SameRegister(a, b, m);
    }
    LinesByNames(a, b, n, x);
  }

  lemma SameRegister(a: Alloc, b: Alloc, m: Name)
    requires Grows(a, b)
    ensures m in a.i ==> Ir(b, m) == Ir(a, m)
    ensures m in a.f ==> Fr(b, m) == Fr(a, m)
  {
  }

  lemma LinesByNames(a: Alloc, b: Alloc, n: Instr, x: nat)
    requires Has(a, n) && Accepted(n)
    requires forall m :: m in a.i ==> Ir(b, m) == Ir(a, m)
    requires forall m :: m in a.f ==> Fr(b, m) == Fr(a, m)
    ensures Lines(b, n, x) == Lines(a, n, x)
  {
    hide Has, Ir, Fr, ToWord, SetpFloatLines, ImmediateLines, Li, RegisterOp;
    Names(a, n);
  }

  /** What the assembler does to a block that branches. */
  function Retarget(block: seq<Rv>, x: nat): seq<Rv> {
    if |block| == 1 && block[0].JAL? then [JAL(x)]
    else if |block| == 1 && block[0].BEQZ? then [BEQZ(block[0].rs1, x)]
    else if |block| == 1 && block[0].BNEZ? then [BNEZ(block[0].rs1, x)]
    else block
  }

  lemma Retargeted(a: Alloc, n: Instr, x: nat)
    ensures Retarget(Lines(a, n, 0), x) == Lines(a, n, x)
  {
    hide Lines, Straight;
    LinesTarget(a, n, x);
    if Control(n) {
      OneInstruction(a, n, 0);
      OneInstruction(a, n, x);
    } else {
      LinesStraight(a, n);
      StraightStays(Lines(a, n, 0), x);
    }
  }

  lemma StraightStays(block: seq<Rv>, x: nat)
    requires AllStraight(block)
    ensures Retarget(block, x) == block
  {
  }

  /** The assembler: blocks in order, branch targets filled in. */
  method Link(a: Alloc, body: seq<Instr>, blocks: seq<seq<Rv>>) returns (code: seq<Rv>)
    requires |blocks| == |body| && forall k :: 0 <= k < |body| ==> blocks[k] == Lines(a, body[k], 0)
    ensures code == Code(a, body)
  {
    hide Lines, Target;
    code := [];
    for k := 0 to |body|
      invariant code == CodeTo(a, body, k)
    {
      Retargeted(a, body[k], Target(a, body, body[k]));
      code := code + Retarget(blocks[k], Target(a, body, body[k]));
    }
  }

  class RvEmitter {
    var iregMap: map<Name, nat>
    var fregMap: map<Name, nat>
    var nextIreg: nat
    var nextFreg: nat
    var error: bool
    var out: seq<seq<Rv>>

    constructor ()
      ensures Value() == NO_REGISTERS && !error && out == []
    {
      iregMap, fregMap, nextIreg, nextFreg, error, out := map[], map[], 0, 0, false, [];
    }

    ghost function Value(): Alloc
      reads this
    {
      Alloc(iregMap, fregMap, nextIreg, nextFreg)
    }

    /** The register of a name, allocated on first use; an error leaves the maps alone. */
    method Ireg(n: Name) returns (r: Reg)
      requires Sound(Value()) && Fitting(Value())
      modifies this`iregMap, this`nextIreg, this`error
      ensures Fitting(TakeInt(old(Value()), n)) ==> error == old(error) && Value() == TakeInt(old(Value()), n) && r == Ir(Value(), n)
      ensures !Fitting(TakeInt(old(Value()), n)) ==> error && Value() == old(Value()) && r == 5
    {
      if n in iregMap {
        return IntPool(iregMap[n]);
      }
      if nextIreg >= INT_POOL {
        error := true;
        return 5;
      }
      r := IntPool(nextIreg);
      iregMap := iregMap[n := nextIreg];
      nextIreg := nextIreg + 1;
    }

    method Freg(n: Name) returns (r: Reg)
      requires Sound(Value()) && Fitting(Value())
      modifies this`fregMap, this`nextFreg, this`error
      ensures Fitting(TakeFloat(old(Value()), n)) ==> error == old(error) && Value() == TakeFloat(old(Value()), n) && r == Fr(Value(), n)
      ensures !Fitting(TakeFloat(old(Value()), n)) ==> error && Value() == old(Value()) && r == 10
    {
      if n in fregMap {
        return FloatPool(fregMap[n]);
      }
      if nextFreg >= FLOAT_POOL {
        error := true;
        return 10;
      }
      r := FloatPool(nextFreg);
      fregMap := fregMap[n := nextFreg];
      nextFreg := nextFreg + 1;
    }

    method ResolveInts(names: seq<Name>)
      requires Sound(Value()) && Fitting(Value()) && !error
      modifies this`iregMap, this`nextIreg, this`error
      ensures !error ==> Value() == TakeInts(old(Value()), names) && Fitting(Value())
      ensures error ==> !Fitting(TakeInts(old(Value()), names))
    {
      hide Sound;
      ghost var start := Value();
      for k := 0 to |names|
        invariant !error && Sound(Value()) && Fitting(Value())
        invariant TakeInts(start, names) == TakeInts(Value(), names[k..])
      {
        ghost var before := Value();
        TakeIntsGrows(before, [names[k]]);
        TakeIntsGrows(TakeInt(before, names[k]), names[k + 1..]);
        assert names[k..][0] == names[k] && names[k..][1..] == names[k + 1..];
        var r := Ireg(names[k]);
        if error {
          return;
        }
      }
      assert names[|names|..] == [];
    }

    method ResolveFloats(names: seq<Name>)
      requires Sound(Value()) && Fitting(Value()) && !error
      modifies this`fregMap, this`nextFreg, this`error
      ensures !error ==> Value() == TakeFloats(old(Value()), names) && Fitting(Value())
      ensures error ==> !Fitting(TakeFloats(old(Value()), names))
    {
      hide Sound;
      ghost var start := Value();
      for k := 0 to |names|
        invariant !error && Sound(Value()) && Fitting(Value())
        invariant TakeFloats(start, names) == TakeFloats(Value(), names[k..])
      {
        ghost var before := Value();
        TakeFloatsGrows(before, [names[k]]);
        TakeFloatsGrows(TakeFloat(before, names[k]), names[k + 1..]);
        assert names[k..][0] == names[k] && names[k..][1..] == names[k + 1..];
        var r := Freg(names[k]);
        if error {
          return;
        }
      }
      assert names[|names|..] == [];
    }

    /** One line: its registers, then its block with branches still open. */
    method EmitInstr(n: Instr)
      requires Sound(Value()) && Fitting(Value()) && !error
      modifies this
      ensures error <==> !Accepted(n) || !Fitting(AllocLine(old(Value()), n))
      ensures !error ==> Value() == AllocLine(old(Value()), n) && out == old(out) + [Lines(Value(), n, 0)]
    {
      hide IntNames, FloatNames, Lines, Sound, TakeInts, TakeFloats;
      if (n.LdParam? && n.index >= 8) || (n.BarSync? && n.id >= 16) || ((n.Ld? || n.St?) && !n.shared && n.base == "") {
        error := true;
        return;
      }
      ghost var before := Value();
      TakeIntsGrows(before, IntNames(n));
      TakeFloatsGrows(TakeInts(before, IntNames(n)), FloatNames(n));
      ResolveInts(IntNames(n));
      if error {
        return;
      }
      ResolveFloats(FloatNames(n));
      if error {
        return;
      }
      out := out + [Lines(Alloc(iregMap, fregMap, nextIreg, nextFreg), n, 0)];
    }

    /** `emit`, and the assembler after it: the whole code, or nothing. */
    method EmitKernel(body: seq<Instr>) returns (r: Emitted)
      modifies this
      ensures r == Emit(body)
    {
      hide Sound, Grows, Has, Lines, AllocLine, Fitting, Accepted, IntNames, FloatNames, Target;
      iregMap, fregMap, nextIreg, nextFreg, error, out := map[], map[], 0, 0, false, [];
      assert Sound(Value()) && Fitting(Value()) by { EmptyIsSound(); }
      AllocationGrows(NO_REGISTERS, body);
      ghost var last := Allocation(body);
      for k := 0 to |body|
        invariant !error && Sound(Value()) && Fitting(Value()) && |out| == k
        invariant last == AllocAll(Value(), body[k..])
        invariant forall j :: 0 <= j < k ==> Accepted(body[j]) && Has(Value(), body[j]) && out[j] == Lines(Value(), body[j], 0)
      {
        ghost var before := Value();
        assert body[k..][0] == body[k] && body[k..][1..] == body[k + 1..];
        LineGrows(before, body[k]);
        AllocationGrows(AllocLine(before, body[k]), body[k + 1..]);
        EmitInstr(body[k]);
        if error {
          StaysTooBig(AllocLine(before, body[k]), last);
          return Failed;
        }
        forall j | 0 <= j < k ensures Has(Value(), body[j]) && out[j] == Lines(Value(), body[j], 0) {
          HasStays(before, Value(), body[j]);
          LinesGrow(before, Value(), body[j], 0);
        }
      }
      assert body[|body|..] == [];
      var a := Alloc(iregMap, fregMap, nextIreg, nextFreg);
      var code := Link(a, body, out);
      return Emitted(code);
    }

    lemma EmptyIsSound()
      ensures Sound(NO_REGISTERS) && Fitting(NO_REGISTERS)
    {
    }

    lemma StaysTooBig(a: Alloc, b: Alloc)
      requires Grows(a, b)
      ensures !Fitting(a) ==> !Fitting(b)
    {
    }
  }
}
