/**
 * The CPU struct of cpu.go as a class: the register file V, the index
 * register I, the program counter, the stack pointer, the 16-entry stack and
 * the cycle counter, updated in place.
 *
 * Step is step of cpu.go for one opcode; it is proved to do exactly what
 * Exec of module Instructions says. The opcode that fetchOpcode would read
 * at PC is a parameter (memory.go is not part of this model), and so are
 * the random byte of CXNN and the System state step reads and writes: the
 * keypad, read only, and the two timers, passed in and returned.
 */
module Cpu {
  import opened Words
  import opened Graphics
  import opened Instructions

  class CPU {
    const V: array<Byte>
    var I: Word
    var PC: Word
    var SP: int
    const Stack: array<Word>
    var cycles: int

    /** The Go arrays have 16 entries, and SP points into the stack or one past it. */
    ghost predicate Valid()
      reads this
    {
      V.Length == 16 && Stack.Length == 16 && 0 <= SP <= 16
    }

    /** The machine an instruction sees: these registers together with memory, framebuffer, keypad and timers. */
    ghost function State(mem: array<Byte>, gfx: Graphics, keys: seq<Byte>, delay: Byte, sound: Byte): Machine
      reads this, V, Stack, mem, gfx, gfx.buffer
    {
      Machine(V[..], I, PC, SP, Stack[..], mem[..], gfx.buffer[..], gfx.dirty, keys, delay, sound)
    }

    /** Memory is an array of its own: neither the register file nor the framebuffer. */
    ghost predicate Apart(mem: array<Byte>, gfx: Graphics)
      reads this, gfx
    {
      mem != V && mem as object != gfx.buffer
    }

    /** The zero value of the struct, before any reset. */
    constructor ()
      ensures Valid() && fresh(V) && fresh(Stack)
      ensures I == 0 && PC == 0 && SP == 0 && cycles == 0
      ensures forall j :: 0 <= j < 16 ==> V[j] == 0 && Stack[j] == 0
    {
      V := new Byte[16](_ => 0);
      Stack := new Word[16](_ => 0);
      I, PC, SP, cycles := 0, 0, 0, 0;
    }

    /** reset: PC at the start address, I, SP and the cycle count zero, the stack and every register cleared. */
    method Reset()
      requires Valid()
      modifies this, V, Stack
      ensures Valid()
      ensures PC == StartAddress && I == 0 && SP == 0 && cycles == 0
      ensures forall j :: 0 <= j < 16 ==> Stack[j] == 0
      ensures forall j :: 0 <= j < 16 ==> V[j] == 0
    {
      PC := StartAddress;
      I := 0;
      SP := 0;
      cycles := 0;
      var k := 0;
      while k < Stack.Length
        modifies Stack
        invariant 0 <= k <= Stack.Length
        invariant forall j :: 0 <= j < k ==> Stack[j] == 0
      {
        Stack[k] := 0;
        k := k + 1;
      }
      k := 0;
      while k < V.Length
        modifies V
        invariant 0 <= k <= V.Length
        invariant forall j :: 0 <= j < k ==> V[j] == 0
        invariant forall j :: 0 <= j < Stack.Length ==> Stack[j] == 0
      {
        V[k] := 0;
        k := k + 1;
      }
    }

    /** Cycle: one step, then one more cycle counted. */
    method Cycle(opc: Word, rnd: Byte, mem: array<Byte>, gfx: Graphics, keys: seq<Byte>, delay: Byte, sound: Byte)
      returns (delay': Byte, sound': Byte)
      requires Valid() && gfx.Valid() && Apart(mem, gfx)
      requires Defined(State(mem, gfx, keys, delay, sound), Decode(opc))
      modifies this, V, Stack, mem, gfx, gfx.buffer
      ensures Valid() && gfx.Valid()
      ensures State(mem, gfx, keys, delay', sound') == Exec(old(State(mem, gfx, keys, delay, sound)), opc, rnd)
      ensures cycles == old(cycles) + 1
    {
      delay', sound' := Step(opc, rnd, mem, gfx, keys, delay, sound);
      cycles := cycles + 1;
    }

    /**
     * step: decode the opcode, run its helper and store the new program
     * counter, PC+2 unless the helper chose another.
     */
    method Step(opc: Word, rnd: Byte, mem: array<Byte>, gfx: Graphics, keys: seq<Byte>, delay: Byte, sound: Byte)
      returns (delay': Byte, sound': Byte)
      requires Valid() && gfx.Valid() && Apart(mem, gfx)
      requires Defined(State(mem, gfx, keys, delay, sound), Decode(opc))
      modifies this, V, Stack, mem, gfx, gfx.buffer
      ensures Valid() && gfx.Valid() && cycles == old(cycles)
      ensures State(mem, gfx, keys, delay', sound') == Exec(old(State(mem, gfx, keys, delay, sound)), opc, rnd)
    {
      var op := Decode(opc);
      var newPC: Word;
      delay', sound' := delay, sound;
      if op.Fx? {
        newPC, delay', sound' := StepFx(op.x, op.g, mem, gfx, keys, delay, sound);
      } else if IsRegister(op) {
        newPC := StepRegisters(op, rnd, mem, gfx, keys, delay, sound);
      } else {
        newPC := StepFlow(op, rnd, mem, gfx, keys, delay, sound);
      }
      PC := newPC;
    }

    /** The control-flow helpers: CLS, RET, the calls and jumps, the skips and unknownOp. */
    method StepFlow(op: Op, rnd: Byte, mem: array<Byte>, gfx: Graphics, keys: seq<Byte>, delay: Byte, sound: Byte)
      returns (newPC: Word)
      requires Valid() && gfx.Valid() && Apart(mem, gfx) && IsFlow(op)
      requires Defined(State(mem, gfx, keys, delay, sound), op)
      modifies this, Stack, gfx, gfx.buffer
      ensures Valid() && gfx.Valid() && cycles == old(cycles)
      ensures State(mem, gfx, keys, delay, sound).(pc := newPC) == Apply(old(State(mem, gfx, keys, delay, sound)), op, rnd)
    {
      newPC := Addr(PC, 2);
      match op
      case Cls =>
        assert V as object != gfx.buffer && Stack as object != gfx.buffer;
        gfx.Clear();
      case Ret =>
        SP := SP - 1;
        newPC := Stack[SP];
      case CallRCA1802(_) =>
      case JpAddr(a) =>
        newPC := a;
      case CallAddr(a) =>
        Stack[SP] := Addr(PC, 2);
        SP := SP + 1;
        newPC := a;
      case SeVxByte(x, nn) =>
        if V[x] == nn { newPC := Addr(PC, 4); }
      case SneVxByte(x, nn) =>
        if V[x] != nn { newPC := Addr(PC, 4); }
      case SeVxVy(x, y) =>
        if V[x] == V[y] { newPC := Addr(PC, 4); }
      case SneVxVy(x, y) =>
        if V[x] != V[y] { newPC := Addr(PC, 4); }
      case JpV0Addr(a) =>
        newPC := Addr(a, V[0]);
      case SkpVx(x) =>
        if keys[V[x]] != 0 { newPC := Addr(PC, 4); }
      case SknpVx(x) =>
        if keys[V[x]] == 0 { newPC := Addr(PC, 4); }
      case Unknown =>
        // unknownOp's own PC += 2, overwritten by step with newPC
        PC := Addr(PC, 2);
    }

    /** The helpers that write registers: 6XNN, 7XNN, the 8XY? family, ANNN, CXNN and DXYN. */
    method StepRegisters(op: Op, rnd: Byte, mem: array<Byte>, gfx: Graphics, keys: seq<Byte>, delay: Byte, sound: Byte)
      returns (newPC: Word)
      requires Valid() && gfx.Valid() && Apart(mem, gfx) && IsRegister(op)
      requires Defined(State(mem, gfx, keys, delay, sound), op)
      modifies this, V, gfx, gfx.buffer
      ensures Valid() && gfx.Valid() && cycles == old(cycles)
      ensures State(mem, gfx, keys, delay, sound).(pc := newPC) == Apply(old(State(mem, gfx, keys, delay, sound)), op, rnd)
    {
      newPC := Addr(PC, 2);
      match op
      case LdVxByte(x, nn) =>
        V[x] := nn;
      case AddVxByte(x, nn) =>
        V[x] := (V[x] as int + nn) % 256;
      case Alu(x, y, f) =>
        StepAlu(x, y, f);
      case LdIAddr(a) =>
        I := a;
      case RndVxByte(x, nn) =>
        V[x] := BitAnd(rnd, nn);
      case DrwVxVyNibble(x, y, n) =>
        assert V as object != gfx.buffer && Stack as object != gfx.buffer;
        var hit := gfx.Draw(mem[..], I, V[x], V[y], n);
        V[Carry] := if hit then 1 else 0;
    }

    /** The 8XY? helpers: each writes VF (if at all) before VX, reading VX and VY as they then are. */
    method StepAlu(x: Nibble, y: Nibble, f: AluOp)
      requires Valid()
      modifies V
      ensures V[..] == AluRegs(old(V[..]), x, y, f)
    {
      match f
      case Ld =>
        V[x] := V[y];
      case Or =>
        V[x] := BitOr(V[x], V[y]);
      case And =>
        V[x] := BitAnd(V[x], V[y]);
      case Xor =>
        V[x] := BitXor(V[x], V[y]);
      case Add =>
        V[Carry] := if V[x] as int > 0xFF - V[y] as int then 1 else 0;
        V[x] := (V[x] as int + V[y]) % 256;
      case Sub =>
        V[Carry] := if V[x] > V[y] then 0 else 1;
        V[x] := (V[x] as int - V[y]) % 256;
      case Shr =>
        V[Carry] := V[x] % 2;
        V[x] := V[x] / 2;
      case Subn =>
        V[Carry] := if V[x] > V[y] then 0 else 1;
        V[x] := (V[y] as int - V[x]) % 256;
      case Shl =>
        V[Carry] := V[x] / 128;
        V[x] := (V[x] as int * 2) % 256;
    }

    /** The FX?? helpers; the timers of System come in as delay and sound and go out as delay' and sound'. */
    method StepFx(x: Nibble, g: FxOp, mem: array<Byte>, gfx: Graphics, keys: seq<Byte>, delay: Byte, sound: Byte)
      returns (newPC: Word, delay': Byte, sound': Byte)
      requires Valid() && gfx.Valid() && Apart(mem, gfx)
      requires Defined(State(mem, gfx, keys, delay, sound), Fx(x, g))
      modifies this, V, mem
      ensures Valid() && cycles == old(cycles)
      ensures State(mem, gfx, keys, delay', sound').(pc := newPC) == ApplyFx(old(State(mem, gfx, keys, delay, sound)), x, g)
    {
      newPC := Addr(PC, 2);
      delay', sound' := delay, sound;
      match g
      case LdVxDT =>
        V[x] := delay;
      case LdVxK =>
        var k := AwaitKey(keys);
        if k < 16 {
          V[x] := k;
        } else {
          newPC := PC;
        }
      case LdDTVx =>
        delay' := V[x];
      case LdSTVx =>
        sound' := V[x];
      case AddIVx =>
        var a := Addr(I, V[x]);
        V[Carry] := if a > 0x0FFF then 1 else 0;
        I := a;
      case LdFVx =>
        I := V[x] as int * 5;
      case LdBVx =>
        var b := V[x];
        mem[Addr(I, 0)] := b / 100;
        mem[Addr(I, 1)] := (b / 10) % 10;
        mem[Addr(I, 2)] := b % 10;
      case LdIVx =>
        StoreRegisters(mem, x);
      case LdVxI =>
        LoadRegisters(mem, x);
    }

    /** FX55: V0..VX stored at I, I+1, ..., I+X. */
    method StoreRegisters(mem: array<Byte>, x: Nibble)
      requires Valid() && mem != V && InMemory(mem.Length, I, x + 1)
      modifies mem
      ensures mem[..] == Spill(old(mem[..]), V[..], I, x + 1)
    {
      var k := 0;
      while k <= x
        invariant 0 <= k <= x + 1
        invariant mem[..] == Spill(old(mem[..]), V[..], I, k)
      {
        mem[Addr(I, k)] := V[k];
        k := k + 1;
      }
    }

    /** FX65: V0..VX loaded from I, I+1, ..., I+X. */
    method LoadRegisters(mem: array<Byte>, x: Nibble)
      requires Valid() && mem != V && InMemory(mem.Length, I, x + 1)
      modifies V
      ensures V[..] == Fill(old(V[..]), mem[..], I, x + 1)
    {
      var k := 0;
      while k <= x
        invariant 0 <= k <= x + 1
        invariant V[..] == Fill(old(V[..]), mem[..], I, k)
      {
        V[k] := mem[Addr(I, k)];
        k := k + 1;
      }
    }
  }

  /** The operations StepFlow runs. */
  predicate IsFlow(op: Op)
  {
    op.Cls? || op.Ret? || op.CallRCA1802? || op.JpAddr? || op.CallAddr? || op.SeVxByte? || op.SneVxByte? ||
    op.SeVxVy? || op.SneVxVy? || op.JpV0Addr? || op.SkpVx? || op.SknpVx? || op.Unknown?
  }

  /** The operations StepRegisters runs. */
  predicate IsRegister(op: Op)
  {
    op.LdVxByte? || op.AddVxByte? || op.Alu? || op.LdIAddr? || op.RndVxByte? || op.DrwVxVyNibble?
  }

  /** The key loop of ldVxK: the index of the first pressed key, 16 when none is down. */
  method AwaitKey(keys: seq<Byte>) returns (k: int)
    requires |keys| == 16
    ensures k == FirstKey(keys, 0)
  {
    k := 0;
    while k < 16 && keys[k] == 0
      invariant 0 <= k <= 16
      invariant FirstKey(keys, k) == FirstKey(keys, 0)
    {
      k := k + 1;
    }
  }
}
