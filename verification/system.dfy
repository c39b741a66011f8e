/**
 * The System struct of system.go: it owns the CPU, the memory, the
 * framebuffer, the 16-key keypad and the delay and sound timers.
 *
 * The opcode at PC and the random byte of CXNN are parameters of Cycle
 * (memory.go is not part of this model), and the beep of UpdateTimer is
 * returned as a flag instead of being printed.
 */
module Chip8System {
  import opened Words
  import opened Graphics
  import opened Instructions
  import opened Cpu

  /** One timer tick: a nonzero timer counts down by one, a zero timer stays at zero. */
  function Countdown(t: Byte): (r: Byte)
    ensures t == 0 ==> r == 0
    ensures t > 0 ==> r as int == t as int - 1
  {
    if t > 0 then t - 1 else t
  }

  /** The beeps of k successive UpdateTimer calls, starting from sound timer s. */
  function Beeps(s: Byte, k: nat): (r: seq<bool>)
    ensures |r| == k
    decreases k
  {
    if k == 0 then [] else [s == 1] + Beeps(Countdown(s), k - 1)
  }

  /** A sound timer at zero stays silent. */
  lemma {:induction false} SilentAtZero(k: nat)
    ensures forall j :: 0 <= j < k ==> !Beeps(0, k)[j]
  {
    if k > 0 {
      SilentAtZero(k - 1);
      assert Beeps(0, k) == [false] + Beeps(0, k - 1);
    }
  }

  /**
   * From a sound timer of n > 0, any k >= n ticks beep exactly once: on
   * tick n, the one that takes the timer from 1 to 0.
   */
  lemma {:induction false} OneBeep(n: Byte, k: nat)
    requires 0 < n <= k
    ensures Beeps(n, k)[n - 1]
    ensures forall j :: 0 <= j < k && j != n - 1 ==> !Beeps(n, k)[j]
  {
    var rest := Beeps(Countdown(n), k - 1);
    assert Beeps(n, k) == [n == 1] + rest;
    if n == 1 {
      SilentAtZero(k - 1);
    } else {
      OneBeep(n - 1, k - 1);
    }
  }

  class System {
    const cpu: CPU
    const mem: array<Byte>
    const gfx: Graphics
    const keys: array<Byte>
    var delayTimer: Byte
    var soundTimer: Byte

    /** The parts have their Go sizes and no two of them share an array. */
    ghost predicate Valid()
      reads this, cpu, gfx
    {
      cpu.Valid() && gfx.Valid() && keys.Length == 16 && cpu.Apart(mem, gfx) &&
      keys != mem && keys != cpu.V && keys as object != cpu.Stack && keys as object != gfx.buffer
    }

    /** The whole machine state one instruction works on. */
    ghost function Machine(): Machine
      reads this, cpu, cpu.V, cpu.Stack, mem, gfx, gfx.buffer, keys
    {
      cpu.State(mem, gfx, keys[..], delayTimer, soundTimer)
    }

    /** A system whose memory has `size` bytes, every part at its zero value. */
    constructor (size: nat)
      ensures Valid() && fresh(cpu) && fresh(cpu.V) && fresh(cpu.Stack) && fresh(mem) && fresh(gfx) && fresh(gfx.buffer) && fresh(keys)
      ensures mem.Length == size && cpu.cycles == 0
      ensures Machine() == Instructions.Machine(seq(16, _ => 0), 0, 0, 0, seq(16, _ => 0), seq(size, _ => 0),
                                                Blank(), false, seq(16, _ => 0), 0, 0)
    {
      cpu := new CPU();
      mem := new Byte[size](_ => 0);
      gfx := new Graphics();
      keys := new Byte[16](_ => 0);
      delayTimer, soundTimer := 0, 0;
    }

    /**
     * Initialize: the CPU is reset, the framebuffer cleared (and so dirty),
     * every key released and both timers zero. Memory may change: what its
     * clear leaves there is not part of this model.
     */
    method Initialize()
      requires Valid()
      modifies this, cpu, cpu.V, cpu.Stack, mem, gfx, gfx.buffer, keys
      ensures Valid()
      ensures cpu.PC == StartAddress && cpu.I == 0 && cpu.SP == 0 && cpu.cycles == 0
      ensures forall j :: 0 <= j < 16 ==> cpu.V[j] == 0 && cpu.Stack[j] == 0
      ensures gfx.buffer[..] == Blank() && gfx.dirty
      ensures forall j :: 0 <= j < 16 ==> keys[j] == 0
      ensures delayTimer == 0 && soundTimer == 0
    {
      cpu.Reset();
      gfx.Clear();
      var k := 0;
      while k < keys.Length
        modifies keys
        invariant 0 <= k <= keys.Length
        invariant forall j :: 0 <= j < k ==> keys[j] == 0
      {
        keys[k] := 0;
        k := k + 1;
      }
      delayTimer := 0;
      soundTimer := 0;
    }

    /** Cycle: one CPU cycle on this system's memory, framebuffer, keypad and timers. */
    method Cycle(opc: Word, rnd: Byte)
      requires Valid() && Defined(Machine(), Decode(opc))
      modifies this, cpu, cpu.V, cpu.Stack, mem, gfx, gfx.buffer
      ensures Valid()
      ensures Machine() == Exec(old(Machine()), opc, rnd)
      ensures cpu.cycles == old(cpu.cycles) + 1
    {
      delayTimer, soundTimer := cpu.Cycle(opc, rnd, mem, gfx, keys[..], delayTimer, soundTimer);
    }

    /** UpdateTimer: both timers tick; the beep sounds on the tick that takes the sound timer from 1 to 0. */
    method UpdateTimer() returns (beep: bool)
      requires Valid()
      modifies this
      ensures Valid()
      ensures delayTimer == Countdown(old(delayTimer)) && soundTimer == Countdown(old(soundTimer))
      ensures beep <==> old(soundTimer) == 1
      ensures beep == Beeps(old(soundTimer), 1)[0]
    {
      if delayTimer > 0 {
        delayTimer := delayTimer - 1;
      }
      beep := false;
      if soundTimer > 0 {
        soundTimer := soundTimer - 1;
        if soundTimer == 0 {
          beep := true;
        }
      }
    }

    /** GetPixel: the masked pixel bit of the framebuffer. */
    function GetPixel(x: Byte, y: Byte): (p: bv8)
      requires gfx.Valid() && x as int / 8 + y as int * WidthBytes < BufferSize
      reads this, gfx, gfx.buffer
      ensures p == 0 <==> (gfx.buffer[x as int / 8 + y as int * WidthBytes] >> (7 - Shift(x))) & 1 == 0
    {
      gfx.GetPixel(x, y)
    }

    /** IsDirty: the framebuffer's dirty flag. */
    function IsDirty(): (d: bool)
      reads this, gfx
      ensures d <==> gfx.dirty
    {
      gfx.IsDirty()
    }

    /** SetDirty: sets the dirty flag and nothing else, so IsDirty returns d until the next clear or draw. */
    method SetDirty(d: bool)
      requires Valid()
      modifies gfx
      ensures Valid() && IsDirty() == d
      ensures gfx.buffer[..] == old(gfx.buffer[..])
    {
      gfx.SetDirty(d);
    }

    /** OnKeyDown: key k is pressed; no other key changes. */
    method OnKeyDown(k: int)
      requires Valid() && 0 <= k < 16
      modifies keys
      ensures Valid() && keys[..] == old(keys[..])[k := 1]
    {
      keys[k] := 1;
    }

    /** OnKeyUp: key k is released; no other key changes. */
    method OnKeyUp(k: int)
      requires Valid() && 0 <= k < 16
      modifies keys
      ensures Valid() && keys[..] == old(keys[..])[k := 0]
    {
      keys[k] := 0;
    }
  }
}
