/**
 * The instruction set of cpu.go as pure functions on a machine value.
 *
 * Decode mirrors the nested switch of `step` (cpu.go:56-201) and yields an
 * Op; Apply gives the state after one instruction, with the program counter
 * already set to the value `step` stores at its end (cpu.go:200). Exec is the
 * two together. Class CPU in cpu.dfy is proved to do exactly Exec.
 *
 * Go's uint8 and uint16 are the bounded integers Byte and Word of module
 * Words; every wrap-around of the Go arithmetic is written out.
 */
module Instructions {
  import opened Words
  import opened Graphics

  /** RegCarry: VF. */
  const Carry := 0xF
  /** StartAddress: where reset puts the program counter. */
  const StartAddress: Word := 0x200

  /** The 12-bit address field NNN of an opcode. */
  type Imm12 = a: int | 0 <= a < 0x1000

  /** The sub-opcodes of the 8XY? family. */
  datatype AluOp = Ld | Or | And | Xor | Add | Sub | Shr | Subn | Shl

  /** The sub-opcodes of the FX?? family. */
  datatype FxOp = LdVxDT | LdVxK | LdDTVx | LdSTVx | AddIVx | LdFVx | LdBVx | LdIVx | LdVxI

  /** A decoded opcode, one constructor per helper of cpu.go. */
  datatype Op =
    | Cls
    | Ret
    | CallRCA1802(nnn: Imm12)
    | JpAddr(nnn: Imm12)
    | CallAddr(nnn: Imm12)
    | SeVxByte(x: Nibble, nn: Byte)
    | SneVxByte(x: Nibble, nn: Byte)
    | SeVxVy(x: Nibble, y: Nibble)
    | LdVxByte(x: Nibble, nn: Byte)
    | AddVxByte(x: Nibble, nn: Byte)
    | Alu(x: Nibble, y: Nibble, f: AluOp)
    | SneVxVy(x: Nibble, y: Nibble)
    | LdIAddr(nnn: Imm12)
    | JpV0Addr(nnn: Imm12)
    | RndVxByte(x: Nibble, nn: Byte)
    | DrwVxVyNibble(x: Nibble, y: Nibble, n: Nibble)
    | SkpVx(x: Nibble)
    | SknpVx(x: Nibble)
    | Fx(x: Nibble, g: FxOp)
    | Unknown

  /** An opcode as its four nibbles 0xfxyn, most significant first. */
  datatype Opcode = Opcode(f: Nibble, x: Nibble, y: Nibble, n: Nibble)

  /** The opcode 0xfxyn. */
  function Join(c: Opcode): (opc: Word)
    ensures opc / 0x1000 == c.f && opc % 0x1000 == 0x100 * c.x + 0x10 * c.y + c.n
  {
    var nnn := 0x100 * c.x + 0x10 * c.y + c.n;
    Quotient(0x1000, c.f, nnn);
    0x1000 * c.f + nnn
  }

  /**
   * The fields step reads: the family is `opc & 0xF000`, X is
   * `(opc & 0x0F00) >> 8`, Y is `(opc & 0x00F0) >> 4` and N is
   * `opc & 0x000F`, written as divisions and remainders by powers of two.
   * NN (`opc & 0x00FF`) and NNN (`opc & 0x0FFF`) are the low two and three
   * nibbles.
   */
  function Split(opc: Word): (c: Opcode)
    ensures Join(c) == opc
    ensures opc % 0x100 == 0x10 * c.y + c.n && opc % 0x1000 == 0x100 * c.x + 0x10 * c.y + c.n
  {
    var nnn := opc % 0x1000;
    var nn := nnn % 0x100;
    Opcode(opc / 0x1000, nnn / 0x100, nn / 0x10, nn % 0x10)
  }

  /** Split reads back every nibble Join puts in. */
  lemma SplitJoin(c: Opcode)
    ensures Split(Join(c)) == c
  {
    var nn := 0x10 * c.y + c.n;
    Quotient(0x100, c.x, nn);
    Quotient(0x10, c.y, c.n);
  }

  /** Division with remainder by a positive d. */
  lemma Quotient(d: int, q: int, r: int)
    requires 0 < d && 0 <= r < d
    ensures (d * q + r) / d == q && (d * q + r) % d == r
  {
    var a := d * q + r;
    var k := a / d - q;
    assert d * k == r - a % d by {
      assert d * k == d * (a / d) - d * q;
    }
    MultipleBound(d, k);
  }

  /** A nonzero multiple of d is at least d away from 0. */
  lemma MultipleBound(d: int, k: int)
    requires 0 < d
    ensures k >= 1 ==> d * k >= d
    ensures k <= -1 ==> d * k <= -d
  {
    if k >= 1 {
      assert d * k == d + d * (k - 1);
    } else if k <= -1 {
      assert d * k == -d + d * (k + 1);
    }
  }

  /** The opcode dispatch of step. */
  function Decode(opc: Word): Op
  {
    DecodeNibbles(Split(opc))
  }

  /** The switch of step on the nibbles of the opcode. */
  function DecodeNibbles(c: Opcode): Op
  {
    var Opcode(f, x, y, n) := c;
    var nn: Byte := 0x10 * y + n;
    var nnn: Imm12 := 0x100 * x + nn;
    if f == 0x0 then
      if nnn == 0x0E0 then Cls
      else if nnn == 0x0EE then Ret
      else CallRCA1802(nnn)
    else if f == 0x1 then JpAddr(nnn)
    else if f == 0x2 then CallAddr(nnn)
    else if f == 0x3 then SeVxByte(x, nn)
    else if f == 0x4 then SneVxByte(x, nn)
    else if f == 0x5 then SeVxVy(x, y)
    else if f == 0x6 then LdVxByte(x, nn)
    else if f == 0x7 then AddVxByte(x, nn)
    else if f == 0x8 then DecodeAlu(x, y, n)
    else if f == 0x9 then SneVxVy(x, y)
    else if f == 0xA then LdIAddr(nnn)
    else if f == 0xB then JpV0Addr(nnn)
    else if f == 0xC then RndVxByte(x, nn)
    else if f == 0xD then DrwVxVyNibble(x, y, n)
    else if f == 0xE then
      if nn == 0x9E then SkpVx(x)
      else if nn == 0xA1 then SknpVx(x)
      else Unknown
    else DecodeFx(x, nn)
  }

  /** The low nibble of an 8XY? opcode selects the operation; 8XY8-8XYD and 8XYF are unknown. */
  function DecodeAlu(x: Nibble, y: Nibble, k: Nibble): Op
  {
    if k == 0x0 then Alu(x, y, Ld)
    else if k == 0x1 then Alu(x, y, Or)
    else if k == 0x2 then Alu(x, y, And)
    else if k == 0x3 then Alu(x, y, Xor)
    else if k == 0x4 then Alu(x, y, Add)
    else if k == 0x5 then Alu(x, y, Sub)
    else if k == 0x6 then Alu(x, y, Shr)
    else if k == 0x7 then Alu(x, y, Subn)
    else if k == 0xE then Alu(x, y, Shl)
    else Unknown
  }

  /** The low byte of an FX?? opcode selects the operation. */
  function DecodeFx(x: Nibble, k: Byte): Op
  {
    if k == 0x07 then Fx(x, LdVxDT)
    else if k == 0x0A then Fx(x, LdVxK)
    else if k == 0x15 then Fx(x, LdDTVx)
    else if k == 0x18 then Fx(x, LdSTVx)
    else if k == 0x1E then Fx(x, AddIVx)
    else if k == 0x29 then Fx(x, LdFVx)
    else if k == 0x33 then Fx(x, LdBVx)
    else if k == 0x55 then Fx(x, LdIVx)
    else if k == 0x65 then Fx(x, LdVxI)
    else Unknown
  }

  /**
   * The opcodes no case of step recognises: 8XY8-8XYD and 8XYF, EX?? other
   * than EX9E/EXA1, and FX?? other than the nine F sub-codes.
   */
  predicate Unrecognised(opc: Word)
  {
    var family, k, n := opc / 0x1000, opc % 0x100, opc % 0x10;
    (family == 0x8 && 0x8 <= n && n != 0xE) ||
    (family == 0xE && k != 0x9E && k != 0xA1) ||
    (family == 0xF && k != 0x07 && k != 0x0A && k != 0x15 && k != 0x18 &&
     k != 0x1E && k != 0x29 && k != 0x33 && k != 0x55 && k != 0x65)
  }

  /** The decoder falls through to unknownOp exactly on the unrecognised opcodes. */
  lemma DecodeUnknownIff(opc: Word)
    ensures Decode(opc) == Unknown <==> Unrecognised(opc)
  {
    var c := Split(opc);
    assert opc / 0x1000 == c.f && opc % 0x100 == 0x10 * c.y + c.n && opc % 0x10 == c.n;
  }

  /** The sub-code of each 8XY? operation. */
  function AluCode(f: AluOp): (k: Nibble)
    ensures DecodeAlu(0, 0, k) == Alu(0, 0, f)
  {
    match f
    case Ld => 0x0
    case Or => 0x1
    case And => 0x2
    case Xor => 0x3
    case Add => 0x4
    case Sub => 0x5
    case Shr => 0x6
    case Subn => 0x7
    case Shl => 0xE
  }

  /** The sub-code of each FX?? operation. */
  function FxCode(g: FxOp): (k: Byte)
    ensures DecodeFx(0, k) == Fx(0, g)
  {
    match g
    case LdVxDT => 0x07
    case LdVxK => 0x0A
    case LdDTVx => 0x15
    case LdSTVx => 0x18
    case AddIVx => 0x1E
    case LdFVx => 0x29
    case LdBVx => 0x33
    case LdIVx => 0x55
    case LdVxI => 0x65
  }

  /**
   * The operations that have an opcode: all but Unknown, and a 0NNN call
   * whose NNN is not 0E0 or 0EE (those two are CLS and RET).
   */
  predicate Encodable(op: Op)
  {
    match op
    case Unknown => false
    case CallRCA1802(a) => a != 0x0E0 && a != 0x0EE
    case _ => true
  }

  /** The opcode table read the other way: the nibbles of each operation (N = 0 for 5XY0 and 9XY0). */
  function Layout(op: Op): Opcode
    requires Encodable(op)
  {
    match op
    case Cls => Opcode(0, 0, 0xE, 0)
    case Ret => Opcode(0, 0, 0xE, 0xE)
    case CallRCA1802(a) => Opcode(0, a / 0x100, (a / 0x10) % 16, a % 16)
    case JpAddr(a) => Opcode(1, a / 0x100, (a / 0x10) % 16, a % 16)
    case CallAddr(a) => Opcode(2, a / 0x100, (a / 0x10) % 16, a % 16)
    case SeVxByte(x, nn) => Opcode(3, x, nn / 16, nn % 16)
    case SneVxByte(x, nn) => Opcode(4, x, nn / 16, nn % 16)
    case SeVxVy(x, y) => Opcode(5, x, y, 0)
    case LdVxByte(x, nn) => Opcode(6, x, nn / 16, nn % 16)
    case AddVxByte(x, nn) => Opcode(7, x, nn / 16, nn % 16)
    case Alu(x, y, f) => Opcode(8, x, y, AluCode(f))
    case SneVxVy(x, y) => Opcode(9, x, y, 0)
    case LdIAddr(a) => Opcode(0xA, a / 0x100, (a / 0x10) % 16, a % 16)
    case JpV0Addr(a) => Opcode(0xB, a / 0x100, (a / 0x10) % 16, a % 16)
    case RndVxByte(x, nn) => Opcode(0xC, x, nn / 16, nn % 16)
    case DrwVxVyNibble(x, y, n) => Opcode(0xD, x, y, n)
    case SkpVx(x) => Opcode(0xE, x, 9, 0xE)
    case SknpVx(x) => Opcode(0xE, x, 0xA, 1)
    case Fx(x, g) => Opcode(0xF, x, FxCode(g) / 16, FxCode(g) % 16)
  }

  /** The canonical opcode of an operation. */
  function Encode(op: Op): Word
    requires Encodable(op)
  {
    Join(Layout(op))
  }

  /** The switch of step takes the nibbles of each operation back to that operation. */
  lemma DecodeLayout(op: Op)
    requires Encodable(op)
    ensures DecodeNibbles(Layout(op)) == op
  {
    if op.CallRCA1802? || op.JpAddr? || op.CallAddr? || op.LdIAddr? || op.JpV0Addr? {
      DecodeLayoutAddress(op);
    } else if op.SeVxByte? || op.SneVxByte? || op.LdVxByte? || op.AddVxByte? || op.RndVxByte? {
      DecodeLayoutByte(op);
    }
  }

  /** DecodeLayout for the operations with a 12-bit address. */
  lemma DecodeLayoutAddress(op: Op)
    requires Encodable(op) && (op.CallRCA1802? || op.JpAddr? || op.CallAddr? || op.LdIAddr? || op.JpV0Addr?)
    ensures DecodeNibbles(Layout(op)) == op
  {
    AddressNibbles(op.nnn);
  }

  /** DecodeLayout for the operations with a register and an immediate byte. */
  lemma DecodeLayoutByte(op: Op)
    requires op.SeVxByte? || op.SneVxByte? || op.LdVxByte? || op.AddVxByte? || op.RndVxByte?
    ensures DecodeNibbles(Layout(op)) == op
  {
  }

  /** A 12-bit address is its three nibbles. */
  lemma AddressNibbles(a: Imm12)
    ensures a / 0x100 < 16 && a == 0x100 * (a / 0x100) + 0x10 * ((a / 0x10) % 16) + a % 16
  {
  }

  /**
   * The nibbles of a recognised opcode are those of its operation, but for
   * the low nibble of 5XY? and 9XY?, which step ignores.
   */
  lemma LayoutDecode(c: Opcode)
    requires DecodeNibbles(c) != Unknown
    ensures Encodable(DecodeNibbles(c))
    ensures Layout(DecodeNibbles(c)) == if c.f == 0x5 || c.f == 0x9 then c.(n := 0) else c
  {
    if c.f in {0x0, 0x1, 0x2, 0xA, 0xB} {
      LayoutDecodeAddress(c);
    } else if c.f in {0x3, 0x4, 0x6, 0x7, 0xC} {
      LayoutDecodeByte(c);
    } else if c.f == 0x8 {
      LayoutDecodeAlu(c);
    } else if c.f == 0xF {
      LayoutDecodeFx(c);
    }
  }

  /** LayoutDecode for the families with a 12-bit address. */
  lemma LayoutDecodeAddress(c: Opcode)
    requires DecodeNibbles(c) != Unknown && c.f in {0x0, 0x1, 0x2, 0xA, 0xB}
    ensures Encodable(DecodeNibbles(c)) && Layout(DecodeNibbles(c)) == c
  {
    Quotient(0x100, c.x, 0x10 * c.y + c.n);
    Quotient(0x10, 0x10 * c.x + c.y, c.n);
    Quotient(16, c.x, c.y);
  }

  /** LayoutDecode for the families with a register and an immediate byte. */
  lemma LayoutDecodeByte(c: Opcode)
    requires c.f in {0x3, 0x4, 0x6, 0x7, 0xC}
    ensures Encodable(DecodeNibbles(c)) && Layout(DecodeNibbles(c)) == c
  {
    Quotient(16, c.y, c.n);
  }

  /** LayoutDecode for the 8XY? family. */
  lemma LayoutDecodeAlu(c: Opcode)
    requires DecodeNibbles(c) != Unknown && c.f == 0x8
    ensures Encodable(DecodeNibbles(c)) && Layout(DecodeNibbles(c)) == c
  {
  }

  /** LayoutDecode for the FX?? family. */
  lemma LayoutDecodeFx(c: Opcode)
    requires DecodeNibbles(c) != Unknown && c.f == 0xF
    ensures Encodable(DecodeNibbles(c)) && Layout(DecodeNibbles(c)) == c
  {
    Quotient(16, c.y, c.n);
  }

  /** Every operation the decoder can produce is decoded back from its opcode. */
  lemma DecodeEncode(op: Op)
    requires Encodable(op)
    ensures Decode(Encode(op)) == op
  {
    SplitJoin(Layout(op));
    DecodeLayout(op);
  }

  /**
   * Decoding loses nothing but the ignored low nibble of 5XY? and 9XY?: a
   * recognised opcode is the opcode of its operation, up to that nibble.
   */
  lemma EncodeDecode(opc: Word)
    requires Decode(opc) != Unknown
    ensures Encodable(Decode(opc))
    ensures Encode(Decode(opc)) == if opc / 0x1000 == 0x5 || opc / 0x1000 == 0x9 then opc - opc % 0x10 else opc
  {
    var c := Split(opc);
    LayoutDecode(c);
    if c.f == 0x5 || c.f == 0x9 {
      assert Join(c.(n := 0)) == opc - c.n;
    }
  }

  /**
   * The state one instruction sees and changes: the CPU registers and stack,
   * memory, the framebuffer and its dirty flag, the keypad and both timers.
   */
  datatype Machine = Machine(
    v: seq<Byte>, i: Word, pc: Word, sp: int, stack: seq<Word>,
    mem: seq<Byte>, screen: seq<bv8>, dirty: bool,
    keys: seq<Byte>, delay: Byte, sound: Byte)

  /** The fixed sizes of the Go arrays, and a stack pointer no further than one past the stack. */
  predicate WellFormed(m: Machine)
  {
    |m.v| == 16 && |m.stack| == 16 && |m.screen| == BufferSize && |m.keys| == 16 && 0 <= m.sp <= 16
  }

  /**
   * The instruction runs without a Go runtime panic: the stack neither
   * overflows nor underflows, the keypad index VX is a key, and every
   * memory and framebuffer index is in range.
   */
  predicate Defined(m: Machine, op: Op)
  {
    WellFormed(m) &&
    match op
    case Ret => 0 < m.sp
    case CallAddr(_) => m.sp < 16
    case DrwVxVyNibble(x, y, n) => Fits(m.v[x], m.v[y], n) && InMemory(|m.mem|, m.i, n)
    case SkpVx(x) => m.v[x] < 16
    case SknpVx(x) => m.v[x] < 16
    case Fx(x, g) =>
      (g == LdBVx ==> InMemory(|m.mem|, m.i, 3)) &&
      (g == LdIVx || g == LdVxI ==> InMemory(|m.mem|, m.i, x + 1))
    case _ => true
  }

  /**
   * The 8XY? operations on the register file, VF written before VX as in
   * cpu.go. Go's uint8 `-`, `+`, `<<` wrap, hence the `% 256`; `>> 1`,
   * `& 0x01` and `>> 7` are `/ 2`, `% 2` and `/ 128`.
   */
  function AluRegs(v: seq<Byte>, x: Nibble, y: Nibble, f: AluOp): (r: seq<Byte>)
    requires |v| == 16
    ensures |r| == 16
  {
    match f
    case Ld => v[x := v[y]]
    case Or => v[x := BitOr(v[x], v[y])]
    case And => v[x := BitAnd(v[x], v[y])]
    case Xor => v[x := BitXor(v[x], v[y])]
    case Add =>
      var w := v[Carry := if v[x] as int > 0xFF - v[y] as int then 1 else 0];
      w[x := (w[x] as int + w[y]) % 256]
    case Sub =>
      var w := v[Carry := if v[x] > v[y] then 0 else 1];
      w[x := (w[x] as int - w[y]) % 256]
    case Shr =>
      var w := v[Carry := v[x] % 2];
      w[x := w[x] / 2]
    case Subn =>
      var w := v[Carry := if v[x] > v[y] then 0 else 1];
      w[x := (w[y] as int - w[x]) % 256]
    case Shl =>
      var w := v[Carry := v[x] / 128];
      w[x := (w[x] as int * 2) % 256]
  }

  /** The index of the first pressed key at or after k, or 16 when there is none. */
  function FirstKey(keys: seq<Byte>, k: nat): (r: nat)
    requires |keys| == 16 && k <= 16
    ensures k <= r <= 16
    decreases 16 - k
  {
    if k == 16 then 16
    else if keys[k] != 0 then k
    else FirstKey(keys, k + 1)
  }

  /** FX55: V0..V(n-1) stored at I, I+1, ... in that order. */
  function Spill(mem: seq<Byte>, v: seq<Byte>, i: Word, n: int): (r: seq<Byte>)
    requires |v| == 16 && 0 <= n <= 16 && InMemory(|mem|, i, n)
    ensures |r| == |mem|
  {
    if n == 0 then mem
    else Spill(mem, v, i, n - 1)[Addr(i, n - 1) := v[n - 1]]
  }

  /** FX65: V0..V(n-1) loaded from I, I+1, ... in that order. */
  function Fill(v: seq<Byte>, mem: seq<Byte>, i: Word, n: int): (r: seq<Byte>)
    requires |v| == 16 && 0 <= n <= 16 && InMemory(|mem|, i, n)
    ensures |r| == 16
  {
    if n == 0 then v
    else Fill(v, mem, i, n - 1)[n - 1 := mem[Addr(i, n - 1)]]
  }

  /** FX33: the decimal digits of b at I, I+1 and I+2. */
  function Bcd(mem: seq<Byte>, i: Word, b: Byte): (r: seq<Byte>)
    requires InMemory(|mem|, i, 3)
    ensures |r| == |mem|
  {
    mem[Addr(i, 0) := b / 100][Addr(i, 1) := (b / 10) % 10][Addr(i, 2) := b % 10]
  }

  /**
   * The machine after executing op; rnd is the byte CXNN draws from the
   * random source. The program counter is the `newPC` of step, computed in
   * uint16 arithmetic: Addr(pc, 2) is PC+2.
   */
  function Apply(m: Machine, op: Op, rnd: Byte): Machine
    requires Defined(m, op)
  {
    var next := Addr(m.pc, 2);
    match op
    case Cls => m.(screen := Blank(), dirty := true, pc := next)
    case Ret => m.(sp := m.sp - 1, pc := m.stack[m.sp - 1])
    case CallRCA1802(_) => m.(pc := next)
    case JpAddr(a) => m.(pc := a)
    case CallAddr(a) => m.(stack := m.stack[m.sp := next], sp := m.sp + 1, pc := a)
    case SeVxByte(x, nn) => m.(pc := if m.v[x] == nn then Addr(m.pc, 4) else next)
    case SneVxByte(x, nn) => m.(pc := if m.v[x] != nn then Addr(m.pc, 4) else next)
    case SeVxVy(x, y) => m.(pc := if m.v[x] == m.v[y] then Addr(m.pc, 4) else next)
    case LdVxByte(x, nn) => m.(v := m.v[x := nn], pc := next)
    case AddVxByte(x, nn) => m.(v := m.v[x := (m.v[x] as int + nn) % 256], pc := next)
    case Alu(x, y, f) => m.(v := AluRegs(m.v, x, y, f), pc := next)
    case SneVxVy(x, y) => m.(pc := if m.v[x] != m.v[y] then Addr(m.pc, 4) else next)
    case LdIAddr(a) => m.(i := a, pc := next)
    case JpV0Addr(a) => m.(pc := Addr(a, m.v[0]))
    case RndVxByte(x, nn) => m.(v := m.v[x := BitAnd(rnd, nn)], pc := next)
    case DrwVxVyNibble(x, y, n) =>
      var hit := Collides(m.screen, m.mem, m.i, m.v[x], m.v[y], n);
      m.(screen := Blit(m.screen, m.mem, m.i, m.v[x], m.v[y], n), dirty := true,
         v := m.v[Carry := if hit then 1 else 0], pc := next)
    case SkpVx(x) => m.(pc := if m.keys[m.v[x]] != 0 then Addr(m.pc, 4) else next)
    case SknpVx(x) => m.(pc := if m.keys[m.v[x]] == 0 then Addr(m.pc, 4) else next)
    case Fx(x, g) => ApplyFx(m, x, g)
    case Unknown => m.(pc := next)
  }

  /** The FX?? operations; FX0A with no key down leaves PC (and everything else) as it was. */
  function ApplyFx(m: Machine, x: Nibble, g: FxOp): Machine
    requires Defined(m, Fx(x, g))
  {
    var next := Addr(m.pc, 2);
    match g
    case LdVxDT => m.(v := m.v[x := m.delay], pc := next)
    case LdVxK =>
      var k := FirstKey(m.keys, 0);
      if k < 16 then m.(v := m.v[x := k], pc := next) else m
    case LdDTVx => m.(delay := m.v[x], pc := next)
    case LdSTVx => m.(sound := m.v[x], pc := next)
    case AddIVx =>
      var a := Addr(m.i, m.v[x]);
      m.(v := m.v[Carry := if a > 0x0FFF then 1 else 0], i := a, pc := next)
    case LdFVx => m.(i := m.v[x] as int * 5, pc := next)
    case LdBVx => m.(mem := Bcd(m.mem, m.i, m.v[x]), pc := next)
    case LdIVx => m.(mem := Spill(m.mem, m.v, m.i, x + 1), pc := next)
    case LdVxI => m.(v := Fill(m.v, m.mem, m.i, x + 1), pc := next)
  }

  /** One step: decode the opcode, then apply it. */
  function Exec(m: Machine, opc: Word, rnd: Byte): Machine
    requires Defined(m, Decode(opc))
  {
    Apply(m, Decode(opc), rnd)
  }

  // ---------------------------------------------------------------------
  // Properties of single instructions
  // ---------------------------------------------------------------------

  /** Opcodes that only move the program counter on: 0NNN other than 00E0/00EE, and the unrecognised ones. */
  predicate Inert(opc: Word)
  {
    Unrecognised(opc) || (opc / 0x1000 == 0 && opc != 0x00E0 && opc != 0x00EE)
  }

  /** unknownOp's own `PC += 2` is overwritten by newPC: the net effect is PC+2 and nothing else. */
  lemma InertOnlyAdvances(m: Machine, opc: Word, rnd: Byte)
    requires WellFormed(m) && Inert(opc)
    ensures Defined(m, Decode(opc))
    ensures Exec(m, opc, rnd) == m.(pc := Addr(m.pc, 2))
  {
    DecodeUnknownIff(opc);
  }

  /** 1NNN jumps to NNN whatever the previous program counter. */
  lemma JumpIsAbsolute(m: Machine, opc: Word, rnd: Byte)
    requires WellFormed(m) && opc / 0x1000 == 0x1
    ensures Exec(m, opc, rnd) == m.(pc := opc % 0x1000)
  {
  }

  /** BNNN with V0 = 0 is the plain jump 1NNN. */
  lemma JumpOffsetZero(m: Machine, nnn: Imm12, rnd: Byte)
    requires WellFormed(m) && m.v[0] == 0
    ensures Apply(m, JpV0Addr(nnn), rnd) == Apply(m, JpAddr(nnn), rnd)
  {
  }

  /** BNNN lands V0 bytes past NNN, and never wraps: NNN + V0 is at most 0xFFF + 0xFF. */
  lemma JumpOffsetV0(m: Machine, nnn: Imm12, rnd: Byte)
    requires WellFormed(m)
    ensures Apply(m, JpV0Addr(nnn), rnd).pc as int - m.v[0] == nnn
  {
  }

  /**
   * 2NNN followed by 00EE: the call pushes the return address and jumps to
   * NNN; the return comes back to the instruction after the call with the
   * stack pointer as before. Only the stack slot written by the call remains.
   */
  lemma CallThenReturn(m: Machine, opc: Word, rnd: Byte)
    requires WellFormed(m) && m.sp < 16 && opc / 0x1000 == 0x2
    ensures Defined(m, Decode(opc))
    ensures var c := Exec(m, opc, rnd);
      c.pc == opc % 0x1000 && c.sp == m.sp + 1 && c.stack[m.sp] == Addr(m.pc, 2) &&
      Defined(c, Decode(0x00EE)) &&
      Exec(c, 0x00EE, rnd) == m.(stack := m.stack[m.sp := Addr(m.pc, 2)], pc := Addr(m.pc, 2))
  {
    assert Decode(0x00EE) == Ret;
  }

  /** The conditional skips: 3XNN, 4XNN, 5XY?, 9XY?, EX9E and EXA1. */
  predicate IsSkip(op: Op)
  {
    op.SeVxByte? || op.SneVxByte? || op.SeVxVy? || op.SneVxVy? || op.SkpVx? || op.SknpVx?
  }

  /** A skip changes nothing but the program counter. */
  lemma SkipOnlyMovesPc(m: Machine, op: Op, rnd: Byte)
    requires Defined(m, op) && IsSkip(op)
    ensures Apply(m, op, rnd).(pc := m.pc) == m
  {
  }

  /** 3XNN skips (PC+4) iff VX == NN, 4XNN iff VX != NN; otherwise PC+2. */
  lemma SkipByte(m: Machine, x: Nibble, nn: Byte, rnd: Byte)
    requires WellFormed(m)
    ensures m.v[x] == nn ==>
      Apply(m, SeVxByte(x, nn), rnd).pc == Addr(m.pc, 4) && Apply(m, SneVxByte(x, nn), rnd).pc == Addr(m.pc, 2)
    ensures m.v[x] != nn ==>
      Apply(m, SeVxByte(x, nn), rnd).pc == Addr(m.pc, 2) && Apply(m, SneVxByte(x, nn), rnd).pc == Addr(m.pc, 4)
  {
  }

  /** 5XY0 skips (PC+4) iff VX == VY, 9XY0 iff VX != VY; otherwise PC+2. */
  lemma SkipRegister(m: Machine, x: Nibble, y: Nibble, rnd: Byte)
    requires WellFormed(m)
    ensures m.v[x] == m.v[y] ==>
      Apply(m, SeVxVy(x, y), rnd).pc == Addr(m.pc, 4) && Apply(m, SneVxVy(x, y), rnd).pc == Addr(m.pc, 2)
    ensures m.v[x] != m.v[y] ==>
      Apply(m, SeVxVy(x, y), rnd).pc == Addr(m.pc, 2) && Apply(m, SneVxVy(x, y), rnd).pc == Addr(m.pc, 4)
  {
  }

  /** EX9E skips (PC+4) iff key VX is down, EXA1 iff it is up; otherwise PC+2. */
  lemma SkipKey(m: Machine, x: Nibble, rnd: Byte)
    requires WellFormed(m) && m.v[x] < 16
    ensures m.keys[m.v[x]] != 0 ==>
      Apply(m, SkpVx(x), rnd).pc == Addr(m.pc, 4) && Apply(m, SknpVx(x), rnd).pc == Addr(m.pc, 2)
    ensures m.keys[m.v[x]] == 0 ==>
      Apply(m, SkpVx(x), rnd).pc == Addr(m.pc, 2) && Apply(m, SknpVx(x), rnd).pc == Addr(m.pc, 4)
  {
  }

  // ---------------------------------------------------------------------
  // The 8XY? family: flags, then results
  // ---------------------------------------------------------------------

  /** The registers an 8XY? operation writes are VX and VF; the others keep their values. */
  lemma AluFrame(v: seq<Byte>, x: Nibble, y: Nibble, f: AluOp, j: Nibble)
    requires |v| == 16 && j != x && j != Carry
    ensures AluRegs(v, x, y, f)[j] == v[j]
  {
  }

  /** The bitwise operations and 8XY0 leave VF alone unless X is F. */
  lemma LogicKeepsFlag(v: seq<Byte>, x: Nibble, y: Nibble, f: AluOp)
    requires |v| == 16 && f in {Ld, Or, And, Xor} && x != Carry
    ensures AluRegs(v, x, y, f)[Carry] == v[Carry]
  {
  }

  /** 8XY4: VF and VX together hold the 9-bit sum VX+VY: VF is the carry, VX the low byte. */
  lemma AddCarry(v: seq<Byte>, x: Nibble, y: Nibble)
    requires |v| == 16 && x != Carry && y != Carry
    ensures var r := AluRegs(v, x, y, Add);
      r[Carry] <= 1 && 256 * r[Carry] as int + r[x] == v[x] as int + v[y]
  {
  }

  /**
   * 8XY5 as written: VF=0 if VX>VY and 1 otherwise (so VF=1 when VX<VY
   * borrows), and VX becomes the difference modulo 256: adding VY back
   * gives the old VX.
   */
  lemma SubFlag(v: seq<Byte>, x: Nibble, y: Nibble)
    requires |v| == 16 && x != Carry && y != Carry
    ensures var r := AluRegs(v, x, y, Sub);
      (r[Carry] == 0 <==> v[x] > v[y]) && r[Carry] <= 1 &&
      (r[x] as int + v[y]) % 256 == v[x] && (v[x] >= v[y] ==> r[x] == v[x] - v[y])
  {
  }

  /**
   * 8XY7: VF=1 when VY-VX does not borrow (VY >= VX) and 0 when it does;
   * VX becomes VY-VX modulo 256: adding the old VX back gives VY.
   */
  lemma SubnFlag(v: seq<Byte>, x: Nibble, y: Nibble)
    requires |v| == 16 && x != Carry && y != Carry
    ensures var r := AluRegs(v, x, y, Subn);
      (r[Carry] == 1 <==> v[y] >= v[x]) && r[Carry] <= 1 &&
      (r[x] as int + v[x]) % 256 == v[y] && (v[y] >= v[x] ==> r[x] == v[y] - v[x])
  {
  }

  /** 8XY6: VF is the bit shifted out at the bottom; VX is halved. */
  lemma ShrFlag(v: seq<Byte>, x: Nibble, y: Nibble)
    requires |v| == 16 && x != Carry
    ensures var r := AluRegs(v, x, y, Shr);
      r[Carry] <= 1 && r[x] < 0x80 && 2 * r[x] as int + r[Carry] == v[x]
  {
  }

  /** 8XYE: VF is the bit shifted out at the top; VF and VX together hold the doubled value. */
  lemma ShlFlag(v: seq<Byte>, x: Nibble, y: Nibble)
    requires |v| == 16 && x != Carry
    ensures var r := AluRegs(v, x, y, Shl);
      r[Carry] <= 1 && 256 * r[Carry] as int + r[x] == 2 * v[x] as int
  {
  }

  /**
   * With X = F the flag is written before the result, so the result, which
   * lands in VF too, is computed from the new flag c rather than the old VF:
   * VF ends as c op VY (or c op c when Y is F as well). In particular 8FY6
   * always leaves VF = 0 and 8FYE leaves VF = 2·c.
   */
  lemma FlagBeforeResult(v: seq<Byte>, y: Nibble)
    requires |v| == 16
    ensures var c := if v[Carry] as int > 0xFF - v[y] as int then 1 else 0;
      AluRegs(v, Carry, y, Add)[Carry] as int == (c + (if y == Carry then c else v[y] as int)) % 256
    ensures var c := if v[Carry] > v[y] then 0 else 1;
      AluRegs(v, Carry, y, Sub)[Carry] as int == (c - (if y == Carry then c else v[y] as int)) % 256
    ensures var c := if v[Carry] > v[y] then 0 else 1;
      AluRegs(v, Carry, y, Subn)[Carry] as int == ((if y == Carry then c else v[y] as int) - c) % 256
    ensures AluRegs(v, Carry, y, Shr)[Carry] == 0
    ensures AluRegs(v, Carry, y, Shl)[Carry] as int == 2 * (v[Carry] / 128)
  {
  }

  /**
   * With Y = F (and X not F) the operand VY is read after the flag is
   * written, so VX is combined with the new flag c instead of the old VF.
   */
  lemma FlagReadAsOperand(v: seq<Byte>, x: Nibble)
    requires |v| == 16 && x != Carry
    ensures var c := if v[x] as int > 0xFF - v[Carry] as int then 1 else 0;
      var r := AluRegs(v, x, Carry, Add);
      r[Carry] == c && r[x] as int == (v[x] as int + c) % 256
    ensures var c := if v[x] > v[Carry] then 0 else 1;
      var r := AluRegs(v, x, Carry, Sub);
      r[Carry] == c && r[x] as int == (v[x] as int - c) % 256
    ensures var c := if v[x] > v[Carry] then 0 else 1;
      var r := AluRegs(v, x, Carry, Subn);
      r[Carry] == c && r[x] as int == (c - v[x] as int) % 256
  {
  }

  /** 7XNN adds modulo 256 (subtracting NN gives the old VX back) and leaves VF alone unless X is F. */
  lemma AddByteNoFlag(m: Machine, x: Nibble, nn: Byte, rnd: Byte)
    requires WellFormed(m)
    ensures var r := Apply(m, AddVxByte(x, nn), rnd);
      (r.v[x] as int - nn) % 256 == m.v[x] && (x != Carry ==> r.v[Carry] == m.v[Carry])
  {
  }

  /** CXNN keeps only the bits of the random byte that NN allows. */
  lemma RandomMasked(m: Machine, x: Nibble, nn: Byte, rnd: Byte)
    requires WellFormed(m)
    ensures (Apply(m, RndVxByte(x, nn), rnd).v[x] as bv8) & !(nn as bv8) == 0
  {
    BitsOfByte((rnd as bv8) & (nn as bv8));
    AndWithin(rnd as bv8, nn as bv8);
  }

  // ---------------------------------------------------------------------
  // The FX?? family
  // ---------------------------------------------------------------------

  /** FX1E: I becomes I+VX modulo 2^16 (subtracting VX gives the old I), and VF=1 iff the new I is above 0xFFF. */
  lemma AddIndexFlag(m: Machine, x: Nibble, rnd: Byte)
    requires WellFormed(m)
    ensures var r := Apply(m, Fx(x, AddIVx), rnd);
      (r.i as int - m.v[x]) % 0x10000 == m.i && r.v[Carry] <= 1 && (r.v[Carry] == 1 <==> r.i > 0xFFF)
  {
  }

  /**
   * FX29: I becomes the address of the glyph for VX in a font of 5-byte
   * glyphs placed at address 0; uint16(VX) * 5 never wraps.
   */
  lemma FontAddress(m: Machine, x: Nibble, rnd: Byte)
    requires WellFormed(m)
    ensures var r := Apply(m, Fx(x, LdFVx), rnd);
      r.i % 5 == 0 && r.i / 5 == m.v[x]
  {
  }

  /** Distinct offsets below 2^16 from the same base are distinct addresses. */
  lemma AddrInjective(i: Word, j: int, k: int)
    requires 0 <= j < k < 0x10000
    ensures Addr(i, j) != Addr(i, k)
  {
  }

  /**
   * FX33: three decimal digits, most significant first, each at most 9 and
   * together equal to VX; no other memory cell changes.
   */
  lemma BcdDigits(mem: seq<Byte>, i: Word, b: Byte)
    requires InMemory(|mem|, i, 3)
    ensures var r := Bcd(mem, i, b);
      var d0, d1, d2 := r[Addr(i, 0)], r[Addr(i, 1)], r[Addr(i, 2)];
      d0 <= 9 && d1 <= 9 && d2 <= 9 && 100 * d0 as int + 10 * d1 as int + d2 == b &&
      forall a :: 0 <= a < |mem| && a != Addr(i, 0) && a != Addr(i, 1) && a != Addr(i, 2) ==> r[a] == mem[a]
  {
    AddrInjective(i, 0, 1);
    AddrInjective(i, 0, 2);
    AddrInjective(i, 1, 2);
  }

  /** The address a is one of the n cells I, I+1, ..., I+n-1. */
  predicate Written(i: Word, n: int, a: int)
  {
    exists k :: 0 <= k < n && Addr(i, k) == a
  }

  /** FX55 in memory: cell I+k holds Vk for k < n, and every other cell is unchanged. */
  lemma {:induction false} SpillAt(mem: seq<Byte>, v: seq<Byte>, i: Word, n: int)
    requires |v| == 16 && 0 <= n <= 16 && InMemory(|mem|, i, n)
    ensures forall k :: 0 <= k < n ==> Spill(mem, v, i, n)[Addr(i, k)] == v[k]
    ensures forall a :: 0 <= a < |mem| && !Written(i, n, a) ==> Spill(mem, v, i, n)[a] == mem[a]
  {
    if n > 0 {
      SpillAt(mem, v, i, n - 1);
      forall k | 0 <= k < n - 1
        ensures Addr(i, k) != Addr(i, n - 1)
      {
        AddrInjective(i, k, n - 1);
      }
      forall a | 0 <= a < |mem| && !Written(i, n, a)
        ensures !Written(i, n - 1, a) && a != Addr(i, n - 1)
      {
      }
    }
  }

  /** FX65 in the registers: Vk holds the byte at I+k for k < n, and V(n)..VF are unchanged. */
  lemma {:induction false} FillAt(v: seq<Byte>, mem: seq<Byte>, i: Word, n: int)
    requires |v| == 16 && 0 <= n <= 16 && InMemory(|mem|, i, n)
    ensures forall k :: 0 <= k < n ==> Fill(v, mem, i, n)[k] == mem[Addr(i, k)]
    ensures forall j :: n <= j < 16 ==> Fill(v, mem, i, n)[j] == v[j]
  {
    if n > 0 {
      FillAt(v, mem, i, n - 1);
    }
  }

  /** FX55 then FX65 with the same X and I reads back exactly what was stored. */
  lemma SpillThenFill(mem: seq<Byte>, v: seq<Byte>, i: Word, n: int)
    requires |v| == 16 && 0 <= n <= 16 && InMemory(|mem|, i, n)
    ensures Fill(v, Spill(mem, v, i, n), i, n) == v
  {
    var stored := Spill(mem, v, i, n);
    SpillAt(mem, v, i, n);
    FillAt(v, stored, i, n);
  }

  /** FirstKey finds the lowest pressed key at or after k, and 16 means none is pressed. */
  lemma {:induction false} FirstKeyLowest(keys: seq<Byte>, k: nat)
    requires |keys| == 16 && k <= 16
    ensures var r := FirstKey(keys, k);
      (forall j :: k <= j < r ==> keys[j] == 0) && (r < 16 ==> keys[r] != 0)
    decreases 16 - k
  {
    if k < 16 && keys[k] == 0 {
      FirstKeyLowest(keys, k + 1);
    }
  }

  /** FX0A with no key down changes nothing at all, so the same instruction runs again. */
  lemma AwaitNoKey(m: Machine, x: Nibble, rnd: Byte)
    requires WellFormed(m) && forall j :: 0 <= j < 16 ==> m.keys[j] == 0
    ensures Apply(m, Fx(x, LdVxK), rnd) == m
  {
    FirstKeyLowest(m.keys, 0);
  }

  /** FX0A with key k down and no lower key down stores k in VX and moves PC on by 2. */
  lemma AwaitKeyPressed(m: Machine, x: Nibble, k: Nibble, rnd: Byte)
    requires WellFormed(m) && m.keys[k] != 0
    requires forall j :: 0 <= j < k ==> m.keys[j] == 0
    ensures Apply(m, Fx(x, LdVxK), rnd) == m.(v := m.v[x := k], pc := Addr(m.pc, 2))
  {
    FirstKeyLowest(m.keys, 0);
  }

  // ---------------------------------------------------------------------
  // Whole-machine properties
  // ---------------------------------------------------------------------

  /** FX55 and FX65 as instructions: I is not moved, and only the named cells or registers change. */
  lemma SpillFillInstructions(m: Machine, x: Nibble, rnd: Byte)
    requires Defined(m, Fx(x, LdIVx))
    ensures var s := Apply(m, Fx(x, LdIVx), rnd);
      s.i == m.i && s.v == m.v && |s.mem| == |m.mem| &&
      (forall k :: 0 <= k <= x ==> s.mem[Addr(m.i, k)] == m.v[k]) &&
      (forall a :: 0 <= a < |m.mem| && !Written(m.i, x + 1, a) ==> s.mem[a] == m.mem[a])
    ensures var f := Apply(m, Fx(x, LdVxI), rnd);
      f.i == m.i && f.mem == m.mem &&
      (forall k :: 0 <= k <= x ==> f.v[k] == m.mem[Addr(m.i, k)]) &&
      (forall j :: x < j < 16 ==> f.v[j] == m.v[j])
  {
    SpillAt(m.mem, m.v, m.i, x + 1);
    FillAt(m.v, m.mem, m.i, x + 1);
  }

  /** DXYN: the framebuffer gets the sprite XORed in, it is marked dirty, I is kept, and VF=1 iff some row hit a lit pixel. */
  lemma DrawSetsCollisionFlag(m: Machine, x: Nibble, y: Nibble, n: Nibble, rnd: Byte)
    requires Defined(m, DrwVxVyNibble(x, y, n))
    ensures var r := Apply(m, DrwVxVyNibble(x, y, n), rnd);
      r.dirty && r.i == m.i && r.v[Carry] <= 1 &&
      r.screen == Blit(m.screen, m.mem, m.i, m.v[x], m.v[y], n) &&
      (r.v[Carry] == 1 <==> exists k :: 0 <= k < n && HitsRow(m.screen, m.mem, m.i, m.v[x], m.v[y], k))
  {
    CollidesIff(m.screen, m.mem, m.i, m.v[x], m.v[y], n);
  }

  /** Every defined instruction keeps the machine well formed; in particular SP stays within 0..16. */
  lemma ExecWellFormed(m: Machine, opc: Word, rnd: Byte)
    requires Defined(m, Decode(opc))
    ensures WellFormed(Exec(m, opc, rnd))
  {
    ApplyWellFormed(m, Decode(opc), rnd);
  }

  lemma ApplyWellFormed(m: Machine, op: Op, rnd: Byte)
    requires Defined(m, op)
    ensures WellFormed(Apply(m, op, rnd))
  {
    if op.Fx? {
      FxWellFormed(m, op.x, op.g);
    }
  }

  lemma FxWellFormed(m: Machine, x: Nibble, g: FxOp)
    requires Defined(m, Fx(x, g))
    ensures WellFormed(ApplyFx(m, x, g))
  {
    match g
    case LdVxK => FirstKeyLowest(m.keys, 0);
    case _ =>
  }
}
