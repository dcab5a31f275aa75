/**
The vocabulary shared by the libpixyusb C façade and the command interpreter it
drives: the typed argument values a command carries, the output slots it asks
the interpreter to fill, and the interpreter itself, which is not modelled and
is represented as an abstract oracle from a call to its reply.
*/
module Protocol {

  /** A C `int` (32-bit, two's complement). */
  type Int32 = x: int | -0x8000_0000 <= x < 0x8000_0000

  datatype Option<+T> = None | Some(value: T)

  /** A typed argument, as built by the INT8/UINT8/.../UINT32 wrapper macros:
      the tag and the raw bits of the value after the macro's cast. */
  datatype Value =
    | Int8(b: bv8)
    | UInt8(b: bv8)
    | Int16(h: bv16)
    | UInt16(h: bv16)
    | Int32Arg(w: bv32)
    | UInt32Arg(w: bv32)

  /** The kind of caller-owned location named after END_OUT_ARGS. */
  datatype SlotKind =
    | WordSlot      // an int or uint32_t variable
    | BufferSlot    // a uint16_t pointer the interpreter points at its reply buffer

  /** What the interpreter stores into one output slot. */
  datatype Out =
    | Word(w: bv32)
    | Halfwords(data: seq<bv16>)

  /** One pixy_command invocation: procedure name, arguments, output slots. */
  datatype Call = Call(name: string, args: seq<Value>, slots: seq<SlotKind>)

  /** The interpreter's answer: its return code and the values it wrote. */
  datatype Reply = Reply(ret: Int32, outs: seq<Out>)

  predicate Fits(kind: SlotKind, out: Out) {
    match kind
    case WordSlot => out.Word?
    case BufferSlot => out.Halfwords?
  }

  /** The interpreter's side of the contract: a non-negative return means every
      requested slot was written, in order, with a value of the requested kind. */
  predicate Conforms(call: Call, reply: Reply) {
    reply.ret >= 0 ==>
      && |reply.outs| == |call.slots|
      && forall i :: 0 <= i < |call.slots| ==> Fits(call.slots[i], reply.outs[i])
  }

  /** The command interpreter, treated as an oracle that honours `Conforms`. */
  type Oracle = f: Call -> Reply | forall c :: Conforms(c, f(c))
    witness (c: Call) => Reply(-1, [])

  /** A C `uint32_t`, as a number. */
  type Uint32 = x: int | 0 <= x < 0x1_0000_0000

  /** Converting `uint32_t` to `int`: the two's-complement reading of the bits. */
  function Signed(u: Uint32): (x: Int32)
    ensures 0 <= x <==> u < 0x8000_0000
    ensures 0 <= x ==> x == u
  {
    if u < 0x8000_0000 then u else u - 0x1_0000_0000
  }

  /** Converting `int` to `uint32_t`: reduction modulo 2^32. */
  function Unsigned(x: Int32): (u: Uint32)
    ensures Signed(u) == x
    ensures 0 <= x ==> u == x
  {
    if x >= 0 then x else x + 0x1_0000_0000
  }

  /** Reading a 32-bit word stored in a C `int`. */
  function AsInt32(w: bv32): (x: Int32)
    ensures 0 <= x <==> w < 0x8000_0000
    ensures Unsigned(x) == w as int
  {
    Signed(w as int)
  }

  /** The word written into output slot `i`, when the reply conforms. */
  function WordOut(call: Call, reply: Reply, i: nat): bv32
    requires Conforms(call, reply) && reply.ret >= 0
    requires i < |call.slots| && call.slots[i] == WordSlot
  {
    reply.outs[i].w
  }
}
