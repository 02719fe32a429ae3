/** Types shared by every part of the model. */
module Basics {
  datatype Option<+T> = None | Some(value: T) {
    function GetOr(default: T): T {
      match this
      case Some(v) => v
      case None => default
    }
  }

  /** reg_t, word_t and addr_t: 32-bit unsigned, wrapping. */
  type Word = bv32

  type HalfWord = bv16

  type Byte = bv8

  const MEMORY_LENGTH: nat := 1024

  /** The data memory, byte addressed. */
  type Mem = s: seq<Byte> | |s| == MEMORY_LENGTH witness seq(MEMORY_LENGTH, _ => 0 as Byte)

  const REGISTER_COUNT: nat := 32

  /** A register number, 0 to 31. */
  type Reg = r: nat | r < REGISTER_COUNT

  /** The contents of `Context::Registers`. */
  type RegFile = s: seq<Word> | |s| == REGISTER_COUNT witness seq(REGISTER_COUNT, _ => 0 as Word)
}
