/**
  The assembler macro constants of the generator's header (instruction mnemonics,
  directives, register names). Their text is not part of this model: each is a
  fixed but unspecified string, and the register names are C strings.
 */
module Macros {
  import opened CStrings

  const MOV: string
  const ADD: string
  const SUB: string
  const PUSH: string
  const POP: string
  const LEAVE: string
  const RET: string
  const COMMA: string

  const GLOBAL: string
  const ALIGN: string
  const SYMBOL_TYPE: string
  const OBJECT: string
  const FUNCTION: string
  const SIZE: string
  const SECTION: string
  const RODATA: string

  const INTTAG: string
  const FLOATTAG: string
  const BOOLTAG: string

  const RBP: CStr
  const RSP: CStr
  const RBX: CStr
  const R12: CStr
  const R13: CStr
  const R14: CStr
  const R15: CStr
  const RDI: CStr
  const RSI: CStr
  const RDX: CStr
  const RCX: CStr
  const R8: CStr
  const R9: CStr
}
