/** Instruction words and opcodes (`lopcodes.h`, `lopcodes.c`). */
module ChunkWords {

  type Word = w: nat | w < 0x1_0000_0000

  type Byte = b: nat | b < 256

  const MAXARG_SBX := 131071
  const BITRK := 256

  function OpOf(w: Word): (r: nat) ensures r < 64 { w % 64 }
  function ArgA(w: Word): (r: nat) ensures r < 256 { (w / 64) % 256 }
  function ArgC(w: Word): (r: nat) ensures r < 512 { (w / 16384) % 512 }
  function ArgB(w: Word): (r: nat) ensures r < 512 { (w / 8388608) % 512 }
  function ArgBx(w: Word): (r: nat) ensures r < 262144 { (w / 16384) % 262144 }
  function ArgSbx(w: Word): int { ArgBx(w) - MAXARG_SBX }

  datatype Op =
    | Move | LoadK | LoadBool | LoadNil | GetUpval | GetGlobal | GetTable | SetGlobal | SetUpval | SetTable
    | NewTable | Self | Add | Sub | Mul | Div | Mod | Pow | Unm | Not | Len | Concat | Jmp | Eq | Lt | Le
    | Test | TestSet | Call | TailCall | Return | ForLoop | ForPrep | TForLoop | SetList | Close | Closure | Vararg
    | Invalid

  function Decode(op: nat): Op {
    match op
    case 0 => Move case 1 => LoadK case 2 => LoadBool case 3 => LoadNil case 4 => GetUpval
    case 5 => GetGlobal case 6 => GetTable case 7 => SetGlobal case 8 => SetUpval case 9 => SetTable
    case 10 => NewTable case 11 => Self case 12 => Add case 13 => Sub case 14 => Mul
    case 15 => Div case 16 => Mod case 17 => Pow case 18 => Unm case 19 => Not
    case 20 => Len case 21 => Concat case 22 => Jmp case 23 => Eq case 24 => Lt
    case 25 => Le case 26 => Test case 27 => TestSet case 28 => Call case 29 => TailCall
    case 30 => Return case 31 => ForLoop case 32 => ForPrep case 33 => TForLoop case 34 => SetList
    case 35 => Close case 36 => Closure case 37 => Vararg
    case _ => Invalid
  }

  function Opcode(w: Word): Op {
    Decode(OpOf(w))
  }

  datatype Format = ABC | ABx | AsBx

  datatype ArgMode = Unused | Used | Register | RegisterOrK

  function FormatOf(op: Op): Format {
    match op
    case LoadK => ABx case GetGlobal => ABx case SetGlobal => ABx case Closure => ABx
    case Jmp => AsBx case ForLoop => AsBx case ForPrep => AsBx
    case _ => ABC
  }

  function ModeB(op: Op): ArgMode {
    match op
    case Move => Register case LoadNil => Register case GetTable => Register case Self => Register
    case Unm => Register case Not => Register case Len => Register case Concat => Register
    case Jmp => Register case Test => Register case TestSet => Register case ForLoop => Register case ForPrep => Register
    case LoadK => RegisterOrK case GetGlobal => RegisterOrK case SetGlobal => RegisterOrK case SetTable => RegisterOrK
    case Add => RegisterOrK case Sub => RegisterOrK case Mul => RegisterOrK case Div => RegisterOrK
    case Mod => RegisterOrK case Pow => RegisterOrK case Eq => RegisterOrK case Lt => RegisterOrK case Le => RegisterOrK
    case TForLoop => Unused case Close => Unused
    case _ => Used
  }

  function ModeC(op: Op): ArgMode {
    match op
    case LoadBool => Used case NewTable => Used case Test => Used case TestSet => Used case Call => Used
    case TailCall => Used case TForLoop => Used case SetList => Used
    case GetTable => RegisterOrK case SetTable => RegisterOrK case Self => RegisterOrK
    case Add => RegisterOrK case Sub => RegisterOrK case Mul => RegisterOrK case Div => RegisterOrK
    case Mod => RegisterOrK case Pow => RegisterOrK case Eq => RegisterOrK case Lt => RegisterOrK case Le => RegisterOrK
    case Concat => Register
    case _ => Unused
  }

  /** The instructions followed by the jump that belongs to them. */
  predicate IsTest(op: Op) {
    op.Eq? || op.Lt? || op.Le? || op.Test? || op.TestSet? || op.TForLoop?
  }

  // ---- Prototypes ---------------------------------------------------------

  datatype Option<+T> = None | Some(value: T)

  type Bytes = seq<Byte>

  /** A C `int`, and one that is not negative. */
  type Int = n: int | -0x8000_0000 <= n < 0x8000_0000
  type Count = n: nat | n < 0x8000_0000

  /** A string pointer can be null; a number is the eight bytes of its
      representation. */
  datatype Const = KNil | KBool(b: bool) | KNum(bytes: Bytes) | KStr(s: Option<Bytes>)

  datatype LocVar = LocVar(name: Option<Bytes>, startpc: Count, endpc: Count)

  datatype Proto = Proto(
    source: Option<Bytes>,
    linedefined: Count,
    lastlinedefined: Count,
    nups: Byte,
    numparams: Byte,
    isVararg: Byte,
    maxstacksize: Byte,
    code: seq<Word>,
    k: seq<Const>,
    p: seq<Proto>,
    lineinfo: seq<Int>,
    locvars: seq<LocVar>,
    upvalues: seq<Option<Bytes>>)
}
