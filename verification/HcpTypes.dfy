/** Words both buses share: bytes, registers, the clock, and the commands. */
module HcpTypes {

  type Byte = b: int | 0 <= b < 0x100
  type Word = w: int | 0 <= w < 0x1_0000

  /** The clock is a 32-bit millisecond counter that wraps. */
  const CLOCK_SPAN := 0x1_0000_0000

  type Millis = t: int | 0 <= t < 0x1_0000_0000

  /** `now - since` as the 32-bit subtraction computes it. */
  function Elapsed(now: Millis, since: Millis): Millis {
    (now - since) % CLOCK_SPAN
  }

  /** What a 32-bit clock shows at a real point in time. */
  function Shown(t: nat): Millis {
    t % CLOCK_SPAN
  }

  /** The wrapping subtraction is the real waiting time, up to whole turns of the clock. */
  lemma ElapsedIsReal(t: nat, s: nat)
    requires s <= t
    ensures Elapsed(Shown(t), Shown(s)) == (t - s) % CLOCK_SPAN
    ensures t - s < CLOCK_SPAN ==> Elapsed(Shown(t), Shown(s)) == t - s
  {
    var a, b := t / CLOCK_SPAN, s / CLOCK_SPAN;
    assert Shown(t) - Shown(s) == (t - s) - (a - b) * CLOCK_SPAN;
    ModPeriod(t - s, a - b);
  }

  lemma ModPeriod(x: int, k: int)
    ensures (x - k * CLOCK_SPAN) % CLOCK_SPAN == x % CLOCK_SPAN
  {
    var q := x / CLOCK_SPAN;
    assert x - k * CLOCK_SPAN == (q - k) * CLOCK_SPAN + x % CLOCK_SPAN;
  }

  datatype Command =
    | NoCommand | Open | Close | Impulse | Half | Vent | LightOn | LightOff
    // Stored as an intent: it becomes an impulse, or nothing, when a poll takes it.
    | Stop

  datatype DoorState =
    | DoorOpen | Opening | DoorClosed | Closing | HalfOpen | MoveVenting | Venting | MoveHalf | Stopped

  predicate IsMoving(s: DoorState) {
    s == Opening || s == Closing || s == MoveHalf || s == MoveVenting
  }

  datatype Option<+T> = None | Some(value: T)

  datatype Link = NeverSeen | Enumerating | Registered | Silent | Paused

  const CMD_STALE_MS := 2000
  const BUS_SILENCE_MS := 20000
  const CMD_CONFIRM_MS := 2000
  const CMD_GIVEUP_MS := 5000

  datatype Event =
    | WrongRegisterBlock(readAddr: Word, writeAddr: Word)
    | WrongBroadcastBlock(addr: Word)
    | UnknownTransferSub(sub: Byte)
    | UnanswerableFrame(readCnt: nat, writeCnt: nat)
    | CommandSent(cmd: Command)
    | CommandRepeated(cmd: Command)
    | CommandStale(cmd: Command)
    | CommandRepeatDropped
    | CommandUnanswered(cmd: Command)
    | CommandResent(cmd: Command)
    | CommandResendGaveUp
    | BusScan
    | EmptyCommand
    | StateChanged(word: Byte)
    | UnknownState(word: Byte)
    | RelayRegister(reg: Word)
    | IdentityUnanswered(request: Byte)
    | LinkLostCommandDropped
    | CommandRefusedNoLink(cmd: Command)
    | CommandRefusedSlotBusy(cmd: Command)
    | IdentityFirmware
    | IdentitySerial
}
