/** Syscall events (include/sysgaze/event.h). */
module Events {
  datatype Timespec = Timespec(sec: int, nsec: int)

  const EPOCH := Timespec(0, 0)

  predicate Normalised(t: Timespec) { 0 <= t.nsec < 1_000_000_000 }

  datatype SyscallEvent = SyscallEvent(number: int, args: seq<int>, result: int, errorNumber: int,
                                       enteredAt: Timespec, exitedAt: Timespec, completed: bool)
}
