/** The seccomp program: a compiler from the filter to classic BPF (src/trace.c), and the part of
    the BPF machine it uses. */
module Bpf {
  import opened Bits
  import opened Catalog
  import opened Filters
  import TraceModel

  // Opcodes, return values and offsets as in the kernel headers.
  const LD_W_ABS: nat := 0x20
  const JEQ_K: nat := 0x15
  const JGE_K: nat := 0x35
  const RET_K: nat := 0x06
  const OFFSET_NR: nat := 0
  const OFFSET_ARCH: nat := 4
  const AUDIT_ARCH_X86_64: nat := 0xc000_003e
  const RET_TRACE: nat := 0x7ff0_0000
  const RET_ALLOW: nat := 0x7fff_0000
  const BAD_ARCH: nat := 1
  const BAD_ABI: nat := 2
  const USHRT_MAX: nat := 65535

  datatype Instruction = Instruction(code: nat, jt: nat, jf: nat, k: nat)

  /** struct seccomp_data, as far as the program reads it. */
  datatype Data = Data(nr: nat, arch: nat)

  /** The BPF machine; a fault (running off the end, an unknown opcode or offset) is None. */
  function Execute(program: seq<Instruction>, pc: nat, accumulator: nat, data: Data): Option<nat>
    decreases |program| - pc
  {
    if pc >= |program| then None
    else
      var i := program[pc];
      if i.code == LD_W_ABS && i.k == OFFSET_NR then Execute(program, pc + 1, data.nr, data)
      else if i.code == LD_W_ABS && i.k == OFFSET_ARCH then Execute(program, pc + 1, data.arch, data)
      else if i.code == JEQ_K then
        Execute(program, pc + 1 + (if accumulator == i.k then i.jt else i.jf), accumulator, data)
      else if i.code == JGE_K then
        Execute(program, pc + 1 + (if accumulator >= i.k then i.jt else i.jf), accumulator, data)
      else if i.code == RET_K then Some(i.k)
      else None
  }

  /** The verdict of the program on a call. */
  function Run(program: seq<Instruction>, data: Data): Option<nat> {
    Execute(program, 0, 0, data)
  }

  predicate Traced(numbers: set<int>, number: int) {
    number in numbers || number == TraceModel.RT_SIGRETURN
  }

  /** What the filter means for a call. */
  function Verdict(numbers: set<int>, data: Data): nat {
    if data.arch != AUDIT_ARCH_X86_64 then RET_TRACE + BAD_ARCH
    else if data.nr >= TraceModel.X32_BIT then RET_TRACE + BAD_ABI
    else if Traced(numbers, data.nr) then RET_TRACE
    else RET_ALLOW
  }

  // ----- the emitted program

  const HEADER: seq<Instruction> := [
    Instruction(LD_W_ABS, 0, 0, OFFSET_ARCH),
    Instruction(JEQ_K, 1, 0, AUDIT_ARCH_X86_64),
    Instruction(RET_K, 0, 0, RET_TRACE + BAD_ARCH),
    Instruction(LD_W_ABS, 0, 0, OFFSET_NR),
    Instruction(JGE_K, 0, 1, TraceModel.X32_BIT),
    Instruction(RET_K, 0, 0, RET_TRACE + BAD_ABI)
  ]

  function Test(numbers: set<int>, number: nat): seq<Instruction> {
    if Traced(numbers, number) then [Instruction(JEQ_K, 0, 1, number), Instruction(RET_K, 0, 0, RET_TRACE)] else []
  }

  /** The tests of the numbers below `n`, in the order in which they are appended. */
  function Tests(numbers: set<int>, n: nat): seq<Instruction> {
    if n == 0 then [] else Tests(numbers, n - 1) + Test(numbers, n - 1)
  }

  function Program(numbers: set<int>): seq<Instruction> {
    HEADER + Tests(numbers, SYSCALL_LIMIT) + [Instruction(RET_K, 0, 0, RET_ALLOW)]
  }

  // ----- meaning

  ghost predicate InRange(numbers: set<int>) {
    forall n | n in numbers :: 0 <= n < SYSCALL_LIMIT
  }

  /** From the start of the tests of `n` and above, the machine compares with exactly those. */
  lemma {:induction false} TestsFrom(numbers: set<int>, n: nat, pc: nat, data: Data)
    requires n <= SYSCALL_LIMIT && InRange(numbers)
    requires pc == |HEADER| + |Tests(numbers, n)|
    ensures Execute(Program(numbers), pc, data.nr, data) ==
            Some(if data.nr >= n && Traced(numbers, data.nr) then RET_TRACE else RET_ALLOW)
    decreases SYSCALL_LIMIT - n
  {
    var program := Program(numbers);
    if n == SYSCALL_LIMIT {
      assert program[pc] == Instruction(RET_K, 0, 0, RET_ALLOW);
    } else {
      TestsPrefix(numbers, n + 1, SYSCALL_LIMIT);
      assert Tests(numbers, n + 1) == Tests(numbers, n) + Test(numbers, n);
      TestsFrom(numbers, n + 1, pc + |Test(numbers, n)|, data);
      if Traced(numbers, n) {
        InstructionAt(numbers, n, pc);
      }
    }
  }

  lemma {:induction false} TestsPrefix(numbers: set<int>, m: nat, n: nat)
    requires m <= n
    ensures Tests(numbers, m) <= Tests(numbers, n)
  {
    if m < n { TestsPrefix(numbers, m, n - 1); }
  }

  lemma InstructionAt(numbers: set<int>, n: nat, pc: nat)
    requires n < SYSCALL_LIMIT && Traced(numbers, n) && pc == |HEADER| + |Tests(numbers, n)|
    ensures pc + 1 < |Program(numbers)|
    ensures Program(numbers)[pc] == Instruction(JEQ_K, 0, 1, n)
    ensures Program(numbers)[pc + 1] == Instruction(RET_K, 0, 0, RET_TRACE)
  {
    var some, all := Tests(numbers, n + 1), Tests(numbers, SYSCALL_LIMIT);
    TestsPrefix(numbers, n + 1, SYSCALL_LIMIT);
    var at := |Tests(numbers, n)|;
    assert some[at] == Test(numbers, n)[0] && some[at + 1] == Test(numbers, n)[1];
    assert all[at] == some[at] && all[at + 1] == some[at + 1];
  }

  /** The compiler is correct: on every call of every architecture the program gives the verdict. */
  lemma ProgramMeansFilter(numbers: set<int>, data: Data)
    requires InRange(numbers)
    ensures Run(Program(numbers), data) == Some(Verdict(numbers, data))
  {
    var program := Program(numbers);
    assert program[..6] == HEADER;
    assert program[0] == HEADER[0] && program[1] == HEADER[1] && program[2] == HEADER[2];
    assert program[3] == HEADER[3] && program[4] == HEADER[4] && program[5] == HEADER[5];
    TestsFrom(numbers, 0, 6, data);
    if data.arch == AUDIT_ARCH_X86_64 {
      assert Execute(program, 0, 0, data) == Execute(program, 1, data.arch, data);
      assert Execute(program, 1, data.arch, data) == Execute(program, 3, data.arch, data);
      assert Execute(program, 3, data.arch, data) == Execute(program, 4, data.nr, data);
      assert Execute(program, 4, data.nr, data) ==
             Execute(program, if data.nr >= TraceModel.X32_BIT then 5 else 6, data.nr, data);
    } else {
      assert Execute(program, 0, 0, data) == Execute(program, 1, data.arch, data);
      assert Execute(program, 1, data.arch, data) == Execute(program, 2, data.arch, data);
    }
  }

  // ----- shape

  /** Every jump lands inside the program. */
  ghost predicate JumpsInside(program: seq<Instruction>, i: nat)
    requires i < |program|
  {
    var at := program[i];
    at.code == JEQ_K || at.code == JGE_K ==> i + 1 + at.jt < |program| && i + 1 + at.jf < |program|
  }

  lemma {:induction false} TestsShape(numbers: set<int>, n: nat, i: nat)
    requires i < |Tests(numbers, n)|
    ensures var at := Tests(numbers, n)[i];
            && at.jt <= 1 && at.jf <= 1
            && (at.code == RET_K || (at.code == JEQ_K && at.jt == 0 && at.jf == 1 && i + 1 < |Tests(numbers, n)|))
  {
    if i < |Tests(numbers, n - 1)| { TestsShape(numbers, n - 1, i); }
  }

  ghost function TracedBelow(numbers: set<int>, n: nat): set<int> {
    set m | 0 <= m < n && Traced(numbers, m)
  }

  lemma {:induction false} TestsLength(numbers: set<int>, n: nat)
    ensures |Tests(numbers, n)| == 2 * |TracedBelow(numbers, n)|
  {
    if n == 0 {
      assert TracedBelow(numbers, 0) == {};
    } else {
      TestsLength(numbers, n - 1);
      assert TracedBelow(numbers, n) ==
             TracedBelow(numbers, n - 1) + (if Traced(numbers, n - 1) then {n - 1} else {});
    }
  }

  lemma {:induction false} BelowSize(s: set<int>, n: nat)
    requires forall m | m in s :: 0 <= m < n
    ensures |s| <= n
  {
    if n == 0 {
      assert forall m :: m !in s;
      assert s == {};
    } else {
      BelowSize(s - {n - 1}, n - 1);
    }
  }

  /** The length is the one allocated for, within the limit, and no jump leaves the program. */
  lemma ProgramShape(numbers: set<int>)
    requires InRange(numbers)
    ensures |Program(numbers)| == 7 + 2 * |numbers + {TraceModel.RT_SIGRETURN as int}| <= 1031
    ensures forall i :: 0 <= i < |Program(numbers)| ==> JumpsInside(Program(numbers), i)
  {
    TestsLength(numbers, SYSCALL_LIMIT);
    assert TracedBelow(numbers, SYSCALL_LIMIT) == numbers + {TraceModel.RT_SIGRETURN as int};
    BelowSize(numbers + {TraceModel.RT_SIGRETURN as int}, SYSCALL_LIMIT);
    var program, tests := Program(numbers), Tests(numbers, SYSCALL_LIMIT);
    forall i | 0 <= i < |program| ensures JumpsInside(program, i) {
      if 6 <= i < 6 + |tests| {
        TestsShape(numbers, SYSCALL_LIMIT, i - 6);
        assert program[i] == tests[i - 6];
      } else if i < 6 {
        assert program[i] == HEADER[i];
      }
    }
  }

  // ----- the C structure

  class SeccompProgram {
    const instructions: array<Instruction>
    var len: nat

    constructor (capacity: nat)
      ensures instructions.Length == capacity && len == 0 && fresh(instructions)
    {
      instructions := new Instruction[capacity](_ => Instruction(0, 0, 0, 0));
      len := 0;
    }

    /** append_bpf; the length is an unsigned short. */
    method Append(code: nat, jt: nat, jf: nat, k: nat)
      requires len < instructions.Length <= USHRT_MAX
      modifies this, instructions
      ensures len == old(len) + 1
      ensures instructions[..len] == old(instructions[..len]) + [Instruction(code, jt, jf, k)]
    {
      instructions[len] := Instruction(code, jt, jf, k);
      len := (len + 1) % (USHRT_MAX + 1);
    }

    /** The fixed checks of architecture and ABI. */
    method AppendHeader()
      requires len == 0 && 6 <= instructions.Length <= USHRT_MAX
      modifies this, instructions
      ensures len == 6 && instructions[..len] == HEADER
    {
      Append(LD_W_ABS, 0, 0, OFFSET_ARCH);
      Append(JEQ_K, 1, 0, AUDIT_ARCH_X86_64);
      Append(RET_K, 0, 0, RET_TRACE + BAD_ARCH);
      Append(LD_W_ABS, 0, 0, OFFSET_NR);
      Append(JGE_K, 0, 1, TraceModel.X32_BIT);
      Append(RET_K, 0, 0, RET_TRACE + BAD_ABI);
    }

    /** One turn of the loop over the syscall numbers. */
    method AppendTest(words: seq<nat>, number: nat, ghost numbers: set<int>)
      requires |words| == WORDS && numbers == Numbers(words) && number < SYSCALL_LIMIT
      requires len + |Test(numbers, number)| <= instructions.Length <= USHRT_MAX
      modifies this, instructions
      ensures len == old(len) + |Test(numbers, number)|
      ensures instructions[..len] == old(instructions[..len]) + Test(numbers, number)
    {
      if Contains(words, number) || number == TraceModel.RT_SIGRETURN {
        Append(JEQ_K, 0, 1, number);
        Append(RET_K, 0, 0, RET_TRACE);
      }
    }

    /** The loop over the syscall numbers. */
    method AppendTests(words: seq<nat>, ghost numbers: set<int>)
      requires |words| == WORDS && numbers == Numbers(words)
      requires len + |Tests(numbers, SYSCALL_LIMIT)| <= instructions.Length <= USHRT_MAX
      modifies this, instructions
      ensures len == old(len) + |Tests(numbers, SYSCALL_LIMIT)|
      ensures instructions[..len] == old(instructions[..len]) + Tests(numbers, SYSCALL_LIMIT)
    {
      ghost var before := instructions[..len];
      for number := 0 to SYSCALL_LIMIT
        invariant len == old(len) + |Tests(numbers, number)| <= instructions.Length
        invariant instructions[..len] == before + Tests(numbers, number)
      {
        TestsPrefix(numbers, number + 1, SYSCALL_LIMIT);
        AppendTest(words, number, numbers);
        TestsNext(before, numbers, number);
      }
    }
  }

  lemma TestsNext(before: seq<Instruction>, numbers: set<int>, number: nat)
    ensures (before + Tests(numbers, number)) + Test(numbers, number) == before + Tests(numbers, number + 1)
    ensures |Tests(numbers, number + 1)| == |Tests(numbers, number)| + |Test(numbers, number)|
  {
  }

  /** The number of tests: the selected numbers and rt_sigreturn. */
  method TestCount(selection: Filter) returns (count: nat)
    requires selection.Valid()
    ensures count == |Numbers(selection.words[..]) + {TraceModel.RT_SIGRETURN as int}|
  {
    ghost var numbers := Numbers(selection.words[..]);
    count := selection.Count();
    if !Contains(selection.words[..], TraceModel.RT_SIGRETURN) {
      count := count + 1;
      assert |numbers + {TraceModel.RT_SIGRETURN as int}| == |numbers| + 1;
    } else {
      assert numbers + {TraceModel.RT_SIGRETURN as int} == numbers;
    }
  }

  /** prepare_seccomp_program: the buffer is filled exactly, with a program that means the filter.
      The capacity never comes near the limit the C code guards against. */
  method PrepareSeccompProgram(selection: Filter) returns (program: SeccompProgram)
    requires selection.Valid()
    ensures fresh(program) && fresh(program.instructions)
    ensures program.len == program.instructions.Length <= 1031
    ensures program.instructions[..] == Program(Numbers(selection.words[..]))
    ensures forall data :: Run(program.instructions[..], data) == Some(Verdict(Numbers(selection.words[..]), data))
  {
    var words := selection.words[..];
    ghost var numbers := Numbers(words);
    var count := TestCount(selection);
    ProgramShape(numbers);
    var capacity := 7 + count * 2;
    program := new SeccompProgram(capacity);
    program.AppendHeader();
    program.AppendTests(words, numbers);
    program.Append(RET_K, 0, 0, RET_ALLOW);
    assert program.instructions[..program.len] == program.instructions[..] == Program(numbers);
    AlwaysTheVerdict(numbers);
  }

  lemma AlwaysTheVerdict(numbers: set<int>)
    requires InRange(numbers)
    ensures forall data :: Run(Program(numbers), data) == Some(Verdict(numbers, data))
  {
    forall data ensures Run(Program(numbers), data) == Some(Verdict(numbers, data)) {
      ProgramMeansFilter(numbers, data);
    }
  }
}
