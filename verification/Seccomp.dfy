/**
 * The seccomp-BPF assembler (pkg/cage/src/seccomp.rs) and the machine its output runs on.
 *
 * The interpreter covers the classic-BPF instructions a seccomp filter of this shape may use; any
 * other instruction, a load outside seccomp_data and a jump past the end are faults.
 */
module Seccomp {
  import opened Collections
  import opened Wrappers

  newtype u8 = n: int | 0 <= n < 0x100
  newtype u32 = n: int | 0 <= n < 0x1_0000_0000

  /** One instruction (struct sock_filter). */
  datatype SockFilter = SockFilter(code: bv16, jt: u8, jf: u8, k: u32)

  const BPF_LD: bv16 := 0x00
  const BPF_W: bv16 := 0x00
  const BPF_ABS: bv16 := 0x20
  const BPF_JMP: bv16 := 0x05
  const BPF_JEQ: bv16 := 0x10
  const BPF_RET: bv16 := 0x06
  const BPF_K: bv16 := 0x00

  const SECCOMP_RET_ALLOW: u32 := 0x7fff_0000
  const SECCOMP_RET_LOG: u32 := 0x7ffc_0000
  const SECCOMP_RET_KILL_PROCESS: u32 := 0x8000_0000

  const SECCOMP_DATA_NR_OFFSET: u32 := 0

  // ---------------------------------------------------------------- the machine

  /** seccomp_data as 16 words: nr, arch, instruction pointer (2), six arguments (12). */
  type SeccompData = d: seq<u32> | |d| == 16 witness seq(16, _ => 0)

  datatype Outcome = Return(action: u32) | Fault

  predicate IsLoad(i: SockFilter) { i.code == 0x20 }
  predicate IsJumpEq(i: SockFilter) { i.code == 0x15 }
  predicate IsReturn(i: SockFilter) { i.code == 0x06 }

  predicate LoadInRange(i: SockFilter) {
    i.k as int % 4 == 0 && i.k as int < 64
  }

  /** Run from `pc` with accumulator `a`; offsets count from the next instruction. */
  function Exec(prog: seq<SockFilter>, data: SeccompData, pc: nat, a: u32): Outcome
    decreases if pc < |prog| then |prog| - pc else 0
  {
    if pc >= |prog| then Fault
    else
      var i := prog[pc];
      if IsReturn(i) then Return(i.k)
      else if IsLoad(i) && LoadInRange(i) then Exec(prog, data, pc + 1, data[i.k as int / 4])
      else if IsJumpEq(i) then Exec(prog, data, pc + 1 + (if a == i.k then i.jt else i.jf) as int, a)
      else Fault
  }

  /** What a kernel checker asks of a filter before accepting it. */
  ghost predicate Accepted(prog: seq<SockFilter>) {
    && 0 < |prog| <= 4096
    && IsReturn(prog[|prog| - 1])
    && forall pc :: 0 <= pc < |prog| ==> AcceptedAt(prog, pc)
  }

  ghost predicate AcceptedAt(prog: seq<SockFilter>, pc: nat)
    requires pc < |prog|
  {
    var i := prog[pc];
    || IsReturn(i)
    || (IsLoad(i) && LoadInRange(i))
    || (IsJumpEq(i) && pc + 1 + i.jt as int < |prog| && pc + 1 + i.jf as int < |prog|)
  }

  /** An accepted filter always halts with an action, on whatever data. */
  lemma {:induction false} AcceptedNeverFaults(prog: seq<SockFilter>, data: SeccompData, pc: nat, a: u32)
    requires Accepted(prog) && pc < |prog|
    ensures Exec(prog, data, pc, a).Return?
    decreases |prog| - pc
  {
    var i := prog[pc];
    assert AcceptedAt(prog, pc);
    if IsReturn(i) {
    } else if IsLoad(i) && LoadInRange(i) {
      AcceptedNeverFaults(prog, data, pc + 1, data[i.k as int / 4]);
    } else {
      AcceptedNeverFaults(prog, data, pc + 1 + (if a == i.k then i.jt else i.jf) as int, a);
    }
  }

  // ---------------------------------------------------------------- the assembler

  /** The set of allowed numbers, as the source keeps it: 64-bit signed. */
  datatype SeccompProfile = SeccompProfile(allowed: set<int>)

  datatype SeccompError = TooManySyscalls(count: nat)

  function BpfStmt(code: bv16, k: u32): SockFilter {
    SockFilter(code, 0, 0, k)
  }

  function BpfJump(code: bv16, k: u32, jt: u8, jf: u8): SockFilter {
    SockFilter(code, jt, jf, k)
  }

  /** The casts `as u32` and `as u8`: truncation. */
  function AsU32(n: int): u32 { (n % 0x1_0000_0000) as u32 }

  function AsU8(n: nat): u8 { (n % 0x100) as u8 }

  function DefaultAction(kill: bool): u32 {
    if kill then SECCOMP_RET_KILL_PROCESS else SECCOMP_RET_LOG
  }

  /** The numbers in the order the set yields them, cast to 32 bits. */
  function CastAll(numbers: seq<int>): (syscalls: seq<u32>)
    ensures |syscalls| == |numbers| && forall i :: 0 <= i < |numbers| ==> syscalls[i] == AsU32(numbers[i])
  {
    seq(|numbers|, i requires 0 <= i < |numbers| => AsU32(numbers[i]))
  }

  lemma {:induction false} CastMembers(allowed: set<int>, numbers: seq<int>, nr: u32)
    requires forall n :: n in numbers <==> n in allowed
    ensures nr in CastAll(numbers) <==> InProfile(allowed, nr)
  {
    var syscalls := CastAll(numbers);
    if nr in syscalls {
      var i :| 0 <= i < |syscalls| && syscalls[i] == nr;
      assert numbers[i] in allowed && numbers[i] % 0x1_0000_0000 == nr as int;
    }
    if n :| n in allowed && n % 0x1_0000_0000 == nr as int {
      var i :| 0 <= i < |numbers| && numbers[i] == n;
      assert syscalls[i] == nr;
    }
  }

  ghost predicate InProfile(allowed: set<int>, nr: u32) {
    exists n :: n in allowed && n % 0x1_0000_0000 == nr as int
  }

  /** The intended program: one JEQ per number, then the two returns. */
  ghost predicate IsFilterFor(prog: seq<SockFilter>, syscalls: seq<u32>, default: u32) {
    && |prog| == |syscalls| + 3
    && IsLoad(prog[0]) && prog[0].k == 0
    && (forall i :: 0 <= i < |syscalls| ==> IsTest(prog[1 + i], syscalls[i], |syscalls| - i))
    && IsReturn(prog[|prog| - 2]) && prog[|prog| - 2].k == default
    && IsReturn(prog[|prog| - 1]) && prog[|prog| - 1].k == SECCOMP_RET_ALLOW
  }

  predicate IsTest(i: SockFilter, nr: u32, jt: int) {
    IsJumpEq(i) && i.k == nr && i.jt as int == jt && i.jf == 0
  }

  lemma Opcodes(k: u32, jt: u8, jf: u8)
    ensures IsLoad(BpfStmt(BPF_LD | BPF_W | BPF_ABS, k))
    ensures IsJumpEq(BpfJump(BPF_JMP | BPF_JEQ | BPF_K, k, jt, jf))
    ensures IsReturn(BpfStmt(BPF_RET | BPF_K, k))
  {
  }

  /**
   * assemble_bpf. More than 255 numbers are refused; any other profile gives a filter the kernel
   * accepts and that, for every call, answers ALLOW exactly for the numbers of the profile.
   */
  method AssembleBpf(profile: SeccompProfile, kill: bool) returns (r: Result<seq<SockFilter>, SeccompError>)
    ensures r.Failure? <==> |profile.allowed| > 255
    ensures r.Failure? ==> r.error == TooManySyscalls(|profile.allowed|)
    ensures r.Success? ==> Accepted(r.value) && |r.value| == |profile.allowed| + 3
    ensures r.Success? ==> forall data: SeccompData ::
              Exec(r.value, data, 0, 0)
              == Return(if InProfile(profile.allowed, data[0]) then 0x7fff_0000 else if kill then 0x8000_0000 else 0x7ffc_0000)
  {
    var numbers := Enumerate(profile.allowed);
    var syscalls := CastAll(numbers);
    var count := |syscalls|;
    if count > 255 { return Failure(TooManySyscalls(count)); }

    var prog := [BpfStmt(BPF_LD | BPF_W | BPF_ABS, SECCOMP_DATA_NR_OFFSET)];
    Opcodes(SECCOMP_DATA_NR_OFFSET, 0, 0);
    for i := 0 to count
      invariant |prog| == i + 1 && IsLoad(prog[0]) && prog[0].k == 0
      invariant forall j :: 0 <= j < i ==> IsTest(prog[1 + j], syscalls[j], count - j)
    {
      var remaining := count - i - 1;
      var jt := AsU8(remaining + 1);
      Opcodes(syscalls[i], jt, 0);
      prog := prog + [BpfJump(BPF_JMP | BPF_JEQ | BPF_K, syscalls[i], jt, 0)];
    }
    Opcodes(DefaultAction(kill), 0, 0);
    Opcodes(SECCOMP_RET_ALLOW, 0, 0);
    prog := prog + [BpfStmt(BPF_RET | BPF_K, DefaultAction(kill))];
    prog := prog + [BpfStmt(BPF_RET | BPF_K, SECCOMP_RET_ALLOW)];

    FilterAccepted(prog, syscalls, DefaultAction(kill));
    forall data: SeccompData
      ensures Exec(prog, data, 0, 0)
           == Return(if InProfile(profile.allowed, data[0]) then 0x7fff_0000 else if kill then 0x8000_0000 else 0x7ffc_0000)
    {
      FilterVerdict(prog, syscalls, DefaultAction(kill), data, 0);
      CastMembers(profile.allowed, numbers, data[0]);
      assert syscalls[0..] == syscalls;
    }
    return Success(prog);
  }

  lemma FilterAccepted(prog: seq<SockFilter>, syscalls: seq<u32>, default: u32)
    requires |syscalls| <= 255 && IsFilterFor(prog, syscalls, default)
    ensures Accepted(prog)
  {
    forall pc | 0 <= pc < |prog| ensures AcceptedAt(prog, pc) {
      if 1 <= pc <= |syscalls| { assert IsTest(prog[1 + (pc - 1)], syscalls[pc - 1], |syscalls| - (pc - 1)); }
    }
  }

  /** From the i-th test on, the filter looks for the number among the remaining ones. */
  lemma {:induction false} FilterVerdict(prog: seq<SockFilter>, syscalls: seq<u32>, default: u32, data: SeccompData, i: nat)
    requires IsFilterFor(prog, syscalls, default) && i <= |syscalls|
    ensures Exec(prog, data, 1 + i, data[0])
         == Return(if data[0] in syscalls[i..] then SECCOMP_RET_ALLOW else default)
    decreases |syscalls| - i
  {
    if i < |syscalls| {
      assert IsTest(prog[1 + i], syscalls[i], |syscalls| - i);
      assert syscalls[i..] == [syscalls[i]] + syscalls[i + 1..];
      if data[0] == syscalls[i] {
        assert Exec(prog, data, |prog| - 1, data[0]) == Return(SECCOMP_RET_ALLOW);
      } else {
        FilterVerdict(prog, syscalls, default, data, i + 1);
      }
    } else {
      assert syscalls[i..] == [];
    }
  }

  // ---------------------------------------------------------------- profiles from manifests

  /** The parts of a manifest that decide the profile. */
  datatype Capabilities = Capabilities(shell: bool, allow: seq<string>)

  // x86_64 numbers of the constants the source takes from libc, in the source's order.
  const VMM_BASE_A: seq<int> := [
    0, 1, 3, 9, 10, 11, 12, 16, 257, 262, 8, 17, 18, 19, 20, 21, 293, 23, 7, 291, 233, 232, 228]
  const VMM_BASE_B: seq<int> := [
    229, 35, 202, 231, 60, 13, 14, 15, 131, 158, 218, 273, 302, 318, 290, 283, 286, 24, 204, 435, 61, 72,
    39]
  const VMM_BASE_C: seq<int> := [
    186, 234, 28, 25, 77, 32, 33, 292, 157, 334, 125, 126, 332, 102, 104, 107, 108, 112, 95, 79, 203, 230,
    271]
  const VMM_BASE_D: seq<int> := [
    281, 138, 263, 258, 316, 319, 326, 295, 296, 327, 328, 193, 190, 196, 285, 91, 268, 93, 260, 265, 266,
    267, 280]
  const VMM_BASE: seq<int> := VMM_BASE_A + VMM_BASE_B + VMM_BASE_C + VMM_BASE_D

  const NETWORK_SYSCALLS: seq<int> := [41, 42, 49, 50, 288, 44, 45, 46, 47, 55, 54, 52, 51, 48]

  const SHELL_SYSCALLS: seq<int> := [59, 322, 57, 58, 56]

  function Elements(s: seq<int>): set<int> { set n | n in s }

  method BuildProfile(capabilities: Capabilities) returns (profile: SeccompProfile)
    ensures forall n :: n in profile.allowed <==> Granted(capabilities, n)
    ensures |profile.allowed| <= 255
  {
    var allowed := Elements(VMM_BASE);
    if capabilities.shell { allowed := allowed + Elements(SHELL_SYSCALLS); }
    if capabilities.allow != [] { allowed := allowed + Elements(NETWORK_SYSCALLS); }
    ElementsSize(VMM_BASE);
    ElementsSize(SHELL_SYSCALLS);
    ElementsSize(NETWORK_SYSCALLS);
    profile := SeccompProfile(allowed);
  }

  predicate Granted(capabilities: Capabilities, n: int) {
    || n in VMM_BASE
    || (capabilities.shell && n in SHELL_SYSCALLS)
    || (capabilities.allow != [] && n in NETWORK_SYSCALLS)
  }

  lemma {:induction false} ElementsSize(s: seq<int>)
    ensures |Elements(s)| <= |s|
  {
    if s != [] {
      var init, last := s[..|s| - 1], s[|s| - 1];
      ElementsSize(init);
      assert Elements(s) == Elements(init) + {last} by { assert s == init + [last]; }
    }
  }

  /** socket, connect, sendto to listen, getsockname, getpeername, setsockopt, getsockopt and accept4. */
  predicate NetworkRange(n: int) { 41 <= n <= 42 || 44 <= n <= 52 || 54 <= n <= 55 || n == 288 }

  /** clone, fork, vfork, execve, execveat. */
  predicate ShellRange(n: int) { 56 <= n <= 59 || n == 322 }

  predicate RangeA(n: int) {
    || 0 <= n <= 1 || n == 3 || 7 <= n <= 12 || 16 <= n <= 21 || n == 23 || n == 228 || 232 <= n <= 233
    || n == 257 || n == 262 || n == 291 || n == 293
  }

  predicate RangeB(n: int) {
    || 13 <= n <= 15 || n == 24 || n == 35 || n == 39 || 60 <= n <= 61 || n == 72 || n == 131 || n == 158
    || n == 202 || n == 204 || n == 218 || n == 229 || n == 231 || n == 273 || n == 283 || n == 286 || n == 290
    || n == 302 || n == 318 || n == 435
  }

  predicate RangeC(n: int) {
    || n == 25 || n == 28 || 32 <= n <= 33 || n == 77 || n == 79 || n == 95 || n == 102 || n == 104
    || 107 <= n <= 108 || n == 112 || 125 <= n <= 126 || n == 157 || n == 186 || n == 203 || n == 230
    || n == 234 || n == 271 || n == 292 || n == 332 || n == 334
  }

  predicate RangeD(n: int) {
    || n == 91 || n == 93 || n == 138 || n == 190 || n == 193 || n == 196 || n == 258 || n == 260 || n == 263
    || 265 <= n <= 268 || 280 <= n <= 281 || n == 285 || 295 <= n <= 296 || n == 316 || n == 319
    || 326 <= n <= 328
  }

  /** Every number granted to all manifests. */
  predicate BaseRange(n: int) {
    RangeA(n) || RangeB(n) || RangeC(n) || RangeD(n)
  }

  lemma BaseA(n: int)
    ensures n in VMM_BASE_A <==> RangeA(n)
  {
    var s := VMM_BASE_A;
    assert s[0] == 0 && s[1] == 1 && s[2] == 3 && s[3] == 9 && s[4] == 10 && s[5] == 11 && s[6] == 12;
    assert s[7] == 16 && s[8] == 257 && s[9] == 262 && s[10] == 8 && s[11] == 17 && s[12] == 18 && s[13] == 19;
    assert s[14] == 20 && s[15] == 21 && s[16] == 293 && s[17] == 23 && s[18] == 7 && s[19] == 291;
    assert s[20] == 233 && s[21] == 232 && s[22] == 228;
  }

  lemma BaseB(n: int)
    ensures n in VMM_BASE_B <==> RangeB(n)
  {
    var s := VMM_BASE_B;
    assert s[0] == 229 && s[1] == 35 && s[2] == 202 && s[3] == 231 && s[4] == 60 && s[5] == 13 && s[6] == 14;
    assert s[7] == 15 && s[8] == 131 && s[9] == 158 && s[10] == 218 && s[11] == 273 && s[12] == 302;
    assert s[13] == 318 && s[14] == 290 && s[15] == 283 && s[16] == 286 && s[17] == 24 && s[18] == 204;
    assert s[19] == 435 && s[20] == 61 && s[21] == 72 && s[22] == 39;
  }

  lemma BaseC(n: int)
    ensures n in VMM_BASE_C <==> RangeC(n)
  {
    var s := VMM_BASE_C;
    assert s[0] == 186 && s[1] == 234 && s[2] == 28 && s[3] == 25 && s[4] == 77 && s[5] == 32 && s[6] == 33;
    assert s[7] == 292 && s[8] == 157 && s[9] == 334 && s[10] == 125 && s[11] == 126 && s[12] == 332;
    assert s[13] == 102 && s[14] == 104 && s[15] == 107 && s[16] == 108 && s[17] == 112 && s[18] == 95;
    assert s[19] == 79 && s[20] == 203 && s[21] == 230 && s[22] == 271;
  }

  lemma BaseD(n: int)
    ensures n in VMM_BASE_D <==> RangeD(n)
  {
    var s := VMM_BASE_D;
    assert s[0] == 281 && s[1] == 138 && s[2] == 263 && s[3] == 258 && s[4] == 316 && s[5] == 319;
    assert s[6] == 326 && s[7] == 295 && s[8] == 296 && s[9] == 327 && s[10] == 328 && s[11] == 193;
    assert s[12] == 190 && s[13] == 196 && s[14] == 285 && s[15] == 91 && s[16] == 268 && s[17] == 93;
    assert s[18] == 260 && s[19] == 265 && s[20] == 266 && s[21] == 267 && s[22] == 280;
  }

  lemma OptionalGroups(n: int)
    ensures n in NETWORK_SYSCALLS <==> NetworkRange(n)
    ensures n in SHELL_SYSCALLS <==> ShellRange(n)
  {
    var s := NETWORK_SYSCALLS;
    assert s[0] == 41 && s[1] == 42 && s[2] == 49 && s[3] == 50 && s[4] == 288 && s[5] == 44 && s[6] == 45;
    assert s[7] == 46 && s[8] == 47 && s[9] == 55 && s[10] == 54 && s[11] == 52 && s[12] == 51 && s[13] == 48;
    var t := SHELL_SYSCALLS;
    assert t[0] == 59 && t[1] == 322 && t[2] == 57 && t[3] == 58 && t[4] == 56;
  }

  lemma BaseNumbers(n: int)
    ensures n in VMM_BASE <==> BaseRange(n)
  {
    BaseA(n);
    BaseB(n);
    BaseC(n);
    BaseD(n);
  }

  /** The three groups share no number, so each capability alone decides its own group. */
  lemma GroupsAreDisjoint(n: int)
    ensures n in VMM_BASE ==> n !in NETWORK_SYSCALLS && n !in SHELL_SYSCALLS
    ensures n in NETWORK_SYSCALLS ==> n !in SHELL_SYSCALLS
    ensures n in VMM_BASE + NETWORK_SYSCALLS + SHELL_SYSCALLS ==> 0 <= n < 500
  {
    BaseNumbers(n);
    OptionalGroups(n);
  }

  /** Every manifest yields a filter, and the groups it was granted decide every verdict. */
  method FilterForManifest(capabilities: Capabilities, kill: bool) returns (prog: seq<SockFilter>)
    ensures Accepted(prog)
    ensures forall data: SeccompData ::
              Exec(prog, data, 0, 0)
              == Return(if Granted(capabilities, data[0] as int) then 0x7fff_0000 else if kill then 0x8000_0000 else 0x7ffc_0000)
    ensures forall data: SeccompData ::
              var nr := data[0] as int;
              Exec(prog, data, 0, 0) == Return(0x7fff_0000) <==>
                || BaseRange(nr)
                || (NetworkRange(nr) && capabilities.allow != [])
                || (ShellRange(nr) && capabilities.shell)
  {
    var profile := BuildProfile(capabilities);
    var assembled := AssembleBpf(profile, kill);
    prog := assembled.value;
    forall n | n in profile.allowed ensures 0 <= n < 500 { GrantedIsSmall(capabilities, n); }
    forall nr: u32 ensures InProfile(profile.allowed, nr) <==> nr as int in profile.allowed {
      SmallNumbersFit(profile.allowed, nr);
    }
    forall n
      ensures Granted(capabilities, n) <==>
                BaseRange(n) || (NetworkRange(n) && capabilities.allow != []) || (ShellRange(n) && capabilities.shell)
    {
      BaseNumbers(n);
      OptionalGroups(n);
    }
  }

  lemma GrantedIsSmall(capabilities: Capabilities, n: int)
    requires Granted(capabilities, n)
    ensures 0 <= n < 500
  {
    GroupsAreDisjoint(n);
  }

  /** Small numbers survive the cast to 32 bits. */
  lemma SmallNumbersFit(allowed: set<int>, nr: u32)
    requires forall n :: n in allowed ==> 0 <= n < 500
    ensures InProfile(allowed, nr) <==> nr as int in allowed
  {
  }

  /** A shell syscall is granted exactly by the shell capability, a network one by a non-empty allow list. */
  lemma CapabilitiesDecide(capabilities: Capabilities, n: int)
    ensures n in SHELL_SYSCALLS ==> (Granted(capabilities, n) <==> capabilities.shell)
    ensures n in NETWORK_SYSCALLS ==> (Granted(capabilities, n) <==> capabilities.allow != [])
    ensures n in VMM_BASE ==> Granted(capabilities, n)
  {
    GroupsAreDisjoint(n);
  }
}
