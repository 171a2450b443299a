/**
 * The seccomp profiles of worker/sandbox/seccomp.py.  Interpreted runtimes get a default-deny
 * profile, toolchain runtimes a default-allow one; the two are shaped differently and must mean
 * the same thing for clone, clone3 and every dangerous call.
 */
module Seccomp {
  import opened RedisModel

  const EPERM: nat := 1
  const ENOSYS: nat := 38

  datatype Action = Allow | Errno(code: nat)

  // SCMP_CMP_MASKED_EQ on argument 0.
  datatype MaskedEq = MaskedEq(mask: bv64, value: bv64)

  datatype Rule = Rule(names: set<string>, action: Action, arg: Option<MaskedEq>)

  datatype Profile = Profile(fallback: Action, rules: seq<Rule>)

  datatype Syscall = Syscall(name: string, arg0: bv64)

  predicate Matches(rule: Rule, call: Syscall) {
    && call.name in rule.names
    && (rule.arg.Some? ==> call.arg0 & rule.arg.value.mask == rule.arg.value.value)
  }

  // The profile may answer `call` with `outcome`: some matching rule says so, in whatever order the
  // filter tries them, or no rule matches and the default action says so.
  ghost predicate Answers(p: Profile, call: Syscall, outcome: Action) {
    || (exists i :: 0 <= i < |p.rules| && Matches(p.rules[i], call) && p.rules[i].action == outcome)
    || (outcome == p.fallback && forall i :: 0 <= i < |p.rules| ==> !Matches(p.rules[i], call))
  }

  // ---- the namespace flags of clone ----------------------------------------------------------

  const CLONE_NAMESPACE_MASK: bv64 := 0x7E020000

  const CLONE_NAMESPACE_FLAGS: seq<bv64> := [
    0x00020000, 0x02000000, 0x04000000, 0x08000000, 0x10000000, 0x20000000, 0x40000000
  ]

  predicate AnySet(arg: bv64, flag: bv64) {
    arg & flag != 0
  }

  predicate AllSet(arg: bv64, flag: bv64) {
    arg & flag == flag
  }

  ghost predicate SomeFlagSet(arg: bv64, flags: seq<bv64>) {
    exists i :: 0 <= i < |flags| && AnySet(arg, flags[i])
  }

  ghost predicate CreatesNamespace(arg: bv64) {
    SomeFlagSet(arg, CLONE_NAMESPACE_FLAGS)
  }

  // A flag is a single bit, so "every bit of the flag" and "some bit of the flag" coincide.
  lemma FlagIsOneBit(arg: bv64, i: nat)
    requires i < |CLONE_NAMESPACE_FLAGS|
    ensures AllSet(arg, CLONE_NAMESPACE_FLAGS[i]) <==> AnySet(arg, CLONE_NAMESPACE_FLAGS[i])
  {
    if i == 0 {} else if i == 1 {} else if i == 2 {} else if i == 3 {}
    else if i == 4 {} else if i == 5 {} else { assert i == 6; }
  }

  lemma MaskSplits(arg: bv64)
    ensures arg & 0x7E020000 == 0 <==>
            arg & 0x00020000 == 0 && arg & 0x02000000 == 0 && arg & 0x04000000 == 0 && arg & 0x08000000 == 0
            && arg & 0x10000000 == 0 && arg & 0x20000000 == 0 && arg & 0x40000000 == 0
  {}

  // The one mask of the default-deny profile covers exactly the seven flags of the other.
  lemma MaskIsFlags(arg: bv64)
    ensures arg & CLONE_NAMESPACE_MASK == 0 <==> !CreatesNamespace(arg)
  {
    MaskSplits(arg);
    var flags := CLONE_NAMESPACE_FLAGS;
    if !CreatesNamespace(arg) {
      assert !AnySet(arg, flags[0]) && !AnySet(arg, flags[1]) && !AnySet(arg, flags[2]) && !AnySet(arg, flags[3])
          && !AnySet(arg, flags[4]) && !AnySet(arg, flags[5]) && !AnySet(arg, flags[6]);
    }
  }

  // ---- the name lists --------------------------------------------------------------------------

  predicate NoClone(names: set<string>) {
    "clone" !in names && "clone3" !in names
  }

  // Tracing, kernel modules, mounts and namespaces.
  function KernelAndMounts(): (names: set<string>)
    ensures NoClone(names)
  {{
    "ptrace", "process_vm_readv", "process_vm_writev", "kcmp", "init_module", "finit_module",
    "delete_module", "create_module", "get_kernel_syms", "query_module", "mount", "umount", "umount2",
    "mount_setattr", "move_mount", "open_tree", "fsopen", "fsconfig", "fspick", "pivot_root", "chroot",
    "unshare", "setns"
  }}

  // Tracing of the kernel itself, keyrings, asynchronous I/O, power, clocks and accounting.
  function AsyncAndPower(): (names: set<string>)
    ensures NoClone(names)
  {{
    "bpf", "keyctl", "add_key", "request_key", "perf_event_open", "userfaultfd", "io_uring_setup",
    "io_uring_enter", "io_uring_register", "io_setup", "io_destroy", "io_submit", "io_cancel",
    "io_getevents", "kexec_load", "kexec_file_load", "reboot", "swapon", "swapoff", "settimeofday", "stime",
    "clock_settime", "clock_settime64", "clock_adjtime", "clock_adjtime64", "adjtimex", "acct", "quotactl",
    "nfsservctl"
  }}

  // Privileged hardware, handles, legacy calls, anonymous executables, devices and identity changes.
  function HardwareAndIdentity(): (names: set<string>)
    ensures NoClone(names)
  {{
    "ioperm", "iopl", "modify_ldt", "vm86", "vm86old", "personality", "open_by_handle_at",
    "name_to_handle_at", "fanotify_init", "fanotify_mark", "lookup_dcookie", "sysfs", "_sysctl", "vhangup",
    "memfd_create", "memfd_secret", "mknod", "mknodat", "setuid", "setgid", "setreuid", "setregid",
    "setresuid", "setresgid", "setfsuid", "setfsgid", "setgroups", "capset"
  }}

  // Reading, writing, opening and seeking.
  function FileTransfer(): (names: set<string>)
    ensures NoClone(names)
  {{
    "read", "write", "readv", "writev", "pread64", "pwrite64", "preadv", "pwritev", "preadv2", "pwritev2",
    "open", "openat", "openat2", "close", "close_range", "creat", "lseek", "_llseek", "dup", "dup2", "dup3"
  }}

  // Pipes, locks, syncing and splicing.
  function FileControl(): (names: set<string>)
    ensures NoClone(names)
  {{
    "pipe", "pipe2", "fcntl", "fcntl64", "flock", "fsync", "fdatasync", "sync", "syncfs", "sync_file_range",
    "fadvise64", "fadvise64_64", "readahead", "sendfile", "sendfile64", "copy_file_range", "splice", "tee",
    "vmsplice", "ioctl"
  }}

  // Status, directories, renaming.
  function FileStatus(): (names: set<string>)
    ensures NoClone(names)
  {{
    "stat", "fstat", "lstat", "newfstatat", "statx", "fstatat64", "stat64", "lstat64", "fstat64", "statfs",
    "fstatfs", "statfs64", "fstatfs64", "getdents", "getdents64", "getcwd", "chdir", "fchdir", "rename",
    "renameat", "renameat2", "mkdir", "mkdirat", "rmdir", "link", "linkat"
  }}

  // Links, permissions, lengths and times.
  function FileAttributes(): (names: set<string>)
    ensures NoClone(names)
  {{
    "unlink", "unlinkat", "symlink", "symlinkat", "readlink", "readlinkat", "chmod", "fchmod", "fchmodat",
    "chown", "fchown", "lchown", "fchownat", "umask", "access", "faccessat", "faccessat2", "truncate",
    "ftruncate", "truncate64", "ftruncate64", "utime", "utimes", "utimensat", "utimensat_time64", "futimesat"
  }}

  function Memory(): (names: set<string>)
    ensures NoClone(names)
  {{
    "mmap", "mmap2", "munmap", "mremap", "mprotect", "msync", "mincore", "madvise", "mlock", "munlock",
    "mlock2", "mlockall", "munlockall", "brk", "get_mempolicy", "set_mempolicy", "membarrier"
  }}

  function Signals(): (names: set<string>)
    ensures NoClone(names)
  {{
    "rt_sigaction", "rt_sigprocmask", "rt_sigreturn", "rt_sigpending", "rt_sigsuspend", "rt_sigtimedwait",
    "rt_sigtimedwait_time64", "rt_sigqueueinfo", "rt_tgsigqueueinfo", "sigaltstack", "signalfd", "signalfd4",
    "kill", "tgkill", "tkill"
  }}

  // Process identity, read-only or self-only.
  function Identity(): (names: set<string>)
    ensures NoClone(names)
  {{
    "getpid", "getppid", "gettid", "getuid", "geteuid", "getgid", "getegid", "getgroups", "getresuid",
    "getresgid", "getpgrp", "getpgid", "setpgid", "getsid", "setsid", "getpriority", "setpriority",
    "set_tid_address", "set_robust_list", "get_robust_list", "prctl", "arch_prctl", "getcpu", "capget"
  }}

  // Process lifecycle, threads and scheduling.
  function LifecycleAndThreads(): (names: set<string>)
    ensures NoClone(names)
  {{
    "execve", "execveat", "fork", "vfork", "exit", "exit_group", "wait4", "waitid", "futex", "futex_waitv",
    "futex_time64", "set_thread_area", "get_thread_area", "sched_yield", "sched_getaffinity",
    "sched_setaffinity", "sched_getparam", "sched_setparam", "sched_getscheduler", "sched_setscheduler",
    "sched_get_priority_max", "sched_get_priority_min", "sched_rr_get_interval",
    "sched_rr_get_interval_time64", "sched_getattr", "sched_setattr", "rseq"
  }}

  // Time, sleeping, limits and system information.
  function TimeAndLimits(): (names: set<string>)
    ensures NoClone(names)
  {{
    "nanosleep", "clock_nanosleep", "clock_nanosleep_time64", "clock_gettime", "clock_gettime64",
    "clock_getres", "clock_getres_time64", "gettimeofday", "time", "times", "getrandom", "getrlimit",
    "setrlimit", "prlimit64", "getrusage", "uname", "sysinfo"
  }}

  // Polling and events.
  function Polling(): (names: set<string>)
    ensures NoClone(names)
  {{
    "poll", "ppoll", "ppoll_time64", "select", "_newselect", "pselect6", "pselect6_time64", "epoll_create",
    "epoll_create1", "epoll_ctl", "epoll_wait", "epoll_pwait", "epoll_pwait2", "eventfd", "eventfd2",
    "timerfd_create", "timerfd_settime", "timerfd_settime64", "timerfd_gettime", "timerfd_gettime64",
    "inotify_init", "inotify_init1", "inotify_add_watch", "inotify_rm_watch", "restart_syscall"
  }}

  // Added only when the runtime is granted egress.
  function NetworkSyscalls(): (names: set<string>)
    ensures NoClone(names)
  {{
    "socket", "connect", "bind", "listen", "accept", "accept4", "getsockname", "getpeername", "sendto",
    "recvfrom", "sendmsg", "recvmsg", "sendmmsg", "recvmmsg", "recvmmsg_time64", "getsockopt", "setsockopt",
    "shutdown"
  }}

  function DangerousSyscalls(): (names: set<string>)
    ensures NoClone(names)
  {
    KernelAndMounts() + AsyncAndPower() + HardwareAndIdentity()
  }

  function CommonSyscalls(): (names: set<string>)
    ensures NoClone(names)
  {
    FileTransfer() + FileControl() + FileStatus() + FileAttributes() + Memory() + Signals() + Identity()
    + LifecycleAndThreads() + TimeAndLimits() + Polling()
  }

  function LanguageExtra(language: string): (names: set<string>)
    ensures NoClone(names)
  {
    if language == "javascript" || language == "typescript" then {"epoll_pwait", "statx"}
    else if language == "java" then {"get_mempolicy", "set_mempolicy", "getcpu", "sched_setaffinity"}
    else if language == "go" then {"sched_getaffinity", "rseq"}
    else {}
  }

  // The lists joined, then the dangerous names subtracted whatever the lists said.
  method AllowedSyscalls(language: string, networkEnabled: bool) returns (allowed: set<string>)
    ensures forall name :: name in allowed <==> Allowable(language, networkEnabled, name)
  {
    allowed := CommonSyscalls() + LanguageExtra(language);
    allowed := allowed + {"socketpair"};
    if networkEnabled {
      allowed := allowed + NetworkSyscalls();
    }
    allowed := allowed - DangerousSyscalls();
  }

  predicate Allowable(language: string, networkEnabled: bool, name: string) {
    && name !in DangerousSyscalls()
    && (|| name in CommonSyscalls() || name in LanguageExtra(language) || name == "socketpair"
        || (networkEnabled && name in NetworkSyscalls()))
  }

  // No network name is on any other list.
  lemma KernelAndMountsApart()
    ensures NetworkSyscalls() !! KernelAndMounts()
  {}

  lemma AsyncAndPowerApart()
    ensures NetworkSyscalls() !! AsyncAndPower()
  {}

  lemma HardwareAndIdentityApart()
    ensures NetworkSyscalls() !! HardwareAndIdentity()
  {}

  lemma FileTransferApart()
    ensures NetworkSyscalls() !! FileTransfer()
  {}

  lemma FileControlApart()
    ensures NetworkSyscalls() !! FileControl()
  {}

  lemma FileStatusApart()
    ensures NetworkSyscalls() !! FileStatus()
  {}

  lemma FileAttributesApart()
    ensures NetworkSyscalls() !! FileAttributes()
  {}

  lemma MemoryApart()
    ensures NetworkSyscalls() !! Memory()
  {}

  lemma SignalsApart()
    ensures NetworkSyscalls() !! Signals()
  {}

  lemma IdentityApart()
    ensures NetworkSyscalls() !! Identity()
  {}

  lemma LifecycleAndThreadsApart()
    ensures NetworkSyscalls() !! LifecycleAndThreads()
  {}

  lemma TimeAndLimitsApart()
    ensures NetworkSyscalls() !! TimeAndLimits()
  {}

  lemma PollingApart()
    ensures NetworkSyscalls() !! Polling()
  {}

  lemma NetworkNotDangerous(name: string)
    requires name in NetworkSyscalls()
    ensures name !in DangerousSyscalls()
  {
    KernelAndMountsApart();
    AsyncAndPowerApart();
    HardwareAndIdentityApart();
  }

  lemma NetworkNotFiles(name: string)
    requires name in NetworkSyscalls()
    ensures name !in FileTransfer() && name !in FileControl() && name !in FileStatus() && name !in FileAttributes()
  {
    FileTransferApart();
    FileControlApart();
    FileStatusApart();
    FileAttributesApart();
  }

  lemma NetworkNotProcess(name: string)
    requires name in NetworkSyscalls()
    ensures name !in Memory() && name !in Signals() && name !in Identity()
    ensures name !in LifecycleAndThreads() && name !in TimeAndLimits() && name !in Polling()
  {
    MemoryApart();
    SignalsApart();
    IdentityApart();
    LifecycleAndThreadsApart();
    TimeAndLimitsApart();
    PollingApart();
  }

  lemma NetworkNotExtra(name: string, language: string)
    requires name in NetworkSyscalls()
    ensures name !in LanguageExtra(language) && name != "socketpair"
  {}

  // A network name is on the list exactly when the network is enabled.
  lemma NetworkAllowable(language: string, networkEnabled: bool, name: string)
    requires name in NetworkSyscalls()
    ensures Allowable(language, networkEnabled, name) <==> networkEnabled
  {
    NetworkNotDangerous(name);
    NetworkNotFiles(name);
    NetworkNotProcess(name);
    NetworkNotExtra(name, language);
  }

  lemma CloneNotAllowable(language: string, networkEnabled: bool)
    ensures !Allowable(language, networkEnabled, "clone") && !Allowable(language, networkEnabled, "clone3")
  {
    var common, extra, network := CommonSyscalls(), LanguageExtra(language), NetworkSyscalls();
    assert NoClone(common) && NoClone(extra) && NoClone(network);
  }

  // ---- the two profile shapes ------------------------------------------------------------------

  const CLONE3_RULE := Rule({"clone3"}, Errno(ENOSYS), None)

  function FlagRule(flag: bv64): Rule {
    Rule({"clone"}, Errno(EPERM), Some(MaskedEq(flag, flag)))
  }

  const BLOCKLIST_LANGUAGES: set<string> := {"typescript", "go", "rust"}

  // What a profile is meant to say about a call, with no reference to rules; `open` tells the
  // default-allow kind from the default-deny kind.
  ghost function Meaning(open: bool, language: string, networkEnabled: bool, call: Syscall): Action {
    if call.name == "clone" then
      if CreatesNamespace(call.arg0) then Errno(EPERM) else Allow
    else if call.name == "clone3" then Errno(ENOSYS)
    else if call.name in DangerousSyscalls() then Errno(EPERM)
    else if open || Allowable(language, networkEnabled, call.name) then Allow
    else Errno(EPERM)
  }

  // For every call the profile has exactly one answer, the meant one.
  ghost predicate Means(p: Profile, open: bool, language: string, networkEnabled: bool) {
    forall call, outcome :: Answers(p, call, outcome) <==> outcome == Meaning(open, language, networkEnabled, call)
  }

  function AllowlistProfile(allowed: set<string>): Profile {
    Profile(Errno(EPERM), [
      Rule(allowed, Allow, None),
      Rule({"clone"}, Allow, Some(MaskedEq(CLONE_NAMESPACE_MASK, 0))),
      CLONE3_RULE
    ])
  }

  lemma AllowlistMatches(allowed: set<string>, call: Syscall)
    ensures Matches(AllowlistProfile(allowed).rules[0], call) <==> call.name in allowed
    ensures Matches(AllowlistProfile(allowed).rules[1], call) <==> call.name == "clone" && !CreatesNamespace(call.arg0)
    ensures Matches(AllowlistProfile(allowed).rules[2], call) <==> call.name == "clone3"
  {
    MaskIsFlags(call.arg0);
  }

  // A profile of three rules that never match together answers as the one that matches.
  lemma ThreeRules(p: Profile, call: Syscall, outcome: Action)
    requires |p.rules| == 3
    ensures Answers(p, call, outcome) <==>
            || (Matches(p.rules[0], call) && p.rules[0].action == outcome)
            || (Matches(p.rules[1], call) && p.rules[1].action == outcome)
            || (Matches(p.rules[2], call) && p.rules[2].action == outcome)
            || (outcome == p.fallback
                && !Matches(p.rules[0], call) && !Matches(p.rules[1], call) && !Matches(p.rules[2], call))
  {
    if i :| 0 <= i < |p.rules| && Matches(p.rules[i], call) && p.rules[i].action == outcome {
      assert i == 0 || i == 1 || i == 2;
    }
  }

  lemma AllowlistAnswers(allowed: set<string>, call: Syscall, outcome: Action)
    requires NoClone(allowed)
    ensures Answers(AllowlistProfile(allowed), call, outcome) <==>
            outcome == (if call.name == "clone" then if CreatesNamespace(call.arg0) then Errno(EPERM) else Allow
                        else if call.name == "clone3" then Errno(ENOSYS)
                        else if call.name in allowed then Allow else Errno(EPERM))
  {
    AllowlistMatches(allowed, call);
    ThreeRules(AllowlistProfile(allowed), call, outcome);
  }

  // The shape the loop builds: two fixed rules, then one rule per flag.
  ghost predicate IsBlocklist(p: Profile, dangerous: set<string>, flags: seq<bv64>) {
    && p.fallback == Allow
    && |p.rules| == 2 + |flags|
    && p.rules[0] == Rule(dangerous, Errno(EPERM), None)
    && p.rules[1] == CLONE3_RULE
    && forall i :: 0 <= i < |flags| ==> p.rules[2 + i] == FlagRule(flags[i])
  }

  lemma FlagRuleMatches(arg: bv64, flag: bv64)
    ensures Matches(FlagRule(flag), Syscall("clone", arg)) <==> AllSet(arg, flag)
  {}

  lemma FixedRulesPass(p: Profile, dangerous: set<string>, flags: seq<bv64>, arg: bv64)
    requires IsBlocklist(p, dangerous, flags) && NoClone(dangerous)
    ensures !Matches(p.rules[0], Syscall("clone", arg)) && !Matches(p.rules[1], Syscall("clone", arg))
  {}

  // Some rule catches a clone exactly when one of the flags is set, if each flag is a single bit.
  lemma SomeFlagRuleMatches(p: Profile, dangerous: set<string>, flags: seq<bv64>, arg: bv64)
    requires IsBlocklist(p, dangerous, flags) && NoClone(dangerous)
    requires forall i :: 0 <= i < |flags| ==> (AllSet(arg, flags[i]) <==> AnySet(arg, flags[i]))
    ensures SomeFlagSet(arg, flags) <==> exists i :: 0 <= i < |p.rules| && Matches(p.rules[i], Syscall("clone", arg))
  {
    var call := Syscall("clone", arg);
    FixedRulesPass(p, dangerous, flags, arg);
    if SomeFlagSet(arg, flags) {
      var i :| 0 <= i < |flags| && AnySet(arg, flags[i]);
      FlagRuleMatches(arg, flags[i]);
      assert Matches(p.rules[2 + i], call);
    }
    if i :| 0 <= i < |p.rules| && Matches(p.rules[i], call) {
      assert p.rules[2 + (i - 2)] == FlagRule(flags[i - 2]);
      FlagRuleMatches(arg, flags[i - 2]);
    }
  }

  lemma CloneCaught(p: Profile, dangerous: set<string>, arg: bv64)
    requires IsBlocklist(p, dangerous, CLONE_NAMESPACE_FLAGS) && NoClone(dangerous)
    ensures CreatesNamespace(arg) <==> exists i :: 0 <= i < |p.rules| && Matches(p.rules[i], Syscall("clone", arg))
  {
    forall i | 0 <= i < |CLONE_NAMESPACE_FLAGS|
      ensures AllSet(arg, CLONE_NAMESPACE_FLAGS[i]) <==> AnySet(arg, CLONE_NAMESPACE_FLAGS[i])
    {
      FlagIsOneBit(arg, i);
    }
    SomeFlagRuleMatches(p, dangerous, CLONE_NAMESPACE_FLAGS, arg);
  }

  // The flag rules speak of clone alone, and deny it.
  lemma FlagRules(p: Profile, dangerous: set<string>, flags: seq<bv64>)
    requires IsBlocklist(p, dangerous, flags)
    ensures forall i :: 2 <= i < |p.rules| ==> p.rules[i].names == {"clone"} && p.rules[i].action == Errno(EPERM)
  {
    forall i | 2 <= i < |p.rules| ensures p.rules[i].names == {"clone"} && p.rules[i].action == Errno(EPERM) {
      assert p.rules[2 + (i - 2)] == FlagRule(flags[i - 2]);
    }
  }

  lemma OtherAnswers(p: Profile, dangerous: set<string>, flags: seq<bv64>, call: Syscall, outcome: Action)
    requires IsBlocklist(p, dangerous, flags) && NoClone(dangerous) && call.name != "clone"
    ensures Answers(p, call, outcome) <==>
            outcome == (if call.name == "clone3" then Errno(ENOSYS) else if call.name in dangerous then Errno(EPERM) else Allow)
  {
    FlagRules(p, dangerous, flags);
    assert Matches(p.rules[0], call) <==> call.name in dangerous;
    assert Matches(p.rules[1], call) <==> call.name == "clone3";
  }

  lemma CloneAnswers(p: Profile, dangerous: set<string>, flags: seq<bv64>, call: Syscall, outcome: Action, caught: bool)
    requires IsBlocklist(p, dangerous, flags) && NoClone(dangerous) && call.name == "clone"
    requires caught <==> exists i :: 0 <= i < |p.rules| && Matches(p.rules[i], call)
    ensures Answers(p, call, outcome) <==> outcome == if caught then Errno(EPERM) else Allow
  {
    FlagRules(p, dangerous, flags);
    FixedRulesPass(p, dangerous, flags, call.arg0);
  }

  lemma BlocklistAnswers(p: Profile, dangerous: set<string>, call: Syscall, outcome: Action)
    requires IsBlocklist(p, dangerous, CLONE_NAMESPACE_FLAGS) && NoClone(dangerous)
    ensures Answers(p, call, outcome) <==>
            outcome == (if call.name == "clone" then if CreatesNamespace(call.arg0) then Errno(EPERM) else Allow
                        else if call.name == "clone3" then Errno(ENOSYS)
                        else if call.name in dangerous then Errno(EPERM) else Allow)
  {
    if call.name == "clone" {
      CloneCaught(p, dangerous, call.arg0);
      CloneAnswers(p, dangerous, CLONE_NAMESPACE_FLAGS, call, outcome, CreatesNamespace(call.arg0));
    } else {
      OtherAnswers(p, dangerous, CLONE_NAMESPACE_FLAGS, call, outcome);
    }
  }

  method BuildAllowlistProfile(language: string, networkEnabled: bool) returns (p: Profile)
    ensures Means(p, false, language, networkEnabled)
  {
    var allowed := AllowedSyscalls(language, networkEnabled);
    CloneNotAllowable(language, networkEnabled);
    p := AllowlistProfile(allowed);
    forall call, outcome
      ensures Answers(p, call, outcome) <==> outcome == Meaning(false, language, networkEnabled, call)
    {
      AllowlistAnswers(allowed, call, outcome);
    }
  }

  method BuildBlocklistProfile() returns (p: Profile)
    ensures IsBlocklist(p, DangerousSyscalls(), CLONE_NAMESPACE_FLAGS)
  {
    var rules := [Rule(DangerousSyscalls(), Errno(EPERM), None), CLONE3_RULE];
    for k := 0 to |CLONE_NAMESPACE_FLAGS|
      invariant |rules| == 2 + k
      invariant rules[0] == Rule(DangerousSyscalls(), Errno(EPERM), None) && rules[1] == CLONE3_RULE
      invariant forall i :: 0 <= i < k ==> rules[2 + i] == FlagRule(CLONE_NAMESPACE_FLAGS[i])
    {
      rules := rules + [FlagRule(CLONE_NAMESPACE_FLAGS[k])];
    }
    p := Profile(Allow, rules);
  }

  // Whatever the language, the network flag and the clone argument, the profile built has one
  // answer for every call, and it is the meant one.
  method BuildProfile(language: string, networkEnabled: bool) returns (p: Profile)
    ensures Means(p, language in BLOCKLIST_LANGUAGES, language, networkEnabled)
  {
    if language in BLOCKLIST_LANGUAGES {
      p := BuildBlocklistProfile();
      forall call, outcome
        ensures Answers(p, call, outcome) <==> outcome == Meaning(true, language, networkEnabled, call)
      {
        BlocklistAnswers(p, DangerousSyscalls(), call, outcome);
      }
    } else {
      p := BuildAllowlistProfile(language, networkEnabled);
    }
  }

  // Under a default-deny profile a network call passes exactly when the network is enabled.
  lemma NetworkGate(p: Profile, language: string, networkEnabled: bool, call: Syscall, outcome: Action)
    requires Means(p, false, language, networkEnabled) && call.name in NetworkSyscalls()
    ensures Answers(p, call, outcome) <==> outcome == if networkEnabled then Allow else Errno(EPERM)
  {
    NetworkAllowable(language, networkEnabled, call.name);
    NetworkNotDangerous(call.name);
  }

  // What a profile says of these calls does not depend on its kind, language or network flag.
  ghost function GuardedMeaning(call: Syscall): Action {
    if call.name == "clone" then if CreatesNamespace(call.arg0) then Errno(EPERM) else Allow
    else if call.name == "clone3" then Errno(ENOSYS)
    else Errno(EPERM)
  }

  predicate Guarded(name: string) {
    name == "clone" || name == "clone3" || name in DangerousSyscalls()
  }

  lemma GuardedAnswers(p: Profile, open: bool, language: string, networkEnabled: bool, call: Syscall, outcome: Action)
    requires Means(p, open, language, networkEnabled) && Guarded(call.name)
    ensures Answers(p, call, outcome) <==> outcome == GuardedMeaning(call)
  {}

  // Any two profiles built, of either kind and for any languages, agree on clone, clone3 and every
  // dangerous call: clone passes exactly when it creates no namespace, clone3 gets ENOSYS, and the
  // dangerous calls get EPERM.
  lemma ProfileEquivalence(
    p: Profile, op: bool, lp: string, np: bool,
    q: Profile, oq: bool, lq: string, nq: bool,
    call: Syscall, outcome: Action)
    requires Means(p, op, lp, np) && Means(q, oq, lq, nq) && Guarded(call.name)
    ensures Answers(p, call, outcome) <==> Answers(q, call, outcome)
    ensures Answers(p, call, outcome) <==> outcome == GuardedMeaning(call)
    ensures call.name in DangerousSyscalls() ==> GuardedMeaning(call) == Errno(EPERM)
  {
    GuardedAnswers(p, op, lp, np, call, outcome);
    GuardedAnswers(q, oq, lq, nq, call, outcome);
    assert NoClone(DangerousSyscalls());
  }
}
