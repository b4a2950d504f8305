/**
  The first user stack of a program: exec (kernel/exec.c) pushes the argument strings and the
  argv array on one page, each at an address that is a multiple of 16.
 */
module ExecStack {
  const MAXARG: nat := 32

  /** The space that `n` bytes take on the stack: the next multiple of 16. */
  function Round16(n: nat): (r: nat)
    ensures n <= r < n + 16 && r % 16 == 0
  {
    (n + 15) / 16 * 16
  }

  /** sp -= n; sp -= sp % 16, in 64 bits. */
  function Lowered(sp: nat, n: nat): nat
    requires n < 0x1_0000_0000_0000_0000
  {
    var x := (sp + 0x1_0000_0000_0000_0000 - n) % 0x1_0000_0000_0000_0000;
    x - x % 16
  }

  /** What strings of these lengths take. */
  function Strings(args: seq<nat>): nat {
    if args == [] then 0 else Strings(args[..|args| - 1]) + Round16(args[|args| - 1] + 1)
  }

  /** The strings, the pointers to them and a null pointer. */
  function StackUse(args: seq<nat>): nat {
    Strings(args) + Round16((|args| + 1) * 8)
  }

  predicate ArgsFit(args: seq<nat>) {
    |args| <= MAXARG && StackUse(args) <= 4096
  }

  lemma LoweredBy(sp: nat, n: nat)
    requires sp % 16 == 0 && 4096 <= sp < 0x1_0000_0000_0000_0000 && n <= 4096
    ensures Lowered(sp, n) == sp - Round16(n) && Lowered(sp, n) % 16 == 0 && Lowered(sp, n) <= sp - n
  {
  }

  lemma {:induction false} StringsGrow(args: seq<nat>, n: nat)
    requires n <= |args|
    ensures Strings(args[..n]) <= Strings(args)
    decreases |args|
  {
    if n == |args| {
      assert args[..n] == args;
    } else {
      assert args[..|args| - 1][..n] == args[..n];
      StringsGrow(args[..|args| - 1], n);
    }
  }

  lemma StringsNext(args: seq<nat>, n: nat)
    requires n < |args|
    ensures Strings(args[..n + 1]) == Strings(args[..n]) + Round16(args[n] + 1)
  {
    assert args[..n + 1][..n] == args[..n];
  }

  /** Where argument `i` has to end: below the one before it. */
  function Above(top: nat, at: seq<nat>, i: nat): nat
    requires i <= |at|
  {
    if i == 0 then top else at[i - 1]
  }

  /** The strings lie in the page below `top`, one below the other. */
  ghost predicate Laid(top: nat, args: seq<nat>, at: seq<nat>) {
    && |at| == |args|
    && forall i :: 0 <= i < |at| ==>
         at[i] % 16 == 0 && top <= at[i] + 4096 && at[i] + args[i] + 1 <= Above(top, at, i)
  }

  lemma LaidAt(top: nat, args: seq<nat>, at: seq<nat>, i: nat)
    requires Laid(top, args, at) && i < |at|
    ensures |at| == |args| && at[i] + args[i] + 1 <= Above(top, at, i)
  {
  }

  lemma LaidNext(top: nat, args: seq<nat>, n: nat, at: seq<nat>, sp: nat)
    requires n < |args| && |at| == n && Laid(top, args[..n], at)
    requires sp % 16 == 0 && top <= sp + 4096 && sp + args[n] + 1 <= Above(top, at, n)
    ensures Laid(top, args[..n + 1], at + [sp])
  {
    forall i | 0 <= i <= n ensures Above(top, at + [sp], i) == Above(top, at, i) { }
    forall i | 0 <= i < n ensures args[..n + 1][i] == args[..n][i] && (at + [sp])[i] == at[i] { }
  }

  /** No two strings overlap. */
  lemma {:induction false} LaidApart(top: nat, args: seq<nat>, at: seq<nat>, i: nat, j: nat)
    requires Laid(top, args, at) && i < j < |at|
    ensures at[j] + args[j] + 1 <= at[i] && at[i] + args[i] + 1 <= top
    decreases j
  {
    hide Laid;
    LaidAt(top, args, at, i);
    LaidAt(top, args, at, j);
    if i + 1 < j {
      LaidAt(top, args, at, j - 1);
      LaidApart(top, args, at, i, j - 1);
    } else if i > 0 {
      LaidAt(top, args, at, i - 1);
      LaidApart(top, args, at, i - 1, i);
    }
  }

  /** exec's loop over argv, with the lengths of the strings, and the array pushed after it. */
  method PushArgs(sz: nat, args: seq<nat>) returns (ok: bool, sp: nat, ustack: seq<nat>)
    requires sz % 4096 == 0 && 2 * 4096 <= sz < 0x1_0000_0000_0000_0000
    requires forall i :: 0 <= i < |args| ==> args[i] < 4096
    ensures ok <==> ArgsFit(args)
    ensures ok ==> sp == sz - StackUse(args) && sp % 16 == 0 && sz - 4096 <= sp
    ensures ok ==> Laid(sz, args, ustack) && sp + (|args| + 1) * 8 <= Above(sz, ustack, |args|)
  {
    hide Lowered, Round16, Strings, Laid;
    ok, sp, ustack := false, sz, [];
    var stackbase := sz - 4096;
    var argc := 0;
    NoStrings(sz, args);
    while argc < |args|
      invariant 0 <= argc <= |args| && argc <= MAXARG && |ustack| == argc
      invariant sp == sz - Strings(args[..argc]) && sp % 16 == 0 && stackbase <= sp == Above(sz, ustack, argc)
      invariant Laid(sz, args[..argc], ustack)
    {
      StringsNext(args, argc);
      StringsGrow(args, argc + 1);
      if argc >= MAXARG {
        return;
      }
      LoweredBy(sp, args[argc] + 1);
      sp := Lowered(sp, args[argc] + 1);
      if sp < stackbase {
        return;
      }
      LaidNext(sz, args, argc, ustack, sp);
      ustack := ustack + [sp];
      argc := argc + 1;
    }
    assert args[..argc] == args;
    LoweredBy(sp, (argc + 1) * 8);
    sp := Lowered(sp, (argc + 1) * 8);
    ok := sp >= stackbase;
  }

  lemma NoStrings(top: nat, args: seq<nat>)
    ensures Strings(args[..0]) == 0 && Laid(top, args[..0], [])
  {
  }
}
