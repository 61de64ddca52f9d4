/**
 The slice of syzkaller's program representation that the OpenBSD sanitizer
 touches: a call has a name and a fixed-length sequence of arguments, and the
 only argument variant the sanitizer reads or writes is a constant carrying an
 unsigned 64-bit value. Pointers, resources and buffers are all `OtherArg`.
 */
module Prog {

  datatype Arg = ConstArg(val: bv64) | OtherArg

  /** `name` is the call's `Meta.CallName`: the base system call name
      without any `$variant` suffix, so `mknod$loop` appears here as `mknod`. */
  datatype Call = Call(name: string, args: seq<Arg>)

  /** Position `i` exists in `c` and holds a constant argument. */
  predicate IsConstAt(c: Call, i: nat) {
    i < |c.args| && c.args[i].ConstArg?
  }

  /** The call with the constant at position `i` replaced by `v`; the name,
      the length and every other position are kept. */
  function SetConst(c: Call, i: nat, v: bv64): (r: Call)
    requires i < |c.args|
    ensures r.name == c.name && |r.args| == |c.args|
    ensures r.args[i] == ConstArg(v)
    ensures forall j :: 0 <= j < |c.args| && j != i ==> r.args[j] == c.args[j]
  {
    Call(c.name, c.args[i := ConstArg(v)])
  }
}
