/**
 The OpenBSD call sanitizer: a per-call rewrite policy that syzkaller applies
 to every generated call before it is executed. Calls are dispatched on their
 name:

 - `chflags`, `fchflags` (flags at position 1) and `chflagsat` (position 2)
   have the four file-mutability flags stripped from their flags argument;
 - `mknod` (arguments from position 1) and `mknodat` (from position 2) have
   a mode whose file-type bits are all set turned into a character device,
   and a device number naming a kcov descriptor or the raw root disk
   replaced by `/dev/null`;
 - every other call is handed to the generic Unix sanitizer, which is not part
   of this model and appears as the opaque function `Arch.unix`.

 syzkaller reaches the rewritten arguments through unchecked conversions to
 a constant argument; a call that does not have a constant at a rewritten
 position makes it panic. Here that is the precondition `Sanitizable`.
 */
module OpenBSD {
  import opened Prog
  import opened Devices

  /** Offsets of the mode and device arguments from `argStart` for mknod. */
  const MknodMode: nat := 0
  const MknodDev: nat := 1

  /** The file flags that make a file immutable or append-only. */
  const UfImmutable: bv64 := 0x0000_0002
  const UfAppend: bv64 := 0x0000_0004
  const SfImmutable: bv64 := 0x0002_0000
  const SfAppend: bv64 := 0x0004_0000
  const BadFlags: seq<bv64> := [UfImmutable, UfAppend, SfImmutable, SfAppend]

  /** The four mutability flags as one mask. */
  const MutabilityMask: bv64 := 0x0006_0006

  /** The state kept per target: the generic sanitizer it falls back to and
      the values of `S_IFMT` (file-type mask) and `S_IFCHR` (character-device
      type) resolved from the target's constant table. */
  datatype Arch = Arch(unix: Call -> Call, sIfmt: bv64, sIfchr: bv64)

  /** Target initialisation: resolve the two constants and keep the fallback. */
  function InitTarget(getConst: string -> bv64, unix: Call -> Call): (a: Arch)
    ensures a.sIfmt == getConst("S_IFMT") && a.sIfchr == getConst("S_IFCHR")
    ensures a.unix == unix
  {
    Arch(unix, getConst("S_IFMT"), getConst("S_IFCHR"))
  }

  /** What the sanitizer does with a call of a given name, and where. */
  datatype Rule =
    | StripFlags(flagsAt: nat)
    | NormaliseNode(argStart: nat)
    | Delegate

  /** The call names the OpenBSD layer handles itself. */
  const FlagsCalls: set<string> := {"chflags", "fchflags", "chflagsat"}
  const MknodCalls: set<string> := {"mknod", "mknodat"}

  /** Whether a call name ends in `at`, marking a variant that takes a
      leading directory descriptor. */
  predicate IsAtVariant(name: string) {
    |name| >= 2 && name[|name| - 2..] == "at"
  }

  /** Dispatch on the call name: the flags calls strip flags, the mknod
      calls normalise the node, and everything else is delegated; the
      `...at` variants take a leading directory descriptor and so start one
      position later. */
  function RuleFor(name: string): (r: Rule)
    ensures r.StripFlags? <==> name in FlagsCalls
    ensures r.NormaliseNode? <==> name in MknodCalls
    ensures r.Delegate? <==> name !in FlagsCalls + MknodCalls
    ensures r.StripFlags? ==> r.flagsAt == if IsAtVariant(name) then 2 else 1
    ensures r.NormaliseNode? ==> r.argStart == if IsAtVariant(name) then 2 else 1
  {
    if name == "chflagsat" then StripFlags(2)
    else if name == "chflags" || name == "fchflags" then StripFlags(1)
    else if name == "mknodat" then NormaliseNode(2)
    else if name == "mknod" then NormaliseNode(1)
    else Delegate
  }

  /** The argument positions a rule may rewrite. */
  function Targets(rule: Rule): (r: set<nat>) {
    match rule
    case StripFlags(k) => {k}
    case NormaliseNode(s) => {s + MknodMode, s + MknodDev}
    case Delegate => {}
  }

  /** Every position the call's rule rewrites exists and holds a constant. */
  predicate Sanitizable(c: Call) {
    match RuleFor(c.name)
    case StripFlags(k) => IsConstAt(c, k)
    case NormaliseNode(s) => IsConstAt(c, s + MknodMode) && IsConstAt(c, s + MknodDev)
    case Delegate => true
  }

  // ---------------------------------------------------------------------
  // Mutability flags

  /** The union of a list of flags. */
  function FlagUnion(fs: seq<bv64>): (r: bv64) {
    if |fs| == 0 then 0 else fs[0] | FlagUnion(fs[1..])
  }

  /** Clear each flag of `fs` from `v` in turn, as the loop over `badflags`
      does; the result is `v` with the union of the flags masked out. */
  function ClearFlags(v: bv64, fs: seq<bv64>): (r: bv64)
    ensures r == v & !FlagUnion(fs)
    decreases |fs|
  {
    if |fs| == 0 then v else ClearFlags(v & !fs[0], fs[1..])
  }

  lemma BadFlagsMask()
    ensures FlagUnion(BadFlags) == MutabilityMask
  {
    assert FlagUnion([SfAppend]) == SfAppend;
    assert FlagUnion([SfImmutable, SfAppend]) == SfImmutable | SfAppend;
    assert FlagUnion([UfAppend, SfImmutable, SfAppend]) == UfAppend | SfImmutable | SfAppend;
  }

  /** The flags rewrite: the four mutability flags are clear, every other bit
      is the input's. */
  function StripMutabilityFlags(v: bv64): (r: bv64)
    ensures r & MutabilityMask == 0
    ensures r & !MutabilityMask == v & !MutabilityMask
  {
    BadFlagsMask();
    ClearFlags(v, BadFlags)
  }

  lemma StripMutabilityFlagsIdempotent(v: bv64)
    ensures StripMutabilityFlags(StripMutabilityFlags(v)) == StripMutabilityFlags(v)
  {
  }

  // ---------------------------------------------------------------------
  // mknod mode

  /** `S_IFCHR` is a type value strictly inside the `S_IFMT` mask, as on
      OpenBSD (0o020000 inside 0o170000). */
  predicate ProperTypeTag(ifmt: bv64, ifchr: bv64) {
    ifchr & !ifmt == 0 && ifchr != ifmt
  }

  /** The mode rewrite. A mode whose type bits are all set (the type the
      kernel turns into a VBAD vnode) gets the character-device type; any
      other mode is kept. */
  function NormaliseMode(mode: bv64, ifmt: bv64, ifchr: bv64): (r: bv64)
    ensures mode & ifmt != ifmt ==> r == mode
  {
    if mode & ifmt == ifmt then (mode & !ifmt) | ifchr else mode
  }

  /** A mode with every type bit set is retyped: its type bits become the
      tag's, and the bits outside the mask are the mode's and the tag's. */
  lemma NormaliseModeRetypes(mode: bv64, ifmt: bv64, ifchr: bv64)
    requires mode & ifmt == ifmt
    ensures NormaliseMode(mode, ifmt, ifchr) & ifmt == ifchr & ifmt
    ensures NormaliseMode(mode, ifmt, ifchr) & !ifmt == (mode | ifchr) & !ifmt
  {
  }

  /** With a proper type tag, the rewritten mode never has the all-ones type
      and keeps every bit outside the type mask. */
  lemma NormaliseModeRemovesBadType(mode: bv64, ifmt: bv64, ifchr: bv64)
    requires ProperTypeTag(ifmt, ifchr)
    ensures NormaliseMode(mode, ifmt, ifchr) & ifmt != ifmt
    ensures NormaliseMode(mode, ifmt, ifchr) & !ifmt == mode & !ifmt
  {
    if mode & ifmt == ifmt {
      RetypeWithProperTag(mode, ifmt, ifchr);
    }
  }

  /** A mode with every type bit set, rewritten with a proper tag, has
      exactly the character-device type and keeps every bit outside the
      type mask. */
  lemma RetypeWithProperTag(mode: bv64, ifmt: bv64, ifchr: bv64)
    requires ProperTypeTag(ifmt, ifchr) && mode & ifmt == ifmt
    ensures NormaliseMode(mode, ifmt, ifchr) & ifmt == ifchr
    ensures NormaliseMode(mode, ifmt, ifchr) & !ifmt == mode & !ifmt
  {
  }

  /** The mode rewrite is idempotent for any pair of constants, proper or not. */
  lemma NormaliseModeIdempotent(mode: bv64, ifmt: bv64, ifchr: bv64)
    ensures NormaliseMode(NormaliseMode(mode, ifmt, ifchr), ifmt, ifchr) == NormaliseMode(mode, ifmt, ifchr)
  {
  }

  // ---------------------------------------------------------------------
  // mknod device

  /** The device rewrite: a kcov descriptor, then the raw root disk, is
      replaced by `/dev/null`. The result is neither, it is `/dev/null`
      exactly when the input was one of them, and otherwise it is the input. */
  function NormaliseDev(dev: bv64): (r: bv64)
    ensures !IsKcovFd(r) && !IsRawRootDisk(r)
    ensures IsKcovFd(dev) || IsRawRootDisk(dev) ==> r == DevNullDevT
    ensures !IsKcovFd(dev) && !IsRawRootDisk(dev) ==> r == dev
  {
    DevNullIsAllowed();
    var d := if IsKcovFd(dev) then DevNullDevT else dev;
    if IsRawRootDisk(d) then DevNullDevT else d
  }

  lemma NormaliseDevIdempotent(dev: bv64)
    ensures NormaliseDev(NormaliseDev(dev)) == NormaliseDev(dev)
  {
  }

  // ---------------------------------------------------------------------
  // The policy

  /** The flags rule applied at position `k`: only that position changes,
      and it loses exactly the mutability flags. */
  function StripFlagsAt(c: Call, k: nat): (r: Call)
    requires IsConstAt(c, k)
    ensures r.name == c.name && |r.args| == |c.args|
    ensures forall i :: 0 <= i < |c.args| && i != k ==> r.args[i] == c.args[i]
    ensures r.args[k].ConstArg?
    ensures r.args[k].val & MutabilityMask == 0
    ensures r.args[k].val & !MutabilityMask == c.args[k].val & !MutabilityMask
  {
    SetConst(c, k, StripMutabilityFlags(c.args[k].val))
  }

  /** The mknod rule applied from position `s`: only the mode at `s` and the
      device at `s + 1` change; the device becomes safe. */
  function NormaliseNodeAt(a: Arch, c: Call, s: nat): (r: Call)
    requires IsConstAt(c, s + MknodMode) && IsConstAt(c, s + MknodDev)
    ensures r.name == c.name && |r.args| == |c.args|
    ensures forall i :: 0 <= i < |c.args| && i != s + MknodMode && i != s + MknodDev ==> r.args[i] == c.args[i]
    ensures r.args[s + MknodMode] == ConstArg(NormaliseMode(c.args[s + MknodMode].val, a.sIfmt, a.sIfchr))
    ensures r.args[s + MknodDev].ConstArg?
    ensures !IsKcovFd(r.args[s + MknodDev].val) && !IsRawRootDisk(r.args[s + MknodDev].val)
    ensures IsKcovFd(c.args[s + MknodDev].val) || IsRawRootDisk(c.args[s + MknodDev].val) ==>
      r.args[s + MknodDev].val == DevNullDevT
    ensures !IsKcovFd(c.args[s + MknodDev].val) && !IsRawRootDisk(c.args[s + MknodDev].val) ==>
      r.args[s + MknodDev] == c.args[s + MknodDev]
  {
    var withMode := SetConst(c, s + MknodMode, NormaliseMode(c.args[s + MknodMode].val, a.sIfmt, a.sIfchr));
    SetConst(withMode, s + MknodDev, NormaliseDev(c.args[s + MknodDev].val))
  }

  /** `arch.SanitizeCall`. For a recognised name the name, the length and
      every position outside the rule's targets are kept, and the targets are
      rewritten as described above; any other call is the Unix sanitizer's. */
  function SanitizeCall(a: Arch, c: Call): (r: Call)
    requires Sanitizable(c)
    ensures !RuleFor(c.name).Delegate? ==>
      && r.name == c.name
      && |r.args| == |c.args|
      && forall i: nat :: i < |c.args| && i !in Targets(RuleFor(c.name)) ==> r.args[i] == c.args[i]
    ensures match RuleFor(c.name)
      case StripFlags(k) =>
        && r.args[k].ConstArg?
        && r.args[k].val & MutabilityMask == 0
        && r.args[k].val & !MutabilityMask == c.args[k].val & !MutabilityMask
      case NormaliseNode(s) =>
        var m, d := s + MknodMode, s + MknodDev;
        && r.args[m] == ConstArg(NormaliseMode(c.args[m].val, a.sIfmt, a.sIfchr))
        && r.args[d].ConstArg?
        && !IsKcovFd(r.args[d].val) && !IsRawRootDisk(r.args[d].val)
        && (IsKcovFd(c.args[d].val) || IsRawRootDisk(c.args[d].val) ==> r.args[d].val == DevNullDevT)
        && (!IsKcovFd(c.args[d].val) && !IsRawRootDisk(c.args[d].val) ==> r.args[d] == c.args[d])
      case Delegate => r == a.unix(c)
  {
    match RuleFor(c.name)
    case StripFlags(k) => StripFlagsAt(c, k)
    case NormaliseNode(s) => NormaliseNodeAt(a, c, s)
    case Delegate =>
      a.unix(c)
  }
}

/** Properties of `OpenBSD.SanitizeCall` that relate several calls. */
module OpenBSDProperties {
  import opened Prog
  import opened Devices
  import opened OpenBSD

  /** Rewriting a position with the value it already holds changes nothing. */
  lemma SetConstSame(c: Call, i: nat, v: bv64)
    requires i < |c.args| && c.args[i] == ConstArg(v)
    ensures SetConst(c, i, v) == c
  {
    assert c.args[i := ConstArg(v)] == c.args;
  }

  /** Sanitizing a call of a recognised name leaves it sanitizable, and a
      second pass changes nothing. */
  lemma SanitizeIdempotent(a: Arch, c: Call)
    requires Sanitizable(c) && !RuleFor(c.name).Delegate?
    ensures Sanitizable(SanitizeCall(a, c))
    ensures SanitizeCall(a, SanitizeCall(a, c)) == SanitizeCall(a, c)
  {
    var r := SanitizeCall(a, c);
    match RuleFor(c.name)
    case StripFlags(k) =>
      StripMutabilityFlagsIdempotent(c.args[k].val);
      SetConstSame(r, k, r.args[k].val);
    case NormaliseNode(s) =>
      var m, d := s + MknodMode, s + MknodDev;
      NormaliseModeIdempotent(c.args[m].val, a.sIfmt, a.sIfchr);
      NormaliseDevIdempotent(c.args[d].val);
      SetConstSame(r, m, r.args[m].val);
      SetConstSame(r, d, r.args[d].val);
  }

  /** With a proper `S_IFCHR`, a sanitized mknod never asks for the all-ones
      file type and keeps the permission and other bits of the mode. */
  lemma MknodModeRepaired(a: Arch, c: Call)
    requires Sanitizable(c) && RuleFor(c.name).NormaliseNode?
    requires ProperTypeTag(a.sIfmt, a.sIfchr)
    ensures var m := RuleFor(c.name).argStart + MknodMode;
      && SanitizeCall(a, c).args[m].val & a.sIfmt != a.sIfmt
      && SanitizeCall(a, c).args[m].val & !a.sIfmt == c.args[m].val & !a.sIfmt
  {
    var m := RuleFor(c.name).argStart + MknodMode;
    var mode := NormaliseMode(c.args[m].val, a.sIfmt, a.sIfchr);
    assert SanitizeCall(a, c).args[m] == ConstArg(mode);
    NormaliseModeRemovesBadType(c.args[m].val, a.sIfmt, a.sIfchr);
  }

  /** On OpenBSD, where `S_IFMT` is 0o170000 and `S_IFCHR` is 0o020000, the
      target built by `InitTarget` has a proper type tag. */
  lemma InitTargetProper(getConst: string -> bv64, unix: Call -> Call)
    requires getConst("S_IFMT") == 0xf000 && getConst("S_IFCHR") == 0x2000
    ensures ProperTypeTag(InitTarget(getConst, unix).sIfmt, InitTarget(getConst, unix).sIfchr)
    ensures InitTarget(getConst, unix).unix == unix
  {
  }

  /** With OpenBSD's constants, the target built by `InitTarget` repairs
      every `mknod`/`mknodat` mode: the all-ones type 0o170000 never
      survives, and the permission and other bits outside 0o170000 are the
      caller's. */
  lemma InitTargetRepairsModes(getConst: string -> bv64, unix: Call -> Call, c: Call)
    requires getConst("S_IFMT") == 0xf000 && getConst("S_IFCHR") == 0x2000
    requires Sanitizable(c) && RuleFor(c.name).NormaliseNode?
    ensures var m := RuleFor(c.name).argStart + MknodMode;
      var r := SanitizeCall(InitTarget(getConst, unix), c);
      && r.args[m].val & 0xf000 != 0xf000
      && r.args[m].val & !0xf000 == c.args[m].val & !0xf000
  {
    InitTargetProper(getConst, unix);
    MknodModeRepaired(InitTarget(getConst, unix), c);
  }

  /** The `...at` variant of a call, with a leading directory argument.
      This is only the one-position shift of the base call's arguments: the
      real `chflagsat` also takes a trailing `atflags` argument, which is
      outside every rewritten position and so is kept by `SanitizeCall`'s
      frame. */
  function AtVariant(c: Call, lead: Arg): (r: Call) {
    Call(c.name + "at", [lead] + c.args)
  }

  /** `chflagsat` and `mknodat` rewrite exactly as `chflags` and `mknod` do,
      one position later: the leading argument is kept and the rest is the
      base call's result. */
  lemma AtVariantShifts(a: Arch, c: Call, lead: Arg)
    requires c.name == "chflags" || c.name == "mknod"
    requires Sanitizable(c)
    ensures Sanitizable(AtVariant(c, lead))
    ensures SanitizeCall(a, AtVariant(c, lead)) == AtVariant(SanitizeCall(a, c), lead)
  {
    var at := AtVariant(c, lead);
    assert forall i :: 0 <= i < |c.args| ==> at.args[i + 1] == c.args[i];
    if c.name == "chflags" {
      assert at.name == "chflagsat";
    } else {
      assert at.name == "mknodat";
    }
    assert SanitizeCall(a, at).args == [lead] + SanitizeCall(a, c).args;
  }

  /** A flags word with every low bit set loses exactly the four mutability
      flags. */
  lemma ChflagsExample(a: Arch, path: Arg)
    ensures SanitizeCall(a, Call("chflags", [path, ConstArg(0xffff_ffff)]))
         == Call("chflags", [path, ConstArg(0xfff9_fff9)])
  {
  }

  /** With OpenBSD's `S_IFMT` (0o170000) and `S_IFCHR` (0o020000): a mode of
      type 0o170000 becomes a character device with the same permissions, a
      character-device or block-device mode is kept, and a kcov descriptor or
      the raw root disk becomes `/dev/null` while a neighbouring minor is
      kept. */
  lemma MknodExamples(unix: Call -> Call, path: Arg, dirfd: Arg)
    ensures var a := Arch(unix, 0xf000, 0x2000);
      && SanitizeCall(a, Call("mknod", [path, ConstArg(0xf1a4), ConstArg(MakeDev(22, 240))]))
         == Call("mknod", [path, ConstArg(0x21a4), ConstArg(DevNullDevT)])
      && SanitizeCall(a, Call("mknodat", [dirfd, path, ConstArg(0x61a4), ConstArg(MakeDev(4, 2))]))
         == Call("mknodat", [dirfd, path, ConstArg(0x61a4), ConstArg(DevNullDevT)])
      && SanitizeCall(a, Call("mknod", [path, ConstArg(0x21a4), ConstArg(MakeDev(22, 231))]))
         == Call("mknod", [path, ConstArg(0x21a4), ConstArg(MakeDev(22, 231))])
  {
  }
}
