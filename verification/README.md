# OpenBSD call sanitizer: a Dafny model

syzkaller hands each generated system call to a per-OS sanitizer before the
call runs. The sanitizer rewrites the few argument values that would make the
call damage the fuzzing host or the coverage collection. This project models
the OpenBSD sanitizer in `sys/openbsd/init.go` and proves what it guarantees.

- `prog.dfy` (module `Prog`): the part of syzkaller's program representation
  that the sanitizer touches. A `Call` has a name and a fixed-length sequence
  of arguments. An `Arg` is either a 64-bit constant (`ConstArg`) or something
  else (`OtherArg`).
- `devices.dfy` (module `Devices`): the BSD `dev_t` layout. `Major` and `Minor`
  decode a device number. `MakeDev` is the encoder from OpenBSD's
  `sys/types.h`, used here as their inverse. `IsKcovFd` recognises the
  `/dev/fd/N` devices that alias the executor's kcov descriptors (major 22,
  minor in [232, 248)). `IsRawRootDisk` recognises `/dev/sd0c` (major 4,
  minor 2).
- `sanitizer.dfy`, module `OpenBSD`: the policy.
  - `RuleFor` dispatches on the call name. That name is syzkaller's
    `Meta.CallName`: the base system call without any `$variant` suffix, so
    `mknod$loop` is handled as `mknod`.
  - `StripMutabilityFlags` clears `UF_IMMUTABLE`, `UF_APPEND`, `SF_IMMUTABLE`
    and `SF_APPEND` from the flags argument of `chflags`/`fchflags` (position
    1) and of `chflagsat` (position 2).
  - `NormaliseMode` and `NormaliseDev` repair the mode and device arguments
    of `mknod` (from position 1) and `mknodat` (from position 2).
  - `SanitizeCall` puts these rules together. Every other name goes to the
    generic Unix sanitizer.
- `sanitizer.dfy`, module `OpenBSDProperties`: properties that relate
  several calls. These are idempotence, the one-position shift of the `...at`
  variants, and worked examples.

All values are `bv64`, like Go's `uint64`, so `&^`, `^` and the shifts are
the bit-vector operators with no wrap-around to model. Some things come from
outside `init.go`. The generic Unix sanitizer is the field `unix: Call -> Call`
of `Arch`, an opaque function. `S_IFMT` and `S_IFCHR` are the fields `sIfmt`
and `sIfchr` of `Arch`, filled by `InitTarget` from a `getConst` parameter.

A call whose rewritten position is missing, or holds something other than a
constant, makes the Go code panic. It converts the argument without checking.
Skipping the rewrite for such a call would be another option, but the code
does not do that. The model therefore requires `Sanitizable(c)`: every
position the call's rule rewrites exists and holds a constant.

The mode rewrite is idempotent for every pair of constants.
`S_IFCHR` being a proper part of `S_IFMT` (`ProperTypeTag`) is needed only for
the stronger claim. That claim is that the rewritten mode no longer has the
all-ones file type and keeps its bits outside the type mask.

## Model

| member | source | states |
|---|---|---|
| Devices.Major | sys/openbsd/init.go:42-45 | the major number is below 256 and is exactly bits 8..15 of the device number |
| Devices.Minor | sys/openbsd/init.go:47-50 | the minor number is below 2^24; its low byte is the device's low byte and its upper 16 bits are the device's bits 16..31 |
| Devices.DecodeMakeDev | sys/openbsd/init.go:42-50 | decoding a `makedev(major, minor)` gives back major and minor whenever they fit in 8 and 24 bits |
| Devices.MakeDevDecode | sys/openbsd/init.go:42-50 | re-encoding the decoded major and minor rebuilds the device number's bits 0..31; bits 32..63 are ignored by the layout |
| Devices.DecodeIgnoresHighBits | sys/openbsd/init.go:42-50 | device numbers that agree on bits 0..31 have the same major and minor |
| Devices.KcovFdIsEncodedDevFd | sys/openbsd/init.go:52-57 | a device is a kcov descriptor iff its bits 0..31 encode `/dev/fd/N` (major 22) for some N with 232 <= N < 248 |
| Devices.IsKcovFd | sys/openbsd/init.go:52-57 | `isKcovFd` (major 22, minor in [232, 248)) holds exactly for the device numbers whose bits 0..31 lie in [0x16e8, 0x16f8) |
| Devices.IsRawRootDisk | sys/openbsd/init.go:103 | the `/dev/sd0c` test (major 4, minor 2) holds exactly for the device numbers whose bits 0..31 are 0x0402 |
| Devices.KcovFdBoundaries | sys/openbsd/init.go:33-39 | minors 232 and 247 of major 22 are kcov descriptors, 231 and 248 are not, and no other major ever is |
| Devices.DevNullIsAllowed | sys/openbsd/init.go:34 | the replacement 0x0202 is major 2, minor 2, and is neither a kcov descriptor nor the raw root disk |
| OpenBSD.RuleFor | sys/openbsd/init.go:60-107 | `chflags`, `fchflags` and `chflagsat` strip flags, `mknod` and `mknodat` normalise the node, every other name is delegated; the rewritten position starts at 2 for the names ending in `at` and at 1 otherwise |
| OpenBSD.ClearFlags | sys/openbsd/init.go:77-79 | clearing a list of flags one by one leaves the input with the union of all of them masked out |
| OpenBSD.BadFlagsMask | sys/openbsd/init.go:71-76 | the four mutability flags together are the mask 0x00060006 |
| OpenBSD.StripMutabilityFlags | sys/openbsd/init.go:65-79 | after the flags rewrite, bits 0x2, 0x4, 0x20000 and 0x40000 are clear and every other bit equals the input's |
| OpenBSD.StripMutabilityFlagsIdempotent | sys/openbsd/init.go:77-79 | stripping the flags a second time changes nothing |
| OpenBSD.NormaliseMode | sys/openbsd/init.go:86-90 | a mode whose type bits are not all set is returned unchanged |
| OpenBSD.NormaliseModeRetypes | sys/openbsd/init.go:87-90 | a mode with every type bit set gets the `S_IFCHR` type bits; its other bits are its own together with any bits of `S_IFCHR` outside the mask |
| OpenBSD.NormaliseModeRemovesBadType | sys/openbsd/init.go:84-90 | when `S_IFCHR` is a proper part of `S_IFMT`, the rewritten mode never has all type bits set and keeps every bit outside `S_IFMT` |
| OpenBSD.RetypeWithProperTag | sys/openbsd/init.go:87-90 | when `S_IFCHR` is a proper part of `S_IFMT`, a mode with every type bit set comes out with exactly the `S_IFCHR` type and its own bits outside `S_IFMT` |
| OpenBSD.NormaliseModeIdempotent | sys/openbsd/init.go:87-90 | rewriting the mode twice equals rewriting it once, for any `S_IFMT` and `S_IFCHR` |
| OpenBSD.NormaliseDev | sys/openbsd/init.go:92-105 | the rewritten device is neither a kcov descriptor nor the raw root disk; it is 0x0202 when the input was either, and the input otherwise |
| OpenBSD.NormaliseDevIdempotent | sys/openbsd/init.go:96-105 | rewriting the device twice equals rewriting it once |
| OpenBSD.StripFlagsAt | sys/openbsd/init.go:70-79 | the flags rule at one position changes only that position, which keeps a constant with the four mutability bits clear and every other bit unchanged |
| OpenBSD.NormaliseNodeAt | sys/openbsd/init.go:86-105 | the mknod rule changes only the mode and device positions: the mode becomes the repaired mode, and the device is safe, 0x0202 exactly when it was a kcov descriptor or the raw root disk and unchanged otherwise |
| OpenBSD.SanitizeCall | sys/openbsd/init.go:59-109 | a recognised call keeps its name, length and every argument outside the rule's positions; the flags position loses the four mutability bits and keeps the rest; the mknod mode is repaired and the device is safe, becoming 0x0202 exactly when it was a kcov descriptor or the raw root disk; any other name yields the Unix sanitizer's result |
| OpenBSDProperties.SanitizeIdempotent | sys/openbsd/init.go:59-105 | a sanitized call of a recognised name still meets the sanitizer's precondition, and sanitizing it again changes nothing |
| OpenBSDProperties.MknodModeRepaired | sys/openbsd/init.go:80-90 | with a proper `S_IFCHR`, the mode of a sanitized `mknod`/`mknodat` never has all type bits set and keeps its bits outside `S_IFMT` |
| OpenBSDProperties.InitTargetProper | sys/openbsd/init.go:11-16 | with OpenBSD's `S_IFMT` (0o170000) and `S_IFCHR` (0o020000), the target built by `InitTarget` has a proper type tag and falls back to the given Unix sanitizer |
| OpenBSDProperties.InitTargetRepairsModes | sys/openbsd/init.go:11-16 | with OpenBSD's constants, the target built by `InitTarget` turns every `mknod`/`mknodat` mode into one whose type is not 0o170000 and whose bits outside 0o170000 are the caller's |
| OpenBSDProperties.AtVariantShifts | sys/openbsd/init.go:60-83 | `chflagsat` and `mknodat` rewrite exactly as `chflags` and `mknod` do, one position later, and keep the leading argument |
| OpenBSDProperties.ChflagsExample | sys/openbsd/init.go:65-79 | a `chflags` flags word of 0xffffffff becomes 0xfff9fff9 |
| OpenBSDProperties.MknodExamples | sys/openbsd/init.go:80-105 | with OpenBSD's `S_IFMT` and `S_IFCHR`, mode 0o170644 becomes 0o020644; device (22, 240) and (4, 2) become 0x0202; a character-device mode (0o020644) with device (22, 231) is kept, and so is the block-device mode 0o060644 of a `mknodat` |

## Left out

- The generic Unix sanitizer (`targets.MakeUnixSanitizer`, `UnixSanitizer.SanitizeCall`) is not part of this model. It is the opaque function `Arch.unix`.
- OpenBSDProperties.SanitizeIdempotent: stated only for the names the OpenBSD layer recognises, because other names are handled by the Unix sanitizer alone and nothing here is known about it.
- `targets.MakePosixMmap` and the `MakeMmap` assignment are left out. They build generic mmap calls and have nothing to do with the policy.
- OpenBSD.InitTarget: it is plumbing that copies `S_IFMT`, `S_IFCHR` and the Unix fallback into the target (init.go:12-16); its contract only names those fields, and what the constants mean for the policy is stated by `OpenBSDProperties.InitTargetProper` and `OpenBSDProperties.InitTargetRepairsModes`.
- Constant lookup and hook registration on `prog.Target` are left out. `InitTarget` only collects the two constants from a `getConst` parameter. A lookup of an unknown name is fatal in the framework, and that is not modelled.
- The Go code rewrites the constant argument objects in place. The model builds a new `Call` with the rewritten values instead (`Prog.SetConst`). The two agree because syzkaller never shares one argument object between two positions of a call.
- The rest of syzkaller's argument model (pointers, resources, buffers) is the single `OtherArg` case.
- The panic on a failed conversion to a constant argument or on an out-of-range position is not modelled. It is the precondition `Sanitizable` instead.
