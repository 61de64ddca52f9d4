/**
 The OpenBSD `dev_t` layout and the two device classes the sanitizer refuses
 to let a generated `mknod` create: the file descriptors the executor reserves
 for kcov coverage collection (`/dev/fd/N` is major 22, minor N) and the raw
 root disk `/dev/sd0c` (major 4, minor 2).

 A device number is a 64-bit word. Bits 8..15 hold the major number; the minor
 number is split, its low byte in bits 0..7 and its upper 16 bits in bits
 16..31. Bits 32..63 belong to neither.
 */
module Devices {

  /** Major number of `/dev/fd/N` on OpenBSD. */
  const DevFdMajor: bv64 := 22
  /** `/dev/null`, major 2 minor 2: the value a refused device is replaced with. */
  const DevNullDevT: bv64 := 0x0202
  /** The executor's kcov descriptors occupy minors [KcovFdMinorMin, KcovFdMinorMax). */
  const KcovFdMinorMin: bv64 := 232
  const KcovFdMinorMax: bv64 := 248
  /** `/dev/sd0c`, the raw root disk. */
  const RawDiskMajor: bv64 := 4
  const RawDiskMinor: bv64 := 2

  /** Mask of the bits of a device number that carry major or minor. */
  const DevBits: bv64 := 0xffff_ffff

  /** `devmajor`: bits 8..15 of the device number. */
  function Major(dev: bv64): (r: bv64)
    ensures r < 0x100
    ensures r << 8 == dev & 0xff00
  {
    (dev >> 8) & 0xff
  }

  /** `devminor`: the low byte followed by bits 16..31. */
  function Minor(dev: bv64): (r: bv64)
    ensures r < 0x100_0000
    ensures r & 0xff == dev & 0xff
    ensures (r >> 8) << 16 == dev & 0xffff_0000
  {
    (dev & 0xff) | ((dev & 0xffff0000) >> 8)
  }

  /** `makedev` from OpenBSD's sys/types.h: the encoder that `devmajor` and
      `devminor` invert. */
  function MakeDev(major: bv64, minor: bv64): (r: bv64) {
    ((major & 0xff) << 8) | (minor & 0xff) | ((minor & 0xffff00) << 8)
  }

  /** Decoding an encoded device gives back its major and minor numbers
      whenever they fit the layout (8 and 24 bits). */
  lemma DecodeMakeDev(major: bv64, minor: bv64)
    requires major < 0x100 && minor < 0x100_0000
    ensures Major(MakeDev(major, minor)) == major
    ensures Minor(MakeDev(major, minor)) == minor
  {
  }

  /** Encoding the decoded parts rebuilds the device number, up to the
      bits 32..63 that the layout ignores. */
  lemma MakeDevDecode(dev: bv64)
    ensures MakeDev(Major(dev), Minor(dev)) == dev & DevBits
  {
  }

  /** Two device numbers agreeing on bits 0..31 have the same major and minor. */
  lemma DecodeIgnoresHighBits(d1: bv64, d2: bv64)
    requires d1 & DevBits == d2 & DevBits
    ensures Major(d1) == Major(d2) && Minor(d1) == Minor(d2)
  {
    MakeDevDecode(d1);
    MakeDevDecode(d2);
    DecodeMakeDev(Major(d1), Minor(d1));
    DecodeMakeDev(Major(d2), Minor(d2));
  }

  /** `isKcovFd`: the device is `/dev/fd/N` for one of the executor's kcov
      descriptors N. Since every kcov minor fits in a byte, these are the
      contiguous block of device numbers [0x16e8, 0x16f8) in bits 0..31. */
  predicate IsKcovFd(dev: bv64)
    ensures IsKcovFd(dev) <==> 0x16e8 <= dev & DevBits < 0x16f8
  {
    var major := Major(dev);
    var minor := Minor(dev);
    major == DevFdMajor && minor >= KcovFdMinorMin && minor < KcovFdMinorMax
  }

  /** The device is the raw root disk `/dev/sd0c`: exactly the devices whose
      bits 0..31 are 0x0402. */
  predicate IsRawRootDisk(dev: bv64)
    ensures IsRawRootDisk(dev) <==> dev & DevBits == 0x0402
  {
    Major(dev) == RawDiskMajor && Minor(dev) == RawDiskMinor
  }

  /** A kcov descriptor is exactly a device whose significant bits encode
      `/dev/fd/N` for some N in [232, 248). */
  lemma KcovFdIsEncodedDevFd(dev: bv64)
    ensures IsKcovFd(dev) <==>
      exists n: bv64 :: KcovFdMinorMin <= n < KcovFdMinorMax && dev & DevBits == MakeDev(DevFdMajor, n)
  {
    if IsKcovFd(dev) {
      MakeDevDecode(dev);
    }
    forall n: bv64 | KcovFdMinorMin <= n < KcovFdMinorMax && dev & DevBits == MakeDev(DevFdMajor, n)
      ensures IsKcovFd(dev)
    {
      DecodeMakeDev(DevFdMajor, n);
      DecodeIgnoresHighBits(dev, MakeDev(DevFdMajor, n));
    }
  }

  /** The bounds of the kcov range: minor 232 and 247 are inside, 231 and
      248 are not, and another major is never a kcov descriptor. */
  lemma KcovFdBoundaries(dev: bv64)
    ensures IsKcovFd(MakeDev(DevFdMajor, 232)) && IsKcovFd(MakeDev(DevFdMajor, 247))
    ensures !IsKcovFd(MakeDev(DevFdMajor, 231)) && !IsKcovFd(MakeDev(DevFdMajor, 248))
    ensures Major(dev) != DevFdMajor ==> !IsKcovFd(dev)
  {
  }

  /** The replacement value is itself neither refused class, so writing it
      is final. */
  lemma DevNullIsAllowed()
    ensures Major(DevNullDevT) == 2 && Minor(DevNullDevT) == 2
    ensures !IsKcovFd(DevNullDevT) && !IsRawRootDisk(DevNullDevT)
  {
  }
}
