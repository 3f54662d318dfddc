/** The image list of bootstrap/hboot/images.c and its CRC gate. */
module Images {
  import opened Crc32

  const B_STAT_COMPLETED := 2
  const B_STAT_CRCERROR := 3
  const B_ATTR_VERIFY: bv8 := 1

  const IMG_HBOOT := 0
  const IMG_LINUX := 1
  const IMG_INITRAMFS := 2
  const IMG_DEVTREE := 3
  const IMG_CMDLINE := 4
  const IMG_LAST_TAG := IMG_CMDLINE

  /** struct buffer_handle: its state, attributes and checksum, where its image lies in memory, and what
      the memory there holds. */
  datatype Buffer = Buffer(state: int, attrs: bv8, checksum: bv32, dest: nat, data: seq<bv8>)

  datatype Image = NoImage | Image(data: nat, content: seq<bv8>)

  /** The image is one that image_complete checks. */
  predicate Verified(b: Buffer) {
    b.state == B_STAT_COMPLETED && b.attrs & B_ATTR_VERIFY != 0
  }

  predicate Corrupt(b: Buffer) {
    Verified(b) && b.checksum != Crc(b.data)
  }

  type Buffers = s: seq<Buffer> | |s| == IMG_LAST_TAG + 1
    witness seq(IMG_LAST_TAG + 1, _ => Buffer(0, 0, 0, 0, []))

  /** image_find */
  function Find(bs: Buffers, tag: nat): Image {
    if tag > IMG_LAST_TAG then NoImage
    else if bs[tag].state == B_STAT_COMPLETED then Image(bs[tag].dest, bs[tag].data)
    else NoImage
  }

  function Checked(b: Buffer): Buffer {
    if Corrupt(b) then b.(state := B_STAT_CRCERROR) else b
  }

  /** The list after image_complete with HBOOT_VERIFY_CRC32: the boot loader's own buffer is not checked. */
  function Completed(bs: Buffers): Buffers {
    [bs[IMG_HBOOT], Checked(bs[IMG_LINUX]), Checked(bs[IMG_INITRAMFS]), Checked(bs[IMG_DEVTREE]),
     Checked(bs[IMG_CMDLINE])]
  }

  predicate Fails(bs: Buffers) {
    Corrupt(bs[IMG_LINUX]) || Corrupt(bs[IMG_INITRAMFS]) || Corrupt(bs[IMG_DEVTREE]) || Corrupt(bs[IMG_CMDLINE])
  }

  /** What the gate lets through, exactly.  An image is found behind it if and only if it had been loaded
      completely and, unless it is the boot loader's own or is not to be verified, its checksum is right; what
      is found is the image as it was loaded.  The check fails exactly if it stops an image. */
  lemma GateIff(bs: Buffers, tag: nat)
    ensures var sound := tag <= 4 && bs[tag].state == 2
                         && (tag == 0 || bs[tag].attrs & 1 == 0 || bs[tag].checksum == Crc(bs[tag].data));
            && Find(Completed(bs), tag) == (if sound then Image(bs[tag].dest, bs[tag].data) else NoImage)
            && (tag <= 4 && !(bs[tag].state == 2 && !sound) ==> Completed(bs)[tag] == bs[tag])
            && (tag <= 4 && bs[tag].state == 2 && !sound ==> Completed(bs)[tag] == bs[tag].(state := 3))
    ensures Fails(bs) <==> exists i :: 0 <= i <= 4 && Find(bs, i) != Find(Completed(bs), i)
  {
    hide Crc;
    assert forall i :: 1 <= i <= 4 ==> Completed(bs)[i] == Checked(bs[i]);
    if Fails(bs) {
      var i: nat :| 1 <= i <= 4 && Corrupt(bs[i]);
      assert Find(bs, i) != Find(Completed(bs), i);
    }
  }

  /** The CRC gate, end to end: an image whose checksum was taken before an error burst of at most 32 bits
      hit it makes image_complete fail and cannot be found afterwards; an intact one stays as it is. */
  lemma GateStopsBursts(bs: Buffers, tag: nat, original: seq<bv8>, k: nat)
    requires IMG_HBOOT < tag <= IMG_LAST_TAG
    requires Verified(bs[tag]) && bs[tag].checksum == Crc(original)
    ensures BurstAt(bs[tag].data, original, k) ==> Fails(bs) && Find(Completed(bs), tag) == NoImage
    ensures bs[tag].data == original ==> Find(Completed(bs), tag) == Image(bs[tag].dest, original)
  {
    hide Crc;
    if BurstAt(bs[tag].data, original, k) {
      BurstsAreDetected(bs[tag].data, original, k);
      assert Corrupt(bs[tag]);
    }
  }

  class ImageList {
    const buffers: array<Buffer>

    constructor (initial: Buffers)
      ensures buffers.Length == IMG_LAST_TAG + 1 && fresh(buffers) && buffers[..] == initial
    {
      buffers := new Buffer[IMG_LAST_TAG + 1](i requires 0 <= i < |initial| => initial[i]);
    }

    method ImageFind(tag: nat) returns (image: Image)
      requires buffers.Length == IMG_LAST_TAG + 1
      ensures image == Find(buffers[..], tag)
    {
      if tag > IMG_LAST_TAG {
        return NoImage;
      }
      if buffers[tag].state == B_STAT_COMPLETED {
        return Image(buffers[tag].dest, buffers[tag].data);
      }
      return NoImage;
    }

    /** The body of image_complete's loop. */
    method CheckBuffer(i: nat) returns (bad: bool)
      requires buffers.Length == IMG_LAST_TAG + 1 && i <= IMG_LAST_TAG
      modifies buffers
      ensures bad == Corrupt(old(buffers[i]))
      ensures buffers[..] == old(buffers[..])[i := Checked(old(buffers[i]))]
    {
      hide Crc;
      bad := false;
      var ab := buffers[i];
      if ab.state == B_STAT_COMPLETED && ab.attrs & B_ATTR_VERIFY != 0 {
        var c := ComputeCrc(ab.data);
        if ab.checksum != c {
          buffers[i] := ab.(state := B_STAT_CRCERROR);
          bad := true;
        }
      }
    }

    /** image_complete; `verifyCrc32` is the build option HBOOT_VERIFY_CRC32. */
    method ImageComplete(verifyCrc32: bool) returns (fail: int)
      requires buffers.Length == IMG_LAST_TAG + 1
      modifies buffers
      ensures buffers[..] == if verifyCrc32 then Completed(old(buffers[..])) else old(buffers[..])
      ensures fail == if verifyCrc32 && Fails(old(buffers[..])) then 1 else 0
    {
      hide Corrupt, Checked;
      fail := 0;
      ghost var bs := buffers[..];
      var i := IMG_HBOOT + 1;
      while i <= IMG_LAST_TAG
        invariant IMG_HBOOT < i <= IMG_LAST_TAG + 1
        invariant forall j :: 0 <= j <= IMG_LAST_TAG ==>
                    buffers[j] == if verifyCrc32 && IMG_HBOOT < j < i then Checked(bs[j]) else bs[j]
        invariant fail == if verifyCrc32 && exists j :: IMG_HBOOT < j < i && Corrupt(bs[j]) then 1 else 0
      {
        if verifyCrc32 {
          ghost var before := buffers[..];
          var bad := CheckBuffer(i);
          assert forall j :: 0 <= j <= IMG_LAST_TAG ==>
                   buffers[j] == buffers[..][j] && (j != i ==> buffers[..][j] == before[j]);
          if bad {
            fail := 1;
          }
        }
        i := i + 1;
      }
      assert verifyCrc32 ==> buffers[..] == Completed(bs);
      assert !verifyCrc32 ==> buffers[..] == bs;
    }
  }
}
