/** The IPv4 header checksum of the packet generator: sections 1 and 2 of RFC 1071,
    section 3.1 of RFC 791.

    The source adds all 16-bit words first and folds the carries twice at the end.  The
    reference is the definition of RFC 1071, which brings the carry around after every
    addition.  The two agree on every even-length list; on odd-length lists the source
    weighs the last byte wrongly, and the lemmas say exactly when that shows. */
module Ipv4Checksum {
  import opened Prelude

  type Byte = b: int | 0 <= b < 0x100
  type Word = w: int | 0 <= w < 0x10000

  /** More words than this could carry out of the two folds of the source. */
  const MAX_WORDS := 0x10001

  function WordOf(hi: int, lo: int): int {
    hi * 0x100 + lo
  }

  // ------------------------------------------------------------------ what the source computes

  /** Sum of the big-endian words; a trailing odd byte is added as it is. */
  function SourceSum(bs: seq<Byte>): nat {
    if |bs| == 0 then 0
    else if |bs| == 1 then bs[0]
    else WordOf(bs[0], bs[1]) + SourceSum(bs[2..])
  }

  function FoldTwice(sum: nat): nat {
    var once := sum / 0x10000 + sum % 0x10000;
    once + once / 0x10000
  }

  /** `(~x) & 0xFFFF` on unbounded two's complement integers. */
  function Complement16(x: int): Word {
    (-x - 1) % 0x10000
  }

  function Checksum(bs: seq<Byte>): Word {
    Complement16(FoldTwice(SourceSum(bs)))
  }

  method IpChecksum(header: seq<Byte>, size: nat) returns (r: Word)
    requires size <= |header|
    ensures r == Checksum(header[..size])
    ensures size == |header| ==> r == Checksum(header)
  {
    assert size == |header| ==> header[..size] == header;
    var cksum: int, pointer, left := 0, 0, size;
    while left > 1
      invariant pointer + left == size
      invariant 0 <= cksum
      invariant cksum + SourceSum(header[..size][pointer..]) == SourceSum(header[..size])
    {
      cksum := cksum + WordOf(header[pointer], header[pointer + 1]);
      assert header[..size][pointer..][2..] == header[..size][pointer + 2..];
      left, pointer := left - 2, pointer + 2;
    }
    if left == 1 {
      cksum := cksum + header[pointer];
    }
    cksum := cksum / 0x10000 + cksum % 0x10000;
    cksum := cksum + cksum / 0x10000;
    r := (-cksum - 1) % 0x10000;
  }

  // ------------------------------------------------------------------ RFC 1071

  /** One's complement addition: the carry comes around at once. */
  function OnesAdd(a: int, b: int): int {
    if a + b < 0x10000 then a + b else a + b - 0xFFFF
  }

  /** RFC 1071 pads an odd-length list with a zero byte on the right. */
  function RfcSum(bs: seq<Byte>): Word {
    if |bs| == 0 then 0
    else if |bs| == 1 then 256 * (bs[0] as int)
    else OnesAdd(256 * (bs[0] as int) + bs[1], RfcSum(bs[2..]))
  }

  function LastByte(bs: seq<Byte>): int
    requires bs != []
  {
    bs[|bs| - 1]
  }

  function PaddedSum(bs: seq<Byte>): nat {
    if |bs| % 2 == 0 then SourceSum(bs) else SourceSum(bs + [0])
  }

  // ------------------------------------------------------------------ arithmetic modulo 0xFFFF

  /** `x` is the representative of `sum` in 0..0xFFFF that is 0 only for 0. */
  ghost predicate Represents(x: int, q: int, sum: int) {
    0 <= x <= 0xFFFF && (x == 0 <==> sum == 0) && sum == x + q * 0xFFFF
  }

  lemma SameRepresentative(x: int, p: int, y: int, q: int, sum: int)
    requires Represents(x, p, sum) && Represents(y, q, sum)
    ensures x == y
  {
  }

  lemma StoreRepresents(x: int, p: int, x': int, q: int, sum: int, sum': int)
    requires sum >= 0 && sum' == sum + (0xFFFF - x)
    requires Represents(x, p, sum) && Represents(x', q, sum')
    ensures x' == 0xFFFF
  {
  }

  lemma ChangeRepresents(p: int, x: int, q: int, sum: int, sum': int, w: int, w': int)
    requires 0 <= w <= 0xFFFF && 0 <= w' <= 0xFFFF && w <= sum && sum' == sum - w + w'
    requires Represents(0xFFFF, p, sum) && Represents(x, q, sum')
    ensures x == 0xFFFF <==> w' == w || (w == 0 && w' == 0xFFFF) || (w == 0xFFFF && w' == 0 && sum != 0xFFFF)
  {
  }

  lemma PaddedRepresents(x: int, p: int, y: int, q: int, sum: int, padded: int, b: int)
    requires 0 <= b < 0x100 && padded == sum + 255 * b
    requires Represents(x, p, sum) && Represents(y, q, padded)
    ensures x == y <==> b == 0
  {
  }

  lemma FoldRepresents(sum: nat) returns (q: int)
    requires sum < 0x1_0000_0000
    ensures Complement16(FoldTwice(sum)) <= 0xFFFF
    ensures Represents(0xFFFF - Complement16(FoldTwice(sum)), q, sum)
  {
    var once := sum / 0x10000 + sum % 0x10000;
    var x := once % 0x10000 + once / 0x10000;
    assert FoldTwice(sum) % 0x10000 == x;
    q := sum / 0x10000 + once / 0x10000;
  }

  lemma OneWordMore(n: nat, w: int, sum: int)
    requires n >= 2 && w <= 0xFFFF && sum <= (n - 2 + 1) / 2 * 0xFFFF
    ensures w + sum <= (n + 1) / 2 * 0xFFFF
  {
    assert (n - 2 + 1) / 2 == (n + 1) / 2 - 1;
  }

  lemma AtMostOneByte(n: nat)
    requires n < 2
    ensures n * 0xFF <= (n + 1) / 2 * 0xFFFF
  {
  }

  lemma SumBound(bs: seq<Byte>)
    ensures SourceSum(bs) <= (|bs| + 1) / 2 * 0xFFFF
  {
    if |bs| >= 2 {
      SumBound(bs[2..]);
      OneWordMore(|bs|, WordOf(bs[0], bs[1]), SourceSum(bs[2..]));
    } else {
      AtMostOneByte(|bs|);
    }
  }

  lemma ChecksumRepresents(bs: seq<Byte>) returns (q: int)
    requires (|bs| + 1) / 2 <= MAX_WORDS
    ensures Checksum(bs) <= 0xFFFF && Represents(0xFFFF - Checksum(bs), q, SourceSum(bs))
  {
    SumBound(bs);
    q := FoldRepresents(SourceSum(bs));
  }

  lemma RfcRepresents(bs: seq<Byte>) returns (q: int)
    ensures Represents(RfcSum(bs), q, PaddedSum(bs))
  {
    if |bs| == 0 {
      q := 0;
    } else if |bs| == 1 {
      PaddingAdds(bs);
      q := 0;
    } else {
      q := RfcRepresents(bs[2..]);
      PaddedSumStep(bs);
      if WordOf(bs[0], bs[1]) + RfcSum(bs[2..]) >= 0x10000 { q := q + 1; }
    }
  }

  lemma PaddedSumStep(bs: seq<Byte>)
    requires |bs| >= 2
    ensures PaddedSum(bs) == WordOf(bs[0], bs[1]) + PaddedSum(bs[2..])
  {
    assert (bs + [0])[2..] == bs[2..] + [0];
  }

  lemma PaddingAdds(bs: seq<Byte>)
    requires |bs| % 2 == 1
    ensures PaddedSum(bs) == SourceSum(bs) + 255 * LastByte(bs)
  {
    if |bs| == 1 {
      assert SourceSum(bs + [0]) == WordOf(bs[0], 0);
    } else {
      PaddingAdds(bs[2..]);
      PaddedSumStep(bs);
    }
  }

  // ------------------------------------------------------------------ the theorems

  /** Deferring all carries to the end gives the checksum RFC 1071 defines. */
  lemma DeferredCarriesRefineRfc1071(bs: seq<Byte>)
    requires |bs| % 2 == 0 && |bs| / 2 <= MAX_WORDS
    ensures Checksum(bs) == 0xFFFF - RfcSum(bs)
  {
    var p := ChecksumRepresents(bs);
    var q := RfcRepresents(bs);
    SameRepresentative(0xFFFF - Checksum(bs), p, RfcSum(bs), q, SourceSum(bs));
  }

  /** On an odd-length list the source departs from RFC 1071 unless the last byte is 0. */
  lemma OddLengthAgreesIffLastByteZero(bs: seq<Byte>)
    requires |bs| % 2 == 1 && (|bs| + 1) / 2 <= MAX_WORDS
    ensures Checksum(bs) == 0xFFFF - RfcSum(bs) <==> LastByte(bs) == 0
  {
    var p := ChecksumRepresents(bs);
    var q := RfcRepresents(bs);
    PaddingAdds(bs);
    PaddedRepresents(0xFFFF - Checksum(bs), p, RfcSum(bs), q, SourceSum(bs), PaddedSum(bs), LastByte(bs));
  }

  /** A single byte: the source adds it where RFC 1071 adds 256 times as much. */
  lemma OddByteDeparts()
    ensures Checksum([1]) != 0xFFFF - RfcSum([1])
  {
    OddLengthAgreesIffLastByteZero([1]);
  }

  function WordAt(bs: seq<Byte>, k: nat): Word
    requires 2 * k + 1 < |bs|
  {
    WordOf(bs[2 * k], bs[2 * k + 1])
  }

  /** `struct.pack("!H", w)`. */
  function PackWord(w: Word): (r: seq<Byte>)
    ensures |r| == 2 && WordOf(r[0], r[1]) == w
  {
    [w / 0x100, w % 0x100]
  }

  function StoreWord(bs: seq<Byte>, k: nat, w: Word): (r: seq<Byte>)
    requires 2 * k + 1 < |bs|
    ensures |r| == |bs| && WordAt(r, k) == w
    ensures forall i :: 0 <= i < |bs| && i / 2 != k ==> r[i] == bs[i]
  {
    var p := PackWord(w);
    bs[2 * k := p[0]][2 * k + 1 := p[1]]
  }

  lemma StoreWordSum(bs: seq<Byte>, k: nat, w: Word)
    requires 2 * k + 1 < |bs|
    ensures SourceSum(StoreWord(bs, k, w)) == SourceSum(bs) - WordAt(bs, k) + w
  {
    var r := StoreWord(bs, k, w);
    if k == 0 {
      assert r[2..] == bs[2..];
    } else {
      StoreWordSum(bs[2..], k - 1, w);
      assert r[2..] == StoreWord(bs[2..], k - 1, w);
    }
  }

  lemma WordAtMostSum(bs: seq<Byte>, k: nat)
    requires 2 * k + 1 < |bs|
    ensures WordAt(bs, k) <= SourceSum(bs)
  {
    if k > 0 { WordAtMostSum(bs[2..], k - 1); }
  }

  /** Storing the checksum in its zeroed word makes the whole list check. */
  lemma StoredChecksumVerifies(bs: seq<Byte>, k: nat)
    requires |bs| % 2 == 0 && |bs| / 2 <= MAX_WORDS
    requires 2 * k + 1 < |bs| && WordAt(bs, k) == 0
    ensures Checksum(bs) <= 0xFFFF && Checksum(StoreWord(bs, k, Checksum(bs))) == 0
  {
    var p := ChecksumRepresents(bs);
    var bs' := StoreWord(bs, k, Checksum(bs));
    StoreWordSum(bs, k, Checksum(bs));
    var q := ChecksumRepresents(bs');
    StoreRepresents(0xFFFF - Checksum(bs), p, 0xFFFF - Checksum(bs'), q, SourceSum(bs), SourceSum(bs'));
  }

  /** A list that checks stops checking when one word changes, except that one's complement
      arithmetic cannot tell 0x0000 from 0xFFFF in a list that is not all zero. */
  lemma SingleWordChangeDetected(bs: seq<Byte>, k: nat, w': Word)
    requires |bs| % 2 == 0 && |bs| / 2 <= MAX_WORDS
    requires 2 * k + 1 < |bs| && Checksum(bs) == 0
    ensures Checksum(StoreWord(bs, k, w')) == 0 <==>
              var w := WordAt(bs, k);
              || w' == w
              || (w == 0 && w' == 0xFFFF)
              || (w == 0xFFFF && w' == 0 && SourceSum(bs) != 0xFFFF)
  {
    var bs' := StoreWord(bs, k, w');
    var p := ChecksumRepresents(bs);
    var q := ChecksumRepresents(bs');
    StoreWordSum(bs, k, w');
    WordAtMostSum(bs, k);
    ChangeRepresents(p, 0xFFFF - Checksum(bs'), q, SourceSum(bs), SourceSum(bs'), WordAt(bs, k), w');
  }

  // ------------------------------------------------------------------ the generated header

  /** The part of the packed header before the checksum word. */
  function HeaderFront(field: Byte, tos: Byte, totlength: Word, ident: Word, flags: Byte, fragoff: Byte,
                       ttl: Byte, proto: Byte): (r: seq<Byte>)
    ensures |r| == 10
  {
    [field, tos] + PackWord(totlength) + PackWord(ident) + [flags, fragoff, ttl, proto]
  }

  lemma ChecksumIsSixthWord(front: seq<Byte>, check: Word, addresses: seq<Byte>)
    requires |front| == 10 && |addresses| == 8
    ensures WordAt(front + PackWord(check) + addresses, 5) == check
    ensures var h := front + PackWord(check) + addresses; h[..10] == front && h[12..] == addresses
    ensures front + PackWord(check) + addresses == StoreWord(front + [0, 0] + addresses, 5, check)
  {
    var h, z, p := front + PackWord(check) + addresses, front + [0, 0] + addresses, PackWord(check);
    var s := StoreWord(z, 5, check);
    assert h[10] == p[0] && h[11] == p[1];
    assert s[10] == p[0] && s[11] == p[1];
    forall i | 0 <= i < 20 ensures h[i] == s[i] {
      if i < 10 || 12 <= i { assert s[i] == z[i]; }
    }
  }

  lemma PackedChecksumVerifies(front: seq<Byte>, check: Word, addresses: seq<Byte>)
    requires |front| == 10 && |addresses| == 8
    requires check == Checksum(front + [0, 0] + addresses)
    ensures Checksum(front + PackWord(check) + addresses) == 0
  {
    var header := front + [0, 0] + addresses;
    assert Checksum(StoreWord(header, 5, check)) == 0 by { StoredChecksumVerifies(header, 5); }
    ChecksumIsSixthWord(front, check, addresses);
  }

  /** The header is packed twice: once with a zero checksum, once with the checksum of that. */
  method PackWithChecksum(front: seq<Byte>, addresses: seq<Byte>) returns (packed: seq<Byte>)
    requires |front| == 10 && |addresses| == 8
    ensures |packed| == 20 && packed[..10] == front && packed[12..] == addresses
    ensures Checksum(packed) == 0
  {
    var header := front + [0, 0] + addresses;
    var check := IpChecksum(header, |header|);
    PackedChecksumVerifies(front, check, addresses);
    ChecksumIsSixthWord(front, check, addresses);
    packed := front + PackWord(check) + addresses;
  }

  /** Every header the generator emits carries a checksum that verifies; the call fails,
      as struct.pack does, exactly when a length or identification does not fit 16 bits. */
  method GenIP(tcpLength: int, i: int, src: seq<Byte>, dst: seq<Byte>) returns (out: Option<seq<Byte>>)
    requires |src| == 4 && |dst| == 4
    ensures out.Some? <==> 0 <= tcpLength + 20 < 0x10000 && 0 <= i < 0x10000
    ensures out.Some? ==>
              && |out.value| == 20
              && Checksum(out.value) == 0
              && out.value[..10] == [0x45, 0] + PackWord(tcpLength + 20) + PackWord(i) + [64, 0, 81, 6]
              && out.value[12..] == src + dst
  {
    var length, version := 5, 4;
    var field := length + version * 16;
    var totlength := tcpLength + length * 4;
    if !(0 <= totlength < 0x10000 && 0 <= i < 0x10000) {
      return None;
    }
    var front := HeaderFront(field, 0, totlength, i, 64, 0, 81, 6);
    var packed := PackWithChecksum(front, src + dst);
    out := Some(packed);
  }
}
