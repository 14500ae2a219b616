/** IPv4 packets as internal/ippkt/ippkt.go and `isIPv4` in internal/session/client.go read them. */
module IPv4 {
  import opened Bytes

  datatype Header = Header(src: nat, dst: nat)

  /** `ippkt.Parse`: the addresses of a sane IPv4 packet. */
  function Parse(pkt: Bytes): Option<Header> {
    if |pkt| < 20 || pkt[0] / 16 != 4 then None
    else
      var ihl := pkt[0] % 16 * 4;
      if ihl < 20 || ihl > |pkt| then None
      else
        var total := Get16(pkt[2..4]);
        if total < ihl || total > |pkt| then None
        else Some(Header(Get32(pkt[12..16]), Get32(pkt[16..20])))
  }

  /** `isIPv4`, which looks at the version only. */
  predicate IsIPv4(pkt: Bytes) {
    |pkt| >= 1 && pkt[0] / 16 == 4
  }

  // ---- What a packet's own bytes say (section 3.1 of RFC 791) ----

  /** Version 4 in the upper half of the first byte. */
  predicate Version4(pkt: Bytes) {
    pkt != [] && 0x40 <= pkt[0] <= 0x4F
  }

  /** Version 4, and the header within the total length within the packet; the lower half of byte 0 counts words. */
  predicate WellFormed(pkt: Bytes) {
    |pkt| >= 20 && Version4(pkt) && 5 <= pkt[0] - 0x40 && 4 * (pkt[0] - 0x40) <= Duo(pkt, 2) <= |pkt|
  }

  function Source(pkt: Bytes): nat
    requires |pkt| >= 20
  {
    Quad(pkt, 12)
  }

  function Destination(pkt: Bytes): nat
    requires |pkt| >= 20
  {
    Quad(pkt, 16)
  }

  /** Parse takes exactly the well-formed packets, and reads source and destination off their bytes. */
  lemma ParseExact(pkt: Bytes)
    ensures Parse(pkt).Some? <==> WellFormed(pkt)
    ensures WellFormed(pkt) ==> Parse(pkt) == Some(Header(Source(pkt), Destination(pkt)))
  {
    hide Get16, Get32, Duo, Quad;
    if |pkt| >= 20 {
      GetsDuo(pkt, 2);
      GetsQuad(pkt, 12);
      GetsQuad(pkt, 16);
    }
  }

  lemma IsIPv4Exact(pkt: Bytes)
    ensures IsIPv4(pkt) <==> Version4(pkt)
    ensures WellFormed(pkt) ==> IsIPv4(pkt)
  {
  }

  /** A header of `words` words, with `rest` for its options and the data. */
  function Laid(words: nat, tos: Byte, total: nat, other: Bytes, src: nat, dst: nat, rest: Bytes): Bytes
    requires words <= 15 && |other| == 8
  {
    [0x40 + words, tos] + Put16(total) + other + Put32(src) + Put32(dst) + rest
  }

  lemma LaidParts(words: nat, tos: Byte, total: nat, other: Bytes, src: nat, dst: nat, rest: Bytes)
    requires words <= 15 && |other| == 8
    ensures var pkt := Laid(words, tos, total, other, src, dst, rest);
            && |pkt| >= 20 && pkt[0] == 0x40 + words
            && pkt[2..4] == Put16(total) && pkt[12..16] == Put32(src) && pkt[16..20] == Put32(dst)
  {
    hide Put16, Put32;
  }

  /** What a sender lays out comes back from Parse: source and destination, in this order. */
  lemma ParseLaid(words: nat, tos: Byte, total: nat, other: Bytes, src: nat, dst: nat, rest: Bytes)
    requires 5 <= words <= 15 && |other| == 8 && src < TWO32 && dst < TWO32 && total < TWO16
    ensures var pkt := Laid(words, tos, total, other, src, dst, rest);
            && (Parse(pkt).Some? <==> 4 * words <= total <= |pkt|)
            && (Parse(pkt).Some? ==> Parse(pkt) == Some(Header(src, dst)))
  {
    hide Put16, Get16, Put32, Get32;
    var pkt := Laid(words, tos, total, other, src, dst, rest);
    LaidParts(words, tos, total, other, src, dst, rest);
    hide Laid;
    GetPut16(total);
    GetPut32(src);
    GetPut32(dst);
  }
}
