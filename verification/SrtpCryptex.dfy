/** Cryptex (RFC 9335): CSRCs and header extensions encrypted with the payload (srtp_cryptex_* in srtp.c). */
module SrtpCryptex {
  import opened Bytes
  import opened SrtpPacket

  /** Octets between the extension header and the place it moves to when rotated. */
  const ROTATED_START := FIXED_HEADER + XTN_HEADER

  // ----- Rotation -----

  /** The extension header moved in front of the CSRC list, which ends at `h`. */
  function Rotated(pkt: Octets, h: nat): (r: Octets)
    requires FIXED_HEADER <= h && h + XTN_HEADER <= |pkt|
    ensures |r| == |pkt|
  {
    pkt[..FIXED_HEADER] + pkt[h..h + XTN_HEADER] + pkt[FIXED_HEADER..h] + pkt[h + XTN_HEADER..]
  }

  function Unrotated(pkt: Octets, h: nat): (r: Octets)
    requires FIXED_HEADER <= h && h + XTN_HEADER <= |pkt|
    ensures |r| == |pkt|
  {
    pkt[..FIXED_HEADER] + pkt[ROTATED_START..h + XTN_HEADER] + pkt[FIXED_HEADER..ROTATED_START] + pkt[h + XTN_HEADER..]
  }

  /** Where octet i of a packet is after rotation. */
  function RotatedIndex(h: nat, i: nat): nat
  {
    if i < FIXED_HEADER || i >= h + XTN_HEADER then i
    else if i < h then i + XTN_HEADER
    else i - h + FIXED_HEADER
  }

  lemma RotatedAt(pkt: Octets, h: nat, i: nat)
    requires FIXED_HEADER <= h && h + XTN_HEADER <= |pkt| && i < |pkt|
    ensures RotatedIndex(h, i) < |pkt|
    ensures Rotated(pkt, h)[RotatedIndex(h, i)] == pkt[i]
    ensures Unrotated(pkt, h)[i] == pkt[RotatedIndex(h, i)]
  {
  }

  lemma UnrotateRotated(pkt: Octets, h: nat)
    requires FIXED_HEADER <= h && h + XTN_HEADER <= |pkt|
    ensures Unrotated(Rotated(pkt, h), h) == pkt
  {
    hide Rotated, Unrotated;
    forall i | 0 <= i < |pkt| ensures Unrotated(Rotated(pkt, h), h)[i] == pkt[i] {
      RotatedAt(pkt, h, i);
      RotatedAt(Rotated(pkt, h), h, i);
    }
  }

  /** Octets after the packet stay after it. */
  lemma RotatedAppend(pkt: Octets, after: Octets, h: nat)
    requires FIXED_HEADER <= h && h + XTN_HEADER <= |pkt|
    ensures Rotated(pkt + after, h) == Rotated(pkt, h) + after
  {
    var all := pkt + after;
    assert all[..FIXED_HEADER] == pkt[..FIXED_HEADER] && all[h..h + XTN_HEADER] == pkt[h..h + XTN_HEADER];
    assert all[FIXED_HEADER..h] == pkt[FIXED_HEADER..h] && all[h + XTN_HEADER..] == pkt[h + XTN_HEADER..] + after;
    JoinAppend(pkt[..FIXED_HEADER], pkt[h..h + XTN_HEADER], pkt[FIXED_HEADER..h], pkt[h + XTN_HEADER..], after);
  }

  lemma UnrotatedAppend(pkt: Octets, after: Octets, h: nat)
    requires FIXED_HEADER <= h && h + XTN_HEADER <= |pkt|
    ensures Unrotated(pkt + after, h) == Unrotated(pkt, h) + after
  {
    var all := pkt + after;
    assert all[..FIXED_HEADER] == pkt[..FIXED_HEADER] && all[ROTATED_START..h + XTN_HEADER] == pkt[ROTATED_START..h + XTN_HEADER];
    assert all[FIXED_HEADER..ROTATED_START] == pkt[FIXED_HEADER..ROTATED_START] && all[h + XTN_HEADER..] == pkt[h + XTN_HEADER..] + after;
    JoinAppend(pkt[..FIXED_HEADER], pkt[ROTATED_START..h + XTN_HEADER], pkt[FIXED_HEADER..ROTATED_START], pkt[h + XTN_HEADER..], after);
  }

  lemma JoinAppend(a: Octets, b: Octets, c: Octets, d: Octets, after: Octets)
    ensures a + b + c + (d + after) == a + b + c + d + after
  {
  }

  // ----- Encrypting -----

  /** In place: one region of the rotated packet, then rotated back. */
  function InPlace(pkt: Octets, h: nat, end: nat, ks: Keystream, k: nat): (r: Octets)
    requires FIXED_HEADER <= h && h + XTN_HEADER <= |pkt| && ROTATED_START <= end <= |pkt|
    ensures |r| == |pkt|
  {
    Unrotated(XorRange(Rotated(pkt, h), ROTATED_START, end, ks, k), h)
  }

  /** Out of place: the CSRC list, then everything after the extension header with the keystream going
      on. */
  function OutOfPlace(pkt: Octets, h: nat, end: nat, ks: Keystream, k: nat): (r: Octets)
    requires FIXED_HEADER <= h && h + XTN_HEADER <= end <= |pkt|
    ensures |r| == |pkt|
  {
    XorRange(XorRange(pkt, FIXED_HEADER, h, ks, k), h + XTN_HEADER, end, ks, k + (h - FIXED_HEADER))
  }

  /** Section 6 of RFC 9335, octet by octet: the fixed header and the extension header are clear, the
      keystream runs over the CSRCs and on over the rest. */
  function CryptexOctet(pkt: Octets, h: nat, ks: Keystream, k: nat, i: nat): Byte
    requires FIXED_HEADER <= h && i < |pkt|
  {
    if i < FIXED_HEADER || h <= i < h + XTN_HEADER then pkt[i]
    else if i < h then Xor(pkt[i], ks(k + i - FIXED_HEADER))
    else Xor(pkt[i], ks(k + i - ROTATED_START))
  }

  lemma RegionOctet(pkt: Octets, h: nat, end: nat, ks: Keystream, k: nat, i: nat)
    requires FIXED_HEADER <= h && h + XTN_HEADER <= |pkt| && ROTATED_START <= end <= |pkt| && i < |pkt|
    ensures InPlace(pkt, h, end, ks, k)[i]
         == if ROTATED_START <= RotatedIndex(h, i) < end
            then Xor(pkt[i], ks(k + RotatedIndex(h, i) - ROTATED_START)) else pkt[i]
  {
    hide Rotated, Unrotated, RotatedIndex, XorRange;
    RotatedAt(pkt, h, i);
    RotatedAt(XorRange(Rotated(pkt, h), ROTATED_START, end, ks, k), h, i);
  }

  lemma InPlaceOctet(pkt: Octets, h: nat, ks: Keystream, k: nat, i: nat)
    requires FIXED_HEADER <= h && h + XTN_HEADER <= |pkt| && i < |pkt|
    ensures InPlace(pkt, h, |pkt|, ks, k)[i] == CryptexOctet(pkt, h, ks, k, i)
  {
    hide InPlace;
    RegionOctet(pkt, h, |pkt|, ks, k, i);
  }

  lemma OutOfPlaceOctet(pkt: Octets, h: nat, ks: Keystream, k: nat, i: nat)
    requires FIXED_HEADER <= h && h + XTN_HEADER <= |pkt| && i < |pkt|
    ensures OutOfPlace(pkt, h, |pkt|, ks, k)[i] == CryptexOctet(pkt, h, ks, k, i)
  {
  }

  /** Both buffer modes give the same octets, for every CSRC count and extension length. */
  lemma BufferModesAgree(pkt: Octets, h: nat, ks: Keystream, k: nat)
    requires FIXED_HEADER <= h && h + XTN_HEADER <= |pkt|
    ensures InPlace(pkt, h, |pkt|, ks, k) == OutOfPlace(pkt, h, |pkt|, ks, k)
  {
    hide InPlace, OutOfPlace;
    forall i | 0 <= i < |pkt| ensures InPlace(pkt, h, |pkt|, ks, k)[i] == OutOfPlace(pkt, h, |pkt|, ks, k)[i] {
      InPlaceOctet(pkt, h, ks, k, i);
      OutOfPlaceOctet(pkt, h, ks, k, i);
    }
  }

  // ----- Profiles -----

  /** The profile that announces encryption, for the two forms it is defined for. */
  function CryptexProfile(profile: Word16): Option<Word16>
  {
    if profile == ONE_BYTE then Some(CRYPTEX_ONE_BYTE)
    else if profile == TWO_BYTE then Some(CRYPTEX_TWO_BYTE)
    else None
  }

  function PlainProfile(profile: Word16): Word16
  {
    if profile == CRYPTEX_ONE_BYTE then ONE_BYTE
    else if profile == CRYPTEX_TWO_BYTE then TWO_BYTE
    else profile
  }

  predicate IsCryptexProfile(profile: Word16) { profile == CRYPTEX_ONE_BYTE || profile == CRYPTEX_TWO_BYTE }

  function SetProfile(pkt: Octets, h: nat, profile: Word16): (r: Octets)
    requires h + XTN_HEADER <= |pkt|
    ensures |r| == |pkt| && r[h] == Hi(profile) && r[h + 1] == Lo(profile)
    ensures forall i :: 0 <= i < |pkt| && i != h && i != h + 1 ==> r[i] == pkt[i]
  {
    pkt[h := Hi(profile)][h + 1 := Lo(profile)]
  }

  /** Whether a received extension is taken for an encrypted one. */
  predicate LooksEncrypted(pkt: Octets)
    requires ValidRtp(pkt)
  {
    HasXtn(pkt) && IsCryptexProfile(Profile(pkt))
  }

  // ----- Opening what was closed -----

  /** The regions the transform leaves alone: the fixed header and the extension header. */
  lemma ClearParts(pkt: Octets, h: nat, end: nat, ks: Keystream, k: nat, i: nat)
    requires FIXED_HEADER <= h && h + XTN_HEADER <= |pkt| && ROTATED_START <= end <= |pkt|
    requires i < FIXED_HEADER || h <= i < h + XTN_HEADER
    ensures InPlace(pkt, h, end, ks, k)[i] == pkt[i]
  {
    RegionOctet(pkt, h, end, ks, k, i);
  }

  /** Decrypting is encrypting again, whatever profile stands in the extension header meanwhile. */
  lemma InPlaceTwice(pkt: Octets, h: nat, p: Word16, q: Word16, ks: Keystream, k: nat, after: Octets)
    requires FIXED_HEADER <= h && h + XTN_HEADER <= |pkt|
    ensures var closed := InPlace(SetProfile(pkt, h, p), h, |pkt|, ks, k) + after;
            SetProfile(InPlace(closed, h, |pkt|, ks, k), h, q)[..|pkt|] == SetProfile(pkt, h, q)
  {
    var renamed := SetProfile(pkt, h, p);
    var closed := InPlace(renamed, h, |pkt|, ks, k) + after;
    var back := InPlace(closed, h, |pkt|, ks, k);
    hide InPlace;
    forall i | 0 <= i < |pkt| ensures SetProfile(back, h, q)[i] == SetProfile(pkt, h, q)[i] {
      RegionOctet(renamed, h, |pkt|, ks, k, i);
      RegionOctet(closed, h, |pkt|, ks, k, i);
      if ROTATED_START <= RotatedIndex(h, i) { XorCancels(renamed[i], ks(k + RotatedIndex(h, i) - ROTATED_START)); }
    }
  }
}
