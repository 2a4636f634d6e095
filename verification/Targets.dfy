/** Stratum wire targets, nonce placement and the difficulty test on a hash. */
module Targets {
  import opened Prelude

  type Byte = b: nat | b < 256

  const NONCE_OFFSET: nat := 39
  const NONCE_LEN: nat := 4

  // ---------------------------------------------------------------- hex and little-endian

  function HexDigit(n: nat): char
    requires n < 16
  {
    if n < 10 then (n + '0' as int) as char else (n - 10 + 'a' as int) as char
  }

  function HexValue(c: char): Option<nat> {
    if '0' <= c <= '9' then Some(c as int - '0' as int)
    else if 'a' <= c <= 'f' then Some(c as int - 'a' as int + 10)
    else if 'A' <= c <= 'F' then Some(c as int - 'A' as int + 10)
    else None
  }

  function EncodeHex(bs: seq<Byte>): string {
    if bs == [] then "" else [HexDigit(bs[0] / 16), HexDigit(bs[0] % 16)] + EncodeHex(bs[1..])
  }

  function DecodeHex(s: string): Option<seq<Byte>> {
    if s == [] then Some([])
    else if |s| == 1 then None
    else
      var hi, lo := HexValue(s[0]), HexValue(s[1]);
      var rest := DecodeHex(s[2..]);
      if hi.Some? && lo.Some? && rest.Some? && hi.value < 16 && lo.value < 16
      then Some([hi.value * 16 + lo.value] + rest.value) else None
  }

  lemma DigitRoundTrip(n: nat)
    requires n < 16
    ensures HexValue(HexDigit(n)) == Some(n)
  {
  }

  lemma {:induction false} HexRoundTrip(bs: seq<Byte>)
    ensures DecodeHex(EncodeHex(bs)) == Some(bs)
  {
    if bs != [] {
      var b, rest := bs[0], EncodeHex(bs[1..]);
      HexRoundTrip(bs[1..]);
      DigitRoundTrip(b / 16);
      DigitRoundTrip(b % 16);
      var e := [HexDigit(b / 16), HexDigit(b % 16)] + rest;
      assert e[2..] == rest && EncodeHex(bs) == e;
      assert [b] + bs[1..] == bs;
    }
  }

  function LeBytes(n: nat, len: nat): seq<Byte> {
    if len == 0 then [] else [n % 256] + LeBytes(n / 256, len - 1)
  }

  function LeValue(bs: seq<Byte>): nat {
    if bs == [] then 0 else bs[0] + 256 * LeValue(bs[1..])
  }

  function Pow256(len: nat): nat { if len == 0 then 1 else 256 * Pow256(len - 1) }

  lemma {:induction false} LeRoundTrip(n: nat, len: nat)
    requires n < Pow256(len)
    ensures |LeBytes(n, len)| == len && LeValue(LeBytes(n, len)) == n
    decreases len
  {
    if len > 0 {
      LeRoundTrip(n / 256, len - 1);
      assert LeBytes(n, len)[1..] == LeBytes(n / 256, len - 1);
    }
  }

  // ---------------------------------------------------------------- targets

  function Target(difficulty: nat): (t: nat)
    ensures t <= U32_MAX
  {
    if difficulty == 0 then U32_MAX else U32_MAX / difficulty
  }

  function DiffToTargetHex(difficulty: nat): string { EncodeHex(LeBytes(Target(difficulty), 4)) }

  /** The difficulty a 4-byte target stands for. */
  function DiffOfTarget(target: nat): nat { if target == 0 then U64_MAX else U32_MAX / target }

  /** Decoding accepts 4- or 8-byte targets. */
  function TargetHexToDiff(s: string): Option<nat> {
    var bytes := DecodeHex(s);
    if bytes.None? || (|bytes.value| != 4 && |bytes.value| != 8) then None
    else Some(DiffOfTarget(LeValue(bytes.value)))
  }

  lemma QuotientBounds(m: nat, d: nat)
    requires d > 0
    ensures 0 <= m / d && m / d * d <= m < (m / d + 1) * d
  {
  }

  lemma QuotientUnique(m: nat, d: nat, t: nat)
    requires d > 0 && t * d <= m < (t + 1) * d
    ensures m / d == t
  {
    QuotientBounds(m, d);
    CancelLt(t, m / d + 1, d);
    CancelLt(m / d, t + 1, d);
  }

  lemma Grow(k: nat, a: int, b: int)
    requires a <= b
    ensures k * a <= k * b
  {
  }

  /** What a miner reads back from an advertised target is the largest difficulty with that target:
      never easier than the recorded one. */
  lemma TargetRoundTrip(d: nat)
    requires d <= U64_MAX
    ensures var back := TargetHexToDiff(DiffToTargetHex(d));
            && back.Some? && d <= back.value <= U64_MAX && Target(back.value) == Target(d)
            && 1 <= back.value && (back.value <= U32_MAX || back.value == U64_MAX)
            && forall e: nat :: e <= U64_MAX && Target(e) == Target(d) ==> e <= back.value
  {
    var t := Target(d);
    assert Pow256(1) == 256 && Pow256(2) == 0x1_0000 && Pow256(3) == 0x100_0000 && Pow256(4) == 0x1_0000_0000;
    LeRoundTrip(t, 4);
    HexRoundTrip(LeBytes(t, 4));
    assert TargetHexToDiff(DiffToTargetHex(d)) == Some(DiffOfTarget(t));
    DecodedIsLargest(d);
    DecodedFits(t);
    forall e: nat | e <= U64_MAX && Target(e) == t ensures e <= DiffOfTarget(t) {
      DecodedIsLargest(e);
    }
  }

  lemma DecodedFits(t: nat)
    requires t <= U32_MAX
    ensures 1 <= DiffOfTarget(t) && (DiffOfTarget(t) <= U32_MAX || DiffOfTarget(t) == U64_MAX)
  {
    if t > 0 {
      QuotientBounds(U32_MAX, t);
      Grow(U32_MAX / t, 1, t);
      QuotientAntitone(U32_MAX, t, U32_MAX);
    }
  }

  lemma DecodedIsLargest(d: nat)
    requires d <= U64_MAX
    ensures var d' := DiffOfTarget(Target(d)); d <= d' <= U64_MAX && Target(d') == Target(d)
  {
    if d > 0 && Target(d) > 0 { SameQuotient(U32_MAX, d); }
  }

  /** Dividing by the quotient gives the largest divisor with that quotient. */
  lemma SameQuotient(m: nat, d: nat)
    requires 1 <= d && m / d > 0
    ensures var t := m / d; d <= m / t <= m && m / (m / t) == t
  {
    var t := m / d;
    var d' := m / t;
    QuotientBounds(m, d);
    QuotientBounds(m, t);
    CancelLt(d, d' + 1, t);
    Grow(t + 1, d, d');
    QuotientUnique(m, d', t);
    Grow(d', 1, t);
  }

  // ---------------------------------------------------------------- the test on a hash

  /** `leading` is the top 64 bits of the hash. */
  predicate MeetsDifficulty(leading: nat, difficulty: nat) {
    difficulty == 0 || leading == 0 || U64_MAX / difficulty >= leading
  }

  function Leading(hash: seq<Byte>): nat
    requires |hash| == 32
  {
    LeValue(hash[24..32])
  }

  lemma QuotientAntitone(m: nat, d: nat, d': nat)
    requires 0 < d <= d'
    ensures m / d' <= m / d
  {
    QuotientBounds(m, d);
    QuotientBounds(m, d');
    CompareProducts(m / d, m / d', m, d, d');
  }

  lemma CompareProducts(q: int, q': int, m: nat, d: nat, d': nat)
    requires 0 <= q' && 0 < d <= d' && q' * d' <= m < (q + 1) * d
    ensures q' <= q
  {
    Grow(q', d, d');
    CancelLt(q', q + 1, d);
  }

  /** A hash good enough for a difficulty is good enough for every lower one. */
  lemma MeetsIsAntitone(leading: nat, d: nat, d': nat)
    requires d <= d' && MeetsDifficulty(leading, d')
    ensures MeetsDifficulty(leading, d)
  {
    if d > 0 { QuotientAntitone(U64_MAX, d, d'); }
  }

  /** The difficulty a miner works at when told to work at `d`. */
  function Advertised(d: nat): (back: nat)
    requires d <= U64_MAX
    ensures 1 <= back && d <= back && (back <= U32_MAX || back == U64_MAX)
  {
    TargetRoundTrip(d);
    TargetHexToDiff(DiffToTargetHex(d)).value
  }

  /** A hash found against the advertised target meets the difficulty that was recorded for it. */
  lemma AdvertisedIsEnough(leading: nat, d: nat)
    requires d <= U64_MAX && MeetsDifficulty(leading, Advertised(d))
    ensures MeetsDifficulty(leading, d)
  {
    var back := Advertised(d);
    MeetsIsAntitone(leading, d, back);
  }

  /** Difficulties of 32 bits are told apart from every higher one by some hash. */
  lemma QuotientStrict(d: nat, e: nat)
    requires 1 <= d <= U32_MAX && d < e
    ensures U64_MAX / e < U64_MAX / d
  {
    var m := U64_MAX;
    QuotientBounds(m, d);
    QuotientBounds(m, e);
    QuotientAntitone(m, d, U32_MAX);
    assert m / U32_MAX == U32_MAX + 2;
    if m / e >= m / d {
      Grow(m / d, d + 1, e);
      Grow(e, m / d, m / e);
    }
  }

  /** The hash is good for the target a miner is sent for a difficulty. */
  predicate MeetsTold(leading: nat, d: nat)
    requires d <= U64_MAX
  {
    MeetsDifficulty(leading, Advertised(d))
  }

  /** Every hash good for the target sent for `d` meets `check`. */
  ghost predicate AllMeet(d: nat, check: nat)
    requires d <= U64_MAX
  {
    forall leading: nat :: MeetsTold(leading, d) ==> MeetsDifficulty(leading, check)
  }

  lemma ToldMeets(d: nat, check: nat)
    requires d <= U64_MAX && check <= Advertised(d)
    ensures AllMeet(d, check)
  {
    forall leading: nat | MeetsTold(leading, d) ensures MeetsDifficulty(leading, check) {
      MeetsIsAntitone(leading, check, Advertised(d));
    }
  }

  lemma ToldMisses(d: nat, check: nat) returns (leading: nat)
    requires d <= U64_MAX && Advertised(d) < check <= U64_MAX
    ensures MeetsTold(leading, d) && !MeetsDifficulty(leading, check)
  {
    leading := MissedBy(Advertised(d), check);
  }

  lemma MissedBy(d: nat, check: nat) returns (leading: nat)
    requires 1 <= d <= U32_MAX && d < check
    ensures MeetsDifficulty(leading, d) && !MeetsDifficulty(leading, check)
  {
    QuotientStrict(d, check);
    leading := U64_MAX / d;
  }

  /** Told to work at `d`, a miner's hashes all meet `check` if and only if `check` does not exceed
      what the target says. */
  lemma ToldMeetsIff(d: nat, check: nat)
    requires d <= U64_MAX && check <= U64_MAX
    ensures AllMeet(d, check) <==> check <= Advertised(d)
  {
    if check <= Advertised(d) { ToldMeets(d, check); } else { var leading := ToldMisses(d, check); }
  }

  // ---------------------------------------------------------------- blobs

  datatype BlobResult = Blob(bytes: seq<Byte>) | BadHex | TooShort(len: nat) | BadNonceLen

  /** The blob with the nonce written at its fixed place. */
  function Assembled(blob: seq<Byte>, nonce: seq<Byte>): seq<Byte>
    requires |blob| >= NONCE_OFFSET + NONCE_LEN
  {
    blob[..NONCE_OFFSET] + nonce + blob[NONCE_OFFSET + NONCE_LEN..]
  }

  function AssembleBlob(blobHex: string, nonceHex: string): BlobResult {
    var blob, nonce := DecodeHex(blobHex), DecodeHex(nonceHex);
    if blob.None? || nonce.None? then BadHex
    else if |blob.value| < NONCE_OFFSET + NONCE_LEN then TooShort(|blob.value|)
    else if |nonce.value| != NONCE_LEN then BadNonceLen
    else Blob(Assembled(blob.value, nonce.value))
  }
}
