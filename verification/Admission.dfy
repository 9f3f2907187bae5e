/**
 Proof of work for operation admission: a counter whose hash, read as one big-endian number,
 lies below a power of two.  The code looks at bytes and leading zero bits; the lemmas say
 which number that bounds.
 */
module Admission {
  import opened Text
  import opened Framing

  const WORK_DOMAIN := "tos.operation-admission-work.v1\0"

  function Pow2(k: nat): (r: nat)
    ensures r >= 1
  {
    if k == 0 then 1 else 2 * Pow2(k - 1)
  }

  /** `bits.LeadingZeros8`. */
  function LeadingZeros8(v: nat): (zeros: nat)
    requires v < 256
    ensures zeros <= 8
  {
    if v >= 128 then 0 else if v >= 64 then 1 else if v >= 32 then 2 else if v >= 16 then 3
    else if v >= 8 then 4 else if v >= 4 then 5 else if v >= 2 then 6 else if v >= 1 then 7 else 8
  }

  /** Whether the first `bits` bits of the bytes are zero, byte by byte. */
  predicate ZeroBits(work: string, bits: nat)
    requires IsBytes(work)
  {
    bits == 0 || (work != "" &&
      if bits <= 8 then LeadingZeros8(work[0] as int) >= bits
      else LeadingZeros8(work[0] as int) == 8 && ZeroBits(work[1..], bits - 8))
  }

  method EnoughZeros(work: string, difficulty: nat) returns (ok: bool)
    requires IsBytes(work)
    ensures ok <==> ZeroBits(work, difficulty)
  {
    var remaining: int := difficulty;
    for i := 0 to |work|
      invariant remaining >= 0
      invariant ZeroBits(work, difficulty) <==> ZeroBits(work[i..], remaining)
    {
      if remaining <= 0 {
        return true;
      }
      assert work[i..][0] == work[i] && work[i..][1..] == work[i + 1..];
      var zeros := LeadingZeros8(work[i] as int);
      if remaining <= 8 {
        return zeros >= remaining;
      }
      if zeros != 8 {
        return false;
      }
      remaining := remaining - 8;
    }
    return remaining <= 0;
  }

  // ---------- what the zero bits mean ----------

  lemma {:induction false} ByteBound(v: nat, bits: nat)
    requires v < 256 && bits <= 8
    ensures LeadingZeros8(v) >= bits <==> v < Pow2(8 - bits)
  {
    assert Pow2(1) == 2 && Pow2(2) == 4 && Pow2(3) == 8 && Pow2(4) == 16;
    assert Pow2(5) == 32 && Pow2(6) == 64 && Pow2(7) == 128 && Pow2(8) == 256;
  }

  lemma {:induction false} Pow2Sum(a: nat, b: nat)
    ensures Pow2(a + b) == Pow2(a) * Pow2(b)
  {
    if a > 0 {
      Pow2Sum(a - 1, b);
      assert Pow2(a) * Pow2(b) == 2 * (Pow2(a - 1) * Pow2(b));
    }
  }

  lemma {:induction false} BytesAreBits(w: nat)
    ensures Pow256(w) == Pow2(8 * w)
  {
    if w > 0 {
      BytesAreBits(w - 1);
      Pow2Sum(8, 8 * (w - 1));
      ByteBound(0, 0);
    }
  }

  lemma {:induction false} FirstByte(s: string)
    requires IsBytes(s) && s != ""
    ensures IsBytes(s[1..]) && FromBigEndian(s) == s[0] as int * Pow256(|s| - 1) + FromBigEndian(s[1..])
  {
    if |s| > 1 {
      var init := s[..|s| - 1];
      FirstByte(init);
      assert init[1..] == s[1..][..|s| - 2];
      FirstByteStep(s[0] as int, Pow256(|s| - 2), FromBigEndian(init[1..]), s[|s| - 1] as int);
    }
  }

  lemma {:induction false} FirstByteStep(v: nat, p: nat, middle: nat, last: nat)
    ensures 256 * (v * p + middle) + last == v * (256 * p) + (256 * middle + last)
  {
  }

  lemma {:induction false} ScaledBound(v: nat, p: nat, r: nat, m: nat)
    requires r < p
    ensures v * p + r < m * p <==> v < m
  {
    if v < m {
      assert (v + 1) * p <= m * p;
    } else {
      assert v * p >= m * p;
    }
  }

  lemma {:induction false} HighByteZero(v: nat, p: nat, r: nat, m: nat)
    requires m <= p
    ensures v * p + r < m <==> v == 0 && r < m
  {
    if v > 0 { assert v * p >= p; }
  }

  lemma {:induction false} Pow2Monotone(a: nat, b: nat)
    requires a <= b
    ensures Pow2(a) <= Pow2(b)
  {
    if a < b { Pow2Monotone(a, b - 1); }
  }

  /** The leading bits are zero exactly when the whole number is below the matching power of two. */
  lemma {:induction false} ZeroBitsExact(work: string, bits: nat)
    requires IsBytes(work) && bits <= 8 * |work|
    ensures ZeroBits(work, bits) <==> FromBigEndian(work) < Pow2(8 * |work| - bits)
  {
    FromBigEndianRoundTrip(work);
    BytesAreBits(|work|);
    if bits > 0 {
      var v, p, r := work[0] as int, Pow256(|work| - 1), FromBigEndian(work[1..]);
      FirstByte(work);
      FromBigEndianRoundTrip(work[1..]);
      BytesAreBits(|work| - 1);
      ByteBound(v, if bits <= 8 then bits else 8);
      if bits <= 8 {
        Pow2Sum(8 - bits, 8 * (|work| - 1));
        ScaledBound(v, p, r, Pow2(8 - bits));
      } else {
        ZeroBitsExact(work[1..], bits - 8);
        Pow2Monotone(8 * |work| - bits, 8 * (|work| - 1));
        HighByteZero(v, p, r, Pow2(8 * |work| - bits));
      }
    }
  }

  // ---------- the work of one challenge ----------

  function WorkMessage(digest: string, counter: nat): string
    requires IsDigest32(digest)
  {
    WORK_DOMAIN + HexDecode(digest[7..]).value + BigEndian(8, counter)
  }

  /** The work a counter shows, as a number of 256 bits. */
  ghost function Work(h: string -> string, digest: string, counter: nat): nat
    requires IsHash(h) && IsDigest32(digest)
  {
    FromBigEndian(h(WorkMessage(digest, counter)))
  }

  lemma {:induction false} LowerIsHex(digest: string)
    requires IsDigest(digest)
    ensures IsDigest32(digest) && |HexDecode(digest[7..]).value| == 32
  {
    HexDigitsDecode(digest[7..]);
  }

  lemma {:induction false} HexDigitsDecode(s: string)
    requires |s| % 2 == 0 && forall i | 0 <= i < |s| :: LowerHex(s[i])
    ensures HexDecode(s).Some? && 2 * |HexDecode(s).value| == |s|
  {
    if s != "" {
      HexDigitsDecode(s[2..]);
    }
  }

  ghost predicate WorkValid(h: string -> string, digest: string, counter: nat, difficulty: nat)
    requires IsHash(h)
  {
    IsDigest(digest) && IsDigest32(digest) && ZeroBits(h(WorkMessage(digest, counter)), difficulty)
  }

  /** `admissionWorkValid`. */
  method AdmissionWorkValid(h: string -> string, digest: string, counter: nat, difficulty: nat) returns (ok: bool)
    requires IsHash(h)
    ensures ok <==> WorkValid(h, digest, counter, difficulty)
  {
    if !IsDigest(digest) {
      return false;
    }
    LowerIsHex(digest);
    var decoded := HexDecode(digest[7..]);
    var work := h(WORK_DOMAIN + decoded.value + BigEndian(8, counter));
    ok := EnoughZeros(work, difficulty);
  }

  /** A counter is accepted exactly when its work lies below 2 to the power of 256 minus the difficulty. */
  lemma {:induction false} WorkBound(h: string -> string, digest: string, counter: nat, difficulty: nat)
    requires IsHash(h) && IsDigest(digest) && IsDigest32(digest) && difficulty <= 256
    ensures WorkValid(h, digest, counter, difficulty) <==> Work(h, digest, counter) < Pow2(256 - difficulty)
  {
    ZeroBitsExact(h(WorkMessage(digest, counter)), difficulty);
  }

  /** Work that meets a difficulty meets every smaller one. */
  lemma {:induction false} DifficultyMonotone(h: string -> string, digest: string, counter: nat, low: nat, high: nat)
    requires IsHash(h) && low <= high <= 256 && WorkValid(h, digest, counter, high)
    ensures WorkValid(h, digest, counter, low)
  {
    WorkBound(h, digest, counter, low);
    WorkBound(h, digest, counter, high);
    Pow2Monotone(256 - high, 256 - low);
  }

  /** The 32 bytes of the challenge and the 8 bytes of the counter, behind the tag. */
  function ReadWork(s: string): Option<(string, nat)> {
    if !("tos.operation-admission-work.v1\0" <= s) then None
    else
      var challenge := ReadBytes(32, s[32..]);
      if challenge.Bad? then None
      else
        var counter := ReadInteger(8, challenge.rest);
        if counter.Bad? || counter.rest != "" then None
        else Some(("sha256:" + HexEncode(challenge.value), counter.value))
  }

  /** The hashed message reads back as its challenge and its counter. */
  lemma {:induction false} WorkReads(digest: string, counter: nat)
    requires IsDigest(digest) && IsDigest32(digest) && counter < TWO64
    ensures ReadWork(WorkMessage(digest, counter)) == Some((digest, counter))
  {
    LowerIsHex(digest);
    var challenge, bytes := HexDecode(digest[7..]).value, BigEndian(8, counter);
    assert WorkMessage(digest, counter)[32..] == challenge + bytes;
    BytesRead(challenge, bytes);
    PowerOfBytes();
    assert bytes + "" == bytes;
    IntegerRead(8, counter, "");
    HexCanonical(digest[7..]);
    assert digest == digest[..7] + digest[7..];
  }

  /** Work is bound to one challenge and one counter: no two share a hashed message. */
  lemma {:induction false} WorkMessageInjective(a: string, m: nat, b: string, n: nat)
    requires IsDigest(a) && IsDigest32(a) && IsDigest(b) && IsDigest32(b) && m < TWO64 && n < TWO64
    requires WorkMessage(a, m) == WorkMessage(b, n)
    ensures a == b && m == n
  {
    WorkReads(a, m);
    WorkReads(b, n);
  }

  datatype Proof = Proof(challengeDigest: string, counter: nat)

  /**
   `SolveOperationAdmission`: the least counter below the bound that does the work, and an error
   exactly when there is none.
   */
  method SolveOperationAdmission(h: string -> string, digest: Result<string>, difficulty: nat, maximumAttempts: nat)
    returns (r: Result<Proof>)
    requires IsHash(h)
    ensures r.Ok? <==> digest.Ok? && exists k: nat :: k < maximumAttempts && WorkValid(h, digest.value, k, difficulty)
    ensures r.Ok? ==> digest == Ok(r.value.challengeDigest) && r.value.counter < maximumAttempts
    ensures r.Ok? ==> WorkValid(h, digest.value, r.value.counter, difficulty)
    ensures r.Ok? ==> forall k: nat | k < r.value.counter :: !WorkValid(h, digest.value, k, difficulty)
  {
    if digest.Err? || maximumAttempts == 0 {
      return Err;
    }
    for counter := 0 to maximumAttempts
      invariant forall k: nat | k < counter :: !WorkValid(h, digest.value, k, difficulty)
    {
      var found := AdmissionWorkValid(h, digest.value, counter, difficulty);
      if found {
        return Ok(Proof(digest.value, counter));
      }
    }
    return Err;
  }
}
