/**
 One-time codes: HOTP (section 5.3 of RFC 4226) and its time-based use (section 5.2 of RFC 6238). HMAC-SHA-1 is a
 parameter.
 */
module Totp {
  import opened Common
  import opened Base32

  type Digest = d: seq<Byte> | |d| == 20 witness [0, 0, 0, 0, 0, 0, 0, 0, 0, 0, 0, 0, 0, 0, 0, 0, 0, 0, 0, 0]
  type Hmac = (seq<Byte>, seq<Byte>) -> Digest

  const INT64: int := 0x8000_0000_0000_0000

  // ---- The counter as eight bytes ------------------------------------------------------------------

  function BigEndian(v: nat, n: nat): (s: seq<Byte>)
    ensures |s| == n
  {
    if n == 0 then [] else BigEndian(v / 256, n - 1) + [v % 256]
  }

  function FromBigEndian(s: seq<Byte>): nat {
    if s == [] then 0 else 256 * FromBigEndian(s[..|s| - 1]) + s[|s| - 1]
  }

  function Pow256(n: nat): (p: nat)
    ensures p > 0
  {
    if n == 0 then 1 else 256 * Pow256(n - 1)
  }

  lemma {:induction false} BigEndianRoundTrip(v: nat, n: nat)
    requires v < Pow256(n)
    ensures FromBigEndian(BigEndian(v, n)) == v
  {
    if n > 0 {
      BigEndianRoundTrip(v / 256, n - 1);
      assert BigEndian(v, n)[..n - 1] == BigEndian(v / 256, n - 1);
    }
  }

  /** writeBigInt64BE: two's complement, and an error outside the signed 64-bit range. */
  function CounterBytes(counter: int): Option<seq<Byte>> {
    if counter < -INT64 || counter >= INT64 then None
    else Some(BigEndian(if counter < 0 then counter + 2 * INT64 else counter, 8))
  }

  /** The message of a counter: eight bytes, the most significant first, that write it modulo 2^64. */
  lemma CounterBytesAre(counter: int)
    ensures CounterBytes(counter).Some? <==> -0x8000_0000_0000_0000 <= counter < 0x8000_0000_0000_0000
    ensures CounterBytes(counter).Some? ==>
              var b := CounterBytes(counter).value;
              && |b| == 8
              && FourBytesOf(b[..4]) * 0x1_0000_0000 + FourBytesOf(b[4..])
                 == if counter >= 0 then counter else counter + 0x1_0000_0000_0000_0000
  {
    if CounterBytes(counter).Some? {
      var b := CounterBytes(counter).value;
      assert Pow256(8) == 2 * INT64 by {
        assert Pow256(4) == 0x1_0000_0000;
      }
      BigEndianRoundTrip(if counter < 0 then counter + 2 * INT64 else counter, 8);
      HighAndLow(b);
      FourBytesAre(b[..4]);
      FourBytesAre(b[4..]);
    }
  }

  function FourBytesOf(s: seq<Byte>): nat
    requires |s| == 4
  {
    var b0: int, b1: int, b2: int, b3: int := s[0], s[1], s[2], s[3];
    b0 * 0x100_0000 + b1 * 0x1_0000 + b2 * 0x100 + b3
  }

  lemma FourBytesAre(s: seq<Byte>)
    requires |s| == 4
    ensures FromBigEndian(s) == FourBytesOf(s)
  {
    assert s[..3][..2][..1][..0] == [];
    assert s[..3][..2] == s[..2] && s[..2][..1] == s[..1];
    assert FromBigEndian(s[..1]) == s[0];
    assert FromBigEndian(s[..2]) == 256 * FromBigEndian(s[..1]) + s[1];
    assert FromBigEndian(s[..3]) == 256 * FromBigEndian(s[..2]) + s[2];
  }

  lemma {:induction false} LowerBytes(high: seq<Byte>, low: seq<Byte>)
    ensures FromBigEndian(high + low) == FromBigEndian(high) * Pow256(|low|) + FromBigEndian(low)
  {
    if low == [] {
      assert high + low == high;
    } else {
      var init := low[..|low| - 1];
      LowerBytes(high, init);
      assert (high + low)[..|high + low| - 1] == high + init;
      ShiftedSum(FromBigEndian(high), Pow256(|init|), FromBigEndian(init));
    }
  }

  lemma ShiftedSum(x: nat, p: nat, y: nat)
    ensures 256 * (x * p + y) == x * (256 * p) + 256 * y
  {
  }

  lemma HighAndLow(b: seq<Byte>)
    requires |b| == 8
    ensures FromBigEndian(b) == FromBigEndian(b[..4]) * 0x1_0000_0000 + FromBigEndian(b[4..])
  {
    LowerBytes(b[..4], b[4..]);
    assert b[..4] + b[4..] == b;
    assert Pow256(4) == 0x1_0000_0000;
  }

  /** Different counters are hashed as different messages. */
  lemma CounterBytesInjective(c: int, d: int)
    requires CounterBytes(c).Some? && CounterBytes(c) == CounterBytes(d)
    ensures c == d
  {
    var u, v := if c < 0 then c + 2 * INT64 else c, if d < 0 then d + 2 * INT64 else d;
    assert Pow256(8) == 2 * INT64 by {
      assert Pow256(4) == 0x1_0000_0000;
    }
    BigEndianRoundTrip(u, 8);
    BigEndianRoundTrip(v, 8);
  }

  // ---- Truncation and the code ---------------------------------------------------------------------

  function Join(b0: int, b1: int, b2: int, b3: int): int {
    b0 * 0x100_0000 + b1 * 0x1_0000 + b2 * 0x100 + b3
  }

  /** The offset is the low four bits of the last byte; the four bytes there, without the sign bit, are the number. */
  function Truncate(hmac: Digest): (binary: nat)
    ensures var offset := hmac[19] % 16;
            offset + 3 < 20 && binary == FromBigEndian(hmac[offset..offset + 4]) % 0x8000_0000
            && binary == FourBytesOf(hmac[offset..offset + 4]) % 0x8000_0000
  {
    var offset := hmac[19] % 16;
    FourBytes(hmac[offset..offset + 4]);
    FourBytesAre(hmac[offset..offset + 4]);
    Join(hmac[offset] % 128, hmac[offset + 1], hmac[offset + 2], hmac[offset + 3])
  }

  lemma FourBytes(s: seq<Byte>)
    requires |s| == 4
    ensures FromBigEndian(s) % 0x8000_0000 == Join(s[0] % 128, s[1], s[2], s[3])
  {
    FourBytesAre(s);
  }

  function PadStart(s: string, width: nat): string {
    if |s| >= width then s else Zeroes(width - |s|) + s
  }

  ghost predicate Digits(s: string) {
    forall i :: 0 <= i < |s| ==> '0' <= s[i] <= '9'
  }

  /** The HOTP value of a counter; an error when the counter does not fit its eight bytes. */
  function Hotp(hmac: Hmac, secret: seq<Byte>, counter: int): Option<string> {
    var message := CounterBytes(counter);
    if message.None? then None
    else Some(PadStart(Decimal(Truncate(hmac(secret, message.value)) % 1_000_000), 6))
  }

  function Pow10(n: nat): (p: nat)
    ensures p > 0
  {
    if n == 0 then 1 else 10 * Pow10(n - 1)
  }

  lemma {:induction false} DecimalLength(n: nat, k: nat)
    requires n < Pow10(k) && k > 0
    ensures |Decimal(n)| <= k
  {
    if n >= 10 {
      assert k > 1 by {
        assert Pow10(1) == 10;
      }
      DecimalLength(n / 10, k - 1);
    }
  }

  lemma {:induction false} LeadingZeroes(n: nat, s: string)
    requires Digits(s)
    ensures Digits(Zeroes(n) + s) && ParseDecimal(Zeroes(n) + s) == ParseDecimal(s)
  {
    var z := Zeroes(n) + s;
    if s != "" {
      LeadingZeroes(n, s[..|s| - 1]);
      assert z[..|z| - 1] == Zeroes(n) + s[..|s| - 1];
    } else if n > 0 {
      LeadingZeroes(n - 1, "");
      assert z[..|z| - 1] == Zeroes(n - 1) + "" by {
        assert forall i :: 0 <= i < n - 1 ==> z[i] == '0';
      }
      assert z[|z| - 1] == '0';
    }
  }

  /** Every code is exactly six decimal digits and writes the truncated value modulo a million. */
  lemma HotpIsSixDigits(hmac: Hmac, secret: seq<Byte>, counter: int)
    ensures Hotp(hmac, secret, counter).Some? <==> -0x8000_0000_0000_0000 <= counter < 0x8000_0000_0000_0000
    ensures Hotp(hmac, secret, counter).Some? ==>
              var code := Hotp(hmac, secret, counter).value;
              && |code| == 6 && Digits(code)
              && ParseDecimal(code) == Truncate(hmac(secret, CounterBytes(counter).value)) % 1_000_000
  {
    if -INT64 <= counter < INT64 {
      var otp := Truncate(hmac(secret, CounterBytes(counter).value)) % 1_000_000;
      assert Pow10(6) == 1_000_000;
      DecimalLength(otp, 6);
      ParseOfDecimal(otp);
      LeadingZeroes(6 - |Decimal(otp)|, Decimal(otp));
    }
  }

  // ---- Time steps ------------------------------------------------------------------------------------

  /** floor(milliseconds / 1000 / step). */
  function StepAt(timestamp: int, stepSeconds: nat): int
    requires stepSeconds > 0
  {
    timestamp / (1000 * stepSeconds)
  }

  /** The step that a time lies in. */
  ghost predicate IsStep(n: int, timestamp: int, stepSeconds: nat) {
    n * (1000 * stepSeconds) <= timestamp < (n + 1) * (1000 * stepSeconds)
  }

  lemma StepIs(n: int, timestamp: int, stepSeconds: nat)
    requires stepSeconds > 0
    ensures IsStep(n, timestamp, stepSeconds) <==> n == StepAt(timestamp, stepSeconds)
  {
    var d := 1000 * stepSeconds;
    var m := timestamp / d;
    assert m * d <= timestamp < (m + 1) * d;
    if IsStep(n, timestamp, stepSeconds) {
      if n < m {
        ProductMonotone(n + 1, m, d);
      }
      if m < n {
        ProductMonotone(m + 1, n, d);
      }
    }
  }

  function SecretBytes(secret: string): (bytes: seq<Byte>)
    ensures bytes == Decoded(secret)
  {
    DecodedAreBytes(secret);
    Decoded(secret)
  }

  lemma DecodedAreBytes(s: string)
    ensures forall i :: 0 <= i < |Decoded(s)| ==> Decoded(s)[i] < 256
  {
    DecodedBits(s);
  }

  function GenerateTotpCode(hmac: Hmac, secret: string, stepSeconds: nat, timestamp: int): Option<string>
    requires stepSeconds > 0
  {
    Hotp(hmac, SecretBytes(secret), StepAt(timestamp, stepSeconds))
  }

  /** A code is the HOTP value of the step that its time lies in. */
  lemma CodeOfStep(hmac: Hmac, secret: string, stepSeconds: nat, timestamp: int, n: int)
    requires stepSeconds > 0 && n * (1000 * stepSeconds) <= timestamp < (n + 1) * (1000 * stepSeconds)
    ensures GenerateTotpCode(hmac, secret, stepSeconds, timestamp) == Hotp(hmac, SecretBytes(secret), n)
  {
    StepIs(n, timestamp, stepSeconds);
  }

  /** The token is the code of a counter within the window, and the walk up to that counter meets no range error. */
  ghost predicate InWindow(hmac: Hmac, secret: seq<Byte>, token: string, current: int, window: int) {
    current - window >= -INT64 &&
    exists counter :: current - window <= counter <= current + window && Hotp(hmac, secret, counter) == Some(token)
  }

  /** The well-formed tokens that are the code of some counter in the window. */
  ghost predicate Accepts(hmac: Hmac, secret: string, token: string, window: int, stepSeconds: nat, digits: nat,
                          timestamp: int)
    requires stepSeconds > 0
  {
    && secret != "" && token != "" && |token| == digits && Digits(token)
    && InWindow(hmac, SecretBytes(secret), token, StepAt(timestamp, stepSeconds), window)
  }

  /** Accepts exactly the well-formed tokens that are the code of some counter in the window. */
  method VerifyTotpCode(hmac: Hmac, secret: string, token: string, window: int, stepSeconds: nat, digits: nat,
                        timestamp: int)
    returns (accepted: bool)
    requires stepSeconds > 0
    ensures accepted <==> Accepts(hmac, secret, token, window, stepSeconds, digits, timestamp)
    ensures forall n :: IsStep(n, timestamp, stepSeconds) ==>
              (accepted <==>
                && secret != "" && token != "" && |token| == digits && Digits(token)
                && n - window >= -0x8000_0000_0000_0000
                && exists counter :: n - window <= counter <= n + window
                                     && Hotp(hmac, SecretBytes(secret), counter) == Some(token))
  {
    StepIs(StepAt(timestamp, stepSeconds), timestamp, stepSeconds);
    forall n | IsStep(n, timestamp, stepSeconds) ensures n == StepAt(timestamp, stepSeconds) {
      StepIs(n, timestamp, stepSeconds);
    }
    if secret == "" || token == "" || |token| != digits || !(forall i :: 0 <= i < |token| ==> '0' <= token[i] <= '9') {
      return false;
    }
    var secretBuffer := SecretBytes(secret);
    var currentStep := StepAt(timestamp, stepSeconds);
    var delta := -window;
    while delta <= window
      invariant -window <= delta
      invariant -window < delta ==> -INT64 <= currentStep - window
      invariant forall c :: currentStep - window <= c < currentStep + delta ==>
                Hotp(hmac, secretBuffer, c) != Some(token)
      decreases window - delta
    {
      var expectedOtp := Hotp(hmac, secretBuffer, currentStep + delta);
      if expectedOtp.None? {
        return false;
      }
      if expectedOtp.value == token {
        return true;
      }
      delta := delta + 1;
    }
    return false;
  }

  lemma CodeShape(hmac: Hmac, secret: string, stepSeconds: nat, timestamp: int, code: string)
    requires stepSeconds > 0 && GenerateTotpCode(hmac, secret, stepSeconds, timestamp) == Some(code)
    ensures |code| == 6 && Digits(code) && -INT64 <= StepAt(timestamp, stepSeconds) < INT64
  {
    HotpIsSixDigits(hmac, SecretBytes(secret), StepAt(timestamp, stepSeconds));
  }

  /** Times at most w steps apart lie in steps at most w apart. */
  lemma StepsApart(t: int, u: int, w: nat, stepSeconds: nat)
    requires stepSeconds > 0 && t - w * (1000 * stepSeconds) <= u <= t + w * (1000 * stepSeconds)
    ensures StepAt(t, stepSeconds) - w <= StepAt(u, stepSeconds) <= StepAt(t, stepSeconds) + w
  {
    var d := 1000 * stepSeconds;
    FloorShift(t, u, w, d);
    FloorShift(u, t, w, d);
  }

  lemma FloorShift(t: int, u: int, w: nat, d: nat)
    requires d > 0 && u <= t + w * d
    ensures u / d <= t / d + w
  {
    var a, b := t / d, u / d;
    assert t < (a + 1) * d && b * d <= u;
    ProductMonotone(a + w + 1, b, d);
  }

  /**
   A code of a non-empty secret is accepted at any time within `window` steps of its making, exactly when the window
   about the step n of that time begins in the 64-bit range of counters.
   */
  lemma DriftTolerance(hmac: Hmac, secret: string, window: nat, stepSeconds: nat, made: int, used: int, n: int)
    requires stepSeconds > 0 && GenerateTotpCode(hmac, secret, stepSeconds, made).Some?
    requires made - window * (1000 * stepSeconds) <= used <= made + window * (1000 * stepSeconds)
    requires n * (1000 * stepSeconds) <= used < (n + 1) * (1000 * stepSeconds)
    ensures var code := GenerateTotpCode(hmac, secret, stepSeconds, made).value;
            Accepts(hmac, secret, code, window, stepSeconds, 6, used) <==>
              secret != "" && n - window >= -0x8000_0000_0000_0000
  {
    StepIs(n, used, stepSeconds);
    var code := GenerateTotpCode(hmac, secret, stepSeconds, made).value;
    CodeShape(hmac, secret, stepSeconds, made, code);
    StepsApart(made, used, window, stepSeconds);
    assert Hotp(hmac, SecretBytes(secret), StepAt(made, stepSeconds)) == Some(code);
  }

  /** A verifier set to another number of digits accepts nothing: every code has six. */
  lemma OnlySixDigits(hmac: Hmac, secret: seq<Byte>, token: string, current: int, window: int)
    requires InWindow(hmac, secret, token, current, window)
    ensures |token| == 6 && Digits(token)
  {
    var counter :| current - window <= counter <= current + window && Hotp(hmac, secret, counter) == Some(token);
    HotpIsSixDigits(hmac, secret, counter);
  }

  /** A generated secret: twenty random bytes as thirty-two characters, from which the same bytes are decoded. */
  lemma SecretRoundTrip(random: seq<Byte>)
    requires |random| == 20
    ensures |Encoded(random)| == 32 && SecretBytes(Encoded(random)) == random
  {
    EncodedLength(random);
    RoundTrip(random);
  }
}
