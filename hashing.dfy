/**
 * The content hasher both backup engines use to detect backups that would change nothing:
 * SHA-256 rendered as lower-case hex when the platform offers it, otherwise a 32-bit rolling
 * checksum over the UTF-16 code units of the text (`hash = hash * 31 + code`, wrapped to 32 bits).
 */
module Hashing {
  import opened Wrappers
  import opened Strings

  const TWO_31: int := 0x8000_0000
  const TWO_32: int := 0x1_0000_0000

  /** `x | 0`: the signed 32-bit integer congruent to `x` modulo 2^32. */
  function ToInt32(x: int): (r: int)
    ensures -TWO_31 <= r < TWO_31
    ensures (x - r) % TWO_32 == 0
  {
    (x + TWO_31) % TWO_32 - TWO_31
  }

  lemma ToInt32Congruent(x: int, y: int)
    requires (x - y) % TWO_32 == 0
    ensures ToInt32(x) == ToInt32(y)
  {
    var q := (x - y) / TWO_32;
    assert x == y + q * TWO_32;
    assert x + TWO_31 == (y + TWO_31) + q * TWO_32;
  }

  /** The UTF-16 code units of a text, which is what `length` and `charCodeAt` see. */
  function Utf16(text: string): (units: seq<int>)
    ensures forall k :: 0 <= k < |units| ==> 0 <= units[k] < 0x1_0000
  {
    if |text| == 0 then []
    else
      var c := text[0] as int;
      var here := if c < 0x1_0000 then [c]
                  else [0xD800 + (c - 0x1_0000) / 0x400, 0xDC00 + (c - 0x1_0000) % 0x400];
      here + Utf16(text[1..])
  }

  /** The checksum of a sequence of code units: each step is `(h * 31 + code) | 0`. */
  function RollingHash(units: seq<int>): (h: int)
    ensures -TWO_31 <= h < TWO_31
  {
    if |units| == 0 then 0 else ToInt32(31 * RollingHash(units[..|units| - 1]) + units[|units| - 1])
  }

  /** One step as the source writes it: `((hash << 5) - hash) + code`, then `hash |= 0`. */
  lemma ShiftStep(h: int, code: int)
    requires -TWO_31 <= h < TWO_31
    ensures ToInt32(ToInt32(h * 32) - h + code) == ToInt32(31 * h + code)
  {
    var s := ToInt32(h * 32);
    assert (h * 32 - s) % TWO_32 == 0;
    assert (ToInt32(h * 32) - h + code) - (31 * h + code) == s - h * 32;
    ToInt32Congruent(ToInt32(h * 32) - h + code, 31 * h + code);
  }

  /** The fallback checksum loop of both engines, over the code units of `text`. */
  method FallbackChecksum(text: string) returns (hash: int)
    ensures hash == RollingHash(Utf16(text))
    ensures -TWO_31 <= hash < TWO_31
  {
    var units := Utf16(text);
    hash := 0;
    var i := 0;
    while i < |units|
      invariant 0 <= i <= |units|
      invariant hash == RollingHash(units[..i])
    {
      ShiftStep(hash, units[i]);
      assert units[..i + 1][..i] == units[..i];
      hash := ToInt32(hash * 32) - hash + units[i];
      hash := ToInt32(hash);
      i := i + 1;
    }
    assert units[..|units|] == units;
  }

  /** `bytes.map(b => b.toString(16).padStart(2, '0')).join('')`. */
  function HexString(bytes: seq<bv8>): (r: string)
    ensures |r| == 2 * |bytes|
    ensures forall k :: 0 <= k < |r| ==> IsLowerHex(r[k])
  {
    if |bytes| == 0 then ""
    else [HexDigit(bytes[0] as int / 16), HexDigit(bytes[0] as int % 16)] + HexString(bytes[1..])
  }

  /** The two renderings of the checksum: `backup.js` writes it signed, `src/auto-backup.js` as `Math.abs`. */
  datatype Rendering = Signed | Absolute

  function Render(h: int, rendering: Rendering): string {
    "fallback-" + IntToString(if rendering == Absolute && h < 0 then -h else h)
  }

  function FallbackDigest(text: string, rendering: Rendering): string {
    Render(RollingHash(Utf16(text)), rendering)
  }

  /**
   * The digest of a text. `subtle` is SHA-256 over the UTF-8 bytes when `crypto.subtle` exists
   * (an opaque, deterministic function here); `None` when it is missing or its call throws.
   */
  function Digest(subtle: Option<string -> seq<bv8>>, text: string, rendering: Rendering): string {
    match subtle
    case Some(sha256) => HexString(sha256(text))
    case None => FallbackDigest(text, rendering)
  }

  /** `_hash(text)`: SHA-256 when it is available, the rolling checksum loop otherwise. */
  method ComputeDigest(subtle: Option<string -> seq<bv8>>, text: string, rendering: Rendering) returns (d: string)
    ensures d == Digest(subtle, text, rendering)
  {
    match subtle
    case Some(sha256) =>
      d := HexString(sha256(text));
    case None =>
      var h := FallbackChecksum(text);
      d := "fallback-" + IntToString(if rendering == Absolute && h < 0 then -h else h);
  }

  /** A fallback digest can never be taken for a cryptographic one: it is not a hex string. */
  lemma FallbackIsNotHex(text: string, rendering: Rendering, bytes: seq<bv8>)
    ensures FallbackDigest(text, rendering) != HexString(bytes)
    ensures FallbackDigest(text, rendering) != ""
  {
    var d := FallbackDigest(text, rendering);
    assert d[2] == 'l' && !IsLowerHex(d[2]);
  }

  lemma {:induction false} NatToStringInjective(m: nat, n: nat)
    requires NatToString(m) == NatToString(n)
    ensures m == n
  {
    var sm, sn := NatToString(m), NatToString(n);
    if m >= 10 && n >= 10 {
      assert sm[..|sm| - 1] == NatToString(m / 10);
      assert sn[..|sn| - 1] == NatToString(n / 10);
      NatToStringInjective(m / 10, n / 10);
      assert DigitChar(m % 10) == sm[|sm| - 1] == sn[|sn| - 1] == DigitChar(n % 10);
    }
  }

  lemma IntToStringInjective(a: int, b: int)
    requires IntToString(a) == IntToString(b)
    ensures a == b
  {
    var sa, sb := IntToString(a), IntToString(b);
    if a < 0 {
      assert sb[0] == '-';
      assert sa[1..] == NatToString(-a) && sb[1..] == NatToString(-b);
      NatToStringInjective(-a, -b);
    } else {
      assert sb[0] != '-';
      NatToStringInjective(a, b);
    }
  }

  /**
   * Without `crypto.subtle`, two checksums give the same digest exactly when they are equal
   * (signed rendering) or equal up to sign (absolute rendering).
   */
  lemma RenderEqual(h1: int, h2: int, rendering: Rendering)
    ensures Render(h1, rendering) == Render(h2, rendering) <==>
      (if rendering == Signed then h1 == h2 else h1 == h2 || h1 == -h2)
  {
    var a1 := if rendering == Absolute && h1 < 0 then -h1 else h1;
    var a2 := if rendering == Absolute && h2 < 0 then -h2 else h2;
    var p := "fallback-";
    if Render(h1, rendering) == Render(h2, rendering) {
      assert (p + IntToString(a1))[|p|..] == IntToString(a1);
      assert (p + IntToString(a2))[|p|..] == IntToString(a2);
      IntToStringInjective(a1, a2);
    }
  }
}
