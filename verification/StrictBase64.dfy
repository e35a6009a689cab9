/**
 The strict base64 decoder for JWK coordinates, against the standard encoder
 (sections 4 and 5 of RFC 4648; section 6.2.1 of RFC 7518).
 */
module StrictBase64 {
  import opened Options
  import opened Bits

  /** Consecutive characters from `first` on. */
  function Letters(first: char, n: nat): string
    requires first as int + n < 128
  {
    if n == 0 then "" else Letters(first, n - 1) + [(first as int + n - 1) as char]
  }

  function StdAlphabet(): string {
    Letters('A', 26) + Letters('a', 26) + Letters('0', 10) + "+/"
  }

  // --------------------------------------------------------------------
  // Decoding
  // --------------------------------------------------------------------

  /** The index of the first occurrence, or -1. */
  function Find(s: string, c: char): int {
    if s == "" then -1
    else if s[0] == c then 0
    else
      var rest := Find(s[1..], c);
      if rest < 0 then -1 else rest + 1
  }

  /** Which character stands for a value (table 1 of RFC 4648, section 4). */
  function StdChar(v: nat): char
    requires v < 64
  {
    if v < 26 then ('A' as int + v) as char
    else if v < 52 then ('a' as int + v - 26) as char
    else if v < 62 then ('0' as int + v - 52) as char
    else if v == 62 then '+'
    else '/'
  }

  predicate IsStd(c: char) {
    IndexOf(c) >= 0
  }

  lemma {:induction false} FindInSum(a: string, b: string, c: char)
    ensures Find(a + b, c) == if Find(a, c) >= 0 then Find(a, c) else if Find(b, c) >= 0 then |a| + Find(b, c) else -1
    ensures -1 <= Find(a, c) < |a|
  {
    if a == "" {
      assert a + b == b;
    } else {
      assert (a + b)[1..] == a[1..] + b;
      FindInSum(a[1..], b, c);
    }
  }

  lemma {:induction false} FindInLetters(first: char, n: nat, c: char)
    requires first as int + n < 128
    ensures Find(Letters(first, n), c)
            == if first as int <= c as int < first as int + n then c as int - first as int else -1
    ensures |Letters(first, n)| == n
  {
    if n > 0 {
      FindInLetters(first, n - 1, c);
      FindInSum(Letters(first, n - 1), [(first as int + n - 1) as char], c);
    }
  }

  /** The value a character stands for, or -1. */
  function IndexOf(c: char): int {
    if 'A' <= c <= 'Z' then c as int - 'A' as int
    else if 'a' <= c <= 'z' then c as int - 'a' as int + 26
    else if '0' <= c <= '9' then c as int - '0' as int + 52
    else if c == '+' then 62
    else if c == '/' then 63
    else -1
  }

  /** Searching the alphabet finds exactly the value a character stands for. */
  lemma SearchIsExact(c: char)
    ensures Find(StdAlphabet(), c) == IndexOf(c)
  {
    FindInLetters('A', 26, c);
    FindInLetters('a', 26, c);
    FindInLetters('0', 10, c);
    var a, b, d := Letters('A', 26), Letters('a', 26), Letters('0', 10);
    FindInSum(a, b, c);
    FindInSum(a + b, d, c);
    FindInSum(a + b + d, "+/", c);
    FindInSum("+", "/", c);
    assert "+/" == "+" + "/" && "+"[1..] == "" && "/"[1..] == "";
  }

  method SearchAlphabet(c: char) returns (idx: int)
    ensures idx == IndexOf(c)
  {
    SearchIsExact(c);
    idx := Find(StdAlphabet(), c);
  }

  function StripPadding(s: string): string {
    if s != "" && s[|s| - 1] == '=' then StripPadding(s[..|s| - 1]) else s
  }

  predicate InAlphabet(s: string) {
    forall i | 0 <= i < |s| :: IsStd(s[i])
  }

  predicate AllBelow(s: seq<nat>, bound: nat) {
    forall i | 0 <= i < |s| :: s[i] < bound
  }

  /** The value of each character. */
  function Values(body: string): (vals: seq<nat>)
    requires InAlphabet(body)
  {
    seq(|body|, i requires 0 <= i < |body| => IndexOf(body[i]))
  }

  /** Four values side by side. */
  function Joined(a: nat, b: nat, c: nat, d: nat): nat {
    a * 0x40000 + b * 0x1000 + c * 0x40 + d
  }

  function High(n: nat): nat { n / 0x10000 % 256 }
  function Middle(n: nat): nat { n / 0x100 % 256 }
  function Low(n: nat): nat { n % 256 }

  function DecodeQuantum(a: nat, b: nat, c: nat, d: nat): seq<nat> {
    var n := Joined(a, b, c, d);
    [High(n), Middle(n), Low(n)]
  }

  /** The bytes of the first `k` groups of four values. */
  function DecodeQuanta(vals: seq<nat>, k: nat): seq<nat>
    requires 4 * k <= |vals|
  {
    if k == 0 then []
    else DecodeQuanta(vals, k - 1) + DecodeQuantum(vals[4 * k - 4], vals[4 * k - 3], vals[4 * k - 2], vals[4 * k - 1])
  }

  /** Two or three values left over give one or two bytes. */
  function DecodeTail(tail: seq<nat>): Option<seq<nat>>
    requires |tail| < 4
  {
    if |tail| == 2 then Some([High(Joined(tail[0], tail[1], 0, 0))])
    else if |tail| == 3 then
      var n := Joined(tail[0], tail[1], tail[2], 0);
      Some([High(n), Middle(n)])
    else if |tail| == 1 then None
    else Some([])
  }

  function DecodeValues(vals: seq<nat>): Option<seq<nat>> {
    var k := |vals| / 4;
    var tail := DecodeTail(vals[4 * k..]);
    if tail.None? then None else Some(DecodeQuanta(vals, k) + tail.value)
  }

  /** `None` stands for a ValueError. */
  function Decode(padded: string): Option<seq<nat>> {
    if |padded| % 4 != 0 || !InAlphabet(StripPadding(padded)) then None
    else DecodeValues(Values(StripPadding(padded)))
  }

  method DecodeStrict(padded: string) returns (result: Option<seq<nat>>)
    ensures result == Decode(padded)
  {
    if |padded| % 4 != 0 {
      return None;
    }
    var body := StripPadding(padded);
    var vals: seq<nat> := [];
    for i := 0 to |body|
      invariant |vals| == i
      invariant forall j | 0 <= j < i :: IsStd(body[j]) && vals[j] == IndexOf(body[j])
      invariant AllBelow(vals, 64)
    {
      var idx := SearchAlphabet(body[i]);
      if idx < 0 {
        return None;
      }
      vals := vals + [idx];
    }
    assert vals == Values(body);
    result := DecodeSextets(vals);
  }

  /** Four values shifted into place and or-ed together, as the decoder does. */
  function Packed(a: nat, b: nat, c: nat, d: nat): nat {
    Or(Or(Or(ShiftLeft(a, 18), ShiftLeft(b, 12)), ShiftLeft(c, 6)), d)
  }

  lemma PowersOfTwo()
    ensures Pow2(6) == 0x40 && Pow2(8) == 0x100 && Pow2(12) == 0x1000 && Pow2(18) == 0x40000
  {
    assert Pow2(0) == 1 && Pow2(1) == 2 && Pow2(2) == 4 && Pow2(3) == 8 && Pow2(4) == 16 && Pow2(5) == 32;
    assert Pow2(7) == 128 && Pow2(9) == 512 && Pow2(10) == 1024 && Pow2(11) == 2048;
    assert Pow2(13) == 0x2000 && Pow2(14) == 0x4000 && Pow2(15) == 0x8000 && Pow2(16) == 0x10000 && Pow2(17) == 0x20000;
  }

  /** Six-bit values do not overlap, so or-ing them is putting them side by side. */
  lemma PackedIsJoined(a: nat, b: nat, c: nat, d: nat)
    requires b < 64 && c < 64 && d < 64
    ensures Packed(a, b, c, d) == Joined(a, b, c, d)
  {
    PowersOfTwo();
    OrIsSum(a, 18, b * 0x1000);
    var ab := a * 64 + b;
    assert ab * 0x1000 == a * 0x40000 + b * 0x1000;
    OrIsSum(ab, 12, c * 0x40);
    var abc := ab * 64 + c;
    assert abc * 0x40 == ab * 0x1000 + c * 0x40;
    OrIsSum(abc, 6, d);
  }

  /** Shifting down and masking takes the bytes. */
  lemma BytesAreMasked(n: nat)
    ensures And(ShiftRight(n, 16), 0xFF) == High(n)
    ensures And(ShiftRight(n, 8), 0xFF) == Middle(n)
    ensures And(n, 0xFF) == Low(n)
  {
    PowersOfTwo();
    ShiftIsDivision(n);
    MaskIsRemainder(n / 0x10000, 8);
    MaskIsRemainder(n / 0x100, 8);
    MaskIsRemainder(n, 8);
  }

  /** The bytes of the four values at `i`. */
  method UnpackGroup(vals: seq<nat>, i: nat) returns (bytes: seq<nat>)
    requires i + 4 <= |vals| && AllBelow(vals, 64)
    ensures bytes == DecodeQuantum(vals[i], vals[i + 1], vals[i + 2], vals[i + 3])
  {
    PackedIsJoined(vals[i], vals[i + 1], vals[i + 2], vals[i + 3]);
    var n := Or(Or(Or(ShiftLeft(vals[i], 18), ShiftLeft(vals[i + 1], 12)), ShiftLeft(vals[i + 2], 6)), vals[i + 3]);
    BytesAreMasked(n);
    bytes := [And(ShiftRight(n, 16), 0xFF), And(ShiftRight(n, 8), 0xFF), And(n, 0xFF)];
  }

  /** Two or three values left over. */
  method UnpackTail(tail: seq<nat>) returns (result: Option<seq<nat>>)
    requires |tail| < 4 && AllBelow(tail, 64)
    ensures result == DecodeTail(tail)
  {
    if |tail| == 2 {
      PackedIsJoined(tail[0], tail[1], 0, 0);
      TrailingZeros(tail[0], tail[1]);
      var n := Or(ShiftLeft(tail[0], 18), ShiftLeft(tail[1], 12));
      BytesAreMasked(n);
      return Some([And(ShiftRight(n, 16), 0xFF)]);
    } else if |tail| == 3 {
      PackedIsJoined(tail[0], tail[1], tail[2], 0);
      OrZero(Or(Or(ShiftLeft(tail[0], 18), ShiftLeft(tail[1], 12)), ShiftLeft(tail[2], 6)));
      var n := Or(Or(ShiftLeft(tail[0], 18), ShiftLeft(tail[1], 12)), ShiftLeft(tail[2], 6));
      BytesAreMasked(n);
      return Some([And(ShiftRight(n, 16), 0xFF), And(ShiftRight(n, 8), 0xFF)]);
    } else if |tail| == 1 {
      return None;
    }
    return Some([]);
  }

  lemma TrailingZeros(a: nat, b: nat)
    ensures Packed(a, b, 0, 0) == Or(ShiftLeft(a, 18), ShiftLeft(b, 12))
  {
    OrZero(Or(ShiftLeft(a, 18), ShiftLeft(b, 12)));
  }

  method DecodeSextets(vals: seq<nat>) returns (result: Option<seq<nat>>)
    requires AllBelow(vals, 64)
    ensures result == DecodeValues(vals)
  {
    var out: seq<nat> := [];
    for k := 0 to |vals| / 4
      invariant out == DecodeQuanta(vals, k)
    {
      var bytes := UnpackGroup(vals, 4 * k);
      out := out + bytes;
    }
    var tail := UnpackTail(vals[4 * (|vals| / 4)..]);
    if tail.None? {
      return None;
    }
    return Some(out + tail.value);
  }

  // --------------------------------------------------------------------
  // When decoding succeeds, and what it yields
  // --------------------------------------------------------------------

  lemma {:induction false} QuantaLength(vals: seq<nat>, k: nat)
    requires 4 * k <= |vals|
    ensures |DecodeQuanta(vals, k)| == 3 * k
  {
    if k > 0 { QuantaLength(vals, k - 1); }
  }

  /** Decoding succeeds exactly on padded text whose body is in the alphabet and not one over a multiple of four. */
  lemma DecodesExactly(padded: string)
    ensures var body := StripPadding(padded);
            && (Decode(padded).Some? <==> |padded| % 4 == 0 && InAlphabet(body) && |body| % 4 != 1)
            && (Decode(padded).Some? ==> |Decode(padded).value| == 3 * |body| / 4)
  {
    var n := |StripPadding(padded)|;
    if InAlphabet(StripPadding(padded)) { QuantaLength(Values(StripPadding(padded)), n / 4); }
  }

  /** The bits of six-bit values, as one number. */
  function ValueOf(vals: seq<nat>): nat {
    if vals == [] then 0 else ValueOf(vals[..|vals| - 1]) * 64 + vals[|vals| - 1]
  }

  /** Big-endian. */
  function FromBytes(bs: seq<nat>): nat {
    if bs == [] then 0 else FromBytes(bs[..|bs| - 1]) * 256 + bs[|bs| - 1]
  }

  lemma ValueOfSnoc(vals: seq<nat>, v: nat)
    ensures ValueOf(vals + [v]) == ValueOf(vals) * 64 + v
  {
    assert (vals + [v])[..|vals|] == vals;
  }

  lemma FromBytesSnoc(bs: seq<nat>, b: nat)
    ensures FromBytes(bs + [b]) == FromBytes(bs) * 256 + b
  {
    assert (bs + [b])[..|bs|] == bs;
  }

  /** A group's three bytes are its 24 bits. */
  lemma QuantumBits(a: nat, b: nat, c: nat, d: nat)
    requires a < 64 && b < 64 && c < 64 && d < 64
    ensures var n := Joined(a, b, c, d); High(n) * 0x10000 + Middle(n) * 0x100 + Low(n) == n
  {
    ThreeBytes(Joined(a, b, c, d));
  }

  lemma ThreeBytes(n: nat)
    requires n < 0x1000000
    ensures High(n) * 0x10000 + Middle(n) * 0x100 + Low(n) == n
  {
    assert n / 0x10000 == n / 0x100 / 0x100;
  }

  /** What two leftover values contribute. */
  lemma TwoValuesBits(a: nat, b: nat)
    requires a < 64 && b < 64
    ensures High(Joined(a, b, 0, 0)) == (a * 64 + b) / 16
  {
    DropTwelve(a * 64 + b);
  }

  lemma DropTwelve(m: nat)
    requires m < 0x1000
    ensures m * 0x1000 / 0x10000 % 256 == m / 16
  {
  }

  /** What three leftover values contribute. */
  lemma ThreeValuesBits(a: nat, b: nat, c: nat)
    requires a < 64 && b < 64 && c < 64
    ensures High(Joined(a, b, c, 0)) * 0x100 + Middle(Joined(a, b, c, 0)) == (a * 0x1000 + b * 64 + c) / 4
  {
    var m := a * 0x1000 + b * 64 + c;
    assert Joined(a, b, c, 0) == m * 64;
    TwoBytes(m * 64);
    DropSix(m);
  }

  lemma TwoBytes(n: nat)
    requires n < 0x1000000
    ensures High(n) * 0x100 + Middle(n) == n / 0x100
  {
    assert n / 0x10000 == n / 0x100 / 0x100;
  }

  lemma DropSix(m: nat)
    ensures m * 64 / 0x100 == m / 4
  {
  }

  lemma {:induction false} QuantaBits(vals: seq<nat>, k: nat)
    requires 4 * k <= |vals| && AllBelow(vals, 64)
    ensures FromBytes(DecodeQuanta(vals, k)) == ValueOf(vals[..4 * k])
  {
    if k > 0 {
      var i := 4 * k - 4;
      QuantaBits(vals, k - 1);
      QuantumBits(vals[i], vals[i + 1], vals[i + 2], vals[i + 3]);
      FourMoreValues(vals, i);
      var n := Joined(vals[i], vals[i + 1], vals[i + 2], vals[i + 3]);
      ThreeMoreBytes(DecodeQuanta(vals, k - 1), High(n), Middle(n), Low(n));
    }
  }

  lemma FourMoreValues(vals: seq<nat>, i: nat)
    requires i + 4 <= |vals|
    ensures ValueOf(vals[..i + 4]) == ValueOf(vals[..i]) * 0x1000000
            + Joined(vals[i], vals[i + 1], vals[i + 2], vals[i + 3])
  {
    forall j | i <= j < i + 4
      ensures ValueOf(vals[..j + 1]) == ValueOf(vals[..j]) * 64 + vals[j]
    {
      assert vals[..j + 1] == vals[..j] + [vals[j]];
      ValueOfSnoc(vals[..j], vals[j]);
    }
    assert ValueOf(vals[..i + 1]) == ValueOf(vals[..i]) * 64 + vals[i];
    assert ValueOf(vals[..i + 2]) == ValueOf(vals[..i + 1]) * 64 + vals[i + 1];
    assert ValueOf(vals[..i + 3]) == ValueOf(vals[..i + 2]) * 64 + vals[i + 2];
  }

  lemma ThreeMoreBytes(bs: seq<nat>, x: nat, y: nat, z: nat)
    ensures FromBytes(bs + [x, y, z]) == FromBytes(bs) * 0x1000000 + x * 0x10000 + y * 0x100 + z
  {
    assert bs + [x, y, z] == bs + [x] + [y] + [z];
    FromBytesSnoc(bs, x);
    FromBytesSnoc(bs + [x], y);
    FromBytesSnoc(bs + [x] + [y], z);
  }

  /** The number of unused low bits of the last character. */
  function Unused(n: nat): nat {
    if n % 4 == 2 then 4 else if n % 4 == 3 then 2 else 0
  }

  lemma UnusedBits(n: nat)
    requires n % 4 != 1
    ensures 6 * n == 8 * (3 * n / 4) + Unused(n)
  {
  }

  /** Appending the bytes of two leftover values. */
  lemma TwoLeft(vals: seq<nat>, front: seq<nat>, a: nat, b: nat, x: nat)
    requires |vals| >= 2 && vals[|vals| - 2..] == [a, b] && x == (a * 64 + b) / 16
    requires FromBytes(front) == ValueOf(vals[..|vals| - 2])
    ensures FromBytes(front + [x]) == ValueOf(vals) / 16
  {
    var before := vals[..|vals| - 2];
    assert vals == before + [a] + [b];
    ValueOfSnoc(before, a);
    ValueOfSnoc(before + [a], b);
    FromBytesSnoc(front, x);
    DropFourBits(ValueOf(before), a * 64 + b);
  }

  lemma DropFourBits(v: nat, low: nat)
    ensures (v * 0x1000 + low) / 16 == v * 0x100 + low / 16
  {
  }

  lemma DropTwoBits(v: nat, low: nat)
    ensures (v * 0x40000 + low) / 4 == v * 0x10000 + low / 4
  {
  }

  lemma ThreeMoreValues(vals: seq<nat>, a: nat, b: nat, c: nat)
    requires |vals| >= 3 && vals[|vals| - 3..] == [a, b, c]
    ensures ValueOf(vals) == ValueOf(vals[..|vals| - 3]) * 0x40000 + (a * 0x1000 + b * 64 + c)
  {
    var before := vals[..|vals| - 3];
    assert vals == before + [a] + [b] + [c];
    ValueOfSnoc(before, a);
    ValueOfSnoc(before + [a], b);
    ValueOfSnoc(before + [a] + [b], c);
  }

  lemma TwoMoreBytes(front: seq<nat>, x: nat, y: nat)
    ensures FromBytes(front + [x, y]) == FromBytes(front) * 0x10000 + (x * 0x100 + y)
  {
    assert front + [x, y] == front + [x] + [y];
    FromBytesSnoc(front, x);
    FromBytesSnoc(front + [x], y);
  }

  /** Appending the bytes of three leftover values. */
  lemma ThreeLeft(vals: seq<nat>, front: seq<nat>, a: nat, b: nat, c: nat, x: nat, y: nat)
    requires |vals| >= 3 && vals[|vals| - 3..] == [a, b, c] && x * 0x100 + y == (a * 0x1000 + b * 64 + c) / 4
    requires FromBytes(front) == ValueOf(vals[..|vals| - 3])
    ensures FromBytes(front + [x, y]) == ValueOf(vals) / 4
  {
    ThreeMoreValues(vals, a, b, c);
    TwoMoreBytes(front, x, y);
    DropTwoBits(ValueOf(vals[..|vals| - 3]), a * 0x1000 + b * 64 + c);
  }

  lemma TailBits(vals: seq<nat>, front: seq<nat>)
    requires |vals| % 4 != 1 && AllBelow(vals, 64)
    requires FromBytes(front) == ValueOf(vals[..4 * (|vals| / 4)])
    ensures FromBytes(front + DecodeTail(vals[4 * (|vals| / 4)..]).value) == ValueOf(vals) / Pow2(Unused(|vals|))
  {
    var tail := vals[4 * (|vals| / 4)..];
    if |tail| == 0 {
      assert front + [] == front && vals[..4 * (|vals| / 4)] == vals;
    } else if |tail| == 2 {
      TwoTailBits(vals, front, tail);
    } else {
      ThreeTailBits(vals, front, tail);
    }
  }

  lemma SmallPowers()
    ensures Pow2(2) == 4 && Pow2(4) == 16
  {
    assert Pow2(1) == 2 && Pow2(3) == 8;
  }

  lemma TwoTailBits(vals: seq<nat>, front: seq<nat>, tail: seq<nat>)
    requires |vals| % 4 == 2 && tail == vals[|vals| - 2..] && AllBelow(tail, 64)
    requires FromBytes(front) == ValueOf(vals[..|vals| - 2])
    ensures FromBytes(front + DecodeTail(tail).value) == ValueOf(vals) / Pow2(Unused(|vals|))
  {
    SmallPowers();
    TwoValuesBits(tail[0], tail[1]);
    TwoLeft(vals, front, tail[0], tail[1], High(Joined(tail[0], tail[1], 0, 0)));
  }

  lemma ThreeTailBits(vals: seq<nat>, front: seq<nat>, tail: seq<nat>)
    requires |vals| % 4 == 3 && tail == vals[|vals| - 3..] && AllBelow(tail, 64)
    requires FromBytes(front) == ValueOf(vals[..|vals| - 3])
    ensures FromBytes(front + DecodeTail(tail).value) == ValueOf(vals) / Pow2(Unused(|vals|))
  {
    SmallPowers();
    var n := Joined(tail[0], tail[1], tail[2], 0);
    ThreeValuesBits(tail[0], tail[1], tail[2]);
    ThreeLeft(vals, front, tail[0], tail[1], tail[2], High(n), Middle(n));
  }

  /** Decoding yields the leading bits of the characters' values; the unused low bits of the last one are dropped. */
  lemma DecodeYieldsLeadingBits(padded: string)
    requires Decode(padded).Some?
    ensures var vals := Values(StripPadding(padded));
            && 6 * |vals| == 8 * |Decode(padded).value| + Unused(|vals|)
            && FromBytes(Decode(padded).value) == ValueOf(vals) / Pow2(Unused(|vals|))
  {
    var vals := Values(StripPadding(padded));
    DecodesExactly(padded);
    UnusedBits(|vals|);
    QuantaBits(vals, |vals| / 4);
    TailBits(vals, DecodeQuanta(vals, |vals| / 4));
  }

  // --------------------------------------------------------------------
  // Encoding, and the round trip
  // --------------------------------------------------------------------

  function EncodeQuantum(x: nat, y: nat, z: nat): seq<nat> {
    var n := x * 0x10000 + y * 0x100 + z;
    [n / 0x40000, n / 0x1000 % 64, n / 0x40 % 64, n % 64]
  }

  function EncodeQuanta(bs: seq<nat>, k: nat): seq<nat>
    requires 3 * k <= |bs|
  {
    if k == 0 then [] else EncodeQuanta(bs, k - 1) + EncodeQuantum(bs[3 * k - 3], bs[3 * k - 2], bs[3 * k - 1])
  }

  function EncodeTail(tail: seq<nat>): seq<nat>
    requires |tail| < 3
  {
    if |tail| == 0 then []
    else if |tail| == 1 then EncodeQuantum(tail[0], 0, 0)[..2]
    else EncodeQuantum(tail[0], tail[1], 0)[..3]
  }

  function EncodeValues(bs: seq<nat>): seq<nat> {
    EncodeQuanta(bs, |bs| / 3) + EncodeTail(bs[3 * (|bs| / 3)..])
  }

  /** The character of a value in the URL-safe alphabet (table 2 of RFC 4648, section 5). */
  function UrlChar(v: nat): char
    requires v < 64
  {
    if v == 62 then '-' else if v == 63 then '_' else StdChar(v)
  }

  function UrlChars(vals: seq<nat>): string
    requires AllBelow(vals, 64)
  {
    seq(|vals|, i requires 0 <= i < |vals| => UrlChar(vals[i]))
  }

  function Padding(n: nat): string {
    if n == 0 then "" else Padding(n - 1) + "="
  }

  function EncodeUrl(bs: seq<nat>): string
    requires AllBelow(bs, 256)
  {
    EncodedBelow64(bs);
    UrlChars(EncodeValues(bs)) + Padding(if |bs| % 3 == 0 then 0 else 3 - |bs| % 3)
  }

  /** A coordinate in a published key: encoded, without padding. */
  function Coordinate(bs: seq<nat>): string
    requires AllBelow(bs, 256)
  {
    StripPadding(EncodeUrl(bs))
  }

  function ToStd(c: char): char {
    if c == '-' then '+' else if c == '_' then '/' else c
  }

  function Translated(s: string): string {
    seq(|s|, i requires 0 <= i < |s| => ToStd(s[i]))
  }

  /** A character of a coordinate stands for the value it has in the URL-safe alphabet (RFC 4648, section 5). */
  lemma UrlValuesExactly(c: char)
    ensures IndexOf(ToStd(c)) == 62 <==> c == '-' || c == '+'
    ensures IndexOf(ToStd(c)) == 63 <==> c == '_' || c == '/'
    ensures 'A' <= c <= 'Z' ==> IndexOf(ToStd(c)) == c as int - 'A' as int
    ensures 'a' <= c <= 'z' ==> IndexOf(ToStd(c)) == 26 + (c as int - 'a' as int)
    ensures '0' <= c <= '9' ==> IndexOf(ToStd(c)) == 52 + (c as int - '0' as int)
  {
  }

  predicate IsUrlChar(c: char) {
    (IsStd(c) && c != '+' && c != '/') || c == '-' || c == '_' || c == '='
  }

  predicate AllUrlChars(s: string) {
    forall i | 0 <= i < |s| :: IsUrlChar(s[i])
  }

  /** Padded out to a multiple of four characters. */
  function Padded(s: string): string {
    s + Padding((4 - |s| % 4) % 4)
  }

  /** Reading a coordinate: URL-safe characters only, translated, padded again and strictly decoded. */
  function DecodeUrl(s: string): Option<seq<nat>> {
    if s == "" || !AllUrlChars(s) then None
    else
      Decode(Padded(Translated(s)))
  }

  lemma BytesBack(x: nat, y: nat, z: nat)
    requires x < 256 && y < 256 && z < 256
    ensures var n := x * 0x10000 + y * 0x100 + z; High(n) == x && Middle(n) == y && Low(n) == z
  {
    var n := x * 0x10000 + y * 0x100 + z;
    assert n / 0x10000 == x;
    assert n / 0x100 == x * 0x100 + y;
  }

  lemma FourSextets(n: nat)
    ensures Joined(n / 0x40000, n / 0x1000 % 64, n / 0x40 % 64, n % 64) == n
  {
    assert n / 0x40000 == n / 0x1000 / 64;
    assert n / 0x1000 == n / 0x40 / 64;
  }

  lemma QuantumEncodes(x: nat, y: nat, z: nat)
    requires x < 256 && y < 256 && z < 256
    ensures AllBelow(EncodeQuantum(x, y, z), 64)
    ensures var q := EncodeQuantum(x, y, z); DecodeQuantum(q[0], q[1], q[2], q[3]) == [x, y, z]
  {
    FourSextets(x * 0x10000 + y * 0x100 + z);
    BytesBack(x, y, z);
  }

  /** The values beyond those a leftover byte needs are zero. */
  lemma OneByteEncodes(x: nat)
    requires x < 256
    ensures DecodeTail(EncodeQuantum(x, 0, 0)[..2]) == Some([x])
  {
    OneByteFrom(x, EncodeQuantum(x, 0, 0));
  }

  lemma OneByteFrom(x: nat, q: seq<nat>)
    requires x < 256 && q == EncodeQuantum(x, 0, 0)
    ensures DecodeTail(q[..2]) == Some([x])
  {
    QuantumEncodes(x, 0, 0);
    LastTwoZero(x, q);
    FirstByte(q[0], q[1], x, 0, 0);
    assert q[..2] == [q[0], q[1]];
  }

  lemma LastTwoZero(x: nat, q: seq<nat>)
    requires q == EncodeQuantum(x, 0, 0)
    ensures q[2] == 0 && q[3] == 0
  {
    LowBitsZero(x * 0x10);
  }

  lemma FirstByte(a: nat, b: nat, x: nat, y: nat, z: nat)
    requires DecodeQuantum(a, b, 0, 0) == [x, y, z]
    ensures DecodeTail([a, b]) == Some([x])
  {
  }

  lemma LowBitsZero(m: nat)
    ensures m * 0x1000 / 0x40 % 64 == 0 && m * 0x1000 % 64 == 0
  {
    assert m * 0x1000 == 0x40 * (m * 0x40);
    MultipleOf64(m * 0x40);
    MultipleOf64(m);
  }

  lemma MultipleOf64(m: nat)
    ensures 0x40 * m / 0x40 == m && 0x40 * m % 64 == 0
  {
  }

  lemma TwoBytesEncode(x: nat, y: nat)
    requires x < 256 && y < 256
    ensures DecodeTail(EncodeQuantum(x, y, 0)[..3]) == Some([x, y])
  {
    TwoBytesFrom(x, y, EncodeQuantum(x, y, 0));
  }

  lemma TwoBytesFrom(x: nat, y: nat, q: seq<nat>)
    requires x < 256 && y < 256 && q == EncodeQuantum(x, y, 0)
    ensures DecodeTail(q[..3]) == Some([x, y])
  {
    TwoBytesQuantum(x, y, q);
    FirstTwoBytes(q[0], q[1], q[2], x, y, 0);
    assert q[..3] == [q[0], q[1], q[2]];
  }

  lemma TwoBytesQuantum(x: nat, y: nat, q: seq<nat>)
    requires x < 256 && y < 256 && q == EncodeQuantum(x, y, 0)
    ensures |q| == 4 && DecodeQuantum(q[0], q[1], q[2], 0) == [x, y, 0]
  {
    LastIsZero(x, y, q);
    QuantumEncodes(x, y, 0);
    LastMayBeDropped(q, [x, y, 0]);
  }

  lemma LastMayBeDropped(q: seq<nat>, bytes: seq<nat>)
    requires |q| == 4 && q[3] == 0 && DecodeQuantum(q[0], q[1], q[2], q[3]) == bytes
    ensures DecodeQuantum(q[0], q[1], q[2], 0) == bytes
  {
  }

  lemma LastIsZero(x: nat, y: nat, q: seq<nat>)
    requires q == EncodeQuantum(x, y, 0)
    ensures |q| == 4 && q[3] == 0
  {
    LastSextetZero(x, y);
  }

  lemma LastSextetZero(x: nat, y: nat)
    ensures (x * 0x10000 + y * 0x100 + 0) % 64 == 0
  {
    assert x * 0x10000 + y * 0x100 == 64 * (x * 0x400 + y * 4);
  }

  lemma FirstTwoBytes(a: nat, b: nat, c: nat, x: nat, y: nat, z: nat)
    requires DecodeQuantum(a, b, c, 0) == [x, y, z]
    ensures DecodeTail([a, b, c]) == Some([x, y])
  {
  }

  lemma {:induction false} EncodeQuantaBelow64(bs: seq<nat>, k: nat)
    requires 3 * k <= |bs| && AllBelow(bs, 256)
    ensures |EncodeQuanta(bs, k)| == 4 * k && AllBelow(EncodeQuanta(bs, k), 64)
  {
    if k > 0 {
      EncodeQuantaBelow64(bs, k - 1);
      QuantumEncodes(bs[3 * k - 3], bs[3 * k - 2], bs[3 * k - 1]);
    }
  }

  lemma EncodedBelow64(bs: seq<nat>)
    requires AllBelow(bs, 256)
    ensures AllBelow(EncodeValues(bs), 64)
    ensures |EncodeValues(bs)| == 4 * (|bs| / 3) + (if |bs| % 3 == 0 then 0 else |bs| % 3 + 1)
  {
    var k := |bs| / 3;
    var tail := bs[3 * k..];
    EncodeQuantaBelow64(bs, k);
    if |tail| == 1 { QuantumEncodes(tail[0], 0, 0); }
    if |tail| == 2 { QuantumEncodes(tail[0], tail[1], 0); }
  }

  lemma OneMoreQuantum(vals: seq<nat>, k: nat, q: seq<nat>)
    requires 0 < k && 4 * k <= |vals| && |q| == 4 && vals[4 * k - 4..4 * k] == q
    ensures DecodeQuanta(vals, k) == DecodeQuanta(vals, k - 1) + DecodeQuantum(q[0], q[1], q[2], q[3])
  {
    assert vals[4 * k - 4 + 0] == q[0] && vals[4 * k - 4 + 1] == q[1] && vals[4 * k - 4 + 2] == q[2]
           && vals[4 * k - 4 + 3] == q[3];
  }

  lemma LastQuantum(front: seq<nat>, vals: seq<nat>, q: seq<nat>)
    requires |q| == 4 && |front| + 4 <= |vals| && vals[..|front| + 4] == front + q
    ensures vals[..|front|] == front && vals[|front|..|front| + 4] == q
  {
    assert vals[..|front|] == vals[..|front| + 4][..|front|];
    assert vals[|front|..|front| + 4] == vals[..|front| + 4][|front|..];
  }

  lemma LastThree(bs: seq<nat>, m: nat)
    requires 3 <= m <= |bs|
    ensures bs[..m] == bs[..m - 3] + [bs[m - 3], bs[m - 2], bs[m - 1]]
  {
  }

  /** The leading groups decode to the leading bytes, whatever follows them. */
  lemma {:induction false} QuantaRoundTrip(bs: seq<nat>, k: nat, vals: seq<nat>)
    requires 3 * k <= |bs| && AllBelow(bs, 256)
    requires 4 * k <= |vals| && vals[..4 * k] == EncodeQuanta(bs, k)
    ensures DecodeQuanta(vals, k) == bs[..3 * k]
  {
    if k > 0 {
      var x, y, z := bs[3 * k - 3], bs[3 * k - 2], bs[3 * k - 1];
      EncodeQuantaBelow64(bs, k - 1);
      QuantaStep(bs, k, vals, x, y, z, EncodeQuantum(x, y, z));
      QuantaRoundTrip(bs, k - 1, vals);
      LastThree(bs, 3 * k);
    }
  }

  lemma QuantaStep(bs: seq<nat>, k: nat, vals: seq<nat>, x: nat, y: nat, z: nat, q: seq<nat>)
    requires 0 < k && 3 * k <= |bs| && 4 * k <= |vals| && x < 256 && y < 256 && z < 256
    requires q == EncodeQuantum(x, y, z) && |EncodeQuanta(bs, k - 1)| == 4 * k - 4
    requires vals[..4 * k] == EncodeQuanta(bs, k - 1) + q
    ensures vals[..4 * k - 4] == EncodeQuanta(bs, k - 1)
    ensures DecodeQuanta(vals, k) == DecodeQuanta(vals, k - 1) + [x, y, z]
  {
    QuantumEncodes(x, y, z);
    LastQuantum(EncodeQuanta(bs, k - 1), vals, q);
    OneMoreQuantum(vals, k, q);
  }

  lemma TailRoundTrip(tail: seq<nat>)
    requires |tail| < 3 && AllBelow(tail, 256)
    ensures |EncodeTail(tail)| < 4 && DecodeTail(EncodeTail(tail)) == Some(tail)
  {
    if |tail| == 1 {
      OneByteEncodes(tail[0]);
      assert tail == [tail[0]];
    } else if |tail| == 2 {
      TwoBytesEncode(tail[0], tail[1]);
      assert tail == [tail[0], tail[1]];
    }
  }

  lemma ValuesRoundTrip(bs: seq<nat>)
    requires AllBelow(bs, 256)
    ensures DecodeValues(EncodeValues(bs)) == Some(bs)
  {
    var k, vals := |bs| / 3, EncodeValues(bs);
    var tail := bs[3 * k..];
    EncodedBelow64(bs);
    EncodeQuantaBelow64(bs, k);
    TailRoundTrip(tail);
    assert |vals| / 4 == k && vals[..4 * k] == EncodeQuanta(bs, k) && vals[4 * k..] == EncodeTail(tail);
    QuantaRoundTrip(bs, k, vals);
    assert bs == bs[..3 * k] + tail;
  }

  lemma {:induction false} StripPadded(s: string, n: nat)
    requires s == "" || s[|s| - 1] != '='
    ensures StripPadding(s + Padding(n)) == s
    decreases n
  {
    if n == 0 {
      assert s + Padding(0) == s;
    } else {
      var padded := s + Padding(n);
      assert padded == s + Padding(n - 1) + "=";
      assert padded[..|padded| - 1] == s + Padding(n - 1);
      StripPadded(s, n - 1);
    }
  }

  lemma {:induction false} PaddingLength(n: nat)
    ensures |Padding(n)| == n
  {
    if n > 0 { PaddingLength(n - 1); }
  }

  lemma UrlCharsBack(vals: seq<nat>, i: nat)
    requires AllBelow(vals, 64) && i < |vals|
    ensures var c := UrlChars(vals)[i];
            IsUrlChar(c) && c != '=' && ToStd(c) != '=' && IsStd(ToStd(c)) && IndexOf(ToStd(c)) == vals[i]
  {
  }

  /** Translated back, the characters carry the values they were made from. */
  lemma TranslatedBack(vals: seq<nat>)
    requires AllBelow(vals, 64)
    ensures InAlphabet(Translated(UrlChars(vals))) && Values(Translated(UrlChars(vals))) == vals
    ensures AllUrlChars(UrlChars(vals))
    ensures vals != [] ==> UrlChars(vals)[|vals| - 1] != '=' && Translated(UrlChars(vals))[|vals| - 1] != '='
  {
    forall i | 0 <= i < |vals|
      ensures var c := UrlChars(vals)[i];
              IsUrlChar(c) && c != '=' && ToStd(c) != '=' && IsStd(ToStd(c)) && IndexOf(ToStd(c)) == vals[i]
    {
      UrlCharsBack(vals, i);
    }
    assert |Values(Translated(UrlChars(vals)))| == |vals|;
  }

  lemma DecodeBody(padded: string, body: string)
    requires |padded| % 4 == 0 && StripPadding(padded) == body && InAlphabet(body)
    ensures Decode(padded) == DecodeValues(Values(body))
  {
  }

  lemma PadsToFour(n: nat)
    ensures (n + (4 - n % 4) % 4) % 4 == 0
  {
  }

  /** Padding text out to a multiple of four characters does not change what it decodes to. */
  lemma DecodePadded(body: string)
    requires body != "" && body[|body| - 1] != '=' && |body| % 4 != 1 && InAlphabet(body)
    ensures Decode(Padded(body)) == DecodeValues(Values(body))
  {
    var pad := (4 - |body| % 4) % 4;
    StripPadded(body, pad);
    PaddingLength(pad);
    PadsToFour(|body|);
    DecodeBody(body + Padding(pad), body);
  }

  lemma Recoded(s: string)
    requires s != "" && AllUrlChars(s)
    ensures DecodeUrl(s) == Decode(Padded(Translated(s)))
  {
  }

  /**
   Every byte sequence survives publication: encoded URL-safe, stripped of its
   padding, translated, padded again and strictly decoded, it comes back.
   */
  lemma CoordinateRoundTrip(bs: seq<nat>)
    requires bs != [] && AllBelow(bs, 256)
    ensures DecodeUrl(Coordinate(bs)) == Some(bs)
  {
    var vals := EncodeValues(bs);
    EncodedBelow64(bs);
    EncodedLength(|bs|, |vals|);
    TranslatedBack(vals);
    CoordinateIs(bs);
    PublishedDecodes(vals);
    ValuesRoundTrip(bs);
  }

  lemma CoordinateIs(bs: seq<nat>)
    requires bs != [] && AllBelow(bs, 256)
    ensures AllBelow(EncodeValues(bs), 64) && Coordinate(bs) == UrlChars(EncodeValues(bs))
  {
    EncodedBelow64(bs);
    EncodedLength(|bs|, |EncodeValues(bs)|);
    TranslatedBack(EncodeValues(bs));
    StripPadded(UrlChars(EncodeValues(bs)), if |bs| % 3 == 0 then 0 else 3 - |bs| % 3);
  }

  lemma PublishedDecodes(vals: seq<nat>)
    requires vals != [] && AllBelow(vals, 64) && |vals| % 4 != 1
    ensures DecodeUrl(UrlChars(vals)) == DecodeValues(vals)
  {
    TranslatedBack(vals);
    Recoded(UrlChars(vals));
    DecodePadded(Translated(UrlChars(vals)));
  }

  lemma EncodedLength(n: nat, m: nat)
    requires n > 0 && m == 4 * (n / 3) + (if n % 3 == 0 then 0 else n % 3 + 1)
    ensures m > 0 && m % 4 != 1
  {
  }

  // --------------------------------------------------------------------
  // Unused bits
  // --------------------------------------------------------------------

  lemma TwoValuesDecode(vals: seq<nat>)
    requires |vals| == 2 && AllBelow(vals, 64)
    ensures DecodeValues(vals) == Some([(vals[0] * 64 + vals[1]) / 16])
  {
    TwoValuesBits(vals[0], vals[1]);
    NoGroups(vals);
    OneLeftover(vals, (vals[0] * 64 + vals[1]) / 16);
  }

  lemma OneLeftover(tail: seq<nat>, x: nat)
    requires |tail| == 2 && High(Joined(tail[0], tail[1], 0, 0)) == x
    ensures DecodeTail(tail) == Some([x])
  {
  }

  lemma NoGroups(vals: seq<nat>)
    requires |vals| < 4
    ensures DecodeValues(vals) == DecodeTail(vals)
  {
    assert vals[4 * (|vals| / 4)..] == vals;
    var tail := DecodeTail(vals);
    if tail.Some? { assert DecodeQuanta(vals, 0) + tail.value == tail.value; }
  }

  /** Decoding is not injective: the low four bits of a second, last character may be anything. */
  lemma UnusedBitsAreIgnored(c: char, d: char, e: char)
    requires IsStd(c) && IsStd(d) && IsStd(e) && IndexOf(d) / 16 == IndexOf(e) / 16
    ensures Decode(Padded([c, d])) == Decode(Padded([c, e])) != None
  {
    OneByteText(c, d);
    OneByteText(c, e);
    SameLeadingBits(IndexOf(c), IndexOf(d), IndexOf(e));
  }

  lemma OneByteText(c: char, d: char)
    requires IsStd(c) && IsStd(d)
    ensures Decode(Padded([c, d])) == Some([(IndexOf(c) * 64 + IndexOf(d)) as nat / 16])
  {
    DecodePadded([c, d]);
    TwoValuesDecode(Values([c, d]));
  }

  lemma SameLeadingBits(a: nat, b: nat, c: nat)
    requires b / 16 == c / 16
    ensures (a * 64 + b) / 16 == (a * 64 + c) / 16
  {
    assert (a * 64 + b) / 16 == a * 4 + b / 16;
  }

  // --------------------------------------------------------------------
  // Coordinates as numbers
  // --------------------------------------------------------------------

  /** Big-endian, in `n` bytes. */
  function ToBytes(x: nat, n: nat): seq<nat> {
    if n == 0 then [] else ToBytes(x / 256, n - 1) + [x % 256]
  }

  function Pow256(n: nat): nat {
    if n == 0 then 1 else 256 * Pow256(n - 1)
  }

  lemma {:induction false} BytesOfNumber(x: nat, n: nat)
    requires x < Pow256(n)
    ensures |ToBytes(x, n)| == n && AllBelow(ToBytes(x, n), 256) && FromBytes(ToBytes(x, n)) == x
  {
    if n > 0 {
      BytesOfNumber(x / 256, n - 1);
      FromBytesSnoc(ToBytes(x / 256, n - 1), x % 256);
    }
  }

  /** Every 256-bit coordinate is read back as published. */
  lemma CoordinateNumberRoundTrip(x: nat)
    requires x < Pow256(32)
    ensures AllBelow(ToBytes(x, 32), 256)
    ensures DecodeUrl(Coordinate(ToBytes(x, 32))).Some?
    ensures FromBytes(DecodeUrl(Coordinate(ToBytes(x, 32))).value) == x
  {
    BytesOfNumber(x, 32);
    CoordinateRoundTrip(ToBytes(x, 32));
  }

  // --------------------------------------------------------------------
  // Which coordinates are read
  // --------------------------------------------------------------------

  /** A letter, a digit, a dash or an underscore. */
  predicate IsPlainChar(c: char) {
    'A' <= c <= 'Z' || 'a' <= c <= 'z' || '0' <= c <= '9' || c == '-' || c == '_'
  }

  /** Text with any other character but the padding is refused, and so is no text at all. */
  lemma ForeignTextIsRefused(s: string)
    requires s == "" || exists c :: c in s && !IsPlainChar(c) && c != '='
    ensures DecodeUrl(s) == None
  {
    if s != "" {
      var c :| c in s && !IsPlainChar(c) && c != '=';
      var i :| 0 <= i < |s| && s[i] == c;
      assert !IsUrlChar(s[i]);
    }
  }

  lemma PlainIsStd(c: char)
    requires IsPlainChar(c)
    ensures IsUrlChar(c) && IsStd(ToStd(c)) && ToStd(c) != '='
  {
  }

  /** Any other text is read, and to three bytes for four characters, unless one character is left over. */
  lemma PlainTextDecodesExactly(s: string)
    requires s != "" && forall i | 0 <= i < |s| :: IsPlainChar(s[i])
    ensures DecodeUrl(s).Some? <==> |s| % 4 != 1
    ensures DecodeUrl(s).Some? ==> |DecodeUrl(s).value| == 3 * |s| / 4
  {
    forall i | 0 <= i < |s|
      ensures IsUrlChar(s[i]) && IsStd(ToStd(s[i])) && ToStd(s[i]) != '='
    {
      PlainIsStd(s[i]);
    }
    var body := Translated(s);
    Recoded(s);
    PaddedBody(body);
    DecodesExactly(Padded(body));
  }

  lemma PaddedBody(body: string)
    requires body != "" && body[|body| - 1] != '='
    ensures |Padded(body)| % 4 == 0 && StripPadding(Padded(body)) == body
  {
    var pad := (4 - |body| % 4) % 4;
    StripPadded(body, pad);
    PaddingLength(pad);
    PadsToFour(|body|);
  }
}
