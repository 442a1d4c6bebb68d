/** _new_ulid (services/run_service.py), after the Encoding and Sorting sections of the ULID
    specification.  The clock reading and the random bytes are parameters. */
module Ulid {
  import opened Prelude
  import opened Positional

  const CROCKFORD: Alphabet := "0123456789ABCDEFGHJKMNPQRSTVWXYZ"

  type Byte = n: int | 0 <= n < 256

  /** int.from_bytes(bytes, "big"). */
  function FromBytes(bytes: seq<Byte>): nat {
    if |bytes| == 0 then 0 else 256 * FromBytes(bytes[..|bytes| - 1]) + bytes[|bytes| - 1]
  }

  /** The 48 low bits of a clock reading in milliseconds. */
  function Timestamp(clock: int): nat {
    clock % 0x1_0000_0000_0000
  }

  /** Ten characters of time, then sixteen of randomness. */
  ghost function Text(ms: nat, random: nat): string {
    Digits(ms, 10, CROCKFORD) + Digits(random, 16, CROCKFORD)
  }

  ghost function Decode(ulid: string): Option<(nat, nat)> {
    if |ulid| != 26 then None
    else
      match (Positional.Read(ulid[..10], CROCKFORD), Positional.Read(ulid[10..], CROCKFORD))
      case (Some(ms), Some(random)) => Some((ms, random))
      case _ => None
  }

  lemma Base()
    ensures |CROCKFORD| == 32
  {
  }

  lemma Widths()
    ensures |CROCKFORD| == 32
    ensures 0x1_0000_0000_0000 <= Power(32, 10)
    ensures Power(256, 10) == Power(32, 16)
  {
    assert Power(32, 10) == 0x4_0000_0000_0000;
    assert Power(256, 10) == 0x1_0000_0000_0000_0000_0000;
    assert Power(32, 16) == 0x1_0000_0000_0000_0000_0000;
  }

  lemma {:induction false} FromBytesBounded(bytes: seq<Byte>)
    ensures FromBytes(bytes) < Power(256, |bytes|)
  {
    if |bytes| > 0 {
      FromBytesBounded(bytes[..|bytes| - 1]);
    }
  }

  lemma {:induction false} FromBytesInjective(a: seq<Byte>, b: seq<Byte>)
    requires |a| == |b| && FromBytes(a) == FromBytes(b)
    ensures a == b
  {
    if |a| > 0 {
      var n := |a| - 1;
      FromBytesInjective(a[..n], b[..n]);
      assert a == a[..n] + [a[n]] && b == b[..n] + [b[n]];
    }
  }

  /** One division step of either loop. */
  lemma DigitStep(all: string, v: nat, k: nat, tail: string)
    requires k > 0 && all == Digits(v, k, CROCKFORD) + tail
    ensures |CROCKFORD| == 32
    ensures all == Digits(v / 32, k - 1, CROCKFORD) + ([CROCKFORD[v % 32]] + tail)
  {
  }

  /** Either loop: from the last character to the first, dividing what is left by 32.  At the
      end nothing of the number is left. */
  method Fill(chars: array<char>, number: nat)
    requires number < Power(32, chars.Length)
    modifies chars
    ensures chars[..] == Digits(number, chars.Length, CROCKFORD)
  {
    Base();
    ghost var all := Digits(number, chars.Length, CROCKFORD);
    var left, i := number, chars.Length - 1;
    assert all == Digits(left, i + 1, CROCKFORD) + chars[i + 1..];
    while i >= 0
      invariant -1 <= i < chars.Length
      invariant 0 <= left < Power(32, i + 1)
      invariant all == Digits(left, i + 1, CROCKFORD) + chars[i + 1..]
    {
      DigitStep(all, left, i + 1, chars[i + 1..]);
      QuotientBounded(left, 32, Power(32, i));
      chars[i] := CROCKFORD[left % 32];
      left := left / 32;
      assert chars[i..] == [chars[i]] + chars[i + 1..];
      i := i - 1;
    }
    assert Power(32, 0) == 1 && left == 0;
    assert chars[0..] == chars[..];
  }

  method NewUlid(clock: int, random: seq<Byte>) returns (ulid: string)
    requires |random| == 10
    ensures ulid == Text(Timestamp(clock), FromBytes(random))
    ensures Decode(ulid) == Some((clock % 281_474_976_710_656, FromBytes(random)))
  {
    Widths();
    FromBytesBounded(random);
    var timeChars := new char[10](_ => '0');
    Fill(timeChars, clock % 0x1_0000_0000_0000);
    var randChars := new char[16](_ => '0');
    Fill(randChars, FromBytes(random));
    ulid := timeChars[..] + randChars[..];
    DecodesToItsParts(Timestamp(clock), FromBytes(random));
  }

  /** Nothing is lost: the 48 bits of time and the 80 random bits read back. */
  lemma {:induction false} DecodesToItsParts(ms: nat, random: nat)
    requires ms < Power(32, 10) && random < Power(32, 16)
    ensures Decode(Text(ms, random)) == Some((ms, random))
  {
    Widths();
    DigitsRoundTrip(ms, 10, CROCKFORD);
    DigitsRoundTrip(random, 16, CROCKFORD);
    assert Text(ms, random)[..10] == Digits(ms, 10, CROCKFORD);
    assert Text(ms, random)[10..] == Digits(random, 16, CROCKFORD);
  }

  /** Two identifiers are equal only for the same millisecond and the same ten bytes. */
  lemma {:induction false} EqualOnlyForEqualParts(c: int, a: seq<Byte>, d: int, b: seq<Byte>)
    requires |a| == |b| == 10
    ensures Text(Timestamp(c), FromBytes(a)) == Text(Timestamp(d), FromBytes(b)) <==>
            Timestamp(c) == Timestamp(d) && a == b
  {
    Widths();
    FromBytesBounded(a);
    FromBytesBounded(b);
    DecodesToItsParts(Timestamp(c), FromBytes(a));
    DecodesToItsParts(Timestamp(d), FromBytes(b));
    if FromBytes(a) == FromBytes(b) {
      FromBytesInjective(a, b);
    }
  }

  /** Identifiers sort as text by time, and within a millisecond by their random part. */
  lemma {:induction false} SortsByTimeThenRandom(ms: nat, random: nat, ms': nat, random': nat)
    requires ms < Power(32, 10) && random < Power(32, 16)
    requires ms' < Power(32, 10) && random' < Power(32, 16)
    ensures Before(Text(ms, random), Text(ms', random')) <==>
            ms < ms' || (ms == ms' && random < random')
  {
    Widths();
    DigitsOrder(ms, ms', 10, CROCKFORD);
    DigitsInjective(ms, ms', 10, CROCKFORD);
    DigitsOrder(random, random', 16, CROCKFORD);
    BeforeAppend(Digits(ms, 10, CROCKFORD), Digits(random, 16, CROCKFORD),
                 Digits(ms', 10, CROCKFORD), Digits(random', 16, CROCKFORD));
  }

  lemma TimestampIs(c: int)
    requires 0 <= c < 281_474_976_710_656
    ensures Timestamp(c) == c
  {
  }

  lemma PartsFit(c: int, a: seq<Byte>)
    requires |a| == 10
    ensures Timestamp(c) < Power(32, 10) && FromBytes(a) < Power(32, 16)
  {
    Widths();
    FromBytesBounded(a);
  }

  /** Identifiers sort by the clock's milliseconds, for as long as 48 bits hold them. */
  lemma {:induction false} SortsByClock(c: int, a: seq<Byte>, d: int, b: seq<Byte>)
    requires 0 <= c < d < 281_474_976_710_656 && |a| == |b| == 10
    ensures Before(Text(Timestamp(c), FromBytes(a)), Text(Timestamp(d), FromBytes(b)))
  {
    PartsFit(c, a);
    PartsFit(d, b);
    TimestampIs(c);
    TimestampIs(d);
    SortsByTimeThenRandom(Timestamp(c), FromBytes(a), Timestamp(d), FromBytes(b));
  }

  /** The random bytes are read most significant first. */
  lemma {:induction false} BigEndian(first: Byte, rest: seq<Byte>)
    ensures FromBytes([first] + rest) == first * Power(256, |rest|) + FromBytes(rest)
    decreases |rest|
  {
    var bytes := [first] + rest;
    if |rest| == 0 {
      assert bytes == [first];
    } else {
      var n := |rest| - 1;
      BigEndian(first, rest[..n]);
      assert bytes[..|bytes| - 1] == [first] + rest[..n];
      HeadScales(first, Power(256, n), FromBytes(rest[..n]), rest[n]);
    }
  }

  lemma HeadScales(first: int, p: int, middle: int, last: int)
    ensures 256 * (first * p + middle) + last == first * (256 * p) + (256 * middle + last)
  {
  }

  /** The alphabet: digits and capitals, without I, L, O and U. */
  lemma CrockfordIs(c: char)
    ensures c in CROCKFORD <==> '0' <= c <= '9' || ('A' <= c <= 'Z' && c !in "ILOU")
  {
  }
}
