/** UTF-8 (RFC 3629), and the truncation of a string to a number of bytes. */
module Utf8 {

  type Byte = b: int | 0 <= b < 256

  /** The one to four bytes of a character (RFC 3629, section 3). */
  function EncodeChar(c: char): (bytes: seq<Byte>)
    ensures 1 <= |bytes| <= 4
    ensures !IsContinuation(bytes[0])
    ensures forall i :: 1 <= i < |bytes| ==> IsContinuation(bytes[i])
  {
    var n := c as int;
    if n < 0x80 then [n]
    else if n < 0x800 then [0xC0 + n / 64, 0x80 + n % 64]
    else if n < 0x10000 then [0xE0 + n / 4096, 0x80 + n / 64 % 64, 0x80 + n % 64]
    else [0xF0 + n / 262144, 0x80 + n / 4096 % 64, 0x80 + n / 64 % 64, 0x80 + n % 64]
  }

  predicate IsContinuation(b: Byte) {
    0x80 <= b < 0xC0
  }

  function Encode(text: string): seq<Byte> {
    if text == "" then [] else EncodeChar(text[0]) + Encode(text[1..])
  }

  /** `str::is_char_boundary` */
  predicate IsBoundary(bytes: seq<Byte>, i: nat) {
    i == 0 || i == |bytes| || (i < |bytes| && !IsContinuation(bytes[i]))
  }

  /** The number of leading characters of `text` that fit in `max` bytes. */
  function Fitting(text: string, max: nat): (k: nat)
    ensures k <= |text|
  {
    if text == "" || |EncodeChar(text[0])| > max then 0
    else 1 + Fitting(text[1..], max - |EncodeChar(text[0])|)
  }

  lemma {:induction false} EncodePrefix(text: string, k: nat)
    requires k <= |text|
    ensures Encode(text) == Encode(text[..k]) + Encode(text[k..])
    decreases k
  {
    if k == 0 {
      assert text[k..] == text;
    } else {
      var first, a, b := EncodeChar(text[0]), Encode(text[1..][..k - 1]), Encode(text[1..][k - 1..]);
      EncodePrefix(text[1..], k - 1);
      assert text[..k][1..] == text[1..][..k - 1] && text[k..] == text[1..][k - 1..];
      assert Encode(text[..k]) == first + a;
      assert first + (a + b) == (first + a) + b;
    }
  }

  /** The bytes of a character tell where it ends and which one it is. */
  lemma EncodeCharInjective(a: char, b: char, x: seq<Byte>, y: seq<Byte>)
    requires EncodeChar(a) + x == EncodeChar(b) + y
    ensures a == b && x == y
  {
    var p, q := EncodeChar(a), EncodeChar(b);
    assert (p + x)[0] == p[0] && (q + y)[0] == q[0];
    assert |p| == |q|;
    assert p == (p + x)[..|p|] && q == (q + y)[..|q|];
    assert x == (p + x)[|p|..] && y == (q + y)[|q|..];
    SameBytes(a, b);
  }

  lemma SameBytes(a: char, b: char)
    requires EncodeChar(a) == EncodeChar(b)
    ensures a == b
  {
    var m, n := a as int, b as int;
    if |EncodeChar(a)| == 2 {
      assert m == m / 64 * 64 + m % 64 && n == n / 64 * 64 + n % 64;
    } else if |EncodeChar(a)| == 3 {
      ThreeDigits(m);
      ThreeDigits(n);
    } else if |EncodeChar(a)| == 4 {
      FourDigits(m);
      FourDigits(n);
    }
  }

  lemma ThreeDigits(n: nat)
    ensures n == (n / 4096 * 64 + n / 64 % 64) * 64 + n % 64
  {
    assert n / 4096 == n / 64 / 64;
  }

  lemma FourDigits(n: nat)
    ensures n == ((n / 262144 * 64 + n / 4096 % 64) * 64 + n / 64 % 64) * 64 + n % 64
  {
    ThreeDigits(n / 64);
    assert n / 262144 == n / 64 / 4096 && n / 4096 == n / 64 / 64;
  }

  /** Different strings have different bytes. */
  lemma {:induction false} EncodeInjective(a: string, b: string)
    requires Encode(a) == Encode(b)
    ensures a == b
    decreases |a|
  {
    hide EncodeChar;
    if a != "" && b != "" {
      EncodeCharInjective(a[0], b[0], Encode(a[1..]), Encode(b[1..]));
      EncodeInjective(a[1..], b[1..]);
      assert a == [a[0]] + a[1..] && b == [b[0]] + b[1..];
    } else {
      assert a == "" <==> |Encode(a)| == 0;
      assert b == "" <==> |Encode(b)| == 0;
    }
  }

  /** The longest prefix that fits: it fits, and one more character does not. */
  lemma {:induction false} FittingIsLongest(text: string, max: nat)
    ensures var k := Fitting(text, max);
            && |Encode(text[..k])| <= max
            && (k < |text| ==> |Encode(text[..k + 1])| > max)
    decreases |text|
  {
    var k := Fitting(text, max);
    if k > 0 {
      FittingIsLongest(text[1..], max - |EncodeChar(text[0])|);
      assert text[..k][1..] == text[1..][..k - 1];
      if k < |text| {
        assert text[..k + 1][1..] == text[1..][..k];
      }
    } else if text != "" {
      assert text[..1] == [text[0]];
    }
  }

  /** Character boundaries are the ends of encoded prefixes, and no other positions. */
  lemma {:induction false} BoundaryIsPrefixEnd(text: string, i: nat)
    requires i <= |Encode(text)|
    ensures IsBoundary(Encode(text), i) <==> exists k :: 0 <= k <= |text| && |Encode(text[..k])| == i
    decreases |text|
  {
    var bytes := Encode(text);
    assert text[..0] == "" && text[..|text|] == text;
    if i == 0 {
      assert |Encode(text[..0])| == 0;
    } else if i == |bytes| {
      assert |Encode(text[..|text|])| == i;
    } else {
      var w := |EncodeChar(text[0])|;
      forall k | 1 <= k <= |text| ensures |Encode(text[..k])| == w + |Encode(text[1..][..k - 1])| {
        assert text[..k][1..] == text[1..][..k - 1];
      }
      if i >= w {
        BoundaryIsPrefixEnd(text[1..], i - w);
        assert bytes[i] == Encode(text[1..])[i - w];
        if k :| 0 <= k <= |text[1..]| && |Encode(text[1..][..k])| == i - w {
          assert |Encode(text[..k + 1])| == i;
        }
        if k :| 0 <= k <= |text| && |Encode(text[..k])| == i {
          assert |Encode(text[1..][..k - 1])| == i - w;
        }
      }
    }
  }

  lemma {:induction false} PrefixLengthMonotone(text: string, j: nat, k: nat)
    requires j <= k <= |text|
    ensures |Encode(text[..j])| + (k - j) <= |Encode(text[..k])|
    decreases k - j
  {
    if j < k {
      PrefixLengthMonotone(text, j, k - 1);
      EncodePrefix(text[..k], k - 1);
      assert text[..k][..k - 1] == text[..k - 1] && text[..k][k - 1..] == [text[k - 1]];
    }
  }

  lemma AddOne(text: string, k: nat)
    requires k < |text|
    ensures |Encode(text[..k + 1])| == |Encode(text[..k])| + |EncodeChar(text[k])|
  {
    EncodePrefix(text[..k + 1], k);
    assert text[..k + 1][..k] == text[..k] && text[..k + 1][k..] == [text[k]];
  }

  /** Where the longest fitting prefix ends: at the whole text if that fits, and near the limit if not. */
  lemma FittingEnds(text: string, max: nat)
    ensures var k := Fitting(text, max);
            && Encode(text[..k]) <= Encode(text) && |Encode(text[..k])| <= max
            && IsBoundary(Encode(text), |Encode(text[..k])|)
            && (|Encode(text)| <= max ==> text[..k] == text)
            && (|Encode(text)| > max ==> k < |text| && max - 3 <= |Encode(text[..k])|)
  {
    hide Encode, EncodeChar, Fitting, IsBoundary;
    var k := Fitting(text, max);
    FittingIsLongest(text, max);
    EncodePrefix(text, k);
    BoundaryIsPrefixEnd(text, |Encode(text[..k])|);
    assert text[..|text|] == text;
    if k < |text| {
      AddOne(text, k);
      PrefixLengthMonotone(text, k + 1, |text|);
    }
  }

  /** No boundary lies between the end of the longest fitting prefix and the limit. */
  lemma NoBoundaryAbove(text: string, max: nat, end: nat)
    requires |Encode(text[..Fitting(text, max)])| < end <= max && end <= |Encode(text)|
    ensures !IsBoundary(Encode(text), end)
  {
    hide Encode, EncodeChar, Fitting, IsBoundary;
    var k := Fitting(text, max);
    FittingIsLongest(text, max);
    BoundaryIsPrefixEnd(text, end);
    forall j | 0 <= j <= |text| ensures |Encode(text[..j])| != end {
      if j > k {
        PrefixLengthMonotone(text, k + 1, j);
      } else {
        PrefixLengthMonotone(text, j, k);
      }
    }
  }

  /**
   * `truncate_to_bytes`: the longest prefix of whole characters that fits in `max` bytes.
   * Never more than three of the allowed bytes go unused.
   */
  method TruncateToBytes(s: seq<Byte>, max: nat, ghost text: string) returns (r: seq<Byte>)
    requires s == Encode(text)
    ensures r == Encode(text[..Fitting(text, max)])
    ensures |s| <= max ==> r == s
    ensures |s| > max ==> max - 3 <= |r| <= max
  {
    hide Encode, Fitting, IsBoundary;
    ghost var fit := |Encode(text[..Fitting(text, max)])|;
    FittingEnds(text, max);
    if |s| <= max {
      return s;
    }
    var end := max;
    while !IsBoundary(s, end)
      invariant fit <= end <= max
      decreases end
    {
      end := end - 1;
    }
    if end > fit {
      NoBoundaryAbove(text, max, end);
    }
    return s[..end];
  }
}
