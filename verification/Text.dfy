/**
 Byte-wise string order, as Rust compares `str` values. The UTF-8 encoding keeps the order of
 code points (section 1 of RFC 3629), so comparing the characters one by one gives the same answer:
 `LessIsByteOrder`.
 */
module Text {

  predicate Less(a: string, b: string) {
    if b == [] then false
    else if a == [] then true
    else a[0] < b[0] || (a[0] == b[0] && Less(a[1..], b[1..]))
  }

  predicate AtMost(a: string, b: string) {
    a == b || Less(a, b)
  }

  lemma {:induction false} LessIrreflexive(a: string)
    ensures !Less(a, a)
  {
    if a == [] {
    } else {
      LessIrreflexive(a[1..]);
    }
  }

  lemma {:induction false} LessTransitive(a: string, b: string, c: string)
    requires Less(a, b) && Less(b, c)
    ensures Less(a, c)
  {
    if a == [] {
    } else if a[0] == b[0] && b[0] == c[0] {
      LessTransitive(a[1..], b[1..], c[1..]);
    }
  }

  lemma {:induction false} LessTotal(a: string, b: string)
    ensures Less(a, b) || a == b || Less(b, a)
  {
    if a == [] || b == [] {
    } else if a[0] == b[0] {
      LessTotal(a[1..], b[1..]);
      assert a == [a[0]] + a[1..] && b == [b[0]] + b[1..];
    }
  }

  lemma LessAsymmetric(a: string, b: string)
    requires Less(a, b)
    ensures !Less(b, a)
  {
    if Less(b, a) {
      LessTransitive(a, b, a);
      LessIrreflexive(a);
    }
  }

  /** Comparing two strings that start with equally long parts compares those parts first. */
  lemma {:induction false} LessOfConcat(p: string, q: string, s: string, t: string)
    requires |p| == |q|
    ensures Less(p + s, q + t) <==> Less(p, q) || (p == q && Less(s, t))
  {
    if p == [] {
      assert p + s == s && q + t == t;
    } else {
      assert (p + s)[1..] == p[1..] + s && (q + t)[1..] == q[1..] + t;
      LessOfConcat(p[1..], q[1..], s, t);
      assert p == [p[0]] + p[1..] && q == [q[0]] + q[1..];
    }
  }

  /** Bytes the UTF-8 encoding of `s` takes: what Rust's `str::len` counts. */
  function Utf8Len(s: string): nat {
    if s == [] then 0
    else (var c := s[0] as int;
          if c < 0x80 then 1 else if c < 0x800 then 2 else if c < 0x1_0000 then 3 else 4)
         + Utf8Len(s[1..])
  }

  lemma AtMostIsNotMore(a: string, b: string)
    ensures AtMost(a, b) <==> !Less(b, a)
  {
    LessTotal(a, b);
    LessIrreflexive(a);
    if Less(a, b) {
      LessAsymmetric(a, b);
    }
  }

  // ---- the bytes ----------------------------------------------------------------------------

  /** The octets of one character, by the table of section 3 of RFC 3629. */
  function Octets(c: char): (r: seq<nat>)
    ensures 1 <= |r| <= 4
  {
    var n := c as int;
    if n < 0x80 then [n]
    else if n < 0x800 then [0xC0 + n / 0x40, 0x80 + n % 0x40]
    else if n < 0x1_0000 then [0xE0 + n / 0x1000, 0x80 + n / 0x40 % 0x40, 0x80 + n % 0x40]
    else [0xF0 + n / 0x4_0000, 0x80 + n / 0x1000 % 0x40, 0x80 + n / 0x40 % 0x40, 0x80 + n % 0x40]
  }

  function Utf8(s: string): seq<nat> {
    if s == [] then [] else Octets(s[0]) + Utf8(s[1..])
  }

  predicate LessBytes(a: seq<nat>, b: seq<nat>) {
    if b == [] then false
    else if a == [] then true
    else a[0] < b[0] || (a[0] == b[0] && LessBytes(a[1..], b[1..]))
  }

  /** The count is the number of octets. */
  lemma {:induction false} Utf8LenIsBytes(s: string)
    ensures Utf8Len(s) == |Utf8(s)|
  {
    if s == [] {
    } else {
      Utf8LenIsBytes(s[1..]);
    }
  }

  lemma {:induction false} LessAt(a: seq<nat>, b: seq<nat>, i: nat)
    requires i < |a| && i < |b| && a[i] < b[i] && forall j :: 0 <= j < i ==> a[j] == b[j]
    ensures LessBytes(a, b)
  {
    if i == 0 {
    } else {
      LessAt(a[1..], b[1..], i - 1);
    }
  }

  lemma SixBitGroups(n: nat)
    ensures n == 0x40 * (n / 0x40) + n % 0x40
    ensures n / 0x40 == 0x40 * (n / 0x1000) + n / 0x40 % 0x40
    ensures n / 0x1000 == 0x40 * (n / 0x4_0000) + n / 0x1000 % 0x40
  {
    assert n / 0x40 / 0x40 == n / 0x1000;
    assert n / 0x1000 / 0x40 == n / 0x4_0000;
  }

  /** The lead octet tells how many octets there are, and more octets have a higher one. */
  lemma LeadOctet(c: char)
    ensures match |Octets(c)|
      case 1 => Octets(c)[0] < 0x80
      case 2 => 0xC0 <= Octets(c)[0] < 0xE0
      case 3 => 0xE0 <= Octets(c)[0] < 0xF0
      case _ => 0xF0 <= Octets(c)[0]
  {
  }

  /** Two characters are told apart by an octet both have, and by it in their own order. */
  lemma OctetsDiffer(c: char, d: char) returns (i: nat)
    requires c < d
    ensures i < |Octets(c)| && i < |Octets(d)| && Octets(c)[i] < Octets(d)[i]
    ensures forall j :: 0 <= j < i ==> Octets(c)[j] == Octets(d)[j]
  {
    LeadOctet(c);
    LeadOctet(d);
    SixBitGroups(c as int);
    SixBitGroups(d as int);
    var a, b := Octets(c), Octets(d);
    if |a| != |b| || a[0] != b[0] {
      i := 0;
    } else if a[1] != b[1] {
      i := 1;
    } else if a[2] != b[2] {
      i := 2;
    } else {
      i := 3;
    }
  }

  lemma OctetsOrder(c: char, d: char, x: seq<nat>, y: seq<nat>)
    requires c < d
    ensures LessBytes(Octets(c) + x, Octets(d) + y) && !LessBytes(Octets(d) + y, Octets(c) + x)
  {
    var i := OctetsDiffer(c, d);
    LessAt(Octets(c) + x, Octets(d) + y, i);
    NotLessAt(Octets(d) + y, Octets(c) + x, i);
  }

  lemma {:induction false} NotLessAt(a: seq<nat>, b: seq<nat>, i: nat)
    requires i < |a| && i < |b| && a[i] > b[i] && forall j :: 0 <= j < i ==> a[j] == b[j]
    ensures !LessBytes(a, b)
  {
    if i == 0 {
    } else {
      NotLessAt(a[1..], b[1..], i - 1);
    }
  }

  lemma {:induction false} LessBytesBehind(p: seq<nat>, x: seq<nat>, y: seq<nat>)
    ensures LessBytes(p + x, p + y) <==> LessBytes(x, y)
  {
    if p == [] {
      assert p + x == x && p + y == y;
    } else {
      assert (p + x)[1..] == p[1..] + x && (p + y)[1..] == p[1..] + y;
      LessBytesBehind(p[1..], x, y);
    }
  }

  /** Comparing characters is comparing the octets of the encodings. */
  lemma {:induction false} LessIsByteOrder(a: string, b: string)
    ensures Less(a, b) <==> LessBytes(Utf8(a), Utf8(b))
  {
    if a == [] || b == [] {
    } else if a[0] == b[0] {
      LessIsByteOrder(a[1..], b[1..]);
      LessBytesBehind(Octets(a[0]), Utf8(a[1..]), Utf8(b[1..]));
    } else if a[0] < b[0] {
      OctetsOrder(a[0], b[0], Utf8(a[1..]), Utf8(b[1..]));
    } else {
      OctetsOrder(b[0], a[0], Utf8(b[1..]), Utf8(a[1..]));
    }
  }
}
