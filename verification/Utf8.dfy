/**
 Error messages cut to a byte limit without breaking UTF-8
 (truncateJobError in internal/repository/jobs/lease.go).

 Byte sequences are those of section 4 of RFC 3629. The decoder works forwards, the cut
 backwards: it drops bytes from the end for as long as the last rune is not whole, looking back
 at most four bytes to find where that rune starts.
 */
module Utf8 {

  newtype byte = x: int | 0 <= x < 256
  type Bytes = seq<byte>

  const MAX_JOB_ERROR_MESSAGE_LENGTH: nat := 4096

  predicate Continues(b: byte) {
    0x80 <= b <= 0xBF
  }

  predicate TailIs(s: Bytes, from: nat, width: nat) {
    width <= |s| && forall i :: from <= i < width ==> Continues(s[i])
  }

  /** The width of the rune that s starts with, or 0 if it starts with none (RFC 3629, section 4). */
  function Width(s: Bytes): (w: nat)
    ensures w <= 4 && w <= |s|
    ensures forall i :: 1 <= i < w ==> Continues(s[i])
    ensures 0 < w ==> !Continues(s[0])
  {
    if s == [] then 0
    else if s[0] <= 0x7F then 1
    else if 0xC2 <= s[0] <= 0xDF then (if TailIs(s, 1, 2) then 2 else 0)
    else if s[0] == 0xE0 then (if TailIs(s, 1, 3) && 0xA0 <= s[1] then 3 else 0)
    else if s[0] == 0xED then (if TailIs(s, 1, 3) && s[1] <= 0x9F then 3 else 0)
    else if 0xE1 <= s[0] <= 0xEF then (if TailIs(s, 1, 3) then 3 else 0)
    else if s[0] == 0xF0 then (if TailIs(s, 1, 4) && 0x90 <= s[1] then 4 else 0)
    else if 0xF1 <= s[0] <= 0xF3 then (if TailIs(s, 1, 4) then 4 else 0)
    else if s[0] == 0xF4 then (if TailIs(s, 1, 4) && s[1] <= 0x8F then 4 else 0)
    else 0
  }

  /** The code point that s starts with (section 3 of RFC 3629). */
  function CodePoint(s: Bytes): (c: int)
    requires Width(s) != 0
  {
    match Width(s)
    case 1 => s[0] as int
    case 2 => (s[0] as int - 0xC0) * 0x40 + (s[1] as int - 0x80)
    case 3 => (s[0] as int - 0xE0) * 0x1000 + (s[1] as int - 0x80) * 0x40 + (s[2] as int - 0x80)
    case _ => (s[0] as int - 0xF0) * 0x4_0000 + (s[1] as int - 0x80) * 0x1000
              + (s[2] as int - 0x80) * 0x40 + (s[3] as int - 0x80)
  }

  /** A Unicode scalar value (section 3 of RFC 3629). */
  predicate Scalar(c: int) {
    0 <= c <= 0x10_FFFF && !(0xD800 <= c <= 0xDFFF)
  }

  function Tail(c: int, shift: int): (b: byte)
    requires 0 <= c && 0 < shift
  {
    (0x80 + c / shift % 0x40) as byte
  }

  /** The bytes of a scalar value. */
  function Encoding(c: int): (s: Bytes)
    requires Scalar(c)
  {
    if c < 0x80 then [c as byte]
    else if c < 0x800 then [(0xC0 + c / 0x40) as byte, Tail(c, 1)]
    else if c < 0x1_0000 then [(0xE0 + c / 0x1000) as byte, Tail(c, 0x40), Tail(c, 1)]
    else [(0xF0 + c / 0x4_0000) as byte, Tail(c, 0x1000), Tail(c, 0x40), Tail(c, 1)]
  }

  lemma Digit(a: int, b: int)
    requires 0 <= a && 0 <= b < 0x40
    ensures (a * 0x40 + b) / 0x40 == a && (a * 0x40 + b) % 0x40 == b
  {
  }

  lemma Digits(c: int)
    requires 0 <= c
    ensures c / 0x1000 == c / 0x40 / 0x40 && c / 0x4_0000 == c / 0x40 / 0x40 / 0x40
    ensures c == c / 0x40 * 0x40 + c % 0x40
  {
  }

  /** The digits of a code point, most significant first, and back. */
  lemma ThreeDigits(a: int, b: int, d: int, c: int)
    requires 0 <= a && 0 <= b < 0x40 && 0 <= d < 0x40 && c == a * 0x1000 + b * 0x40 + d
    ensures c / 0x1000 == a && c / 0x40 % 0x40 == b && c % 0x40 == d
  {
    Digits(c);
    Digit(a * 0x40 + b, d);
    Digit(a, b);
  }

  lemma FourDigits(a: int, b: int, d: int, e: int, c: int)
    requires 0 <= a && 0 <= b < 0x40 && 0 <= d < 0x40 && 0 <= e < 0x40
    requires c == a * 0x4_0000 + b * 0x1000 + d * 0x40 + e
    ensures c / 0x4_0000 == a && c / 0x1000 % 0x40 == b && c / 0x40 % 0x40 == d && c % 0x40 == e
  {
    Digits(c);
    Digit((a * 0x40 + b) * 0x40 + d, e);
    Digit(a * 0x40 + b, d);
    Digit(a, b);
  }

  /** A rune is the encoding of exactly one scalar value. */
  lemma RuneIsEncoding(s: Bytes)
    requires Width(s) != 0
    ensures Scalar(CodePoint(s)) && s[..Width(s)] == Encoding(CodePoint(s))
  {
    var c := CodePoint(s);
    if Width(s) == 2 {
      Digit(s[0] as int - 0xC0, s[1] as int - 0x80);
      assert Encoding(c) == [s[0], s[1]];
    } else if Width(s) == 3 {
      ThreeDigits(s[0] as int - 0xE0, s[1] as int - 0x80, s[2] as int - 0x80, c);
      assert Encoding(c) == [s[0], s[1], s[2]];
    } else if Width(s) == 4 {
      FourDigits(s[0] as int - 0xF0, s[1] as int - 0x80, s[2] as int - 0x80, s[3] as int - 0x80, c);
      assert Encoding(c) == [s[0], s[1], s[2], s[3]];
    }
  }

  /** And every encoding is a rune, whatever follows. */
  lemma EncodingIsRune(c: int, rest: Bytes)
    requires Scalar(c)
    ensures Width(Encoding(c) + rest) == |Encoding(c)| && CodePoint(Encoding(c) + rest) == c
  {
    if 0x1_0000 <= c {
      FourBytes(c, rest);
    } else if 0x800 <= c {
      ThreeBytes(c, rest);
    } else {
      Digits(c);
      var s := Encoding(c) + rest;
      assert 0x80 <= c ==> s[0] == (0xC0 + c / 0x40) as byte && s[1] == Tail(c, 1);
    }
  }

  lemma ThreeBytes(c: int, rest: Bytes)
    requires Scalar(c) && 0x800 <= c < 0x1_0000
    ensures Width(Encoding(c) + rest) == 3 && CodePoint(Encoding(c) + rest) == c
  {
    Digits(c);
    Digits(c / 0x40);
    var s := Encoding(c) + rest;
    assert s[0] == (0xE0 + c / 0x1000) as byte && s[1] == Tail(c, 0x40) && s[2] == Tail(c, 1);
  }

  lemma FourBytes(c: int, rest: Bytes)
    requires Scalar(c) && 0x1_0000 <= c
    ensures Width(Encoding(c) + rest) == 4 && CodePoint(Encoding(c) + rest) == c
  {
    Digits(c);
    Digits(c / 0x40);
    Digits(c / 0x1000);
    var s := Encoding(c) + rest;
    assert s[0] == (0xF0 + c / 0x4_0000) as byte && s[1] == Tail(c, 0x1000) && s[2] == Tail(c, 0x40) && s[3] == Tail(c, 1);
  }

  predicate Valid(s: Bytes) {
    s == [] || (0 < Width(s) && Valid(s[Width(s)..]))
  }

  /** Drops every byte that does not belong to a rune. */
  function Clean(s: Bytes): (r: Bytes) {
    if s == [] then []
    else if Width(s) == 0 then Clean(s[1..])
    else s[..Width(s)] + Clean(s[Width(s)..])
  }

  /** The whole runes at the start of s that fit in n bytes. */
  function Cut(s: Bytes, n: nat): (r: Bytes)
    decreases |s|
  {
    if s == [] || Width(s) == 0 || n < Width(s) then [] else s[..Width(s)] + Cut(s[Width(s)..], n - Width(s))
  }

  function Truncate(s: Bytes): (r: Bytes) {
    Cut(Clean(s), MAX_JOB_ERROR_MESSAGE_LENGTH)
  }

  // ---------------------------------------------------------------- the decoder

  /** A rune is decided by its own bytes, whatever follows. */
  lemma WidthIsLocal(s: Bytes, t: Bytes)
    requires 0 < Width(s) && s[..Width(s)] <= t
    ensures Width(t) == Width(s)
  {
    var w := Width(s);
    assert forall i :: 0 <= i < w ==> t[i] == s[..w][i] == s[i];
  }

  lemma ShorterIsNoRune(s: Bytes, n: nat)
    requires 0 < n < Width(s)
    ensures Width(s[..n]) == 0
  {
    if 0 < Width(s[..n]) {
      WidthIsLocal(s[..n], s);
    }
  }

  lemma {:induction false} ValidConcat(a: Bytes, b: Bytes)
    requires Valid(a)
    ensures Valid(a + b) <==> Valid(b)
    decreases |a|
  {
    hide Width;
    if a == [] {
      assert a + b == b;
    } else {
      var w := Width(a);
      WidthIsLocal(a, a + b);
      ValidConcat(a[w..], b);
      assert (a + b)[w..] == a[w..] + b;
    }
  }

  // ---------------------------------------------------------------- cleaning

  lemma {:induction false} CleanIsValid(s: Bytes)
    ensures Valid(Clean(s))
    decreases |s|
  {
    hide Width;
    if s != [] && Width(s) == 0 {
      CleanIsValid(s[1..]);
    } else if s != [] {
      var w := Width(s);
      CleanIsValid(s[w..]);
      WidthIsLocal(s, Clean(s));
      assert Clean(s)[w..] == Clean(s[w..]);
    }
  }

  /** Cleaning keeps every valid part as it is, so a genuine U+FFFD (EF BF BD) stays. */
  lemma {:induction false} CleanKeepsValid(a: Bytes, b: Bytes)
    requires Valid(a)
    ensures Clean(a + b) == a + Clean(b)
    decreases |a|
  {
    hide Width;
    if a == [] {
      assert a + b == b;
    } else {
      var w := Width(a);
      WidthIsLocal(a, a + b);
      CleanKeepsValid(a[w..], b);
      assert (a + b)[w..] == a[w..] + b && (a + b)[..w] == a[..w] && a == a[..w] + a[w..];
    }
  }

  /** Exactly the valid strings are left alone. */
  lemma CleanFixesExactlyValid(s: Bytes)
    ensures Clean(s) == s <==> Valid(s)
  {
    CleanIsValid(s);
    if Valid(s) {
      CleanKeepsValid(s, []);
      assert s + [] == s;
    }
  }

  // ---------------------------------------------------------------- cutting

  lemma {:induction false} CutIsPrefix(s: Bytes, n: nat)
    requires Valid(s)
    ensures Valid(Cut(s, n)) && Cut(s, n) <= s && |Cut(s, n)| <= n
    ensures |s| <= n ==> Cut(s, n) == s
    decreases |s|
  {
    hide Width;
    if s != [] && Width(s) <= n {
      var w := Width(s);
      CutIsPrefix(s[w..], n - w);
      assert s == s[..w] + s[w..];
      WidthIsLocal(s, Cut(s, n));
      assert Cut(s, n)[w..] == Cut(s[w..], n - w);
    }
  }

  /** What is left out of the limit is less than the next rune. */
  lemma {:induction false} CutIsTight(s: Bytes, n: nat)
    requires Valid(s) && n <= |s|
    ensures var k := |Cut(s, n)|; k <= n <= k + 3 && (k < n ==> n - k < Width(s[k..]))
    decreases |s|
  {
    hide Width;
    if s != [] && Width(s) <= n {
      var w := Width(s);
      CutIsTight(s[w..], n - w);
      var k := |Cut(s[w..], n - w)|;
      assert s[w..][k..] == s[w + k..];
    }
  }

  /** Of all valid prefixes within the limit, the cut is the longest. */
  lemma {:induction false} CutIsLongest(s: Bytes, n: nat, p: Bytes)
    requires Valid(s) && Valid(p) && p <= s && |p| <= n
    ensures p <= Cut(s, n)
    decreases |s|
  {
    hide Width;
    if p != [] {
      var w := Width(p);
      WidthIsLocal(p, s);
      assert p[w..] <= s[w..];
      CutIsLongest(s[w..], n - w, p[w..]);
      assert p == s[..w] + p[w..];
    }
  }

  /** The message that is stored: the longest valid prefix of the cleaned message within the
      limit, short of it by at most three bytes, and the message itself when that is valid and
      fits. */
  lemma TruncateIsLongestPrefix(s: Bytes, p: Bytes)
    ensures Valid(Truncate(s)) && Truncate(s) <= Clean(s) && |Truncate(s)| <= MAX_JOB_ERROR_MESSAGE_LENGTH
    ensures Valid(p) && p <= Clean(s) && |p| <= MAX_JOB_ERROR_MESSAGE_LENGTH ==> p <= Truncate(s)
    ensures |Clean(s)| <= MAX_JOB_ERROR_MESSAGE_LENGTH ==> Truncate(s) == Clean(s)
    ensures MAX_JOB_ERROR_MESSAGE_LENGTH < |Clean(s)| ==> MAX_JOB_ERROR_MESSAGE_LENGTH - 3 <= |Truncate(s)|
    ensures Truncate(s) == s <==> Valid(s) && |s| <= MAX_JOB_ERROR_MESSAGE_LENGTH
  {
    CleanIsValid(s);
    CutIsPrefix(Clean(s), MAX_JOB_ERROR_MESSAGE_LENGTH);
    if MAX_JOB_ERROR_MESSAGE_LENGTH < |Clean(s)| { CutIsTight(Clean(s), MAX_JOB_ERROR_MESSAGE_LENGTH); }
    if Valid(p) && p <= Clean(s) && |p| <= MAX_JOB_ERROR_MESSAGE_LENGTH {
      CutIsLongest(Clean(s), MAX_JOB_ERROR_MESSAGE_LENGTH, p);
    }
    CleanFixesExactlyValid(s);
  }

  /** Truncating twice is truncating once: a replayed command hashes and stores the same text. */
  lemma TruncateIsIdempotent(s: Bytes)
    ensures Truncate(Truncate(s)) == Truncate(s)
  {
    TruncateIsLongestPrefix(s, []);
    TruncateIsLongestPrefix(Truncate(s), []);
  }

  // ---------------------------------------------------------------- looking back

  /** The last place from i down to lim that does not continue a rune, or the one before lim. */
  function RuneStart(s: Bytes, i: int, lim: int): (start: int)
    requires 0 <= lim && lim - 1 <= i < |s|
    ensures lim - 1 <= start <= i
    ensures forall k :: start < k <= i ==> k < lim || Continues(s[k])
    ensures lim <= start ==> !Continues(s[start])
    decreases i
  {
    if i < lim then lim - 1 else if !Continues(s[i]) then i else RuneStart(s, i - 1, lim)
  }

  function LookBack(end: nat): (lim: nat) {
    if end < 4 then 0 else end - 4
  }

  /** Whether decoding the last rune gives a rune, and not the error that stands for one byte. */
  predicate EndsWhole(s: Bytes)
    requires s != []
  {
    s[|s| - 1] < 0x80
    || (var found := RuneStart(s, |s| - 2, LookBack(|s|));
        var start := if found < 0 then 0 else found;
        Width(s[start..]) == |s| - start)
  }

  lemma {:induction false} LastRune(s: Bytes) returns (j: nat)
    requires Valid(s) && s != []
    ensures j < |s| && Valid(s[..j]) && Width(s[j..]) == |s| - j
    decreases |s|
  {
    hide Width;
    var w := Width(s);
    if w == |s| {
      assert s[0..] == s;
      return 0;
    }
    var rest := LastRune(s[w..]);
    j := w + rest;
    assert s[w..][rest..] == s[j..];
    assert s[..j][w..] == s[w..][..rest];
    WidthIsLocal(s, s[..j]);
  }

  lemma StartIs(s: Bytes, j: nat, i: int, lim: nat)
    requires lim <= j <= i < |s| && !Continues(s[j]) && forall k :: j < k <= i ==> Continues(s[k])
    ensures RuneStart(s, i, lim) == j
  {
  }

  lemma SingleByteRune(s: Bytes)
    requires Width(s) == 1
    ensures s[0] < 0x80
  {
  }

  lemma ValidIsWhole(s: Bytes)
    requires s != [] && Valid(s)
    ensures EndsWhole(s)
  {
    hide Width, Valid;
    var end := |s|;
    var j := LastRune(s);
    assert forall i :: j <= i < end ==> s[j..][i - j] == s[i];
    if 0x80 <= s[end - 1] {
      if j == end - 1 { SingleByteRune(s[j..]); }
      StartIs(s, j, end - 2, LookBack(end));
    }
  }

  /** Whole runes and a lead byte: the look-back finds the rune before, which ends too early. */
  lemma LeadIsNotWhole(s: Bytes)
    requires 2 <= |s| && Valid(s[..|s| - 1]) && 0xC2 <= s[|s| - 1]
    ensures !EndsWhole(s)
  {
    hide Width, Valid;
    var k := |s| - 1;
    var j := LastRune(s[..k]);
    assert forall i :: j <= i < k ==> s[..k][j..][i - j] == s[i];
    WidthIsLocal(s[..k][j..], s[j..]);
    if LookBack(|s|) <= j {
      StartIs(s, j, |s| - 2, LookBack(|s|));
    }
  }

  /** Whole runes, then the beginning of one: the last rune is whole exactly when the beginning
      is empty. */
  lemma WholeExactly(s: Bytes, k: nat)
    requires s != [] && k <= |s| <= k + 3 && Valid(s[..k])
    requires k < |s| ==> Width(s[k..]) == 0 && 0xC2 <= s[k] && forall i :: k < i < |s| ==> Continues(s[i])
    ensures EndsWhole(s) <==> |s| == k
  {
    hide Width, Valid;
    if k == |s| {
      assert s[..k] == s;
      ValidIsWhole(s);
    } else if k + 1 < |s| {
      StartIs(s, k, |s| - 2, LookBack(|s|));
    } else if 0 < k {
      LeadIsNotWhole(s);
    } else {
      assert s[0..] == s;
    }
  }

  // ---------------------------------------------------------------- the loop

  /** A rune's first byte, unless the rune is that byte alone, is a lead byte. */
  lemma PartialRune(s: Bytes, n: nat)
    requires 0 < n < Width(s)
    ensures Width(s[..n]) == 0 && 0xC2 <= s[0] && forall i :: 0 < i < n ==> Continues(s[i])
  {
    ShorterIsNoRune(s, n);
  }

  method TruncateJobError(message: Bytes) returns (truncated: Bytes)
    ensures truncated == Truncate(message)
  {
    var cleaned := Clean(message);
    CleanIsValid(message);
    CutIsPrefix(cleaned, MAX_JOB_ERROR_MESSAGE_LENGTH);
    if |cleaned| <= MAX_JOB_ERROR_MESSAGE_LENGTH {
      return cleaned;
    }
    ghost var k := |Truncate(message)|;
    CutIsTight(cleaned, MAX_JOB_ERROR_MESSAGE_LENGTH);
    assert cleaned[..k] == Truncate(message);
    truncated := cleaned[..MAX_JOB_ERROR_MESSAGE_LENGTH];
    while truncated != []
      invariant k <= |truncated| <= MAX_JOB_ERROR_MESSAGE_LENGTH && truncated == cleaned[..|truncated|]
      decreases |truncated|
    {
      PrefixShape(cleaned, k, truncated);
      WholeExactly(truncated, k);
      if EndsWhole(truncated) {
        break;
      }
      truncated := truncated[..|truncated| - 1];
    }
  }

  /** Between the cut and the limit a prefix is whole runes and the beginning of one. */
  lemma PrefixShape(s: Bytes, k: nat, t: Bytes)
    requires k <= |t| <= |s| && t == s[..|t|] && Valid(s[..k])
    requires k < |t| ==> |t| - k < Width(s[k..])
    ensures Valid(t[..k]) && |t| <= k + 3
    ensures k < |t| ==> Width(t[k..]) == 0 && 0xC2 <= t[k] && forall i :: k < i < |t| ==> Continues(t[i])
  {
    assert t[..k] == s[..k];
    if k < |t| {
      var rest := s[k..];
      assert t[k..] == rest[..|t| - k];
      PartialRune(rest, |t| - k);
      assert forall i :: k <= i < |t| ==> t[i] == rest[i - k];
    }
  }
}
