/**
 The decimal writer of the malloc interposer: it writes a number into a buffer of limited
 length, front digits first, and is used to build a message about the size of a request.
 */
module AppendNumber {
  import opened Arithmetic

  const NUL := 0
  const ZERO := 48   // '0'
  const SIZE_VALUES := 0x1_0000_0000_0000_0000

  /** Decimal digits, front digit first. */
  function Digits(n: nat): (s: seq<nat>)
    ensures |s| >= 1 && forall i :: 0 <= i < |s| ==> s[i] <= 9
  {
    if n <= 9 then [n] else Digits(n / 10) + [n % 10]
  }

  function Value(s: seq<nat>): nat {
    if s == [] then 0 else 10 * Value(s[..|s| - 1]) + s[|s| - 1]
  }

  function Pow10(k: nat): (p: nat)
    ensures p >= 1
  {
    if k == 0 then 1 else 10 * Pow10(k - 1)
  }

  /** Loop of `malloc` that counts the bits of the size. */
  function BitLength(n: nat): nat {
    if n == 0 then 0 else 1 + BitLength(n / 2)
  }

  function Min(a: nat, b: nat): nat {
    if a < b then a else b
  }

  lemma {:induction false} DivTwice(n: nat, p: nat)
    requires p >= 1
    ensures n / (10 * p) == n / 10 / p
  {
    var q := n / 10 / p;
    var r := n - 10 * p * q;
    assert n / 10 == p * q + n / 10 % p;
    assert n == 10 * (n / 10) + n % 10;
    assert 10 * (p * q) == 10 * p * q == q * (10 * p);
    DivModUnique(n, 10 * p, q, r);
  }

  lemma {:induction false} AllDigits(n: nat)
    ensures Value(Digits(n)) == n
  {
    var s := Digits(n);
    if n <= 9 {
      assert s[..0] == [];
    } else {
      AllDigits(n / 10);
      assert s[..|s| - 1] == Digits(n / 10);
    }
  }

  /** A number without its last k digits. */
  function DropDigits(n: nat, k: nat): int {
    n / Pow10(k)
  }

  lemma DropOneMore(n: nat, k: nat)
    ensures DropDigits(n, k + 1) == DropDigits(n / 10, k)
    ensures DropDigits(n, 0) == n
  {
    DivTwice(n, Pow10(k));
  }

  /** The first m digits of a number are the number without its last digits. */
  lemma {:induction false} LeadingDigits(n: nat, m: nat)
    requires m <= |Digits(n)|
    ensures Value(Digits(n)[..m]) == DropDigits(n, |Digits(n)| - m)
  {
    var s := Digits(n);
    if m == |s| {
      AllDigits(n);
      DropOneMore(n, 0);
      assert s[..m] == s;
    } else if n <= 9 {
      DropOneMore(n, 0);
      DropOneMore(n / 10, 0);
      assert s[..0] == [];
    } else {
      var t := Digits(n / 10);
      LeadingDigits(n / 10, m);
      assert s[..m] == t[..m];
      DropOneMore(n, |t| - m);
    }
  }

  /** The digit of n with weight 10^j. */
  function DigitOf(n: nat, j: nat): int {
    n / Pow10(j) % 10
  }

  /** Digit i of a number, counted from the front, is what division says it is. */
  lemma {:induction false} DigitsAre(n: nat, i: nat)
    requires i < |Digits(n)|
    ensures Digits(n)[i] == DigitOf(n, |Digits(n)| - 1 - i)
  {
    var d := |Digits(n)|;
    DropOneMore(n, 0);
    if n <= 9 || i == d - 1 {
    } else {
      DigitsAre(n / 10, i);
      DropOneMore(n, d - 2 - i);
    }
  }

  /** There are as many digits as it takes, and no more. */
  lemma {:induction false} DigitCount(n: nat)
    ensures n < Pow10(|Digits(n)|) && (|Digits(n)| > 1 ==> Pow10(|Digits(n)| - 1) <= n)
  {
    if n > 9 { DigitCount(n / 10); }
  }

  lemma {:induction false} BitLengthMonotone(a: nat, b: nat)
    requires a <= b
    ensures BitLength(a) <= BitLength(b)
  {
    if a > 0 { BitLengthMonotone(a / 2, b / 2); }
  }

  /** A number has at least as many bits as decimal digits. */
  lemma {:induction false} DigitsFitBits(n: nat)
    requires n >= 1
    ensures |Digits(n)| <= BitLength(n)
  {
    if n > 9 {
      DigitsFitBits(n / 10);
      BitLengthMonotone(n / 10, n / 2);
    }
  }

  function Pow2(k: nat): nat {
    if k == 0 then 1 else 2 * Pow2(k - 1)
  }

  /** The loop counts the bits: the highest one has the number below the count. */
  lemma {:induction false} BitLengthIsBits(n: nat)
    requires n >= 1
    ensures BitLength(n) >= 1 && Pow2(BitLength(n) - 1) <= n < Pow2(BitLength(n))
  {
    if n > 1 { BitLengthIsBits(n / 2); }
  }

  lemma {:induction false} BitLengthBound(n: nat, k: nat)
    requires n < Pow2(k)
    ensures BitLength(n) <= k
  {
    if n > 0 { BitLengthBound(n / 2, k - 1); }
  }

  lemma EightMoreBits(k: nat)
    ensures Pow2(k + 8) == 256 * Pow2(k)
  {
    assert Pow2(k + 2) == 4 * Pow2(k);
    assert Pow2(k + 4) == 4 * Pow2(k + 2);
    assert Pow2(k + 6) == 4 * Pow2(k + 4);
    assert Pow2(k + 8) == 4 * Pow2(k + 6);
  }

  lemma SizeHas64Bits()
    ensures Pow2(64) == SIZE_VALUES
  {
    EightMoreBits(0);
    EightMoreBits(8);
    EightMoreBits(16);
    EightMoreBits(24);
    EightMoreBits(32);
    EightMoreBits(40);
    EightMoreBits(48);
    EightMoreBits(56);
  }

  /** The buffer after writing digits at dst: as many as fit, then a NUL if there is room. */
  function Written(buf: seq<int>, dst: nat, ds: seq<nat>, len: nat): (r: seq<int>)
    requires dst + len <= |buf|
    ensures |r| == |buf|
  {
    var m := Min(len, |ds|);
    seq(|buf|, i requires 0 <= i < |buf| =>
      if dst <= i < dst + m then ZERO + ds[i - dst]
      else if i == dst + m && m < len then NUL
      else buf[i])
  }

  /**
   `append_number`. `dst` is an index into the buffer. Only the first `len` bytes are written;
   they hold the leading digits, NUL-terminated exactly if there are fewer digits than bytes;
   the result points to that NUL, or else to the last digit.
   */
  method Append(buf: array<int>, dst: nat, number: nat, len: nat) returns (end: nat)
    requires dst + len <= buf.Length
    modifies buf
    ensures buf[..] == Written(old(buf[..]), dst, Digits(number), len)
    ensures len == 0 ==> end == dst
    ensures 0 < len <= |Digits(number)| ==> end == dst + len - 1
    ensures |Digits(number)| < len ==> end == dst + |Digits(number)|
    decreases number
  {
    if len == 0 {
      assert buf[..] == Written(buf[..], dst, Digits(number), 0);
      return dst;
    }
    ghost var start := buf[..];
    var at, left := dst, len;
    if number > 9 {
      var newDst := Append(buf, dst, number / 10, len);
      if buf[newDst] != NUL {
        assert buf[newDst] == buf[..][newDst];
        assert buf[..] == Written(start, dst, Digits(number), len);
        return newDst;
      }
      assert buf[newDst] == buf[..][newDst];
      left := left - (newDst - dst);
      at := newDst;
    }
    ghost var k := |Digits(number)| - 1;
    assert at == dst + k && left == len - k;
    if left > 0 {
      buf[at] := ZERO + number % 10;
    }
    left := left - 1;
    if left > 0 {
      at := at + 1;
      buf[at] := NUL;
    }
    assert buf[..] == Written(start, dst, Digits(number), len);
    end := at;
  }

  /** The digits that m bytes from dst on stand for. */
  function ReadDigits(buf: seq<int>, dst: nat, m: nat): (ds: seq<nat>)
    requires dst + m <= |buf|
    ensures |ds| == m
  {
    seq(m, i requires 0 <= i < m => if buf[dst + i] < ZERO then 0 else buf[dst + i] - ZERO)
  }

  lemma ReadWritten(buf: seq<int>, dst: nat, ds: seq<nat>, len: nat)
    requires dst + len <= |buf|
    ensures ReadDigits(Written(buf, dst, ds, len), dst, Min(len, |ds|)) == ds[..Min(len, |ds|)]
  {
  }

  /** What a reader finds: the number without the digits that did not fit. */
  lemma ReadBack(buf: seq<int>, dst: nat, number: nat, len: nat)
    requires dst + len <= |buf|
    ensures var ds := Digits(number);
            var m := Min(len, |ds|);
            Value(ReadDigits(Written(buf, dst, ds, len), dst, m)) == DropDigits(number, |ds| - m)
  {
    LeadingDigits(number, Min(len, |Digits(number)|));
    ReadWritten(buf, dst, Digits(number), len);
  }

  /** Byte i of those written is the character of digit i, as given by division. */
  lemma StoredDigit(buf: seq<int>, dst: nat, number: nat, len: nat, i: nat)
    requires dst + len <= |buf| && i < len && i < |Digits(number)|
    ensures Shows(Written(buf, dst, Digits(number), len), dst + i, DigitOf(number, |Digits(number)| - 1 - i))
  {
    DigitsAre(number, i);
    WrittenAt(buf, dst, Digits(number), len, i);
  }

  /** Behind the digits stands one NUL if there is room, and nothing else changes, least of all outside the room. */
  lemma StoredElsewhere(buf: seq<int>, dst: nat, ds: seq<nat>, len: nat, i: nat)
    requires dst + len <= |buf| && i < |buf|
    ensures var r := Written(buf, dst, ds, len);
            (i == dst + |ds| && |ds| < len ==> r[i] == 0) &&
            (i < dst || i >= dst + len || i > dst + |ds| ==> r[i] == buf[i])
  {
  }

  /** The byte is the character of the digit. */
  predicate Shows(buf: seq<int>, at: nat, digit: int) {
    at < |buf| && 48 <= buf[at] <= 57 && buf[at] == 48 + digit
  }

  lemma WrittenAt(buf: seq<int>, dst: nat, ds: seq<nat>, len: nat, i: nat)
    requires dst + len <= |buf| && i < len && i < |ds| && ds[i] <= 9
    ensures Shows(Written(buf, dst, ds, len), dst + i, ds[i])
  {
  }

  /** A NUL ends the number within its room exactly if there are fewer digits than bytes. */
  lemma TerminatedIffShorter(buf: seq<int>, dst: nat, ds: seq<nat>, len: nat)
    requires dst + len <= |buf|
    ensures |ds| < len <==> exists i :: dst <= i < dst + len && Written(buf, dst, ds, len)[i] == NUL
  {
    if |ds| < len { assert Written(buf, dst, ds, len)[dst + |ds|] == NUL; }
  }

  // ---------------------------------------------------------------- the message

  const ALLOCATING: seq<int> := Bytes("allocating")
  const BYTES: seq<int> := Bytes("bytes")

  function Bytes(s: string): (r: seq<int>)
    ensures |r| == |s|
  {
    seq(|s|, i requires 0 <= i < |s| => s[i] as int)
  }

  /** The buffer after `strncpy` of n bytes: the text, then NULs. */
  function Copied(buf: seq<int>, dst: nat, text: seq<int>, n: nat): (r: seq<int>)
    requires dst + n <= |buf|
    ensures |r| == |buf|
  {
    seq(|buf|, i requires 0 <= i < |buf| =>
      if dst <= i < dst + n then (if i - dst < |text| then text[i - dst] else NUL) else buf[i])
  }

  method CopyText(buf: array<int>, dst: nat, text: seq<int>, n: nat)
    requires dst + n <= buf.Length
    modifies buf
    ensures buf[..] == Copied(old(buf[..]), dst, text, n)
  {
    for i := 0 to n
      invariant buf[..] == Copied(old(buf[..]), dst, text, i)
    {
      buf[dst + i] := if i < |text| then text[i] else NUL;
    }
  }

  /** The whole buffer: text, digits, NULs up to the reserved length, text, NULs. */
  function Message(size: nat): seq<int>
    requires size < SIZE_VALUES
  {
    var zeros := seq(128, _ => NUL);
    var len := BitLength(size);
    BitLengthOfSize(size);
    Copied(Written(Copied(zeros, 0, ALLOCATING, 11), 10, Digits(size), len), 10 + len, BYTES, 6)
  }

  lemma BitLengthOfSize(size: nat)
    requires size < SIZE_VALUES
    ensures BitLength(size) <= 64
  {
    SizeHas64Bits();
    BitLengthBound(size, 64);
  }

  /** The message shows every digit of the size, as given by division. */
  lemma MessageDigit(size: nat, i: nat)
    requires 1 <= size < SIZE_VALUES && i < |Digits(size)|
    ensures Shows(Message(size), 10 + i, DigitOf(size, |Digits(size)| - 1 - i))
  {
    DigitsAre(size, i);
    MessageAt(size, i);
  }

  lemma MessageAt(size: nat, i: nat)
    requires 1 <= size < SIZE_VALUES && i < |Digits(size)|
    ensures Shows(Message(size), 10 + i, Digits(size)[i])
  {
    BitLengthOfSize(size);
    DigitsFitBits(size);
    WrittenAt(Copied(seq(128, _ => NUL), 0, ALLOCATING, 11), 10, Digits(size), BitLength(size), i);
  }

  /** No digit of a size is lost: for every size but 0 the reserved length holds the whole number. */
  lemma MessageShowsSize(size: nat)
    requires 1 <= size < SIZE_VALUES
    ensures |Message(size)| == 128 && |Digits(size)| <= BitLength(size) <= 64
    ensures Value(ReadDigits(Message(size), 10, |Digits(size)|)) == size
  {
    BitLengthOfSize(size);
    DigitsFitBits(size);
    AllDigits(size);
    assert ReadDigits(Message(size), 10, |Digits(size)|) == Digits(size);
  }

  /** Digits that the message shows: all of them, none for size 0. */
  function ShownDigits(size: nat): nat {
    if size == 0 then 0 else |Digits(size)|
  }

  /** For every size: the two words stand around the number, and everything else is NUL. */
  lemma MessageText(size: nat)
    requires size < SIZE_VALUES
    ensures var r, d, len := Message(size), ShownDigits(size), BitLength(size);
            |r| == 128 && d <= len <= 64 && (size == 0 ==> len == 0) &&
            r[..10] == ALLOCATING &&
            (forall i :: 10 + d <= i < 10 + len ==> r[i] == NUL) &&
            r[10 + len..15 + len] == BYTES &&
            (forall i :: 15 + len <= i < 128 ==> r[i] == NUL)
  {
    BitLengthOfSize(size);
    if size >= 1 { DigitsFitBits(size); }
  }

  /** The interposed `malloc`, up to the call of the real one. */
  method BuildMessage(size: nat) returns (buf: array<int>)
    requires size < SIZE_VALUES
    ensures fresh(buf) && buf[..] == Message(size)
  {
    buf := new int[128](_ => NUL);
    assert buf[..] == seq(128, _ => NUL);
    var len := 0;
    var i := size;
    while i > 0
      invariant len + BitLength(i) == BitLength(size)
    {
      len := len + 1;
      i := i / 2;
    }
    BitLengthOfSize(size);
    CopyText(buf, 0, ALLOCATING, 11);
    var _ := Append(buf, 10, size, len);
    CopyText(buf, 10 + len, BYTES, 6);
  }
}
