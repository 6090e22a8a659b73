/**
 * The parts of Go's `strings` and `strconv` packages the parse helpers rely on,
 * on byte strings. A Go `string` is a sequence of bytes, and converting it to
 * `[]byte` keeps those bytes, so both are `Bytes` here.
 */
module GoStrings {
  import opened Wrappers

  type byte = x: int | 0 <= x < 256
  type Bytes = seq<byte>

  const COLON: byte := ':' as int
  const PLUS: byte := '+' as int
  const MINUS: byte := '-' as int

  /** The range of Go's `int` on a 64-bit platform. */
  const MIN_INT: int := -0x8000_0000_0000_0000
  const MAX_INT: int := 0x7FFF_FFFF_FFFF_FFFF

  // ---------------------------------------------------------------------------
  // strings.Index with a one-byte separator

  /** The position of the first `c` in `s`, or -1 when there is none. */
  function IndexByte(s: Bytes, c: byte): (r: int)
    ensures -1 <= r < |s|
    ensures r == -1 <==> c !in s
    ensures 0 <= r ==> s[r] == c && c !in s[..r]
  {
    if |s| == 0 then -1
    else if s[0] == c then 0
    else
      var k := IndexByte(s[1..], c);
      assert 0 <= k ==> s[..k + 1] == [s[0]] + s[1..][..k];
      if k < 0 then -1 else k + 1
  }

  /** The first `c` of `a + [c] + b` is the one after `a` when `a` holds none. */
  lemma IndexByteAfter(a: Bytes, c: byte, b: Bytes)
    requires c !in a
    ensures IndexByte(a + [c] + b, c) == |a|
  {
    var s := a + [c] + b;
    assert s[|a|] == c;
  }

  // ---------------------------------------------------------------------------
  // strings.Split and strings.Join with a one-byte separator

  /** strings.Join: the parts with `sep` between each two. */
  function Join(parts: seq<Bytes>, sep: byte): Bytes
    requires |parts| >= 1
  {
    if |parts| == 1 then parts[0] else parts[0] + [sep] + Join(parts[1..], sep)
  }

  /**
   * strings.Split: the pieces of `s` between separators, in order. There is
   * always at least one piece (the empty string splits to [""]).
   */
  function Split(s: Bytes, sep: byte): (parts: seq<Bytes>)
    ensures |parts| >= 1
    decreases |s|
  {
    var i := IndexByte(s, sep);
    if i < 0 then [s] else [s[..i]] + Split(s[i + 1..], sep)
  }

  /** The pieces of a split hold no separator. */
  lemma {:induction false} SplitPiecesFree(s: Bytes, sep: byte)
    ensures forall i :: 0 <= i < |Split(s, sep)| ==> sep !in Split(s, sep)[i]
    decreases |s|
  {
    var i := IndexByte(s, sep);
    if i >= 0 {
      var rest := s[i + 1..];
      SplitPiecesFree(rest, sep);
      assert Split(s, sep) == [s[..i]] + Split(rest, sep);
    }
  }

  /** Joining one more part in front puts it and a separator before the rest. */
  lemma JoinCons(head: Bytes, parts: seq<Bytes>, sep: byte)
    requires |parts| >= 1
    ensures Join([head] + parts, sep) == head + [sep] + Join(parts, sep)
  {
  }

  /** A string is the text before index `i`, the byte at `i`, and the text after it. */
  lemma Around(s: Bytes, i: nat)
    requires i < |s|
    ensures s == s[..i] + [s[i]] + s[i + 1..]
  {
  }

  /** Joining the pieces of a split gives the string back. */
  lemma {:induction false} SplitJoinsBack(s: Bytes, sep: byte)
    ensures Join(Split(s, sep), sep) == s
    decreases |s|
  {
    if sep in s {
      var i := IndexByte(s, sep);
      var rest := s[i + 1..];
      Around(s, i);
      assert Split(s, sep) == [s[..i]] + Split(rest, sep);
      SplitJoinsBack(rest, sep);
      JoinCons(s[..i], Split(rest, sep), sep);
    } else {
      assert Split(s, sep) == [s];
    }
  }

  /** The first piece of a split is the text before the first separator. */
  lemma SplitFirstIsPrefix(s: Bytes, sep: byte)
    ensures Split(s, sep)[0] <= s && sep !in Split(s, sep)[0]
    ensures sep in s ==> |Split(s, sep)[0]| == IndexByte(s, sep)
  {
  }

  /** Splitting at a first separator gives the text before it, then the pieces of the rest. */
  lemma SplitAtFirst(a: Bytes, sep: byte, b: Bytes)
    requires sep !in a
    ensures Split(a + [sep] + b, sep) == [a] + Split(b, sep)
  {
    var s := a + [sep] + b;
    IndexByteAfter(a, sep, b);
    assert s[..|a|] == a && s[|a| + 1..] == b;
  }

  /** Splitting a join of separator-free parts gives those parts back. */
  lemma {:induction false} SplitJoin(parts: seq<Bytes>, sep: byte)
    requires |parts| >= 1
    requires forall i :: 0 <= i < |parts| ==> sep !in parts[i]
    ensures Split(Join(parts, sep), sep) == parts
  {
    if |parts| == 1 {
      assert sep !in Join(parts, sep);
    } else {
      var tail := Join(parts[1..], sep);
      SplitAtFirst(parts[0], sep, tail);
      SplitJoin(parts[1..], sep);
      assert parts == [parts[0]] + parts[1..];
    }
  }

  // ---------------------------------------------------------------------------
  // strconv.Atoi and its inverse on naturals

  predicate IsDigit(b: byte) {
    '0' as int <= b <= '9' as int
  }

  predicate AllDigits(ds: Bytes) {
    forall i :: 0 <= i < |ds| ==> IsDigit(ds[i])
  }

  /** The value of a run of decimal digits, accumulated left to right. */
  function DecimalValue(ds: Bytes): nat
    requires AllDigits(ds)
  {
    if |ds| == 0 then 0
    else DecimalValue(ds[..|ds| - 1]) * 10 + (ds[|ds| - 1] - '0' as int)
  }

  /** strconv.Itoa on a natural: its shortest decimal form. */
  function Itoa(n: nat): (ds: Bytes)
    ensures |ds| >= 1 && AllDigits(ds)
  {
    if n < 10 then [n + '0' as int]
    else Itoa(n / 10) + [n % 10 + '0' as int]
  }

  /**
   * strconv.Atoi for a 64-bit `int`: an optional sign followed by at least
   * one decimal digit, whose value lies in the range of `int`. Anything else
   * (empty, a lone sign, another byte, out of range) is an error.
   */
  function Atoi(s: Bytes): (r: Option<int>)
    ensures r.Some? ==> MIN_INT <= r.value <= MAX_INT
    ensures r.Some? ==> |s| >= 1
  {
    if |s| == 0 then None
    else
      var signed := s[0] == PLUS || s[0] == MINUS;
      var ds := if signed then s[1..] else s;
      if |ds| == 0 || !AllDigits(ds) then None
      else
        var v: int := if s[0] == MINUS then -(DecimalValue(ds) as int) else DecimalValue(ds);
        if MIN_INT <= v <= MAX_INT then Some(v) else None
  }

  /** Reading back the decimal form of a natural yields that natural. */
  lemma {:induction false} DecimalRoundTrip(n: nat)
    ensures DecimalValue(Itoa(n)) == n
  {
    if n >= 10 {
      var ds := Itoa(n);
      assert ds[..|ds| - 1] == Itoa(n / 10);
      DecimalRoundTrip(n / 10);
    }
  }

  /** Atoi inverts Itoa on every non-negative `int`. */
  lemma AtoiItoa(n: nat)
    requires n <= MAX_INT
    ensures Atoi(Itoa(n)) == Some(n)
  {
    DecimalRoundTrip(n);
  }

  /** Atoi reads a minus sign before a decimal form as a negative number, down to the least `int`. */
  lemma AtoiNegative(n: nat)
    requires n <= -MIN_INT
    ensures Atoi([MINUS] + Itoa(n)) == Some(-(n as int))
  {
    var s := [MINUS] + Itoa(n);
    assert s[1..] == Itoa(n);
    DecimalRoundTrip(n);
  }

  /** Atoi rejects a string with a byte that is neither a digit nor a leading sign. */
  lemma AtoiRejectsNonDigit(s: Bytes, i: nat)
    requires i < |s| && !IsDigit(s[i])
    requires i == 0 ==> s[0] != PLUS && s[0] != MINUS
    ensures Atoi(s) == None
  {
  }
}
