/**
 * The few C library string routines the backends rely on: `strstr`,
 * `strcmp`, `strncpy` into the 128-byte device path and `strtoul` in
 * base 16 followed by a cast to `uint16_t`.
 */
module CStrings {
  import opened SerTypes

  // ---------------------------------------------------------------------------
  // strstr
  // ---------------------------------------------------------------------------

  predicate OccursAt(s: string, pat: string, i: int)
  {
    0 <= i && i + |pat| <= |s| && s[i..i + |pat|] == pat
  }

  /** `strstr(s, pat)`: the index of the first occurrence of `pat`, if any. */
  function Find(s: string, pat: string): (r: Option<nat>)
    ensures r.Some? ==> OccursAt(s, pat, r.value)
    ensures r.Some? ==> forall j :: 0 <= j < r.value ==> !OccursAt(s, pat, j)
    ensures r.None? ==> forall j :: 0 <= j <= |s| ==> !OccursAt(s, pat, j)
    decreases |s|
  {
    if |pat| > |s| then None
    else if s[..|pat|] == pat then Some(0)
    else
      assert forall j :: 1 <= j <= |s| ==> (OccursAt(s, pat, j) <==> OccursAt(s[1..], pat, j - 1));
      match Find(s[1..], pat)
      case None => None
      case Some(k) => Some(k + 1)
  }

  /** `strstr` finds the occurrence that no earlier one precedes. */
  lemma FindFirst(s: string, pat: string, k: nat)
    requires OccursAt(s, pat, k)
    requires forall j :: 0 <= j < k ==> !OccursAt(s, pat, j)
    ensures Find(s, pat) == Some(k)
  {
  }

  /** An occurrence lying wholly inside `a` is one of `a + b` and conversely. */
  lemma OccursAtPrefix(a: string, b: string, pat: string, j: nat)
    requires j + |pat| <= |a|
    ensures OccursAt(a + b, pat, j) <==> OccursAt(a, pat, j)
  {
    assert (a + b)[j..j + |pat|] == a[j..j + |pat|];
  }

  /** `strchr`-like search for one character. */
  function FindChar(s: string, c: char): (r: Option<nat>)
    ensures r.Some? ==> r.value < |s| && s[r.value] == c
    ensures r.Some? ==> forall j :: 0 <= j < r.value ==> s[j] != c
    ensures r.None? ==> forall j :: 0 <= j < |s| ==> s[j] != c
  {
    if |s| == 0 then None
    else if s[0] == c then Some(0)
    else match FindChar(s[1..], c)
      case None => None
      case Some(k) => Some(k + 1)
  }

  // ---------------------------------------------------------------------------
  // NUL-terminated buffers
  // ---------------------------------------------------------------------------

  const NUL: char := 0 as char

  /** The C string held by a buffer: everything before the first NUL. */
  function CStr(buf: seq<char>): (s: string)
    ensures |s| <= |buf| && s == buf[..|s|]
    ensures NUL !in s
    ensures |s| < |buf| ==> buf[|s|] == NUL
  {
    match FindChar(buf, NUL)
    case None => buf
    case Some(k) => buf[..k]
  }

  /** A NUL-free prefix that ends at a NUL (or at the end) is the C string. */
  lemma CStrUnique(buf: seq<char>, s: string)
    requires |s| <= |buf| && s == buf[..|s|] && NUL !in s
    requires |s| < |buf| ==> buf[|s|] == NUL
    ensures CStr(buf) == s
  {
  }

  /** Writing a non-NUL character inside the C string changes only that character. */
  lemma CStrWrite(buf: seq<char>, i: nat, c: char)
    requires i < |CStr(buf)| && c != NUL
    ensures CStr(buf[i := c]) == CStr(buf)[i := c]
  {
    var s := CStr(buf)[i := c];
    assert forall j :: 0 <= j < |s| ==> s[j] != NUL;
    CStrUnique(buf[i := c], s);
  }

  /** Writing NUL at `i` inside the C string cuts it to its first `i` characters. */
  lemma CStrCut(buf: seq<char>, i: nat)
    requires i < |CStr(buf)|
    ensures CStr(buf[i := NUL]) == CStr(buf)[..i]
  {
    CStrUnique(buf[i := NUL], CStr(buf)[..i]);
  }

  /**
   * `strncpy(path, src, 128)` into a zeroed 128-byte path: the first 128
   * characters of `src`, without a terminator when `src` fills the field.
   */
  function CopyPath(src: string): (p: string)
    ensures |p| <= SER_DEV_PATH_SZ
    ensures |src| <= SER_DEV_PATH_SZ ==> p == src
    ensures p == src[..|p|]
  {
    if |src| <= SER_DEV_PATH_SZ then src else src[..SER_DEV_PATH_SZ]
  }

  // ---------------------------------------------------------------------------
  // strtoul(s, NULL, 16)
  // ---------------------------------------------------------------------------

  /** `unsigned long` is 32 bits wide on Windows and 64 bits on LP64 systems. */
  const ULONG32_LIMIT: nat := 0x1_0000_0000
  const ULONG64_LIMIT: nat := 0x1_0000_0000_0000_0000

  predicate IsULongLimit(limit: nat) { limit == ULONG32_LIMIT || limit == ULONG64_LIMIT }

  predicate IsSpace(c: char)
  {
    c == ' ' || c == '\t' || c == '\n' || c == '\r' || c == 11 as char || c == 12 as char
  }

  function HexDigit(c: char): (d: Option<nat>)
    ensures d.Some? ==> d.value < 16
  {
    if '0' <= c <= '9' then Some(c as int - '0' as int)
    else if 'a' <= c <= 'f' then Some(c as int - 'a' as int + 10)
    else if 'A' <= c <= 'F' then Some(c as int - 'A' as int + 10)
    else None
  }

  predicate IsHex(c: char) { HexDigit(c).Some? }

  predicate AllHex(ds: string) { forall i :: 0 <= i < |ds| ==> IsHex(ds[i]) }

  /** The number of leading characters of `s` satisfying `IsSpace`. */
  function SpaceRun(s: string): (n: nat)
    ensures n <= |s|
    ensures forall i :: 0 <= i < n ==> IsSpace(s[i])
    ensures n < |s| ==> !IsSpace(s[n])
  {
    if |s| > 0 && IsSpace(s[0]) then 1 + SpaceRun(s[1..]) else 0
  }

  /** The number of leading hexadecimal digits of `s`. */
  function HexRun(s: string): (n: nat)
    ensures n <= |s|
    ensures AllHex(s[..n])
    ensures n < |s| ==> !IsHex(s[n])
  {
    if |s| > 0 && IsHex(s[0]) then 1 + HexRun(s[1..]) else 0
  }

  /** The value of a string of hexadecimal digits, most significant first. */
  function HexValue(ds: string): nat
    requires AllHex(ds)
  {
    if |ds| == 0 then 0
    else 16 * HexValue(ds[..|ds| - 1]) + HexDigit(ds[|ds| - 1]).value
  }

  /** The index just past the white space and the optional sign. */
  function SignEnd(s: string): (j: nat)
    ensures j <= |s|
  {
    var i := SpaceRun(s);
    if i < |s| && (s[i] == '+' || s[i] == '-') then i + 1 else i
  }

  /** Whether a minus sign precedes the number. */
  predicate Negative(s: string)
  {
    var i := SpaceRun(s);
    i < |s| && s[i] == '-'
  }

  /** The index of the first digit: past a `0x`/`0X` prefix that is followed by a digit. */
  function DigitsStart(s: string): (k: nat)
    ensures k <= |s|
  {
    var j := SignEnd(s);
    if j + 2 < |s| && s[j] == '0' && (s[j + 1] == 'x' || s[j + 1] == 'X') && IsHex(s[j + 2])
    then j + 2 else j
  }

  /** The value of the digit run that `strtoul` consumes, before saturation and sign. */
  function Magnitude(s: string): nat
  {
    var k := DigitsStart(s);
    var n := HexRun(s[k..]);
    assert s[k..][..n] == s[k..k + n];
    HexValue(s[k..k + n])
  }

  /**
   * `strtoul(s, NULL, 16)` with an `unsigned long` of `limit` values: leading
   * white space, an optional sign, an optional `0x`/`0X` that is followed by a
   * digit, then the longest run of hexadecimal digits. A value that does not
   * fit saturates to ULONG_MAX; a minus sign negates modulo `limit`.
   */
  function Strtoul16(s: string, limit: nat): (r: nat)
    requires IsULongLimit(limit)
    ensures r < limit
    ensures Magnitude(s) >= limit ==> r == limit - 1
    ensures Magnitude(s) < limit && !Negative(s) ==> r == Magnitude(s)
    ensures Magnitude(s) < limit && Negative(s) ==> (r + Magnitude(s)) % limit == 0
  {
    var v := Magnitude(s);
    if v >= limit then limit - 1
    else if Negative(s) && v > 0 then limit - v
    else v
  }

  /** `(uint16_t)strtoul(s, NULL, 16)`. */
  function HexField(s: string, limit: nat): (r: uint16)
    requires IsULongLimit(limit)
    ensures Strtoul16(s, limit) < 0x1_0000 ==> r == Strtoul16(s, limit)
    ensures (r - Strtoul16(s, limit)) % 0x1_0000 == 0
  {
    ToUint16(Strtoul16(s, limit))
  }

  // ---------------------------------------------------------------------------
  // Properties of the hexadecimal conversion
  // ---------------------------------------------------------------------------

  /** A run of at most `n` digits is below 16^n; four digits fit 16 bits. */
  lemma {:induction false} HexValueBound(ds: string)
    requires AllHex(ds)
    ensures |ds| <= 4 ==> HexValue(ds) < UINT16_LIMIT
    ensures HexValue(ds) < Pow16(|ds|)
  {
    if |ds| > 0 {
      HexValueBound(ds[..|ds| - 1]);
    }
    if |ds| <= 4 {
      Pow16Monotone(|ds|, 4);
      assert Pow16(4) == UINT16_LIMIT;
    }
  }

  lemma {:induction false} Pow16Monotone(m: nat, n: nat)
    requires m <= n
    ensures Pow16(m) <= Pow16(n)
  {
    if m < n {
      Pow16Monotone(m, n - 1);
    }
  }

  function Pow16(n: nat): (p: nat)
    ensures p >= 1
  {
    if n == 0 then 1 else 16 * Pow16(n - 1)
  }

  /**
   * The common case of a USB identifier: a field made of up to four hex
   * digits followed by a non-digit reads back as the number those digits
   * spell, on either width of `unsigned long`.
   */
  lemma HexFieldOfDigits(ds: string, rest: string, limit: nat)
    requires IsULongLimit(limit)
    requires 1 <= |ds| <= 4 && AllHex(ds)
    requires !(ds == "0" && |rest| > 0 && (rest[0] == 'x' || rest[0] == 'X'))
    requires |rest| == 0 || !IsHex(rest[0])
    ensures HexField(ds + rest, limit) == HexValue(ds)
  {
    MagnitudeOfDigits(ds, rest);
    HexValueBound(ds);
  }

  /** Digits at the very start, not read as a `0x` prefix, are the whole magnitude, unsigned. */
  lemma MagnitudeOfDigits(ds: string, rest: string)
    requires |ds| >= 1 && AllHex(ds)
    requires !(ds == "0" && |rest| > 0 && (rest[0] == 'x' || rest[0] == 'X'))
    requires |rest| == 0 || !IsHex(rest[0])
    ensures Magnitude(ds + rest) == HexValue(ds) && !Negative(ds + rest)
  {
    var s := ds + rest;
    assert s[0] == ds[0] && IsHex(s[0]);
    assert SpaceRun(s) == 0 by { assert !IsSpace(s[0]); }
    assert SignEnd(s) == 0 && !Negative(s);
    assert DigitsStart(s) == 0 by {
      if |ds| >= 2 { assert s[1] == ds[1] && IsHex(s[1]); }
      else if |rest| > 0 { assert s[1] == rest[0]; }
    }
    HexRunOfDigits(ds, rest);
    assert s[0..] == s;
    assert s[0..0 + |ds|] == ds;
  }

  lemma {:induction false} HexRunOfDigits(ds: string, rest: string)
    requires AllHex(ds)
    requires |rest| == 0 || !IsHex(rest[0])
    ensures HexRun(ds + rest) == |ds|
  {
    if |ds| > 0 {
      assert (ds + rest)[1..] == ds[1..] + rest;
      HexRunOfDigits(ds[1..], rest);
    } else {
      assert ds + rest == rest;
    }
  }

  /** A field with no digit at all (a missing or empty property) reads as 0. */
  lemma HexFieldOfNonDigit(s: string, limit: nat)
    requires IsULongLimit(limit)
    requires |s| == 0 || (!IsHex(s[0]) && !IsSpace(s[0]) && s[0] != '+' && s[0] != '-')
    ensures HexField(s, limit) == 0
  {
    assert SpaceRun(s) == 0;
  }

  /** A value too large for `unsigned long` saturates, so the cast gives 0xFFFF. */
  lemma HexFieldSaturates(ds: string, limit: nat)
    requires IsULongLimit(limit)
    requires AllHex(ds) && |ds| > 0
    requires HexValue(ds) >= limit
    ensures HexField(ds, limit) == 0xFFFF
  {
    assert ds + [] == ds;
    MagnitudeOfDigits(ds, []);
    assert Strtoul16(ds, limit) == limit - 1;
    if limit == ULONG32_LIMIT {
      assert ToUint16(0xFFFF_FFFF) == 0xFFFF;
    } else {
      assert ToUint16(0xFFFF_FFFF_FFFF_FFFF) == 0xFFFF;
    }
  }

}
