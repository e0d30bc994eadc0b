/**
 * The engine-facing constants and the two string helpers of the FFI layer
 * (src/sys.rs): fixed-length, zero-padded character buffers as the Fortran
 * routines expect them, and their conversion back to trimmed text.
 */
module Sys {
  import opened Text

  /** Length of a short string argument (error messages, file names). */
  const RefpropStrLen: nat := 255
  /** Length of the pipe-separated fluid-file list. */
  const RefpropFileStr: nat := 10000
  /** Largest number of mixture components; sizes every composition array. */
  const RefpropNcMax: nat := 20

  /** How many bytes of `s` fit into a buffer of `maxLen` that keeps one terminating zero. */
  function CopyLen(s: seq<Byte>, maxLen: nat): (n: nat)
    requires maxLen >= 1
    ensures n <= |s| && n < maxLen
    ensures n == |s| || n == maxLen - 1
  {
    if |s| < maxLen - 1 then |s| else maxLen - 1
  }

  /** The buffer that `to_c_string(s, maxLen)` produces. */
  function CBuffer(s: seq<Byte>, maxLen: nat): (buf: seq<Byte>)
    requires maxLen >= 1
    ensures |buf| == maxLen
    ensures buf[maxLen - 1] == 0
  {
    var n := CopyLen(s, maxLen);
    s[..n] + seq(maxLen - n, _ => 0)
  }

  /**
   * `to_c_string`: allocates a zeroed buffer of `maxLen` bytes and copies in
   * as many bytes of `s` as fit before the last slot. `maxLen` must be at
   * least 1 (the source computes `max_len - 1`, which underflows at 0).
   */
  method ToCString(s: seq<Byte>, maxLen: nat) returns (buf: seq<Byte>)
    requires maxLen >= 1
    ensures |buf| == maxLen
    ensures forall i :: 0 <= i < CopyLen(s, maxLen) ==> buf[i] == s[i]
    ensures forall i :: CopyLen(s, maxLen) <= i < maxLen ==> buf[i] == 0
    ensures buf == CBuffer(s, maxLen)
  {
    var buffer := new Byte[maxLen](_ => 0);
    var copyLen := if |s| < maxLen - 1 then |s| else maxLen - 1;
    for i := 0 to copyLen
      invariant forall k :: 0 <= k < i ==> buffer[k] == s[k]
      invariant forall k :: i <= k < maxLen ==> buffer[k] == 0
    {
      buffer[i] := s[i];
    }
    buf := buffer[..];
  }

  /** The bytes before the first zero, or the whole buffer when it has none. */
  function TakeUntilNul(buf: seq<Byte>): (r: seq<Byte>)
    ensures |r| <= |buf| && r == buf[..|r|]
    ensures forall i :: 0 <= i < |r| ==> r[i] != 0
    ensures |r| < |buf| ==> buf[|r|] == 0
  {
    if buf == [] || buf[0] == 0 then [] else [buf[0]] + TakeUntilNul(buf[1..])
  }

  /** `from_c_string`: the bytes before the first zero, trimmed of surrounding whitespace. */
  function FromCString(buf: seq<Byte>): (r: seq<Byte>)
  {
    Trim(TakeUntilNul(buf))
  }

  /** A prefix with no zero byte, followed by a zero, is exactly what TakeUntilNul keeps. */
  lemma {:induction false} TakeUntilNulPrefix(s: seq<Byte>, rest: seq<Byte>)
    requires forall i :: 0 <= i < |s| ==> s[i] != 0
    requires rest == [] || rest[0] == 0
    ensures TakeUntilNul(s + rest) == s
  {
    if s != [] {
      assert (s + rest)[1..] == s[1..] + rest;
      TakeUntilNulPrefix(s[1..], rest);
    } else {
      assert s + rest == rest;
    }
  }

  /**
   * Round trip: reading back the buffer written for `s` gives the trimmed
   * part of `s` that fitted, provided that part holds no zero byte. When
   * `|s| < maxLen` the whole of `s` fits; otherwise the first `maxLen - 1`
   * bytes do.
   */
  lemma CStringRoundTrip(s: seq<Byte>, maxLen: nat)
    requires maxLen >= 1
    requires forall i :: 0 <= i < |s| && i < maxLen - 1 ==> s[i] != 0
    ensures FromCString(CBuffer(s, maxLen)) == Trim(s[..CopyLen(s, maxLen)])
    ensures |s| < maxLen ==> FromCString(CBuffer(s, maxLen)) == Trim(s)
    ensures |s| >= maxLen ==> FromCString(CBuffer(s, maxLen)) == Trim(s[..maxLen - 1])
  {
    var n := CopyLen(s, maxLen);
    TakeUntilNulPrefix(s[..n], seq(maxLen - n, _ => 0));
    assert s[..|s|] == s;
  }

  /** A buffer without any zero byte is read back whole, then trimmed. */
  lemma FullBufferReadsWhole(buf: seq<Byte>)
    requires forall i :: 0 <= i < |buf| ==> buf[i] != 0
    ensures FromCString(buf) == Trim(buf)
  {
    TakeUntilNulPrefix(buf, []);
    assert buf + [] == buf;
  }
}
