/**
 * Character and byte helpers shared by the model: the ASCII part of Rust's
 * `str::to_uppercase`, the ASCII part of `str::trim`, and `join`.
 */
module Text {

  /** One byte of a C character buffer (`c_char` read as `u8`). */
  type Byte = b: int | 0 <= b < 256

  /** ASCII upper-casing of one character; every other character is kept. */
  function UpperChar(c: char): char
  {
    if 'a' <= c <= 'z' then (c as int - 32) as char else c
  }

  /** `s.to_uppercase()`, restricted to the ASCII letters. */
  function Upper(s: string): (r: string)
    ensures |r| == |s|
    ensures forall i :: 0 <= i < |s| ==> r[i] == UpperChar(s[i])
  {
    if s == [] then [] else [UpperChar(s[0])] + Upper(s[1..])
  }

  /** Upper-casing twice is upper-casing once. */
  lemma {:induction false} UpperIdempotent(s: string)
    ensures Upper(Upper(s)) == Upper(s)
  {
    if s != [] {
      UpperIdempotent(s[1..]);
      assert Upper(s)[1..] == Upper(s[1..]);
    }
  }

  /** Upper-casing distributes over concatenation. */
  lemma {:induction false} UpperAppend(a: string, b: string)
    ensures Upper(a + b) == Upper(a) + Upper(b)
  {
    if a != [] {
      assert (a + b)[1..] == a[1..] + b;
      UpperAppend(a[1..], b);
    }
  }

  /** The bytes that Rust's `char::is_whitespace` accepts below 0x80. */
  predicate IsSpace(b: Byte)
  {
    (9 <= b <= 13) || b == 32
  }

  /** Drops leading whitespace bytes. */
  function TrimStart(s: seq<Byte>): (r: seq<Byte>)
    ensures |r| <= |s| && r == s[|s| - |r|..]
    ensures r == [] || !IsSpace(r[0])
    ensures forall i :: 0 <= i < |s| - |r| ==> IsSpace(s[i])
  {
    if s != [] && IsSpace(s[0]) then TrimStart(s[1..]) else s
  }

  /** Drops trailing whitespace bytes. */
  function TrimEnd(s: seq<Byte>): (r: seq<Byte>)
    ensures |r| <= |s| && r == s[..|r|]
    ensures r == [] || !IsSpace(r[|r| - 1])
    ensures forall i :: |r| <= i < |s| ==> IsSpace(s[i])
  {
    if s != [] && IsSpace(s[|s| - 1]) then TrimEnd(s[..|s| - 1]) else s
  }

  /** `str::trim` on ASCII text: the longest infix with no whitespace at either end. */
  function Trim(s: seq<Byte>): (r: seq<Byte>)
  {
    TrimEnd(TrimStart(s))
  }

  /** The bounds of the infix that Trim keeps. */
  lemma TrimBounds(s: seq<Byte>) returns (lo: nat, hi: nat)
    ensures lo <= hi <= |s| && Trim(s) == s[lo..hi]
    ensures forall i :: 0 <= i < lo ==> IsSpace(s[i])
    ensures forall i :: hi <= i < |s| ==> IsSpace(s[i])
  {
    var a := TrimStart(s);
    lo := |s| - |a|;
    hi := lo + |TrimEnd(a)|;
    forall i | hi <= i < |s|
      ensures IsSpace(s[i])
    {
      assert s[i] == a[i - lo];
    }
  }

  /**
   * What Trim returns: an infix s[lo..hi] whose ends are not whitespace, and
   * everything cut away on either side is whitespace.
   */
  lemma TrimIsInfix(s: seq<Byte>)
    ensures exists lo, hi :: 0 <= lo <= hi <= |s| && Trim(s) == s[lo..hi]
              && (forall i :: 0 <= i < lo ==> IsSpace(s[i]))
              && (forall i :: hi <= i < |s| ==> IsSpace(s[i]))
    ensures Trim(s) == [] || (!IsSpace(Trim(s)[0]) && !IsSpace(Trim(s)[|Trim(s)| - 1]))
  {
    var lo, hi := TrimBounds(s);
    var a := TrimStart(s);
    var r := Trim(s);
    if r != [] {
      assert r[0] == a[0];
    }
  }

  /** Trimming text that is already trimmed changes nothing. */
  lemma TrimIdempotent(s: seq<Byte>)
    ensures Trim(Trim(s)) == Trim(s)
  {
    var r := Trim(s);
    TrimIsInfix(s);
    if r != [] {
      assert TrimStart(r) == r;
      assert TrimEnd(r) == r;
    }
  }

  /** The bytes read back as characters (exact for ASCII text). */
  function Decode(bs: seq<Byte>): (r: string)
    ensures |r| == |bs|
    ensures forall i :: 0 <= i < |bs| ==> r[i] as int == bs[i]
  {
    if bs == [] then [] else [bs[0] as char] + Decode(bs[1..])
  }

  /** `items.join(sep)`: the items with `sep` between consecutive ones. */
  function Join(items: seq<string>, sep: string): (r: string)
  {
    if |items| == 0 then ""
    else if |items| == 1 then items[0]
    else items[0] + sep + Join(items[1..], sep)
  }

  /** `s.split(sep)`: the pieces between separators, empty pieces included. */
  function Split(s: string, sep: char): (r: seq<string>)
    ensures |r| >= 1
  {
    if s == [] then [""]
    else if s[0] == sep then [""] + Split(s[1..], sep)
    else var rest := Split(s[1..], sep); [[s[0]] + rest[0]] + rest[1..]
  }

  /** A piece that holds no separator splits to itself. */
  lemma {:induction false} SplitNoSeparator(a: string, sep: char)
    requires sep !in a
    ensures Split(a, sep) == [a]
  {
    if a != [] {
      SplitNoSeparator(a[1..], sep);
      assert [a[0]] + a[1..] == a;
    }
  }

  /** Splitting `a + [sep] + b` cuts at the separator that follows `a`. */
  lemma {:induction false} SplitAtSeparator(a: string, sep: char, b: string)
    requires sep !in a
    ensures Split(a + [sep] + b, sep) == [a] + Split(b, sep)
  {
    if a == [] {
      assert a + [sep] + b == [sep] + b;
      assert ([sep] + b)[1..] == b;
    } else {
      var s := a + [sep] + b;
      assert s[0] == a[0] && s[1..] == a[1..] + [sep] + b;
      SplitAtSeparator(a[1..], sep, b);
      assert [a[0]] + a[1..] == a;
    }
  }

  /** Join and Split are inverse when no item holds the separator. */
  lemma {:induction false} SplitJoin(items: seq<string>, sep: char)
    requires |items| >= 1
    requires forall i :: 0 <= i < |items| ==> sep !in items[i]
    ensures Split(Join(items, [sep]), sep) == items
  {
    if |items| == 1 {
      SplitNoSeparator(items[0], sep);
    } else {
      SplitAtSeparator(items[0], sep, Join(items[1..], [sep]));
      SplitJoin(items[1..], sep);
      assert [items[0]] + items[1..] == items;
    }
  }
}
