/** Cursors: a stream sequence as eight big-endian bytes. */
module Cursor {
  import opened Int64

  type Byte = x: int | 0 <= x < 256

  function Pow256(k: nat): nat {
    if k == 0 then 1 else 256 * Pow256(k - 1)
  }

  /** The low `width` base-256 digits of `n`, the most significant first. */
  function BigEndian(n: nat, width: nat): (s: seq<Byte>)
    ensures |s| == width
  {
    if width == 0 then [] else BigEndian(n / 256, width - 1) + [n % 256]
  }

  function Value(s: seq<Byte>): nat {
    if s == [] then 0 else 256 * Value(s[..|s| - 1]) + s[|s| - 1]
  }

  /** `cursorFromSeq`: fills a fresh buffer with the bytes of the sequence. */
  method CursorFromSeq(n: nat) returns (cursor: array<Byte>)
    requires n < TWO_TO_64
    ensures fresh(cursor) && cursor[..] == BigEndian(n, 8)
    ensures CursorToSeq(cursor[..]) == n
  {
    cursor := new Byte[8];
    var i, rest := 8, n;
    while i > 0
      invariant 0 <= i <= 8
      invariant BigEndian(rest, i) + cursor[i..] == BigEndian(n, 8)
    {
      i := i - 1;
      cursor[i] := rest % 256;
      rest := rest / 256;
    }
    CursorRoundTrip(n);
    assert cursor[0..] == cursor[..];
  }

  /** `cursorToSeq`: anything that is not eight bytes long counts as 0. */
  function CursorToSeq(cursor: seq<Byte>): nat {
    if |cursor| != 8 then 0 else Value(cursor)
  }

  lemma {:induction false} DigitsRoundTrip(n: nat, width: nat)
    requires n < Pow256(width)
    ensures Value(BigEndian(n, width)) == n
  {
    if width > 0 {
      DigitsRoundTrip(n / 256, width - 1);
      assert BigEndian(n, width)[..width - 1] == BigEndian(n / 256, width - 1);
    }
  }

  lemma {:induction false} BytesRoundTrip(s: seq<Byte>)
    ensures Value(s) < Pow256(|s|) && BigEndian(Value(s), |s|) == s
  {
    if s != [] {
      BytesRoundTrip(s[..|s| - 1]);
      assert s == s[..|s| - 1] + [s[|s| - 1]];
    }
  }

  /** The first byte has the greatest weight. */
  lemma {:induction false} FirstByteIsMostSignificant(b: Byte, s: seq<Byte>)
    ensures Value([b] + s) == b * Pow256(|s|) + Value(s) && Value(s) < Pow256(|s|)
  {
    BytesRoundTrip(s);
    if s == [] {
      assert [b] + s == [b] && [b][..0] == [];
    } else {
      var n := |s| - 1;
      FirstByteIsMostSignificant(b, s[..n]);
      assert ([b] + s)[..n + 1] == [b] + s[..n];
      assert b * Pow256(n + 1) == 256 * (b * Pow256(n));
    }
  }

  lemma Pow256Eight()
    ensures Pow256(8) == TWO_TO_64
  {
    assert Pow256(4) == 0x1_0000_0000;
  }

  /** Every 64-bit sequence survives the trip through its cursor. */
  lemma CursorRoundTrip(n: nat)
    requires n < TWO_TO_64
    ensures CursorToSeq(BigEndian(n, 8)) == n
  {
    Pow256Eight();
    DigitsRoundTrip(n, 8);
  }

  /** And every eight bytes are the cursor of exactly one 64-bit sequence. */
  lemma CursorBytesRoundTrip(cursor: seq<Byte>)
    requires |cursor| == 8
    ensures CursorToSeq(cursor) < TWO_TO_64 && BigEndian(CursorToSeq(cursor), 8) == cursor
  {
    Pow256Eight();
    BytesRoundTrip(cursor);
  }
}
