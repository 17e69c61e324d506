/**
 UTF-8, as Python's `bytes(s, "utf-8")` and strict `str(b, "utf-8")` apply
 it at the C boundary: a string is encoded scalar by scalar, and decoding
 accepts exactly the well-formed byte sequences of table 3-7 of the Unicode
 Standard (no overlong forms, no surrogates, nothing above U+10FFFF),
 failing with UnicodeDecodeError otherwise.
 */
module Utf8 {
  import opened Common

  /** A Unicode scalar value: what a Dafny `char` holds. */
  predicate IsScalar(cp: int) {
    0 <= cp < 0xD800 || 0xE000 <= cp < 0x11_0000
  }

  predicate IsContinuation(b: byte) {
    0x80 <= b <= 0xBF
  }

  /** The encoding of one scalar: one to four bytes, the first telling the length. */
  function EncodeScalar(cp: int): (r: Bytes)
    requires IsScalar(cp)
    ensures 1 <= |r| <= 4
    ensures |r| == 1 <==> cp < 0x80
    ensures |r| == 1 ==> r[0] == cp
    ensures |r| > 1 ==> forall i | 0 <= i < |r| :: r[i] >= 0x80
  {
    if cp < 0x80 then [cp]
    else if cp < 0x800 then [0xC0 + cp / 64, 0x80 + cp % 64]
    else if cp < 0x1_0000 then [0xE0 + cp / 4096, 0x80 + (cp / 64) % 64, 0x80 + cp % 64]
    else [0xF0 + cp / 262144, 0x80 + (cp / 4096) % 64, 0x80 + (cp / 64) % 64, 0x80 + cp % 64]
  }

  /** `bytes(s, "utf-8")`. */
  function Encode(s: string): (r: Bytes)
    ensures |r| >= |s|
  {
    if s == [] then [] else EncodeScalar(s[0] as int) + Encode(s[1..])
  }

  /**
   The scalar at the head of a non-empty byte string and how many bytes it
   takes, or None when the head is not well formed.
   */
  function DecodeHead(bs: Bytes): (r: Option<(int, nat)>)
    requires |bs| > 0
    ensures r.Some? ==> IsScalar(r.value.0) && 1 <= r.value.1 <= |bs| && r.value.1 <= 4
    ensures r.Some? ==> (r.value.1 == 1 <==> bs[0] < 0x80)
  {
    var b0: int := bs[0];
    if b0 < 0x80 then Some((b0, 1))
    else if 0xC2 <= b0 <= 0xDF then
      if |bs| >= 2 && IsContinuation(bs[1]) then Some(((b0 - 0xC0) * 64 + (bs[1] as int - 0x80), 2)) else None
    else if 0xE0 <= b0 <= 0xEF then
      var lo := if b0 == 0xE0 then 0xA0 else 0x80;
      var hi := if b0 == 0xED then 0x9F else 0xBF;
      if |bs| >= 3 && lo <= bs[1] <= hi && IsContinuation(bs[2]) then
        Some(((b0 - 0xE0) * 4096 + (bs[1] as int - 0x80) * 64 + (bs[2] as int - 0x80), 3))
      else None
    else if 0xF0 <= b0 <= 0xF4 then
      var lo := if b0 == 0xF0 then 0x90 else 0x80;
      var hi := if b0 == 0xF4 then 0x8F else 0xBF;
      if |bs| >= 4 && lo <= bs[1] <= hi && IsContinuation(bs[2]) && IsContinuation(bs[3]) then
        Some(((b0 - 0xF0) * 262144 + (bs[1] as int - 0x80) * 4096 + (bs[2] as int - 0x80) * 64 + (bs[3] as int - 0x80), 4))
      else None
    else None
  }

  /** Strict `str(bs, "utf-8")`: None stands for UnicodeDecodeError. */
  function Decode(bs: Bytes): Option<string>
    decreases |bs|
  {
    if bs == [] then Some([])
    else match DecodeHead(bs)
      case None => None
      case Some(head) =>
        match Decode(bs[head.1..])
        case None => None
        case Some(rest) => Some([head.0 as char] + rest)
  }

  // ----------------------------------------------------------------------
  // Properties

  /** Decoding the head of an encoded scalar gives the scalar back, with the encoding's length. */
  lemma DecodeEncodedHead(cp: int, rest: Bytes)
    requires IsScalar(cp)
    ensures DecodeHead(EncodeScalar(cp) + rest) == Some((cp, |EncodeScalar(cp)|))
  {
    if cp < 0x80 {
    } else if cp < 0x800 {
      DecodeTwo(cp, rest);
    } else if cp < 0x1_0000 {
      DecodeThree(cp, rest);
    } else {
      DecodeFour(cp, rest);
    }
  }

  lemma DecodeTwo(cp: int, rest: Bytes)
    requires 0x80 <= cp < 0x800
    ensures DecodeHead(EncodeScalar(cp) + rest) == Some((cp, 2))
  {
    var d0, t := cp % 64, cp / 64;
    assert cp == t * 64 + d0;
    assert 2 <= t < 32;
    var bs := EncodeScalar(cp) + rest;
    assert bs[0] == 0xC0 + t && bs[1] == 0x80 + d0;
  }

  lemma DecodeThree(cp: int, rest: Bytes)
    requires 0x800 <= cp < 0x1_0000 && IsScalar(cp)
    ensures DecodeHead(EncodeScalar(cp) + rest) == Some((cp, 3))
  {
    var d0, t := cp % 64, cp / 64;
    var d1, t2 := t % 64, t / 64;
    assert t == t2 * 64 + d1;
    assert cp == t2 * 4096 + d1 * 64 + d0;
    assert t2 == cp / 4096;
    assert t2 < 16;
    assert t2 == 0 ==> d1 >= 32;
    assert t2 == 13 ==> d1 < 32;
    var bs := EncodeScalar(cp) + rest;
    assert bs[0] == 0xE0 + t2 && bs[1] == 0x80 + d1 && bs[2] == 0x80 + d0;
  }

  lemma DecodeFour(cp: int, rest: Bytes)
    requires 0x1_0000 <= cp < 0x11_0000
    ensures DecodeHead(EncodeScalar(cp) + rest) == Some((cp, 4))
  {
    var d0, t := cp % 64, cp / 64;
    var d1, t2 := t % 64, t / 64;
    var d2, t3 := t2 % 64, t2 / 64;
    assert t == t2 * 64 + d1;
    assert t2 == t3 * 64 + d2;
    assert cp == t3 * 262144 + d2 * 4096 + d1 * 64 + d0;
    assert t2 == cp / 4096;
    assert t3 == cp / 262144;
    assert 0 <= t3 <= 4;
    assert t3 == 4 ==> d2 < 16;
    assert t3 == 0 ==> d2 >= 16;
    var bs := EncodeScalar(cp) + rest;
    assert bs[0] == 0xF0 + t3 && bs[1] == 0x80 + d2 && bs[2] == 0x80 + d1 && bs[3] == 0x80 + d0;
  }

  /** Decoding inverts encoding on every string. */
  lemma {:induction false} DecodeEncode(s: string)
    ensures Decode(Encode(s)) == Some(s)
  {
    if s != [] {
      var e := EncodeScalar(s[0] as int);
      var bs := e + Encode(s[1..]);
      DecodeEncodedHead(s[0] as int, Encode(s[1..]));
      assert bs[|e|..] == Encode(s[1..]);
      DecodeEncode(s[1..]);
      assert [s[0]] + s[1..] == s;
    }
  }

  /** Decoding an encoded scalar followed by more bytes: the scalar, then the rest. */
  lemma DecodeScalarThen(cp: int, rest: Bytes)
    requires IsScalar(cp)
    ensures Decode(rest).None? ==> Decode(EncodeScalar(cp) + rest).None?
    ensures Decode(rest).Some? ==> Decode(EncodeScalar(cp) + rest) == Some([cp as char] + Decode(rest).value)
  {
    var e := EncodeScalar(cp);
    DecodeEncodedHead(cp, rest);
    assert (e + rest)[|e|..] == rest;
  }

  /** Decoding an encoding followed by more bytes decodes the string, then the bytes after it. */
  lemma {:induction false} DecodeAppend(s: string, t: Bytes)
    ensures Decode(t).None? ==> Decode(Encode(s) + t).None?
    ensures Decode(t).Some? ==> Decode(Encode(s) + t) == Some(s + Decode(t).value)
  {
    if s == [] {
      assert Encode(s) + t == t;
      if Decode(t).Some? {
        assert s + Decode(t).value == Decode(t).value;
      }
    } else {
      DecodeAppend(s[1..], t);
      var rest := Encode(s[1..]) + t;
      assert Encode(s) + t == EncodeScalar(s[0] as int) + rest;
      DecodeScalarThen(s[0] as int, rest);
      ConsDecoded(s, Decode(t), Decode(rest), Decode(Encode(s) + t));
    }
  }

  /** The inductive step of `DecodeAppend`, on the decoded values alone. */
  lemma ConsDecoded(s: string, tail: Option<string>, rest: Option<string>, whole: Option<string>)
    requires s != []
    requires tail.None? ==> rest.None?
    requires tail.Some? ==> rest == Some(s[1..] + tail.value)
    requires rest.None? ==> whole.None?
    requires rest.Some? ==> whole == Some([s[0]] + rest.value)
    ensures tail.None? ==> whole.None?
    ensures tail.Some? ==> whole == Some(s + tail.value)
  {
    if tail.Some? {
      assert [s[0]] + (s[1..] + tail.value) == s + tail.value;
    }
  }

  /** The encoding holds a zero byte exactly when the string holds NUL. */
  lemma {:induction false} EncodeZero(s: string)
    ensures 0 in Encode(s) <==> '\0' in s
  {
    if s != [] {
      EncodeZero(s[1..]);
      assert s == [s[0]] + s[1..];
      var e := EncodeScalar(s[0] as int);
      assert 0 in e <==> s[0] == '\0';
    }
  }
}
