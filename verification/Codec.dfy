/** The nibble codec that carries byte buffers through the string-valued key-value store. */
module Codec {
  type Byte = bv8

  function LowDigit(b: Byte): Byte {
    (b & 0xF) + 97
  }

  function HighDigit(b: Byte): Byte {
    ((b >> 4) & 0xF) + 97
  }

  function Undigits(low: Byte, high: Byte): Byte {
    ((high - 97) << 4) | (low - 97)
  }

  lemma DigitsInvert(b: Byte)
    ensures Undigits(LowDigit(b), HighDigit(b)) == b
    ensures 97 <= LowDigit(b) <= 112 && 97 <= HighDigit(b) <= 112
  {}

  /** The digits are the letters 'a' to 'p' for the low and the high four bits. */
  lemma DigitNumbers(b: Byte)
    ensures LowDigit(b) == 97 + b % 16 && HighDigit(b) == 97 + b / 16
  {}

  lemma UndigitNumbers(low: Byte, high: Byte)
    requires 97 <= low <= 112 && 97 <= high <= 112
    ensures Undigits(low, high) == 16 * (high - 97) + (low - 97)
  {}

  function Encode(s: seq<Byte>): (e: seq<Byte>)
    ensures |e| == 2 * |s|
  {
    if |s| == 0 then [] else Encode(s[..|s| - 1]) + [LowDigit(s[|s| - 1]), HighDigit(s[|s| - 1])]
  }

  function Decode(e: seq<Byte>): (s: seq<Byte>)
    ensures |s| == |e| / 2
  {
    seq(|e| / 2, i requires 0 <= i < |e| / 2 => Undigits(e[2 * i], e[2 * i + 1]))
  }

  lemma {:induction false} EncodeDigits(s: seq<Byte>, i: nat)
    requires i < |s|
    ensures Encode(s)[2 * i] == LowDigit(s[i]) && Encode(s)[2 * i + 1] == HighDigit(s[i])
  {
    hide LowDigit, HighDigit;
    if i < |s| - 1 {
      EncodeDigits(s[..|s| - 1], i);
    }
  }

  /** Where the two digits of a byte are, and which letters they are. */
  lemma EncodeAt(s: seq<Byte>, i: nat)
    requires i < |s|
    ensures Encode(s)[2 * i] == 97 + s[i] % 16 && Encode(s)[2 * i + 1] == 97 + s[i] / 16
  {
    EncodeDigits(s, i);
    DigitNumbers(s[i]);
    hide Encode, LowDigit, HighDigit;
  }

  /** Round trip: decoding an encoding gives the bytes back. */
  lemma {:induction false} DecodeEncode(s: seq<Byte>)
    ensures Decode(Encode(s)) == s
  {
    if |s| > 0 {
      var n := |s| - 1;
      DecodeEncode(s[..n]);
      DigitsInvert(s[n]);
      hide LowDigit, HighDigit, Undigits;
      DecodeSnoc(Encode(s[..n]), LowDigit(s[n]), HighDigit(s[n]));
      assert s == s[..n] + [s[n]];
    }
  }

  lemma DecodeSnoc(e: seq<Byte>, low: Byte, high: Byte)
    requires |e| % 2 == 0
    ensures Decode(e + [low, high]) == Decode(e) + [Undigits(low, high)]
  {
    hide Undigits;
  }

  /** An encoding is a proper C string: it contains no terminator. */
  lemma {:induction false} EncodeHasNoNul(s: seq<Byte>)
    ensures forall k :: 0 <= k < |Encode(s)| ==> Encode(s)[k] != 0
  {
    hide LowDigit, HighDigit;
    if |s| > 0 {
      EncodeHasNoNul(s[..|s| - 1]);
      DigitsInvert(s[|s| - 1]);
    }
  }

  lemma EncodeInjective(s: seq<Byte>, t: seq<Byte>)
    requires Encode(s) == Encode(t)
    ensures s == t
  {
    DecodeEncode(s);
    DecodeEncode(t);
  }

  lemma EncodeNone(s: seq<Byte>)
    requires |s| == 0
    ensures Encode(s) == []
  {}

  lemma EncodeSnoc(s: seq<Byte>, b: Byte)
    ensures Encode(s + [b]) == Encode(s) + [LowDigit(b), HighDigit(b)]
  {
    assert (s + [b])[..|s|] == s;
  }

  /** `encode`: a zero-terminated buffer. */
  method EncodeBuffer(buf: array<Byte>) returns (ebuf: array<Byte>)
    ensures fresh(ebuf) && ebuf[..] == Encode(buf[..]) + [0]
    ensures ebuf.Length == 2 * buf.Length + 1
    ensures forall i :: 0 <= i < buf.Length ==> ebuf[2 * i] == 97 + buf[i] % 16 && ebuf[2 * i + 1] == 97 + buf[i] / 16
  {
    hide LowDigit, HighDigit, Encode;
    var len := buf.Length;
    EncodeNone(buf[..0]);
    ebuf := new Byte[2 * len + 1](i => 0);
    for i := 0 to len
      invariant ebuf[..2 * i] == Encode(buf[..i])
      invariant ebuf[2 * len] == 0
    {
      ebuf[2 * i] := LowDigit(buf[i]);
      ebuf[2 * i + 1] := HighDigit(buf[i]);
      EncodeSnoc(buf[..i], buf[i]);
      assert buf[..i + 1] == buf[..i] + [buf[i]];
      assert ebuf[..2 * i + 2] == ebuf[..2 * i] + [LowDigit(buf[i]), HighDigit(buf[i])];
    }
    ebuf[2 * len] := 0;
    assert buf[..len] == buf[..];
    forall i | 0 <= i < len ensures ebuf[2 * i] == 97 + buf[i] % 16 && ebuf[2 * i + 1] == 97 + buf[i] / 16 {
      EncodeAt(buf[..], i);
      assert ebuf[..][2 * i] == ebuf[2 * i] && ebuf[..][2 * i + 1] == ebuf[2 * i + 1];
    }
  }

  /** The number of bytes before the first zero byte. */
  ghost predicate StringLength(ebuf: seq<Byte>, len: nat) {
    && len < |ebuf|
    && ebuf[len] == 0
    && forall k :: 0 <= k < len ==> ebuf[k] != 0
  }

  /** `decode`: the reported length is the length of the encoded string, not of the decoded bytes. */
  method DecodeBuffer(ebuf: array<Byte>, ghost len: nat) returns (buf: array<Byte>, outlen: nat)
    requires StringLength(ebuf[..], len)
    ensures fresh(buf) && outlen == len && buf[..] == Decode(ebuf[..len])
    ensures buf.Length == len / 2
    ensures forall i :: 0 <= i < buf.Length && 97 <= ebuf[2 * i] <= 112 && 97 <= ebuf[2 * i + 1] <= 112 ==>
              buf[i] == 16 * (ebuf[2 * i + 1] - 97) + (ebuf[2 * i] - 97)
  {
    hide Undigits;
    outlen := 0;
    while ebuf[outlen] != 0
      invariant outlen <= len
      decreases len - outlen
    {
      assert ebuf[..][outlen] == ebuf[outlen];
      outlen := outlen + 1;
    }
    buf := new Byte[outlen / 2];
    for i := 0 to outlen / 2
      invariant forall k :: 0 <= k < i ==> buf[k] == Undigits(ebuf[2 * k], ebuf[2 * k + 1])
    {
      buf[i] := Undigits(ebuf[2 * i], ebuf[2 * i + 1]);
    }
    assert buf[..] == Decode(ebuf[..len]);
    forall i | 0 <= i < buf.Length && 97 <= ebuf[2 * i] <= 112 && 97 <= ebuf[2 * i + 1] <= 112
      ensures buf[i] == 16 * (ebuf[2 * i + 1] - 97) + (ebuf[2 * i] - 97)
    {
      UndigitNumbers(ebuf[2 * i], ebuf[2 * i + 1]);
    }
  }

  /** The number of bytes `gni_pmi_receive` copies, given the length `decode` reports. */
  function CopyCount(outlen: nat, len: nat): nat {
    if outlen < len then outlen else len
  }

  /**
   * The copy stays inside the decoded bytes exactly when the receiver asks for no more than was sent, or nothing
   * was sent.
   */
  lemma CopyInBounds(sent: nat, len: nat)
    ensures CopyCount(2 * sent, len) <= sent <==> len <= sent || sent == 0
  {}

  /**
   * `gni_pmi_receive` of a stored value that fits its buffer. The bytes sent arrive, and nothing else changes, if and
   * only if as many were sent as are asked for, or none; otherwise `memcpy` would run past the decoded bytes.
   */
  method Receive(value: seq<Byte>, ghost sent: seq<Byte>, buffer: array<Byte>, offset: nat, len: nat)
    returns (inBounds: bool)
    requires value == Encode(sent) && |sent| <= len && offset + len <= buffer.Length
    modifies buffer
    ensures inBounds <==> |sent| == len || |sent| == 0
    ensures inBounds ==> buffer[..] == old(buffer[..offset]) + sent + old(buffer[offset + |sent|..])
    ensures !inBounds ==> buffer[..] == old(buffer[..])
  {
    hide Encode, Decode;
    var keyval := new Byte[2 * len + 1](i => 0);
    for i := 0 to |value|
      invariant forall k :: 0 <= k < i ==> keyval[k] == value[k]
      invariant forall k :: i <= k <= 2 * len ==> keyval[k] == 0
      invariant buffer[..] == old(buffer[..])
    {
      keyval[i] := value[i];
    }
    assert keyval[..|value|] == value;
    EncodeHasNoNul(sent);
    assert StringLength(keyval[..], |value|) by {
      assert forall k :: 0 <= k < |value| ==> keyval[..][k] == value[k];
    }
    var data, outlen := DecodeBuffer(keyval, |value|);
    assert keyval[..][..|value|] == value;
    DecodeEncode(sent);
    CopyInBounds(|sent|, len);
    var count := CopyCount(outlen, len);
    inBounds := count <= data.Length;
    if inBounds {
      for i := 0 to count
        invariant forall k :: 0 <= k < i ==> buffer[offset + k] == sent[k]
        invariant forall k :: 0 <= k < buffer.Length && !(offset <= k < offset + i) ==> buffer[k] == old(buffer[k])
        invariant data[..] == sent
      {
        assert data[..][i] == data[i];
        buffer[offset + i] := data[i];
      }
    }
  }
}
