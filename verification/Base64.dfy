/** Base64 encoding of user data, against a decoder for the alphabet and padding of section 4 of RFC 4648. */
module Base64 {
  import opened Capacity

  type Byte = b: int | 0 <= b < 256

  /** The encoding table: A-Z, a-z, 0-9, + and /. */
  function Symbol(i: int): char
    requires 0 <= i < 64
  {
    if i < 26 then 'A' + i as char
    else if i < 52 then 'a' + (i - 26) as char
    else if i < 62 then '0' + (i - 52) as char
    else if i == 62 then '+'
    else '/'
  }

  /** The value of a symbol, 64 for characters outside the alphabet. */
  function Value(c: char): (i: int)
    ensures 0 <= i <= 64
  {
    if 'A' <= c <= 'Z' then (c - 'A') as int
    else if 'a' <= c <= 'z' then (c - 'a') as int + 26
    else if '0' <= c <= '9' then (c - '0') as int + 52
    else if c == '+' then 62
    else if c == '/' then 63
    else 64
  }

  lemma {:induction false} ValueOfSymbol(i: int)
    requires 0 <= i < 64
    ensures Value(Symbol(i)) == i && Symbol(i) != '='
  {
  }

  function Quad(a: Byte, b: Byte, c: Byte): string {
    [Symbol(a / 4), Symbol(a % 4 * 16 + b / 16), Symbol(b % 16 * 4 + c / 64), Symbol(c % 64)]
  }

  /** The last one or two bytes, padded. */
  function Tail(data: seq<Byte>): (s: string)
    requires 1 <= |data| <= 2
    ensures |s| == 4
  {
    if |data| == 1 then [Symbol(data[0] / 4), Symbol(data[0] % 4 * 16), '=', '=']
    else [Symbol(data[0] / 4), Symbol(data[0] % 4 * 16 + data[1] / 16), Symbol(data[1] % 16 * 4), '=']
  }

  function Encode(data: seq<Byte>): string {
    if |data| == 0 then ""
    else if |data| <= 2 then Tail(data)
    else Quad(data[0], data[1], data[2]) + Encode(data[3..])
  }

  /** The bytes a group of four symbols stands for. */
  function Group(s: string): Option<seq<Byte>>
    requires |s| == 4
  {
    var a, b, c, d := Value(s[0]), Value(s[1]), Value(s[2]), Value(s[3]);
    if a == 64 || b == 64 || c == 64 || d == 64 then None
    else Some([a * 4 + b / 16, b % 16 * 16 + c / 4, c % 4 * 64 + d])
  }

  /** A last group may end in one or two padding characters; the bits that stand for no byte must be zero. */
  function LastGroup(s: string): Option<seq<Byte>>
    requires |s| == 4
  {
    var a, b, c := Value(s[0]), Value(s[1]), Value(s[2]);
    if s[3] != '=' then Group(s)
    else if a == 64 || b == 64 then None
    else if s[2] == '=' then if b % 16 == 0 then Some([a * 4 + b / 16]) else None
    else if c == 64 || c % 4 != 0 then None
    else Some([a * 4 + b / 16, b % 16 * 16 + c / 4])
  }

  function Decode(s: string): Option<seq<Byte>> {
    if |s| == 0 then Some([])
    else if |s| < 4 then None
    else if |s| == 4 then LastGroup(s)
    else
      var first, rest := Group(s[..4]), Decode(s[4..]);
      if first == None || rest == None then None else Some(first.value + rest.value)
  }

  /** Bits packed side by side come apart again. */
  lemma {:induction false} Unpack(high: int, low: int, width: int)
    requires 0 <= high && 0 <= low < width && width in {4, 16}
    ensures (high * width + low) / width == high && (high * width + low) % width == low
  {
    if width == 4 {
      assert (high * 4 + low) / 4 == high;
    } else {
      assert (high * 16 + low) / 16 == high;
    }
  }

  lemma {:induction false} Bytes(a: Byte, b: Byte, c: Byte)
    ensures var w, x, y, z := a / 4, a % 4 * 16 + b / 16, b % 16 * 4 + c / 64, c % 64;
            w * 4 + x / 16 == a && x % 16 * 16 + y / 4 == b && y % 4 * 64 + z == c
  {
    Unpack(a % 4, b / 16, 16);
    Unpack(b % 16, c / 64, 4);
  }

  lemma {:induction false} QuadDecodes(a: Byte, b: Byte, c: Byte)
    ensures Group(Quad(a, b, c)) == Some([a, b, c]) && Quad(a, b, c)[3] != '='
  {
    var w, x, y, z := a / 4, a % 4 * 16 + b / 16, b % 16 * 4 + c / 64, c % 64;
    Bytes(a, b, c);
    ValueOfSymbol(w);
    ValueOfSymbol(x);
    ValueOfSymbol(y);
    ValueOfSymbol(z);
  }

  /** The alphabet by character codes. */
  lemma {:induction false} SymbolCodes(i: int)
    requires 0 <= i < 64
    ensures Symbol(i) as int ==
            if i < 26 then 65 + i else if i < 52 then 71 + i else if i < 62 then i - 4 else if i == 62 then 43 else 47
  {
  }

  /** The number that a group of values stands for, six bits each and the first one highest. */
  function Number(w: int, x: int, y: int, z: int): int {
    ((w * 64 + x) * 64 + y) * 64 + z
  }

  /** Four symbols stand for the same 24-bit number as the three bytes. */
  lemma {:induction false} QuadNumber(a: Byte, b: Byte, c: Byte)
    ensures var q := Quad(a, b, c);
            Number(Value(q[0]), Value(q[1]), Value(q[2]), Value(q[3])) == (a * 256 + b) * 256 + c
  {
    ValueOfSymbol(a / 4);
    ValueOfSymbol(a % 4 * 16 + b / 16);
    ValueOfSymbol(b % 16 * 4 + c / 64);
    ValueOfSymbol(c % 64);
  }

  /** A padded group stands for its bytes followed by zero bits, with a padding character for each missing byte. */
  lemma {:induction false} TailNumber(data: seq<Byte>)
    requires 1 <= |data| <= 2
    ensures var t, a: int, b: int := Tail(data), data[0], if |data| == 2 then data[1] else 0;
            && t[3] == '=' && (t[2] == '=' <==> |data| == 1)
            && Number(Value(t[0]), Value(t[1]), if |data| == 2 then Value(t[2]) else 0, 0) == (a * 256 + b) * 256
  {
    var a, b: Byte := data[0], if |data| == 2 then data[1] else 0;
    ValueOfSymbol(a / 4);
    ValueOfSymbol(a % 4 * 16 + b / 16);
    ValueOfSymbol(b % 16 * 4);
  }

  lemma {:induction false} EncodedLength(data: seq<Byte>)
    ensures |Encode(data)| == 4 * ((|data| + 2) / 3)
  {
    if |data| > 2 {
      EncodedLength(data[3..]);
      assert (|data| + 2) / 3 == (|data| - 3 + 2) / 3 + 1;
    }
  }

  lemma {:induction false} GroupThenRest(quad: string, rest: string, bytes: seq<Byte>, tail: seq<Byte>)
    requires |quad| == 4 && quad[3] != '=' && Group(quad) == Some(bytes) && Decode(rest) == Some(tail)
    ensures Decode(quad + rest) == Some(bytes + tail)
  {
    if rest == "" {
      assert quad + rest == quad && bytes + tail == bytes;
    } else {
      assert (quad + rest)[..4] == quad && (quad + rest)[4..] == rest;
    }
  }

  lemma {:induction false} QuadThenRest(a: Byte, b: Byte, c: Byte, rest: string, tail: seq<Byte>)
    requires Decode(rest) == Some(tail)
    ensures Decode(Quad(a, b, c) + rest) == Some([a, b, c] + tail)
  {
    var quad := Quad(a, b, c);
    assert Group(quad) == Some([a, b, c]) && |quad| == 4 && quad[3] != '=' by { QuadDecodes(a, b, c); }
    GroupThenRest(quad, rest, [a, b, c], tail);
  }

  lemma {:induction false} EncodeStep(data: seq<Byte>)
    requires |data| > 2
    ensures Encode(data) == Quad(data[0], data[1], data[2]) + Encode(data[3..])
    ensures data == [data[0], data[1], data[2]] + data[3..]
  {
  }

  /** The decoder returns every byte string, also those of length 0 and 1. */
  lemma {:induction false} RoundTrip(data: seq<Byte>)
    ensures Decode(Encode(data)) == Some(data)
  {
    if 0 < |data| <= 2 {
      TailDecodes(data);
    } else if |data| > 2 {
      RoundTrip(data[3..]);
      QuadThenRest(data[0], data[1], data[2], Encode(data[3..]), data[3..]);
      EncodeStep(data);
    }
  }

  lemma {:induction false} TailDecodes(data: seq<Byte>)
    requires 1 <= |data| <= 2
    ensures LastGroup(Tail(data)) == Some(data)
  {
    var a, b: Byte := data[0], if |data| == 1 then 0 else data[1];
    Bytes(a, b, 0);
    ValueOfSymbol(a / 4);
    ValueOfSymbol(a % 4 * 16 + b / 16);
    ValueOfSymbol(b % 16 * 4);
    if |data| == 1 {
      assert data == [a] && Tail(data) == [Symbol(a / 4), Symbol(a % 4 * 16), '=', '='];
    } else {
      assert data == [a, b];
    }
  }

  lemma {:induction false} SymbolOfValue(c: char)
    requires Value(c) < 64
    ensures Symbol(Value(c)) == c
  {
  }

  /** Three bytes come apart into the values they were made of. */
  lemma {:induction false} Values(w: int, x: int, y: int, z: int)
    requires 0 <= w < 64 && 0 <= x < 64 && 0 <= y < 64 && 0 <= z < 64
    ensures var a, b, c := w * 4 + x / 16, x % 16 * 16 + y / 4, y % 4 * 64 + z;
            a / 4 == w && a % 4 * 16 + b / 16 == x && b % 16 * 4 + c / 64 == y && c % 64 == z
  {
    Unpack(w, x / 16, 4);
    Unpack(x % 16, y / 4, 16);
    assert (y % 4 * 64 + z) / 64 == y % 4;
  }

  lemma {:induction false} GroupEncodes(s: string)
    requires |s| == 4 && Group(s).Some?
    ensures var bytes := Group(s).value; |bytes| == 3 && Quad(bytes[0], bytes[1], bytes[2]) == s
  {
    Values(Value(s[0]), Value(s[1]), Value(s[2]), Value(s[3]));
    SymbolOfValue(s[0]);
    SymbolOfValue(s[1]);
    SymbolOfValue(s[2]);
    SymbolOfValue(s[3]);
  }

  lemma {:induction false} LastGroupEncodes(s: string)
    requires |s| == 4 && LastGroup(s).Some?
    ensures Encode(LastGroup(s).value) == s
  {
    var bytes := LastGroup(s).value;
    if s[3] != '=' {
      GroupEncodes(s);
      assert bytes[3..] == [];
    } else {
      var w, x, y := Value(s[0]), Value(s[1]), if s[2] == '=' then 0 else Value(s[2]);
      Values(w, x, y, 0);
      SymbolOfValue(s[0]);
      SymbolOfValue(s[1]);
      if s[2] != '=' {
        SymbolOfValue(s[2]);
      }
      assert Encode(bytes) == Tail(bytes);
    }
  }

  /** What decodes is the encoding of what it decodes to, so encoding is one to one onto the strings that decode. */
  lemma {:induction false} EncodeDecoded(s: string)
    requires Decode(s).Some?
    ensures Encode(Decode(s).value) == s
  {
    if |s| == 4 {
      LastGroupEncodes(s);
    } else if |s| > 4 {
      var bytes, tail := Group(s[..4]).value, Decode(s[4..]).value;
      GroupEncodes(s[..4]);
      EncodeDecoded(s[4..]);
      assert (bytes + tail)[3..] == tail;
      assert s == s[..4] + s[4..];
    }
  }

  method PutFour(buf: array<char>, p: nat, s: string) returns (p': nat)
    requires |s| == 4 && p + 4 <= buf.Length
    modifies buf
    ensures p' == p + 4 && buf[..p'] == old(buf[..p]) + s
  {
    buf[p], buf[p + 1], buf[p + 2], buf[p + 3] := s[0], s[1], s[2], s[3];
    p' := p + 4;
  }

  /** The loop invariant of the encoder: what is written and what is left make up the encoding. */
  ghost predicate Encoded(data: seq<Byte>, i: nat, written: string, size: nat) {
    i <= |data| && written + Encode(data[i..]) == Encode(data) && |Encode(data)| == size
  }

  lemma {:induction false} EncodedQuad(data: seq<Byte>, i: nat, written: string, size: nat)
    requires Encoded(data, i, written, size) && i + 2 < |data|
    ensures |written| + 4 <= size
    ensures Encoded(data, i + 3, written + Quad(data[i], data[i + 1], data[i + 2]), size)
  {
    var quad, rest := Quad(data[i], data[i + 1], data[i + 2]), Encode(data[i + 3..]);
    assert data[i..][3..] == data[i + 3..];
    assert Encode(data[i..]) == quad + rest;
    assert written + (quad + rest) == written + quad + rest;
  }

  lemma {:induction false} EncodedTail(data: seq<Byte>, i: nat, written: string, size: nat)
    requires Encoded(data, i, written, size) && |data| - 2 <= i < |data|
    ensures |written| + 4 == size && written + Tail(data[i..]) == Encode(data)
  {
  }

  /** The encoder's index loop over a fixed output buffer. */
  method Base64Encode(data: seq<Byte>) returns (ret: string)
    requires |data| >= 2
    ensures |ret| == 4 * ((|data| + 2) / 3)
    ensures Decode(ret) == Some(data)
  {
    EncodedLength(data);
    var n := |data|;
    var buf := new char[4 * ((n + 2) / 3)];
    var i, p: nat := 0, 0;
    assert data[0..] == data && buf[..0] + Encode(data) == Encode(data);
    while i < n - 2
      invariant p <= buf.Length && Encoded(data, i, buf[..p], buf.Length)
    {
      EncodedQuad(data, i, buf[..p], buf.Length);
      p := PutFour(buf, p, Quad(data[i], data[i + 1], data[i + 2]));
      i := i + 3;
    }
    if i < n {
      EncodedTail(data, i, buf[..p], buf.Length);
      p := PutTail(buf, p, data, i);
    }
    ret := buf[..p];
    assert ret == Encode(data) by {
      if i == n {
        assert data[i..] == [];
      }
    }
    RoundTrip(data);
  }

  /** The branch for one or two remaining bytes. */
  method PutTail(buf: array<char>, p: nat, data: seq<Byte>, i: nat) returns (p': nat)
    requires |data| - 2 <= i < |data| && p + 4 <= buf.Length
    modifies buf
    ensures p' == p + 4 && buf[..p'] == old(buf[..p]) + Tail(data[i..])
  {
    if i == |data| - 1 {
      p' := PutFour(buf, p, [Symbol(data[i] / 4), Symbol(data[i] % 4 * 16), '=', '=']);
    } else {
      p' := PutFour(buf, p,
        [Symbol(data[i] / 4), Symbol(data[i] % 4 * 16 + data[i + 1] / 16), Symbol(data[i + 1] % 16 * 4), '=']);
    }
  }

  /** The unsigned loop bound, size_t being 64 bits wide. */
  function LoopBound(n: nat): nat {
    (n + 0x1_0000_0000_0000_0000 - 2) % 0x1_0000_0000_0000_0000
  }

  predicate ReadsInside(i: nat, n: nat) {
    i + 2 < n
  }

  /** The loop reads only inside the data exactly from length 2 on; below that its bound wraps around. */
  lemma {:induction false} LoopStaysInside(n: nat)
    requires n < 0x1_0000_0000_0000_0000
    ensures (forall i: nat :: i < LoopBound(n) ==> ReadsInside(i, n)) <==> n >= 2
  {
    if n < 2 {
      assert LoopBound(n) == n + 0x1_0000_0000_0000_0000 - 2;
      assert !ReadsInside(0, n);
    } else {
      assert LoopBound(n) == n - 2;
    }
  }
}
