/** Buffers: UTF-8 text and the length-prefixed concatenation (src/sync/identity.ts). */
module Bytes {
  import opened Wrappers

  type Byte = b: int | 0 <= b < 256
  type Buffer = seq<Byte>

  // ---------- UTF-8 ----------

  function Utf8Char(c: char): Buffer {
    var n := c as int;
    if n < 0x80 then [n]
    else if n < 0x800 then [0xC0 + n / 64, 0x80 + n % 64]
    else if n < 0x10000 then [0xE0 + n / 64 / 64, 0x80 + n / 64 % 64, 0x80 + n % 64]
    else [0xF0 + n / 64 / 64 / 64, 0x80 + n / 64 / 64 % 64, 0x80 + n / 64 % 64, 0x80 + n % 64]
  }

  function Utf8(s: string): Buffer {
    if s == "" then [] else Utf8Char(s[0]) + Utf8(s[1..])
  }

  /** How many bytes the character that starts with `first` takes. */
  function CharLength(first: int): int {
    if first < 0x80 then 1 else if first < 0xE0 then 2 else if first < 0xF0 then 3 else 4
  }

  lemma Utf8CharLength(c: char)
    ensures 1 <= |Utf8Char(c)| == CharLength(Utf8Char(c)[0])
  {
  }

  /** The layout of RFC 3629, section 3: a leading byte that tells the length, then six bits in each byte. */
  lemma Utf8CharReads(c: char)
    ensures
      var b: seq<int> := Utf8Char(c);
      && (|b| == 1 ==> b[0] < 128 && c as int == b[0])
      && (|b| == 2 ==> 192 <= b[0] < 224 && c as int == (b[0] - 192) * 64 + (b[1] - 128))
      && (|b| == 3 ==> 224 <= b[0] < 240 && c as int == ((b[0] - 224) * 64 + (b[1] - 128)) * 64 + (b[2] - 128))
      && (|b| == 4 ==>
            240 <= b[0] < 248
            && c as int == (((b[0] - 240) * 64 + (b[1] - 128)) * 64 + (b[2] - 128)) * 64 + (b[3] - 128))
      && (forall i :: 1 <= i < |b| ==> 128 <= b[i] < 192)
      && |b| == if c as int < 128 then 1 else if c as int < 2048 then 2 else if c as int < 65536 then 3 else 4
  {
  }

  lemma Utf8CharInjective(c: char, d: char)
    requires Utf8Char(c) == Utf8Char(d)
    ensures c == d
  {
    var n, m := c as int, d as int;
    assert n % 64 == m % 64 || |Utf8Char(c)| == 1;
    assert n / 64 % 64 == m / 64 % 64 || |Utf8Char(c)| <= 2;
    assert n == 64 * (n / 64) + n % 64 && m == 64 * (m / 64) + m % 64;
    assert n / 64 == 64 * (n / 64 / 64) + n / 64 % 64 && m / 64 == 64 * (m / 64 / 64) + m / 64 % 64;
  }

  /** The bytes of one character say where it ends. */
  lemma Utf8CharPrefix(c: char, d: char, x: Buffer, y: Buffer)
    requires Utf8Char(c) + x == Utf8Char(d) + y
    ensures c == d && x == y
  {
    var e, f := Utf8Char(c), Utf8Char(d);
    Utf8CharLength(c);
    Utf8CharLength(d);
    assert e[0] == (e + x)[0] == (f + y)[0] == f[0];
    assert e == (e + x)[..|e|] == (f + y)[..|f|] == f;
    assert x == (e + x)[|e|..] && y == (f + y)[|f|..];
    Utf8CharInjective(c, d);
  }

  lemma {:induction false} Utf8Injective(s: string, t: string)
    requires Utf8(s) == Utf8(t)
    ensures s == t
  {
    if s != "" && t != "" {
      Utf8CharPrefix(s[0], t[0], Utf8(s[1..]), Utf8(t[1..]));
      Utf8Injective(s[1..], t[1..]);
      assert s == [s[0]] + s[1..] && t == [t[0]] + t[1..];
    }
  }

  lemma {:induction false} Utf8Length(s: string)
    ensures |Utf8(s)| <= 4 * |s|
  {
    if s != "" { Utf8Length(s[1..]); }
  }

  lemma {:induction false} Utf8Concat(s: string, t: string)
    ensures Utf8(s + t) == Utf8(s) + Utf8(t)
  {
    if s == "" {
      assert s + t == t;
    } else {
      assert (s + t)[1..] == s[1..] + t;
      Utf8Concat(s[1..], t);
    }
  }

  // ---------- length-prefixed parts ----------

  const U32: int := 0x1_0000_0000

  function BigEndian(n: int): (r: Buffer)
    requires 0 <= n < U32
    ensures |r| == 4
  {
    [n / 256 / 256 / 256, n / 256 / 256 % 256, n / 256 % 256, n % 256]
  }

  function FromBigEndian(b: Buffer): (n: int)
    requires |b| == 4
    ensures 0 <= n < U32
  {
    var b0: int, b1: int, b2: int := b[0], b[1], b[2];
    ((b0 * 256 + b1) * 256 + b2) * 256 + b[3]
  }

  /** The most significant byte comes first. */
  lemma BigEndianReads(n: int)
    requires 0 <= n < U32
    ensures var b: seq<int> := BigEndian(n); n == b[0] * 16777216 + b[1] * 65536 + b[2] * 256 + b[3]
  {
  }

  lemma BigEndianBack(n: int)
    requires 0 <= n < U32
    ensures FromBigEndian(BigEndian(n)) == n
  {
  }

  lemma DivMod256(m: int, last: Byte)
    ensures (m * 256 + last) / 256 == m && (m * 256 + last) % 256 == last
  {
  }

  lemma BigEndianForth(b: Buffer)
    requires |b| == 4
    ensures BigEndian(FromBigEndian(b)) == b
  {
    var b0: int, b1: int, b2: int := b[0], b[1], b[2];
    DivMod256((b0 * 256 + b1) * 256 + b2, b[3]);
    DivMod256(b0 * 256 + b1, b[2]);
    DivMod256(b0, b[1]);
  }

  predicate Short(parts: seq<Buffer>) {
    forall i :: 0 <= i < |parts| ==> |parts[i]| < U32
  }

  /** Every part behind its length. */
  function Framed(parts: seq<Buffer>): Buffer
    requires Short(parts)
  {
    if parts == [] then [] else BigEndian(|parts[0]|) + parts[0] + Framed(parts[1..])
  }

  /** Reads the parts back; nothing if the buffer does not end where a part does. */
  function Unframe(b: Buffer): Option<seq<Buffer>>
    decreases |b|
  {
    if b == [] then Some([])
    else if |b| < 4 then None
    else
      var n := FromBigEndian(b[..4]);
      if |b| < 4 + n then None
      else
        var rest := Unframe(b[4 + n..]);
        if rest.Some? then Some([b[4..4 + n]] + rest.value) else None
  }

  lemma {:induction false} UnframeFramed(parts: seq<Buffer>)
    requires Short(parts)
    ensures Unframe(Framed(parts)) == Some(parts)
  {
    if parts != [] {
      var p, b := parts[0], Framed(parts);
      var head := BigEndian(|p|);
      BigEndianBack(|p|);
      assert b == head + p + Framed(parts[1..]);
      assert b[..4] == head && b[4..4 + |p|] == p && b[4 + |p|..] == Framed(parts[1..]);
      UnframeFramed(parts[1..]);
      assert parts == [p] + parts[1..];
    }
  }

  lemma CutTwice(b: Buffer, i: nat, j: nat)
    requires i <= j <= |b|
    ensures b == b[..i] + b[i..j] + b[j..]
  {
  }

  lemma ShortCons(p: Buffer, parts: seq<Buffer>)
    requires |p| < U32 && Short(parts)
    ensures Short([p] + parts) && Framed([p] + parts) == BigEndian(|p|) + p + Framed(parts)
  {
    assert ([p] + parts)[1..] == parts;
  }

  lemma {:induction false} FramedUnframe(b: Buffer)
    requires Unframe(b).Some?
    ensures Short(Unframe(b).value) && Framed(Unframe(b).value) == b
    decreases |b|
  {
    if b != [] {
      var n := FromBigEndian(b[..4]);
      FramedUnframe(b[4 + n..]);
      BigEndianForth(b[..4]);
      ShortCons(b[4..4 + n], Unframe(b[4 + n..]).value);
      CutTwice(b, 4, 4 + n);
    }
  }

  /** The concatenation is unambiguous: it is the framing of exactly one list of parts. */
  lemma FramedInjective(a: seq<Buffer>, b: seq<Buffer>)
    requires Short(a) && Short(b)
    ensures Framed(a) == Framed(b) <==> a == b
  {
    UnframeFramed(a);
    UnframeFramed(b);
  }

  function Flat(chunks: seq<Buffer>): Buffer {
    if chunks == [] then [] else Flat(chunks[..|chunks| - 1]) + chunks[|chunks| - 1]
  }

  lemma FlatTwo(chunks: seq<Buffer>, a: Buffer, b: Buffer)
    ensures Flat(chunks + [a, b]) == Flat(chunks) + a + b
  {
    assert chunks + [a, b] == (chunks + [a]) + [b];
    assert (chunks + [a, b])[..|chunks| + 1] == chunks + [a];
    assert (chunks + [a])[..|chunks|] == chunks;
  }

  lemma {:induction false} FramedSnoc(parts: seq<Buffer>, p: Buffer)
    requires Short(parts + [p])
    ensures Short(parts) && |p| < U32
    ensures Framed(parts + [p]) == Framed(parts) + BigEndian(|p|) + p
  {
    assert |(parts + [p])[|parts|]| < U32;
    assert Short(parts) by {
      forall i | 0 <= i < |parts| ensures |parts[i]| < U32 { assert (parts + [p])[i] == parts[i]; }
    }
    if parts == [] {
      assert parts + [p] == [p];
    } else {
      assert (parts + [p])[1..] == parts[1..] + [p];
      FramedSnoc(parts[1..], p);
    }
  }

  /** Writes a 32-bit length before each part; a part too long for it raises. */
  method LengthPrefixed(parts: seq<Buffer>) returns (r: Result<Buffer, string>)
    ensures r.Ok? <==> Short(parts)
    ensures r.Ok? ==> r.value == Framed(parts)
  {
    var out: seq<Buffer> := [];
    for i := 0 to |parts|
      invariant Short(parts[..i]) && Flat(out) == Framed(parts[..i])
    {
      var p := parts[i];
      if |p| >= U32 { return Err("length out of range"); }
      assert parts[..i + 1] == parts[..i] + [p];
      FramedSnoc(parts[..i], p);
      FlatTwo(out, BigEndian(|p|), p);
      out := out + [BigEndian(|p|), p];
    }
    assert parts[..|parts|] == parts;
    return Ok(Flat(out));
  }
}
