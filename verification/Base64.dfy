/**
 * The hand-written base64 encoder of the web console (pkg/nullweb/src/routes.rs), against a strict
 * decoder for section 4 of RFC 4648. Shifts and masks are written as division and remainder.
 */
module Base64 {
  import opened Wrappers

  newtype byte = n: int | 0 <= n < 256

  type sextet = n: int | 0 <= n < 64

  const UPPER: string := "ABCDEFGHIJKLMNOPQRSTUVWXYZ"
  const LOWER: string := "abcdefghijklmnopqrstuvwxyz"
  const DIGITS: string := "0123456789"
  const B64_CHARS: string := UPPER + LOWER + DIGITS + "+/"

  // ---------------------------------------------------------------- what RFC 4648 prescribes

  /** One position of the encoded text: six bits, or padding. */
  datatype Symbol = Bits(n: sextet) | Pad

  /** Table 1 of RFC 4648, by ranges. */
  function Show(symbol: Symbol): char {
    match symbol
    case Pad => '='
    case Bits(n) =>
      if n < 26 then ('A' as int + n) as char
      else if n < 52 then ('a' as int + (n - 26)) as char
      else if n < 62 then ('0' as int + (n - 52)) as char
      else if n == 62 then '+' else '/'
  }

  function SymbolOf(c: char): Option<Symbol> {
    if 'A' <= c <= 'Z' then Some(Bits(c as int - 'A' as int))
    else if 'a' <= c <= 'z' then Some(Bits(c as int - 'a' as int + 26))
    else if '0' <= c <= '9' then Some(Bits(c as int - '0' as int + 52))
    else if c == '+' then Some(Bits(62))
    else if c == '/' then Some(Bits(63))
    else if c == '=' then Some(Pad)
    else None
  }

  /** Regrouping one to three bytes into four symbols; a partial sextet is filled with zero bits. */
  function Group(chunk: seq<byte>): (symbols: seq<Symbol>)
    requires 1 <= |chunk| <= 3
    ensures |symbols| == 4
  {
    var b0 := chunk[0] as int;
    var b1 := if |chunk| > 1 then chunk[1] as int else 0;
    var b2 := if |chunk| > 2 then chunk[2] as int else 0;
    [ Bits(b0 / 4),
      Bits(b0 % 4 * 16 + b1 / 16),
      if |chunk| > 1 then Bits(b1 % 16 * 4 + b2 / 64) else Pad,
      if |chunk| > 2 then Bits(b2 % 64) else Pad ]
  }

  /** Four symbols give back their bytes; padding may only end the final group, over zero bits. */
  function Ungroup(symbols: seq<Symbol>, final: bool): Option<seq<byte>>
    requires |symbols| == 4
  {
    match (symbols[0], symbols[1], symbols[2], symbols[3])
    case (Bits(a), Bits(b), Bits(c), Bits(d)) =>
      Some([(a * 4 + b / 16) as byte, (b % 16 * 16 + c / 4) as byte, (c % 4 * 64 + d) as byte])
    case (Bits(a), Bits(b), Bits(c), Pad) =>
      if final && c % 4 == 0 then Some([(a * 4 + b / 16) as byte, (b % 16 * 16 + c / 4) as byte]) else None
    case (Bits(a), Bits(b), Pad, Pad) =>
      if final && b % 16 == 0 then Some([(a * 4 + b / 16) as byte]) else None
    case _ => None
  }

  function EncodeChunk(chunk: seq<byte>): (quad: string)
    requires 1 <= |chunk| <= 3
    ensures |quad| == 4
  {
    var symbols := Group(chunk);
    seq(4, i requires 0 <= i < 4 => Show(symbols[i]))
  }

  function Encode(input: seq<byte>): string {
    if |input| == 0 then ""
    else if |input| <= 3 then EncodeChunk(input)
    else EncodeChunk(input[..3]) + Encode(input[3..])
  }

  predicate AllSymbols(s: string) { forall i :: 0 <= i < |s| ==> SymbolOf(s[i]).Some? }

  function DecodeQuad(quad: string, final: bool): Option<seq<byte>>
    requires |quad| == 4
  {
    if AllSymbols(quad) then Ungroup(seq(4, i requires 0 <= i < 4 => SymbolOf(quad[i]).value), final) else None
  }

  function Decode(s: string): Option<seq<byte>>
    decreases |s|
  {
    if |s| == 0 then Some([])
    else if |s| < 4 then None
    else
      match (DecodeQuad(s[..4], |s| == 4), Decode(s[4..]))
      case (Some(head), Some(tail)) => Some(head + tail)
      case _ => None
  }

  // ---------------------------------------------------------------- the encoder

  /** base64_encode: one pass over the chunks, pushing four characters each. */
  method Base64Encode(input: seq<byte>) returns (out: string)
    ensures out == Encode(input)
    ensures |out| == (|input| + 2) / 3 * 4
    ensures Decode(out) == Some(input)
  {
    out := "";
    var i := 0;
    while i < |input|
      invariant 0 <= i <= |input|
      invariant out + Encode(input[i..]) == Encode(input)
    {
      var next := if i + 3 < |input| then i + 3 else |input|;
      EncodeStep(input, i, next);
      out := PushChunk(out, input[i..next]);
      i := next;
    }
    assert input[|input|..] == [];
    EncodedLength(input);
    RoundTrip(input);
  }

  /** One turn of the loop: assemble 24 bits, shift and mask, look up, pad. */
  method PushChunk(before: string, chunk: seq<byte>) returns (out: string)
    requires 1 <= |chunk| <= 3
    ensures out == before + EncodeChunk(chunk)
  {
    var b0 := chunk[0] as int;
    var b1 := if |chunk| > 1 then chunk[1] as int else 0;
    var b2 := if |chunk| > 2 then chunk[2] as int else 0;
    var c0, c1, c2, c3 := Characters(b0, b1, b2);
    out := before + [c0];
    out := out + [c1];
    out := out + [if |chunk| > 1 then c2 else '='];
    out := out + [if |chunk| > 2 then c3 else '='];
    assert out == before + EncodeChunk(chunk);
  }

  method Characters(b0: int, b1: int, b2: int) returns (c0: char, c1: char, c2: char, c3: char)
    requires 0 <= b0 < 256 && 0 <= b1 < 256 && 0 <= b2 < 256
    ensures c0 == Show(Bits(b0 / 4)) && c1 == Show(Bits(b0 % 4 * 16 + b1 / 16))
    ensures c2 == Show(Bits(b1 % 16 * 4 + b2 / 64)) && c3 == Show(Bits(b2 % 64))
  {
    var triple := b0 * 0x1_0000 + b1 * 0x100 + b2;
    ShiftAndMask(b0, b1, b2);
    c0 := LookUp(triple / 0x4_0000 % 64);
    c1 := LookUp(triple / 0x1000 % 64);
    c2 := LookUp(triple / 0x40 % 64);
    c3 := LookUp(triple % 64);
  }

  method LookUp(n: sextet) returns (c: char)
    ensures c == Show(Bits(n))
  {
    Table(n);
    c := B64_CHARS[n];
  }

  lemma ShiftAndMask(b0: int, b1: int, b2: int)
    requires 0 <= b0 < 256 && 0 <= b1 < 256 && 0 <= b2 < 256
    ensures var t := b0 * 0x1_0000 + b1 * 0x100 + b2;
            && t / 0x4_0000 % 64 == b0 / 4
            && t / 0x1000 % 64 == b0 % 4 * 16 + b1 / 16
            && t / 0x40 % 64 == b1 % 16 * 4 + b2 / 64
            && t % 64 == b2 % 64
  {
    var t := b0 * 0x1_0000 + b1 * 0x100 + b2;
    assert t / 0x40 == b0 * 0x400 + b1 * 4 + b2 / 64;
    assert t / 0x1000 == b0 * 16 + b1 / 16;
    assert t / 0x4_0000 == b0 / 4;
    assert (b0 * 16 + b1 / 16) % 64 == b0 % 4 * 16 + b1 / 16;
    assert (b0 * 0x400 + b1 * 4 + b2 / 64) % 64 == b1 % 16 * 4 + b2 / 64;
  }

  lemma Upper(n: nat)
    requires n < 26
    ensures UPPER[n] == ('A' as int + n) as char
  {
  }

  lemma Lower(n: nat)
    requires n < 26
    ensures LOWER[n] == ('a' as int + n) as char
  {
  }

  lemma Table(n: sextet)
    ensures B64_CHARS[n] == Show(Bits(n))
  {
    if n < 26 { Upper(n); } else if n < 52 { Lower(n - 26); }
  }

  lemma EncodeStep(input: seq<byte>, i: nat, next: nat)
    requires i < |input| && next == if i + 3 < |input| then i + 3 else |input|
    ensures Encode(input[i..]) == EncodeChunk(input[i..next]) + Encode(input[next..])
  {
  }

  // ---------------------------------------------------------------- round trips

  lemma {:induction false} EncodedLength(input: seq<byte>)
    ensures |Encode(input)| == (|input| + 2) / 3 * 4
  {
    if |input| > 3 { EncodedLength(input[3..]); }
  }

  lemma ShowInverts(symbol: Symbol)
    ensures SymbolOf(Show(symbol)) == Some(symbol)
  {
  }

  lemma GroupRoundTrip(chunk: seq<byte>, final: bool)
    requires 1 <= |chunk| <= 3 && (final || |chunk| == 3)
    ensures Ungroup(Group(chunk), final) == Some(chunk)
  {
    var b0 := chunk[0] as int;
    if |chunk| == 1 {
      assert (b0 % 4 * 16) / 16 == b0 % 4 && (b0 % 4 * 16) % 16 == 0;
      assert Group(chunk) == [Bits(b0 / 4), Bits(b0 % 4 * 16), Pad, Pad];
      assert chunk == [chunk[0]];
    } else if |chunk| == 2 {
      var b1 := chunk[1] as int;
      assert (b0 % 4 * 16 + b1 / 16) / 16 == b0 % 4 && (b0 % 4 * 16 + b1 / 16) % 16 == b1 / 16;
      assert (b1 % 16 * 4) / 4 == b1 % 16 && (b1 % 16 * 4) % 4 == 0;
      assert Group(chunk) == [Bits(b0 / 4), Bits(b0 % 4 * 16 + b1 / 16), Bits(b1 % 16 * 4), Pad];
      assert chunk == [chunk[0], chunk[1]];
    } else {
      var b1, b2 := chunk[1] as int, chunk[2] as int;
      assert (b0 % 4 * 16 + b1 / 16) / 16 == b0 % 4 && (b0 % 4 * 16 + b1 / 16) % 16 == b1 / 16;
      assert (b1 % 16 * 4 + b2 / 64) / 4 == b1 % 16 && (b1 % 16 * 4 + b2 / 64) % 4 == b2 / 64;
      assert chunk == [chunk[0], chunk[1], chunk[2]];
    }
  }

  lemma ChunkRoundTrip(chunk: seq<byte>, final: bool)
    requires 1 <= |chunk| <= 3 && (final || |chunk| == 3)
    ensures DecodeQuad(EncodeChunk(chunk), final) == Some(chunk)
  {
    var symbols, quad := Group(chunk), EncodeChunk(chunk);
    forall i | 0 <= i < 4 ensures SymbolOf(quad[i]) == Some(symbols[i]) { ShowInverts(symbols[i]); }
    assert seq(4, i requires 0 <= i < 4 => SymbolOf(quad[i]).value) == symbols;
    GroupRoundTrip(chunk, final);
  }

  /** The strict decoder inverts the encoder on every byte string. */
  lemma {:induction false} RoundTrip(input: seq<byte>)
    ensures Decode(Encode(input)) == Some(input)
  {
    if |input| == 0 {
    } else if |input| <= 3 {
      var s := EncodeChunk(input);
      ChunkRoundTrip(input, true);
      assert s[..4] == s && s[4..] == "" && input + [] == input;
    } else {
      var head, tail := EncodeChunk(input[..3]), Encode(input[3..]);
      EncodedLength(input[3..]);
      ChunkRoundTrip(input[..3], false);
      RoundTrip(input[3..]);
      assert (head + tail)[..4] == head && (head + tail)[4..] == tail;
      assert input[..3] + input[3..] == input;
    }
  }

  lemma UngroupRoundTrip(symbols: seq<Symbol>, final: bool)
    requires |symbols| == 4 && Ungroup(symbols, final).Some?
    ensures var chunk := Ungroup(symbols, final).value;
            1 <= |chunk| <= 3 && (final || |chunk| == 3) && Group(chunk) == symbols
  {
    var a: int, b: int := symbols[0].n, symbols[1].n;
    assert (a * 4 + b / 16) / 4 == a && (a * 4 + b / 16) % 4 == b / 16;
    if symbols[2].Bits? {
      var c: int := symbols[2].n;
      assert (b % 16 * 16 + c / 4) / 16 == b % 16 && (b % 16 * 16 + c / 4) % 16 == c / 4;
    }
  }

  lemma QuadRoundTrip(quad: string, final: bool)
    requires |quad| == 4 && DecodeQuad(quad, final).Some?
    ensures var chunk := DecodeQuad(quad, final).value;
            1 <= |chunk| <= 3 && (final || |chunk| == 3) && EncodeChunk(chunk) == quad
  {
    var symbols := seq(4, i requires 0 <= i < 4 => SymbolOf(quad[i]).value);
    UngroupRoundTrip(symbols, final);
    forall i | 0 <= i < 4 ensures Show(symbols[i]) == quad[i] {
    }
  }

  /** Canonical: the only text that decodes to some bytes is their encoding. */
  lemma {:induction false} Canonical(s: string)
    requires Decode(s).Some?
    ensures Encode(Decode(s).value) == s
    decreases |s|
  {
    if |s| > 0 {
      var head, tail := DecodeQuad(s[..4], |s| == 4).value, Decode(s[4..]).value;
      QuadRoundTrip(s[..4], |s| == 4);
      Canonical(s[4..]);
      assert s == s[..4] + s[4..];
      if |s| == 4 {
        assert s[4..] == "" && head + tail == head;
      } else {
        assert (head + tail)[..3] == head && (head + tail)[3..] == tail;
        assert tail != [] by { assert Encode(tail) != ""; }
      }
    }
  }

  lemma EncodingIsInjective(a: seq<byte>, b: seq<byte>)
    requires Encode(a) == Encode(b)
    ensures a == b
  {
    RoundTrip(a);
    RoundTrip(b);
  }

  /** Padding stands only in the last two places, and never before a character that is not padding. */
  lemma {:induction false} PaddingOnlyAtTheEnd(input: seq<byte>, k: nat)
    requires k < |Encode(input)| && Encode(input)[k] == '='
    ensures k >= |Encode(input)| - 2 && Encode(input)[|Encode(input)| - 1] == '='
  {
    EncodedLength(input);
    if |input| > 3 {
      var head := EncodeChunk(input[..3]);
      forall j | 0 <= j < 4 ensures head[j] != '=' { ShowInverts(Group(input[..3])[j]); }
      EncodedLength(input[3..]);
      PaddingOnlyAtTheEnd(input[3..], k - 4);
    } else {
      ShowInverts(Group(input)[k]);
    }
  }
}
