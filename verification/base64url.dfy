/**
 * The unpadded URL-safe base64 encoding of section 5 of RFC 4648
 * ("base64url", alphabet A-Z a-z 0-9 - _), without the trailing "=" padding,
 * as Go's encoding/base64.RawURLEncoding produces it.
 *
 * Encoding is done in two stages, as section 4 of RFC 4648 describes it: the
 * bytes are cut into 6-bit groups (Sextets), and each group is replaced by
 * its symbol (Symbols). Decode is the inverse, stated here as a reference so
 * that the encoding can be shown injective (Decode(Encode(s)) == Some(s)).
 */
module Base64Url {

  import opened Wrappers

  /** One byte of input. */
  type byte = b: int | 0 <= b < 256

  /** A 6-bit value: the index of a symbol in the alphabet. */
  type sextet = i: int | 0 <= i < 64

  /** The 64 symbols of the URL- and filename-safe alphabet. */
  predicate IsSymbol(c: char)
  {
    ('A' <= c <= 'Z') || ('a' <= c <= 'z') || ('0' <= c <= '9') || c == '-' || c == '_'
  }

  /** True when every character of t is in the alphabet. */
  predicate AllSymbols(t: string)
  {
    forall k :: 0 <= k < |t| ==> IsSymbol(t[k])
  }

  /** Table 2 of RFC 4648 with 62 and 63 replaced by "-" and "_". */
  function Symbol(i: sextet): (c: char)
    ensures IsSymbol(c)
    ensures SymbolIndex(c) == i
  {
    if i < 26 then ('A' as int + i) as char
    else if i < 52 then ('a' as int + (i - 26)) as char
    else if i < 62 then ('0' as int + (i - 52)) as char
    else if i == 62 then '-'
    else '_'
  }

  /** The 6-bit value a symbol stands for. */
  function SymbolIndex(c: char): (i: sextet)
    requires IsSymbol(c)
  {
    if 'A' <= c <= 'Z' then c as int - 'A' as int
    else if 'a' <= c <= 'z' then c as int - 'a' as int + 26
    else if '0' <= c <= '9' then c as int - '0' as int + 52
    else if c == '-' then 62
    else 63
  }

  /**
   * The input bits cut into 6-bit groups, most significant first: three
   * bytes give four groups; a final single byte gives two groups and a
   * final pair three, the missing low bits being zero. Nothing stands for
   * padding.
   */
  function Sextets(s: seq<byte>): (r: seq<sextet>)
    ensures |r| == (4 * |s| + 2) / 3
    decreases |s|
  {
    if |s| == 0 then []
    else if |s| == 1 then [s[0] / 4, (s[0] % 4) * 16]
    else if |s| == 2 then [s[0] / 4, (s[0] % 4) * 16 + s[1] / 16, (s[1] % 16) * 4]
    else
      [s[0] / 4, (s[0] % 4) * 16 + s[1] / 16, (s[1] % 16) * 4 + s[2] / 64, s[2] % 64]
      + Sextets(s[3..])
  }

  /** Each 6-bit group replaced by its symbol. */
  function Symbols(xs: seq<sextet>): (t: string)
    ensures |t| == |xs|
    ensures forall k :: 0 <= k < |t| ==> t[k] == Symbol(xs[k])
  {
    seq(|xs|, k requires 0 <= k < |xs| => Symbol(xs[k]))
  }

  /** Unpadded base64url encoding. */
  function Encode(s: seq<byte>): (r: string)
    ensures |r| == (4 * |s| + 2) / 3
    ensures AllSymbols(r)
  {
    Symbols(Sextets(s))
  }

  /** The 6-bit values of a text, or None when it holds a non-symbol. */
  function Indices(t: string): (r: Option<seq<sextet>>)
    ensures r.Some? <==> AllSymbols(t)
    ensures r.Some? ==> |r.value| == |t|
  {
    if AllSymbols(t) then Some(seq(|t|, k requires 0 <= k < |t| => SymbolIndex(t[k]))) else None
  }

  /** The first byte of a group: all six bits of x0, the top two of x1. */
  function First(x0: sextet, x1: sextet): byte
  {
    x0 as int * 4 + x1 as int / 16
  }

  /** The second byte of a group: the low four bits of x1, the top four of x2. */
  function Second(x1: sextet, x2: sextet): byte
  {
    (x1 as int % 16) * 16 + x2 as int / 4
  }

  /** The third byte of a group: the low two bits of x2, all six of x3. */
  function Third(x2: sextet, x3: sextet): byte
  {
    (x2 as int % 4) * 64 + x3 as int
  }

  /**
   * The bytes that 6-bit groups stand for: four groups give three bytes,
   * a final two give one and a final three give two; a final single group
   * cannot occur and is rejected.
   */
  function Unsextets(xs: seq<sextet>): (r: Option<seq<byte>>)
    decreases |xs|
  {
    if |xs| == 0 then Some([])
    else if |xs| == 1 then None
    else if |xs| == 2 then Some([First(xs[0], xs[1])])
    else if |xs| == 3 then Some([First(xs[0], xs[1]), Second(xs[1], xs[2])])
    else
      match Unsextets(xs[4..])
      case None => None
      case Some(rest) =>
        Some([First(xs[0], xs[1]), Second(xs[1], xs[2]), Third(xs[2], xs[3])] + rest)
  }

  /**
   * Reference decoder for unpadded base64url: a character outside the
   * alphabet, or a length of 1 modulo 4, is rejected.
   */
  function Decode(t: string): (r: Option<seq<byte>>)
    ensures r.Some? ==> AllSymbols(t)
  {
    match Indices(t)
    case None => None
    case Some(xs) => Unsextets(xs)
  }

  /** Reading the symbols back gives the 6-bit groups. */
  lemma IndicesSymbols(xs: seq<sextet>)
    ensures Indices(Symbols(xs)) == Some(xs)
  {
    var t := Symbols(xs);
    assert AllSymbols(t);
    var ys := seq(|t|, k requires 0 <= k < |t| => SymbolIndex(t[k]));
    assert ys == xs;
  }

  /** Regrouping the four sextets of three bytes gives the bytes back. */
  lemma GroupRoundTrip(b0: byte, b1: byte, b2: byte)
    ensures var x0, x1, x2, x3 := b0 / 4, (b0 % 4) * 16 + b1 / 16, (b1 % 16) * 4 + b2 / 64, b2 % 64;
            First(x0, x1) == b0 && Second(x1, x2) == b1 && Third(x2, x3) == b2
  {
    var x1, x2 := (b0 % 4) * 16 + b1 / 16, (b1 % 16) * 4 + b2 / 64;
    assert x1 / 16 == b0 % 4 && x1 % 16 == b1 / 16;
    assert x2 / 4 == b1 % 16 && x2 % 4 == b2 / 64;
  }

  /** Regrouping the two sextets of a final byte gives the byte back. */
  lemma OneByteRoundTrip(b0: byte)
    ensures Unsextets(Sextets([b0])) == Some([b0])
  {
    var x1 := (b0 % 4) * 16;
    assert x1 / 16 == b0 % 4;
  }

  /** Regrouping the three sextets of a final pair gives the pair back. */
  lemma TwoBytesRoundTrip(b0: byte, b1: byte)
    ensures Unsextets(Sextets([b0, b1])) == Some([b0, b1])
  {
    var x1, x2 := (b0 % 4) * 16 + b1 / 16, (b1 % 16) * 4;
    assert x1 / 16 == b0 % 4 && x1 % 16 == b1 / 16;
    assert x2 / 4 == b1 % 16;
  }

  /** Unsextets takes a leading group of four sextets apart from the rest. */
  lemma UnsextetsLeadingGroup(g: seq<sextet>, rest: seq<sextet>)
    requires |g| == 4
    requires Unsextets(rest).Some?
    ensures Unsextets(g + rest)
            == Some([First(g[0], g[1]), Second(g[1], g[2]), Third(g[2], g[3])] + Unsextets(rest).value)
  {
    var xs := g + rest;
    assert xs[0] == g[0] && xs[1] == g[1] && xs[2] == g[2] && xs[3] == g[3];
    assert xs[4..] == rest;
  }

  /** Regrouping the sextets of any input gives the input back. */
  lemma {:induction false} UnsextetsSextets(s: seq<byte>)
    ensures Unsextets(Sextets(s)) == Some(s)
    decreases |s|
  {
    if |s| == 1 {
      OneByteRoundTrip(s[0]);
      assert s == [s[0]];
    } else if |s| == 2 {
      TwoBytesRoundTrip(s[0], s[1]);
      assert s == [s[0], s[1]];
    } else if |s| >= 3 {
      var g := [s[0] / 4, (s[0] % 4) * 16 + s[1] / 16, (s[1] % 16) * 4 + s[2] / 64, s[2] % 64];
      assert Sextets(s) == g + Sextets(s[3..]);
      UnsextetsSextets(s[3..]);
      UnsextetsLeadingGroup(g, Sextets(s[3..]));
      GroupRoundTrip(s[0], s[1], s[2]);
      assert s == [s[0], s[1], s[2]] + s[3..];
    }
  }

  /** The encoding is injective: decoding undoes it, for every input. */
  lemma DecodeEncode(s: seq<byte>)
    ensures Decode(Encode(s)) == Some(s)
  {
    IndicesSymbols(Sextets(s));
    UnsextetsSextets(s);
  }

  /** Two inputs with the same encoding are equal. */
  lemma EncodeInjective(s: seq<byte>, s': seq<byte>)
    requires Encode(s) == Encode(s')
    ensures s == s'
  {
    DecodeEncode(s);
    DecodeEncode(s');
  }

  /**
   * The groups of a prefix whose length is a multiple of three do not
   * depend on what follows it.
   */
  lemma {:induction false} SextetsAppend(a: seq<byte>, b: seq<byte>)
    requires |a| % 3 == 0
    ensures Sextets(a + b) == Sextets(a) + Sextets(b)
    decreases |a|
  {
    if |a| == 0 {
      assert a + b == b;
    } else {
      var ab := a + b;
      assert ab[0] == a[0] && ab[1] == a[1] && ab[2] == a[2];
      assert ab[3..] == a[3..] + b;
      SextetsAppend(a[3..], b);
      var g := [a[0] / 4, (a[0] % 4) * 16 + a[1] / 16, (a[1] % 16) * 4 + a[2] / 64, a[2] % 64];
      assert Sextets(ab) == g + (Sextets(a[3..]) + Sextets(b));
      AppendAssociative(g, Sextets(a[3..]), Sextets(b));
    }
  }

  lemma AppendAssociative<T>(x: seq<T>, y: seq<T>, z: seq<T>)
    ensures x + (y + z) == (x + y) + z
  {
  }

  /**
   * The first 4k symbols of an encoding are the encoding of the first 3k
   * bytes, and depend on nothing else.
   */
  lemma EncodePrefix(s: seq<byte>, k: nat)
    requires 3 * k <= |s|
    ensures |Encode(s[..3 * k])| == 4 * k
    ensures Encode(s)[..4 * k] == Encode(s[..3 * k])
  {
    assert s[..3 * k] + s[3 * k..] == s;
    SextetsAppend(s[..3 * k], s[3 * k..]);
    var xs := Sextets(s);
    var p := Sextets(s[..3 * k]);
    assert |p| == 4 * k;
    assert xs[..4 * k] == p;
  }
}
