/** What the library conversions must keep for parsing to undo serializing, and a codec that does. */
module Codecs {
  import opened Results
  import opened Numerals
  import opened Shapes
  import opened XmlSerializer

  // ----- The finite numbers of a double

  function Pow2(n: nat): (p: real)
    ensures p >= 1.0
  {
    if n == 0 then 1.0 else 2.0 * Pow2(n - 1)
  }

  function Scaled(mantissa: int, exponent: int): real {
    if exponent >= 0 then mantissa as real * Pow2(exponent) else mantissa as real / Pow2(-exponent)
  }

  predicate InDouble(mantissa: int, exponent: int) {
    -0x20_0000_0000_0000 < mantissa < 0x20_0000_0000_0000 && -1074 <= exponent <= 971
  }

  /** A finite number of the binary64 format of IEEE 754. */
  ghost predicate IsDouble(r: real) {
    exists mantissa, exponent :: InDouble(mantissa, exponent) && Scaled(mantissa, exponent) == r
  }

  /** The library conversions undo each other. */
  ghost predicate Faithful(c: Codec) {
    && (forall r :: IsDouble(r) ==> c.readFloat(c.str(Float(r))) == Some(r))
    && (forall b :: c.unbase64(c.base64(b)) == Some(b))
    && (forall t :: c.asTime(Time(t)) == Some(t))
    && (forall t :: c.readTime(c.timeText(t)) == Some(t))
  }

  // ----- A faithful codec

  ghost function DoubleText(r: real): string {
    if IsDouble(r) then
      var mantissa, exponent :| InDouble(mantissa, exponent) && Scaled(mantissa, exponent) == r;
      IntText(mantissa) + "p" + IntText(exponent)
    else "nan"
  }

  function ReadDouble(s: string): Option<real> {
    if exists i :: 0 <= i < |s| && s[i] == 'p' then
      var i := IndexOfP(s);
      var m, e := ReadInt(s[..i]), ReadInt(s[i + 1..]);
      if m.Some? && e.Some? then Some(Scaled(m.value, e.value)) else None
    else None
  }

  function IndexOfP(s: string): (i: nat)
    requires exists i :: 0 <= i < |s| && s[i] == 'p'
    ensures i < |s| && s[i] == 'p' && forall j :: 0 <= j < i ==> s[j] != 'p'
  {
    if s[0] == 'p' then 0 else 1 + IndexOfP(s[1..])
  }

  lemma ReadDoubleOfText(r: real)
    requires IsDouble(r)
    ensures ReadDouble(DoubleText(r)) == Some(r)
  {
    var mantissa, exponent :| InDouble(mantissa, exponent) && Scaled(mantissa, exponent) == r
      && DoubleText(r) == IntText(mantissa) + "p" + IntText(exponent);
    var m, e, s := IntText(mantissa), IntText(exponent), DoubleText(r);
    assert s[|m|] == 'p';
    forall j | 0 <= j < |m|
      ensures s[j] != 'p'
    {
      assert s[j] == m[j];
      assert j > 0 && mantissa < 0 ==> m[j] == NatText(-mantissa)[j - 1];
    }
    assert IndexOfP(s) == |m|;
    assert s[..|m|] == m && s[|m| + 1..] == e;
    ReadIntOfText(mantissa);
    ReadIntOfText(exponent);
  }

  function Chars(bytes: seq<byte>): string {
    seq(|bytes|, i requires 0 <= i < |bytes| => bytes[i] as char)
  }

  function Bytes(s: string): seq<byte> {
    seq(|s|, i requires 0 <= i < |s| => (s[i] as int % 256) as byte)
  }

  lemma BytesOfChars(bytes: seq<byte>)
    ensures Bytes(Chars(bytes)) == bytes
  {}

  ghost function PlainCodec(): Codec {
    Codec(
      (v: Value) => if v.Float? then DoubleText(v.f) else "",
      ReadDouble,
      Bytes,
      Chars,
      (s: string) => Some(Bytes(s)),
      (v: Value) => if v.Time? then Some(v.instant) else None,
      IntText,
      ReadInt)
  }

  /** The laws asked of a codec can be met. */
  lemma PlainCodecIsFaithful()
    ensures Faithful(PlainCodec())
  {
    var c := PlainCodec();
    forall r | IsDouble(r)
      ensures c.readFloat(c.str(Float(r))) == Some(r)
    {
      ReadDoubleOfText(r);
    }
    forall b
      ensures c.unbase64(c.base64(b)) == Some(b)
    {
      BytesOfChars(b);
    }
    forall t
      ensures c.readTime(c.timeText(t)) == Some(t)
    {
      ReadIntOfText(t);
    }
  }
}
