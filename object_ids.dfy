/**
 * MongoDB object ids: 12-byte values, written as 24 hexadecimal digits.
 * `Hex` is the driver's `ObjectID.Hex()` (lower-case digits) and
 * `ObjectIdFromHex` its `primitive.ObjectIDFromHex`, which accepts exactly
 * 24 hexadecimal digits of either case and rejects everything else.
 */
module ObjectIds {
  import opened Wrappers

  const HexWidth: nat := 24
  const ObjectIdBound: nat := 0x1_0000_0000_0000_0000_0000_0000

  type ObjectId = n: nat | n < ObjectIdBound

  /** `primitive.NilObjectID`, the zero id. */
  const NilObjectId: ObjectId := 0

  function Pow16(w: nat): (p: nat)
    ensures p > 0
  {
    if w == 0 then 1 else 16 * Pow16(w - 1)
  }

  /** The value of one hexadecimal digit, upper or lower case. */
  function DigitValue(c: char): (r: Option<nat>)
    ensures r.Some? ==> r.value < 16
  {
    if '0' <= c <= '9' then Some(c as nat - '0' as nat)
    else if 'a' <= c <= 'f' then Some(c as nat - 'a' as nat + 10)
    else if 'A' <= c <= 'F' then Some(c as nat - 'A' as nat + 10)
    else None
  }

  /** The lower-case digit for a value below 16. */
  function DigitChar(d: nat): (c: char)
    requires d < 16
    ensures DigitValue(c) == Some(d)
  {
    if d < 10 then ('0' as nat + d) as char else ('a' as nat + d - 10) as char
  }

  /** The last `w` hexadecimal digits of `n`, most significant first. */
  function ToHex(n: nat, w: nat): (s: string)
    ensures |s| == w
  {
    if w == 0 then "" else ToHex(n / 16, w - 1) + [DigitChar(n % 16)]
  }

  /** The value of a string of hexadecimal digits, or None if any character is not one. */
  function ParseHex(s: string): (r: Option<nat>)
    ensures r.Some? ==> r.value < Pow16(|s|)
  {
    if s == [] then Some(0)
    else
      match (ParseHex(s[..|s| - 1]), DigitValue(s[|s| - 1]))
      case (Some(high), Some(low)) => Some(high * 16 + low)
      case _ => None
  }

  /** `ObjectID.Hex()`: always 24 lower-case digits. */
  function Hex(id: ObjectId): (s: string)
    ensures |s| == HexWidth
  {
    ToHex(id, HexWidth)
  }

  /** `primitive.ObjectIDFromHex`: the id, or None when the text is not 24 hexadecimal digits. */
  function ObjectIdFromHex(s: string): (r: Option<ObjectId>)
    ensures r.Some? ==> |s| == HexWidth && ParseHex(s) == Some(r.value as nat)
    ensures r.None? ==> |s| != HexWidth || ParseHex(s).None?
  {
    if |s| != HexWidth then None
    else
      match ParseHex(s)
      case Some(n) =>
        IdSpace();
        Some(n)
      case None => None
  }

  /** 24 hexadecimal digits span exactly the 12-byte id space. */
  lemma IdSpace()
    ensures Pow16(HexWidth) == ObjectIdBound
  {
    Pow16Add(6, 6);
    Pow16Add(12, 12);
    assert Pow16(6) == 0x100_0000;
  }

  lemma {:induction false} Pow16Add(a: nat, b: nat)
    ensures Pow16(a + b) == Pow16(a) * Pow16(b)
  {
    if a > 0 {
      Pow16Add(a - 1, b);
    }
  }

  lemma {:induction false} ParseToHex(n: nat, w: nat)
    requires n < Pow16(w)
    ensures ParseHex(ToHex(n, w)) == Some(n)
  {
    if w > 0 {
      var s := ToHex(n, w);
      assert s[..|s| - 1] == ToHex(n / 16, w - 1);
      assert s[|s| - 1] == DigitChar(n % 16);
      ParseToHex(n / 16, w - 1);
    }
  }

  /** Printing an id and parsing it back gives the same id. */
  lemma HexRoundTrip(id: ObjectId)
    ensures ObjectIdFromHex(Hex(id)) == Some(id)
  {
    IdSpace();
    ParseToHex(id, HexWidth);
  }

  /** Two ids with the same printed form are the same id. */
  lemma HexInjective(a: ObjectId, b: ObjectId)
    requires Hex(a) == Hex(b)
    ensures a == b
  {
    HexRoundTrip(a);
    HexRoundTrip(b);
  }
}
