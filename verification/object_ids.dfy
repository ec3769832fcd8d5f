/** MongoDB ObjectIDs as the tour service sees them: a 96-bit number written as
    24 hexadecimal digits. Handlers parse request ids with `ObjectIDFromHex`
    (services/tour-service/internal/handlers/tour_handler.go) and answer with
    `.Hex()`, so an id the service hands out must parse back to itself. */
module ObjectIds {
  import opened Wrappers

  type ObjectId = nat

  /** The nil ObjectID `000000000000000000000000`. With `_id,omitempty` on every record,
      an insert never stores it: the driver generates a non-nil id instead. */
  const NilId: ObjectId := 0

  /** Number of hexadecimal digits of an ObjectID (12 bytes). */
  const HexLength: nat := 24

  function Pow16(k: nat): (r: nat)
    ensures r >= 1
  {
    if k == 0 then 1 else 16 * Pow16(k - 1)
  }

  predicate IsHexDigit(c: char) {
    ('0' <= c <= '9') || ('a' <= c <= 'f') || ('A' <= c <= 'F')
  }

  function HexValue(c: char): (v: nat)
    requires IsHexDigit(c)
    ensures v < 16
  {
    if '0' <= c <= '9' then c as nat - '0' as nat
    else if 'a' <= c <= 'f' then c as nat - 'a' as nat + 10
    else c as nat - 'A' as nat + 10
  }

  /** The lower-case digit that `.Hex()` writes for a value below 16. */
  function HexChar(v: nat): (c: char)
    requires v < 16
    ensures IsHexDigit(c) && HexValue(c) == v
  {
    if v < 10 then ('0' as nat + v) as char else ('a' as nat + v - 10) as char
  }

  predicate AllHex(s: string) {
    forall i :: 0 <= i < |s| ==> IsHexDigit(s[i])
  }

  /** Big-endian value of a string of hexadecimal digits. */
  function ParseHex(s: string): (n: nat)
    requires AllHex(s)
    ensures n < Pow16(|s|)
  {
    if s == [] then 0
    else
      var init := s[..|s| - 1];
      ParseHex(init) * 16 + HexValue(s[|s| - 1])
  }

  /** The `k` low-order hexadecimal digits of `n`, most significant first. */
  function HexDigits(n: nat, k: nat): (s: string)
    ensures |s| == k && AllHex(s)
  {
    if k == 0 then [] else HexDigits(n / 16, k - 1) + [HexChar(n % 16)]
  }

  /** `primitive.ObjectIDFromHex`: exactly 24 hexadecimal digits, either case. */
  function ObjectIDFromHex(s: string): (r: Option<ObjectId>)
    ensures r.Some? <==> |s| == HexLength && AllHex(s)
    ensures r.Some? ==> r.value < Pow16(HexLength)
  {
    if |s| == HexLength && AllHex(s) then Some(ParseHex(s)) else None
  }

  /** `ObjectID.Hex()`: 24 lower-case digits. */
  function Hex(id: ObjectId): (s: string)
    requires id < Pow16(HexLength)
    ensures |s| == HexLength && AllHex(s)
  {
    HexDigits(id, HexLength)
  }

  lemma {:induction false} ParseHexDigits(n: nat, k: nat)
    requires n < Pow16(k)
    ensures ParseHex(HexDigits(n, k)) == n
  {
    if k > 0 {
      var s := HexDigits(n, k);
      assert s[..|s| - 1] == HexDigits(n / 16, k - 1);
      assert n / 16 < Pow16(k - 1) by {
        assert n < 16 * Pow16(k - 1);
      }
      ParseHexDigits(n / 16, k - 1);
    }
  }

  /** Every id the service writes out is accepted again by the next request. */
  lemma HexRoundTrip(id: ObjectId)
    requires id < Pow16(HexLength)
    ensures ObjectIDFromHex(Hex(id)) == Some(id)
  {
    ParseHexDigits(id, HexLength);
  }
}
