/** The loader's first-match lookups in the network information of the loaded
    transfer batch.  An absent network information stands for "no TAP
    interchange loaded" (a RAP file is being loaded). */
module LoaderLookup {
  import opened Wrappers
  import opened Octets
  import opened Decimal
  import opened TapTypes

  const UNKNOWN_UTC_OFFSET: string := "???"
  const WRONG_REC_ENTITY_CODE: string := "e_wrong_rec_entity_code"

  /** Decimal text of an int converted to unsigned long long (negative values
      wrap to 2^64 + n). */
  function UnsignedDecimal(n: int): string
    requires INT_MIN <= n <= INT_MAX
  {
    NatToString(if n < 0 then n + TWO_64 else n)
  }

  predicate NoUtcMatch(t: seq<UtcTimeOffsetInfo>, code: int)
  {
    forall k | 0 <= k < |t| :: t[k].utcTimeOffsetCode != code
  }

  predicate IsFirstUtcMatch(t: seq<UtcTimeOffsetInfo>, code: int, k: int)
  {
    0 <= k < |t| && t[k].utcTimeOffsetCode == code && NoUtcMatch(t[..k], code)
  }

  /** The offset of the first entry with the code, "???" when none has it, and
      the code's own unsigned decimal text when no interchange is loaded. */
  method GetUtcOffset(network: Option<NetworkInfo>, nCode: int) returns (offset: string)
    requires INT_MIN <= nCode <= INT_MAX
    ensures network.None? ==> offset == UnsignedDecimal(nCode)
    ensures network.Some? && NoUtcMatch(network.value.utcTimeOffsetInfo, nCode) ==> offset == UNKNOWN_UTC_OFFSET
    ensures network.Some? && !NoUtcMatch(network.value.utcTimeOffsetInfo, nCode) ==>
      exists k :: IsFirstUtcMatch(network.value.utcTimeOffsetInfo, nCode, k)
                  && offset == network.value.utcTimeOffsetInfo[k].utcTimeOffset
  {
    if network.None? {
      return UnsignedDecimal(nCode);
    }
    var table := network.value.utcTimeOffsetInfo;
    var i := 0;
    while i < |table|
      invariant 0 <= i <= |table|
      invariant NoUtcMatch(table[..i], nCode)
    {
      if table[i].utcTimeOffsetCode == nCode {
        assert IsFirstUtcMatch(table, nCode, i);
        return table[i].utcTimeOffset;
      }
      assert table[..i + 1] == table[..i] + [table[i]];
      i := i + 1;
    }
    assert table[..i] == table;
    return UNKNOWN_UTC_OFFSET;
  }

  /** Name of a recording entity type code of TD.57; None for other codes. */
  function RecEntityTypeName(code: int): (r: Option<string>)
    ensures r.Some? <==> 1 <= code <= 11
    ensures r.Some? ==> r.value != ""
  {
    if code == 1 then Some("MSC")
    else if code == 2 then Some("SMSC")
    else if code == 3 then Some("GGSN/P-GW")
    else if code == 4 then Some("SGSN")
    else if code == 5 then Some("GMLC")
    else if code == 6 then Some("Wi-Fi")
    else if code == 7 then Some("P-GW")
    else if code == 8 then Some("S-GW")
    else if code == 9 then Some("P-CSCF")
    else if code == 10 then Some("TRF")
    else if code == 11 then Some("ATCF")
    else None
  }

  /** The type text after a match: the name of a known code, else unchanged. */
  function TypeAfterMatch(code: int, recEntityType: string): string
  {
    match RecEntityTypeName(code)
    case Some(name) => name
    case None => recEntityType
  }

  predicate NoRecMatch(t: seq<RecEntityInformation>, code: int)
  {
    forall k | 0 <= k < |t| :: t[k].recEntityCode != code
  }

  predicate IsFirstRecMatch(t: seq<RecEntityInformation>, code: int, k: int)
  {
    0 <= k < |t| && t[k].recEntityCode == code && NoRecMatch(t[..k], code)
  }

  /** The id of the first recording entity with the code, together with the new
      value of the caller's type string.  No matching entry raises
      "e_wrong_rec_entity_code"; with no interchange loaded the id is
      "Code: " and the code's unsigned decimal text, and the type is cleared. */
  method GetRecordingEntity(network: Option<NetworkInfo>, nCode: int, recEntityType: string)
    returns (r: Result<(string, string), string>)
    requires INT_MIN <= nCode <= INT_MAX
    ensures network.None? ==> r == Success(("Code: " + UnsignedDecimal(nCode), ""))
    ensures network.Some? && NoRecMatch(network.value.recEntityInfo, nCode) ==> r == Failure(WRONG_REC_ENTITY_CODE)
    ensures network.Some? && !NoRecMatch(network.value.recEntityInfo, nCode) ==>
      exists k :: IsFirstRecMatch(network.value.recEntityInfo, nCode, k)
                  && r == Success((network.value.recEntityInfo[k].recEntityId,
                                   TypeAfterMatch(network.value.recEntityInfo[k].recEntityType, recEntityType)))
  {
    if network.None? {
      return Success(("Code: " + UnsignedDecimal(nCode), ""));
    }
    var table := network.value.recEntityInfo;
    var i := 0;
    while i < |table|
      invariant 0 <= i <= |table|
      invariant NoRecMatch(table[..i], nCode)
    {
      if table[i].recEntityCode == nCode {
        var newType := recEntityType;
        match RecEntityTypeName(table[i].recEntityType) {
          case Some(name) => newType := name;
          case None =>
        }
        assert IsFirstRecMatch(table, nCode, i);
        return Success((table[i].recEntityId, newType));
      }
      assert table[..i + 1] == table[..i] + [table[i]];
      i := i + 1;
    }
    assert table[..i] == table;
    return Failure(WRONG_REC_ENTITY_CODE);
  }

  /** The unsigned text of a negative code is that of 2^64 + code, so it is never
      a "-" text and always reads back as a natural number. */
  lemma UnsignedDecimalValue(n: int)
    requires INT_MIN <= n <= INT_MAX
    ensures DigitsValue(UnsignedDecimal(n)) == (if n < 0 then n + TWO_64 else n)
  {
    NatToStringValue(if n < 0 then n + TWO_64 else n);
  }
}
