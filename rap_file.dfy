/** The RAP file under construction (class RAPFile): header fill from the
    sequence-number issuer's outputs, appending return details with a running
    total and count, and finalizing the audit block. */
module RapFileModel {
  import opened Wrappers
  import opened Octets
  import opened RapTypes
  import opened TapTypes
  import opened TapConstants

  /** Sum of charges, accumulated front to back as the running total is. */
  function Sum(xs: seq<int>): int
  {
    if xs == [] then 0 else Sum(xs[..|xs| - 1]) + xs[|xs| - 1]
  }

  lemma {:induction false} SumConcat(a: seq<int>, b: seq<int>)
    ensures Sum(a + b) == Sum(a) + Sum(b)
    decreases |b|
  {
    if b == [] {
      assert a + b == a;
    } else {
      var b' := b[..|b| - 1];
      assert (a + b)[..|a + b| - 1] == a + b';
      SumConcat(a, b');
    }
  }

  /** The accumulated total does not depend on the order in which the entries were
      appended: any permutation of the charges has the same sum. */
  lemma {:induction false} SumPermutation(a: seq<int>, b: seq<int>)
    requires multiset(a) == multiset(b)
    ensures Sum(a) == Sum(b)
    decreases |a|
  {
    if a != [] {
      var n := |a| - 1;
      var x := a[n];
      assert a == a[..n] + [x];
      assert x in multiset(b);
      var j :| 0 <= j < |b| && b[j] == x;
      var rest := b[..j] + b[j + 1..];
      assert b == b[..j] + [x] + b[j + 1..];
      assert multiset(b) == multiset(rest) + multiset{x};
      assert multiset(a) == multiset(a[..n]) + multiset{x};
      assert multiset(a[..n]) == multiset(a) - multiset{x} == multiset(rest);
      SumPermutation(a[..n], rest);
      SumConcat(b[..j] + [x], b[j + 1..]);
      SumConcat(b[..j], [x]);
      SumConcat(b[..j], b[j + 1..]);
      assert Sum([x]) == Sum([]) + x;
    }
  }

  // ---------------------------------------------------------------------------
  // OctetString_fromInt64

  lemma ShiftStep(v: nat, p: nat)
    ensures v * p == (v / 256) * (256 * p) + (v % 256) * p
  {
    assert v == (v / 256) * 256 + v % 256;
    calc {
      v * p;
      ((v / 256) * 256 + v % 256) * p;
      (v / 256) * 256 * p + (v % 256) * p;
      (v / 256) * (256 * p) + (v % 256) * p;
    }
  }

  /** One loop step: the low byte of v moves in front of the bytes written so far. */
  lemma ShiftInvariant(value: int, v: nat, k: nat, tail: seq<byte>)
    requires |tail| == k && value == v * Pow256(k) + BigEndian(tail)
    ensures value == (v / 256) * Pow256(k + 1) + BigEndian([(v % 256) as byte] + tail)
  {
    ShiftStep(v, Pow256(k));
    assert ([(v % 256) as byte] + tail)[1..] == tail;
  }

  lemma ShiftBound(v: nat, i: nat)
    requires 0 < i && v < 128 * Pow256(i)
    ensures v / 256 < 128 * Pow256(i - 1)
  {
    assert 128 * Pow256(i) == (128 * Pow256(i - 1)) * 256;
  }

  /** Writes value into an 8-byte buffer from the least significant end, stopping
      as soon as the shifted value is zero, then puts one 0x00 in front when the
      leading byte is 0x80 or above; the result is the minimal big-endian INTEGER
      content of the value, returned with its length.  The overflow exceptions of
      the source cannot be raised for a non-negative 64-bit value. */
  method OctetStringFromInt64(value: int) returns (octets: seq<byte>, len: int)
    requires 0 <= value < TWO_63
    ensures octets == Int64Content(value)
    ensures IsInt64Content(octets, value)
    ensures len == |octets|
  {
    var buf := new byte[8];
    var v := value;
    var i := 7;
    ghost var last := value;
    assert Pow256(7) * 128 == TWO_63;
    while true
      invariant 0 <= i <= 7
      invariant 0 <= v < 128 * Pow256(i)
      invariant i < 7 ==> v > 0
      invariant value == v * Pow256(7 - i) + BigEndian(buf[i + 1..])
      decreases i
    {
      last := v;
      ghost var tail := buf[i + 1..];
      buf[i] := (v % 256) as byte;
      assert buf[i..] == [buf[i]] + tail;
      ShiftInvariant(value, v, 7 - i, tail);
      v := v / 256;
      if v == 0 {
        break;
      }
      ShiftBound(last, i);
      i := i - 1;
    }
    // here v == 0 and buf[i..] holds the significant bytes
    assert last < 256 && buf[i] as int == last;
    assert value == BigEndian(buf[i..]);
    SignificantBytesContent(buf[i..], value);
    if buf[i] >= 0x80 {
      // it would read as negative: one more byte
      i := i - 1;
      buf[i] := 0;
      assert buf[i..] == [0 as byte] + buf[i + 1..];
    }
    octets := buf[i..];
    len := 8 - i;
    Int64ContentUnique(octets, value);
  }

  /** The significant bytes of a value, with a 0x00 sign guard in front when
      their leading byte is 0x80 or above, are its INTEGER content; the guard
      fits in 8 bytes. */
  lemma SignificantBytesContent(s: seq<byte>, value: int)
    requires 1 <= |s| <= 8 && BigEndian(s) == value
    requires |s| > 1 ==> s[0] != 0
    requires |s| == 8 ==> s[0] < 0x80
    ensures s[0] >= 0x80 ==> |s| < 8 && IsInt64Content([0 as byte] + s, value)
    ensures s[0] < 0x80 ==> IsInt64Content(s, value)
  {
    if s[0] >= 0x80 {
      var g := [0 as byte] + s;
      assert g[1..] == s;
      LeadingByteBound(g);
    }
  }

  // ---------------------------------------------------------------------------
  // The stored procedure that issues the RAP file number is outside the model:
  // its inputs are returned as a request and its outputs are a parameter.

  datatype IssueRequest = IssueRequest(recipientTapCode: string, roamingHubID: int, testData: int, date: string)

  datatype IssuedRapHeader = IssuedRapHeader(
    filename: string,
    sequenceNumber: string,
    mobileNetworkID: int,
    roamingHubName: string,
    timeStamp: string,
    utcOffset: string,
    tapVersion: int,
    tapRelease: int,
    rapVersion: int,
    rapRelease: int,
    tapDecimalPlaces: int,
    fileID: int)

  class RapFile {
    const roamingHubID: int
    var fileID: int
    var filename: string
    var fileSeqNum: string
    var roamingHubName: string
    /** None while no return batch is allocated (a null m_returnBatch). */
    var header: Option<RapBatchControlInfo>
    var returnDetails: seq<ReturnDetail>
    var audit: RapAuditControlInfo
    var totalSevereReturn: int
    var returnDetailsCount: int
    /** The charges passed to AddReturnDetail, in order. */
    ghost var charges: seq<int>

    /** Count and total always agree with the appended entries. */
    ghost predicate Valid()
      reads this
    {
      && returnDetailsCount == |charges| == |returnDetails|
      && totalSevereReturn == Sum(charges)
      && (header.None? ==> returnDetails == [])
    }

    predicate Created()
      reads this
    {
      fileID > 0
    }

    constructor (roamingHubID: int)
      ensures Valid() && !Created()
      ensures this.roamingHubID == roamingHubID
      ensures fileID == 0 && header.None? && returnDetails == [] && audit == ZeroAudit
      ensures totalSevereReturn == 0 && returnDetailsCount == 0 && charges == []
    {
      this.roamingHubID := roamingHubID;
      fileID := 0;
      filename, fileSeqNum, roamingHubName := "", "", "";
      header := None;
      returnDetails := [];
      audit := ZeroAudit;
      totalSevereReturn := 0;
      returnDetailsCount := 0;
      charges := [];
    }

    /** Asks the issuer for a RAP file (the request is returned; the answer is
        `issued`).  A negative file id is an Oracle error and no batch is built;
        otherwise the header is filled: sender and recipient verbatim from the TAP
        file, both time stamps from the issuer, the file type indicator only when
        one was given, which is also what flags the request as test data. */
    method Initialize(tapSender: string, tapRecipient: string, tapAvailableStamp: string,
                      fileTypeIndicator: string, issued: IssuedRapHeader)
      returns (rc: LoadCode, request: IssueRequest)
      requires Valid() && header.None?
      modifies this
      ensures Valid()
      ensures request == IssueRequest(tapSender, roamingHubID, if |fileTypeIndicator| > 0 then 1 else 0, tapAvailableStamp)
      ensures fileID == issued.fileID && filename == issued.filename
      ensures fileSeqNum == issued.sequenceNumber && roamingHubName == issued.roamingHubName
      ensures Created() <==> issued.fileID > 0
      ensures issued.fileID < 0 ==> rc == TL_ORACLEERROR && header.None?
      ensures issued.fileID >= 0 ==> rc == TL_OK && header.Some?
      ensures header.Some? ==>
        var h := header.value;
        && h.sender == tapSender && h.recipient == tapRecipient
        && h.rapFileSequenceNumber == issued.sequenceNumber
        && h.rapFileCreationTimeStamp == h.rapFileAvailableTimeStamp == TimeStamp(issued.timeStamp, issued.utcOffset)
        && h.tapDecimalPlaces == Some(issued.tapDecimalPlaces)
        && h.rapSpecificationVersionNumber == issued.rapVersion
        && h.rapReleaseVersionNumber == issued.rapRelease
        && h.specificationVersionNumber == Some(issued.tapVersion)
        && h.releaseVersionNumber == Some(issued.tapRelease)
        && (h.fileTypeIndicator.Some? <==> request.testData == 1)
        && (h.fileTypeIndicator.Some? ==> h.fileTypeIndicator.value == fileTypeIndicator)
      ensures returnDetails == [] && audit == old(audit) && charges == old(charges)
      ensures totalSevereReturn == old(totalSevereReturn) && returnDetailsCount == old(returnDetailsCount)
    {
      request := IssueRequest(tapSender, roamingHubID, if |fileTypeIndicator| > 0 then 1 else 0, tapAvailableStamp);
      filename := issued.filename;
      fileSeqNum := issued.sequenceNumber;
      roamingHubName := issued.roamingHubName;
      fileID := issued.fileID;
      if fileID < 0 {
        rc := TL_ORACLEERROR;
        return;
      }
      // sender and recipient keep the TAP file's values
      var stamp := TimeStamp(issued.timeStamp, issued.utcOffset);
      header := Some(RapBatchControlInfo(
        tapSender, tapRecipient, issued.sequenceNumber, stamp, stamp,
        Some(issued.tapDecimalPlaces), issued.rapVersion, issued.rapRelease,
        Some(issued.tapVersion), Some(issued.tapRelease),
        if fileTypeIndicator != [] then Some(fileTypeIndicator) else None));
      rc := TL_OK;
    }

    /** Appends one return detail at the end and adds its charge to the running
        total; earlier entries are unchanged. */
    method AddReturnDetail(returnDetail: ReturnDetail, callTotalCharge: int)
      requires Valid() && header.Some?
      modifies this
      ensures Valid()
      ensures returnDetails == old(returnDetails) + [returnDetail]
      ensures charges == old(charges) + [callTotalCharge]
      ensures totalSevereReturn == old(totalSevereReturn) + callTotalCharge
      ensures returnDetailsCount == old(returnDetailsCount) + 1
      ensures header == old(header) && audit == old(audit) && fileID == old(fileID)
      ensures filename == old(filename) && fileSeqNum == old(fileSeqNum) && roamingHubName == old(roamingHubName)
    {
      returnDetails := returnDetails + [returnDetail];
      totalSevereReturn := totalSevereReturn + callTotalCharge;
      returnDetailsCount := returnDetailsCount + 1;
      charges := charges + [callTotalCharge];
      assert charges[..|charges| - 1] == old(charges);
    }

    /** Copies the totals into the audit block: the count of return details and
        the INTEGER content of the total, which decodes back to the sum of the
        charges of all appended entries. */
    method Finalize()
      requires Valid() && header.Some?
      requires 0 <= totalSevereReturn < TWO_63
      modifies this`audit
      ensures Valid()
      ensures audit.returnDetailsCount == returnDetailsCount == |returnDetails|
      ensures audit.totalSevereReturnValue == Int64Content(totalSevereReturn)
      ensures DecodeInt64(audit.totalSevereReturnValue) == Success(Sum(charges))
    {
      var octets, _ := OctetStringFromInt64(totalSevereReturn);
      audit := RapAuditControlInfo(octets, returnDetailsCount);
      Int64RoundTrip(totalSevereReturn);
    }

    /** The totals part of LoadToDB: the same audit update as Finalize, then the
        batch that is handed to the database loader. */
    method LoadToDB() returns (batch: ReturnBatch)
      requires Valid() && header.Some?
      requires 0 <= totalSevereReturn < TWO_63
      modifies this`audit
      ensures Valid()
      ensures batch == ReturnBatch(header.value, returnDetails, audit)
      ensures audit.returnDetailsCount == |returnDetails|
      ensures audit.totalSevereReturnValue == Int64Content(totalSevereReturn)
      ensures DecodeInt64(audit.totalSevereReturnValue) == Success(Sum(charges))
    {
      Finalize();
      batch := ReturnBatch(header.value, returnDetails, audit);
    }
  }
}
