/** The early TAP validator (class TAPValidator): dispatch on the interchange
    kind, the mandatory-section check of a transfer batch, and the one-entry
    fatal RAP it builds when the audit control information is missing. */
module TapValidatorModel {
  import opened Wrappers
  import opened Octets
  import opened TapTypes
  import opened RapTypes
  import opened TapConstants
  import RapFileModel

  /** The RAP header values the validator would take from the database; the
      source still uses fixed placeholders for them (PlaceholderParams). */
  datatype RapParams = RapParams(
    rapSequenceNumber: string,
    rapCreationStamp: string,
    ourUTCOffset: string,
    tapVersion: int,
    tapRelease: int,
    rapVersion: int,
    rapRelease: int,
    tapDecimalPlaces: int,
    rapFilename: string,
    roamingHubName: string)

  const PlaceholderParams: RapParams :=
    RapParams("00001", "20151014100000", "+0300", 3, 12, 1, 5, 6, "RCRUS27NNNNN00001", "COMFONE_TEST")

  /** The five sections a transfer batch must carry. */
  predicate AllSectionsPresent(tb: TransferBatch)
  {
    && tb.batchControlInfo.Some?
    && tb.accountingInfo.Some?
    && tb.networkInfo.Some?
    && tb.auditControlInfo.Some?
    && tb.callEventDetails.Some?
  }

  /** The batch control fields the RAP builder reads without a null check. */
  predicate HasHeaderFields(tb: TransferBatch)
  {
    && tb.batchControlInfo.Some?
    && tb.batchControlInfo.value.sender.Some?
    && tb.batchControlInfo.value.recipient.Some?
    && tb.batchControlInfo.value.fileSequenceNumber.Some?
  }

  /** The fatal return for a missing audit control section: one transfer batch
      error holding a single error detail with code 36 and no context. */
  function AuditMissingReturn(fileSequenceNumber: string): ReturnDetail
  {
    FatalReturnDetail(FatalReturn(
      fileSequenceNumber,
      Some([ErrorDetail(TF_BATCH_AUDIT_CONTROL_INFO_MISSING, [])]),
      None, None, None, None, None, None, None))
  }

  /** Builds a return batch around one return detail: sender and recipient are
      the TAP file's, both time stamps are the creation stamp, the decimal places
      are present unless -1, the file type indicator is copied when the TAP file
      has one, the count is 1 and the total severe return value is zero. */
  method FillReturnBatch(tb: TransferBatch, returnDetail: ReturnDetail, params: RapParams)
    returns (rb: ReturnBatch)
    requires tb.batchControlInfo.Some?
    requires tb.batchControlInfo.value.sender.Some? && tb.batchControlInfo.value.recipient.Some?
    ensures rb.returnDetails == [returnDetail]
    ensures rb.rapAuditControlInfo.returnDetailsCount == 1
    ensures rb.rapAuditControlInfo.totalSevereReturnValue == [0]
    ensures DecodeInt64(rb.rapAuditControlInfo.totalSevereReturnValue) == Success(0)
    ensures var h := rb.rapBatchControlInfoRap; var bci := tb.batchControlInfo.value;
      && h.sender == bci.sender.value
      && h.recipient == bci.recipient.value
      && h.rapFileSequenceNumber == params.rapSequenceNumber
      && h.rapFileCreationTimeStamp == h.rapFileAvailableTimeStamp
      && h.rapFileCreationTimeStamp == TimeStamp(params.rapCreationStamp, params.ourUTCOffset)
      && (h.tapDecimalPlaces.Some? <==> params.tapDecimalPlaces != -1)
      && (h.tapDecimalPlaces.Some? ==> h.tapDecimalPlaces.value == params.tapDecimalPlaces)
      && h.rapSpecificationVersionNumber == params.rapVersion
      && h.rapReleaseVersionNumber == params.rapRelease
      && h.specificationVersionNumber == Some(params.tapVersion)
      && h.releaseVersionNumber == Some(params.tapRelease)
      && h.fileTypeIndicator == bci.fileTypeIndicator
  {
    var bci := tb.batchControlInfo.value;
    var stamp := TimeStamp(params.rapCreationStamp, params.ourUTCOffset);
    var decimalPlaces := if params.tapDecimalPlaces != -1 then Some(params.tapDecimalPlaces) else None;
    // sender and recipient are copied by value
    var header := RapBatchControlInfo(
      bci.sender.value, bci.recipient.value, params.rapSequenceNumber, stamp, stamp,
      decimalPlaces, params.rapVersion, params.rapRelease,
      Some(params.tapVersion), Some(params.tapRelease), bci.fileTypeIndicator);
    var total, _ := RapFileModel.OctetStringFromInt64(0);
    assert total == [0] by {
      assert MinimalBytes(0) == [0];
    }
    rb := ReturnBatch(header, [returnDetail], RapAuditControlInfo(total, 1));
    Int64RoundTrip(0);
  }

  /** A transfer batch is fatal exactly when one of its five sections is absent;
      a RAP is built only when it is the audit control section that is missing,
      carrying the batch's file sequence number. */
  method ValidateTransferBatch(tb: TransferBatch, params: RapParams)
    returns (result: ValidationResult, rap: Option<ReturnBatch>)
    requires tb.auditControlInfo.None? ==> HasHeaderFields(tb)
    ensures result == FatalError <==> !AllSectionsPresent(tb)
    ensures result == TapValid <==> AllSectionsPresent(tb)
    ensures rap.Some? <==> tb.auditControlInfo.None?
    ensures rap.Some? ==>
      && rap.value.returnDetails == [AuditMissingReturn(tb.batchControlInfo.value.fileSequenceNumber.value)]
      && rap.value.rapAuditControlInfo.returnDetailsCount == 1
      && rap.value.rapBatchControlInfoRap.sender == tb.batchControlInfo.value.sender.value
      && rap.value.rapBatchControlInfoRap.recipient == tb.batchControlInfo.value.recipient.value
    ensures rap.Some? ==>
      var h := rap.value.rapBatchControlInfoRap;
      && rap.value.rapAuditControlInfo.totalSevereReturnValue == [0]
      && h.rapFileSequenceNumber == params.rapSequenceNumber
      && h.rapFileCreationTimeStamp == h.rapFileAvailableTimeStamp
      && h.rapFileCreationTimeStamp == TimeStamp(params.rapCreationStamp, params.ourUTCOffset)
      && (h.tapDecimalPlaces.Some? <==> params.tapDecimalPlaces != -1)
      && h.fileTypeIndicator == tb.batchControlInfo.value.fileTypeIndicator
  {
    if !AllSectionsPresent(tb) {
      rap := None;
      if tb.auditControlInfo.None? {
        var returnDetail := AuditMissingReturn(tb.batchControlInfo.value.fileSequenceNumber.value);
        var returnBatch := FillReturnBatch(tb, returnDetail, params);
        rap := Some(returnBatch);
      }
      return FatalError, rap;
    }
    return TapValid, None;
  }

  /** A notification is always valid. */
  function ValidateNotification(notification: Notification): (r: ValidationResult)
    ensures r == TapValid
  {
    TapValid
  }

  /** Dispatches on the interchange kind: transfer batch check, notification
      check, and validation impossible for an empty choice. */
  method Validate(di: DataInterchange, params: RapParams)
    returns (result: ValidationResult, rap: Option<ReturnBatch>)
    requires di.TransferBatchChoice? && di.transferBatch.auditControlInfo.None? ==> HasHeaderFields(di.transferBatch)
    ensures di.TransferBatchChoice? ==>
      && (result == TapValid <==> AllSectionsPresent(di.transferBatch))
      && (result == FatalError <==> !AllSectionsPresent(di.transferBatch))
      && (rap.Some? <==> di.transferBatch.auditControlInfo.None?)
    ensures di.NotificationChoice? ==> result == TapValid && rap.None?
    ensures di.NothingPresent? ==> result == ValidationImpossible && rap.None?
  {
    match di
    case TransferBatchChoice(tb) =>
      result, rap := ValidateTransferBatch(tb, params);
    case NotificationChoice(n) =>
      result, rap := ValidateNotification(n), None;
    case NothingPresent =>
      result, rap := ValidationImpossible, None;
  }
}
