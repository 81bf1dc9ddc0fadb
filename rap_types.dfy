/** The TD.32 return batch (RAP file) as far as the builder fills it. */
module RapTypes {
  import opened Wrappers
  import opened Octets
  import TapTypes

  datatype ErrorContext = ErrorContext(pathItemId: int, itemLevel: int, itemOccurrence: Option<int>)

  datatype ErrorDetail = ErrorDetail(errorCode: int, errorContext: seq<ErrorContext>)

  /** A fatal return: the file sequence number and one error section per part of
      the TAP file (each an error detail list), plus operator-specific texts. */
  datatype FatalReturn = FatalReturn(
    fileSequenceNumber: string,
    transferBatchError: Option<seq<ErrorDetail>>,
    batchControlError: Option<seq<ErrorDetail>>,
    accountingInfoError: Option<seq<ErrorDetail>>,
    networkInfoError: Option<seq<ErrorDetail>>,
    messageDescriptionError: Option<seq<ErrorDetail>>,
    auditControlInfoError: Option<seq<ErrorDetail>>,
    notificationError: Option<seq<ErrorDetail>>,
    operatorSpecList: Option<seq<string>>)

  datatype ReturnDetail =
    | FatalReturnDetail(fatalReturn: FatalReturn)
    | SevereReturnDetail(fileSequenceNumber: string, callEventDetail: TapTypes.CallEventDetail,
                         errorDetail: seq<ErrorDetail>, operatorSpecList: Option<seq<string>>)
    | StopReturnDetail(rapFileSequenceNumber: string, operatorSpecList: Option<seq<string>>)
    | MissingReturnDetail(startMissingSeqNumber: string, endMissingSeqNumber: string,
                          operatorSpecList: Option<seq<string>>)

  datatype RapBatchControlInfo = RapBatchControlInfo(
    sender: string,
    recipient: string,
    rapFileSequenceNumber: string,
    rapFileCreationTimeStamp: TapTypes.TimeStamp,
    rapFileAvailableTimeStamp: TapTypes.TimeStamp,
    tapDecimalPlaces: Option<int>,
    rapSpecificationVersionNumber: int,
    rapReleaseVersionNumber: int,
    specificationVersionNumber: Option<int>,
    releaseVersionNumber: Option<int>,
    fileTypeIndicator: Option<string>)

  datatype RapAuditControlInfo = RapAuditControlInfo(totalSevereReturnValue: seq<byte>, returnDetailsCount: int)

  /** A freshly allocated (zero-filled) audit block: empty octet string, count 0. */
  const ZeroAudit: RapAuditControlInfo := RapAuditControlInfo([], 0)

  datatype ReturnBatch = ReturnBatch(
    rapBatchControlInfoRap: RapBatchControlInfo,
    returnDetails: seq<ReturnDetail>,
    rapAuditControlInfo: RapAuditControlInfo)
}
