/** The part of a decoded TD.57 data interchange that the loader and the early
    validator look at.  Every OPTIONAL component (a field that may be null in
    the decoded tree) is an Option. */
module TapTypes {
  import opened Wrappers
  import opened Octets

  datatype TimeStamp = TimeStamp(localTimeStamp: string, utcTimeOffset: string)

  datatype BatchControlInfo = BatchControlInfo(
    sender: Option<string>,
    recipient: Option<string>,
    fileSequenceNumber: Option<string>,
    fileAvailableTimeStamp: Option<TimeStamp>,
    fileTypeIndicator: Option<string>,
    specificationVersionNumber: Option<int>,
    releaseVersionNumber: Option<int>)

  datatype AccountingInfo = AccountingInfo(
    localCurrency: Option<string>,
    tapDecimalPlaces: Option<int>)

  datatype UtcTimeOffsetInfo = UtcTimeOffsetInfo(utcTimeOffsetCode: int, utcTimeOffset: string)

  datatype RecEntityInformation = RecEntityInformation(recEntityCode: int, recEntityType: int, recEntityId: string)

  /** The two tables of NetworkInfo that the loader's lookups walk. */
  datatype NetworkInfo = NetworkInfo(
    utcTimeOffsetInfo: seq<UtcTimeOffsetInfo>,
    recEntityInfo: seq<RecEntityInformation>)

  datatype AuditControlInfo = AuditControlInfo(
    totalCharge: Option<seq<byte>>,
    totalTaxValue: Option<seq<byte>>,
    totalDiscountValue: Option<seq<byte>>,
    callEventDetailsCount: Option<int>)

  /** One charge detail: a two-character type ("00" is the billable total) and
      an optional INTEGER charge in octet form. */
  datatype ChargeDetail = ChargeDetail(chargeType: string, charge: Option<seq<byte>>)

  datatype ChargeInformation = ChargeInformation(chargeDetailList: seq<ChargeDetail>)

  datatype BasicServiceUsed = BasicServiceUsed(chargeInformationList: seq<ChargeInformation>)

  /** Call event kinds; OtherEvent stands for every kind the loader has no handler for. */
  datatype CallEventDetail =
    | MobileOriginatedCall(basicServiceUsedList: seq<BasicServiceUsed>)
    | MobileTerminatedCall(basicServiceUsedList: seq<BasicServiceUsed>)
    | SupplServiceEvent
    | GprsCall(chargeInformationList: seq<ChargeInformation>)
    | OtherEvent(present: int)

  datatype TransferBatch = TransferBatch(
    batchControlInfo: Option<BatchControlInfo>,
    accountingInfo: Option<AccountingInfo>,
    networkInfo: Option<NetworkInfo>,
    auditControlInfo: Option<AuditControlInfo>,
    callEventDetails: Option<seq<CallEventDetail>>)

  datatype Notification = Notification(
    sender: Option<string>,
    recipient: Option<string>,
    fileSequenceNumber: Option<string>)

  /** The CHOICE at the root of a TAP file; NothingPresent is an empty choice. */
  datatype DataInterchange =
    | TransferBatchChoice(transferBatch: TransferBatch)
    | NotificationChoice(notification: Notification)
    | NothingPresent
}
