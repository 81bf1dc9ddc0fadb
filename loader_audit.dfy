/** The loader's audit reconciliation of a transfer batch: the running total of
    the billable ("00") charges of every call event, kept in an unsigned 64-bit
    counter, and its comparison with the batch's audit control information. */
module LoaderAudit {
  import opened Wrappers
  import opened Octets
  import opened TapTypes
  import opened TapConstants
  import LoaderCodec

  const BILLABLE_CHARGE_TYPE: string := "00"

  // ---------------------------------------------------------------------------
  // Specification of the sums

  /** Sum of two partial results, keeping the first failure in list order. */
  function Plus(a: Result<int, string>, b: Result<int, string>): Result<int, string>
  {
    match a
    case Failure(_) => a
    case Success(x) =>
      match b
      case Failure(_) => b
      case Success(y) => Success(x + y)
  }

  /** The unsigned 64-bit counter after adding a partial result. */
  function Accumulate(total: int, s: Result<int, string>): Result<int, string>
  {
    match s
    case Success(v) => Success((total + v) % TWO_64)
    case Failure(e) => Failure(e)
  }

  predicate IsBillable(d: ChargeDetail)
  {
    d.charge.Some? && d.chargeType == BILLABLE_CHARGE_TYPE
  }

  /** What one charge detail adds: its decoded charge when billable, else 0. */
  function DetailCharge(d: ChargeDetail): Result<int, string>
  {
    if IsBillable(d) then DecodeInt64(d.charge.value) else Success(0)
  }

  /** Sum of the charges of the first n details; the first that does not
      decode stops the sum. */
  function ChargeSumTo(details: seq<ChargeDetail>, n: nat): Result<int, string>
    requires n <= |details|
  {
    if n == 0 then Success(0) else Plus(ChargeSumTo(details, n - 1), DetailCharge(details[n - 1]))
  }

  function ChargeSum(details: seq<ChargeDetail>): Result<int, string>
  {
    ChargeSumTo(details, |details|)
  }

  function InfoCharge(info: ChargeInformation): Result<int, string>
  {
    ChargeSum(info.chargeDetailList)
  }

  function InfosSumTo(infos: seq<ChargeInformation>, n: nat): Result<int, string>
    requires n <= |infos|
  {
    if n == 0 then Success(0) else Plus(InfosSumTo(infos, n - 1), InfoCharge(infos[n - 1]))
  }

  function InfosSum(infos: seq<ChargeInformation>): Result<int, string>
  {
    InfosSumTo(infos, |infos|)
  }

  function ServiceCharge(service: BasicServiceUsed): Result<int, string>
  {
    InfosSum(service.chargeInformationList)
  }

  function ServicesSumTo(services: seq<BasicServiceUsed>, n: nat): Result<int, string>
    requires n <= |services|
  {
    if n == 0 then Success(0) else Plus(ServicesSumTo(services, n - 1), ServiceCharge(services[n - 1]))
  }

  function ServicesSum(services: seq<BasicServiceUsed>): Result<int, string>
  {
    ServicesSumTo(services, |services|)
  }

  /** The charge of one call event; supplementary service events and kinds
      without a handler add nothing. */
  function EventCharge(e: CallEventDetail): Result<int, string>
  {
    match e
    case MobileOriginatedCall(services) => ServicesSum(services)
    case MobileTerminatedCall(services) => ServicesSum(services)
    case GprsCall(infos) => InfosSum(infos)
    case SupplServiceEvent => Success(0)
    case OtherEvent(_) => Success(0)
  }

  /** Outcome of the call event loop: all events processed with the sum of
      their charges, stopped at the 1-based index of an event without handler,
      or aborted by a charge that does not decode. */
  datatype Tally = Counted(sum: int) | NoHandler(index: nat) | Aborted(error: string)

  /** The outcome after the first n events. */
  function TallyTo(events: seq<CallEventDetail>, n: nat, debugMode: bool): Tally
    requires n <= |events|
  {
    if n == 0 then Counted(0)
    else
      match TallyTo(events, n - 1, debugMode)
      case Counted(s) =>
        var e := events[n - 1];
        if e.OtherEvent? && !debugMode then NoHandler(n)
        else (match EventCharge(e)
              case Success(v) => Counted(s + v)
              case Failure(err) => Aborted(err))
      case other => other
  }

  function EventsTally(events: seq<CallEventDetail>, debugMode: bool): Tally
  {
    TallyTo(events, |events|, debugMode)
  }

  /** The audit control checks after the loop: missing declared values are a
      wrong code, a different count or (outside debug mode) a different total
      modulo 2^64 is an audit fault. */
  function CheckAuditControl(processed: int, totalCharge: int, audit: AuditControlInfo, debugMode: bool)
    : Result<LoadCode, string>
  {
    if audit.totalCharge.None? || audit.callEventDetailsCount.None? then Success(TL_WRONGCODE)
    else if processed != audit.callEventDetailsCount.value then Success(TL_AUDITFAULT)
    else if !debugMode then
      match DecodeInt64(audit.totalCharge.value)
      case Failure(e) => Failure(e)
      case Success(declared) =>
        if totalCharge % TWO_64 != declared % TWO_64 then Success(TL_AUDITFAULT) else Success(TL_OK)
    else Success(TL_OK)
  }

  /** An optional declared value that decodes: absent, or at most 8 bytes. */
  predicate DeclaredValueFits(v: Option<seq<byte>>)
  {
    v.None? || |v.value| <= 8
  }

  /** The three declared values the audit INSERT decodes before the event loop. */
  predicate DeclaredValuesFit(audit: AuditControlInfo)
  {
    && DeclaredValueFits(audit.totalCharge)
    && DeclaredValueFits(audit.totalTaxValue)
    && DeclaredValueFits(audit.totalDiscountValue)
  }

  /** Reference outcome of loading the call events of a batch and reconciling
      them with its audit control information (the counter starts at 0): the
      declared total, tax and discount values are decoded first, then the
      events are tallied and the audit checks run. */
  function Reconcile(events: seq<CallEventDetail>, audit: AuditControlInfo, debugMode: bool)
    : Result<LoadCode, string>
  {
    if !DeclaredValuesFit(audit) then Failure(OVERFLOW_MESSAGE)
    else match EventsTally(events, debugMode)
    case NoHandler(_) => Success(TL_NEWCOMPONENT)
    case Aborted(e) => Failure(e)
    case Counted(s) => CheckAuditControl(|events|, s % TWO_64, audit, debugMode)
  }

  // ---------------------------------------------------------------------------
  // Facts about the sums

  lemma ModAddStep(t: int, s: int, v: int)
    ensures ((t + s) % TWO_64 + v) % TWO_64 == (t + s + v) % TWO_64
  {
    var x := t + s;
    var q := x / TWO_64;
    assert x == q * TWO_64 + x % TWO_64;
    var y := x % TWO_64 + v;
    assert x + v == y + q * TWO_64;
    assert (y + q * TWO_64) % TWO_64 == y % TWO_64;
  }

  /** One loop step: adding a partial result to the counter that holds the sum
      so far is adding it to the sum. */
  lemma AccumulatePlus(total: int, a: Result<int, string>, b: Result<int, string>, t: int)
    requires Accumulate(total, a) == Success(t)
    ensures Accumulate(t, b) == Accumulate(total, Plus(a, b))
  {
    if a.Success? && b.Success? {
      ModAddStep(total, a.value, b.value);
    }
  }

  // A loop over a list keeps the counter equal to the sum of the prefix it has
  // read; a failing item ends the loop with the result of the whole list.

  lemma {:induction false} ChargeSumPrefixFailure(xs: seq<ChargeDetail>, i: nat)
    requires i <= |xs| && ChargeSumTo(xs, i).Failure?
    ensures ChargeSum(xs) == ChargeSumTo(xs, i)
    decreases |xs| - i
  {
    if i < |xs| {
      ChargeSumPrefixFailure(xs, i + 1);
    }
  }

  lemma ChargeSumLoopStep(total: int, xs: seq<ChargeDetail>, i: nat, t: int, step: Result<int, string>)
    requires i < |xs| && Accumulate(total, ChargeSumTo(xs, i)) == Success(t)
    requires step == Accumulate(t, DetailCharge(xs[i]))
    ensures step.Failure? ==> Accumulate(total, ChargeSum(xs)) == step
    ensures step.Success? ==> Accumulate(total, ChargeSumTo(xs, i + 1)) == step && 0 <= step.value < TWO_64
  {
    AccumulatePlus(total, ChargeSumTo(xs, i), DetailCharge(xs[i]), t);
    if step.Failure? {
      ChargeSumPrefixFailure(xs, i + 1);
    }
  }

  lemma {:induction false} InfosSumPrefixFailure(xs: seq<ChargeInformation>, i: nat)
    requires i <= |xs| && InfosSumTo(xs, i).Failure?
    ensures InfosSum(xs) == InfosSumTo(xs, i)
    decreases |xs| - i
  {
    if i < |xs| {
      InfosSumPrefixFailure(xs, i + 1);
    }
  }

  lemma InfosSumLoopStep(total: int, xs: seq<ChargeInformation>, i: nat, t: int, step: Result<int, string>)
    requires i < |xs| && Accumulate(total, InfosSumTo(xs, i)) == Success(t)
    requires step == Accumulate(t, InfoCharge(xs[i]))
    ensures step.Failure? ==> Accumulate(total, InfosSum(xs)) == step
    ensures step.Success? ==> Accumulate(total, InfosSumTo(xs, i + 1)) == step && 0 <= step.value < TWO_64
  {
    AccumulatePlus(total, InfosSumTo(xs, i), InfoCharge(xs[i]), t);
    if step.Failure? {
      InfosSumPrefixFailure(xs, i + 1);
    }
  }

  lemma {:induction false} ServicesSumPrefixFailure(xs: seq<BasicServiceUsed>, i: nat)
    requires i <= |xs| && ServicesSumTo(xs, i).Failure?
    ensures ServicesSum(xs) == ServicesSumTo(xs, i)
    decreases |xs| - i
  {
    if i < |xs| {
      ServicesSumPrefixFailure(xs, i + 1);
    }
  }

  lemma ServicesSumLoopStep(total: int, xs: seq<BasicServiceUsed>, i: nat, t: int, step: Result<int, string>)
    requires i < |xs| && Accumulate(total, ServicesSumTo(xs, i)) == Success(t)
    requires step == Accumulate(t, ServiceCharge(xs[i]))
    ensures step.Failure? ==> Accumulate(total, ServicesSum(xs)) == step
    ensures step.Success? ==> Accumulate(total, ServicesSumTo(xs, i + 1)) == step && 0 <= step.value < TWO_64
  {
    AccumulatePlus(total, ServicesSumTo(xs, i), ServiceCharge(xs[i]), t);
    if step.Failure? {
      ServicesSumPrefixFailure(xs, i + 1);
    }
  }

  function Billable(details: seq<ChargeDetail>): (r: seq<ChargeDetail>)
    ensures forall k | 0 <= k < |r| :: IsBillable(r[k])
  {
    if details == [] then []
    else
      var last := details[|details| - 1];
      Billable(details[..|details| - 1]) + (if IsBillable(last) then [last] else [])
  }

  /** The sum of the first n details depends only on those details. */
  lemma {:induction false} ChargeSumToPrefix(xs: seq<ChargeDetail>, ys: seq<ChargeDetail>, n: nat)
    requires n <= |xs| && n <= |ys| && xs[..n] == ys[..n]
    ensures ChargeSumTo(xs, n) == ChargeSumTo(ys, n)
  {
    if n > 0 {
      assert xs[..n - 1] == xs[..n][..n - 1] && ys[..n - 1] == ys[..n][..n - 1];
      assert xs[n - 1] == xs[..n][n - 1] && ys[n - 1] == ys[..n][n - 1];
      ChargeSumToPrefix(xs, ys, n - 1);
    }
  }

  lemma ChargeSumAppend(details: seq<ChargeDetail>, d: ChargeDetail)
    ensures ChargeSum(details + [d]) == Plus(ChargeSum(details), DetailCharge(d))
  {
    assert (details + [d])[..|details|] == details[..|details|];
    ChargeSumToPrefix(details + [d], details, |details|);
  }

  /** Only the billable details count: the sum over all details equals the sum
      over the billable ones. */
  lemma {:induction false} ChargeSumOnlyBillable(details: seq<ChargeDetail>)
    ensures ChargeSum(details) == ChargeSum(Billable(details))
  {
    if details != [] {
      var init := details[..|details| - 1];
      var last := details[|details| - 1];
      ChargeSumOnlyBillable(init);
      assert details == init + [last];
      ChargeSumAppend(init, last);
      if IsBillable(last) {
        ChargeSumAppend(Billable(init), last);
      } else {
        assert Billable(details) == Billable(init);
      }
    }
  }

  /** Outside debug mode, the first event without a handler stops the load with
      its 1-based index, provided the events before it decoded. */
  lemma FirstUnknownEventStops(events: seq<CallEventDetail>, k: nat)
    requires k < |events| && events[k].OtherEvent?
    requires TallyTo(events, k, false).Counted?
    ensures EventsTally(events, false) == NoHandler(k + 1)
  {
    TallyPrefixStops(events, k + 1, false);
  }

  /** A batch loads and reconciles exactly when the declared total, tax and
      discount values decode, every event was processed, the declared count and
      total are present, the count equals the number of events and, outside
      debug mode, the declared total equals the charge sum modulo 2^64. */
  lemma ReconcileOk(events: seq<CallEventDetail>, audit: AuditControlInfo, debugMode: bool)
    ensures Reconcile(events, audit, debugMode) == Success(TL_OK) <==>
      (DeclaredValuesFit(audit)
       && EventsTally(events, debugMode).Counted?
       && audit.totalCharge.Some? && audit.callEventDetailsCount.Some?
       && audit.callEventDetailsCount.value == |events|
       && (!debugMode ==>
             DecodeInt64(audit.totalCharge.value).Success?
             && (EventsTally(events, debugMode).sum - DecodeInt64(audit.totalCharge.value).value) % TWO_64 == 0))
  {
    if DeclaredValuesFit(audit) && EventsTally(events, debugMode).Counted? && !debugMode
       && audit.totalCharge.Some? && DecodeInt64(audit.totalCharge.value).Success? {
      var s := EventsTally(events, debugMode).sum;
      var d := DecodeInt64(audit.totalCharge.value).value;
      ModDiff(s, d);
    }
  }

  /** Which audit check decides which outcome: a missing declared value is a
      wrong code; a different count, or outside debug mode a total that differs
      modulo 2^64 from the decoded declared one, is an audit fault; a declared
      total that does not decode aborts; everything else is TL_OK. */
  lemma CheckAuditOutcomes(processed: int, totalCharge: int, audit: AuditControlInfo, debugMode: bool)
    ensures CheckAuditControl(processed, totalCharge, audit, debugMode) == Success(TL_WRONGCODE)
        <==> audit.totalCharge.None? || audit.callEventDetailsCount.None?
    ensures CheckAuditControl(processed, totalCharge, audit, debugMode) == Success(TL_AUDITFAULT)
        <==> && audit.totalCharge.Some? && audit.callEventDetailsCount.Some?
             && (|| processed != audit.callEventDetailsCount.value
                 || (&& !debugMode && |audit.totalCharge.value| <= 8
                     && totalCharge % TWO_64 != DecodeInt64(audit.totalCharge.value).value % TWO_64))
    ensures CheckAuditControl(processed, totalCharge, audit, debugMode) == Failure(OVERFLOW_MESSAGE)
        <==> && audit.totalCharge.Some? && audit.callEventDetailsCount.Some?
             && processed == audit.callEventDetailsCount.value
             && !debugMode && |audit.totalCharge.value| > 8
    ensures CheckAuditControl(processed, totalCharge, audit, debugMode) == Success(TL_OK)
        <==> && audit.totalCharge.Some? && audit.callEventDetailsCount.Some?
             && processed == audit.callEventDetailsCount.value
             && (!debugMode ==> && |audit.totalCharge.value| <= 8
                                && totalCharge % TWO_64 == DecodeInt64(audit.totalCharge.value).value % TWO_64)
  {
  }

  lemma ModDiff(s: int, d: int)
    ensures (s % TWO_64) % TWO_64 == d % TWO_64 <==> (s - d) % TWO_64 == 0
  {
    var qs, qd := s / TWO_64, d / TWO_64;
    assert s == qs * TWO_64 + s % TWO_64;
    assert d == qd * TWO_64 + d % TWO_64;
    var r := s % TWO_64 - d % TWO_64;
    assert s - d == r + (qs - qd) * TWO_64;
    assert (r + (qs - qd) * TWO_64) % TWO_64 == r % TWO_64;
    assert -TWO_64 < r < TWO_64;
  }

  // ---------------------------------------------------------------------------
  // The loops

  /** The body of the charge detail loop: only a present "00" charge is decoded. */
  method DecodeDetailCharge(d: ChargeDetail) returns (step: Result<int, string>)
    ensures step == DetailCharge(d)
  {
    step := Success(0);
    if d.charge.Some? {
      if d.chargeType == BILLABLE_CHARGE_TYPE {
        step := LoaderCodec.OctetStr2Int64(d.charge.value);
      }
    }
  }

  /** The charge detail loop of ProcessChrInfo: each billable charge is decoded
      and added to the 64-bit counter. */
  method AddChargeDetails(total: int, details: seq<ChargeDetail>) returns (r: Result<int, string>)
    requires 0 <= total < TWO_64
    ensures r == Accumulate(total, ChargeSum(details))
  {
    var t := total;
    var i := 0;
    while i < |details|
      invariant 0 <= i <= |details| && 0 <= t < TWO_64
      invariant Accumulate(total, ChargeSumTo(details, i)) == Success(t)
    {
      var step := DecodeDetailCharge(details[i]);
      ChargeSumLoopStep(total, details, i, t, Accumulate(t, step));
      if step.Failure? {
        return Failure(step.error);
      }
      t := (t + step.value) % TWO_64;
      i := i + 1;
    }
    r := Success(t);
  }

  /** The charge information loop of a basic service (or of a GPRS call). */
  method AddChargeInformation(total: int, infos: seq<ChargeInformation>) returns (r: Result<int, string>)
    requires 0 <= total < TWO_64
    ensures r == Accumulate(total, InfosSum(infos))
  {
    var t := total;
    var i := 0;
    while i < |infos|
      invariant 0 <= i <= |infos| && 0 <= t < TWO_64
      invariant Accumulate(total, InfosSumTo(infos, i)) == Success(t)
    {
      var step := AddChargeDetails(t, infos[i].chargeDetailList);
      assert step == Accumulate(t, InfoCharge(infos[i]));
      InfosSumLoopStep(total, infos, i, t, step);
      if step.Failure? {
        return step;
      }
      t := step.value;
      i := i + 1;
    }
    r := Success(t);
  }

  /** The basic service loop of a mobile originated or terminated call. */
  method AddBasicServices(total: int, services: seq<BasicServiceUsed>) returns (r: Result<int, string>)
    requires 0 <= total < TWO_64
    ensures r == Accumulate(total, ServicesSum(services))
  {
    var t := total;
    var i := 0;
    while i < |services|
      invariant 0 <= i <= |services| && 0 <= t < TWO_64
      invariant Accumulate(total, ServicesSumTo(services, i)) == Success(t)
    {
      var step := AddChargeInformation(t, services[i].chargeInformationList);
      assert step == Accumulate(t, ServiceCharge(services[i]));
      ServicesSumLoopStep(total, services, i, t, step);
      if step.Failure? {
        return step;
      }
      t := step.value;
      i := i + 1;
    }
    r := Success(t);
  }

  /** The charge of one event added to the counter, dispatched on its kind. */
  method AddEventCharge(total: int, e: CallEventDetail) returns (r: Result<int, string>)
    requires 0 <= total < TWO_64
    ensures r == Accumulate(total, EventCharge(e))
  {
    match e
    case MobileOriginatedCall(services) =>
      r := AddBasicServices(total, services);
    case MobileTerminatedCall(services) =>
      r := AddBasicServices(total, services);
    case GprsCall(infos) =>
      r := AddChargeInformation(total, infos);
    case SupplServiceEvent =>
      // ignored
      r := Success(total);
    case OtherEvent(_) =>
      r := Success(total);
  }

  /** Once the loop has stopped, later events change nothing. */
  lemma {:induction false} TallyPrefixStops(events: seq<CallEventDetail>, i: nat, debugMode: bool)
    requires i <= |events| && !TallyTo(events, i, debugMode).Counted?
    ensures EventsTally(events, debugMode) == TallyTo(events, i, debugMode)
    decreases |events| - i
  {
    if i < |events| {
      TallyPrefixStops(events, i + 1, debugMode);
    }
  }

  /** The decoding of the declared total, tax and discount values for the
      audit INSERT of LoadTAPFileToDB, in that order. */
  method DecodeDeclaredValues(audit: AuditControlInfo) returns (r: Result<(), string>)
    ensures r.Success? <==> DeclaredValuesFit(audit)
    ensures r.Failure? ==> r.error == OVERFLOW_MESSAGE
  {
    var values := [audit.totalCharge, audit.totalTaxValue, audit.totalDiscountValue];
    var i := 0;
    while i < |values|
      invariant 0 <= i <= |values|
      invariant forall j :: 0 <= j < i ==> DeclaredValueFits(values[j])
    {
      if values[i].Some? {
        var decoded := LoaderCodec.OctetStr2Int64(values[i].value);
        if decoded.Failure? {
          return Failure(decoded.error);
        }
      }
      i := i + 1;
    }
    assert DeclaredValueFits(values[0]) && DeclaredValueFits(values[1]) && DeclaredValueFits(values[2]);
    return Success(());
  }

  /** The audit INSERT's decoding of the declared values, the call event loop
      of LoadTAPFileToDB and the audit control checks; the counter is the
      process-wide total, 0 before the batch. */
  method LoadCallEvents(events: seq<CallEventDetail>, audit: AuditControlInfo, debugMode: bool)
    returns (r: Result<LoadCode, string>)
    ensures r == Reconcile(events, audit, debugMode)
  {
    var declared := DecodeDeclaredValues(audit);
    if declared.Failure? {
      return Failure(declared.error);
    }
    var totalCharge := 0;
    var index := 1;
    while index <= |events|
      invariant 1 <= index <= |events| + 1 && 0 <= totalCharge < TWO_64
      invariant TallyTo(events, index - 1, debugMode).Counted?
      invariant totalCharge == TallyTo(events, index - 1, debugMode).sum % TWO_64
    {
      var e := events[index - 1];
      if e.OtherEvent? && !debugMode {
        TallyPrefixStops(events, index, debugMode);
        return Success(TL_NEWCOMPONENT);
      }
      var step := AddEventCharge(totalCharge, e);
      if step.Failure? {
        TallyPrefixStops(events, index, debugMode);
        return Failure(step.error);
      }
      ModAddStep(0, TallyTo(events, index - 1, debugMode).sum, EventCharge(e).value);
      totalCharge := step.value;
      index := index + 1;
    }
    r := CheckAudit(index - 1, totalCharge, audit, debugMode);
  }

  /** The audit control checks after the call event loop. */
  method CheckAudit(processed: int, totalCharge: int, audit: AuditControlInfo, debugMode: bool)
    returns (r: Result<LoadCode, string>)
    requires 0 <= totalCharge < TWO_64
    ensures r == CheckAuditControl(processed, totalCharge, audit, debugMode)
  {
    if audit.totalCharge.None? || audit.callEventDetailsCount.None? {
      return Success(TL_WRONGCODE);
    }
    if processed != audit.callEventDetailsCount.value {
      return Success(TL_AUDITFAULT);
    }
    if !debugMode {
      var declared := LoaderCodec.OctetStr2Int64(audit.totalCharge.value);
      if declared.Failure? {
        return Failure(declared.error);
      }
      if totalCharge != declared.value % TWO_64 {
        return Success(TL_AUDITFAULT);
      }
    }
    return Success(TL_OK);
  }
}
