/**
  Failure classification (app/core/failures.py) and the two `except` clauses of
  `_claim_and_call` that dispatch on it (app/crm/service.py:2382-2420).
*/
module Failures {
  import opened Common

  datatype Category = Transient | Permanent | Unknown | UserAbandoned

  /** The explicit marker classes an adapter may raise. */
  datatype Marker = NoMarker | PermanentMarker | RetryableMarker

  /** Built-in Python base class of a raised error. A permission error is also an OS error. */
  datatype RaisedClass =
    | TimeoutClass | ConnectionClass | PermissionClass | OsClass
    | ValueClass | LookupClass | OtherClass

  /**
    `adapterCategory`, `httpStatus` are the attributes of that name when present;
    `responseCode` is the stripped text of `sub_code or error_code`, "" when neither is usable.
  */
  datatype TaskError = TaskError(
    marker: Marker,
    adapterCategory: Option<string>,
    httpStatus: Option<int>,
    responseCode: string,
    raised: RaisedClass,
    typeName: string)

  const PERMANENT_ADAPTER_CATEGORIES: set<string> :=
    {"authentication", "business", "business_rejection", "duplicate_target_unavailable", "malformed_response"}

  const KNOWN_ADAPTER_CATEGORIES: set<string> := PERMANENT_ADAPTER_CATEGORIES + {"transport", "gateway"}

  predicate IsDecimal(s: string) {
    s != "" && forall i :: 0 <= i < |s| ==> '0' <= s[i] <= '9'
  }

  function DecimalValue(s: string): (n: nat)
    requires forall i :: 0 <= i < |s| ==> '0' <= s[i] <= '9'
  {
    if s == "" then 0
    else DecimalValue(s[..|s| - 1]) * 10 + (s[|s| - 1] as int - '0' as int)
  }

  predicate IsServerErrorCode(code: string) {
    IsDecimal(code) && 500 <= DecimalValue(code) < 600
  }

  predicate IsRetryableHttpStatus(status: Option<int>) {
    status.Some? && (status.value in {408, 425, 429} || status.value >= 500)
  }

  /** app/core/failures.py:39-84, branch by branch. */
  function Classify(e: TaskError): Category {
    if e.marker.PermanentMarker? then Permanent
    else if e.marker.RetryableMarker? then Transient
    else if e.adapterCategory == Some("transport") then Transient
    else if e.adapterCategory.Some? && e.adapterCategory.value in PERMANENT_ADAPTER_CATEGORIES then Permanent
    else if e.adapterCategory == Some("gateway") then
      if IsRetryableHttpStatus(e.httpStatus) || IsServerErrorCode(e.responseCode) then Transient else Permanent
    else if e.raised in {ValueClass, PermissionClass, LookupClass} then Permanent
    else if e.raised in {TimeoutClass, ConnectionClass, OsClass} then Transient
    else Unknown
  }

  /** `failure_kind`: the whitelisted adapter category, otherwise the exception's type name. */
  function FailureKind(e: TaskError): string {
    if e.adapterCategory.Some? && e.adapterCategory.value in KNOWN_ADAPTER_CATEGORIES
    then e.adapterCategory.value
    else e.typeName
  }

  datatype Settlement = TransportFailure | ConfirmedFailure

  /** The two `except` clauses in source order: the network clause first, then the general one. */
  function Dispatch(e: TaskError): Settlement {
    if e.raised in {TimeoutClass, ConnectionClass, PermissionClass, OsClass} then
      if Classify(e) != Transient then ConfirmedFailure else TransportFailure
    else
      if Classify(e) == Transient then TransportFailure else ConfirmedFailure
  }

  /** Whichever clause catches an error, only its category decides how it is settled. */
  lemma DispatchFollowsCategory(e: TaskError)
    ensures Dispatch(e) == TransportFailure <==> Classify(e) == Transient
  {
  }

  /** Padding a code with leading zeros does not change what it denotes. */
  lemma {:induction false} LeadingZeroKeepsValue(s: string)
    requires forall i :: 0 <= i < |s| ==> '0' <= s[i] <= '9'
    ensures DecimalValue("0" + s) == DecimalValue(s)
  {
    if s == "" {
      assert DecimalValue("0") == DecimalValue("") * 10 by { assert "0"[..0] == ""; }
    } else {
      LeadingZeroKeepsValue(s[..|s| - 1]);
      assert ("0" + s)[..|s|] == "0" + s[..|s| - 1];
    }
  }

  /** So the classifier does not care how a gateway pads its embedded code. */
  lemma PaddedCodeClassifiesAlike(e: TaskError)
    requires IsDecimal(e.responseCode)
    ensures Classify(e.(responseCode := "0" + e.responseCode)) == Classify(e)
  {
    LeadingZeroKeepsValue(e.responseCode);
    var padded := "0" + e.responseCode;
    assert padded[0] == '0' && forall i :: 1 <= i < |padded| ==> padded[i] == e.responseCode[i - 1];
  }

  /**
    A gateway error is retried exactly when its HTTP status or its embedded code says the server may recover;
    every error whose adapter names another known category ignores the Python class it was raised as.
  */
  lemma GatewayErrorsIgnoreRaisedClass(e: TaskError, other: RaisedClass)
    requires e.adapterCategory.Some? && e.adapterCategory.value in KNOWN_ADAPTER_CATEGORIES
    ensures Classify(e) == Classify(e.(raised := other))
    ensures Classify(e) != Unknown
  {
  }

  // ---------- the categories, independent of the order of the branches ----------

  /** A gateway answer that says the server may recover. */
  predicate MayRecover(e: TaskError) {
    || (e.httpStatus.Some? && (e.httpStatus.value in {408, 425, 429} || e.httpStatus.value >= 500))
    || (IsDecimal(e.responseCode) && 500 <= DecimalValue(e.responseCode) < 600)
  }

  /** No marker class and no category of an adapter decides. */
  predicate IsUnmarked(e: TaskError) {
    e.marker == NoMarker && (e.adapterCategory.None? || e.adapterCategory.value !in KNOWN_ADAPTER_CATEGORIES)
  }

  /** Exactly these errors are retried. A permission error is an OS error in Python, and still not among them. */
  lemma TransientIff(e: TaskError)
    ensures Classify(e) == Transient <==>
              || e.marker == RetryableMarker
              || (e.marker == NoMarker && e.adapterCategory == Some("transport"))
              || (e.marker == NoMarker && e.adapterCategory == Some("gateway") && MayRecover(e))
              || (IsUnmarked(e) && e.raised in {TimeoutClass, ConnectionClass, OsClass})
  {
  }

  /** Exactly these errors are kept for review because nobody knows what happened. */
  lemma UnknownIff(e: TaskError)
    ensures Classify(e) == Unknown <==> IsUnmarked(e) && e.raised == OtherClass
    ensures Classify(e) in {Transient, Permanent, Unknown}
  {
  }
}
