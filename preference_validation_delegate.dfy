/** The bridge from tracked-preference validation to safe browsing incident
    reporting (preference_validation_delegate.cc): a preference whose stored
    hash does not validate is reported as a TrackedPreferenceIncident carrying
    its path, a summary of how it failed, and its value or invalid keys. */
module PreferenceValidation {
  import opened Common

  /** PrefHashStoreTransaction::ValueState. */
  datatype ValueState =
    | Unchanged | Cleared | SecureLegacy | Changed
    | UntrustedUnknownValue | TrustedUnknownValue | TrustedNullValue | Unsupported

  /** TrackedPreferenceIncident::ValueState. */
  datatype IncidentValueState =
    | UnknownState | ClearedState | ChangedState | UntrustedUnknownValueState
    | BypassCleared | BypassChanged

  /** MapValueState: the primary verdict wins when it is a failure; otherwise
      an external failure is reported as a bypass; otherwise nothing. */
  function MapValueState(valueState: ValueState, external: ValueState): (r: IncidentValueState)
    ensures valueState == Cleared ==> r == ClearedState
    ensures valueState == Changed ==> r == ChangedState
    ensures valueState == UntrustedUnknownValue ==> r == UntrustedUnknownValueState
    ensures valueState !in {Cleared, Changed, UntrustedUnknownValue} ==>
              r == (if external == Cleared then BypassCleared
                    else if external == Changed then BypassChanged
                    else UnknownState)
  {
    match valueState
    case Cleared => ClearedState
    case Changed => ChangedState
    case UntrustedUnknownValue => UntrustedUnknownValueState
    case _ =>
      match external
      case Cleared => BypassCleared
      case Changed => BypassChanged
      case _ => UnknownState
  }

  /** Nothing is reported exactly when neither check failed; a bypass state
      arises exactly when only the external check failed. */
  lemma MapValueStateClassifies(valueState: ValueState, external: ValueState)
    ensures MapValueState(valueState, external) == UnknownState <==>
              valueState !in {Cleared, Changed, UntrustedUnknownValue} && external !in {Cleared, Changed}
    ensures MapValueState(valueState, external) in {BypassCleared, BypassChanged} <==>
              valueState !in {Cleared, Changed, UntrustedUnknownValue} && external in {Cleared, Changed}
  {
  }

  /** A base::Value as far as stringification goes: a string value, or any
      other value with the JSON text JSONWriter produces for it, if it can. */
  datatype PrefValue = StringValue(s: string) | OtherValue(json: Option<string>)

  /** The incident's atomic value: the string itself, else its JSON, else
      cleared (also for a missing value). */
  function AtomicValue(value: Option<PrefValue>): (r: Option<string>)
    ensures value.None? ==> r.None?
    ensures value.Some? && value.value.StringValue? ==> r == Some(value.value.s)
    ensures value.Some? && value.value.OtherValue? ==> r == value.value.json
  {
    match value
    case None => None
    case Some(StringValue(s)) => Some(s)
    case Some(OtherValue(json)) => json
  }

  /** ClientIncidentReport_IncidentData_TrackedPreferenceIncident, with the
      personal flag of the TrackedPreferenceIncident wrapping it. */
  datatype Incident = Incident(
    path: string,
    atomicValue: Option<string>,
    splitKeys: seq<string>,
    valueState: IncidentValueState,
    isPersonal: bool)

  class PreferenceValidationDelegate {
    /** The incidents handed to the incident receiver for this profile, in order. */
    var reported: seq<Incident>

    constructor()
      ensures reported == []
    {
      reported := [];
    }

    /** OnAtomicPreferenceValidation. */
    method OnAtomicPreferenceValidation(prefPath: string, value: Option<PrefValue>, valueState: ValueState,
                                        external: ValueState, isPersonal: bool)
      modifies this
      ensures MapValueState(valueState, external) == UnknownState ==> reported == old(reported)
      ensures MapValueState(valueState, external) != UnknownState ==>
                reported == old(reported) + [Incident(prefPath, AtomicValue(value), [],
                                                      MapValueState(valueState, external), isPersonal)]
    {
      var protoValueState := MapValueState(valueState, external);
      if protoValueState != UnknownState {
        var incident := Incident(prefPath, AtomicValue(value), [], protoValueState, isPersonal);
        reported := reported + [incident];
      }
    }

    /** OnSplitPreferenceValidation: the split keys are the externally
        invalid ones for a bypass, the primarily invalid ones otherwise. */
    method OnSplitPreferenceValidation(prefPath: string, invalidKeys: seq<string>, externalInvalidKeys: seq<string>,
                                       valueState: ValueState, external: ValueState, isPersonal: bool)
      modifies this
      ensures MapValueState(valueState, external) == UnknownState ==> reported == old(reported)
      ensures MapValueState(valueState, external) != UnknownState ==>
                |reported| == |old(reported)| + 1 && reported[..|old(reported)|] == old(reported)
      ensures MapValueState(valueState, external) != UnknownState ==>
                var incident := reported[|reported| - 1];
                incident.path == prefPath && incident.atomicValue.None?
                && incident.valueState == MapValueState(valueState, external)
                && incident.isPersonal == isPersonal
                && incident.splitKeys == (if incident.valueState in {BypassCleared, BypassChanged}
                                          then externalInvalidKeys else invalidKeys)
    {
      var protoValueState := MapValueState(valueState, external);
      if protoValueState != UnknownState {
        var source := if protoValueState == BypassCleared || protoValueState == BypassChanged
                      then externalInvalidKeys else invalidKeys;
        var splitKeys := [];
        for i := 0 to |source|
          invariant splitKeys == source[..i]
        {
          splitKeys := splitKeys + [source[i]];
        }
        reported := reported + [Incident(prefPath, None, splitKeys, protoValueState, isPersonal)];
      }
    }
  }
}
