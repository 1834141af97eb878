/** Lab normalisation: marker synonyms, unit conversion to a standard unit and
    LOW/NORMAL/HIGH classification against the row's reference range. */
module LabNormalizer {
  import opened Wrappers

  datatype Status = LOW | NORMAL | HIGH | REFERENCE_UNKNOWN

  /** The status as the pipeline spells it in labels and prompts. */
  function StatusName(s: Status): string {
    match s
    case LOW => "LOW"
    case NORMAL => "NORMAL"
    case HIGH => "HIGH"
    case REFERENCE_UNKNOWN => "REFERENCE_UNKNOWN"
  }

  /** A lab row as it arrives; `fromFallback` is absent on most rows. */
  datatype RawLab = RawLab(
    marker: string, value: real, unit: string,
    refLow: real, refHigh: real, timestamp: string, fromFallback: Option<bool>)

  datatype NormalizedLab = NormalizedLab(
    marker: string, value: real, unit: string,
    refLow: real, refHigh: real, status: Status, timestamp: string, fromFallback: bool)

  /** Synonyms of marker names. */
  const MarkerMap: map<string, string> :=
    map["Thyrotropin" := "TSH", "Thyroxine" := "T4", "Triiodothyronine" := "T3"]

  /** Every listed conversion is linear: the factor that turns a value in the
      given unit into the marker's standard unit. */
  const UnitConversions: map<string, map<string, real>> :=
    map["Ferritin" := map["ug/L" := 0.001, "ng/mL" := 1.0],
        "Iron" := map["umol/L" := 5.585, "\U{B5}g/dL" := 1.0],
        "TSAT" := map["%" := 1.0]]

  const StandardUnits: map<string, string> :=
    map["ANC" := "K/\U{B5}L", "Ferritin" := "ng/mL", "Iron" := "\U{B5}g/dL", "TSAT" := "%",
        "Hb" := "g/dL", "MCV" := "fL", "RDW" := "%", "hsCRP" := "mg/L", "TSH" := "mIU/L",
        "FT4" := "ng/dL", "FT3" := "pg/mL", "Total Cholesterol" := "mg/dL", "LDL" := "mg/dL",
        "HDL" := "mg/dL", "Triglycerides" := "mg/dL"]

  /** The canonical name of a marker: a synonym is replaced, anything else kept. */
  function NormalizeMarker(marker: string): (r: string)
    ensures marker in MarkerMap ==> r == MarkerMap[marker]
    ensures marker !in MarkerMap ==> r == marker
  {
    if marker in MarkerMap then MarkerMap[marker] else marker
  }

  /** Normalising a marker name twice is the same as once: no synonym's
      target is itself a synonym. */
  lemma NormalizeMarkerIdempotent(marker: string)
    ensures NormalizeMarker(NormalizeMarker(marker)) == NormalizeMarker(marker)
  {
    if marker in MarkerMap {
      assert MarkerMap[marker] in {"TSH", "T4", "T3"};
    }
  }

  /** The (value, unit) pair in the marker's standard unit where the table knows how. */
  function NormalizeUnit(marker: string, value: real, unit: string): (r: (real, string))
    ensures unit == "" ==> r == (value, if marker in StandardUnits then StandardUnits[marker] else "")
    ensures unit != "" && marker in UnitConversions && unit in UnitConversions[marker] ==>
      r == (value * UnitConversions[marker][unit], StandardUnits[marker])
    ensures unit != "" && !(marker in UnitConversions && unit in UnitConversions[marker]) ==>
      r == (value, unit)
  {
    if unit == "" then (value, if marker in StandardUnits then StandardUnits[marker] else "")
    else if marker in UnitConversions && unit in UnitConversions[marker] then
      (value * UnitConversions[marker][unit], StandardUnits[marker])
    else (value, unit)
  }

  /** Every converted marker's standard unit is in its own conversion table with factor 1. */
  lemma StandardUnitIsIdentityConversion(marker: string)
    requires marker in UnitConversions
    ensures marker in StandardUnits
    ensures StandardUnits[marker] in UnitConversions[marker]
    ensures UnitConversions[marker][StandardUnits[marker]] == 1.0
  {
    assert marker in {"Ferritin", "Iron", "TSAT"};
  }

  /** Normalising an already normalised (value, unit) changes nothing. */
  lemma NormalizeUnitIdempotent(marker: string, value: real, unit: string)
    ensures var (v, u) := NormalizeUnit(marker, value, unit);
            NormalizeUnit(marker, v, u) == (v, u)
  {
    var (v, u) := NormalizeUnit(marker, value, unit);
    if marker in UnitConversions {
      StandardUnitIsIdentityConversion(marker);
    }
    assert forall m :: m in StandardUnits ==> StandardUnits[m] != "";
  }

  /** Classification against a reference range: both bounds count as NORMAL. */
  function GetStatus(value: real, refLow: real, refHigh: real): (s: Status)
    ensures s == LOW <==> value < refLow
    ensures s == HIGH <==> refLow <= value && refHigh < value
    ensures s == NORMAL <==> refLow <= value <= refHigh
    ensures s != REFERENCE_UNKNOWN
  {
    if value < refLow then LOW
    else if value > refHigh then HIGH
    else NORMAL
  }

  /** One normalised row; `round2` is Python's `round(x, 2)`. The status is
      taken from the converted value before rounding. */
  function NormalizeLab(lab: RawLab, round2: real -> real): (r: NormalizedLab)
    ensures r.marker == NormalizeMarker(lab.marker)
    ensures r.refLow == lab.refLow && r.refHigh == lab.refHigh && r.timestamp == lab.timestamp
    ensures r.fromFallback == lab.fromFallback.GetOr(false)
    ensures r.status == REFERENCE_UNKNOWN <==>
      lab.fromFallback == Some(true) || (lab.refLow == 0.0 && lab.refHigh == 0.0)
    ensures r.status != REFERENCE_UNKNOWN ==>
      r.status == GetStatus(NormalizeUnit(r.marker, lab.value, lab.unit).0, lab.refLow, lab.refHigh)
    ensures r.value == round2(NormalizeUnit(r.marker, lab.value, lab.unit).0)
    ensures r.unit == NormalizeUnit(r.marker, lab.value, lab.unit).1
  {
    var marker := NormalizeMarker(lab.marker);
    var (value, unit) := NormalizeUnit(marker, lab.value, lab.unit);
    var fromFallback := lab.fromFallback.GetOr(false);
    var status := if fromFallback || (lab.refLow == 0.0 && lab.refHigh == 0.0) then REFERENCE_UNKNOWN
                  else GetStatus(value, lab.refLow, lab.refHigh);
    NormalizedLab(marker, round2(value), unit, lab.refLow, lab.refHigh, status, lab.timestamp, fromFallback)
  }

  /** `normalize_labs`: one output row per input row, in input order. */
  method NormalizeLabs(raw: seq<RawLab>, round2: real -> real) returns (normalized: seq<NormalizedLab>)
    ensures |normalized| == |raw|
    ensures forall i :: 0 <= i < |raw| ==> normalized[i] == NormalizeLab(raw[i], round2)
  {
    normalized := [];
    for i := 0 to |raw|
      invariant |normalized| == i
      invariant forall k :: 0 <= k < i ==> normalized[k] == NormalizeLab(raw[k], round2)
    {
      normalized := normalized + [NormalizeLab(raw[i], round2)];
    }
  }
}
