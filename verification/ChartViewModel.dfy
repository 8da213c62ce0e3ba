/** The bounded in-memory store of sensor records behind the charts
    (`ChartViewModel`): appending with trimming of the oldest records,
    latest-n queries and per-field ranges. */
module Chart {
  import opened Model

  /** The store after `limitDataCount`: when a positive maximum is set and
      exceeded, only the newest `max` records are kept. */
  function Limited(s: seq<SensorRecord>, max: int): (r: seq<SensorRecord>)
    ensures |r| <= |s|
  {
    if max > 0 && |s| > max then s[|s| - max..] else s
  }

  /** Trimming only ever removes from the front: what is kept is a suffix,
      of the bounded size, and nothing changes without a positive maximum
      or below it. */
  lemma LimitedIsNewestSuffix(s: seq<SensorRecord>, max: int)
    ensures Limited(s, max) == s[|s| - |Limited(s, max)|..]
    ensures max > 0 ==> |Limited(s, max)| == if |s| < max then |s| else max
    ensures max <= 0 || |s| <= max ==> Limited(s, max) == s
  {
  }

  /** Trimming twice trims no more than trimming once. */
  lemma LimitedIdempotent(s: seq<SensorRecord>, max: int)
    ensures Limited(Limited(s, max), max) == Limited(s, max)
  {
  }

  /** `addData` with a positive maximum: the new size is min(old + 1, max),
      the new record is the last one and the rest is the newest part of the
      old store. */
  lemma AddDataKeepsNewest(s: seq<SensorRecord>, r: SensorRecord, max: int)
    requires max > 0
    ensures var t := Limited(s + [r], max);
      && |t| == (if |s| + 1 < max then |s| + 1 else max)
      && t[|t| - 1] == r
      && t == (s + [r])[|s| + 1 - |t|..]
      && t[..|t| - 1] == s[|s| + 1 - |t|..]
  {
    var t := Limited(s + [r], max);
    assert (s + [r])[|s| + 1 - |t|..][..|t| - 1] == s[|s| + 1 - |t|..];
  }

  /** The integer fields a range can be asked for. */
  datatype Field = AirTemp | AirHumid | SoilHumid | LightIntensity

  function FieldValue(r: SensorRecord, field: Field): int {
    match field
    case AirTemp => r.airTemp
    case AirHumid => r.airHumid
    case SoilHumid => r.soilHumid
    case LightIntensity => r.lightIntensity
  }

  /** What `calculateRange` reports: (0, 0) for an empty store, otherwise a
      lower and an upper bound of the field over all records, each attained
      by some record. */
  predicate IsRange(s: seq<SensorRecord>, field: Field, lo: int, hi: int) {
    if s == [] then lo == 0 && hi == 0
    else
      && (forall i :: 0 <= i < |s| ==> lo <= FieldValue(s[i], field) <= hi)
      && (exists i :: 0 <= i < |s| && FieldValue(s[i], field) == lo)
      && (exists j :: 0 <= j < |s| && FieldValue(s[j], field) == hi)
  }

  /** The range is determined by the store: it is the minimum and maximum. */
  lemma RangeUnique(s: seq<SensorRecord>, field: Field, lo1: int, hi1: int, lo2: int, hi2: int)
    requires IsRange(s, field, lo1, hi1) && IsRange(s, field, lo2, hi2)
    ensures lo1 == lo2 && hi1 == hi2
  {
    if s != [] {
      var i1 :| 0 <= i1 < |s| && FieldValue(s[i1], field) == lo1;
      var i2 :| 0 <= i2 < |s| && FieldValue(s[i2], field) == lo2;
      var j1 :| 0 <= j1 < |s| && FieldValue(s[j1], field) == hi1;
      var j2 :| 0 <= j2 < |s| && FieldValue(s[j2], field) == hi2;
    }
  }

  class ChartViewModel {
    var records: seq<SensorRecord>
    /** The maximum number of records kept; -1 (or any value up to 0) means
        unlimited. */
    var maxDataCount: int

    constructor ()
      ensures records == [] && maxDataCount == -1
    {
      records := [];
      maxDataCount := -1;
    }

    /** `limitDataCount`: drop the oldest records beyond the maximum. */
    method LimitDataCount()
      modifies this
      ensures maxDataCount == old(maxDataCount)
      ensures records == Limited(old(records), maxDataCount)
    {
      if maxDataCount > 0 && |records| > maxDataCount {
        var removeCount := |records| - maxDataCount;
        records := records[removeCount..];
      }
    }

    /** `addData`: append, then trim. */
    method AddData(r: SensorRecord)
      modifies this
      ensures maxDataCount == old(maxDataCount)
      ensures records == Limited(old(records) + [r], maxDataCount)
    {
      records := records + [r];
      LimitDataCount();
    }

    /** `setMaxDataCount`: store the new maximum and trim at once. */
    method SetMaxDataCount(maxCount: int)
      modifies this
      ensures maxDataCount == maxCount
      ensures records == Limited(old(records), maxCount)
    {
      maxDataCount := maxCount;
      LimitDataCount();
    }

    /** `clearAllData`. */
    method ClearAllData()
      modifies this
      ensures records == [] && maxDataCount == old(maxDataCount)
    {
      records := [];
    }

    /** `getLatestData`: the whole store when `count` reaches its size,
        otherwise the newest `count` records (none for a negative `count`),
        oldest first. */
    method GetLatestData(count: int) returns (result: seq<SensorRecord>)
      ensures count >= |records| ==> result == records
      ensures count < |records| ==> |result| == (if count < 0 then 0 else count)
      ensures result == records[|records| - |result|..]
    {
      if count >= |records| {
        return records;
      }
      result := [];
      var startIndex := |records| - count;
      var i := startIndex;
      while i < |records|
        invariant startIndex >= |records| ==> i == startIndex && result == []
        invariant startIndex < |records| ==> startIndex <= i <= |records| && result == records[startIndex..i]
      {
        result := result + [records[i]];
        i := i + 1;
      }
      if startIndex >= |records| {
        assert records[|records|..] == [];
      }
    }

    /** `calculateRange` over one field of every record. */
    method CalculateRange(field: Field) returns (lo: int, hi: int)
      ensures IsRange(records, field, lo, hi)
    {
      if |records| == 0 {
        return 0, 0;
      }
      lo := FieldValue(records[0], field);
      hi := FieldValue(records[0], field);
      ghost var loAt, hiAt := 0, 0;
      var i := 0;
      while i < |records|
        invariant 0 <= i <= |records|
        invariant 0 <= loAt < |records| && FieldValue(records[loAt], field) == lo
        invariant 0 <= hiAt < |records| && FieldValue(records[hiAt], field) == hi
        invariant forall k :: 0 <= k < i ==> lo <= FieldValue(records[k], field) <= hi
      {
        var value := FieldValue(records[i], field);
        if value < lo {
          lo, loAt := value, i;
        }
        if value > hi {
          hi, hiAt := value, i;
        }
        i := i + 1;
      }
    }

    method GetTemperatureRange() returns (lo: int, hi: int)
      ensures IsRange(records, AirTemp, lo, hi)
    {
      lo, hi := CalculateRange(AirTemp);
    }

    method GetAirHumidityRange() returns (lo: int, hi: int)
      ensures IsRange(records, AirHumid, lo, hi)
    {
      lo, hi := CalculateRange(AirHumid);
    }

    method GetSoilHumidityRange() returns (lo: int, hi: int)
      ensures IsRange(records, SoilHumid, lo, hi)
    {
      lo, hi := CalculateRange(SoilHumid);
    }

    method GetLightIntensityRange() returns (lo: int, hi: int)
      ensures IsRange(records, LightIntensity, lo, hi)
    {
      lo, hi := CalculateRange(LightIntensity);
    }
  }
}
