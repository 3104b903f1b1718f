/**
 * The Python client's EventBridge event context (`eventbridge_event_context`
 * in both the `aws_iatk` and the `zion` package): the eight top-level keys
 * of an EventBridge event are filled in, in place, where the event lacks a
 * truthy value.
 *
 * A fresh uuid4 and the current time are the parameters `freshId` and `now`.
 */
module PyContext {
  import opened Json

  const VersionKey := "version"
  const IdKey := "id"
  const DetailTypeKey := "detail-type"
  const SourceKey := "source"
  const AccountKey := "account"
  const TimeKey := "time"
  const RegionKey := "region"
  const ResourcesKey := "resources"

  const EventKeys: set<string> := {VersionKey, IdKey, DetailTypeKey, SourceKey, AccountKey, TimeKey, RegionKey, ResourcesKey}

  /** The event keys, each with the value it gets when it lacks a truthy one, in the source's order. */
  function Defaults(freshId: string, now: string): seq<(string, Json)>
  {
    [(VersionKey, JStr("0")), (IdKey, JStr(freshId)), (DetailTypeKey, JStr("detail-type")), (SourceKey, JStr("source")),
     (AccountKey, JStr("123456789101")), (TimeKey, JStr(now)), (RegionKey, JStr("us-east-1")), (ResourcesKey, JArr([]))]
  }

  /** `if not d.get(k): d[k] = v`. */
  function Fill(d: map<string, Json>, k: string, v: Json): map<string, Json>
  {
    if !Truthy(Get(d, k)) then d[k := v] else d
  }

  /** `id`, `detail-type` and `source` are also compared with "" in the source, which falsiness already covers. */
  function FillUnlessSet(d: map<string, Json>, k: string, v: Json): map<string, Json>
  {
    if !Truthy(Get(d, k)) || Get(d, k) == JStr("") then d[k := v] else d
  }

  /** The dict after the eight steps, in the source's order. */
  function WithContext(d: map<string, Json>, freshId: string, now: string): map<string, Json>
  {
    var d := Fill(d, VersionKey, JStr("0"));
    var d := FillUnlessSet(d, IdKey, JStr(freshId));
    var d := FillUnlessSet(d, DetailTypeKey, JStr("detail-type"));
    var d := FillUnlessSet(d, SourceKey, JStr("source"));
    var d := Fill(d, AccountKey, JStr("123456789101"));
    var d := Fill(d, TimeKey, JStr(now));
    var d := Fill(d, RegionKey, JStr("us-east-1"));
    Fill(d, ResourcesKey, JArr([]))
  }

  /** A Python dict, updated in place. */
  class Dict {
    var items: map<string, Json>

    constructor (items: map<string, Json>)
      ensures this.items == items
    {
      this.items := items;
    }

    /** `if not d.get(k): d[k] = v`. */
    method FillKey(k: string, v: Json)
      modifies this
      ensures items == Fill(old(items), k, v)
    {
      if !Truthy(Get(items, k)) {
        items := items[k := v];
      }
    }

    /** `if not d.get(k) or d.get(k) == "": d[k] = v`. */
    method FillKeyUnlessSet(k: string, v: Json)
      modifies this
      ensures items == FillUnlessSet(old(items), k, v)
    {
      if !Truthy(Get(items, k)) || Get(items, k) == JStr("") {
        items := items[k := v];
      }
    }
  }

  /** `eventbridge_event_context`: fills the dict in place and returns the same dict. */
  method EventbridgeEventContext(eventDict: Dict, freshId: string, now: string) returns (r: Dict)
    modifies eventDict
    ensures r == eventDict
    ensures eventDict.items == WithContext(old(eventDict.items), freshId, now)
  {
    eventDict.FillKey(VersionKey, JStr("0"));
    eventDict.FillKeyUnlessSet(IdKey, JStr(freshId));
    eventDict.FillKeyUnlessSet(DetailTypeKey, JStr("detail-type"));
    eventDict.FillKeyUnlessSet(SourceKey, JStr("source"));
    eventDict.FillKey(AccountKey, JStr("123456789101"));
    eventDict.FillKey(TimeKey, JStr(now));
    eventDict.FillKey(RegionKey, JStr("us-east-1"));
    eventDict.FillKey(ResourcesKey, JArr([]));
    return eventDict;
  }

  /** Each key in turn gets its value unless it holds a truthy one. */
  function FillAll(d: map<string, Json>, ds: seq<(string, Json)>): map<string, Json>
    decreases |ds|
  {
    if ds == [] then d else FillAll(Fill(d, ds[0].0, ds[0].1), ds[1..])
  }

  function KeysOf(ds: seq<(string, Json)>): set<string>
    decreases |ds|
  {
    if ds == [] then {} else {ds[0].0} + KeysOf(ds[1..])
  }

  predicate DistinctKeys(ds: seq<(string, Json)>)
  {
    forall i, j :: 0 <= i < j < |ds| ==> ds[i].0 != ds[j].0
  }

  /** The extra test against "" changes nothing. */
  lemma FillUnlessSetIsFill(d: map<string, Json>, k: string, v: Json)
    ensures FillUnlessSet(d, k, v) == Fill(d, k, v)
  {
  }

  /** The source's eight steps are the defaults filled in order. */
  lemma WithContextFillAll(d: map<string, Json>, freshId: string, now: string)
    ensures WithContext(d, freshId, now) == FillAll(d, Defaults(freshId, now))
  {
    var e := Defaults(freshId, now);
    var d1 := Fill(d, VersionKey, JStr("0"));
    FillUnlessSetIsFill(d1, IdKey, JStr(freshId));
    var d2 := Fill(d1, IdKey, JStr(freshId));
    FillUnlessSetIsFill(d2, DetailTypeKey, JStr("detail-type"));
    var d3 := Fill(d2, DetailTypeKey, JStr("detail-type"));
    FillUnlessSetIsFill(d3, SourceKey, JStr("source"));
    var d4 := Fill(d3, SourceKey, JStr("source"));
    var d5 := Fill(d4, AccountKey, JStr("123456789101"));
    var d6 := Fill(d5, TimeKey, JStr(now));
    var d7 := Fill(d6, RegionKey, JStr("us-east-1"));
    var d8 := Fill(d7, ResourcesKey, JArr([]));
    assert FillAll(d8, e[8..]) == d8;
    assert FillAll(d7, e[7..]) == d8;
    assert FillAll(d6, e[6..]) == d8;
    assert FillAll(d5, e[5..]) == d8;
    assert FillAll(d4, e[4..]) == d8;
    assert FillAll(d3, e[3..]) == d8;
    assert FillAll(d2, e[2..]) == d8;
    assert FillAll(d1, e[1..]) == d8;
  }

  lemma DefaultsKeys(freshId: string, now: string)
    ensures KeysOf(Defaults(freshId, now)) == EventKeys
    ensures DistinctKeys(Defaults(freshId, now))
  {
    var e := Defaults(freshId, now);
    assert KeysOf(e[8..]) == {};
    assert KeysOf(e[7..]) == {ResourcesKey};
    assert KeysOf(e[6..]) == {RegionKey, ResourcesKey};
    assert KeysOf(e[5..]) == {TimeKey, RegionKey, ResourcesKey};
    assert KeysOf(e[4..]) == {AccountKey, TimeKey, RegionKey, ResourcesKey};
    assert KeysOf(e[3..]) == {SourceKey, AccountKey, TimeKey, RegionKey, ResourcesKey};
    assert KeysOf(e[2..]) == {DetailTypeKey, SourceKey, AccountKey, TimeKey, RegionKey, ResourcesKey};
    assert KeysOf(e[1..]) == {IdKey, DetailTypeKey, SourceKey, AccountKey, TimeKey, RegionKey, ResourcesKey};
    DefaultsDistinct(e);
  }

  /** The eight keys differ pairwise: no two share both first letter and length. */
  lemma DefaultsDistinct(e: seq<(string, Json)>)
    requires |e| == 8
    requires e[0].0 == VersionKey && e[1].0 == IdKey && e[2].0 == DetailTypeKey && e[3].0 == SourceKey
    requires e[4].0 == AccountKey && e[5].0 == TimeKey && e[6].0 == RegionKey && e[7].0 == ResourcesKey
    ensures DistinctKeys(e)
  {
    var sig := seq(8, i requires 0 <= i < 8 => (e[i].0[0], |e[i].0|));
    assert sig == [('v', 7), ('i', 2), ('d', 11), ('s', 6), ('a', 7), ('t', 4), ('r', 6), ('r', 9)];
    forall i, j | 0 <= i < j < 8 ensures e[i].0 != e[j].0 {
      assert sig[i] != sig[j];
    }
  }

  /** Filling distinct keys: each gets its value unless it was truthy, and nothing else changes. */
  lemma {:induction false} FillAllValues(d: map<string, Json>, ds: seq<(string, Json)>)
    requires DistinctKeys(ds)
    ensures FillAll(d, ds).Keys == d.Keys + KeysOf(ds)
    ensures forall i :: 0 <= i < |ds| ==>
      (ds[i].0 in FillAll(d, ds) && FillAll(d, ds)[ds[i].0] == if Truthy(Get(d, ds[i].0)) then d[ds[i].0] else ds[i].1)
    ensures forall k :: k in d && k !in KeysOf(ds) ==> FillAll(d, ds)[k] == d[k]
    decreases |ds|
  {
    if ds != [] {
      var d' := Fill(d, ds[0].0, ds[0].1);
      FillAllValues(d', ds[1..]);
      KeysOfIndex(ds[1..]);
      KeysOfIndex(ds);
      forall i | 0 <= i < |ds|
        ensures ds[i].0 in FillAll(d, ds) &&
          FillAll(d, ds)[ds[i].0] == if Truthy(Get(d, ds[i].0)) then d[ds[i].0] else ds[i].1
      {
        if i > 0 {
          assert ds[i] == ds[1..][i - 1];
          assert ds[i].0 != ds[0].0;
        }
      }
    }
  }

  lemma {:induction false} KeysOfIndex(ds: seq<(string, Json)>)
    ensures forall k :: k in KeysOf(ds) <==> exists i :: 0 <= i < |ds| && ds[i].0 == k
    decreases |ds|
  {
    if ds != [] {
      KeysOfIndex(ds[1..]);
      forall k | k in KeysOf(ds) ensures exists i :: 0 <= i < |ds| && ds[i].0 == k {
        if k != ds[0].0 {
          assert k in KeysOf(ds[1..]);
          var i :| 0 <= i < |ds[1..]| && ds[1..][i].0 == k;
          assert ds[i + 1].0 == k;
        }
      }
      forall k | exists i :: 0 <= i < |ds| && ds[i].0 == k ensures k in KeysOf(ds) {
        var i :| 0 <= i < |ds| && ds[i].0 == k;
        if i > 0 {
          assert ds[1..][i - 1].0 == k;
        }
      }
    }
  }

  /**
   * After the call every event key is present, each one holds its old
   * value when that was truthy and its default otherwise, and no other key
   * changes.
   */
  lemma ContextValues(d: map<string, Json>, freshId: string, now: string)
    ensures WithContext(d, freshId, now).Keys == d.Keys + EventKeys
    ensures var ds := Defaults(freshId, now);
      forall i :: 0 <= i < |ds| ==>
        WithContext(d, freshId, now)[ds[i].0] == if Truthy(Get(d, ds[i].0)) then d[ds[i].0] else ds[i].1
    ensures forall k :: k in d && k !in EventKeys ==> WithContext(d, freshId, now)[k] == d[k]
  {
    WithContextFillAll(d, freshId, now);
    DefaultsKeys(freshId, now);
    FillAllValues(d, Defaults(freshId, now));
  }

  /** The dict grows by exactly the number of event keys it lacked. */
  lemma {:induction false} ContextSize(d: map<string, Json>, freshId: string, now: string)
    ensures |WithContext(d, freshId, now)| == |d| + |EventKeys - d.Keys|
  {
    ContextValues(d, freshId, now);
    var r := WithContext(d, freshId, now);
    assert r.Keys == d.Keys + (EventKeys - d.Keys);
    assert d.Keys * (EventKeys - d.Keys) == {};
    DisjointUnionSize(d.Keys, EventKeys - d.Keys);
  }

  lemma DisjointUnionSize<T>(a: set<T>, b: set<T>)
    requires a * b == {}
    ensures |a + b| == |a| + |b|
  {
    assert |a * b| == 0;
  }

  /**
   * Filling an already filled dict changes nothing, with any id and time,
   * as long as the first call's id and time were non-empty (as a uuid4 and
   * a formatted time always are).
   */
  lemma ContextIdempotent(d: map<string, Json>, freshId: string, now: string, freshId2: string, now2: string)
    requires freshId != "" && now != ""
    ensures WithContext(WithContext(d, freshId, now), freshId2, now2) == WithContext(d, freshId, now)
  {
    var r := WithContext(d, freshId, now);
    WithContextFillAll(d, freshId, now);
    WithContextFillAll(r, freshId2, now2);
    DefaultsKeys(freshId, now);
    DefaultsStable(freshId, now, freshId2, now2);
    FillAllIdempotent(d, Defaults(freshId, now), Defaults(freshId2, now2));
  }

  /**
   * Filling again with the same keys changes nothing when every value the
   * first fill could write is truthy or the same as the second's.
   */
  lemma FillAllIdempotent(d: map<string, Json>, ds: seq<(string, Json)>, ds2: seq<(string, Json)>)
    requires DistinctKeys(ds) && |ds| == |ds2|
    requires forall i :: 0 <= i < |ds| ==> ds[i].0 == ds2[i].0 && (Truthy(ds[i].1) || ds[i].1 == ds2[i].1)
    ensures FillAll(FillAll(d, ds), ds2) == FillAll(d, ds)
  {
    var r := FillAll(d, ds);
    SameKeys(ds, ds2);
    FillAllValues(d, ds);
    FillAllValues(r, ds2);
    KeysOfIndex(ds);
    var r2 := FillAll(r, ds2);
    assert r2.Keys == r.Keys;
    forall k | k in r ensures r2[k] == r[k] {
      if k in KeysOf(ds) {
        var i :| 0 <= i < |ds| && ds[i].0 == k;
        assert ds2[i].0 == k;
        assert r[k] == if Truthy(Get(d, k)) then d[k] else ds[i].1;
        assert r2[k] == if Truthy(Get(r, k)) then r[k] else ds2[i].1;
      } else {
        assert k !in KeysOf(ds2);
      }
    }
  }

  /** Pointwise equal keys make the same key set, and keep them distinct. */
  lemma SameKeys(ds: seq<(string, Json)>, ds2: seq<(string, Json)>)
    requires DistinctKeys(ds) && |ds| == |ds2|
    requires forall i :: 0 <= i < |ds| ==> ds[i].0 == ds2[i].0
    ensures DistinctKeys(ds2) && KeysOf(ds) == KeysOf(ds2)
  {
    KeysOfIndex(ds);
    KeysOfIndex(ds2);
    forall k ensures k in KeysOf(ds) <==> k in KeysOf(ds2) {
      if k in KeysOf(ds) {
        var i :| 0 <= i < |ds| && ds[i].0 == k;
        assert ds2[i].0 == k;
      }
      if k in KeysOf(ds2) {
        var i :| 0 <= i < |ds2| && ds2[i].0 == k;
        assert ds[i].0 == k;
      }
    }
  }

  /** A second call's defaults are the same keys, and each value is truthy after the first call or the same again. */
  lemma DefaultsStable(freshId: string, now: string, freshId2: string, now2: string)
    requires freshId != "" && now != ""
    ensures var ds, ds2 := Defaults(freshId, now), Defaults(freshId2, now2);
      |ds| == |ds2| &&
      forall i :: 0 <= i < |ds| ==> ds[i].0 == ds2[i].0 && (Truthy(ds[i].1) || ds[i].1 == ds2[i].1)
  {
  }
}
