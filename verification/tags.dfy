/**
 * The test harness's system tags (`internal/pkg/harness/tags/tags.go`):
 * the reserved tag keys, the check that user tags avoid them, and the two
 * Resource Groups Tagging API queries that find a harness's target and
 * the harness ids matching a set of tag filters.
 *
 * The API is a function from the request's tag filters to the responses
 * its paginator yields, in order; the paginator stops at the first error.
 * AWS string pointers are `Option<string>`, read with `ToString`.
 */
module Tags {
  import opened Wrappers
  import Text
  import Dedup

  const IdKey := "zion:TestHarness:ID"
  const TypeKey := "zion:TestHarness:Type"
  const TargetKey := "zion:TestHarness:Target"
  const CreatedKey := "zion:TestHarness:Created"

  /** The reserved keys, in the order `ValidateTags` checks them. */
  const SystemTagKeys := [IdKey, TypeKey, TargetKey, CreatedKey]

  datatype Tag = Tag(key: Option<string>, value: Option<string>)
  datatype TagFilter = TagFilter(key: Option<string>, values: seq<string>)
  datatype ResourceTagMapping = ResourceTagMapping(resourceArn: string, tags: seq<Tag>)
  datatype Page = Page(mappings: seq<ResourceTagMapping>)

  /** `GetResources` through its paginator: the responses for a request's tag filters. */
  type GetResourcesApi = seq<TagFilter> -> seq<Result<Page, string>>

  /** `aws.ToString`: a nil pointer reads as "". */
  function ToString(s: Option<string>): string
  {
    if s.Some? then s.value else ""
  }

  function ReservedKeyMessage(key: string): string
  {
    "reserved tag key " + Text.Quote(key) + " found in provided tags"
  }

  /**
   * `ValidateTags`: refuses user tags holding a reserved key, naming the
   * first one present in the order ID, Type, Target, Created.
   */
  method ValidateTags(tags: map<string, string>) returns (r: Outcome<string>)
    ensures r.Pass? <==> forall i :: 0 <= i < |SystemTagKeys| ==> SystemTagKeys[i] !in tags
    ensures r.Fail? ==> exists i :: 0 <= i < |SystemTagKeys| && SystemTagKeys[i] in tags &&
                                    r.error == ReservedKeyMessage(SystemTagKeys[i]) &&
                                    forall j :: 0 <= j < i ==> SystemTagKeys[j] !in tags
  {
    for i := 0 to |SystemTagKeys|
      invariant forall j :: 0 <= j < i ==> SystemTagKeys[j] !in tags
    {
      if SystemTagKeys[i] in tags {
        return Fail(ReservedKeyMessage(SystemTagKeys[i]));
      }
    }
    return Pass;
  }

  /** `hasOneSystemTagKey`: some filter's key is reserved. */
  method HasOneSystemTagKey(l: seq<TagFilter>) returns (b: bool)
    ensures b <==> exists i :: 0 <= i < |l| && ToString(l[i].key) in SystemTagKeys
  {
    for i := 0 to |l|
      invariant forall j :: 0 <= j < i ==> ToString(l[j].key) !in SystemTagKeys
    {
      if ToString(l[i].key) in SystemTagKeys {
        return true;
      }
    }
    return false;
  }

  /** The value of the first tag with key `key`, as a list of at most one element. */
  function FirstValue(tags: seq<Tag>, key: string): (r: seq<string>)
    ensures |r| <= 1
  {
    if tags == [] then []
    else if ToString(tags[0].key) == key then [ToString(tags[0].value)]
    else FirstValue(tags[1..], key)
  }

  /** `FirstValue` is empty exactly when no tag has the key, and otherwise holds the first such tag's value. */
  lemma {:induction false} FirstValueFirst(tags: seq<Tag>, key: string)
    ensures FirstValue(tags, key) == [] <==> forall i :: 0 <= i < |tags| ==> ToString(tags[i].key) != key
    ensures FirstValue(tags, key) != [] ==>
      exists i :: 0 <= i < |tags| && ToString(tags[i].key) == key && FirstValue(tags, key)[0] == ToString(tags[i].value) &&
                  forall j :: 0 <= j < i ==> ToString(tags[j].key) != key
  {
    if tags != [] && ToString(tags[0].key) != key {
      var rest := tags[1..];
      FirstValueFirst(rest, key);
      assert forall i :: 0 <= i < |rest| ==> rest[i] == tags[i + 1];
      if FirstValue(rest, key) != [] {
        var i :| 0 <= i < |rest| && ToString(rest[i].key) == key && FirstValue(rest, key)[0] == ToString(rest[i].value) &&
                 forall j :: 0 <= j < i ==> ToString(rest[j].key) != key;
        assert ToString(tags[i + 1].key) == key;
      }
    }
  }

  /** The loop that looks for the first tag with key `key` and stops there. */
  method FirstTagValue(tags: seq<Tag>, key: string) returns (l: seq<string>)
    ensures l == FirstValue(tags, key)
  {
    l := [];
    for i := 0 to |tags|
      invariant FirstValue(tags, key) == FirstValue(tags[i..], key)
    {
      assert tags[i..] == [tags[i]] + tags[i + 1..];
      if ToString(tags[i].key) == key {
        l := l + [ToString(tags[i].value)];
        return;
      }
    }
  }

  /** `extractTestHarnessIDFromTags`: the first ID tag's value, if any. */
  method ExtractTestHarnessIDFromTags(tags: seq<Tag>) returns (l: seq<string>)
    ensures l == FirstValue(tags, IdKey)
  {
    l := FirstTagValue(tags, IdKey);
  }

  /** The filters the ID query sends: a value-less ID filter is added unless a reserved key is already filtered on. */
  function WithSystemFilter(l: seq<TagFilter>): (r: seq<TagFilter>)
    ensures (forall i :: 0 <= i < |l| ==> ToString(l[i].key) !in SystemTagKeys) ==> r == l + [TagFilter(Some(IdKey), [])]
    ensures (exists i :: 0 <= i < |l| && ToString(l[i].key) in SystemTagKeys) ==> r == l
  {
    if exists i :: 0 <= i < |l| && ToString(l[i].key) in SystemTagKeys then l else l + [TagFilter(Some(IdKey), [])]
  }

  /** `resources` with `r`'s mappings added after them, unless `r` is an error. */
  function Prepend(resources: seq<ResourceTagMapping>, r: Result<seq<ResourceTagMapping>, string>): Result<seq<ResourceTagMapping>, string>
  {
    if r.Ok? then Ok(resources + r.value) else r
  }

  /** The mappings of all pages, in order, or the first page error. */
  function Collected(pages: seq<Result<Page, string>>): Result<seq<ResourceTagMapping>, string>
  {
    if pages == [] then Ok([])
    else
      match pages[0]
      case Err(e) => Err(e)
      case Ok(p) => Prepend(p.mappings, Collected(pages[1..]))
  }

  /** Reading fails exactly when some page is an error, and then with the first page error. */
  lemma {:induction false} CollectedFirstError(pages: seq<Result<Page, string>>)
    ensures Collected(pages).Err? <==> exists i :: 0 <= i < |pages| && pages[i].Err?
    ensures Collected(pages).Err? ==>
      exists i :: 0 <= i < |pages| && pages[i] == Err(Collected(pages).error) && forall j :: 0 <= j < i ==> pages[j].Ok?
  {
    if pages != [] {
      var rest := pages[1..];
      CollectedFirstError(rest);
      assert forall i :: 0 <= i < |rest| ==> rest[i] == pages[i + 1];
      if pages[0].Ok? && Collected(rest).Err? {
        var i :| 0 <= i < |rest| && rest[i] == Err(Collected(rest).error) && forall j :: 0 <= j < i ==> rest[j].Ok?;
        assert pages[i + 1] == Err(Collected(pages).error);
        assert forall j :: 0 <= j < i + 1 ==> pages[j].Ok?;
      }
      if exists i :: 0 <= i < |pages| && pages[i].Err? {
        var i :| 0 <= i < |pages| && pages[i].Err?;
        if i > 0 {
          assert rest[i - 1].Err?;
        }
      }
    }
  }

  lemma PrependNothing(pages: seq<Result<Page, string>>)
    ensures Prepend([], Collected(pages[0..])) == Collected(pages)
  {
    assert pages[0..] == pages;
    if Collected(pages).Ok? {
      assert [] + Collected(pages).value == Collected(pages).value;
    }
  }

  lemma PrependTwice(a: seq<ResourceTagMapping>, b: seq<ResourceTagMapping>, r: Result<seq<ResourceTagMapping>, string>)
    ensures Prepend(a, Prepend(b, r)) == Prepend(a + b, r)
  {
    if r.Ok? {
      assert a + (b + r.value) == (a + b) + r.value;
    }
  }

  /**
   * Reads every page, stopping at the first error; the mappings read are
   * the first pages' mappings in order.
   */
  method ReadAllPages(pages: seq<Result<Page, string>>) returns (r: Result<seq<ResourceTagMapping>, string>)
    ensures r == Collected(pages)
  {
    var resources: seq<ResourceTagMapping> := [];
    PrependNothing(pages);
    var i := 0;
    while i < |pages|
      invariant 0 <= i <= |pages|
      invariant Collected(pages) == Prepend(resources, Collected(pages[i..]))
    {
      assert pages[i..][1..] == pages[i + 1..];
      if pages[i].Err? {
        return Err(pages[i].error);
      }
      PrependTwice(resources, pages[i].value.mappings, Collected(pages[i + 1..]));
      resources := resources + pages[i].value.mappings;
      i := i + 1;
    }
    assert resources + [] == resources;
    return Ok(resources);
  }

  const GetResourcesPrefix := "failed to get resources: "

  function NoResourceMessage(id: string): string
  {
    "no resource found for Test Harness " + id
  }

  function MultipleTargetsMessage(id: string, distinct: seq<string>): string
  {
    "found multiple targets for Test Harness " + id + ": " + Text.GoList(distinct)
  }

  function ZeroTargetMessage(id: string): string
  {
    "found zero target for Test Harness " + id
  }

  /** The first `key` tag value of each mapping, in order; a mapping without one contributes nothing. */
  function Firsts(rs: seq<ResourceTagMapping>, key: string): seq<string>
  {
    if rs == [] then [] else Firsts(rs[..|rs| - 1], key) + FirstValue(rs[|rs| - 1].tags, key)
  }

  function Targets(rs: seq<ResourceTagMapping>): seq<string>
  {
    Firsts(rs, TargetKey)
  }

  /** The values of a list of mappings are exactly the first `key` tags of its members. */
  lemma {:induction false} FirstsMembers(rs: seq<ResourceTagMapping>, key: string, t: string)
    ensures t in Firsts(rs, key) <==> exists i :: 0 <= i < |rs| && FirstValue(rs[i].tags, key) == [t]
    decreases |rs|
  {
    if rs != [] {
      var p := rs[..|rs| - 1];
      var last := FirstValue(rs[|rs| - 1].tags, key);
      FirstsMembers(p, key, t);
      assert Firsts(rs, key) == Firsts(p, key) + last;
      if t in Firsts(p, key) {
        var i :| 0 <= i < |p| && FirstValue(p[i].tags, key) == [t];
        assert rs[i] == p[i];
      } else if t in last {
        assert last == [t];
      }
      if exists i :: 0 <= i < |rs| && FirstValue(rs[i].tags, key) == [t] {
        var i :| 0 <= i < |rs| && FirstValue(rs[i].tags, key) == [t];
        if i < |rs| - 1 {
          assert rs[i] == p[i];
        } else {
          assert t in last;
        }
      }
    }
  }

  /** The request that finds the resources of harness `id`. */
  function TargetQuery(id: string): seq<TagFilter>
  {
    [TagFilter(Some(IdKey), [id])]
  }

  /**
   * What `GetTargetByTestHarnessID` returns for the responses `pages`: a
   * page error, no resource, or the one distinct Target tag value.
   */
  function TargetOutcome(id: string, pages: seq<Result<Page, string>>): Result<string, string>
  {
    match Collected(pages)
    case Err(e) => Err(GetResourcesPrefix + e)
    case Ok(rs) =>
      if rs == [] then Err(NoResourceMessage(id))
      else
        var distinct := Dedup.Distinct(Targets(rs));
        if |distinct| > 1 then Err(MultipleTargetsMessage(id, distinct))
        else if |distinct| == 0 then Err(ZeroTargetMessage(id))
        else Ok(distinct[0])
  }

  /** `GetTargetByTestHarnessID`. */
  method GetTargetByTestHarnessID(api: GetResourcesApi, id: string) returns (r: Result<string, string>)
    ensures r == TargetOutcome(id, api(TargetQuery(id)))
  {
    var read := ReadAllPages(api(TargetQuery(id)));
    if read.Err? {
      return Err(GetResourcesPrefix + read.error);
    }
    var resources := read.value;
    if |resources| == 0 {
      return Err(NoResourceMessage(id));
    }
    var physicalIDs: seq<string> := [];
    for i := 0 to |resources|
      invariant physicalIDs == Targets(resources[..i])
    {
      assert resources[..i + 1][..i] == resources[..i];
      var target := FirstTagValue(resources[i].tags, TargetKey);
      physicalIDs := physicalIDs + target;
    }
    assert resources[..|resources|] == resources;
    var distinct := Dedup.Dedup(physicalIDs);
    if |distinct| > 1 {
      return Err(MultipleTargetsMessage(id, distinct));
    }
    if |distinct| == 0 {
      return Err(ZeroTargetMessage(id));
    }
    return Ok(distinct[0]);
  }

  /** The first Target value of mapping `i`, if it has one, is among the values collected. */
  lemma TargetCollected(rs: seq<ResourceTagMapping>, i: nat)
    requires i < |rs| && FirstValue(rs[i].tags, TargetKey) != []
    ensures FirstValue(rs[i].tags, TargetKey) == [FirstValue(rs[i].tags, TargetKey)[0]]
    ensures FirstValue(rs[i].tags, TargetKey)[0] in Targets(rs)
  {
    var v := FirstValue(rs[i].tags, TargetKey)[0];
    assert FirstValue(rs[i].tags, TargetKey) == [v];
    FirstsMembers(rs, TargetKey, v);
  }

  /** `TargetFoundIffUnique` for the mappings read. */
  lemma UniqueTarget(id: string, rs: seq<ResourceTagMapping>, t: string)
    ensures (rs != [] && Dedup.Distinct(Targets(rs)) == [t]) <==>
      && (exists i :: 0 <= i < |rs| && FirstValue(rs[i].tags, TargetKey) == [t])
      && (forall i :: 0 <= i < |rs| && FirstValue(rs[i].tags, TargetKey) != [] ==> FirstValue(rs[i].tags, TargetKey) == [t])
  {
    var d := Dedup.Distinct(Targets(rs));
    Dedup.DistinctSameElements(Targets(rs));
    Dedup.DistinctNoDuplicates(Targets(rs));
    FirstsMembers(rs, TargetKey, t);
    if rs != [] && d == [t] {
      forall i | 0 <= i < |rs| && FirstValue(rs[i].tags, TargetKey) != []
        ensures FirstValue(rs[i].tags, TargetKey) == [t]
      {
        TargetCollected(rs, i);
      }
    }
    if && (exists i :: 0 <= i < |rs| && FirstValue(rs[i].tags, TargetKey) == [t])
       && (forall i :: 0 <= i < |rs| && FirstValue(rs[i].tags, TargetKey) != [] ==> FirstValue(rs[i].tags, TargetKey) == [t])
    {
      assert t in d;
      forall x | x in Targets(rs)
        ensures x == t
      {
        FirstsMembers(rs, TargetKey, x);
      }
      Dedup.DistinctOfConstant(Targets(rs), t);
    }
  }

  /**
   * The harness's target is found exactly when the pages read without
   * error, some resource carries a Target tag, and every resource that
   * does carries the same first Target value, which is the result.
   */
  lemma TargetFoundIffUnique(id: string, pages: seq<Result<Page, string>>, t: string)
    ensures TargetOutcome(id, pages) == Ok(t) <==>
      && Collected(pages).Ok?
      && (exists i :: 0 <= i < |Collected(pages).value| && FirstValue(Collected(pages).value[i].tags, TargetKey) == [t])
      && (forall i :: 0 <= i < |Collected(pages).value| && FirstValue(Collected(pages).value[i].tags, TargetKey) != [] ==>
            FirstValue(Collected(pages).value[i].tags, TargetKey) == [t])
  {
    if Collected(pages).Ok? {
      var rs := Collected(pages).value;
      UniqueTarget(id, rs, t);
      var d := Dedup.Distinct(Targets(rs));
      if rs != [] && |d| == 1 {
        assert TargetOutcome(id, pages) == Ok(d[0]);
        assert d == [d[0]];
      }
    }
  }

  lemma {:induction false} FirstsAppend(a: seq<ResourceTagMapping>, b: seq<ResourceTagMapping>, key: string)
    ensures Firsts(a + b, key) == Firsts(a, key) + Firsts(b, key)
    decreases |b|
  {
    if b != [] {
      var b' := b[..|b| - 1];
      FirstsAppend(a, b', key);
      assert (a + b)[..|a + b| - 1] == a + b';
    } else {
      assert a + b == a;
    }
  }

  function Ids(rs: seq<ResourceTagMapping>): seq<string>
  {
    Firsts(rs, IdKey)
  }

  /** What `GetTestHarnessIDsWithTagFilters` returns for the responses `pages`. */
  function IdsOutcome(pages: seq<Result<Page, string>>): Result<seq<string>, string>
  {
    match Collected(pages)
    case Err(e) => Err(GetResourcesPrefix + e)
    case Ok(rs) => Ok(Dedup.Distinct(Ids(rs)))
  }

  /** `GetTestHarnessIDsWithTagFilters`. */
  method GetTestHarnessIDsWithTagFilters(api: GetResourcesApi, tagFilters: seq<TagFilter>) returns (r: Result<seq<string>, string>)
    ensures r == IdsOutcome(api(WithSystemFilter(tagFilters)))
  {
    var filters := tagFilters;
    var system := HasOneSystemTagKey(tagFilters);
    if !system {
      filters := filters + [TagFilter(Some(IdKey), [])];
    }
    var pages := api(filters);
    var ids: seq<string> := [];
    ghost var read: seq<ResourceTagMapping> := [];
    PrependNothing(pages);
    var i := 0;
    while i < |pages|
      invariant 0 <= i <= |pages|
      invariant Collected(pages) == Prepend(read, Collected(pages[i..]))
      invariant ids == Ids(read)
    {
      assert pages[i..][1..] == pages[i + 1..];
      if pages[i].Err? {
        return Err(GetResourcesPrefix + pages[i].error);
      }
      var page := pages[i].value.mappings;
      PrependTwice(read, page, Collected(pages[i + 1..]));
      for j := 0 to |page|
        invariant ids == Ids(read) + Firsts(page[..j], IdKey)
      {
        assert page[..j + 1][..j] == page[..j];
        var extracted := ExtractTestHarnessIDFromTags(page[j].tags);
        ids := ids + extracted;
      }
      assert page[..|page|] == page;
      FirstsAppend(read, page, IdKey);
      read := read + page;
      i := i + 1;
    }
    assert read + [] == read;
    var distinct := Dedup.Dedup(ids);
    return Ok(distinct);
  }

  /**
   * The ids found are distinct, and an id is found exactly when some
   * mapping's first ID tag has it.
   */
  lemma IdsDistinctAndComplete(pages: seq<Result<Page, string>>)
    requires IdsOutcome(pages).Ok?
    ensures Dedup.NoDuplicates(IdsOutcome(pages).value)
    ensures forall x :: x in IdsOutcome(pages).value <==>
      exists i :: 0 <= i < |Collected(pages).value| && FirstValue(Collected(pages).value[i].tags, IdKey) == [x]
  {
    var rs := Collected(pages).value;
    var found := Dedup.Distinct(Ids(rs));
    assert IdsOutcome(pages) == Ok(found);
    Dedup.DistinctNoDuplicates(Ids(rs));
    Dedup.DistinctSameElements(Ids(rs));
    forall x
      ensures x in IdsOutcome(pages).value <==>
        exists i :: 0 <= i < |Collected(pages).value| && FirstValue(Collected(pages).value[i].tags, IdKey) == [x]
    {
      assert x in found <==> x in Firsts(rs, IdKey);
      FirstsMembers(rs, IdKey, x);
    }
  }
}
