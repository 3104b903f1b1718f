/**
 * CloudFormation stack outputs (`GetStackOuput` in
 * `internal/pkg/cloudformation/stack_info.go`): the outputs of the named
 * stack whose keys were requested, read through the DescribeStacks
 * paginator.
 *
 * The API is a function from the stack name to the responses its
 * paginator yields, in order. Dereferencing a nil output key panics.
 */
module StackInfo {
  import opened Wrappers
  import Dedup

  datatype Output = Output(key: Option<string>, value: Option<string>)
  datatype Stack = Stack(name: Option<string>, outputs: seq<Output>)
  datatype Page = Page(stacks: seq<Stack>)

  type DescribeStacksApi = string -> seq<Result<Page, string>>

  const NotAllKeysFound := "Not all output keys found"

  function ToString(s: Option<string>): string
  {
    if s.Some? then s.value else ""
  }

  /** One output: a nil key panics, a requested key records the output's value. */
  function StepOutput(m: map<string, string>, distinct: seq<string>, o: Output): Result<map<string, string>, GoError>
  {
    if o.key.None? then Err(Panic(NilDereference))
    else if o.key.value in distinct then Ok(m[o.key.value := ToString(o.value)])
    else Ok(m)
  }

  /** The outputs of one stack, in order, from the map `m`. */
  function ScanOutputs(m: map<string, string>, distinct: seq<string>, outs: seq<Output>): Result<map<string, string>, GoError>
  {
    if outs == [] then Ok(m)
    else
      match ScanOutputs(m, distinct, outs[..|outs| - 1])
      case Err(e) => Err(e)
      case Ok(m') => StepOutput(m', distinct, outs[|outs| - 1])
  }

  /** The number of leading stacks with the requested name: scanning a page stops at the first other stack. */
  function Matching(stacks: seq<Stack>, name: string): (n: nat)
    ensures n <= |stacks|
    ensures forall i :: 0 <= i < n ==> ToString(stacks[i].name) == name
    ensures n < |stacks| ==> ToString(stacks[n].name) != name
  {
    if stacks == [] || ToString(stacks[0].name) != name then 0
    else
      var n := 1 + Matching(stacks[1..], name);
      assert forall i :: 1 <= i < n ==> stacks[i] == stacks[1..][i - 1];
      n
  }

  /** The outputs of every stack in `stacks`, in order. */
  function ScanStacks(m: map<string, string>, distinct: seq<string>, stacks: seq<Stack>): Result<map<string, string>, GoError>
  {
    if stacks == [] then Ok(m)
    else
      match ScanStacks(m, distinct, stacks[..|stacks| - 1])
      case Err(e) => Err(e)
      case Ok(m') => ScanOutputs(m', distinct, stacks[|stacks| - 1].outputs)
  }

  /** Every page in order: a page error is returned as it is; on each page only the leading matching stacks count. */
  function ScanPages(m: map<string, string>, distinct: seq<string>, name: string, pages: seq<Result<Page, string>>)
    : Result<map<string, string>, GoError>
  {
    if pages == [] then Ok(m)
    else
      match ScanPages(m, distinct, name, pages[..|pages| - 1])
      case Err(e) => Err(e)
      case Ok(m') =>
        match pages[|pages| - 1]
        case Err(e) => Err(Failure(e))
        case Ok(page) => ScanStacks(m', distinct, page.stacks[..Matching(page.stacks, name)])
  }

  /**
   * What `GetStackOuput` returns: the requested outputs of the stack, or
   * an error when a page fails or some distinct requested key is missing.
   */
  function StackOutputOutcome(stackName: string, outputKeys: seq<string>, pages: seq<Result<Page, string>>)
    : Result<map<string, string>, GoError>
  {
    var distinct := Dedup.Distinct(outputKeys);
    match ScanPages(map[], distinct, stackName, pages)
    case Err(e) => Err(e)
    case Ok(m) => if |m| != |distinct| then Err(Failure(NotAllKeysFound)) else Ok(m)
  }

  /** `GetStackOuput`. */
  method GetStackOutput(stackName: string, outputKeys: seq<string>, api: DescribeStacksApi)
    returns (r: Result<map<string, string>, GoError>)
    ensures r == StackOutputOutcome(stackName, outputKeys, api(stackName))
  {
    var distinct := Dedup.Dedup(outputKeys);
    var pages := api(stackName);
    var m: map<string, string> := map[];
    for i := 0 to |pages|
      invariant ScanPages(map[], distinct, stackName, pages[..i]) == Ok(m)
    {
      ScanPagesStep(map[], distinct, stackName, pages, i);
      if pages[i].Err? {
        ScanPagesStops(map[], distinct, stackName, pages, i + 1);
        return Err(Failure(pages[i].error));
      }
      var next := ReadPage(m, distinct, stackName, pages[i].value.stacks);
      if next.Err? {
        ScanPagesStops(map[], distinct, stackName, pages, i + 1);
        return next;
      }
      m := next.value;
    }
    assert pages[..|pages|] == pages;
    if |m| != |distinct| {
      return Err(Failure(NotAllKeysFound));
    }
    return Ok(m);
  }

  /** The stacks loop of one page: it stops at the first stack with another name. */
  method ReadPage(m: map<string, string>, distinct: seq<string>, stackName: string, stacks: seq<Stack>)
    returns (r: Result<map<string, string>, GoError>)
    ensures r == ScanStacks(m, distinct, stacks[..Matching(stacks, stackName)])
  {
    ghost var leading := stacks[..Matching(stacks, stackName)];
    var acc := m;
    var j := 0;
    while j < |stacks|
      invariant 0 <= j <= |leading|
      invariant ScanStacks(m, distinct, leading[..j]) == Ok(acc)
    {
      if ToString(stacks[j].name) != stackName {
        break;
      }
      assert leading[j] == stacks[j];
      ScanStacksStep(m, distinct, leading, j);
      var next := ReadOutputs(acc, distinct, stacks[j].outputs);
      if next.Err? {
        ScanStacksStops(m, distinct, leading, j + 1);
        return next;
      }
      acc := next.value;
      j := j + 1;
    }
    assert leading[..j] == leading;
    return Ok(acc);
  }

  /** Scanning one more stack continues from the map the earlier stacks left. */
  lemma ScanStacksStep(m: map<string, string>, d: seq<string>, stacks: seq<Stack>, j: nat)
    requires j < |stacks|
    ensures ScanStacks(m, d, stacks[..j + 1]) ==
      match ScanStacks(m, d, stacks[..j])
      case Err(e) => Err(e)
      case Ok(m') => ScanOutputs(m', d, stacks[j].outputs)
  {
    assert stacks[..j + 1][..j] == stacks[..j];
  }

  /** Scanning one more page continues from the map the earlier pages left. */
  lemma ScanPagesStep(m: map<string, string>, d: seq<string>, name: string, pages: seq<Result<Page, string>>, i: nat)
    requires i < |pages|
    ensures ScanPages(m, d, name, pages[..i + 1]) ==
      match ScanPages(m, d, name, pages[..i])
      case Err(e) => Err(e)
      case Ok(m') =>
        match pages[i]
        case Err(e) => Err(Failure(e))
        case Ok(page) => ScanStacks(m', d, page.stacks[..Matching(page.stacks, name)])
  {
    assert pages[..i + 1][..i] == pages[..i];
  }

  /** The outputs loop of one stack. */
  method ReadOutputs(m: map<string, string>, distinct: seq<string>, outs: seq<Output>)
    returns (r: Result<map<string, string>, GoError>)
    ensures r == ScanOutputs(m, distinct, outs)
  {
    var acc := m;
    for k := 0 to |outs|
      invariant ScanOutputs(m, distinct, outs[..k]) == Ok(acc)
    {
      assert outs[..k + 1][..k] == outs[..k];
      if outs[k].key.None? {
        ScanOutputsStops(m, distinct, outs, k + 1);
        return Err(Panic(NilDereference));
      }
      if outs[k].key.value in distinct {
        acc := acc[outs[k].key.value := ToString(outs[k].value)];
      }
    }
    assert outs[..|outs|] == outs;
    return Ok(acc);
  }

  lemma {:induction false} ScanOutputsStops(m: map<string, string>, d: seq<string>, outs: seq<Output>, n: nat)
    requires n <= |outs| && ScanOutputs(m, d, outs[..n]).Err?
    ensures ScanOutputs(m, d, outs) == ScanOutputs(m, d, outs[..n])
    decreases |outs|
  {
    if n < |outs| {
      assert outs[..|outs| - 1][..n] == outs[..n];
      ScanOutputsStops(m, d, outs[..|outs| - 1], n);
      assert outs[..|outs| - 1][..n] == outs[..n];
    } else {
      assert outs[..n] == outs;
    }
  }

  lemma {:induction false} ScanStacksStops(m: map<string, string>, d: seq<string>, stacks: seq<Stack>, n: nat)
    requires n <= |stacks| && ScanStacks(m, d, stacks[..n]).Err?
    ensures ScanStacks(m, d, stacks) == ScanStacks(m, d, stacks[..n])
    decreases |stacks|
  {
    if n < |stacks| {
      assert stacks[..|stacks| - 1][..n] == stacks[..n];
      ScanStacksStops(m, d, stacks[..|stacks| - 1], n);
      assert stacks[..|stacks| - 1][..n] == stacks[..n];
    } else {
      assert stacks[..n] == stacks;
    }
  }

  lemma {:induction false} ScanPagesStops(m: map<string, string>, d: seq<string>, name: string, pages: seq<Result<Page, string>>, n: nat)
    requires n <= |pages| && ScanPages(m, d, name, pages[..n]).Err?
    ensures ScanPages(m, d, name, pages) == ScanPages(m, d, name, pages[..n])
    decreases |pages|
  {
    if n < |pages| {
      assert pages[..|pages| - 1][..n] == pages[..n];
      ScanPagesStops(m, d, name, pages[..|pages| - 1], n);
      assert pages[..|pages| - 1][..n] == pages[..n];
    } else {
      assert pages[..n] == pages;
    }
  }

  /** The keys of the outputs `outs`, nil keys aside. */
  function OutputKeys(outs: seq<Output>): set<string>
  {
    set o | o in outs && o.key.Some? :: o.key.value
  }

  /** The output keys of every stack in `stacks`. */
  function StackKeys(stacks: seq<Stack>): set<string>
  {
    if stacks == [] then {} else StackKeys(stacks[..|stacks| - 1]) + OutputKeys(stacks[|stacks| - 1].outputs)
  }

  /** The output keys of the stacks a scan of `pages` reaches: on each page, the leading stacks named `name`. */
  function PageKeys(name: string, pages: seq<Result<Page, string>>): set<string>
  {
    if pages == [] then {}
    else
      PageKeys(name, pages[..|pages| - 1]) +
      (match pages[|pages| - 1]
       case Err(_) => {}
       case Ok(page) => StackKeys(page.stacks[..Matching(page.stacks, name)]))
  }

  /** Scanning outputs adds exactly the requested keys among them. */
  lemma {:induction false} ScanOutputsKeys(m: map<string, string>, d: seq<string>, outs: seq<Output>)
    requires ScanOutputs(m, d, outs).Ok?
    ensures forall k :: k in ScanOutputs(m, d, outs).value <==> k in m || (k in d && k in OutputKeys(outs))
    decreases |outs|
  {
    if outs != [] {
      var p := outs[..|outs| - 1];
      var last := outs[|outs| - 1];
      ScanOutputsKeys(m, d, p);
      assert ScanOutputs(m, d, outs) == StepOutput(ScanOutputs(m, d, p).value, d, last);
      assert outs == p + [last];
      assert OutputKeys(outs) == OutputKeys(p) + (if last.key.Some? then {last.key.value} else {});
    }
  }

  /** Scanning stacks adds exactly the requested keys among their outputs. */
  lemma {:induction false} ScanStacksKeys(m: map<string, string>, d: seq<string>, stacks: seq<Stack>)
    requires ScanStacks(m, d, stacks).Ok?
    ensures forall k :: k in ScanStacks(m, d, stacks).value <==> k in m || (k in d && k in StackKeys(stacks))
    decreases |stacks|
  {
    if stacks != [] {
      var p := stacks[..|stacks| - 1];
      ScanStacksKeys(m, d, p);
      ScanOutputsKeys(ScanStacks(m, d, p).value, d, stacks[|stacks| - 1].outputs);
    }
  }

  /** Scanning pages adds exactly the requested keys among the outputs it reaches. */
  lemma {:induction false} ScanPagesKeys(m: map<string, string>, d: seq<string>, name: string, pages: seq<Result<Page, string>>)
    requires ScanPages(m, d, name, pages).Ok?
    ensures forall k :: k in ScanPages(m, d, name, pages).value <==> k in m || (k in d && k in PageKeys(name, pages))
    decreases |pages|
  {
    if pages != [] {
      var p := pages[..|pages| - 1];
      ScanPagesKeys(m, d, name, p);
      var page := pages[|pages| - 1].value;
      ScanStacksKeys(ScanPages(m, d, name, p).value, d, page.stacks[..Matching(page.stacks, name)]);
    }
  }

  /** The key and value of each output of `outs` that has a key. */
  function OutputPairs(outs: seq<Output>): set<(string, string)>
  {
    set o | o in outs && o.key.Some? :: (o.key.value, ToString(o.value))
  }

  function StackPairs(stacks: seq<Stack>): set<(string, string)>
  {
    if stacks == [] then {} else StackPairs(stacks[..|stacks| - 1]) + OutputPairs(stacks[|stacks| - 1].outputs)
  }

  /** The key and value of each output a scan of `pages` reaches. */
  function PagePairs(name: string, pages: seq<Result<Page, string>>): set<(string, string)>
  {
    if pages == [] then {}
    else
      PagePairs(name, pages[..|pages| - 1]) +
      (match pages[|pages| - 1]
       case Err(_) => {}
       case Ok(page) => StackPairs(page.stacks[..Matching(page.stacks, name)]))
  }

  /** Every value a scan of outputs leaves is the starting value or the value of an output with that key. */
  lemma {:induction false} ScanOutputsValues(m: map<string, string>, d: seq<string>, outs: seq<Output>)
    requires ScanOutputs(m, d, outs).Ok?
    ensures var r := ScanOutputs(m, d, outs).value;
      forall k :: k in r ==> (k in m && r[k] == m[k]) || (k, r[k]) in OutputPairs(outs)
    decreases |outs|
  {
    if outs != [] {
      var p := outs[..|outs| - 1];
      ScanOutputsValues(m, d, p);
      assert outs == p + [outs[|outs| - 1]];
      assert OutputPairs(outs) == OutputPairs(p) + OutputPairs([outs[|outs| - 1]]);
    }
  }

  lemma {:induction false} ScanStacksValues(m: map<string, string>, d: seq<string>, stacks: seq<Stack>)
    requires ScanStacks(m, d, stacks).Ok?
    ensures var r := ScanStacks(m, d, stacks).value;
      forall k :: k in r ==> (k in m && r[k] == m[k]) || (k, r[k]) in StackPairs(stacks)
    decreases |stacks|
  {
    if stacks != [] {
      var p := stacks[..|stacks| - 1];
      ScanStacksValues(m, d, p);
      ScanOutputsValues(ScanStacks(m, d, p).value, d, stacks[|stacks| - 1].outputs);
    }
  }

  lemma {:induction false} ScanPagesValues(m: map<string, string>, d: seq<string>, name: string, pages: seq<Result<Page, string>>)
    requires ScanPages(m, d, name, pages).Ok?
    ensures var r := ScanPages(m, d, name, pages).value;
      forall k :: k in r ==> (k in m && r[k] == m[k]) || (k, r[k]) in PagePairs(name, pages)
    decreases |pages|
  {
    if pages != [] {
      var p := pages[..|pages| - 1];
      ScanPagesValues(m, d, name, p);
      var page := pages[|pages| - 1].value;
      ScanStacksValues(ScanPages(m, d, name, p).value, d, page.stacks[..Matching(page.stacks, name)]);
    }
  }

  /** On success each key is mapped to the value of an output with that key on a stack of the requested name. */
  lemma StackOutputValues(stackName: string, outputKeys: seq<string>, pages: seq<Result<Page, string>>)
    requires StackOutputOutcome(stackName, outputKeys, pages).Ok?
    ensures var r := StackOutputOutcome(stackName, outputKeys, pages).value;
      forall k :: k in r ==> (k, r[k]) in PagePairs(stackName, pages)
  {
    ScanPagesValues(map[], Dedup.Distinct(outputKeys), stackName, pages);
  }

  /**
   * When every page is read without error or panic, the call succeeds
   * exactly when each requested key is an output key of a matching stack,
   * and then the map holds the requested keys and no other.
   */
  lemma StackOutputFound(stackName: string, outputKeys: seq<string>, pages: seq<Result<Page, string>>)
    requires ScanPages(map[], Dedup.Distinct(outputKeys), stackName, pages).Ok?
    ensures StackOutputOutcome(stackName, outputKeys, pages).Ok? <==>
      forall k :: k in outputKeys ==> k in PageKeys(stackName, pages)
    ensures StackOutputOutcome(stackName, outputKeys, pages).Ok? ==>
      forall k :: k in StackOutputOutcome(stackName, outputKeys, pages).value <==> k in outputKeys
  {
    var d := Dedup.Distinct(outputKeys);
    var m := ScanPages(map[], d, stackName, pages).value;
    ScanPagesKeys(map[], d, stackName, pages);
    Dedup.DistinctSameElements(outputKeys);
    Dedup.DistinctCardinality(outputKeys);
    var requested := set x | x in d;
    SubsetSameSize(m.Keys, requested);
    assert m.Keys == requested <==> forall k :: k in outputKeys ==> k in PageKeys(stackName, pages);
  }

  lemma {:induction false} SubsetNoLarger(a: set<string>, b: set<string>)
    requires a <= b
    ensures |a| <= |b|
  {
    assert b == a + (b - a);
  }

  lemma SubsetSameSize(a: set<string>, b: set<string>)
    requires a <= b
    ensures |a| == |b| <==> a == b
  {
    if a != b {
      var k :| k in b && k !in a;
      assert a <= b - {k};
      assert |b - {k}| == |b| - 1;
      SubsetNoLarger(a, b - {k});
    }
  }

  /** No requested key: the empty map, unless a page fails or a nil key panics first. */
  lemma NoKeysRequested(stackName: string, pages: seq<Result<Page, string>>)
    ensures StackOutputOutcome(stackName, [], pages) == ScanPages(map[], [], stackName, pages)
    ensures ScanPages(map[], [], stackName, pages).Ok? ==> StackOutputOutcome(stackName, [], pages) == Ok(map[])
  {
    if ScanPages(map[], [], stackName, pages).Ok? {
      ScanPagesKeys(map[], [], stackName, pages);
    }
  }

  /** Repeated keys in the request change nothing. */
  lemma RepeatedKeysIgnored(stackName: string, outputKeys: seq<string>, pages: seq<Result<Page, string>>)
    ensures StackOutputOutcome(stackName, outputKeys, pages) == StackOutputOutcome(stackName, Dedup.Distinct(outputKeys), pages)
  {
    Dedup.DistinctIdempotent(outputKeys);
  }

  /** A failing page ends the call with its own error when the pages before it scanned cleanly. */
  lemma PageErrorReturned(stackName: string, outputKeys: seq<string>, pages: seq<Result<Page, string>>, i: nat)
    requires i < |pages| && pages[i].Err?
    requires ScanPages(map[], Dedup.Distinct(outputKeys), stackName, pages[..i]).Ok?
    ensures StackOutputOutcome(stackName, outputKeys, pages) == Err(Failure(pages[i].error))
  {
    assert pages[..i + 1][..i] == pages[..i];
    ScanPagesStops(map[], Dedup.Distinct(outputKeys), stackName, pages, i + 1);
  }
}
