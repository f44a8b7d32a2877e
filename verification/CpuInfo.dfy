/** The CPUInfo object. Each method is one critical section of its lock, except that Update measures before it
    takes the lock. Stored selections are slices, that is, arrays on the heap that callers may share. */
module CpuInfo {
  import opened Collections
  import opened Ranking
  import opened Allocator
  import opened Wrappers

  class CPUInfo {
    var cache: seq<CoreRanking>
    var lastIndex: nat
    var selections: map<int, array<int>>

    ghost function State(): Alloc
      reads this, selections.Values
    {
      Alloc(cache, lastIndex, map vm | vm in selections :: selections[vm][..])
    }

    ghost predicate Valid()
      reads this, selections.Values
    {
      Inv(State())
    }

    constructor ()
      ensures Valid() && State() == Empty()
    {
      cache, lastIndex, selections := [], 0, map[];
    }

    /** Update's critical section. */
    method Install(finalResults: seq<CoreRanking>)
      requires ValidRankings(finalResults)
      modifies this
      ensures Valid()
      ensures cache == finalResults && State() == Commit(old(State()), finalResults)
    {
      cache := finalResults;
      selections := map[];
      if |cache| > 0 {
        lastIndex := lastIndex % |cache|;
      } else {
        lastIndex := 0;
      }
    }

    /** On an error nothing changes. On success the new cache is the ranking of the measured means, every
        selection is forgotten, and the cursor is brought back into range. */
    method Update(detected: Option<seq<CoreInfo>>, m: Measurer, rounds: nat) returns (r: Result<(), UpdateError>)
      requires Valid() && rounds > 0
      requires detected.Some? ==> DistinctCpus(detected.value)
      modifies this
      ensures Valid()
      ensures r.Ok? <==> detected.Some? && MeasuredBefore(m, |detected.value|, rounds, 0, 0)
      ensures r.Err? ==> unchanged(this)
      ensures r.Err? ==> match r.error
                         case DetectFailed => detected.None?
                         case MeasureFailed(src, dst) =>
                           detected.Some? && FailsAt(detected.value, m, rounds, src, dst)
      ensures r.Ok? ==> Published(cache, detected.value, m, rounds) && State() == Commit(old(State()), cache)
    {
      var computed := ComputeRankings(detected, m, rounds);
      match computed
      case Err(e) => return Err(e);
      case Ok(finalResults) =>
        PublishedIsValid(finalResults, detected.value, m, rounds);
        Install(finalResults);
        r := Ok(());
    }

    method GetCoreRanking() returns (r: Result<seq<CoreRanking>, SelectError>)
      ensures r == if cache == [] then Err(CacheEmpty) else Ok(cache)
    {
      if |cache| == 0 {
        return Err(CacheEmpty);
      }
      return Ok(cache);
    }

    static method NewSlice(contents: seq<int>) returns (a: array<int>)
      ensures fresh(a) && a[..] == contents
    {
      a := new int[|contents|](i requires 0 <= i < |contents| => contents[i]);
    }

    method Remember(vmid: int, res: array<int>)
      modifies this`selections
      ensures selections == old(selections)[vmid := res]
      ensures State() == old(State()).(selections := old(State()).selections[vmid := res[..]])
    {
      selections := selections[vmid := res];
    }

    static method Append(primary: CoreRanking, requestedCPUs: nat) returns (res: seq<int>)
      requires requestedCPUs > 0
      ensures res == Pick(primary, requestedCPUs)
    {
      res := [primary.cpu];
      var i := 0;
      while i < requestedCPUs - 1 && i < |primary.ranking|
        invariant 0 <= i <= Least(requestedCPUs - 1, |primary.ranking|)
        invariant res == [primary.cpu] + Cpus(primary.ranking[..i])
      {
        res := res + [primary.ranking[i].cpu];
        assert primary.ranking[..i + 1] == primary.ranking[..i] + [primary.ranking[i]];
        i := i + 1;
      }
    }

    /** The last part of SelectCPUs: advance the cursor, pick from the row it reaches, remember the pick. */
    method Allocate(vmid: int, requestedCPUs: nat) returns (res: array<int>)
      requires Allocates(State(), vmid, requestedCPUs)
      modifies this
      ensures fresh(res) && cache == old(cache) && selections == old(selections)[vmid := res]
      ensures State() == Select(old(State()), vmid, requestedCPUs).0
      ensures Select(old(State()), vmid, requestedCPUs).1 == Ok(res[..])
    {
      var next := (lastIndex + 1) % |cache|;
      var primary := cache[next];
      var picked := Append(primary, requestedCPUs);
      res := NewSlice(picked);
      lastIndex := next;
      Remember(vmid, res);
    }

    /** Hands out the stored slice itself, a new one when the request allocates. */
    method SelectCPUs(vmid: int, requestedCPUs: int) returns (r: Result<array<int>, SelectError>)
      requires Valid()
      modifies this
      ensures Valid()
      ensures State() == Select(old(State()), vmid, requestedCPUs).0
      ensures match Select(old(State()), vmid, requestedCPUs).1
              case Err(e) => r == Err(e)
              case Ok(cpus) => r.Ok? && r.value[..] == cpus && vmid in selections && selections[vmid] == r.value
      ensures r.Ok? <==> 0 < requestedCPUs <= |cache|
      ensures r.Ok? ==> r.value.Length == requestedCPUs && Distinct(r.value[..])
      ensures r.Ok? ==> if Allocates(old(State()), vmid, requestedCPUs) then fresh(r.value)
                        else vmid in old(selections) && r.value == old(selections)[vmid]
    {
      SelectResult(State(), vmid, requestedCPUs);
      SelectKeepsInv(State(), vmid, requestedCPUs);
      if |cache| == 0 {
        return Err(CacheEmpty);
      }
      if vmid in selections {
        var cores := selections[vmid];
        if cores.Length == requestedCPUs {
          return Ok(cores);
        }
      }
      if requestedCPUs <= 0 {
        return Err(NotPositive);
      }
      var max := |cache|;
      if requestedCPUs > max {
        return Err(TooMany(requestedCPUs, max));
      }
      var res := Allocate(vmid, requestedCPUs);
      r := Ok(res);
    }

    /** A deep copy, made in whatever order the map yields its keys. */
    method GetSelections() returns (result: map<int, array<int>>)
      ensures result.Keys == selections.Keys
      ensures forall vm :: vm in result ==> fresh(result[vm]) && result[vm][..] == State().selections[vm]
      ensures forall v, w :: v in result && w in result && v != w ==> result[v] != result[w]
    {
      result := map[];
      ghost var stored := State().selections;
      var todo := selections.Keys;
      while todo != {}
        invariant todo <= selections.Keys && result.Keys == selections.Keys - todo
        invariant forall vm :: vm in result ==> fresh(result[vm])
        invariant forall v, w :: v in result && w in result && v != w ==> result[v] != result[w]
        invariant forall vm :: vm in result ==> result[vm][..] == stored[vm]
        decreases |todo|
      {
        var vmid := AnyOf(todo);
        assert selections[vmid][..] == stored[vmid];
        var cpusCopy := NewSlice(selections[vmid][..]);
        result := result[vmid := cpusCopy];
        todo := todo - {vmid};
      }
      assert stored == State().selections;
    }
  }

  /** What a caller writes into one VM's slice of the result of GetSelections shows there and nowhere else: the other
      slices still hold the selections, and so does the allocator, which none of them shares memory with. */
  method WriteToCopy(c: CPUInfo, vmid: int, i: nat, cpu: int) returns (result: map<int, array<int>>)
    requires c.Valid() && vmid in c.selections && i < c.selections[vmid].Length
    ensures result.Keys == c.selections.Keys
    ensures forall vm :: vm in result ==>
              result[vm][..] == if vm == vmid then c.State().selections[vm][i := cpu] else c.State().selections[vm]
    ensures c.State() == old(c.State())
  {
    result := c.GetSelections();
    ghost var stored := c.State().selections;
    assert stored[vmid] == c.selections[vmid][..];
    result[vmid][i] := cpu;
    assert c.State() == old(c.State());
    assert result[vmid][..] == stored[vmid][i := cpu];
  }

  /** The slice from SelectCPUs is not a copy: what a caller writes into it is what the allocator has stored. */
  method WriteToSelection(c: CPUInfo, vmid: int, k: int, i: nat, cpu: int)
    requires c.Valid() && i < k <= |c.cache|
    modifies c, c.selections.Values
    ensures vmid in c.selections && c.selections[vmid].Length == k && c.selections[vmid][i] == cpu
  {
    var r := c.SelectCPUs(vmid, k);
    r.value[i] := cpu;
  }
}
