/** The affinity mask and its application to every thread and child of a VM. */
module Affinity {
  import opened Bits
  import opened Collections
  import opened Ranking
  import opened Allocator
  import opened CpuInfo
  import opened Wrappers

  const MASK_BITS := 1024

  predicate InRange(cpu: int) { 0 <= cpu < MASK_BITS }

  /** What a mask keeps of a set of CPUs. */
  function Maskable(cpus: set<int>): set<int> { set c | c in cpus && InRange(c) }

  /** The bit for the CPU is set in its word. */
  predicate HasBit(words: seq<bv64>, cpu: int)
    requires |words| == 16 && InRange(cpu)
  {
    Test(words[cpu / 64], Position(cpu % 64))
  }

  lemma HasBitAfterSet(words: seq<bv64>, cpu: int, p: bv6, c: int)
    requires |words| == 16 && InRange(cpu) && p == Position(cpu % 64) && InRange(c)
    ensures HasBit(words[cpu / 64 := WithBit(words[cpu / 64], p)], c) <==> c == cpu || HasBit(words, c)
  {
    var w, q := words[cpu / 64], Position(c % 64);
    PositionsDiffer(cpu % 64, c % 64);
    SetBit(w, p, q);
  }

  /** Sixteen 64-bit words that stand for a set of CPU numbers. */
  class CPUSet {
    const bits: array<bv64>

    ghost predicate Valid() { bits.Length == 16 }

    ghost function Contents(): set<int>
      reads bits
      requires Valid()
    {
      set c | 0 <= c < MASK_BITS && HasBit(bits[..], c)
    }

    constructor ()
      ensures Valid() && fresh(bits) && Contents() == {}
    {
      bits := new bv64[16](_ => 0);
      new;
      forall c | 0 <= c < MASK_BITS ensures !HasBit(bits[..], c) {
        NoBit(Position(c % 64));
      }
    }

    /** Adds the CPU; a number the mask has no bit for is ignored. */
    method Set(cpu: int)
      requires Valid()
      modifies bits
      ensures Contents() == old(Contents()) + Maskable({cpu})
      ensures 0 <= cpu < 1024 ==>
                bits[..] == old(bits[..])[cpu / 64 := WithBit(old(bits[..])[cpu / 64], Position(cpu % 64))]
      ensures !(0 <= cpu < 1024) ==> bits[..] == old(bits[..])
    {
      if cpu >= 0 && cpu < 1024 {
        ghost var words := bits[..];
        var p := Position(cpu % 64);
        bits[cpu / 64] := WithBit(bits[cpu / 64], p);
        assert bits[..] == words[cpu / 64 := WithBit(words[cpu / 64], p)];
        forall c | 0 <= c < MASK_BITS ensures HasBit(bits[..], c) <==> c == cpu || HasBit(words, c) {
          HasBitAfterSet(words, cpu, p, c);
        }
      }
    }

    method IsSet(cpu: int) returns (r: bool)
      requires Valid()
      ensures r <==> cpu in Contents()
    {
      if cpu >= 0 && cpu < 1024 {
        r := Test(bits[cpu / 64], Position(cpu % 64));
        assert r == HasBit(bits[..], cpu);
      } else {
        r := false;
      }
    }

    /** Setting every CPU of a list makes the mask their set, less what is out of range. */
    method SetAll(cpus: seq<int>)
      requires Valid()
      modifies bits
      ensures Contents() == old(Contents()) + Maskable(Elements(cpus))
    {
      for i := 0 to |cpus|
        invariant Contents() == old(Contents()) + Maskable(Elements(cpus[..i]))
      {
        Set(cpus[i]);
        assert cpus[..i + 1] == cpus[..i] + [cpus[i]];
        assert Elements(cpus[..i + 1]) == Elements(cpus[..i]) + {cpus[i]};
      }
      assert cpus[..|cpus|] == cpus;
    }
  }

  lemma MaskableIsAll(cpus: seq<int>)
    ensures Maskable(Elements(cpus)) == Elements(cpus) <==> forall i :: 0 <= i < |cpus| ==> InRange(cpus[i])
  {
    if Maskable(Elements(cpus)) == Elements(cpus) {
      forall i | 0 <= i < |cpus| ensures InRange(cpus[i]) {
        assert cpus[i] in Elements(cpus);
      }
    }
  }

  /** The mask built for a selection stands for exactly the selected CPUs if and only if all of them have a bit;
      the others are left out without an error. */
  method MaskOf(cpus: seq<int>) returns (mask: CPUSet)
    ensures fresh(mask) && fresh(mask.bits) && mask.Valid()
    ensures mask.Contents() == Maskable(Elements(cpus))
    ensures forall c :: c in mask.Contents() <==> c in cpus && 0 <= c < 1024
    ensures mask.Contents() == Elements(cpus) <==> forall i :: 0 <= i < |cpus| ==> 0 <= cpus[i] < 1024
  {
    mask := new CPUSet();
    mask.SetAll(cpus);
    MaskableIsAll(cpus);
  }

  datatype Call = Call(pid: int, mask: set<int>)

  function PidOf(c: Call): int { c.pid }

  /** The kernel as the provider sees it. threads(n, pid) is the answer to the n-th thread lookup of one
      collection, so two lookups of the same process may differ. */
  class SystemOps {
    const threads: (nat, int) -> Option<seq<int>>
    const children: int -> Option<seq<int>>
    const accepts: (nat, int) -> bool
    var calls: seq<Call>

    constructor (threads: (nat, int) -> Option<seq<int>>, children: int -> Option<seq<int>>,
                 accepts: (nat, int) -> bool)
      ensures calls == [] && this.threads == threads && this.children == children && this.accepts == accepts
    {
      this.threads, this.children, this.accepts, calls := threads, children, accepts, [];
    }

    static method Members(mask: CPUSet) returns (contents: set<int>)
      requires mask.Valid()
      ensures contents == mask.Contents()
    {
      contents := {};
      for c := 0 to MASK_BITS
        invariant contents == set x | x in mask.Contents() && x < c
      {
        var isSet := mask.IsSet(c);
        if isSet {
          contents := contents + {c};
        }
      }
      assert mask.Contents() == set x | x in mask.Contents() && x < MASK_BITS;
    }

    method SchedSetaffinity(pid: int, mask: CPUSet) returns (ok: bool)
      requires mask.Valid()
      modifies this
      ensures calls == old(calls) + [Call(pid, mask.Contents())]
    {
      ok := accepts(|calls|, pid);
      var contents := Members(mask);
      calls := calls + [Call(pid, contents)];
    }
  }

  function MainThreads(found: Option<seq<int>>, pid: int): set<int> {
    match found
    case None => {pid}
    case Some(tids) => Elements(tids)
  }

  function Found(found: Option<seq<int>>): set<int> {
    match found
    case None => {}
    case Some(tids) => Elements(tids)
  }

  function ChildThreads(threads: (nat, int) -> Option<seq<int>>, children: seq<int>): set<int> {
    if children == [] then {}
    else
      var last := |children| - 1;
      ChildThreads(threads, children[..last]) + Found(threads(last + 1, children[last]))
  }

  lemma {:induction false} InChildThreads(threads: (nat, int) -> Option<seq<int>>, children: seq<int>, tid: int)
    ensures tid in ChildThreads(threads, children) <==>
              exists i :: 0 <= i < |children| && tid in Found(threads(i + 1, children[i]))
  {
    if children == [] {
    } else {
      var last := |children| - 1;
      InChildThreads(threads, children[..last], tid);
      if i :| 0 <= i < |children| && tid in Found(threads(i + 1, children[i])) {
        if i < last {
          assert children[..last][i] == children[i];
        }
      }
      if i :| 0 <= i < last && tid in Found(threads(i + 1, children[..last][i])) {
        assert children[..last][i] == children[i];
      }
    }
  }

  /** Every thread of the process, or the process itself if they cannot be read, every child, and every thread
      of a child that can be read. */
  function PidClosure(threads: (nat, int) -> Option<seq<int>>, children: int -> Option<seq<int>>, pid: int): set<int> {
    MainThreads(threads(0, pid), pid) +
    match children(pid)
    case None => {}
    case Some(listed) => Elements(listed) + ChildThreads(threads, listed)
  }

  predicate ReadsThread(threads: (nat, int) -> Option<seq<int>>, i: nat, child: int, p: int) {
    threads(i + 1, child).Some? && p in threads(i + 1, child).value
  }

  /** In terms of the lookups alone: a process or thread is updated if and only if it is a thread of the process, or
      the process itself when its threads cannot be read, or a child, or a thread that a readable lookup of a child
      lists. */
  lemma {:induction false} InPidClosure(threads: (nat, int) -> Option<seq<int>>, children: int -> Option<seq<int>>,
      pid: int, p: int)
    ensures p in PidClosure(threads, children, pid) <==>
              || (threads(0, pid).None? && p == pid)
              || (threads(0, pid).Some? && p in threads(0, pid).value)
              || (children(pid).Some? && p in children(pid).value)
              || (children(pid).Some? &&
                  exists i :: 0 <= i < |children(pid).value| && ReadsThread(threads, i, children(pid).value[i], p))
  {
    if children(pid).Some? {
      var listed := children(pid).value;
      InChildThreads(threads, listed, p);
      forall i | 0 <= i < |listed|
        ensures p in Found(threads(i + 1, listed[i])) <==> ReadsThread(threads, i, listed[i], p)
      {}
    }
  }

  datatype Applied = InvalidConfig | Skipped | Applied(cpus: seq<int>)

  /** One call for each of the processes, none twice, all with the same mask. */
  predicate CallsOnceEach(calls: seq<Call>, pids: set<int>, mask: set<int>) {
    && Distinct(Map(PidOf, calls))
    && Elements(Map(PidOf, calls)) == pids
    && forall i :: 0 <= i < |calls| ==> calls[i].mask == mask
  }

  lemma MoveOver<T>(todo: set<T>, done: set<T>, all: set<T>, x: T)
    requires todo !! done && todo + done == all && x in todo
    ensures todo - {x} !! done + {x} && (todo - {x}) + (done + {x}) == all && x !in done
  {}

  lemma OneCallPerProcess(calls: seq<Call>, pids: set<int>, mask: set<int>)
    requires CallsOnceEach(calls, pids, mask)
    ensures |calls| == |pids|
  {
    CardinalityOfDistinct(Map(PidOf, calls));
  }

  lemma OneMoreChild(threads: (nat, int) -> Option<seq<int>>, children: seq<int>, i: nat)
    requires i < |children|
    ensures Elements(children[..i + 1]) == Elements(children[..i]) + {children[i]}
    ensures ChildThreads(threads, children[..i + 1]) ==
              ChildThreads(threads, children[..i]) + Found(threads(i + 1, children[i]))
  {
    assert children[..i + 1] == children[..i] + [children[i]];
    assert children[..i + 1][..i] == children[..i];
  }

  lemma OneMoreCall(calls: seq<Call>, pids: set<int>, mask: set<int>, pid: int)
    requires CallsOnceEach(calls, pids, mask) && pid !in pids
    ensures CallsOnceEach(calls + [Call(pid, mask)], pids + {pid}, mask)
  {
    assert Map(PidOf, calls + [Call(pid, mask)]) == Map(PidOf, calls) + [pid];
    assert forall i :: 0 <= i < |calls| ==> Map(PidOf, calls)[i] in pids;
  }

  class AffinityProvider {
    const cpuInfo: CPUInfo
    const sys: SystemOps

    constructor (cpuInfo: CPUInfo, sys: SystemOps)
      ensures this.cpuInfo == cpuInfo && this.sys == sys
    {
      this.cpuInfo, this.sys := cpuInfo, sys;
    }

    method AddAll(pids: set<int>, tids: seq<int>) returns (r: set<int>)
      ensures r == pids + Elements(tids)
    {
      r := pids;
      for i := 0 to |tids|
        invariant r == pids + Elements(tids[..i])
      {
        r := r + {tids[i]};
      }
      assert tids[..|tids|] == tids;
    }

    method CollectPidsToUpdate(pid: int) returns (pidsToUpdate: set<int>)
      ensures pidsToUpdate == PidClosure(sys.threads, sys.children, pid)
    {
      pidsToUpdate := {};
      var tids := sys.threads(0, pid);
      match tids {
        case None => pidsToUpdate := {pid};
        case Some(found) => pidsToUpdate := AddAll({}, found);
      }
      var listed := sys.children(pid);
      if listed.Some? {
        var children := listed.value;
        ghost var own := pidsToUpdate;
        for i := 0 to |children|
          invariant pidsToUpdate == own + Elements(children[..i]) + ChildThreads(sys.threads, children[..i])
        {
          var child := children[i];
          ghost var before := pidsToUpdate;
          pidsToUpdate := pidsToUpdate + {child};
          var childThreads := sys.threads(i + 1, child);
          if childThreads.Some? {
            pidsToUpdate := AddAll(pidsToUpdate, childThreads.value);
          }
          OneMoreChild(sys.threads, children, i);
        }
        assert children[..|children|] == children;
      }
    }

    /** One turn of the loop; a refused call does not stop it. */
    method SetAffinity(targetPID: int, mask: CPUSet, ghost before: seq<Call>, ghost made: seq<Call>,
                       ghost reached: set<int>) returns (ghost now: seq<Call>)
      requires mask.Valid() && targetPID !in reached
      requires sys.calls == before + made && CallsOnceEach(made, reached, mask.Contents())
      modifies sys
      ensures sys.calls == before + now && CallsOnceEach(now, reached + {targetPID}, mask.Contents())
    {
      ghost var contents := mask.Contents();
      var ok := sys.SchedSetaffinity(targetPID, mask);
      now := made + [Call(targetPID, contents)];
      OneMoreCall(made, reached, contents, targetPID);
      assert sys.calls == before + made + [Call(targetPID, contents)] == before + now;
    }

    method SetAffinities(pidsToUpdate: set<int>, mask: CPUSet) returns (ghost made: seq<Call>)
      requires mask.Valid()
      modifies sys
      ensures sys.calls == old(sys.calls) + made
      ensures CallsOnceEach(made, pidsToUpdate, mask.Contents())
    {
      ghost var before, contents, reached: set<int> := sys.calls, mask.Contents(), {};
      made := [];
      var todo := pidsToUpdate;
      while todo != {}
        invariant todo !! reached && todo + reached == pidsToUpdate
        invariant sys.calls == before + made && mask.Contents() == contents
        invariant CallsOnceEach(made, reached, contents)
        decreases |todo|
      {
        var targetPID := AnyOf(todo);
        MoveOver(todo, reached, pidsToUpdate, targetPID);
        made := SetAffinity(targetPID, mask, before, made, reached);
        reached := reached + {targetPID};
        todo := todo - {targetPID};
      }
      assert reached == pidsToUpdate;
    }

    method Apply(cpus: seq<int>, pid: int) returns (ghost made: seq<Call>)
      modifies sys
      ensures sys.calls == old(sys.calls) + made
      ensures CallsOnceEach(made, PidClosure(sys.threads, sys.children, pid), Maskable(Elements(cpus)))
    {
      var mask := MaskOf(cpus);
      var pidsToUpdate := CollectPidsToUpdate(pid);
      made := SetAffinities(pidsToUpdate, mask);
    }

    /** A zero core count is an error and a failed selection a silent skip; neither touches a process. Otherwise
        every process of the closure gets exactly one call, all with the mask of the selected CPUs, whatever the
        map order and whichever calls fail. */
    method ApplyAffinity(vmid: int, pid: int, cores: int, sockets: int) returns (r: Applied, ghost made: seq<Call>)
      requires cpuInfo.Valid()
      modifies cpuInfo, sys
      ensures cpuInfo.Valid() && sys.calls == old(sys.calls) + made
      ensures cores * sockets == 0 ==>
                r == InvalidConfig && made == [] && cpuInfo.State() == old(cpuInfo.State())
      ensures cores * sockets != 0 ==> cpuInfo.State() == Select(old(cpuInfo.State()), vmid, cores * sockets).0
      ensures cores * sockets != 0 ==>
                match Select(old(cpuInfo.State()), vmid, cores * sockets).1
                case Err(_) => r == Skipped && made == []
                case Ok(cpus) =>
                  && r == Applied(cpus)
                  && CallsOnceEach(made, PidClosure(sys.threads, sys.children, pid), Maskable(Elements(cpus)))
    {
      made := [];
      var count := cores * sockets;
      if count == 0 {
        r := InvalidConfig;
        return;
      }
      var selected := cpuInfo.SelectCPUs(vmid, count);
      if selected.Err? {
        r := Skipped;
        return;
      }
      var cpus := selected.value[..];
      made := Apply(cpus, pid);
      r := Applied(cpus);
    }
  }
}
