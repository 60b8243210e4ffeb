/**
  The stage chains pipeline_init of csf/pipeline.c builds from the module queue: stage k is
  the k-th module of the queue, and is followed by the next one of the same pipeline.
*/
module Chains {
  import opened PipelineState
  import opened Modules

  /** PIPELINE_SIZE */
  const PIPELINE_SIZE: nat := 16

  function NextAt(q: seq<Module>, k: nat): Option<nat>
    requires k < |q|
  {
    if k + 1 < |q| && q[k + 1].pipeline == q[k].pipeline then Some(k + 1) else None
  }

  /** next_rqcb of every stage. */
  function NextOf(q: seq<Module>): (next: seq<Option<nat>>)
    ensures |next| == |q| && forall k :: 0 <= k < |q| ==> next[k] == NextAt(q, k)
  {
    seq(|q|, k requires 0 <= k < |q| => NextAt(q, k))
  }

  /** first_rqcbp of a pipeline. */
  function FirstOf(q: seq<Module>, p: nat): (first: Option<nat>)
    ensures first.Some? ==> first.value < |q| && q[first.value].pipeline == p
    ensures forall j :: 0 <= j < (if first.Some? then first.value else |q|) ==> q[j].pipeline != p
  {
    if q == [] then None
    else
      var k := |q| - 1;
      var f := FirstOf(q[..k], p);
      if f.Some? then f else if q[k].pipeline == p then Some(k) else None
  }

  /** The stages visited by following the links. */
  function Chain(q: seq<Module>, k: nat): seq<nat>
    requires k < |q|
    decreases |q| - k
  {
    [k] + if NextAt(q, k).Some? then Chain(q, k + 1) else []
  }

  /** The modules of a pipeline from place `i` on, in queue order. */
  function MembersFrom(q: seq<Module>, p: nat, i: nat): seq<nat>
    requires i <= |q|
    decreases |q| - i
  {
    if i == |q| then [] else (if q[i].pipeline == p then [i] else []) + MembersFrom(q, p, i + 1)
  }

  function Members(q: seq<Module>, p: nat): seq<nat> {
    MembersFrom(q, p, 0)
  }

  lemma {:induction false} MembersAre(q: seq<Module>, p: nat, i: nat)
    requires i <= |q|
    ensures forall k :: k in MembersFrom(q, p, i) <==> i <= k < |q| && q[k].pipeline == p
    ensures forall a, b :: 0 <= a < b < |MembersFrom(q, p, i)| ==> MembersFrom(q, p, i)[a] < MembersFrom(q, p, i)[b]
    decreases |q| - i
  {
    if i < |q| {
      MembersAre(q, p, i + 1);
      var rest := MembersFrom(q, p, i + 1);
      assert forall a :: 0 <= a < |rest| ==> rest[a] in rest;
    }
  }

  lemma {:induction false} NoneBefore(q: seq<Module>, p: nat, i: nat, j: nat)
    requires i <= j <= |q| && forall k :: i <= k < j ==> q[k].pipeline != p
    ensures MembersFrom(q, p, i) == MembersFrom(q, p, j)
    decreases j - i
  {
    if i < j {
      NoneBefore(q, p, i + 1, j);
    }
  }

  lemma {:induction false} ChainIsMembers(q: seq<Module>, k: nat)
    requires Sorted(q) && k < |q|
    ensures Chain(q, k) == MembersFrom(q, q[k].pipeline, k)
    decreases |q| - k
  {
    if NextAt(q, k).Some? {
      ChainIsMembers(q, k + 1);
    } else {
      NoneBefore(q, q[k].pipeline, k + 1, |q|);
    }
  }

  /** The chain of a pipeline holds exactly its modules, in queue order. */
  lemma ChainIsPipeline(q: seq<Module>, p: nat)
    requires Sorted(q)
    ensures FirstOf(q, p).None? <==> Members(q, p) == []
    ensures FirstOf(q, p).Some? ==> Chain(q, FirstOf(q, p).value) == Members(q, p)
    ensures forall k :: k in Members(q, p) <==> 0 <= k < |q| && q[k].pipeline == p
  {
    MembersAre(q, p, 0);
    if FirstOf(q, p).Some? {
      var f := FirstOf(q, p).value;
      NoneBefore(q, p, 0, f);
      ChainIsMembers(q, f);
    } else {
      NoneBefore(q, p, 0, |q|);
    }
  }

  /** Chains of different pipelines share no stage, and every stage is on the chain of its own. */
  lemma ChainsPartition(q: seq<Module>, p: nat, p': nat, k: nat)
    requires Sorted(q) && p != p' && FirstOf(q, p).Some? && FirstOf(q, p').Some? && k < |q|
    ensures !(k in Chain(q, FirstOf(q, p).value) && k in Chain(q, FirstOf(q, p').value))
    ensures FirstOf(q, q[k].pipeline).Some? && k in Chain(q, FirstOf(q, q[k].pipeline).value)
  {
    ChainIsPipeline(q, p);
    ChainIsPipeline(q, p');
    ChainIsPipeline(q, q[k].pipeline);
  }

  /** After stop `i` of the chain comes stop `i + 1`, and nothing after the last. */
  lemma NextStop(q: seq<Module>, p: nat, i: nat)
    requires Sorted(q) && i < |Members(q, p)|
    ensures Members(q, p)[i] < |q|
    ensures NextOf(q)[Members(q, p)[i]] == if i + 1 < |Members(q, p)| then Some(Members(q, p)[i + 1]) else None
  {
    MembersAre(q, p, 0);
    assert Members(q, p)[i] in Members(q, p);
    NextStopFrom(q, p, 0, i);
  }

  lemma {:induction false} NextStopFrom(q: seq<Module>, p: nat, j: nat, i: nat)
    requires Sorted(q) && j <= |q| && i < |MembersFrom(q, p, j)|
    ensures var ms := MembersFrom(q, p, j);
      ms[i] < |q| && NextAt(q, ms[i]) == if i + 1 < |ms| then Some(ms[i + 1]) else None
    decreases |q| - j
  {
    if q[j].pipeline != p {
      NextStopFrom(q, p, j + 1, i);
    } else if i > 0 {
      NextStopFrom(q, p, j + 1, i - 1);
    } else {
      ChainIsMembers(q, j);
    }
  }

  /** The loop of pipeline_init. */
  method PipelineInit(q: seq<Module>) returns (pcb: array<Option<nat>>, next: seq<Option<nat>>)
    requires forall k :: 0 <= k < |q| ==> q[k].pipeline < PIPELINE_SIZE
    ensures pcb.Length == PIPELINE_SIZE && forall p :: 0 <= p < PIPELINE_SIZE ==> pcb[p] == FirstOf(q, p)
    ensures next == NextOf(q)
  {
    pcb := new Option<nat>[PIPELINE_SIZE](_ => None);
    next := [];
    var mods, k := q, 0;
    while mods != []
      invariant k <= |q| && mods == q[k..] && |next| == k
      invariant forall p :: 0 <= p < PIPELINE_SIZE ==> pcb[p] == FirstOf(q[..k], p)
      invariant forall j :: 0 <= j < k ==> next[j] == NextAt(q, j)
      decreases |mods|
    {
      var cur := mods[0].pipeline;
      assert q[..k + 1][..k] == q[..k];
      if pcb[cur].None? {
        pcb[cur] := Some(k);
      }
      var nextArg := None;
      if |mods| > 1 && mods[1].pipeline == cur {
        nextArg := Some(k + 1);
      }
      next := next + [nextArg];
      mods := mods[1..];
      k := k + 1;
    }
    assert q[..k] == q;
  }
}
