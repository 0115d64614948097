/** `oskar_station_model_free`: tears down a station record and, recursively,
    its child stations.  The release routines `oskar_mem_free` and
    `oskar_element_model_free` are not part of this model; they are passed in
    as functions from the object freed to the status they report.  Each call
    the teardown makes is recorded in a ghost trace, so that "nothing after
    the first failure is freed" can be stated. */
module Station {
  import opened Status
  import opened MemBuffer

  /** An element pattern record; its contents do not matter to the teardown. */
  class ElementModel { }

  type MemFree = Mem -> Status
  type ElementFree = ElementModel -> Status

  /** One call of a release routine. */
  datatype FreeCall = MemFreeCall(buffer: Mem) | PatternFreeCall(pattern: ElementModel)

  function Run(c: FreeCall, memFree: MemFree, elementFree: ElementFree): Status {
    match c
    case MemFreeCall(b) => memFree(b)
    case PatternFreeCall(p) => elementFree(p)
  }

  /** The status of running `plan` in order and stopping at the first failure. */
  function FirstError(plan: seq<FreeCall>, memFree: MemFree, elementFree: ElementFree): Status {
    if plan == [] then Success
    else if Run(plan[0], memFree, elementFree).IsError() then Run(plan[0], memFree, elementFree)
    else FirstError(plan[1..], memFree, elementFree)
  }

  /** The calls actually made: `plan` up to and including the first failure. */
  function Executed(plan: seq<FreeCall>, memFree: MemFree, elementFree: ElementFree): seq<FreeCall> {
    if plan == [] then []
    else if Run(plan[0], memFree, elementFree).IsError() then [plan[0]]
    else [plan[0]] + Executed(plan[1..], memFree, elementFree)
  }

  /** What stopping at the first failure means: the calls made are a prefix of
      the plan, every call before the last one succeeded, and the status is
      the last call's when it failed; success means every call succeeded and
      the whole plan was run. */
  lemma {:induction false} ExecutedIsPrefixToFirstFailure(plan: seq<FreeCall>, memFree: MemFree,
                                                          elementFree: ElementFree)
    ensures Executed(plan, memFree, elementFree) <= plan
    ensures FirstError(plan, memFree, elementFree) == Success <==>
              forall i :: 0 <= i < |plan| ==> Run(plan[i], memFree, elementFree) == Success
    ensures FirstError(plan, memFree, elementFree) == Success ==> Executed(plan, memFree, elementFree) == plan
    ensures FirstError(plan, memFree, elementFree).IsError() ==>
              var done := Executed(plan, memFree, elementFree);
              && |done| > 0
              && Run(done[|done| - 1], memFree, elementFree) == FirstError(plan, memFree, elementFree)
              && forall i :: 0 <= i < |done| - 1 ==> Run(done[i], memFree, elementFree) == Success
  {
    if plan != [] {
      var tail := plan[1..];
      ExecutedIsPrefixToFirstFailure(tail, memFree, elementFree);
      if !Run(plan[0], memFree, elementFree).IsError() {
        assert forall i :: 1 <= i < |plan| ==> plan[i] == tail[i - 1];
        var done := Executed(plan, memFree, elementFree);
        assert done == [plan[0]] + Executed(tail, memFree, elementFree);
        assert forall i :: 1 <= i < |done| ==> done[i] == Executed(tail, memFree, elementFree)[i - 1];
      }
    }
  }

  /** Running `p + q` is running `p` and, only if all of `p` succeeded, `q`. */
  lemma {:induction false} RunConcatenation(p: seq<FreeCall>, q: seq<FreeCall>, memFree: MemFree,
                                            elementFree: ElementFree)
    ensures FirstError(p + q, memFree, elementFree) ==
              if FirstError(p, memFree, elementFree).IsError() then FirstError(p, memFree, elementFree)
              else FirstError(q, memFree, elementFree)
    ensures Executed(p + q, memFree, elementFree) ==
              if FirstError(p, memFree, elementFree).IsError() then Executed(p, memFree, elementFree)
              else p + Executed(q, memFree, elementFree)
  {
    if p == [] {
      assert p + q == q;
    } else {
      assert (p + q)[0] == p[0];
      assert (p + q)[1..] == p[1..] + q;
      RunConcatenation(p[1..], q, memFree, elementFree);
      if !Run(p[0], memFree, elementFree).IsError() {
        assert [p[0]] + (p[1..] + Executed(q, memFree, elementFree)) == p + Executed(q, memFree, elementFree);
      }
    }
  }

  /** Running three stages in a row: each stage runs only if the ones before
      it succeeded, and the calls made are those of the stages reached. */
  lemma ThreeStages(a: seq<FreeCall>, b: seq<FreeCall>, c: seq<FreeCall>, memFree: MemFree,
                    elementFree: ElementFree)
    ensures FirstError(a + (b + c), memFree, elementFree) ==
              if FirstError(a, memFree, elementFree).IsError() then FirstError(a, memFree, elementFree)
              else if FirstError(b, memFree, elementFree).IsError() then FirstError(b, memFree, elementFree)
              else FirstError(c, memFree, elementFree)
    ensures Executed(a + (b + c), memFree, elementFree) ==
              if FirstError(a, memFree, elementFree).IsError() then Executed(a, memFree, elementFree)
              else if FirstError(b, memFree, elementFree).IsError()
              then Executed(a, memFree, elementFree) + Executed(b, memFree, elementFree)
              else Executed(a, memFree, elementFree) + Executed(b, memFree, elementFree)
                   + Executed(c, memFree, elementFree)
  {
    RunConcatenation(a, b + c, memFree, elementFree);
    RunConcatenation(b, c, memFree, elementFree);
    ExecutedIsPrefixToFirstFailure(a, memFree, elementFree);
    ExecutedIsPrefixToFirstFailure(b, memFree, elementFree);
  }

  /** One call followed by the rest of a plan. */
  lemma SingleCall(c: FreeCall, rest: seq<FreeCall>, memFree: MemFree, elementFree: ElementFree)
    ensures FirstError([c] + rest, memFree, elementFree) ==
              if Run(c, memFree, elementFree).IsError() then Run(c, memFree, elementFree)
              else FirstError(rest, memFree, elementFree)
    ensures Executed([c] + rest, memFree, elementFree) ==
              if Run(c, memFree, elementFree).IsError() then [c]
              else [c] + Executed(rest, memFree, elementFree)
  {
    assert ([c] + rest)[1..] == rest;
  }

  /** `calls` is the part of `plan` run so far, all of it successfully. */
  ghost predicate Progress(plan: seq<FreeCall>, calls: seq<FreeCall>, k: int,
                           memFree: MemFree, elementFree: ElementFree)
  {
    && 0 <= k <= |plan|
    && calls == plan[..k]
    && FirstError(calls, memFree, elementFree) == Success
    && Executed(calls, memFree, elementFree) == calls
  }

  /** One more call of the plan: a failure ends the run, a success extends the prefix. */
  lemma Advance(plan: seq<FreeCall>, calls: seq<FreeCall>, k: int, memFree: MemFree, elementFree: ElementFree)
    requires Progress(plan, calls, k, memFree, elementFree) && k < |plan|
    ensures Run(plan[k], memFree, elementFree).IsError() ==>
              FirstError(plan, memFree, elementFree) == Run(plan[k], memFree, elementFree)
              && Executed(plan, memFree, elementFree) == calls + [plan[k]]
    ensures !Run(plan[k], memFree, elementFree).IsError() ==>
              Progress(plan, calls + [plan[k]], k + 1, memFree, elementFree)
  {
    var tail := plan[k + 1..];
    assert plan == calls + ([plan[k]] + tail);
    RunConcatenation(calls, [plan[k]] + tail, memFree, elementFree);
    SingleCall(plan[k], tail, memFree, elementFree);
    if !Run(plan[k], memFree, elementFree).IsError() {
      RunConcatenation(calls, [plan[k]], memFree, elementFree);
      assert [plan[k]] == [plan[k]] + [];
      SingleCall(plan[k], [], memFree, elementFree);
      assert plan[..k + 1] == calls + [plan[k]];
    }
  }

  /** The plans of a row of child stations, one after the other. */
  function Flatten(plans: seq<seq<FreeCall>>): seq<FreeCall> {
    if plans == [] then [] else plans[0] + Flatten(plans[1..])
  }

  lemma FlattenFrom(plans: seq<seq<FreeCall>>, i: int)
    requires 0 <= i < |plans|
    ensures Flatten(plans[i..]) == plans[i] + Flatten(plans[i + 1..])
  {
    assert plans[i..][1..] == plans[i + 1..];
  }

  /** Running the plans of children i, i+1, ...: child i first, and the
      rest only if it succeeded. */
  lemma FlattenStep(plans: seq<seq<FreeCall>>, i: int, memFree: MemFree, elementFree: ElementFree)
    requires 0 <= i < |plans|
    ensures FirstError(Flatten(plans[i..]), memFree, elementFree) ==
              if FirstError(plans[i], memFree, elementFree).IsError() then FirstError(plans[i], memFree, elementFree)
              else FirstError(Flatten(plans[i + 1..]), memFree, elementFree)
    ensures Executed(Flatten(plans[i..]), memFree, elementFree) ==
              if FirstError(plans[i], memFree, elementFree).IsError() then Executed(plans[i], memFree, elementFree)
              else Executed(plans[i], memFree, elementFree) + Executed(Flatten(plans[i + 1..]), memFree, elementFree)
  {
    FlattenFrom(plans, i);
    RunConcatenation(plans[i], Flatten(plans[i + 1..]), memFree, elementFree);
    ExecutedIsPrefixToFirstFailure(plans[i], memFree, elementFree);
  }

  /** One turn of the child loop: with `calls` made so far and children i,
      i+1, ... still to run, child i either ends the run or leaves the rest. */
  lemma ChildStep(plan: seq<FreeCall>, calls: seq<FreeCall>, plans: seq<seq<FreeCall>>, i: int,
                  cs: seq<FreeCall>, memFree: MemFree, elementFree: ElementFree)
    requires 0 <= i < |plans| && cs == Executed(plans[i], memFree, elementFree)
    requires FirstError(plan, memFree, elementFree) == FirstError(Flatten(plans[i..]), memFree, elementFree)
    requires Executed(plan, memFree, elementFree) == calls + Executed(Flatten(plans[i..]), memFree, elementFree)
    ensures FirstError(plans[i], memFree, elementFree).IsError() ==>
              FirstError(plan, memFree, elementFree) == FirstError(plans[i], memFree, elementFree)
              && Executed(plan, memFree, elementFree) == calls + cs
    ensures !FirstError(plans[i], memFree, elementFree).IsError() ==>
              FirstError(plan, memFree, elementFree) == FirstError(Flatten(plans[i + 1..]), memFree, elementFree)
              && Executed(plan, memFree, elementFree) ==
                 (calls + cs) + Executed(Flatten(plans[i + 1..]), memFree, elementFree)
  {
    FlattenStep(plans, i, memFree, elementFree);
    var rest := Executed(Flatten(plans[i + 1..]), memFree, elementFree);
    assert calls + (cs + rest) == (calls + cs) + rest;
  }

  /** `oskar_StationModel`: the owned buffers, the optional element pattern,
      the optional array of child stations and the scalar parameters.  The
      ghost field `children` mirrors the visited part of the child array and
      `plan` lists every release call a full teardown makes. */
  class StationModel {
    var xSignal: Mem
    var ySignal: Mem
    var zSignal: Mem
    var xWeights: Mem
    var yWeights: Mem
    var zWeights: Mem
    var weight: Mem
    var ampGain: Mem
    var ampGainError: Mem
    var phaseOffset: Mem
    var phaseError: Mem
    var totalReceiverNoise: Mem
    var elementPattern: ElementModel?
    var child: array?<StationModel>
    var numElements: int
    var parent: StationModel?
    var longitudeRad: real
    var latitudeRad: real
    var altitudeMetres: real
    var ra0Rad: real
    var dec0Rad: real
    var singleElementModel: int
    var bitDepth: int
    ghost var children: seq<StationModel>
    ghost var plan: seq<FreeCall>
    ghost var Repr: set<object>

    /** A record over the given owned buffers, with no element pattern, no
        children and every parameter zero. */
    constructor (buffers: seq<Mem>)
      requires |buffers| == 12
      ensures Valid() && Repr == {this}
      ensures plan == seq(12, i requires 0 <= i < 12 => MemFreeCall(buffers[i]))
      ensures elementPattern == null && child == null && parent == null && numElements == 0
    {
      xSignal, ySignal, zSignal := buffers[0], buffers[1], buffers[2];
      xWeights, yWeights, zWeights := buffers[3], buffers[4], buffers[5];
      weight, ampGain, ampGainError := buffers[6], buffers[7], buffers[8];
      phaseOffset, phaseError, totalReceiverNoise := buffers[9], buffers[10], buffers[11];
      elementPattern, child, numElements, parent := null, null, 0, null;
      longitudeRad, latitudeRad, altitudeMetres, ra0Rad, dec0Rad := 0.0, 0.0, 0.0, 0.0, 0.0;
      singleElementModel, bitDepth := 0, 0;
      children := [];
      Repr := {this};
      new;
      plan := BufferPlan() + PatternPlan() + Flatten(ChildPlans());
      assert Flatten(ChildPlans()) == [];
    }

    /** The children the teardown visits: `child[0 .. num_elements)`, or none. */
    function NumChildren(): nat
      reads this
    {
      if child == null || numElements < 0 then 0 else numElements
    }

    /** The twelve owned buffers, in the order the teardown frees them. */
    ghost function BufferPlan(): (p: seq<FreeCall>)
      reads this
      ensures |p| == 12
    {
      [MemFreeCall(xSignal), MemFreeCall(ySignal), MemFreeCall(zSignal),
       MemFreeCall(xWeights), MemFreeCall(yWeights), MemFreeCall(zWeights),
       MemFreeCall(weight), MemFreeCall(ampGain), MemFreeCall(ampGainError),
       MemFreeCall(phaseOffset), MemFreeCall(phaseError), MemFreeCall(totalReceiverNoise)]
    }

    ghost function PatternPlan(): seq<FreeCall>
      reads this
    {
      if elementPattern == null then [] else [PatternFreeCall(elementPattern)]
    }

    /** The plans of the visited children, in order. */
    ghost function ChildPlans(): (plans: seq<seq<FreeCall>>)
      reads this, children
      ensures |plans| == |children|
      ensures forall j :: 0 <= j < |children| ==> plans[j] == children[j].plan
    {
      seq(|children|, j requires 0 <= j < |children| reads this, children => children[j].plan)
    }

    /** Children are owned: each is valid and sits in its own footprint,
        disjoint from its siblings' and holding neither this record nor the
        child array. */
    ghost predicate ChildrenOwned()
      reads this, Repr
      decreases Repr, 0
    {
      && this in Repr
      && (child == null ==> children == [])
      && (child != null ==>
            child in Repr && NumChildren() <= child.Length && children == child[..NumChildren()])
      && (forall i :: 0 <= i < |children| ==>
            && children[i] in Repr
            && children[i].Repr <= Repr
            && this !in children[i].Repr
            && (child == null || child !in children[i].Repr)
            && children[i].Valid())
      && (forall i, j :: 0 <= i < j < |children| ==> children[i].Repr !! children[j].Repr)
    }

    /** The object invariant: owned children, and a plan made of the buffers,
        then the pattern, then each child's plan. */
    ghost predicate Valid()
      reads this, Repr
      decreases Repr, 1
    {
      && this in Repr
      && ChildrenOwned()
      && plan == BufferPlan() + PatternPlan() + Flatten(ChildPlans())
    }
  }

  /** A station whose footprint was not touched keeps its invariant and its plan. */
  twostate lemma StationUnchanged(s: StationModel)
    requires old(s.Valid())
    requires unchanged(old(s.Repr))
    ensures s.Repr == old(s.Repr) && s.Valid() && s.plan == old(s.plan)
  {
  }

  /** The twelve status-checked `oskar_mem_free` calls at the head of the
      teardown: the first failure is returned at once. */
  method FreeOwnedBuffers(m: StationModel, memFree: MemFree, elementFree: ElementFree)
    returns (status: Status, ghost calls: seq<FreeCall>)
    ensures status == FirstError(m.BufferPlan(), memFree, elementFree)
    ensures calls == Executed(m.BufferPlan(), memFree, elementFree)
  {
    ghost var plan := m.BufferPlan();
    calls := [];
    status := Run(MemFreeCall(m.xSignal), memFree, elementFree);
    Advance(plan, calls, 0, memFree, elementFree);
    calls := calls + [MemFreeCall(m.xSignal)];
    if status.IsError() { return; }
    status := Run(MemFreeCall(m.ySignal), memFree, elementFree);
    Advance(plan, calls, 1, memFree, elementFree);
    calls := calls + [MemFreeCall(m.ySignal)];
    if status.IsError() { return; }
    status := Run(MemFreeCall(m.zSignal), memFree, elementFree);
    Advance(plan, calls, 2, memFree, elementFree);
    calls := calls + [MemFreeCall(m.zSignal)];
    if status.IsError() { return; }
    status := Run(MemFreeCall(m.xWeights), memFree, elementFree);
    Advance(plan, calls, 3, memFree, elementFree);
    calls := calls + [MemFreeCall(m.xWeights)];
    if status.IsError() { return; }
    status := Run(MemFreeCall(m.yWeights), memFree, elementFree);
    Advance(plan, calls, 4, memFree, elementFree);
    calls := calls + [MemFreeCall(m.yWeights)];
    if status.IsError() { return; }
    status := Run(MemFreeCall(m.zWeights), memFree, elementFree);
    Advance(plan, calls, 5, memFree, elementFree);
    calls := calls + [MemFreeCall(m.zWeights)];
    if status.IsError() { return; }
    status := Run(MemFreeCall(m.weight), memFree, elementFree);
    Advance(plan, calls, 6, memFree, elementFree);
    calls := calls + [MemFreeCall(m.weight)];
    if status.IsError() { return; }
    status := Run(MemFreeCall(m.ampGain), memFree, elementFree);
    Advance(plan, calls, 7, memFree, elementFree);
    calls := calls + [MemFreeCall(m.ampGain)];
    if status.IsError() { return; }
    status := Run(MemFreeCall(m.ampGainError), memFree, elementFree);
    Advance(plan, calls, 8, memFree, elementFree);
    calls := calls + [MemFreeCall(m.ampGainError)];
    if status.IsError() { return; }
    status := Run(MemFreeCall(m.phaseOffset), memFree, elementFree);
    Advance(plan, calls, 9, memFree, elementFree);
    calls := calls + [MemFreeCall(m.phaseOffset)];
    if status.IsError() { return; }
    status := Run(MemFreeCall(m.phaseError), memFree, elementFree);
    Advance(plan, calls, 10, memFree, elementFree);
    calls := calls + [MemFreeCall(m.phaseError)];
    if status.IsError() { return; }
    status := Run(MemFreeCall(m.totalReceiverNoise), memFree, elementFree);
    Advance(plan, calls, 11, memFree, elementFree);
    calls := calls + [MemFreeCall(m.totalReceiverNoise)];
    if status.IsError() { return; }
    assert calls == plan;
  }

  /** The element pattern's release: the pointer is cleared only once
      `oskar_element_model_free` succeeded.  The children are not touched. */
  method FreePattern(m: StationModel, memFree: MemFree, elementFree: ElementFree)
    returns (status: Status, ghost calls: seq<FreeCall>)
    requires m.ChildrenOwned()
    modifies m`elementPattern
    ensures status == FirstError(old(m.PatternPlan()), memFree, elementFree)
    ensures calls == Executed(old(m.PatternPlan()), memFree, elementFree)
    ensures m.elementPattern == if status == Success then null else old(m.elementPattern)
    ensures m.ChildrenOwned() && m.ChildPlans() == old(m.ChildPlans())
  {
    if m.elementPattern == null {
      return Success, [];
    }
    status := Run(PatternFreeCall(m.elementPattern), memFree, elementFree);
    calls := [PatternFreeCall(m.elementPattern)];
    assert m.PatternPlan()[1..] == [];
    if status.IsError() { return; }
    m.elementPattern := null;
  }

  /** What owning the children gives the teardown loop: each child sits in
      its own footprint, inside the record's and away from the record, the
      child array and its siblings. */
  lemma ChildFootprints(m: StationModel)
    requires m.ChildrenOwned()
    ensures forall j :: 0 <= j < |m.children| ==>
              && m.children[j] in m.children[j].Repr
              && m.children[j].Repr < m.Repr
              && (m.child == null || m.child !in m.children[j].Repr)
    ensures forall j, l :: 0 <= j < l < |m.children| ==> m.children[j].Repr !! m.children[l].Repr
  {
    forall j | 0 <= j < |m.children|
      ensures m.children[j] in m.children[j].Repr && m.children[j].Repr < m.Repr
    {
      assert m.children[j].Valid();
      assert m !in m.children[j].Repr;
    }
  }

  /** Child i of the loop: its teardown touches only its own footprint, so
      the siblings after it keep their invariants and plans. */
  method FreeChildAt(c: array<StationModel>, i: int, ghost kids: seq<StationModel>,
                     ghost reprs: seq<set<object>>, ghost plans: seq<seq<FreeCall>>,
                     memFree: MemFree, elementFree: ElementFree)
    returns (status: Status, ghost calls: seq<FreeCall>)
    requires 0 <= i < |kids| == |reprs| == |plans| && i < c.Length && c[i] == kids[i]
    requires forall j :: i <= j < |kids| ==>
               kids[j].Repr == reprs[j] && kids[j].Valid() && kids[j].plan == plans[j]
    requires forall j :: i < j < |kids| ==> reprs[i] !! reprs[j]
    modifies reprs[i]
    decreases reprs[i], 2
    ensures status == FirstError(plans[i], memFree, elementFree)
    ensures calls == Executed(plans[i], memFree, elementFree)
    ensures forall j :: i < j < |kids| ==>
              kids[j].Repr == reprs[j] && kids[j].Valid() && kids[j].plan == plans[j]
  {
    label before:
    status, calls := FreeStation(c[i], memFree, elementFree);
    forall j | i < j < |kids|
      ensures kids[j].Repr == reprs[j] && kids[j].Valid() && kids[j].plan == plans[j]
    {
      StationUnchanged@before(kids[j]);
    }
  }

  /** The loop over `child[0 .. num_elements)`: each child is torn down in
      ascending order and the first failure ends the loop.  `kids` are the
      children visited, `reprs` their footprints, all inside `fp`, which
      leaves out the child array. */
  method FreeChildRange(c: array<StationModel>, count: int, ghost kids: seq<StationModel>,
                        ghost reprs: seq<set<object>>, ghost plans: seq<seq<FreeCall>>,
                        ghost fp: set<object>, memFree: MemFree, elementFree: ElementFree)
    returns (status: Status, ghost calls: seq<FreeCall>)
    requires |kids| == |reprs| == |plans| == (if count < 0 then 0 else count) <= c.Length
    requires kids == c[..|kids|] && c !in fp
    requires forall j :: 0 <= j < |kids| ==>
               kids[j].Repr == reprs[j] && kids[j].Valid() && kids[j].plan == plans[j] && reprs[j] <= fp
    requires forall j, l :: 0 <= j < l < |kids| ==> reprs[j] !! reprs[l]
    modifies fp
    decreases fp, 3
    ensures status == FirstError(Flatten(plans), memFree, elementFree)
    ensures calls == Executed(Flatten(plans), memFree, elementFree)
  {
    ghost var plan := Flatten(plans);
    ghost var n := |kids|;
    status, calls := Success, [];
    var i := 0;
    while i < count
      invariant 0 <= i <= n
      invariant FirstError(plan, memFree, elementFree) == FirstError(Flatten(plans[i..]), memFree, elementFree)
      invariant Executed(plan, memFree, elementFree) == calls + Executed(Flatten(plans[i..]), memFree, elementFree)
      invariant forall j :: i <= j < n ==>
                  kids[j].Repr == reprs[j] && kids[j].Valid() && kids[j].plan == plans[j]
    {
      var st;
      ghost var cs;
      assert c[i] == kids[i];
      st, cs := FreeChildAt(c, i, kids, reprs, plans, memFree, elementFree);
      ChildStep(plan, calls, plans, i, cs, memFree, elementFree);
      calls := calls + cs;
      if st.IsError() {
        return st, calls;
      }
      i := i + 1;
    }
    assert plans[i..] == [];
  }

  /** The children of an owned record, handed to the loop.  Neither the
      record nor its child array is changed. */
  method FreeChildren(m: StationModel, ghost plans: seq<seq<FreeCall>>, memFree: MemFree,
                      elementFree: ElementFree)
    returns (status: Status, ghost calls: seq<FreeCall>)
    requires m.ChildrenOwned() && m.child != null && plans == m.ChildPlans()
    modifies m.Repr - {m, m.child}
    decreases m.Repr, 0
    ensures status == FirstError(Flatten(plans), memFree, elementFree)
    ensures calls == Executed(Flatten(plans), memFree, elementFree)
  {
    ChildFootprints(m);
    ghost var kids := m.children;
    ghost var reprs := seq(|kids|, j requires 0 <= j < |kids| reads kids => kids[j].Repr);
    status, calls := FreeChildRange(m.child, m.numElements, kids, reprs, plans, m.Repr - {m, m.child},
                                    memFree, elementFree);
  }

  /** The end of a successful teardown: the child array is released and the
      remaining parameters are reset. */
  method ClearRecord(m: StationModel)
    modifies m`child, m`numElements, m`parent, m`longitudeRad, m`latitudeRad, m`altitudeMetres
    modifies m`ra0Rad, m`dec0Rad, m`singleElementModel, m`bitDepth
    ensures m.child == null && m.numElements == 0 && m.parent == null
    ensures m.longitudeRad == 0.0 && m.latitudeRad == 0.0 && m.altitudeMetres == 0.0
    ensures m.ra0Rad == 0.0 && m.dec0Rad == 0.0 && m.singleElementModel == 0 && m.bitDepth == 0
  {
    m.child, m.numElements, m.parent := null, 0, null;
    m.longitudeRad, m.latitudeRad, m.altitudeMetres := 0.0, 0.0, 0.0;
    m.ra0Rad, m.dec0Rad, m.singleElementModel, m.bitDepth := 0.0, 0.0, 0, 0;
  }

  /** `oskar_station_model_free`.  The status is that of the first failing
      release call, the calls made are the plan up to that call, and the
      record is cleared only when everything succeeded. */
  method FreeStation(model: StationModel?, memFree: MemFree, elementFree: ElementFree)
    returns (status: Status, ghost calls: seq<FreeCall>)
    requires model != null ==> model.Valid()
    modifies if model == null then {} else model.Repr
    decreases if model == null then {} else model.Repr, 1
    ensures model == null ==> status == Error(InvalidArgument) && calls == []
    ensures model != null ==>
              && status == FirstError(old(model.plan), memFree, elementFree)
              && calls == Executed(old(model.plan), memFree, elementFree)
    ensures model != null ==>
              model.child == (if status == Success then null else old(model.child))
    ensures model != null ==>
              (model.elementPattern == null <==>
                 old(model.elementPattern) == null
                 || (FirstError(old(model.BufferPlan()), memFree, elementFree) == Success
                     && Run(PatternFreeCall(old(model.elementPattern)), memFree, elementFree) == Success))
    ensures model != null && status == Success ==>
              && model.numElements == 0 && model.parent == null
              && model.longitudeRad == 0.0 && model.latitudeRad == 0.0 && model.altitudeMetres == 0.0
              && model.ra0Rad == 0.0 && model.dec0Rad == 0.0
              && model.singleElementModel == 0 && model.bitDepth == 0
    ensures model != null && status != Success ==>
              && model.numElements == old(model.numElements) && model.parent == old(model.parent)
              && model.longitudeRad == old(model.longitudeRad)
              && model.latitudeRad == old(model.latitudeRad)
              && model.altitudeMetres == old(model.altitudeMetres)
              && model.ra0Rad == old(model.ra0Rad) && model.dec0Rad == old(model.dec0Rad)
              && model.singleElementModel == old(model.singleElementModel)
              && model.bitDepth == old(model.bitDepth)
  {
    if model == null {
      return Error(InvalidArgument), [];
    }
    var m: StationModel := model;
    ghost var plans := m.ChildPlans();
    ghost var buffers, pattern, children := m.BufferPlan(), m.PatternPlan(), Flatten(plans);
    assert m.plan == buffers + (pattern + children);
    ThreeStages(buffers, pattern, children, memFree, elementFree);

    ghost var cs;
    status, calls := FreeOwnedBuffers(m, memFree, elementFree);
    if status.IsError() { return; }

    status, cs := FreePattern(m, memFree, elementFree);
    calls := calls + cs;
    if status.IsError() { return; }

    if m.child != null {
      status, cs := FreeChildren(m, plans, memFree, elementFree);
      calls := calls + cs;
      if status.IsError() { return; }
    }
    ClearRecord(m);
  }
}
