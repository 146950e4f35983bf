/** The render batch splitter of src/materialsystem/nscustomdxbuffer.cpp. */
module BatchSplit {
  import opened Bytes

  const CHUNK := 256
  const MAX_VIEWPORTS := 16

  // A material and the value of its $skybackground parameter, when it has one
  datatype Material = Material(id: int, skyBackground: Option<int>)

  datatype Batch = Batch(material: Option<Material>, geometry: int)

  datatype Viewport = Viewport(x: real, y: real, width: real, height: real, minDepth: real, maxDepth: real)

  type Instance(==, 0) = int

  // One call of the native function, with the viewports it ran under
  datatype Call = Call(instances: seq<Instance>, batches: seq<Batch>, flags: uint32, viewports: seq<Viewport>)

  // One instanced draw: up to 256 instances of one material batch
  datatype Draw = Draw(chunk: seq<Instance>, batch: Batch, flags: uint32, viewports: seq<Viewport>)

  predicate IsSkyBackgroundMaterial(material: Option<Material>) {
    material.Some? && material.value.skyBackground.Some? && material.value.skyBackground.value != 0
  }

  predicate IsBackground(b: Batch) {
    IsSkyBackgroundMaterial(b.material)
  }

  // Only a material with a $skybackground parameter other than zero is a background one.
  lemma BackgroundIff(b: Batch)
    ensures IsBackground(b) <==>
              exists id, value :: b.material == Some(Material(id, Some(value))) && (value < 0 || value > 0)
  {
    if IsBackground(b) {
      assert b.material == Some(Material(b.material.value.id, Some(b.material.value.skyBackground.value)));
    }
  }

  function Far(viewports: seq<Viewport>): (r: seq<Viewport>)
    ensures |r| == |viewports|
    ensures forall i | 0 <= i < |r| :: r[i].minDepth == r[i].maxDepth == 1.0
    ensures forall i | 0 <= i < |r| ::
              viewports[i] == r[i].(minDepth := viewports[i].minDepth, maxDepth := viewports[i].maxDepth)
  {
    seq(|viewports|, i requires 0 <= i < |viewports| => viewports[i].(minDepth := 1.0, maxDepth := 1.0))
  }

  // The native function: 256 instances at a time, and then every batch.

  function FirstChunk(instances: seq<Instance>): (r: nat)
    ensures r <= |instances| && (instances != [] ==> r > 0)
    ensures r == |instances| <= 256 || r == 256 < |instances|
  {
    Min(|instances|, CHUNK)
  }

  function NativeDraws(instances: seq<Instance>, batches: seq<Batch>, flags: uint32,
                       viewports: seq<Viewport>): seq<Draw> {
    if instances == [] then []
    else
      var n := FirstChunk(instances);
      ChunkDraws(instances[..n], batches, flags, viewports) + NativeDraws(instances[n..], batches, flags, viewports)
  }

  function ChunkDraws(chunk: seq<Instance>, batches: seq<Batch>, flags: uint32, viewports: seq<Viewport>): seq<Draw> {
    seq(|batches|, i requires 0 <= i < |batches| => Draw(chunk, batches[i], flags, viewports))
  }

  // What all the calls of a trace draw, in order.
  function AllDraws(calls: seq<Call>): seq<Draw> {
    if calls == [] then []
    else
      var c := calls[0];
      NativeDraws(c.instances, c.batches, c.flags, c.viewports) + AllDraws(calls[1..])
  }

  // What a marked submission should draw: what the native function does, background batches far away.

  function ChunkIntended(chunk: seq<Instance>, batches: seq<Batch>, flags: uint32,
                         viewports: seq<Viewport>): seq<Draw> {
    seq(|batches|, i requires 0 <= i < |batches| =>
      Draw(chunk, batches[i], flags, if IsBackground(batches[i]) then Far(viewports) else viewports))
  }

  function Intended(instances: seq<Instance>, batches: seq<Batch>, flags: uint32, viewports: seq<Viewport>): seq<Draw> {
    if instances == [] then []
    else
      var n := FirstChunk(instances);
      ChunkIntended(instances[..n], batches, flags, viewports) + Intended(instances[n..], batches, flags, viewports)
  }

  function WithoutViewports(draws: seq<Draw>): seq<Draw> {
    seq(|draws|, i requires 0 <= i < |draws| => draws[i].(viewports := []))
  }

  // The submission order of instances and materials is that of the one native call.
  lemma {:induction false} IntendedOrderIsNative(instances: seq<Instance>, batches: seq<Batch>, flags: uint32,
                                                 viewports: seq<Viewport>)
    ensures WithoutViewports(Intended(instances, batches, flags, viewports))
         == WithoutViewports(NativeDraws(instances, batches, flags, viewports))
  {
    if instances != [] {
      var n := FirstChunk(instances);
      IntendedOrderIsNative(instances[n..], batches, flags, viewports);
      assert WithoutViewports(ChunkIntended(instances[..n], batches, flags, viewports))
          == WithoutViewports(ChunkDraws(instances[..n], batches, flags, viewports));
      WithoutViewportsConcat(ChunkIntended(instances[..n], batches, flags, viewports),
                             Intended(instances[n..], batches, flags, viewports));
      WithoutViewportsConcat(ChunkDraws(instances[..n], batches, flags, viewports),
                             NativeDraws(instances[n..], batches, flags, viewports));
    }
  }

  lemma WithoutViewportsConcat(a: seq<Draw>, b: seq<Draw>)
    ensures WithoutViewports(a + b) == WithoutViewports(a) + WithoutViewports(b)
  {
  }

  // A submission that marks no background intends exactly the native call.
  lemma {:induction false} UnmarkedIsNative(instances: seq<Instance>, batches: seq<Batch>, flags: uint32,
                                            viewports: seq<Viewport>)
    requires forall i | 0 <= i < |batches| :: !IsBackground(batches[i])
    ensures Intended(instances, batches, flags, viewports) == NativeDraws(instances, batches, flags, viewports)
  {
    if instances != [] {
      var n := FirstChunk(instances);
      UnmarkedIsNative(instances[n..], batches, flags, viewports);
      assert ChunkIntended(instances[..n], batches, flags, viewports) ==
          ChunkDraws(instances[..n], batches, flags, viewports);
    }
  }

  // Maximal runs

  // How many batches from the front are of the class of the first.
  function RunLength(batches: seq<Batch>): (r: nat)
    requires batches != []
    ensures 0 < r <= |batches|
    ensures forall i | 0 <= i < r :: IsBackground(batches[i]) == IsBackground(batches[0])
    ensures r < |batches| ==> IsBackground(batches[r]) != IsBackground(batches[0])
  {
    if |batches| == 1 || IsBackground(batches[1]) != IsBackground(batches[0]) then 1
    else 1 + RunLength(batches[1..])
  }

  lemma RunLengthUnique(batches: seq<Batch>, n: nat)
    requires 0 < n <= |batches|
    requires forall i | 0 <= i < n :: IsBackground(batches[i]) == IsBackground(batches[0])
    requires n < |batches| ==> IsBackground(batches[n]) != IsBackground(batches[0])
    ensures RunLength(batches) == n
  {
  }

  // The calls for one chunk: a call per maximal run.
  function RunCalls(chunk: seq<Instance>, batches: seq<Batch>, flags: uint32, viewports: seq<Viewport>): seq<Call> {
    if batches == [] then []
    else
      var n := RunLength(batches);
      [Call(chunk, batches[..n], flags, if IsBackground(batches[0]) then Far(viewports) else viewports)]
      + RunCalls(chunk, batches[n..], flags, viewports)
  }

  function SplitCalls(instances: seq<Instance>, batches: seq<Batch>, flags: uint32,
                      viewports: seq<Viewport>): seq<Call> {
    if instances == [] then []
    else
      var n := FirstChunk(instances);
      RunCalls(instances[..n], batches, flags, viewports) + SplitCalls(instances[n..], batches, flags, viewports)
  }

  ghost predicate OneClass(c: Call) {
    c.batches != [] && forall i | 0 <= i < |c.batches| :: IsBackground(c.batches[i]) == IsBackground(c.batches[0])
  }

  // No call mixes classes, and two neighbouring calls of a chunk never have the same one: no fewer calls
  // keep the order and the classes apart.
  lemma {:induction false} RunsAreMaximal(chunk: seq<Instance>, batches: seq<Batch>, flags: uint32,
                                          viewports: seq<Viewport>)
    ensures var cs := RunCalls(chunk, batches, flags, viewports);
            && (batches != [] ==> cs != [] && IsBackground(cs[0].batches[0]) == IsBackground(batches[0]))
            && (forall i | 0 <= i < |cs| :: OneClass(cs[i]))
            && (forall i | 0 < i < |cs| :: IsBackground(cs[i].batches[0]) != IsBackground(cs[i - 1].batches[0]))
  {
    if batches != [] {
      hide IsBackground;
      var n := RunLength(batches);
      RunsAreMaximal(chunk, batches[n..], flags, viewports);
    }
  }

  lemma AllDrawsCons(c: Call, rest: seq<Call>)
    ensures AllDraws([c] + rest) == NativeDraws(c.instances, c.batches, c.flags, c.viewports) + AllDraws(rest)
  {
    hide NativeDraws;
    assert ([c] + rest)[1..] == rest;
  }

  lemma AllDrawsNone()
    ensures AllDraws([]) == []
  {
  }

  lemma {:induction false} AllDrawsConcat(a: seq<Call>, b: seq<Call>)
    ensures AllDraws(a + b) == AllDraws(a) + AllDraws(b)
  {
    hide AllDraws, NativeDraws;
    if a == [] {
      AllDrawsNone();
      assert a + b == b;
    } else {
      AllDrawsConcat(a[1..], b);
      AllDrawsCons(a[0], a[1..]);
      AllDrawsCons(a[0], a[1..] + b);
      assert [a[0]] + a[1..] == a && [a[0]] + (a[1..] + b) == a + b;
    }
  }

  lemma OneChunkIsNative(chunk: seq<Instance>, batches: seq<Batch>, flags: uint32, viewports: seq<Viewport>)
    requires 0 < |chunk| <= CHUNK
    ensures NativeDraws(chunk, batches, flags, viewports) == ChunkDraws(chunk, batches, flags, viewports)
  {
    assert chunk[..|chunk|] == chunk && chunk[|chunk|..] == [];
  }

  lemma RunIntended(chunk: seq<Instance>, batches: seq<Batch>, n: nat, flags: uint32, viewports: seq<Viewport>)
    requires n <= |batches| && forall i | 0 <= i < n :: IsBackground(batches[i]) == IsBackground(batches[0])
    ensures n > 0 ==> var depth := if IsBackground(batches[0]) then Far(viewports) else viewports;
                      ChunkIntended(chunk, batches, flags, viewports)
                      == ChunkDraws(chunk, batches[..n], flags, depth)
                         + ChunkIntended(chunk, batches[n..], flags, viewports)
  {
    hide IsBackground, Far;
  }

  lemma FirstCallDraws(c: Call, rest: seq<Call>)
    requires 0 < |c.instances| <= CHUNK
    ensures AllDraws([c] + rest) == ChunkDraws(c.instances, c.batches, c.flags, c.viewports) + AllDraws(rest)
  {
    hide AllDraws, NativeDraws, ChunkDraws;
    OneChunkIsNative(c.instances, c.batches, c.flags, c.viewports);
    AllDrawsCons(c, rest);
  }

  lemma {:induction false} RunCallsDraw(chunk: seq<Instance>, batches: seq<Batch>, flags: uint32,
                                        viewports: seq<Viewport>)
    requires 0 < |chunk| <= CHUNK
    ensures AllDraws(RunCalls(chunk, batches, flags, viewports)) == ChunkIntended(chunk, batches, flags, viewports)
  {
    if batches != [] {
      hide IsBackground, Far, AllDraws, ChunkIntended, ChunkDraws;
      var n := RunLength(batches);
      var depth := if IsBackground(batches[0]) then Far(viewports) else viewports;
      RunIntended(chunk, batches, n, flags, viewports);
      RunCallsDraw(chunk, batches[n..], flags, viewports);
      FirstCallDraws(Call(chunk, batches[..n], flags, depth), RunCalls(chunk, batches[n..], flags, viewports));
    }
  }

  // The split draws exactly what was intended: nothing lost, repeated or reordered.
  lemma {:induction false} SplitDrawsAsIntended(instances: seq<Instance>, batches: seq<Batch>, flags: uint32,
                                                viewports: seq<Viewport>)
    ensures AllDraws(SplitCalls(instances, batches, flags, viewports)) == Intended(instances, batches, flags, viewports)
  {
    if instances != [] {
      hide ChunkIntended, RunCalls;
      var n := FirstChunk(instances);
      RunCallsDraw(instances[..n], batches, flags, viewports);
      SplitDrawsAsIntended(instances[n..], batches, flags, viewports);
      AllDrawsConcat(RunCalls(instances[..n], batches, flags, viewports),
                     SplitCalls(instances[n..], batches, flags, viewports));
    }
  }

  // The device context, and a log of the native calls made under it
  class DeviceContext {
    // What the native function returns, call by call
    const answers: nat -> int
    var viewports: seq<Viewport>
    var calls: seq<Call>

    ghost predicate Valid()
      reads this
    {
      |viewports| <= MAX_VIEWPORTS
    }

    constructor (answers: nat -> int, viewports: seq<Viewport>)
      requires |viewports| <= MAX_VIEWPORTS
      ensures Valid() && this.answers == answers && this.viewports == viewports && calls == []
    {
      this.answers, this.viewports, calls := answers, viewports, [];
    }

    method SetViewports(count: nat, data: array<Viewport>)
      requires count <= data.Length == MAX_VIEWPORTS
      modifies this`viewports
      ensures Valid() && viewports == data[..count]
    {
      viewports := data[..count];
    }

    method Original(instances: seq<Instance>, batches: seq<Batch>, flags: uint32) returns (result: int)
      modifies this`calls
      ensures calls == old(calls) + [Call(instances, batches, flags, viewports)]
      ensures result == answers(|old(calls)|)
    {
      result := answers(|calls|);
      calls := calls + [Call(instances, batches, flags, viewports)];
    }
  }

  class ScopedBackgroundDepth {
    const context: DeviceContext
    const count: nat
    const saved: array<Viewport>

    // `before` are the viewports to come back to.
    ghost predicate Valid(before: seq<Viewport>)
      reads saved
    {
      count <= saved.Length == MAX_VIEWPORTS && saved[..count] == before
    }

    constructor (context: DeviceContext)
      requires context.Valid()
      modifies context`viewports
      ensures this.context == context && fresh(saved) && context.Valid()
      ensures Valid(old(context.viewports)) && context.viewports == Far(old(context.viewports))
    {
      this.context := context;
      count := |context.viewports|;
      saved := new Viewport[MAX_VIEWPORTS](_ => Viewport(0.0, 0.0, 0.0, 0.0, 0.0, 0.0));
      new;
      ghost var before := context.viewports;
      forall i | 0 <= i < count {
        saved[i] := context.viewports[i];
      }
      var background := new Viewport[MAX_VIEWPORTS](i requires 0 <= i < saved.Length reads saved => saved[i]);
      var index := 0;
      while index < count
        invariant index <= count && fresh(background)
        invariant saved[..count] == before == context.viewports
        invariant forall i | 0 <= i < count ::
                    background[i] == if i < index then saved[i].(minDepth := 1.0, maxDepth := 1.0) else saved[i]
      {
        background[index] := background[index].(minDepth := 1.0, maxDepth := 1.0);
        index := index + 1;
      }
      assert background[..count] == Far(before);
      context.SetViewports(count, background);
    }

    // The destructor
    method Restore(ghost before: seq<Viewport>)
      requires Valid(before)
      modifies context`viewports
      ensures context.Valid() && context.viewports == before
    {
      context.SetViewports(count, saved);
    }
  }

  // One run of one chunk.
  method DrawRun(context: DeviceContext, chunk: seq<Instance>, run: seq<Batch>, flags: uint32, background: bool)
    returns (result: int)
    requires context.Valid()
    modifies context
    ensures context.Valid() && context.viewports == old(context.viewports)
    ensures context.calls
         == old(context.calls)
            + [Call(chunk, run, flags, if background then Far(context.viewports) else context.viewports)]
    ensures result == context.answers(|context.calls| - 1)
  {
    if background {
      ghost var before := context.viewports;
      var depth := new ScopedBackgroundDepth(context);
      result := context.Original(chunk, run, flags);
      depth.Restore(before);
    } else {
      result := context.Original(chunk, run, flags);
    }
  }

  // Where the run that starts at `first` ends.
  method FindRunEnd(batches: seq<Batch>, first: nat) returns (end: nat)
    requires first < |batches|
    ensures first < end <= |batches| && end == first + RunLength(batches[first..])
  {
    hide IsBackground;
    end := first + 1;
    while end < |batches| && IsBackground(batches[end]) == IsBackground(batches[first])
      invariant first < end <= |batches|
      invariant forall i | first <= i < end :: IsBackground(batches[i]) == IsBackground(batches[first])
    {
      end := end + 1;
    }
    RunLengthUnique(batches[first..], end - first);
  }

  lemma RunCallsStep(chunk: seq<Instance>, batches: seq<Batch>, first: nat, end: nat, flags: uint32,
                     viewports: seq<Viewport>)
    requires first < |batches| && end == first + RunLength(batches[first..]) <= |batches|
    ensures RunCalls(chunk, batches[first..], flags, viewports)
         == [Call(chunk, batches[first..end], flags,
             if IsBackground(batches[first]) then Far(viewports) else viewports)]
            + RunCalls(chunk, batches[end..], flags, viewports)
  {
    hide IsBackground, Far, RunLength;
    assert batches[first..][..end - first] == batches[first..end];
    assert batches[first..][end - first..] == batches[end..];
  }

  method DrawChunk(context: DeviceContext, chunk: seq<Instance>, batches: seq<Batch>, flags: uint32)
    returns (result: int)
    requires context.Valid() && batches != []
    modifies context
    ensures context.Valid() && context.viewports == old(context.viewports)
    ensures context.calls == old(context.calls) + RunCalls(chunk, batches, flags, context.viewports)
    ensures |context.calls| > 0 && result == context.answers(|context.calls| - 1)
  {
    hide IsBackground, Far, RunLength, RunCalls;
    var first := 0;
    result := 0;
    ghost var target := context.calls + RunCalls(chunk, batches, flags, context.viewports);
    assert batches[0..] == batches;
    while first < |batches|
      invariant first <= |batches|
      invariant context.Valid() && context.viewports == old(context.viewports)
      invariant context.calls + RunCalls(chunk, batches[first..], flags, context.viewports) == target
      invariant first > 0 ==> |context.calls| > 0 && result == context.answers(|context.calls| - 1)
    {
      var background := IsBackground(batches[first]);
      var end := FindRunEnd(batches, first);
      RunCallsStep(chunk, batches, first, end, flags, context.viewports);
      result := DrawRun(context, chunk, batches[first..end], flags, background);
      first := end;
    }
    NoRuns(chunk, flags, context.viewports);
    assert batches[first..] == [];
  }

  lemma NoRuns(chunk: seq<Instance>, flags: uint32, viewports: seq<Viewport>)
    ensures RunCalls(chunk, [], flags, viewports) == []
  {
  }

  method DrawSplit(context: DeviceContext, instances: seq<Instance>, batches: seq<Batch>, flags: uint32)
    returns (result: int)
    requires context.Valid() && instances != [] && batches != []
    modifies context
    ensures context.Valid() && context.viewports == old(context.viewports)
    ensures context.calls == old(context.calls) + SplitCalls(instances, batches, flags, context.viewports)
    ensures |context.calls| > 0 && result == context.answers(|context.calls| - 1)
  {
    hide RunCalls;
    result := 0;
    var firstInstance := 0;
    ghost var target := context.calls + SplitCalls(instances, batches, flags, context.viewports);
    assert instances[0..] == instances;
    while firstInstance < |instances|
      invariant firstInstance <= |instances|
      invariant context.Valid() && context.viewports == old(context.viewports)
      invariant context.calls + SplitCalls(instances[firstInstance..], batches, flags, context.viewports) == target
      invariant firstInstance > 0 ==> |context.calls| > 0 && result == context.answers(|context.calls| - 1)
    {
      var count := Min(|instances| - firstInstance, CHUNK);
      var chunk := instances[firstInstance..firstInstance + count];
      assert instances[firstInstance..][..count] == chunk;
      assert instances[firstInstance..][count..] == instances[firstInstance + count..];
      result := DrawChunk(context, chunk, batches, flags);
      firstInstance := firstInstance + count;
    }
  }

  ghost predicate Marked(batches: seq<Batch>) {
    exists i | 0 <= i < |batches| :: IsBackground(batches[i])
  }

  lemma OneCallDraws(c: Call)
    ensures AllDraws([c]) == NativeDraws(c.instances, c.batches, c.flags, c.viewports)
  {
    hide AllDraws, NativeDraws;
    AllDrawsNone();
    AllDrawsCons(c, []);
    assert [c] + [] == [c];
  }

  lemma {:induction false} NothingToDraw(instances: seq<Instance>, batches: seq<Batch>, flags: uint32,
                                         viewports: seq<Viewport>)
    requires instances == [] || batches == []
    ensures NativeDraws(instances, batches, flags, viewports) == Intended(instances, batches, flags, viewports) == []
  {
    if instances != [] {
      NothingToDraw(instances[FirstChunk(instances)..], batches, flags, viewports);
    }
  }

  // What the hook calls.
  ghost function HookCalls(present: bool, instances: seq<Instance>, batches: seq<Batch>, flags: uint32,
                           viewports: seq<Viewport>): seq<Call>
  {
    if present && instances != [] && Marked(batches) then SplitCalls(instances, batches, flags, viewports)
    else [Call(instances, batches, flags, viewports)]
  }

  /**
    Whatever the hook does under a context draws what was intended: the draws of the one native call in its
    order, background materials and only those under far depth.
   */
  lemma HookDrawsAsIntended(instances: seq<Instance>, batches: seq<Batch>, flags: uint32, viewports: seq<Viewport>)
    ensures AllDraws(HookCalls(true, instances, batches, flags, viewports)) ==
            Intended(instances, batches, flags, viewports)
  {
    hide AllDraws, SplitCalls, Intended, NativeDraws, IsBackground;
    if instances != [] && Marked(batches) {
      SplitDrawsAsIntended(instances, batches, flags, viewports);
    } else {
      OneCallDraws(Call(instances, batches, flags, viewports));
      if instances == [] {
        NothingToDraw(instances, batches, flags, viewports);
      } else {
        UnmarkedIsNative(instances, batches, flags, viewports);
      }
    }
  }

  // The hook: `present` says there is a device context; the result is that of the last native call.
  method DrawModelInstancesInternal(context: DeviceContext, present: bool, instances: seq<Instance>, materialCount: int,
                                    batches: seq<Batch>, flags: uint32) returns (result: int)
    requires context.Valid() && materialCount <= |batches|
    modifies context
    ensures context.Valid() && context.viewports == old(context.viewports)
    ensures context.calls
         == old(context.calls)
            + HookCalls(present, instances, batches[..Max(0, materialCount)], flags, context.viewports)
    ensures |context.calls| > 0 && result == context.answers(|context.calls| - 1)
  {
    hide IsBackground, SplitCalls;
    var used := batches[..Max(0, materialCount)];
    if !present || |instances| == 0 || materialCount <= 0 {
      result := context.Original(instances, used, flags);
      return;
    }
    var firstBackground := 0;
    while firstBackground < materialCount && !IsBackground(used[firstBackground])
      invariant 0 <= firstBackground <= materialCount
      invariant forall i | 0 <= i < firstBackground :: !IsBackground(used[i])
    {
      firstBackground := firstBackground + 1;
    }
    if firstBackground == materialCount {
      result := context.Original(instances, used, flags);
      return;
    }
    result := DrawSplit(context, instances, used, flags);
  }
}
