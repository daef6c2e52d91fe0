/** Path-copying edits of a card's nested dicts and lists, over an explicit heap of containers. */
module CardFactory {
  import opened Wrappers

  /** A slot holds an atom (a string, number, bool or None) or a reference to a container. */
  datatype Value<S> = Atom(atom: S) | Ref(ref: nat)

  datatype Container<S> = Dict(slots: map<string, Value<S>>) | List(items: seq<Value<S>>)

  /** Containers by reference. Allocation appends, so an unchanged heap is a prefix of the later one. */
  type Heap<S> = seq<Container<S>>

  /** One step of a path; Malformed is a bool, or anything that is neither a str nor an int. */
  datatype Step = Key(name: string) | Index(index: int) | Malformed

  datatype MissingPathPolicy = STRICT | ADD | PASS

  datatype Error = ValueError | TypeError | KeyError | IndexError

  datatype GenericCard<I> = GenericCard(identity: I, rawContent: nat, cacheable: bool)

  /** The input card itself, a new card, or an exception. */
  datatype Outcome<I> = Kept(card: GenericCard<I>) | Edited(card: GenericCard<I>) | Raised(error: Error)

  // ----- heaps and reading along a path

  ghost predicate InHeap<S>(heap: Heap<S>, value: Value<S>) {
    value.Ref? ==> value.ref < |heap|
  }

  ghost predicate ClosedContainer<S>(heap: Heap<S>, container: Container<S>) {
    match container
    case Dict(slots) => forall key :: key in slots ==> InHeap(heap, slots[key])
    case List(items) => forall i :: 0 <= i < |items| ==> InHeap(heap, items[i])
  }

  /** No container holds a dangling reference. */
  ghost predicate Closed<S>(heap: Heap<S>) {
    forall r :: 0 <= r < |heap| ==> ClosedContainer(heap, heap[r])
  }

  /** container[step], if that slot exists. */
  function Slot<S>(container: Container<S>, step: Step): Option<Value<S>> {
    match container
    case Dict(slots) => if step.Key? && step.name in slots then Some(slots[step.name]) else None
    case List(items) => if step.Index? && 0 <= step.index < |items| then Some(items[step.index]) else None
  }

  function Child<S>(heap: Heap<S>, value: Value<S>, step: Step): Option<Value<S>> {
    if value.Ref? && value.ref < |heap| then Slot(heap[value.ref], step) else None
  }

  function Read<S>(heap: Heap<S>, value: Value<S>, path: seq<Step>): Option<Value<S>>
    decreases path
  {
    if path == [] then Some(value)
    else
      match Child(heap, value, path[0])
      case None => None
      case Some(child) => Read(heap, child, path[1..])
  }

  lemma ChildInHeap<S>(heap: Heap<S>, value: Value<S>, step: Step)
    requires Closed(heap)
    ensures Child(heap, value, step).Some? ==> InHeap(heap, Child(heap, value, step).value)
  {
    if value.Ref? && value.ref < |heap| {
      assert ClosedContainer(heap, heap[value.ref]);
    }
  }

  /** Growing a closed heap does not change what is read. */
  lemma {:induction false} ReadAfterGrowth<S>(heap: Heap<S>, grown: Heap<S>, value: Value<S>, path: seq<Step>)
    requires Closed(heap) && heap <= grown && InHeap(heap, value)
    ensures Read(grown, value, path) == Read(heap, value, path)
    decreases path
  {
    if path != [] {
      ChildInHeap(heap, value, path[0]);
      if Child(heap, value, path[0]).Some? {
        ReadAfterGrowth(heap, grown, Child(heap, value, path[0]).value, path[1..]);
      }
    }
  }

  lemma {:induction false} ReadFurther<S>(heap: Heap<S>, value: Value<S>, path: seq<Step>, more: seq<Step>)
    ensures Read(heap, value, path + more) ==
            if Read(heap, value, path).Some? then Read(heap, Read(heap, value, path).value, more) else None
    decreases path
  {
    if path == [] {
      assert path + more == more;
    } else {
      assert (path + more)[1..] == path[1..] + more;
      if Child(heap, value, path[0]).Some? {
        ReadFurther(heap, Child(heap, value, path[0]).value, path[1..], more);
      }
    }
  }

  // ----- check_path and has_field

  function CheckStep(step: Step): Option<Error> {
    match step
    case Malformed => Some(TypeError)
    case Index(index) => if index < 0 then Some(ValueError) else None
    case Key(_) => None
  }

  function CheckSteps(path: seq<Step>): Option<Error> {
    if path == [] then None
    else if CheckStep(path[0]).Some? then CheckStep(path[0])
    else CheckSteps(path[1..])
  }

  function CheckPath(path: seq<Step>): Option<Error> {
    if path == [] then Some(ValueError) else CheckSteps(path)
  }

  predicate IsStep(step: Step) {
    step.Key? || (step.Index? && step.index >= 0)
  }

  /** A path is refused for its first bad step, a malformed one with TypeError and a negative index with ValueError;
      without a bad step only the empty path is refused. */
  lemma {:induction false} FirstBadStepNamesTheError(path: seq<Step>) returns (k: nat)
    ensures k <= |path| && (forall j :: 0 <= j < k ==> IsStep(path[j])) && (k < |path| ==> !IsStep(path[k]))
    ensures CheckPath(path) ==
            if path == [] then Some(ValueError)
            else if k == |path| then None
            else if path[k].Malformed? then Some(TypeError) else Some(ValueError)
  {
    k := 0;
    if path != [] && IsStep(path[0]) {
      assert CheckSteps(path) == CheckSteps(path[1..]);
      if |path| > 1 {
        k := FirstBadStepNamesTheError(path[1..]);
        assert forall j :: 0 < j < |path| ==> path[j] == path[1..][j - 1];
      }
      k := k + 1;
    }
  }

  lemma {:induction false} CheckedStep(path: seq<Step>, k: nat)
    requires CheckSteps(path).None? && k < |path|
    ensures CheckStep(path[k]).None?
  {
    if k > 0 {
      CheckedStep(path[1..], k - 1);
    }
  }

  datatype Answer = Present(there: bool) | Refused(error: Error)

  /** Steps down from the root; a missing slot or a type mismatch means "not there". */
  method HasField<S, I>(heap: Heap<S>, card: GenericCard<I>, path: seq<Step>) returns (answer: Answer)
    requires card.rawContent < |heap| && Closed(heap)
    ensures answer == if CheckPath(path).Some? then Refused(CheckPath(path).value)
                      else Present(Read(heap, Ref(card.rawContent), path).Some?)
  {
    if CheckPath(path).Some? {
      return Refused(CheckPath(path).value);
    }
    var current: Value<S> := Ref(card.rawContent);
    for i := 0 to |path|
      invariant InHeap(heap, current)
      invariant Read(heap, Ref(card.rawContent), path) == Read(heap, current, path[i..])
    {
      var step := path[i];
      CheckedStep(path, i);
      ChildInHeap(heap, current, step);
      assert path[i..][0] == step && path[i..][1..] == path[i + 1..];
      if current.Ref? && heap[current.ref].Dict? && step.Key? {
        if step.name !in heap[current.ref].slots {
          return Present(false);
        }
        current := heap[current.ref].slots[step.name];
      } else if current.Ref? && heap[current.ref].List? && step.Index? {
        if step.index >= |heap[current.ref].items| {
          return Present(false);
        }
        current := heap[current.ref].items[step.index];
      } else {
        return Present(false);
      }
    }
    return Present(true);
  }

  // ----- with_field

  /** What following the rest of a path does: write, keep the card, or raise. */
  datatype Fate = Writes | Keeps | Raises(error: Error)

  predicate Mismatch<S>(container: Container<S>, step: Step) {
    match container
    case Dict(_) => !step.Key?
    case List(_) => !step.Index?
  }

  /** Why a missing slot stops the edit; None when ADD can create it. */
  function StopAtMissing<S>(container: Container<S>, missing: MissingPathPolicy, next: Option<Step>): Option<Fate> {
    if missing.PASS? then Some(Keeps)
    else if container.List? then Some(Raises(IndexError))
    else if missing.STRICT? then Some(Raises(KeyError))
    else if next.Some? && next.value.Index? then Some(Raises(IndexError))
    else None
  }

  function NextStep(path: seq<Step>): Option<Step> {
    if |path| > 1 then Some(path[1]) else None
  }

  function FateOf<S>(heap: Heap<S>, value: Value<S>, path: seq<Step>, missing: MissingPathPolicy): Fate
    decreases |path|, 1
  {
    if path == [] then Writes
    else if value.Atom? || value.ref >= |heap| then Raises(TypeError)
    else FateIn(heap, heap[value.ref], path, missing)
  }

  function FateIn<S>(heap: Heap<S>, container: Container<S>, path: seq<Step>, missing: MissingPathPolicy): Fate
    requires path != []
    decreases |path|, 0
  {
    if Mismatch(container, path[0]) then Raises(TypeError)
    else
      match Slot(container, path[0])
      case Some(child) => FateOf(heap, child, path[1..], missing)
      case None =>
        (match StopAtMissing(container, missing, NextStep(path))
         case Some(fate) => fate
         case None => if |path| == 1 then Writes else FateIn(heap, Dict(map[]), path[1..], missing))
  }

  /** A shallow copy of container with container[step] = value. */
  function WithSlot<S>(container: Container<S>, step: Step, value: Value<S>): Container<S>
    requires !Mismatch(container, step)
    requires container.List? ==> 0 <= step.index < |container.items|
  {
    match container
    case Dict(slots) => Dict(slots[step.name := value])
    case List(items) => List(items[step.index := value])
  }

  predicate Writable<S>(container: Container<S>, step: Step) {
    !Mismatch(container, step) && (container.List? ==> 0 <= step.index < |container.items|)
  }

  lemma {:induction false} FateAfterGrowth<S>(heap: Heap<S>, grown: Heap<S>, value: Value<S>, path: seq<Step>,
                                              missing: MissingPathPolicy)
    requires Closed(heap) && heap <= grown && InHeap(heap, value)
    ensures FateOf(grown, value, path, missing) == FateOf(heap, value, path, missing)
    decreases |path|, 1
  {
    if path != [] && value.Ref? {
      assert ClosedContainer(heap, heap[value.ref]);
      FateInAfterGrowth(heap, grown, heap[value.ref], path, missing);
    }
  }

  lemma {:induction false} FateInAfterGrowth<S>(heap: Heap<S>, grown: Heap<S>, container: Container<S>, path: seq<Step>,
                                                missing: MissingPathPolicy)
    requires Closed(heap) && heap <= grown && ClosedContainer(heap, container) && path != []
    ensures FateIn(grown, container, path, missing) == FateIn(heap, container, path, missing)
    decreases |path|, 0
  {
    match Slot(container, path[0])
    case Some(child) => FateAfterGrowth(heap, grown, child, path[1..], missing);
    case None =>
      if |path| > 1 {
        FateInAfterGrowth(heap, grown, Dict(map[]), path[1..], missing);
      }
  }

  /** A missing slot that ADD creates: the rest of the path goes through a new empty dict. */
  lemma FateThroughNewDict<S>(heap: Heap<S>, container: Container<S>, path: seq<Step>, missing: MissingPathPolicy)
    requires Closed(heap) && path != [] && !Mismatch(container, path[0]) && Slot(container, path[0]).None?
    requires StopAtMissing(container, missing, NextStep(path)).None?
    ensures FateIn(heap, container, path, missing) == FateOf(heap + [Dict(map[])], Ref(|heap|), path[1..], missing)
  {
    var grown: Heap<S> := heap + [Dict(map[])];
    if |path| > 1 {
      FateInAfterGrowth(heap, grown, Dict(map[]), path[1..], missing);
    }
  }

  // ----- _containers_along

  /** Following step from the container at ref leads to next: the slot's value, or a dict created empty. */
  ghost predicate LinksTo<S>(heap: Heap<S>, ref: nat, step: Step, next: Value<S>)
    requires ref < |heap|
  {
    match Slot(heap[ref], step)
    case Some(child) => child == next
    case None => next.Ref? && next.ref < |heap| && heap[next.ref] == Dict(map[])
  }

  /** One container per step, each led to by the one above; the last step leads to `end`. */
  ghost predicate IsChain<S>(heap: Heap<S>, refs: seq<nat>, path: seq<Step>, end: Value<S>)
    decreases path
  {
    && |refs| == |path|
    && (path != [] ==>
          && refs[0] < |heap| && Writable(heap[refs[0]], path[0])
          && LinksTo(heap, refs[0], path[0], if |path| == 1 then end else Ref(refs[1]))
          && IsChain(heap, refs[1..], path[1..], end))
  }

  lemma {:induction false} ChainAfterGrowth<S>(heap: Heap<S>, grown: Heap<S>, refs: seq<nat>, path: seq<Step>,
                                               end: Value<S>)
    requires IsChain(heap, refs, path, end) && heap <= grown
    ensures IsChain(grown, refs, path, end)
    decreases path
  {
    if path != [] {
      ChainAfterGrowth(heap, grown, refs[1..], path[1..], end);
    }
  }

  /** A chain that leads to the container at ref goes one step further. */
  lemma {:induction false} ChainGoesOn<S>(heap: Heap<S>, refs: seq<nat>, path: seq<Step>, ref: nat, step: Step,
                                          next: Value<S>)
    requires IsChain(heap, refs, path, Ref(ref)) && ref < |heap|
    requires Writable(heap[ref], step) && LinksTo(heap, ref, step, next)
    ensures IsChain(heap, refs + [ref], path + [step], next)
    decreases path
  {
    if path != [] {
      ChainGoesOn(heap, refs[1..], path[1..], ref, step, next);
      assert (refs + [ref])[1..] == refs[1..] + [ref] && (path + [step])[1..] == path[1..] + [step];
    } else {
      assert refs + [ref] == [ref] && path + [step] == [step];
    }
  }

  /** The result of _containers_along: one container per step, PASS's None, or an exception. */
  datatype Along = Containers(refs: seq<nat>) | RanOut | Stopped(error: Error)

  method ContainersAlong<S>(heap: Heap<S>, rawContent: nat, path: seq<Step>, missing: MissingPathPolicy)
    returns (heap': Heap<S>, along: Along)
    requires rawContent < |heap| && Closed(heap) && path != [] && CheckPath(path).None?
    ensures heap <= heap' && Closed(heap')
    ensures match FateOf(heap, Ref(rawContent), path, missing)
            case Writes =>
              && along.Containers? && along.refs != [] && along.refs[0] == rawContent
              && exists end :: IsChain(heap', along.refs, path, end)
            case Keeps => along == RanOut
            case Raises(error) => along == Stopped(error)
  {
    heap' := heap;
    var result: seq<nat> := [];
    var container: Value<S> := Ref(rawContent);
    assert path[0..] == path && IsChain(heap', result, path[..0], container);
    hide IsChain, Closed;
    for index := 0 to |path|
      invariant heap <= heap' && Closed(heap') && InHeap(heap', container)
      invariant IsChain(heap', result, path[..index], container)
      invariant (if index == 0 then container == Ref(rawContent) else result != [] && result[0] == rawContent)
      invariant FateOf(heap, Ref(rawContent), path, missing) == FateOf(heap', container, path[index..], missing)
    {
      var step := path[index];
      assert path[index..][0] == step && path[index..][1..] == path[index + 1..];
      assert path[..index + 1] == path[..index] + [step];
      CheckedStep(path, index);
      if container.Atom? {
        return heap', Stopped(TypeError);
      }
      var ref, holder := container.ref, heap'[container.ref];
      if Mismatch(holder, step) {
        return heap', Stopped(TypeError);
      }
      var child := Slot(holder, step);
      if child.None? {
        match StopAtMissing(holder, missing, NextStep(path[index..])) {
          case Some(Keeps) => return heap', RanOut;
          case Some(Raises(error)) => return heap', Stopped(error);
          case None =>
            FateThroughNewDict(heap', holder, path[index..], missing);
            NewDictKeepsClosed(heap');
            ChainAfterGrowth(heap', heap' + [Dict(map[])], result, path[..index], container);
            heap' := heap' + [Dict(map[])];
            child := Some(Ref(|heap'| - 1));
        }
      } else {
        ChildInHeap(heap', container, step);
      }
      ChainGoesOn(heap', result, path[..index], ref, step, child.value);
      result := result + [ref];
      container := child.value;
    }
    assert path[..|path|] == path;
    return heap', Containers(result);
  }

  lemma NewDictKeepsClosed<S>(heap: Heap<S>)
    requires Closed(heap)
    ensures Closed(heap + [Dict(map[])])
  {
    ClosedAfterAllocation(heap, Dict(map[]));
  }

  lemma ClosedAfterAllocation<S>(heap: Heap<S>, container: Container<S>)
    requires Closed(heap) && ClosedContainer(heap, container)
    ensures Closed(heap + [container])
  {
    var grown := heap + [container];
    forall r | 0 <= r < |grown| ensures ClosedContainer(grown, grown[r]) {
      if r < |heap| {
        assert ClosedContainer(heap, heap[r]);
        assert grown[r] == heap[r];
      }
    }
  }

  // ----- the policies: where the path first stops decides everything

  /** How far a path can be followed in an unchanged card. */
  datatype Stop<S> = Found | MissingIn(container: Container<S>, rest: seq<Step>) | Mismatched

  function Follow<S>(heap: Heap<S>, value: Value<S>, path: seq<Step>): Stop<S>
    decreases path
  {
    if path == [] then Found
    else if value.Atom? || value.ref >= |heap| || Mismatch(heap[value.ref], path[0]) then Mismatched
    else
      match Slot(heap[value.ref], path[0])
      case Some(child) => Follow(heap, child, path[1..])
      case None => MissingIn(heap[value.ref], path)
  }

  lemma {:induction false} FollowFindsExactlyWhatReads<S>(heap: Heap<S>, value: Value<S>, path: seq<Step>)
    ensures Follow(heap, value, path).Found? <==> Read(heap, value, path).Some?
    decreases path
  {
    if path != [] && Child(heap, value, path[0]).Some? {
      FollowFindsExactlyWhatReads(heap, Child(heap, value, path[0]).value, path[1..]);
    }
  }

  ghost predicate OnlyKeys(path: seq<Step>) {
    forall k :: 0 <= k < |path| ==> path[k].Key?
  }

  /** What each policy does with a path that stops there. */
  ghost function Decided<S>(stop: Stop<S>, missing: MissingPathPolicy): Fate {
    match stop
    case Found => Writes
    case Mismatched => Raises(TypeError)
    case MissingIn(container, rest) =>
      if missing.PASS? then Keeps
      else if container.List? then Raises(IndexError)
      else if missing.STRICT? then Raises(KeyError)
      else if OnlyKeys(rest) then Writes
      else Raises(IndexError)
  }

  lemma {:induction false} PolicyDecidesAtFirstStop<S>(heap: Heap<S>, value: Value<S>, path: seq<Step>,
                                                      missing: MissingPathPolicy)
    requires CheckSteps(path).None?
    ensures FateOf(heap, value, path, missing) == Decided(Follow(heap, value, path), missing)
    decreases path
  {
    if path != [] && value.Ref? && value.ref < |heap| && !Mismatch(heap[value.ref], path[0]) {
      match Slot(heap[value.ref], path[0])
      case Some(child) => PolicyDecidesAtFirstStop(heap, child, path[1..], missing);
      case None =>
        if missing.ADD? && heap[value.ref].Dict? {
          AddedBelowNewDict(heap, heap[value.ref], path);
        }
    }
  }

  /** Below a missing key, ADD creates one dict per key and fails at the first list index. */
  lemma {:induction false} AddedBelowNewDict<S>(heap: Heap<S>, container: Container<S>, path: seq<Step>)
    requires path != [] && CheckSteps(path).None? && container.Dict? && path[0].Key? && Slot(container, path[0]).None?
    ensures FateIn(heap, container, path, ADD) == if OnlyKeys(path) then Writes else Raises(IndexError)
    decreases path
  {
    if |path| > 1 {
      CheckedStep(path, 1);
      if path[1].Key? {
        AddedBelowNewDict(heap, Dict(map[]), path[1..]);
        assert OnlyKeys(path) <==> OnlyKeys(path[1..]) by {
          assert forall k :: 0 <= k < |path| - 1 ==> path[1..][k] == path[k + 1];
          assert forall k :: 0 < k < |path| ==> path[k] == path[1..][k - 1];
        }
      }
    }
  }

  /** STRICT writes exactly when has_field answers true; so does PASS, which otherwise raises only TypeError. */
  lemma StrictWritesExactlyWhenPresent<S>(heap: Heap<S>, value: Value<S>, path: seq<Step>)
    requires CheckSteps(path).None?
    ensures FateOf(heap, value, path, STRICT).Writes? <==> Read(heap, value, path).Some?
    ensures FateOf(heap, value, path, PASS).Writes? <==> Read(heap, value, path).Some?
    ensures FateOf(heap, value, path, PASS).Raises? ==> FateOf(heap, value, path, PASS).error == TypeError
  {
    FollowFindsExactlyWhatReads(heap, value, path);
    PolicyDecidesAtFirstStop(heap, value, path, STRICT);
    PolicyDecidesAtFirstStop(heap, value, path, PASS);
  }

  // ----- rebuilding the path bottom-up

  /** copy is a copy of the chain's first container, and so on down, with value at the end; every copy is at base
      or later. */
  ghost predicate IsEdit<S>(heap: Heap<S>, refs: seq<nat>, copy: Value<S>, path: seq<Step>, value: Value<S>, base: nat)
    requires |refs| == |path|
    decreases path
  {
    if path == [] then copy == value
    else
      && copy.Ref? && base <= copy.ref < |heap|
      && refs[0] < |heap| && Writable(heap[refs[0]], path[0])
      && Slot(heap[copy.ref], path[0]).Some?
      && var child := Slot(heap[copy.ref], path[0]).value;
         && heap[copy.ref] == WithSlot(heap[refs[0]], path[0], child)
         && IsEdit(heap, refs[1..], child, path[1..], value, base)
  }

  lemma {:induction false} EditAfterGrowth<S>(heap: Heap<S>, grown: Heap<S>, refs: seq<nat>, copy: Value<S>,
                                              path: seq<Step>, value: Value<S>, base: nat)
    requires |refs| == |path| && IsEdit(heap, refs, copy, path, value, base) && heap <= grown
    ensures IsEdit(grown, refs, copy, path, value, base)
    decreases path
  {
    if path != [] {
      EditAfterGrowth(heap, grown, refs[1..], Slot(heap[copy.ref], path[0]).value, path[1..], value, base);
    }
  }

  lemma CopyEdits<S>(heap: Heap<S>, refs: seq<nat>, child: Value<S>, path: seq<Step>, value: Value<S>, base: nat)
    requires path != [] && |refs| == |path| && base <= |heap|
    requires refs[0] < |heap| && Writable(heap[refs[0]], path[0])
    requires IsEdit(heap, refs[1..], child, path[1..], value, base)
    ensures IsEdit(heap + [WithSlot(heap[refs[0]], path[0], child)], refs, Ref(|heap|), path, value, base)
  {
    EditAfterGrowth(heap, heap + [WithSlot(heap[refs[0]], path[0], child)], refs[1..], child, path[1..], value, base);
  }

  lemma CopyIsClosed<S>(heap: Heap<S>, container: Container<S>, step: Step, child: Value<S>)
    requires ClosedContainer(heap, container) && Writable(container, step) && InHeap(heap, child)
    ensures ClosedContainer(heap, WithSlot(container, step, child))
  {
  }

  lemma {:induction false} ChainIsWritable<S>(heap: Heap<S>, refs: seq<nat>, path: seq<Step>, end: Value<S>, k: nat)
    requires IsChain(heap, refs, path, end) && k < |path|
    ensures refs[k] < |heap| && Writable(heap[refs[k]], path[k])
    decreases path
  {
    if k > 0 {
      ChainIsWritable(heap, refs[1..], path[1..], end, k - 1);
    }
  }

  // ----- what an edit changes

  /** q leaves path at some step. */
  ghost predicate Diverges(q: seq<Step>, path: seq<Step>) {
    q != [] && path != [] && (q[0] != path[0] || Diverges(q[1..], path[1..]))
  }

  /** Reading path gives value, reading any path off it gives the same object as before, and each container on it
      is new. */
  ghost predicate OverwritesOnly<S>(heap: Heap<S>, heap': Heap<S>, was: Value<S>, copy: Value<S>, path: seq<Step>,
                                    value: Value<S>)
  {
    && Read(heap', copy, path) == Some(value)
    && (forall q :: Diverges(q, path) ==> Read(heap', copy, q) == Read(heap, was, q))
    && (forall k :: 0 <= k < |path| ==> IsNewAt(heap, heap', copy, path[..k]))
  }

  ghost predicate IsNewAt<S>(heap: Heap<S>, heap': Heap<S>, copy: Value<S>, path: seq<Step>) {
    var there := Read(heap', copy, path);
    there.Some? && there.value.Ref? && |heap| <= there.value.ref < |heap'|
  }

  lemma {:induction false} EditReadsBack<S>(heap: Heap<S>, refs: seq<nat>, copy: Value<S>, path: seq<Step>,
                                            value: Value<S>, base: nat)
    requires |refs| == |path| && IsEdit(heap, refs, copy, path, value, base)
    ensures Read(heap, copy, path) == Some(value)
    decreases path
  {
    if path != [] {
      EditReadsBack(heap, refs[1..], Slot(heap[copy.ref], path[0]).value, path[1..], value, base);
    }
  }

  lemma {:induction false} EditIsNew<S>(before: Heap<S>, heap: Heap<S>, refs: seq<nat>, copy: Value<S>, path: seq<Step>,
                                        value: Value<S>, k: nat)
    requires |refs| == |path| && IsEdit(heap, refs, copy, path, value, |before|) && k < |path|
    ensures IsNewAt(before, heap, copy, path[..k])
    decreases path
  {
    if k > 0 {
      EditIsNew(before, heap, refs[1..], Slot(heap[copy.ref], path[0]).value, path[1..], value, k - 1);
      assert path[..k][1..] == path[1..][..k - 1];
    }
  }

  lemma OtherSlotUnchanged<S>(container: Container<S>, step: Step, value: Value<S>, other: Step)
    requires Writable(container, step) && other != step
    ensures Slot(WithSlot(container, step, value), other) == Slot(container, other)
  {
  }

  lemma {:induction false} EditKeepsTheRest<S>(heap: Heap<S>, refs: seq<nat>, copy: Value<S>, path: seq<Step>,
                                               value: Value<S>, base: nat, end: Value<S>, q: seq<Step>)
    requires IsChain(heap, refs, path, end) && IsEdit(heap, refs, copy, path, value, base) && Diverges(q, path)
    ensures Read(heap, copy, q) == Read(heap, Ref(refs[0]), q)
    decreases path
  {
    var child := Slot(heap[copy.ref], path[0]).value;
    if q[0] != path[0] {
      OtherSlotUnchanged(heap[refs[0]], path[0], child, q[0]);
    } else {
      EditKeepsTheRest(heap, refs[1..], child, path[1..], value, base, end, q[1..]);
    }
  }

  lemma EditOverwritesOnly<S>(before: Heap<S>, heap: Heap<S>, refs: seq<nat>, copy: Value<S>, path: seq<Step>,
                              value: Value<S>, end: Value<S>)
    requires Closed(before) && before <= heap && path != []
    requires IsChain(heap, refs, path, end) && IsEdit(heap, refs, copy, path, value, |before|) && refs[0] < |before|
    ensures OverwritesOnly(before, heap, Ref(refs[0]), copy, path, value)
  {
    EditReadsBack(heap, refs, copy, path, value, |before|);
    forall q | Diverges(q, path) ensures Read(heap, copy, q) == Read(before, Ref(refs[0]), q) {
      EditKeepsTheRest(heap, refs, copy, path, value, |before|, end, q);
      ReadAfterGrowth(before, heap, Ref(refs[0]), q);
    }
    forall k | 0 <= k < |path| ensures IsNewAt(before, heap, copy, path[..k]) {
      EditIsNew(before, heap, refs, copy, path, value, k);
    }
  }

  /** Copying the container at step k, with its slot set to the copy below, extends the edit by that step. */
  lemma CopyStep<S>(heap: Heap<S>, refs: seq<nat>, path: seq<Step>, child: Value<S>, value: Value<S>, end: Value<S>,
                    base: nat, k: nat)
    requires Closed(heap) && InHeap(heap, child) && base <= |heap| && k < |path| == |refs|
    requires IsChain(heap, refs, path, end) && IsEdit(heap, refs[k + 1..], child, path[k + 1..], value, base)
    ensures refs[k] < |heap| && Writable(heap[refs[k]], path[k])
    ensures var grown := heap + [WithSlot(heap[refs[k]], path[k], child)];
            && Closed(grown) && IsChain(grown, refs, path, end)
            && IsEdit(grown, refs[k..], Ref(|heap|), path[k..], value, base)
  {
    hide IsChain, Closed, IsEdit, Writable, ClosedContainer;
    ChainIsWritable(heap, refs, path, end, k);
    assert refs[k..][0] == refs[k] && refs[k..][1..] == refs[k + 1..];
    assert path[k..][0] == path[k] && path[k..][1..] == path[k + 1..];
    CopyEdits(heap, refs[k..], child, path[k..], value, base);
    var copied := WithSlot(heap[refs[k]], path[k], child);
    ContainerIsClosed(heap, refs[k]);
    CopyIsClosed(heap, heap[refs[k]], path[k], child);
    ClosedAfterAllocation(heap, copied);
    ChainAfterGrowth(heap, heap + [copied], refs, path, end);
  }

  method WithField<S, I>(heap: Heap<S>, card: GenericCard<I>, path: seq<Step>, value: Value<S>,
                         missing: MissingPathPolicy)
    returns (heap': Heap<S>, outcome: Outcome<I>)
    requires Closed(heap) && card.rawContent < |heap| && InHeap(heap, value)
    ensures heap <= heap' && Closed(heap')
    ensures CheckPath(path).Some? ==> outcome == Raised(CheckPath(path).value)
    ensures CheckPath(path).None? ==>
              match FateOf(heap, Ref(card.rawContent), path, missing)
              case Writes =>
                && outcome.Edited? && outcome.card.rawContent < |heap'|
                && outcome.card == card.(rawContent := outcome.card.rawContent)
                && OverwritesOnly(heap, heap', Ref(card.rawContent), Ref(outcome.card.rawContent), path, value)
              case Keeps => outcome == Kept(card)
              case Raises(error) => outcome == Raised(error)
  {
    hide IsChain, Closed, OverwritesOnly, IsEdit;
    if CheckPath(path).Some? {
      return heap, Raised(CheckPath(path).value);
    }
    var along;
    heap', along := ContainersAlong(heap, card.rawContent, path, missing);
    if along.RanOut? {
      return heap', Kept(card);
    }
    if along.Stopped? {
      return heap', Raised(along.error);
    }
    var refs := along.refs;
    ghost var end :| IsChain(heap', refs, path, end);
    ChainLength(heap', refs, path, end);
    var newChild := value;
    NothingEdited(heap', newChild, refs[|path|..], path[|path|..], |heap|);
    for k := |path| downto 0
      invariant heap <= heap' && Closed(heap') && InHeap(heap', newChild)
      invariant IsChain(heap', refs, path, end)
      invariant k < |path| ==> newChild.Ref?
      invariant IsEdit(heap', refs[k..], newChild, path[k..], value, |heap|)
    {
      CopyStep(heap', refs, path, newChild, value, end, |heap|, k);
      var copied := WithSlot(heap'[refs[k]], path[k], newChild);
      newChild := Ref(|heap'|);
      heap' := heap' + [copied];
    }
    assert refs[0..] == refs && path[0..] == path;
    EditOverwritesOnly(heap, heap', refs, newChild, path, value, end);
    return heap', Edited(card.(rawContent := newChild.ref));
  }

  lemma ChainLength<S>(heap: Heap<S>, refs: seq<nat>, path: seq<Step>, end: Value<S>)
    requires IsChain(heap, refs, path, end)
    ensures |refs| == |path|
  {
  }

  lemma NothingEdited<S>(heap: Heap<S>, value: Value<S>, refs: seq<nat>, path: seq<Step>, base: nat)
    requires |refs| == |path| == 0
    ensures IsEdit(heap, refs, value, path, value, base)
  {
  }

  lemma ContainerIsClosed<S>(heap: Heap<S>, ref: nat)
    requires Closed(heap) && ref < |heap|
    ensures ClosedContainer(heap, heap[ref])
  {
  }

  // ----- a second write at the same path wins

  ghost predicate IsStrictPrefix(q: seq<Step>, path: seq<Step>) {
    |q| < |path| && q == path[..|q|]
  }

  ghost predicate Extends(q: seq<Step>, path: seq<Step>) {
    |path| <= |q| && q[..|path|] == path
  }

  lemma {:induction false} PathsCompare(q: seq<Step>, path: seq<Step>)
    ensures IsStrictPrefix(q, path) || Extends(q, path) || Diverges(q, path)
    decreases path
  {
    if q != [] && path != [] && q[0] == path[0] {
      PathsCompare(q[1..], path[1..]);
      if IsStrictPrefix(q[1..], path[1..]) {
        assert q == [q[0]] + q[1..] == [path[0]] + path[1..][..|q| - 1] == path[..|q|];
      } else if Extends(q[1..], path[1..]) {
        assert q[..|path|] == [q[0]] + q[1..][..|path| - 1] == path;
      }
    }
  }

  /** Writing v1 and then v2 at path gives a card that reads like writing v2 alone: every path that is not
      above the edited slot reads the very same object, and the containers above it are copies either way. */
  lemma SecondWriteWins<S>(h0: Heap<S>, h1: Heap<S>, h2: Heap<S>, h3: Heap<S>, was: Value<S>, once: Value<S>,
                           twice: Value<S>, direct: Value<S>, path: seq<Step>, v1: Value<S>, v2: Value<S>, q: seq<Step>)
    requires Closed(h0) && Closed(h2) && h0 <= h1 <= h2 <= h3
    requires InHeap(h0, was) && InHeap(h2, twice)
    requires OverwritesOnly(h0, h1, was, once, path, v1) && OverwritesOnly(h1, h2, once, twice, path, v2)
    requires OverwritesOnly(h2, h3, was, direct, path, v2)
    ensures if IsStrictPrefix(q, path) then IsNewAt(h1, h3, twice, q) && IsNewAt(h1, h3, direct, q)
            else Read(h3, twice, q) == Read(h3, direct, q)
  {
    ReadAfterGrowth(h2, h3, twice, q);
    if IsStrictPrefix(q, path) {
      assert IsNewAt(h1, h2, twice, path[..|q|]);
      assert IsNewAt(h2, h3, direct, path[..|q|]);
    } else {
      PathsCompare(q, path);
      if Diverges(q, path) {
        ReadAfterGrowth(h0, h2, was, q);
      } else {
        assert q == path + q[|path|..];
        ReadAfterGrowth(h2, h3, twice, path);
        ReadFurther(h3, twice, path, q[|path|..]);
        ReadFurther(h3, direct, path, q[|path|..]);
      }
    }
  }
}
