/**
 * The slice of the document the scroll handlers touch: elements in document
 * order, each with the class names the handlers select on (never added or
 * removed) kept apart from the class names they toggle.
 *
 * Every `classList.add`/`remove` the handlers perform is an `Op`: the selected
 * elements lose the `remove` classes, then gain the `add` classes. A handler's
 * effect on the class lists is the ops it performs, in order (`Run`).
 */
module Dom {

  /** Class names the handlers add or remove. */
  datatype Cls =
    | Highlight | Excess | Normal | Backlog   // stage-node states
    | Animate | Permanent | Removing | Reverse | Highlighted | Dimmed
    | OrderShow | StatusShow | Step4Hide | ShowStep4 | ShowStep3 | BacklogBackground

  /** Class names the handlers only select on. */
  datatype Kind =
    | StageNode | BeerIcon | ArrivingBeer | ArrowVisual | BeerDirection | OrderDirection
    | OrderBox | StatusIcon | OrderNumber | OrderQuestion | Step3Remove | Step3Show | InventoryGrid

  /** The four stage-node state classes. */
  const StateTags: set<Cls> := {Highlight, Excess, Normal, Backlog}

  /** An element: its id ("" if none), the ids of its ancestors, its selector classes. */
  datatype Node = Node(id: string, ancestors: set<string>, kinds: set<Kind>)

  datatype Selector =
    | AnyOf(kind: Kind)                                      // `.kind`
    | Within(scope: string, kind: Kind)                      // `#scope .kind`
    | WithinLacking(scope: string, kind: Kind, lacking: Kind) // `#scope .kind` without class `lacking`
    | WithId(id: string)                                     // `#id`

  predicate Matches(n: Node, s: Selector)
  {
    match s
    case AnyOf(k) => k in n.kinds
    case Within(scope, k) => scope in n.ancestors && k in n.kinds
    case WithinLacking(scope, k, l) => scope in n.ancestors && k in n.kinds && l !in n.kinds
    case WithId(id) => id != "" && n.id == id
  }

  /** `querySelector` / `getElementById`: the index of the first match, or -1. */
  function FirstMatch(nodes: seq<Node>, s: Selector): (r: int)
    ensures -1 <= r < |nodes|
    ensures r >= 0 ==> Matches(nodes[r], s)
    ensures forall j {:trigger Matches(nodes[j], s)} :: 0 <= j < |nodes| && (r < 0 || j < r) ==> !Matches(nodes[j], s)
  {
    FirstMatchFrom(nodes, s, 0)
  }

  /** The first match at or after index `from`, or -1. */
  function FirstMatchFrom(nodes: seq<Node>, s: Selector, from: nat): (r: int)
    requires from <= |nodes|
    ensures r == -1 || from <= r < |nodes|
    ensures r >= 0 ==> Matches(nodes[r], s)
    ensures forall j {:trigger Matches(nodes[j], s)} :: from <= j < |nodes| && (r < 0 || j < r) ==> !Matches(nodes[j], s)
    decreases |nodes| - from
  {
    if from == |nodes| then -1
    else if Matches(nodes[from], s) then from
    else FirstMatchFrom(nodes, s, from + 1)
  }

  /** A class-list update. `first` selects only the first match (`querySelector`,
      `getElementById`); otherwise every match (`querySelectorAll(...).forEach`). */
  datatype Op = Op(sel: Selector, first: bool, remove: set<Cls>, add: set<Cls>)

  predicate Targets(nodes: seq<Node>, op: Op, i: int)
    requires 0 <= i < |nodes|
  {
    if op.first then i == FirstMatch(nodes, op.sel) else Matches(nodes[i], op.sel)
  }

  function Restyle(cs: set<Cls>, op: Op): set<Cls>
  {
    cs - op.remove + op.add
  }

  /** The class lists after one op. */
  function Apply(nodes: seq<Node>, classes: seq<set<Cls>>, op: Op): (r: seq<set<Cls>>)
    requires |classes| == |nodes|
    ensures |r| == |classes|
    ensures forall i :: 0 <= i < |r| ==>
              r[i] == if Targets(nodes, op, i) then Restyle(classes[i], op) else classes[i]
  {
    seq(|classes|, i requires 0 <= i < |classes| =>
      if Targets(nodes, op, i) then Restyle(classes[i], op) else classes[i])
  }

  /** The class lists after a sequence of ops, performed in order. */
  function Run(nodes: seq<Node>, classes: seq<set<Cls>>, ops: seq<Op>): (r: seq<set<Cls>>)
    requires |classes| == |nodes|
    ensures |r| == |classes|
    decreases |ops|
  {
    if ops == [] then classes
    else Apply(nodes, Run(nodes, classes, ops[..|ops| - 1]), ops[|ops| - 1])
  }

  /** Running `a` then `b` is running `a + b`. */
  lemma {:induction false} RunAppend(nodes: seq<Node>, classes: seq<set<Cls>>, a: seq<Op>, b: seq<Op>)
    requires |classes| == |nodes|
    ensures Run(nodes, classes, a + b) == Run(nodes, Run(nodes, classes, a), b)
    decreases |b|
  {
    if b == [] {
      assert a + b == a;
    } else {
      assert (a + b)[..|a + b| - 1] == a + b[..|b| - 1];
      RunAppend(nodes, classes, a, b[..|b| - 1]);
    }
  }

  /** One op run on its own. */
  lemma RunSingle(nodes: seq<Node>, classes: seq<set<Cls>>, op: Op)
    requires |classes| == |nodes|
    ensures Run(nodes, classes, [op]) == Apply(nodes, classes, op)
  {
    assert [op][..0] == [];
  }

  /** `done` followed by one more op. */
  lemma RunSnoc(nodes: seq<Node>, classes: seq<set<Cls>>, done: seq<Op>, op: Op)
    requires |classes| == |nodes|
    ensures Run(nodes, classes, done + [op]) == Apply(nodes, Run(nodes, classes, done), op)
  {
    assert (done + [op])[..|done + [op]| - 1] == done;
  }

  /** What the ops did to one class of one element. */
  datatype Write = Untouched | Added | Removed

  /** What one op does to class `c` of element `i`. */
  function WriteOf(nodes: seq<Node>, op: Op, i: int, c: Cls): Write
    requires 0 <= i < |nodes|
  {
    if Targets(nodes, op, i) && c in op.add then Added
    else if Targets(nodes, op, i) && c in op.remove then Removed
    else Untouched
  }

  /** A write followed by another: the later one, if it wrote at all. */
  function Then(earlier: Write, later: Write): Write
  {
    if later != Untouched then later else earlier
  }

  /** Whether the class is there after a write, given whether it was before. */
  predicate Holds(w: Write, had: bool)
  {
    match w
    case Added => true
    case Removed => false
    case Untouched => had
  }

  /** What the last op of `ops` that writes class `c` of element `i` did to it. */
  function LastWrite(nodes: seq<Node>, ops: seq<Op>, i: int, c: Cls): Write
    requires 0 <= i < |nodes|
    decreases |ops|
  {
    if ops == [] then Untouched
    else Then(LastWrite(nodes, ops[..|ops| - 1], i, c), WriteOf(nodes, ops[|ops| - 1], i, c))
  }

  lemma LastWriteSingle(nodes: seq<Node>, op: Op, i: int, c: Cls)
    requires 0 <= i < |nodes|
    ensures LastWrite(nodes, [op], i, c) == WriteOf(nodes, op, i, c)
  {
    assert [op][..0] == [];
  }

  lemma LastWritePair(nodes: seq<Node>, a: Op, b: Op, i: int, c: Cls)
    requires 0 <= i < |nodes|
    ensures LastWrite(nodes, [a] + [b], i, c) == Then(WriteOf(nodes, a, i, c), WriteOf(nodes, b, i, c))
  {
    assert ([a] + [b])[..1] == [a];
    LastWriteSingle(nodes, a, i, c);
  }

  /** Last writer wins: after a run an element carries a class exactly when the
      last op that wrote it added it, or no op wrote it and it was there before. */
  lemma {:induction false} RunLastWrite(nodes: seq<Node>, classes: seq<set<Cls>>, ops: seq<Op>, i: int, c: Cls)
    requires |classes| == |nodes| && 0 <= i < |nodes|
    ensures c in Run(nodes, classes, ops)[i] <==> Holds(LastWrite(nodes, ops, i, c), c in classes[i])
    decreases |ops|
  {
    if ops != [] {
      RunLastWrite(nodes, classes, ops[..|ops| - 1], i, c);
    }
  }

  /** Performing the same ops twice leaves the class lists as performing them once. */
  lemma {:induction false} RunIdempotent(nodes: seq<Node>, classes: seq<set<Cls>>, ops: seq<Op>)
    requires |classes| == |nodes|
    ensures Run(nodes, Run(nodes, classes, ops), ops) == Run(nodes, classes, ops)
  {
    var once := Run(nodes, classes, ops);
    var twice := Run(nodes, once, ops);
    forall i | 0 <= i < |nodes|
      ensures twice[i] == once[i]
    {
      forall c: Cls
        ensures c in twice[i] <==> c in once[i]
      {
        RunLastWrite(nodes, classes, ops, i, c);
        RunLastWrite(nodes, once, ops, i, c);
      }
    }
  }

  /** The last write over a concatenation: the second part's, if it wrote at all. */
  lemma {:induction false} LastWriteAppend(nodes: seq<Node>, a: seq<Op>, b: seq<Op>, i: int, c: Cls)
    requires 0 <= i < |nodes|
    ensures LastWrite(nodes, a + b, i, c) == Then(LastWrite(nodes, a, i, c), LastWrite(nodes, b, i, c))
    decreases |b|
  {
    if b == [] {
      assert a + b == a;
    } else {
      assert (a + b)[..|a + b| - 1] == a + b[..|b| - 1];
      LastWriteAppend(nodes, a, b[..|b| - 1], i, c);
    }
  }

  /** Ops that only add write a class exactly when one of them targets the
      element and adds it. */
  lemma {:induction false} LastWriteOfAdditions(nodes: seq<Node>, ops: seq<Op>, i: int, c: Cls)
    requires 0 <= i < |nodes|
    requires forall k :: 0 <= k < |ops| ==> ops[k].remove == {}
    ensures LastWrite(nodes, ops, i, c) ==
              if exists k :: 0 <= k < |ops| && Targets(nodes, ops[k], i) && c in ops[k].add then Added else Untouched
    decreases |ops|
  {
    if ops != [] {
      var init := ops[..|ops| - 1];
      LastWriteOfAdditions(nodes, init, i, c);
      if exists k :: 0 <= k < |init| && Targets(nodes, init[k], i) && c in init[k].add {
        var k :| 0 <= k < |init| && Targets(nodes, init[k], i) && c in init[k].add;
        assert ops[k] == init[k];
      }
    }
  }

  /** A class list in the page, updated in place. */
  class Document {
    const nodes: seq<Node>
    var classes: seq<set<Cls>>

    ghost predicate Valid()
      reads this
    {
      |classes| == |nodes|
    }

    constructor (nodes: seq<Node>, classes: seq<set<Cls>>)
      requires |classes| == |nodes|
      ensures Valid() && this.nodes == nodes && this.classes == classes
    {
      this.nodes := nodes;
      this.classes := classes;
    }

    /** `querySelector(sel)` / `getElementById(id)`: a scan in document order. */
    method Find(sel: Selector) returns (r: int)
      ensures r == FirstMatch(nodes, sel)
    {
      r := 0;
      while r < |nodes| && !Matches(nodes[r], sel)
        invariant 0 <= r <= |nodes|
        invariant forall j :: 0 <= j < r ==> !Matches(nodes[j], sel)
      {
        r := r + 1;
      }
      if r == |nodes| {
        r := -1;
      }
      FirstMatchUnique(nodes, sel, r);
    }

    /** Performs one op: on the first match, or on every match in document order. */
    method Perform(op: Op)
      requires Valid()
      modifies this`classes
      ensures Valid()
      ensures classes == Apply(nodes, old(classes), op)
      ensures classes == Run(nodes, old(classes), [op])
    {
      RunSingle(nodes, classes, op);
      if op.first {
        var k := Find(op.sel);
        if k >= 0 {
          classes := classes[k := Restyle(classes[k], op)];
        }
      } else {
        var i := 0;
        while i < |classes|
          invariant 0 <= i <= |classes| == |nodes|
          invariant forall j :: 0 <= j < i ==>
                      classes[j] == if Matches(nodes[j], op.sel) then Restyle(old(classes)[j], op) else old(classes)[j]
          invariant forall j :: i <= j < |classes| ==> classes[j] == old(classes)[j]
        {
          if Matches(nodes[i], op.sel) {
            classes := classes[i := Restyle(classes[i], op)];
          }
          i := i + 1;
        }
      }
    }

    /** Performs a fixed list of ops in order. */
    method PerformAll(ops: seq<Op>)
      requires Valid()
      modifies this`classes
      ensures Valid()
      ensures classes == Run(nodes, old(classes), ops)
    {
      var k := 0;
      while k < |ops|
        invariant 0 <= k <= |ops|
        invariant Valid() && classes == Run(nodes, old(classes), ops[..k])
      {
        assert ops[..k + 1] == ops[..k] + [ops[k]];
        RunSnoc(nodes, old(classes), ops[..k], ops[k]);
        Perform(ops[k]);
        k := k + 1;
      }
      assert ops[..k] == ops;
    }

    /** Performs two ops in order. */
    method PerformBoth(a: Op, b: Op)
      requires Valid()
      modifies this`classes
      ensures Valid()
      ensures classes == Run(nodes, old(classes), [a] + [b])
    {
      Perform(a);
      Perform(b);
      RunAppend(nodes, old(classes), [a], [b]);
    }
  }

  /** The first-match conditions determine the index. */
  lemma FirstMatchUnique(nodes: seq<Node>, sel: Selector, r: int)
    requires -1 <= r < |nodes|
    requires r >= 0 ==> Matches(nodes[r], sel)
    requires forall j :: 0 <= j < |nodes| && (r < 0 || j < r) ==> !Matches(nodes[j], sel)
    ensures r == FirstMatch(nodes, sel)
  {
  }
}
