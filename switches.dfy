/**
 * The `switch` statements that the patched compiler hooks run, as data. A case is keyed by the
 * `node.kind` (compiler) or `block.opcode` (script-tree builder) it matches, and its body either
 * binds inputs and appends a statement, returns a typed input, or returns a tree node. The
 * `default` branch, which comes last in every generated and hand-written switch, forwards the call
 * to the original hook.
 */
module Switches {
  import opened JsStrings

  /** The conversion a binding applies to its compiled input. */
  datatype Accessor = AsString | AsNumber | AsBoolean

  /** The type tag of a `TypedInput`. */
  datatype TypeTag = TypeString | TypeBoolean | TypeUnknown

  /** `const <ident> = this.descendInput(node?.<input>).<accessor>();` */
  datatype Binding = Binding(ident: string, input: string, accessor: Accessor)

  datatype Body =
    /** Bindings, then `this.source += ...; return;` when a statement is present, else nothing at all. */
    | Emit(bindings: seq<Binding>, statement: Option<string>)
    /** Bindings, then `return new TypedInput(`<code>`, <tag>);`. */
    | Typed(bindings: seq<Binding>, code: string, tag: TypeTag)
    /** `return { block, kind: '<kind>', <input>: this.descendInputOfBlock(block, '<input>'), ... };` */
    | TreeNode(kind: string, inputs: seq<string>)

  datatype Case = Case(key: string, body: Body)

  /** One observable action of a case body. */
  datatype Step = Bind(binding: Binding) | Append(statement: string)

  /** How control leaves the switch. */
  datatype Exit =
    | ReturnUndefined
    | ReturnTyped(code: string, tag: TypeTag)
    | ReturnNode(kind: string, inputs: seq<string>)
    | Forward  // `default: return fn(node, ...args)`

  datatype Run = Run(steps: seq<Step>, exit: Exit)

  /** Whether a body ends in a `return`; one that does not falls through to the next case. */
  predicate Returns(b: Body)
  {
    !(b.Emit? && b.statement.None?)
  }

  function Binds(bs: seq<Binding>): (r: seq<Step>)
    ensures |r| == |bs|
    ensures forall i :: 0 <= i < |bs| ==> r[i] == Bind(bs[i])
  {
    if bs == [] then [] else [Bind(bs[0])] + Binds(bs[1..])
  }

  /** What a returning body does. */
  function Effect(b: Body): Run
    requires Returns(b)
  {
    match b
    case Emit(bs, st) => Run(Binds(bs) + [Append(st.value)], ReturnUndefined)
    case Typed(bs, code, tag) => Run(Binds(bs), ReturnTyped(code, tag))
    case TreeNode(kind, inputs) => Run([], ReturnNode(kind, inputs))
  }

  /** The index of the first case labelled `key`: `switch` compares labels in order. */
  function FirstMatch(cases: seq<Case>, key: string): (r: Option<nat>)
    ensures r.Some? ==> r.value < |cases| && cases[r.value].key == key
    ensures forall j :: 0 <= j < |cases| && (r.None? || j < r.value) ==> cases[j].key != key
  {
    if cases == [] then None
    else if cases[0].key == key then Some(0)
    else
      match FirstMatch(cases[1..], key)
      case None => None
      case Some(i) => Some(i + 1)
  }

  /** Execution from case `i` on, falling through bodies without a `return` and finally into `default`. */
  function RunFrom(cases: seq<Case>, i: nat): Run
    requires i <= |cases|
    decreases |cases| - i
  {
    if i == |cases| then Run([], Forward)
    else
      var b := cases[i].body;
      if Returns(b) then Effect(b)
      else
        var rest := RunFrom(cases, i + 1);
        Run(Binds(b.bindings) + rest.steps, rest.exit)
  }

  /** `switch (key) { ...cases... default: return fn(node, ...args); }` */
  function Dispatch(cases: seq<Case>, key: string): (r: Run)
    ensures (forall j :: 0 <= j < |cases| ==> cases[j].key != key) ==> r == Run([], Forward)
    ensures forall i :: 0 <= i < |cases| && cases[i].key == key && Returns(cases[i].body) ==>
      (forall j :: 0 <= j < i ==> cases[j].key != key) ==>
      r == Effect(cases[i].body)
  {
    match FirstMatch(cases, key)
    case None => Run([], Forward)
    case Some(i) => RunFrom(cases, i)
  }

  /** A key that labels no case goes to `default`: the original hook, with no other effect. */
  lemma DispatchUnknown(cases: seq<Case>, key: string)
    requires forall j :: 0 <= j < |cases| ==> cases[j].key != key
    ensures Dispatch(cases, key) == Run([], Forward)
  {
  }

  /**
   * Falling through: from case `i`, the bindings of every body without a `return` run, then the first
   * returning body at or after `i` runs in full and decides how control leaves.
   */
  lemma {:induction false} RunReachesNextReturn(cases: seq<Case>, i: nat, j: nat)
    requires i <= j < |cases| && Returns(cases[j].body)
    requires forall k :: i <= k < j ==> !Returns(cases[k].body)
    ensures RunFrom(cases, i).exit == Effect(cases[j].body).exit
    ensures var s, e := RunFrom(cases, i).steps, Effect(cases[j].body).steps;
      |e| <= |s| && s[|s| - |e|..] == e
    decreases j - i
  {
    if i < j {
      RunReachesNextReturn(cases, i + 1, j);
    }
  }

  /** With no returning body left, execution ends in `default` and forwards to the original hook. */
  lemma {:induction false} RunFallsToDefault(cases: seq<Case>, i: nat)
    requires i <= |cases|
    requires forall k :: i <= k < |cases| ==> !Returns(cases[k].body)
    ensures RunFrom(cases, i).exit == Forward
    decreases |cases| - i
  {
    if i < |cases| {
      RunFallsToDefault(cases, i + 1);
    }
  }

  /**
   * In a switch whose cases all `return` and whose labels are distinct, a labelled key runs exactly its
   * own case and leaves through that case's `return`; any other key goes to `default`.
   */
  lemma DispatchReturning(cases: seq<Case>, key: string)
    requires forall i :: 0 <= i < |cases| ==> Returns(cases[i].body)
    requires forall i, j :: 0 <= i < j < |cases| ==> cases[i].key != cases[j].key
    ensures key !in Keys(cases) ==> Dispatch(cases, key) == Run([], Forward)
    ensures forall i :: 0 <= i < |cases| && cases[i].key == key ==>
      Dispatch(cases, key) == Effect(cases[i].body) && !Dispatch(cases, key).exit.Forward?
  {
    if key !in Keys(cases) {
      forall j | 0 <= j < |cases| ensures cases[j].key != key {
        assert Keys(cases)[j] == cases[j].key;
      }
    }
    forall i | 0 <= i < |cases| && cases[i].key == key
      ensures Dispatch(cases, key) == Effect(cases[i].body) && !Dispatch(cases, key).exit.Forward?
    {
      match cases[i].body
      case Emit(_, _) =>
      case Typed(_, _, _) =>
      case TreeNode(_, _) =>
    }
  }

  /** The labels of a switch, in order. */
  function Keys(cases: seq<Case>): (ks: seq<string>)
    ensures |ks| == |cases|
    ensures forall i :: 0 <= i < |cases| ==> ks[i] == cases[i].key
  {
    seq(|cases|, i requires 0 <= i < |cases| => cases[i].key)
  }

  /** The identifiers a switch declares with `const`, in order; they all share the switch's block scope. */
  function Declared(cases: seq<Case>): (ids: seq<string>)
  {
    if cases == [] then []
    else
      var n := |cases| - 1;
      var b := cases[n].body;
      Declared(cases[..n]) + (if b.TreeNode? then [] else Idents(b.bindings))
  }

  /** Declaring through one more case adds that case's identifiers. */
  lemma DeclaredStep(cases: seq<Case>, n: nat)
    requires n < |cases|
    ensures Declared(cases[..n + 1]) ==
      Declared(cases[..n]) + (if cases[n].body.TreeNode? then [] else Idents(cases[n].body.bindings))
  {
    assert cases[..n + 1][..n] == cases[..n];
  }

  function Idents(bs: seq<Binding>): (ids: seq<string>)
    ensures |ids| == |bs|
    ensures forall i :: 0 <= i < |bs| ==> ids[i] == bs[i].ident
  {
    seq(|bs|, i requires 0 <= i < |bs| => bs[i].ident)
  }

  predicate Distinct(s: seq<string>)
  {
    forall i, j :: 0 <= i < j < |s| ==> s[i] != s[j]
  }

  /**
   * A switch whose cases declare the same `const` twice is an early SyntaxError: the function holding
   * it, and so the whole script, never loads.
   */
  predicate Loads(cases: seq<Case>)
  {
    Distinct(Declared(cases))
  }
}
