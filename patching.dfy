/**
 * `cst_patch(obj, functions)`: the idempotent hook installer that both the generated module and
 * `mistiumComments.js` run on the compiler and script-tree builder prototypes. The target object is a
 * `HostObject` whose property map the installer rewrites in place; the sentinel table it creates under
 * `PATCHES_ID` is a separate object, so its contents are kept beside the property map.
 */
module Patching {
  import opened JsStrings
  import opened Config
  import opened Switches

  /** The values a hook property can hold. */
  datatype JsValue =
    | Undefined
    /** One of the host's own functions, whose behaviour is not shown. */
    | Native(id: string)
    /** A wrapper `cst_patch` installed: it runs `replacement` with a forwarder to `original`, or a no-op. */
    | Wrapper(replacement: seq<Case>, original: Option<JsValue>)
    /** The sentinel table object `obj[PATCHES_ID] = {}`. */
    | SentinelTable
    /** Any other value, of which only its truthiness matters here. */
    | Other(truthy: bool)

  /** JavaScript truthiness: functions and objects are truthy, `undefined` is not. */
  predicate IsTruthy(v: JsValue)
  {
    match v
    case Undefined => false
    case Other(t) => t
    case _ => true
  }

  /** The observable part of the patched object: its properties and the sentinel table's contents. */
  datatype HostState = HostState(fields: map<string, JsValue>, table: map<string, JsValue>)

  /** `obj[name]`: a missing property reads as `undefined`. */
  function Get(fields: map<string, JsValue>, name: string): JsValue
  {
    if name in fields then fields[name] else Undefined
  }

  /** The wrapper installed for a replacement: it forwards to the original only when that was truthy. */
  function WrapperFor(replacement: seq<Case>, original: JsValue): (w: JsValue)
    ensures w.Wrapper? && w.replacement == replacement
    ensures w.original.Some? <==> IsTruthy(original)
    ensures w.original.Some? ==> w.original.value == original
  {
    if IsTruthy(original) then Wrapper(replacement, Some(original)) else Wrapper(replacement, None)
  }

  /**
   * One iteration of the `for...in` loop: record the original in the sentinel table, then overwrite the
   * property. The table is reached through `obj[PATCHES_ID]`; once a hook named `PATCHES_ID` itself has
   * been wrapped, that property holds the wrapper function, and the write lands on the function object.
   */
  function Install(s: HostState, patchesId: string, name: string, replacement: seq<Case>): HostState
  {
    var original := Get(s.fields, name);
    var table := if Get(s.fields, patchesId) == SentinelTable then s.table[name := original] else s.table;
    HostState(s.fields[name := WrapperFor(replacement, original)], table)
  }

  function InstallAll(s: HostState, patchesId: string, functions: seq<(string, seq<Case>)>): HostState
  {
    if functions == [] then s
    else
      var n := |functions| - 1;
      Install(InstallAll(s, patchesId, functions[..n]), patchesId, functions[n].0, functions[n].1)
  }

  /** What `cst_patch(obj, functions)` leaves behind. */
  function Patch(s: HostState, patchesId: string, functions: seq<(string, seq<Case>)>): (r: HostState)
    ensures IsTruthy(Get(s.fields, patchesId)) ==> r == s
  {
    if IsTruthy(Get(s.fields, patchesId)) then s
    else InstallAll(HostState(s.fields[patchesId := SentinelTable], map[]), patchesId, functions)
  }

  /** The names of the hooks in `functions`, in their `for...in` order. */
  function Names(functions: seq<(string, seq<Case>)>): (names: seq<string>)
    ensures |names| == |functions|
    ensures forall i :: 0 <= i < |functions| ==> names[i] == functions[i].0
  {
    seq(|functions|, i requires 0 <= i < |functions| => functions[i].0)
  }

  /** An object literal's keys are distinct. */
  predicate DistinctNames(functions: seq<(string, seq<Case>)>)
  {
    forall i, j :: 0 <= i < j < |functions| ==> functions[i].0 != functions[j].0
  }

  class HostObject {
    var fields: map<string, JsValue>
    /** The contents of the sentinel table, once `cst_patch` has created it. */
    var table: map<string, JsValue>

    constructor(fields: map<string, JsValue>)
      ensures this.fields == fields && table == map[]
    {
      this.fields := fields;
      table := map[];
    }

    function State(): HostState
      reads this
    {
      HostState(fields, table)
    }

    function Read(name: string): (v: JsValue)
      reads this
      ensures name !in fields ==> v == Undefined
      ensures name in fields ==> v == fields[name]
    {
      Get(fields, name)
    }

    /** `cst_patch(obj, functions)`. */
    method CstPatch(patchesId: string, functions: seq<(string, seq<Case>)>)
      modifies this
      ensures State() == Patch(old(State()), patchesId, functions)
    {
      if IsTruthy(Read(patchesId)) {
        return;
      }
      fields := fields[patchesId := SentinelTable];
      table := map[];
      ghost var start := State();
      for i := 0 to |functions|
        invariant State() == InstallAll(start, patchesId, functions[..i])
      {
        assert functions[..i + 1][..i] == functions[..i];
        var (name, replacement) := functions[i];
        var original := Read(name);
        if Read(patchesId) == SentinelTable {
          table := table[name := original];
        }
        if IsTruthy(original) {
          fields := fields[name := Wrapper(replacement, Some(original))];
        } else {
          fields := fields[name := Wrapper(replacement, None)];
        }
      }
      assert functions[..|functions|] == functions;
    }
  }

  /** Installing keeps the sentinel property truthy: it holds the table, or the wrapper that replaced it. */
  lemma {:induction false} InstallAllKeepsSentinel(s: HostState, patchesId: string, functions: seq<(string, seq<Case>)>)
    requires IsTruthy(Get(s.fields, patchesId))
    ensures IsTruthy(Get(InstallAll(s, patchesId, functions).fields, patchesId))
  {
    if functions != [] {
      InstallAllKeepsSentinel(s, patchesId, functions[..|functions| - 1]);
    }
  }

  /**
   * `cst_patch` is idempotent: after one call the sentinel is truthy, so a second call, with these or
   * any other hooks, returns at once and changes nothing.
   */
  lemma PatchIdempotent(s: HostState, patchesId: string, functions: seq<(string, seq<Case>)>, again: seq<(string, seq<Case>)>)
    ensures IsTruthy(Get(Patch(s, patchesId, functions).fields, patchesId))
    ensures Patch(Patch(s, patchesId, functions), patchesId, again) == Patch(s, patchesId, functions)
  {
    if !IsTruthy(Get(s.fields, patchesId)) {
      InstallAllKeepsSentinel(HostState(s.fields[patchesId := SentinelTable], map[]), patchesId, functions);
    }
  }

  /** The last hook's name is none of the others'. */
  lemma LastNameFresh(functions: seq<(string, seq<Case>)>)
    requires functions != [] && DistinctNames(functions)
    ensures DistinctNames(functions[..|functions| - 1])
    ensures functions[|functions| - 1].0 !in Names(functions[..|functions| - 1])
  {
    var n := |functions| - 1;
    var front := functions[..n];
    forall k | 0 <= k < n ensures Names(front)[k] != functions[n].0 {
      assert front[k] == functions[k];
    }
  }

  lemma NamesPrefix(functions: seq<(string, seq<Case>)>, n: nat)
    requires n <= |functions|
    ensures Names(functions[..n]) == Names(functions)[..n]
  {
  }

  /** With distinct names, each listed hook ends up wrapping the value it had before the loop. */
  lemma {:induction false} InstallAllWraps(s: HostState, patchesId: string, functions: seq<(string, seq<Case>)>)
    requires DistinctNames(functions)
    ensures var r := InstallAll(s, patchesId, functions);
      forall k :: 0 <= k < |functions| ==>
        Get(r.fields, functions[k].0) == WrapperFor(functions[k].1, Get(s.fields, functions[k].0))
  {
    if functions != [] {
      var n := |functions| - 1;
      LastNameFresh(functions);
      InstallAllWraps(s, patchesId, functions[..n]);
      InstallAllFrame(s, patchesId, functions[..n]);
      forall k | 0 <= k < n ensures functions[..n][k] == functions[k] && functions[k].0 != functions[n].0 {
      }
    }
  }

  /** Properties the loop does not name keep their values. */
  lemma {:induction false} InstallAllFrame(s: HostState, patchesId: string, functions: seq<(string, seq<Case>)>)
    ensures var r := InstallAll(s, patchesId, functions);
      forall name :: name !in Names(functions) ==> Get(r.fields, name) == Get(s.fields, name)
  {
    if functions != [] {
      var n := |functions| - 1;
      InstallAllFrame(s, patchesId, functions[..n]);
      NamesPrefix(functions, n);
      assert Names(functions) == Names(functions[..n]) + [functions[n].0];
    }
  }

  /** The hook names in `functions`, as a set. */
  function NameSet(functions: seq<(string, seq<Case>)>): (names: set<string>)
    ensures forall k :: 0 <= k < |functions| ==> functions[k].0 in names
    ensures forall name :: name in names ==> name in Names(functions)
  {
    set k | 0 <= k < |functions| :: functions[k].0
  }

  /** One iteration, while the sentinel property holds the table and the hook is not that property. */
  lemma InstallRecords(s: HostState, patchesId: string, name: string, replacement: seq<Case>)
    requires Get(s.fields, patchesId) == SentinelTable && name != patchesId
    ensures var r := Install(s, patchesId, name, replacement);
      r.table == s.table[name := Get(s.fields, name)] && Get(r.fields, patchesId) == SentinelTable
  {
  }

  /** The facts about the last iteration that both table lemmas use. */
  lemma LastIteration(s: HostState, patchesId: string, functions: seq<(string, seq<Case>)>)
    requires functions != [] && DistinctNames(functions) && patchesId !in Names(functions)
    ensures var n := |functions| - 1;
      && DistinctNames(functions[..n]) && patchesId !in Names(functions[..n])
      && functions[n].0 != patchesId
      && NameSet(functions) == NameSet(functions[..n]) + {functions[n].0}
      && (forall k :: 0 <= k < n ==> functions[..n][k] == functions[k] && functions[k].0 != functions[n].0)
      && forall name :: name !in Names(functions) <==> name !in Names(functions[..n]) && name != functions[n].0
  {
    var n := |functions| - 1;
    var front := functions[..n];
    var name := functions[n].0;
    LastNameFresh(functions);
    NamesPrefix(functions, n);
    assert Names(functions) == Names(front) + [name];
    assert NameSet(functions) == NameSet(front) + {name} by {
      forall x | x in NameSet(functions) ensures x in NameSet(front) + {name} {
        var k :| 0 <= k < |functions| && functions[k].0 == x;
        if k < n {
          assert front[k].0 == x;
        }
      }
    }
  }

  /**
   * While the sentinel property holds the table, which it does unless a hook is named `PATCHES_ID`, the
   * loop adds exactly the hooks' names to the table.
   */
  lemma {:induction false} InstallAllTableKeys(s: HostState, patchesId: string, functions: seq<(string, seq<Case>)>)
    requires DistinctNames(functions)
    requires Get(s.fields, patchesId) == SentinelTable && patchesId !in Names(functions)
    ensures var r := InstallAll(s, patchesId, functions);
      && Get(r.fields, patchesId) == SentinelTable
      && r.table.Keys == s.table.Keys + NameSet(functions)
  {
    if functions != [] {
      var n := |functions| - 1;
      LastIteration(s, patchesId, functions);
      InstallAllTableKeys(s, patchesId, functions[..n]);
      InstallRecords(InstallAll(s, patchesId, functions[..n]), patchesId, functions[n].0, functions[n].1);
    }
  }

  /** ... and records under each name the hook's value from before the loop, leaving other entries alone. */
  lemma {:induction false} InstallAllTableValues(s: HostState, patchesId: string, functions: seq<(string, seq<Case>)>)
    requires DistinctNames(functions)
    requires Get(s.fields, patchesId) == SentinelTable && patchesId !in Names(functions)
    ensures var r := InstallAll(s, patchesId, functions);
      && (forall k :: 0 <= k < |functions| ==> functions[k].0 in r.table && r.table[functions[k].0] == Get(s.fields, functions[k].0))
      && (forall name :: name in s.table && name !in Names(functions) ==> name in r.table && r.table[name] == s.table[name])
  {
    if functions != [] {
      var n := |functions| - 1;
      LastIteration(s, patchesId, functions);
      InstallAllTableKeys(s, patchesId, functions);
      InstallAllTableKeys(s, patchesId, functions[..n]);
      InstallAllTableValues(s, patchesId, functions[..n]);
      InstallAllFrame(s, patchesId, functions[..n]);
      InstallRecords(InstallAll(s, patchesId, functions[..n]), patchesId, functions[n].0, functions[n].1);
    }
  }

  /**
   * The first `cst_patch` on an object: every listed hook now holds a wrapper around its value at the
   * start (the sentinel table, for a hook named `PATCHES_ID`), with a real forwarder exactly when that
   * value was truthy; the sentinel is set; nothing else changes; and, unless a hook is itself named
   * `PATCHES_ID`, the table records every hook's original value under its name and nothing more.
   */
  lemma FirstPatch(s: HostState, patchesId: string, functions: seq<(string, seq<Case>)>)
    requires !IsTruthy(Get(s.fields, patchesId)) && DistinctNames(functions)
    ensures var r, start := Patch(s, patchesId, functions), s.fields[patchesId := SentinelTable];
      && (forall k :: 0 <= k < |functions| ==>
            Get(r.fields, functions[k].0) == WrapperFor(functions[k].1, Get(start, functions[k].0)))
      && (patchesId !in Names(functions) ==> Get(r.fields, patchesId) == SentinelTable)
      && (forall name :: name !in Names(functions) && name != patchesId ==> Get(r.fields, name) == Get(s.fields, name))
      && (patchesId !in Names(functions) ==>
            && r.table.Keys == NameSet(functions)
            && forall k :: 0 <= k < |functions| ==> r.table[functions[k].0] == Get(s.fields, functions[k].0))
  {
    var start := HostState(s.fields[patchesId := SentinelTable], map[]);
    InstallAllWraps(start, patchesId, functions);
    InstallAllFrame(start, patchesId, functions);
    if patchesId !in Names(functions) {
      InstallAllTableKeys(start, patchesId, functions);
      InstallAllTableValues(start, patchesId, functions);
      forall k | 0 <= k < |functions| ensures Get(start.fields, functions[k].0) == Get(s.fields, functions[k].0) {
        assert Names(functions)[k] == functions[k].0;
      }
    }
  }

  /** What a call to a hook comes to. */
  datatype Answer =
    /** A replacement's switch matched and returned, after these steps. */
    | Handled(steps: seq<Step>, exit: Exit)
    /** The call reached the host's own hook `id`, after these steps. */
    | Delegated(steps: seq<Step>, id: string)
    /** The call reached the no-op forwarder, which returns `undefined`. */
    | Unhandled(steps: seq<Step>)

  function Prepend(steps: seq<Step>, a: Answer): Answer
  {
    match a
    case Handled(s, e) => Handled(steps + s, e)
    case Delegated(s, id) => Delegated(steps + s, id)
    case Unhandled(s) => Unhandled(steps + s)
  }

  /**
   * `obj[name](node, ...args)` with `node`'s key `key`. A wrapper runs its replacement's switch with the
   * forwarder in `fn`; `default` calls the forwarder, which is the original hook or `() => {}`. Calling
   * anything that is not a function throws.
   */
  function Call(v: JsValue, key: string): Outcome<Answer>
  {
    match v
    case Native(id) => Returns(Delegated([], id))
    case Wrapper(replacement, original) =>
      var run := Dispatch(replacement, key);
      if !run.exit.Forward? then Returns(Handled(run.steps, run.exit))
      else if original.None? then Returns(Unhandled(run.steps))
      else
        (match Call(original.value, key)
         case Throws(e) => Throws(e)
         case Returns(a) => Returns(Prepend(run.steps, a)))
    case _ => Throws(NotAFunction("call"))
  }

  /**
   * A wrapper whose switch has no case for the key hands the call, unchanged, to the original hook; with
   * no original it returns `undefined` and does nothing.
   */
  lemma UnknownKeyForwards(replacement: seq<Case>, original: JsValue, key: string)
    requires key !in Keys(replacement)
    ensures Call(WrapperFor(replacement, original), key) ==
      if IsTruthy(original) then
        (match Call(original, key)
         case Throws(e) => Throws(e)
         case Returns(a) => Returns(Prepend([], a)))
      else Returns(Unhandled([]))
  {
    forall j | 0 <= j < |replacement| ensures replacement[j].key != key {
      assert Keys(replacement)[j] == replacement[j].key;
    }
  }

  /** Forwarding adds nothing: a call handed on with no steps answers exactly as the original would. */
  lemma PrependNothing(a: Answer)
    ensures Prepend([], a) == a
  {
    match a
    case Handled(s, e) => assert [] + s == s;
    case Delegated(s, id) => assert [] + s == s;
    case Unhandled(s) => assert [] + s == s;
  }

  /** Wrapping a host function can never make the hook throw, whatever the key. */
  lemma {:induction false} WrappedHostNeverThrows(v: JsValue, key: string)
    requires v.Native? || (v.Wrapper? && (v.original.Some? ==> v.original.value.Native? || v.original.value.Wrapper?))
    requires v.Wrapper? && v.original.Some? && v.original.value.Wrapper? ==> WrapsHost(v.original.value)
    ensures Call(v, key).Returns?
  {
    if v.Wrapper? && v.original.Some? && v.original.value.Wrapper? {
      WrapsHostNeverThrows(v.original.value, key);
    }
  }

  /** A chain of wrappers that ends in a host function, or in no original at all. */
  predicate WrapsHost(v: JsValue)
  {
    match v
    case Native(_) => true
    case Wrapper(_, original) => original.None? || WrapsHost(original.value)
    case _ => false
  }

  lemma {:induction false} WrapsHostNeverThrows(v: JsValue, key: string)
    requires WrapsHost(v)
    ensures Call(v, key).Returns?
  {
    if v.Wrapper? && v.original.Some? {
      WrapsHostNeverThrows(v.original.value, key);
    }
  }

  /**
   * A replacement whose matching case returns answers with that case's effect; the original is not
   * called.
   */
  lemma KnownKeyHandled(replacement: seq<Case>, original: JsValue, key: string, i: nat)
    requires i < |replacement| && replacement[i].key == key && Switches.Returns(replacement[i].body)
    requires forall j :: 0 <= j < i ==> replacement[j].key != key
    ensures var e := Effect(replacement[i].body);
      Call(WrapperFor(replacement, original), key) == Returns(Handled(e.steps, e.exit))
  {
    var e := Effect(replacement[i].body);
    assert !e.exit.Forward? by {
      match replacement[i].body
      case Emit(_, _) =>
      case Typed(_, _, _) =>
      case TreeNode(_, _) =>
    }
  }

  /**
   * After the first `cst_patch`, a hook that was a host function and whose replacement switch always
   * returns, with distinct labels, answers a labelled key with that case alone, and hands any other key
   * to the host function unchanged.
   */
  lemma PatchedHostHook(s: HostState, patchesId: string, functions: seq<(string, seq<Case>)>, k: nat, original: string, key: string)
    requires !IsTruthy(Get(s.fields, patchesId)) && DistinctNames(functions)
    requires k < |functions| && functions[k].0 != patchesId && Get(s.fields, functions[k].0) == Native(original)
    requires forall i :: 0 <= i < |functions[k].1| ==> Switches.Returns(functions[k].1[i].body)
    requires forall i, j :: 0 <= i < j < |functions[k].1| ==> functions[k].1[i].key != functions[k].1[j].key
    ensures var hook := Get(Patch(s, patchesId, functions).fields, functions[k].0);
      && (key !in Keys(functions[k].1) ==> Call(hook, key) == Outcome.Returns(Delegated([], original)))
      && (forall i :: 0 <= i < |functions[k].1| && functions[k].1[i].key == key ==>
            var e := Effect(functions[k].1[i].body);
            Call(hook, key) == Outcome.Returns(Handled(e.steps, e.exit)))
  {
    FirstPatch(s, patchesId, functions);
    var hook := Get(Patch(s, patchesId, functions).fields, functions[k].0);
    assert hook == Wrapper(functions[k].1, Some(Native(original)));
    DispatchReturning(functions[k].1, key);
    if key !in Keys(functions[k].1) {
      PrependNothing(Delegated([], original));
    }
  }
}
