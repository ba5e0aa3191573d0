/**
 * `generateGetInfo` and `generateExtension`: the descriptor, and the extension module the template
 * splices together. The template's fixed text is not modelled; what is kept is every place the
 * configuration reaches it: the header comment, the class name, the unsandboxed error message, the
 * descriptor, the `PATCHES_ID` sentinel name and the four fragments.
 */
module Assembly {
  import opened JsStrings
  import opened Config
  import opened BlockProcessor
  import opened Switches
  import opened Fragments

  /** The object `getInfo()` returns, before `JSON.stringify` renders its `blocks`. */
  datatype Info = Info(id: string, name: string, color1: string, blocks: seq<Item>)

  /** The places where `generateExtension`'s template shows the configuration. */
  datatype ExtensionModule = ExtensionModule(
    header: string,             // `${extension.comment}` on the first line
    unsandboxedError: string,   // the message thrown when the extension runs sandboxed
    className: string,          // `class ${extension.id}`, registered as `new ${extension.id}()`
    info: Info,
    patchesId: string,          // `const PATCHES_ID = '${extension.id}_patches'`
    compilerStacked: string,    // spliced into the compiler's `descendStackedBlock` switch
    compilerInput: string,      // ... its `descendInput` switch
    treeStacked: string,        // ... the script-tree builder's `descendStackedBlock` switch
    treeInput: string)          // ... its `descendInput` switch

  /** The descriptor `generateGetInfo` builds when the id supply yields `ids`. */
  function GetInfo(ext: Extension, items: seq<Item>, ids: seq<string>): Info
    requires |ids| == IdsNeededAll(items)
  {
    Info(ext.id, ext.name, ext.color1, ProcessAll(items, ids))
  }

  /** `generateGetInfo`: `blocks.map(block => this.processBlock(block))`, drawing ids block by block. */
  method GenerateGetInfo(ext: Extension, items: seq<Item>, ids: seq<string>) returns (info: Info)
    requires |ids| == IdsNeededAll(items)
    ensures info == GetInfo(ext, items, ids)
  {
    var processed: seq<Item> := [];
    var used := 0;
    for i := 0 to |items|
      invariant used == IdsNeededAll(items[..i]) <= |ids|
      invariant processed == ProcessAll(items[..i], ids[..used])
    {
      IdsNeededPrefix(items, i);
      var next := used + IdsNeeded(items[i]);
      assert items[..i + 1][..i] == items[..i];
      assert IdsNeededAll(items[..i + 1]) == next;
      assert ids[..next][..used] == ids[..used] && ids[..next][used..] == ids[used..next];
      var entry := ProcessBlock(items[i], ids[used..next]);
      processed := processed + [entry];
      used := next;
    }
    assert items[..|items|] == items && ids[..used] == ids;
    return Info(ext.id, ext.name, ext.color1, processed);
  }

  /**
   * The descriptor carries the extension's id, name and colour, and one entry per configured block, in
   * order: entry `i` is block `i` processed with the ids drawn for it.
   */
  lemma GetInfoEntries(ext: Extension, items: seq<Item>, ids: seq<string>)
    requires |ids| == IdsNeededAll(items)
    ensures var info := GetInfo(ext, items, ids);
      && info.id == ext.id && info.name == ext.name && info.color1 == ext.color1
      && |info.blocks| == |items|
      && forall i :: 0 <= i < |items| ==> info.blocks[i] == ProcessedItem(items[i], IdsFor(items, ids, i))
  {
    forall i | 0 <= i < |items|
      ensures ProcessAll(items, ids)[i] == ProcessedItem(items[i], IdsFor(items, ids, i))
    {
      ProcessAllAt(items, ids, i);
    }
  }

  /** The script-tree passes read no field that can be missing: they never throw. */
  lemma {:induction false} TreePassesComplete(pass: Pass, extId: string, items: seq<Item>)
    requires pass == TreeStacked || pass == TreeInput
    ensures Fragment(pass, extId, items).Returns?
  {
    CasesOfOperations(pass, extId, items);
  }

  /** A block the compiler passes can read: it has a `blockType`, and every argument has a `type`. */
  predicate Complete(b: Block)
  {
    b.blockType.Some? && forall k :: 0 <= k < |ArgsOf(b)| ==> ArgsOf(b)[k].argType.Some?
  }

  /** The compiler passes complete exactly when every object block is complete. */
  lemma {:induction false} CompilerPassesComplete(extId: string, items: seq<Item>)
    ensures Fragment(Statement, extId, items).Returns? <==>
      forall i :: 0 <= i < |Operations(items)| ==> Complete(Operations(items)[i])
    ensures Fragment(Statement, extId, items).Returns? ==> Fragment(Expression, extId, items).Returns?
  {
    var ops := Operations(items);
    CasesOfOperations(Statement, extId, items);
    CasesOfOperations(Expression, extId, items);
    forall i | 0 <= i < |ops|
      ensures CaseOf(Statement, extId, ops[i]).Returns? <==> Complete(ops[i])
      ensures CaseOf(Statement, extId, ops[i]).Returns? ==> CaseOf(Expression, extId, ops[i]).Returns?
    {
      StatementCaseShape(extId, ops[i]);
      ExpressionCaseShape(extId, ops[i]);
    }
  }

  /**
   * The template around the fragments. The passes run in the order the source calls them, so the
   * compiler's stacked-block pass reports the first error; the tree passes cannot throw.
   */
  function Assemble(ext: Extension, info: Info, passItems: seq<Item>): (r: Outcome<ExtensionModule>)
    ensures r.Throws? <==> Fragment(Statement, ext.id, passItems).Throws?
    ensures r.Throws? ==> r.error == Fragment(Statement, ext.id, passItems).error
    ensures r.Returns? ==>
      && r.value.patchesId == ext.id + "_patches"
      && r.value.className == ext.id
      && r.value.header == Interpolate(ext.comment)
      && r.value.info == info
      && Returns(r.value.compilerStacked) == Fragment(Statement, ext.id, passItems)
      && Returns(r.value.compilerInput) == Fragment(Expression, ext.id, passItems)
      && Returns(r.value.treeStacked) == Fragment(TreeStacked, ext.id, passItems)
      && Returns(r.value.treeInput) == Fragment(TreeInput, ext.id, passItems)
  {
    CompilerPassesComplete(ext.id, passItems);
    TreePassesComplete(TreeStacked, ext.id, passItems);
    TreePassesComplete(TreeInput, ext.id, passItems);
    match Fragment(Statement, ext.id, passItems)
    case Throws(e) => Throws(e)
    case Returns(compilerStacked) =>
      Returns(ExtensionModule(
        Interpolate(ext.comment),
        ext.id + " needs to be run unsandboxed.",
        ext.id,
        info,
        ext.id + "_patches",
        compilerStacked,
        Fragment(Expression, ext.id, passItems).value,
        Fragment(TreeStacked, ext.id, passItems).value,
        Fragment(TreeInput, ext.id, passItems).value))
  }

  /** `generateExtension` as written: the descriptor gets processed blocks, the four passes the raw ones. */
  function ExtensionOf(ext: Extension, items: seq<Item>, ids: seq<string>): Outcome<ExtensionModule>
    requires |ids| == IdsNeededAll(items)
  {
    Assemble(ext, GetInfo(ext, items, ids), items)
  }

  /** `generateExtension`. */
  method GenerateExtension(ext: Extension, items: seq<Item>, ids: seq<string>) returns (r: Outcome<ExtensionModule>)
    requires |ids| == IdsNeededAll(items)
    ensures r == ExtensionOf(ext, items, ids)
  {
    var getInfoMethod := GenerateGetInfo(ext, items, ids);
    var jsgpCode := GenerateJSGPCode(ext, items);
    if jsgpCode.Throws? {
      return Throws(jsgpCode.error);
    }
    CompilerPassesComplete(ext.id, items);
    var inputHandlerCode := GenerateInputHandlerCode(ext, items);
    var stgpCode := GenerateSTGPCode(ext, items);
    var stgpInputCode := GenerateSTGPInputHandlerCode(ext, items);
    return Returns(ExtensionModule(
      Interpolate(ext.comment),
      ext.id + " needs to be run unsandboxed.",
      ext.id,
      getInfoMethod,
      ext.id + "_patches",
      jsgpCode.value,
      inputHandlerCode.value,
      stgpCode,
      stgpInputCode));
  }

  /** The identifiers the compiler passes bind for these blocks: each argument's `gen_id`, in order. */
  function ArgIdents(args: seq<Arg>): (ids: seq<string>)
    ensures |ids| == |args|
    ensures forall k :: 0 <= k < |args| ==> ids[k] == Interpolate(args[k].genId)
  {
    seq(|args|, k requires 0 <= k < |args| => Interpolate(args[k].genId))
  }

  function DeclaredIds(ops: seq<Block>): seq<string>
  {
    if ops == [] then [] else DeclaredIds(ops[..|ops| - 1]) + ArgIdents(ArgsOf(ops[|ops| - 1]))
  }

  /** A compiler case binds one `const` per argument of its block, named by the argument's `gen_id`. */
  lemma CaseDeclares(pass: Pass, extId: string, b: Block)
    requires pass == Statement || pass == Expression
    requires CaseOf(pass, extId, b).Returns?
    ensures !CaseOf(pass, extId, b).value.body.TreeNode?
    ensures Idents(CaseOf(pass, extId, b).value.body.bindings) == ArgIdents(ArgsOf(b))
  {
    assert BindingsOf(ArgsOf(b)).Returns?;
    var bs := BindingsOf(ArgsOf(b)).value;
    assert CaseOf(pass, extId, b).value.body.bindings == bs;
    forall k | 0 <= k < |bs|
      ensures bs[k].ident == Interpolate(ArgsOf(b)[k].genId)
    {
      assert Returns(bs[k]) == BindingOf(ArgsOf(b)[k]);
    }
  }

  /** The `const`s a compiler switch declares are the `gen_id`s of its blocks' arguments, in order. */
  lemma {:induction false} CompilerSwitchDeclares(pass: Pass, extId: string, items: seq<Item>)
    requires pass == Statement || pass == Expression
    requires CasesOf(pass, extId, items).Returns?
    ensures Declared(CasesOf(pass, extId, items).value) == DeclaredIds(Operations(items))
  {
    if items != [] {
      var n := |items| - 1;
      var before := CasesOf(pass, extId, items[..n]);
      assert before.Returns?;
      CompilerSwitchDeclares(pass, extId, items[..n]);
      var front := Operations(items[..n]);
      if items[n].Obj? {
        var b := items[n].block;
        var c := CaseOf(pass, extId, b).value;
        CaseDeclares(pass, extId, b);
        var cs := before.value + [c];
        assert CasesOf(pass, extId, items).value == cs;
        assert cs[..|cs| - 1] == before.value;
        assert Declared(cs) == Declared(before.value) + ArgIdents(ArgsOf(b));
        assert Operations(items) == front + [b];
        assert (front + [b])[..|front|] == front;
      } else {
        assert Operations(items) == front;
      }
    } else {
      assert Operations(items) == [];
    }
  }

  /** No argument of these blocks carries a `gen_id`: the shape of a configuration before processing. */
  predicate NoGenIds(ops: seq<Block>)
  {
    forall i, k :: 0 <= i < |ops| && 0 <= k < |ArgsOf(ops[i])| ==> ArgsOf(ops[i])[k].genId.None?
  }

  lemma {:induction false} RawIdentsUndefined(ops: seq<Block>)
    requires NoGenIds(ops)
    ensures forall k :: 0 <= k < |DeclaredIds(ops)| ==> DeclaredIds(ops)[k] == "undefined"
  {
    if ops != [] {
      var n := |ops| - 1;
      assert NoGenIds(ops[..n]) by {
        forall i, k | 0 <= i < n && 0 <= k < |ArgsOf(ops[..n][i])|
          ensures ArgsOf(ops[..n][i])[k].genId.None?
        {
          assert ops[..n][i] == ops[i];
        }
      }
      RawIdentsUndefined(ops[..n]);
    }
  }

  /**
   * As written, the compiler passes see raw blocks, whose arguments have no `gen_id`: every binding
   * reads `const undefined = ...`. With two arguments anywhere in the configuration, the stacked-block
   * switch declares `undefined` twice, an early SyntaxError that keeps the whole module from loading.
   */
  lemma AsWrittenRedeclares(ext: Extension, items: seq<Item>, ids: seq<string>)
    requires |ids| == IdsNeededAll(items)
    requires forall i :: 0 <= i < |Operations(items)| ==> Complete(Operations(items)[i])
    requires NoGenIds(Operations(items)) && |DeclaredIds(Operations(items))| >= 2
    ensures ExtensionOf(ext, items, ids).Returns?
    ensures !Loads(CasesOf(Statement, ext.id, items).value)
  {
    CompilerPassesComplete(ext.id, items);
    CompilerSwitchDeclares(Statement, ext.id, items);
    RawIdentsUndefined(Operations(items));
    var declared := Declared(CasesOf(Statement, ext.id, items).value);
    assert declared[0] == declared[1] == "undefined";
  }

  /** A configuration block whose one statement argument shows the defect. */
  const SayHi: Block := Block(
    Some("sayHi"), Some("COMMAND"), Some("say [greeting] to [name]"), Some("alert('[greeting], [name]')"),
    None, false, Some([Arg("greeting", Some("STRING"), None), Arg("name", Some("STRING"), None)]), None)

  /** The module generated for a one-block configuration never loads. */
  lemma SayHiRedeclares(ids: seq<string>)
    requires |ids| == 2
    ensures ExtensionOf(Extension("demo", "Demo", "#4c97ff", None), [Obj(SayHi)], ids).Returns?
    ensures !Loads(CasesOf(Statement, "demo", [Obj(SayHi)]).value)
  {
    var items := [Obj(SayHi)];
    assert items[..0] == [];
    assert Operations(items) == [SayHi];
    assert [SayHi][..0] == [];
    assert |DeclaredIds([SayHi])| == 2;
    AsWrittenRedeclares(Extension("demo", "Demo", "#4c97ff", None), items, ids);
  }

  /** The blocks the four passes should see: each object block processed, bare strings left to be skipped. */
  function ProcessForPasses(items: seq<Item>, ids: seq<string>): (r: seq<Item>)
    requires |ids| == IdsNeededAll(items)
    ensures |r| == |items|
  {
    if items == [] then []
    else
      var n := |items| - 1;
      var m := IdsNeededAll(items[..n]);
      ProcessForPasses(items[..n], ids[..m]) + [if items[n].Str? then items[n] else ProcessedItem(items[n], ids[m..])]
  }

  /** `generateExtension` with the passes fed the processed blocks, as the emitters' reads of `gen_id` intend. */
  function ExtensionOfFixed(ext: Extension, items: seq<Item>, ids: seq<string>): Outcome<ExtensionModule>
    requires |ids| == IdsNeededAll(items)
  {
    Assemble(ext, GetInfo(ext, items, ids), ProcessForPasses(items, ids))
  }

  /** A block whose `blockType` and argument types all appear in the generator's maps. */
  predicate Known(b: Block)
  {
    && b.blockType.Some? && b.blockType.value in BlockTypes
    && forall k :: 0 <= k < |ArgsOf(b)| ==> ArgsOf(b)[k].argType.Some? && ArgsOf(b)[k].argType.value in ArgTypes
  }

  /** A processed block binds the ids drawn for it, and it is complete when the configured block is known. */
  lemma ProcessedBlockDeclares(b: Block, ids: seq<string>)
    requires |ids| == |ArgsOf(b)|
    ensures ArgIdents(ArgsOf(ProcessedBlock(b, ids))) == ids
    ensures Known(b) ==> Complete(ProcessedBlock(b, ids))
  {
    ProcessedOperation(b, ids);
  }

  lemma {:induction false} ProcessForPassesLast(items: seq<Item>, ids: seq<string>)
    requires items != [] && |ids| == IdsNeededAll(items)
    ensures var n := |items| - 1;
      var m := IdsNeededAll(items[..n]);
      var front := Operations(ProcessForPasses(items[..n], ids[..m]));
      Operations(ProcessForPasses(items, ids)) ==
        if items[n].Obj? then front + [ProcessedBlock(items[n].block, ids[m..])] else front
  {
    var n := |items| - 1;
    var m := IdsNeededAll(items[..n]);
    var front := ProcessForPasses(items[..n], ids[..m]);
    var last := if items[n].Str? then items[n] else ProcessedItem(items[n], ids[m..]);
    var r := front + [last];
    assert ProcessForPasses(items, ids) == r;
    assert r[..|r| - 1] == front && r[|r| - 1] == last;
  }

  lemma {:induction false} DeclaredIdsAppend(ops: seq<Block>, b: Block)
    ensures DeclaredIds(ops + [b]) == DeclaredIds(ops) + ArgIdents(ArgsOf(b))
  {
    var s := ops + [b];
    assert s[..|s| - 1] == ops && s[|s| - 1] == b;
  }

  /** One step of `ProcessedPassIds`: a configured block adds the ids drawn for its arguments. */
  lemma {:induction false} ProcessedPassIdsStep(items: seq<Item>, ids: seq<string>)
    requires items != [] && items[|items| - 1].Obj? && |ids| == IdsNeededAll(items)
    requires var m := IdsNeededAll(items[..|items| - 1]);
      DeclaredIds(Operations(ProcessForPasses(items[..|items| - 1], ids[..m]))) == ids[..m]
    ensures DeclaredIds(Operations(ProcessForPasses(items, ids))) == ids
  {
    var n := |items| - 1;
    var m := IdsNeededAll(items[..n]);
    var front := Operations(ProcessForPasses(items[..n], ids[..m]));
    var b := ProcessedBlock(items[n].block, ids[m..]);
    assert Operations(ProcessForPasses(items, ids)) == front + [b] by {
      ProcessForPassesLast(items, ids);
    }
    assert ArgIdents(ArgsOf(b)) == ids[m..] by {
      ProcessedBlockDeclares(items[n].block, ids[m..]);
    }
    DeclaredIdsJoin(front, b, ids, m);
  }

  lemma DeclaredIdsJoin(front: seq<Block>, b: Block, ids: seq<string>, m: nat)
    requires m <= |ids| && DeclaredIds(front) == ids[..m] && ArgIdents(ArgsOf(b)) == ids[m..]
    ensures DeclaredIds(front + [b]) == ids
  {
    DeclaredIdsAppend(front, b);
    assert ids[..m] + ids[m..] == ids;
  }

  /** The processed blocks the corrected passes see bind exactly the supplied ids, one per argument in order. */
  lemma {:induction false} ProcessedPassIds(items: seq<Item>, ids: seq<string>)
    requires |ids| == IdsNeededAll(items)
    ensures DeclaredIds(Operations(ProcessForPasses(items, ids))) == ids
  {
    if items != [] {
      var n := |items| - 1;
      var m := IdsNeededAll(items[..n]);
      ProcessedPassIds(items[..n], ids[..m]);
      if items[n].Obj? {
        ProcessedPassIdsStep(items, ids);
      } else {
        ProcessForPassesLast(items, ids);
        assert ids[..m] == ids;
      }
    } else {
      assert Operations(ProcessForPasses(items, ids)) == [];
    }
  }

  /** When every configured block is known, every block the corrected passes see is complete. */
  lemma {:induction false} ProcessedPassComplete(items: seq<Item>, ids: seq<string>)
    requires |ids| == IdsNeededAll(items)
    requires forall i :: 0 <= i < |Operations(items)| ==> Known(Operations(items)[i])
    ensures var ops := Operations(ProcessForPasses(items, ids));
      forall i :: 0 <= i < |ops| ==> Complete(ops[i])
  {
    if items != [] {
      var n := |items| - 1;
      var m := IdsNeededAll(items[..n]);
      var raw := Operations(items[..n]);
      assert Operations(items) == raw + (if items[n].Obj? then [items[n].block] else []);
      assert forall i :: 0 <= i < |raw| ==> Known(raw[i]) by {
        forall i | 0 <= i < |raw| ensures Known(raw[i]) {
          assert raw[i] == Operations(items)[i];
        }
      }
      ProcessedPassComplete(items[..n], ids[..m]);
      ProcessForPassesLast(items, ids);
      if items[n].Obj? {
        assert Known(Operations(items)[|raw|]);
        ProcessedBlockDeclares(items[n].block, ids[m..]);
      }
    } else {
      assert Operations(ProcessForPasses(items, ids)) == [];
    }
  }

  /**
   * With the passes fed processed blocks, a configuration whose block and argument types are all known
   * yields a module whose compiler switches declare exactly the drawn ids; ids drawn without repeats
   * declare no name twice, so the module loads.
   */
  lemma FixedDeclaresDrawnIds(ext: Extension, items: seq<Item>, ids: seq<string>)
    requires |ids| == IdsNeededAll(items)
    requires forall i :: 0 <= i < |Operations(items)| ==> Known(Operations(items)[i])
    ensures ExtensionOfFixed(ext, items, ids).Returns?
    ensures var passItems := ProcessForPasses(items, ids);
      && Declared(CasesOf(Statement, ext.id, passItems).value) == ids
      && Declared(CasesOf(Expression, ext.id, passItems).value) == ids
    ensures Distinct(ids) ==>
      var passItems := ProcessForPasses(items, ids);
      Loads(CasesOf(Statement, ext.id, passItems).value) && Loads(CasesOf(Expression, ext.id, passItems).value)
  {
    var passItems := ProcessForPasses(items, ids);
    ProcessedPassIds(items, ids);
    ProcessedPassComplete(items, ids);
    CompilerPassesComplete(ext.id, passItems);
    CompilerSwitchDeclares(Statement, ext.id, passItems);
    CompilerSwitchDeclares(Expression, ext.id, passItems);
  }
}
