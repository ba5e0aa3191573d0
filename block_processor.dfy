/**
 * `processBlock`: turns one element of the configuration's `blocks` array into a descriptor entry,
 * giving every declared argument a generated id and pointing the block's `code` at it.
 *
 * Ids come from an injected supply: `processBlock` calls `generateRandomId` once per argument, in
 * declaration order, so a run over a list of blocks consumes one flat sequence of ids.
 */
module BlockProcessor {
  import opened JsStrings
  import opened Config

  /** How many ids processing `item` consumes: one per declared argument. */
  function IdsNeeded(item: Item): nat
  {
    match item
    case Str(_) => 0
    case Obj(b) => |ArgsOf(b)|
  }

  /** The placeholder `[name]` that stands for an argument in `code`. */
  function Placeholder(name: string): string
  {
    "[" + name + "]"
  }

  /** The template interpolation `${id}` that replaces it. */
  function Reference(id: string): string
  {
    "${" + id + "}"
  }

  /** `block.code || ""`. */
  function CodeOrEmpty(code: Option<string>): string
  {
    if Truthy(code) then code.value else ""
  }

  /** The descriptor entry for a bare string other than the separator. */
  function LabelEntry(text: string): Block
  {
    Block(None, Some(BlockTypes["LABEL"]), Some(text), None, None, false, None, None)
  }

  /** The descriptor form of one argument: its mapped type and its generated id. */
  function ProcessedArg(a: Arg, id: string): Arg
  {
    Arg(a.name, Lookup(ArgTypes, a.argType), Some(id))
  }

  /** One pass of the argument loop over `code`: rewrite while `code` is truthy. */
  function RewriteStep(code: string, name: string, id: string): string
  {
    if code != "" then ReplaceFirst(code, Placeholder(name), Reference(id)) else code
  }

  /** `code` after the argument loop has visited `args` in order. */
  function RewrittenCode(code: string, args: seq<Arg>, ids: seq<string>): string
    requires |ids| == |args|
  {
    if args == [] then code
    else
      var n := |args| - 1;
      RewriteStep(RewrittenCode(code, args[..n], ids[..n]), args[n].name, ids[n])
  }

  /** The `arguments` object the loop builds: one entry per declared argument, in order. */
  function ProcessedArgs(args: seq<Arg>, ids: seq<string>): (r: seq<Arg>)
    requires |ids| == |args|
    ensures |r| == |args|
    ensures forall i :: 0 <= i < |args| ==>
      r[i].name == args[i].name && r[i].argType == Lookup(ArgTypes, args[i].argType) && r[i].genId == Some(ids[i])
  {
    if args == [] then []
    else
      var n := |args| - 1;
      ProcessedArgs(args[..n], ids[..n]) + [ProcessedArg(args[n], ids[n])]
  }

  function ProcessedBlock(b: Block, ids: seq<string>): Block
    requires |ids| == |ArgsOf(b)|
  {
    Block(
      b.opcode,
      Lookup(BlockTypes, b.blockType),
      b.text,
      Some(RewrittenCode(CodeOrEmpty(b.code), ArgsOf(b), ids)),
      if Truthy(b.returnKind) then b.returnKind else None,
      b.allowDropAnywhere,
      if b.arguments.Some? then Some(ProcessedArgs(b.arguments.value, ids)) else None,
      Some("err"))
  }

  /** The value `processBlock` returns for `item` when the id supply yields `ids`. */
  function ProcessedItem(item: Item, ids: seq<string>): Item
    requires |ids| == IdsNeeded(item)
  {
    match item
    case Str(s) => if s == "---" then Str("---") else Obj(LabelEntry(s))
    case Obj(b) => Obj(ProcessedBlock(b, ids))
  }

  /** One turn of the argument loop extends the `arguments` object and rewrites `code` once more. */
  lemma ArgLoopStep(code: string, args: seq<Arg>, ids: seq<string>, i: nat)
    requires |ids| == |args| && i < |args|
    ensures ProcessedArgs(args[..i + 1], ids[..i + 1]) == ProcessedArgs(args[..i], ids[..i]) + [ProcessedArg(args[i], ids[i])]
    ensures RewrittenCode(code, args[..i + 1], ids[..i + 1]) ==
      RewriteStep(RewrittenCode(code, args[..i], ids[..i]), args[i].name, ids[i])
  {
    assert args[..i + 1][..i] == args[..i] && ids[..i + 1][..i] == ids[..i];
  }

  method ProcessBlock(block: Item, ids: seq<string>) returns (r: Item)
    requires |ids| == IdsNeeded(block)
    ensures r == ProcessedItem(block, ids)
  {
    match block
    case Str(s) =>
      if s == "---" {
        return Str("---");
      }
      return Obj(Block(None, Some(BlockTypes["LABEL"]), Some(s), None, None, false, None, None));
    case Obj(b) =>
      var processed := Block(b.opcode, Lookup(BlockTypes, b.blockType), b.text, Some(CodeOrEmpty(b.code)),
                             None, false, None, Some("err"));
      if Truthy(b.returnKind) {
        processed := processed.(returnKind := b.returnKind);
      }
      if b.allowDropAnywhere {
        processed := processed.(allowDropAnywhere := true);
      }
      if b.arguments.Some? {
        var args := b.arguments.value;
        processed := processed.(arguments := Some([]));
        for i := 0 to |args|
          invariant processed.arguments == Some(ProcessedArgs(args[..i], ids[..i]))
          invariant processed.code == Some(RewrittenCode(CodeOrEmpty(b.code), args[..i], ids[..i]))
          invariant processed.opcode == b.opcode && processed.text == b.text && processed.func == Some("err")
          invariant processed.blockType == Lookup(BlockTypes, b.blockType)
          invariant processed.returnKind == (if Truthy(b.returnKind) then b.returnKind else None)
          invariant processed.allowDropAnywhere == b.allowDropAnywhere
        {
          var genId := ids[i];
          var argName := args[i].name;
          processed := processed.(arguments := Some(processed.arguments.value +
                                   [Arg(argName, Lookup(ArgTypes, args[i].argType), Some(genId))]));
          if processed.code.value != "" {
            processed := processed.(code := Some(ReplaceFirst(processed.code.value, "[" + argName + "]", "${" + genId + "}")));
          }
          ArgLoopStep(CodeOrEmpty(b.code), args, ids, i);
        }
        assert args[..|args|] == args && ids[..|ids|] == ids;
      }
      return Obj(processed);
  }

  /** A bare `"---"` is returned unchanged; any other string becomes a label entry showing it. */
  lemma ProcessedString(s: string)
    ensures s == "---" ==> ProcessedItem(Str(s), []) == Str("---")
    ensures s != "---" ==>
      ProcessedItem(Str(s), []) == Obj(Block(None, Some("Scratch.BlockType.LABEL"), Some(s), None, None, false, None, None))
  {
  }

  /**
   * An object block keeps its opcode and text, gets the mapped block type (`undefined` for a name the
   * map lacks), `func: "err"`, `code` defaulting to "", `returns` and `allowDropAnywhere` only when
   * truthy, and one argument entry per declared argument, carrying the mapped type and the next id.
   */
  lemma ProcessedOperation(b: Block, ids: seq<string>)
    requires |ids| == |ArgsOf(b)|
    ensures var p := ProcessedBlock(b, ids);
      && p.opcode == b.opcode && p.text == b.text && p.func == Some("err")
      && (p.blockType.Some? <==> b.blockType.Some? && b.blockType.value in BlockTypes)
      && (p.blockType.Some? ==> p.blockType.value == BlockTypes[b.blockType.value])
      && (b.code.None? || b.code == Some("") ==> p.code == Some(""))
      && (p.returnKind.Some? <==> b.returnKind.Some? && b.returnKind.value != "")
      && (p.returnKind.Some? ==> p.returnKind == b.returnKind)
      && p.allowDropAnywhere == b.allowDropAnywhere
      && (p.arguments.Some? <==> b.arguments.Some?)
      && |ArgsOf(p)| == |ArgsOf(b)|
      && (forall i :: 0 <= i < |ids| ==>
            && ArgsOf(p)[i].name == ArgsOf(b)[i].name
            && ArgsOf(p)[i].genId == Some(ids[i])
            && (ArgsOf(p)[i].argType.Some? <==> ArgsOf(b)[i].argType.Some? && ArgsOf(b)[i].argType.value in ArgTypes))
  {
    if b.code.None? || b.code == Some("") {
      EmptyCodeStaysEmpty(ArgsOf(b), ids);
    }
  }

  /** Once `code` is empty the loop never touches it again. */
  lemma {:induction false} EmptyCodeStaysEmpty(args: seq<Arg>, ids: seq<string>)
    requires |ids| == |args|
    ensures RewrittenCode("", args, ids) == ""
  {
    if args != [] {
      var n := |args| - 1;
      EmptyCodeStaysEmpty(args[..n], ids[..n]);
    }
  }

  /**
   * For a block with one argument and a non-empty `code`, the first `[name]` becomes `${id}`, the text
   * around it is kept, and any later `[name]` stays as it was.
   */
  lemma {:induction false} SingleArgumentRewrite(code: string, a: Arg, id: string)
    requires code != ""
    ensures var r := RewrittenCode(code, [a], [id]);
      && (IndexOf(code, Placeholder(a.name)).None? ==> r == code)
      && (IndexOf(code, Placeholder(a.name)).Some? ==>
            var i := IndexOf(code, Placeholder(a.name)).value;
            var p := |Placeholder(a.name)|;
            && r == code[..i] + Reference(id) + code[i + p..]
            && (forall j :: i + p <= j ==> OccursAt(code, Placeholder(a.name), j) ==>
                  OccursAt(r, Placeholder(a.name), j - p + |Reference(id)|)))
  {
    assert [a][..0] == [] && [id][..0] == [];
    ReplaceFirstOnlyFirst(code, Placeholder(a.name), Reference(id));
  }

  /** The number of ids a run over `items` consumes. */
  function IdsNeededAll(items: seq<Item>): nat
  {
    if items == [] then 0
    else IdsNeededAll(items[..|items| - 1]) + IdsNeeded(items[|items| - 1])
  }

  lemma {:induction false} IdsNeededPrefix(items: seq<Item>, i: nat)
    requires i < |items|
    ensures IdsNeededAll(items[..i]) + IdsNeeded(items[i]) <= IdsNeededAll(items)
  {
    var n := |items| - 1;
    assert items[..n] == items[..|items| - 1];
    if i < n {
      IdsNeededPrefix(items[..n], i);
      assert items[..n][..i] == items[..i];
    } else {
      assert items[..i] == items[..|items| - 1];
    }
  }

  /** Where in the supply the ids of `items[i]` start. */
  function Offset(items: seq<Item>, i: nat): (k: nat)
    requires i < |items|
    ensures k + IdsNeeded(items[i]) <= IdsNeededAll(items)
  {
    IdsNeededPrefix(items, i);
    IdsNeededAll(items[..i])
  }

  /** The ids `items[i]` receives. */
  function IdsFor(items: seq<Item>, ids: seq<string>, i: nat): (r: seq<string>)
    requires |ids| == IdsNeededAll(items) && i < |items|
    ensures |r| == IdsNeeded(items[i])
  {
    ids[Offset(items, i)..Offset(items, i) + IdsNeeded(items[i])]
  }

  /** `blocks.map(block => this.processBlock(block))`. */
  function ProcessAll(items: seq<Item>, ids: seq<string>): (r: seq<Item>)
    requires |ids| == IdsNeededAll(items)
    ensures |r| == |items|
  {
    if items == [] then []
    else
      var n := |items| - 1;
      var m := IdsNeededAll(items[..n]);
      ProcessAll(items[..n], ids[..m]) + [ProcessedItem(items[n], ids[m..])]
  }

  /** The descriptor has one entry per block, in order: entry `i` is `items[i]` processed with its own ids. */
  lemma {:induction false} ProcessAllAt(items: seq<Item>, ids: seq<string>, i: nat)
    requires |ids| == IdsNeededAll(items) && i < |items|
    ensures ProcessAll(items, ids)[i] == ProcessedItem(items[i], IdsFor(items, ids, i))
  {
    var n := |items| - 1;
    var m := IdsNeededAll(items[..n]);
    var front := ProcessAll(items[..n], ids[..m]);
    assert ProcessAll(items, ids) == front + [ProcessedItem(items[n], ids[m..])];
    if i < n {
      var slice := IdsFor(items, ids, i);
      assert IdsFor(items[..n], ids[..m], i) == slice by {
        assert items[..n][i] == items[i];
        assert items[..n][..i] == items[..i];
        var k, c := Offset(items, i), IdsNeeded(items[i]);
        assert Offset(items[..n], i) == k;
        assert ids[..m][k..k + c] == ids[k..k + c];
      }
      ProcessAllAt(items[..n], ids[..m], i);
      assert front[i] == ProcessedItem(items[i], slice);
    } else {
      assert IdsFor(items, ids, i) == ids[m..] by {
        assert items[..i] == items[..n];
      }
    }
  }
}
