/**
 * The four fragment passes of `generateExtension`: `generateJSGPCode`, `generateInputHandlerCode`,
 * `generateSTGPCode` and `generateSTGPInputHandlerCode`. Each walks the `blocks` array, skips bare
 * strings, and emits one `case` per object block. The cases are described structurally (`CaseOf`,
 * `CasesOf`) and rendered to the exact text the emitters append (`RenderCase`, `RenderAll`); each
 * emitter method is proved to produce that text.
 *
 * The passes read a block the way they find it: they work on raw configuration blocks and on
 * processed descriptor entries alike, and reading a field of `undefined` throws.
 */
module Fragments {
  import opened JsStrings
  import opened Config
  import opened Switches

  /**
   * The four passes of the generator, and `ReportingStatement`: the stacked-block pass as the generator
   * version behind the shipped runtime evidently wrote it, where a block that is no statement reports its
   * value and returns instead of falling through to the next case.
   */
  datatype Pass = Statement | Expression | TreeStacked | TreeInput | ReportingStatement

  /** The accessor chosen from an argument type: the lower-cased text after its last `.`. */
  function AccessorFor(argType: string): Accessor
  {
    var t := ToLower(LastSegment(argType, '.'));
    if t == "number" then AsNumber
    else if t == "boolean" then AsBoolean
    else AsString
  }

  /** One binding: `argConfig.type.split(...)` throws when the argument has no `type`. */
  function BindingOf(a: Arg): Outcome<Binding>
  {
    if a.argType.None? then Throws(CannotRead("split"))
    else Returns(Binding(Interpolate(a.genId), a.name, AccessorFor(a.argType.value)))
  }

  /** The bindings of all arguments, in declaration order; the first argument without a `type` throws. */
  function BindingsOf(args: seq<Arg>): (r: Outcome<seq<Binding>>)
    ensures r.Returns? <==> forall i :: 0 <= i < |args| ==> args[i].argType.Some?
    ensures r.Throws? ==> r.error == CannotRead("split")
    ensures r.Returns? ==> |r.value| == |args| && forall i :: 0 <= i < |args| ==> Returns(r.value[i]) == BindingOf(args[i])
  {
    if args == [] then Returns([])
    else
      var n := |args| - 1;
      match BindingsOf(args[..n])
      case Throws(e) => Throws(e)
      case Returns(bs) =>
        match BindingOf(args[n])
        case Throws(e) => Throws(e)
        case Returns(b) => Returns(bs + [b])
  }

  /** `block.blockType.endsWith('COMMAND') || block.blockType.endsWith('CONDITIONAL')`. */
  function IsStatementType(blockType: Option<string>): Outcome<bool>
  {
    match blockType
    case None => Throws(CannotRead("endsWith"))
    case Some(t) => Returns(EndsWith(t, "COMMAND") || EndsWith(t, "CONDITIONAL"))
  }

  /** The `TypedInput` tag chosen from `block.returns`. */
  function TagFor(returnKind: Option<string>): TypeTag
  {
    if returnKind == Some("STRING") then TypeString
    else if returnKind == Some("BOOLEAN") then TypeBoolean
    else TypeUnknown
  }

  /** The label of a compiler case: `'<extension.id>.<opcode>'`. */
  function Key(extId: string, opcode: Option<string>): string
  {
    extId + "." + Interpolate(opcode)
  }

  /** The label of a script-tree case, whatever the extension's id: `'mistiumComments_<opcode>'`. */
  function TreeKey(opcode: Option<string>): string
  {
    "mistiumComments_" + Interpolate(opcode)
  }

  /** `vm.runtime.visualReport("${block.id}", <code>)`: show a reporter's value next to its block. */
  function VisualReport(code: string): string
  {
    "vm.runtime.visualReport(\"${block.id}\", " + code + ")"
  }

  /** The case a pass emits for one object block. */
  function CaseOf(pass: Pass, extId: string, b: Block): Outcome<Case>
  {
    match pass
    case Statement =>
      (match BindingsOf(ArgsOf(b))
       case Throws(e) => Throws(e)
       case Returns(bs) =>
         match IsStatementType(b.blockType)
         case Throws(e) => Throws(e)
         case Returns(isStatement) =>
           Returns(Case(Key(extId, b.opcode), Emit(bs, if isStatement then Some(Interpolate(b.code)) else None))))
    case ReportingStatement =>
      (match BindingsOf(ArgsOf(b))
       case Throws(e) => Throws(e)
       case Returns(bs) =>
         match IsStatementType(b.blockType)
         case Throws(e) => Throws(e)
         case Returns(isStatement) =>
           var code := Interpolate(b.code);
           Returns(Case(Key(extId, b.opcode), Emit(bs, Some(if isStatement then code else VisualReport(code))))))
    case Expression =>
      (match BindingsOf(ArgsOf(b))
       case Throws(e) => Throws(e)
       case Returns(bs) => Returns(Case(Key(extId, b.opcode), Typed(bs, Interpolate(b.code), TagFor(b.returnKind)))))
    case TreeStacked =>
      Returns(Case(TreeKey(b.opcode), TreeNode("mistiumComments." + Interpolate(b.opcode), ArgNames(ArgsOf(b)))))
    case TreeInput =>
      Returns(Case(TreeKey(b.opcode), TreeNode(extId + "." + Interpolate(b.opcode), ArgNames(ArgsOf(b)))))
  }

  /** The cases a pass emits for a `blocks` array; the first block whose case throws aborts the pass. */
  function CasesOf(pass: Pass, extId: string, items: seq<Item>): Outcome<seq<Case>>
  {
    if items == [] then Returns([])
    else
      var n := |items| - 1;
      match CasesOf(pass, extId, items[..n])
      case Throws(e) => Throws(e)
      case Returns(cs) =>
        if items[n].Str? then Returns(cs)
        else
          match CaseOf(pass, extId, items[n].block)
          case Throws(e) => Throws(e)
          case Returns(c) => Returns(cs + [c])
  }

  function AccessorName(acc: Accessor): string
  {
    match acc
    case AsString => "asString"
    case AsNumber => "asNumber"
    case AsBoolean => "asBoolean"
  }

  function TagName(tag: TypeTag): string
  {
    match tag
    case TypeString => "TYPE_STRING"
    case TypeBoolean => "TYPE_BOOLEAN"
    case TypeUnknown => "TYPE_UNKNOWN"
  }

  function Header(key: string): string
  {
    "\n        case '" + key + "':\n"
  }

  function BindingLine(b: Binding): string
  {
    "          const " + b.ident + " = this.descendInput(node?." + b.input + ")." + AccessorName(b.accessor) + "();\n"
  }

  function StatementLine(code: string): string
  {
    "          this.source += `\\n" + code + ";\\n`;\n"
  }

  const ReturnLine: string := "          return;\n"

  function TypedLine(code: string, tag: TypeTag): string
  {
    "          return new TypedInput(`" + code + "`, " + TagName(tag) + ");\n"
  }

  function InputLine(name: string): string
  {
    "              " + name + ": this.descendInputOfBlock(block, '" + name + "'),\n"
  }

  /** The opening of a returned node: on one line in the stacked pass, on two in the input pass. */
  function NodeOpening(pass: Pass, kind: string): string
  {
    if pass == TreeInput then "          return {\n            block,\n            kind: '" + kind + "',\n"
    else "          return {\n            block, kind: '" + kind + "',\n"
  }

  const NodeClosing: string := "          };\n"

  function RenderBindings(bs: seq<Binding>): string
  {
    if bs == [] then "" else RenderBindings(bs[..|bs| - 1]) + BindingLine(bs[|bs| - 1])
  }

  function RenderInputs(names: seq<string>): string
  {
    if names == [] then "" else RenderInputs(names[..|names| - 1]) + InputLine(names[|names| - 1])
  }

  /** The text of one case, appended piece by piece as the emitters do. */
  function RenderCase(pass: Pass, c: Case): string
  {
    match c.body
    case Emit(bs, None) => Header(c.key) + RenderBindings(bs)
    case Emit(bs, Some(st)) => Header(c.key) + RenderBindings(bs) + StatementLine(st) + ReturnLine
    case Typed(bs, code, tag) => Header(c.key) + RenderBindings(bs) + TypedLine(code, tag)
    case TreeNode(kind, inputs) => Header(c.key) + NodeOpening(pass, kind) + RenderInputs(inputs) + NodeClosing
  }

  function RenderAll(pass: Pass, cs: seq<Case>): string
  {
    if cs == [] then "" else RenderAll(pass, cs[..|cs| - 1]) + RenderCase(pass, cs[|cs| - 1])
  }

  /** The text a pass returns for a `blocks` array, or the error it throws. */
  function Fragment(pass: Pass, extId: string, items: seq<Item>): Outcome<string>
  {
    match CasesOf(pass, extId, items)
    case Throws(e) => Throws(e)
    case Returns(cs) => Returns(RenderAll(pass, cs))
  }

  /** Once a prefix of the blocks throws, the whole pass throws the same error. */
  lemma {:induction false} CasesOfPrefixThrows(pass: Pass, extId: string, items: seq<Item>, i: nat)
    requires i <= |items| && CasesOf(pass, extId, items[..i]).Throws?
    ensures CasesOf(pass, extId, items) == Throws(CasesOf(pass, extId, items[..i]).error)
    decreases |items| - i
  {
    if i < |items| {
      var n := |items| - 1;
      assert items[..n][..i] == items[..i];
      CasesOfPrefixThrows(pass, extId, items[..n], i);
    } else {
      assert items[..i] == items;
    }
  }

  /** The binding lines of `args`, or the error reading their types throws. */
  method BindingLines(args: seq<Arg>) returns (r: Outcome<string>)
    ensures r.Throws? <==> BindingsOf(args).Throws?
    ensures r.Throws? ==> r.error == BindingsOf(args).error
    ensures r.Returns? ==> r.value == RenderBindings(BindingsOf(args).value)
  {
    var lines := "";
    for i := 0 to |args|
      invariant BindingsOf(args[..i]).Returns?
      invariant lines == RenderBindings(BindingsOf(args[..i]).value)
    {
      assert args[..i + 1][..i] == args[..i];
      var genId := args[i].genId;
      if args[i].argType.None? {
        assert !BindingsOf(args).Returns? by { assert !args[i].argType.Some?; }
        return Throws(CannotRead("split"));
      }
      var argType := ToLower(LastSegment(args[i].argType.value, '.'));
      var accessor := "asString";
      if argType == "number" {
        accessor := "asNumber";
      } else if argType == "boolean" {
        accessor := "asBoolean";
      }
      ghost var b := Binding(Interpolate(genId), args[i].name, AccessorFor(args[i].argType.value));
      assert accessor == AccessorName(b.accessor);
      assert BindingsOf(args[..i + 1]) == Returns(BindingsOf(args[..i]).value + [b]);
      var line := "          const " + Interpolate(genId) + " = this.descendInput(node?." + args[i].name + ")." + accessor + "();\n";
      assert line == BindingLine(b);
      assert (BindingsOf(args[..i]).value + [b])[..i] == BindingsOf(args[..i]).value;
      lines := lines + line;
    }
    assert args[..|args|] == args;
    return Returns(lines);
  }

  /** The `descendInputOfBlock` field lines of `args`. */
  method InputLines(args: seq<Arg>) returns (lines: string)
    ensures lines == RenderInputs(ArgNames(args))
  {
    lines := "";
    for i := 0 to |args|
      invariant lines == RenderInputs(ArgNames(args[..i]))
    {
      assert ArgNames(args[..i + 1])[..i] == ArgNames(args[..i]);
      lines := lines + "              " + args[i].name + ": this.descendInputOfBlock(block, '" + args[i].name + "'),\n";
    }
    assert args[..|args|] == args;
  }

  /** The text one case renders to, or the error computing it throws. */
  function CaseText(pass: Pass, extId: string, b: Block): Outcome<string>
  {
    match CaseOf(pass, extId, b)
    case Throws(e) => Throws(e)
    case Returns(c) => Returns(RenderCase(pass, c))
  }

  /** One turn of a pass's `forEach`: a string adds nothing, a case adds its text or aborts the pass. */
  lemma {:induction false} FragmentStep(pass: Pass, extId: string, items: seq<Item>, i: nat)
    requires i < |items| && CasesOf(pass, extId, items[..i]).Returns?
    ensures items[i].Str? ==> CasesOf(pass, extId, items[..i + 1]) == CasesOf(pass, extId, items[..i])
    ensures items[i].Obj? && CaseText(pass, extId, items[i].block).Returns? ==>
      && CasesOf(pass, extId, items[..i + 1]).Returns?
      && RenderAll(pass, CasesOf(pass, extId, items[..i + 1]).value) ==
         RenderAll(pass, CasesOf(pass, extId, items[..i]).value) + CaseText(pass, extId, items[i].block).value
    ensures items[i].Obj? && CaseText(pass, extId, items[i].block).Throws? ==>
      CasesOf(pass, extId, items) == Throws(CaseText(pass, extId, items[i].block).error)
  {
    assert items[..i + 1][..i] == items[..i];
    if items[i].Obj? {
      match CaseOf(pass, extId, items[i].block)
      case Throws(e) =>
        CasesOfPrefixThrows(pass, extId, items, i + 1);
      case Returns(c) =>
        var cs := CasesOf(pass, extId, items[..i]).value;
        assert (cs + [c])[..|cs|] == cs;
    }
  }

  /** The case `generateJSGPCode` emits for a block whose bindings and statement-ness are known. */
  ghost function StatementCase(extId: string, b: Block, bs: seq<Binding>, isStatement: bool): (c: Case)
    requires BindingsOf(ArgsOf(b)) == Returns(bs) && IsStatementType(b.blockType) == Returns(isStatement)
    ensures CaseOf(Statement, extId, b) == Returns(c)
  {
    Case(Key(extId, b.opcode), Emit(bs, if isStatement then Some(Interpolate(b.code)) else None))
  }

  /** The `forEach` callback of `generateJSGPCode`, for one object block. */
  method JSGPCase(ext: Extension, block: Block) returns (r: Outcome<string>)
    ensures r == CaseText(Statement, ext.id, block)
  {
    var blockCode := Header(ext.id + "." + Interpolate(block.opcode));
    var bindings := BindingLines(ArgsOf(block));
    if bindings.Throws? {
      return Throws(bindings.error);
    }
    blockCode := blockCode + bindings.value;
    if block.blockType.None? {
      return Throws(CannotRead("endsWith"));
    }
    var isStatement := EndsWith(block.blockType.value, "COMMAND") || EndsWith(block.blockType.value, "CONDITIONAL");
    ghost var c := StatementCase(ext.id, block, BindingsOf(ArgsOf(block)).value, isStatement);
    if isStatement {
      blockCode := blockCode + StatementLine(Interpolate(block.code));
      blockCode := blockCode + ReturnLine;
    }
    return Returns(blockCode);
  }

  /** `generateJSGPCode`: the compiler's stacked-block cases. */
  method GenerateJSGPCode(ext: Extension, blocks: seq<Item>) returns (r: Outcome<string>)
    ensures r == Fragment(Statement, ext.id, blocks)
  {
    var code := "";
    for i := 0 to |blocks|
      invariant CasesOf(Statement, ext.id, blocks[..i]).Returns?
      invariant code == RenderAll(Statement, CasesOf(Statement, ext.id, blocks[..i]).value)
    {
      FragmentStep(Statement, ext.id, blocks, i);
      if blocks[i].Str? {
        continue;
      }
      var blockCode := JSGPCase(ext, blocks[i].block);
      if blockCode.Throws? {
        return Throws(blockCode.error);
      }
      code := code + blockCode.value;
    }
    assert blocks[..|blocks|] == blocks;
    return Returns(code);
  }

  /** The `forEach` callback of `generateInputHandlerCode`, for one object block. */
  method InputHandlerCase(ext: Extension, block: Block) returns (r: Outcome<string>)
    ensures r == CaseText(Expression, ext.id, block)
  {
    var blockCode := Header(ext.id + "." + Interpolate(block.opcode));
    var bindings := BindingLines(ArgsOf(block));
    if bindings.Throws? {
      return Throws(bindings.error);
    }
    blockCode := blockCode + bindings.value;
    var returnType := TypeUnknown;
    if block.returnKind == Some("STRING") {
      returnType := TypeString;
    } else if block.returnKind == Some("BOOLEAN") {
      returnType := TypeBoolean;
    }
    var typed := TypedLine(Interpolate(block.code), returnType);
    blockCode := blockCode + typed;
    return Returns(blockCode);
  }

  /** `generateInputHandlerCode`: the compiler's reporter cases. */
  method GenerateInputHandlerCode(ext: Extension, blocks: seq<Item>) returns (r: Outcome<string>)
    ensures r == Fragment(Expression, ext.id, blocks)
  {
    var code := "";
    for i := 0 to |blocks|
      invariant CasesOf(Expression, ext.id, blocks[..i]).Returns?
      invariant code == RenderAll(Expression, CasesOf(Expression, ext.id, blocks[..i]).value)
    {
      FragmentStep(Expression, ext.id, blocks, i);
      if blocks[i].Str? {
        continue;
      }
      var blockCode := InputHandlerCase(ext, blocks[i].block);
      if blockCode.Throws? {
        return Throws(blockCode.error);
      }
      code := code + blockCode.value;
    }
    assert blocks[..|blocks|] == blocks;
    return Returns(code);
  }

  /** The `forEach` callback of `generateSTGPCode`, for one object block. */
  method STGPCase(ext: Extension, block: Block) returns (blockCode: string)
    ensures CaseText(TreeStacked, ext.id, block) == Returns(blockCode)
  {
    var opcode := Interpolate(block.opcode);
    blockCode := Header("mistiumComments_" + opcode);
    blockCode := blockCode + NodeOpening(TreeStacked, "mistiumComments." + opcode);
    var fields := InputLines(ArgsOf(block));
    blockCode := blockCode + fields;
    blockCode := blockCode + NodeClosing;
  }

  /** `generateSTGPCode`: the script-tree builder's stacked-block cases. */
  method GenerateSTGPCode(ext: Extension, blocks: seq<Item>) returns (code: string)
    ensures Fragment(TreeStacked, ext.id, blocks) == Returns(code)
  {
    code := "";
    for i := 0 to |blocks|
      invariant CasesOf(TreeStacked, ext.id, blocks[..i]).Returns?
      invariant code == RenderAll(TreeStacked, CasesOf(TreeStacked, ext.id, blocks[..i]).value)
    {
      FragmentStep(TreeStacked, ext.id, blocks, i);
      if blocks[i].Str? {
        continue;
      }
      var blockCode := STGPCase(ext, blocks[i].block);
      code := code + blockCode;
    }
    assert blocks[..|blocks|] == blocks;
  }

  /** The `forEach` callback of `generateSTGPInputHandlerCode`, for one object block. */
  method STGPInputCase(ext: Extension, block: Block) returns (blockCode: string)
    ensures CaseText(TreeInput, ext.id, block) == Returns(blockCode)
  {
    var opcode := Interpolate(block.opcode);
    blockCode := Header("mistiumComments_" + opcode);
    blockCode := blockCode + NodeOpening(TreeInput, ext.id + "." + opcode);
    var fields := InputLines(ArgsOf(block));
    blockCode := blockCode + fields;
    blockCode := blockCode + NodeClosing;
  }

  /** `generateSTGPInputHandlerCode`: the script-tree builder's reporter cases. */
  method GenerateSTGPInputHandlerCode(ext: Extension, blocks: seq<Item>) returns (code: string)
    ensures Fragment(TreeInput, ext.id, blocks) == Returns(code)
  {
    code := "";
    for i := 0 to |blocks|
      invariant CasesOf(TreeInput, ext.id, blocks[..i]).Returns?
      invariant code == RenderAll(TreeInput, CasesOf(TreeInput, ext.id, blocks[..i]).value)
    {
      FragmentStep(TreeInput, ext.id, blocks, i);
      if blocks[i].Str? {
        continue;
      }
      var blockCode := STGPInputCase(ext, blocks[i].block);
      code := code + blockCode;
    }
    assert blocks[..|blocks|] == blocks;
  }

  /**
   * A pass emits one case per object block, in input order, skipping bare strings; it completes exactly
   * when no block's case throws.
   */
  lemma {:induction false} CasesOfOperations(pass: Pass, extId: string, items: seq<Item>)
    ensures var ops := Operations(items);
      CasesOf(pass, extId, items).Returns? <==> forall i :: 0 <= i < |ops| ==> CaseOf(pass, extId, ops[i]).Returns?
    ensures var ops := Operations(items);
      CasesOf(pass, extId, items).Returns? ==>
        var cs := CasesOf(pass, extId, items).value;
        |cs| == |ops| && forall i :: 0 <= i < |ops| ==> CaseOf(pass, extId, ops[i]) == Returns(cs[i])
  {
    if items != [] {
      var n := |items| - 1;
      CasesOfOperations(pass, extId, items[..n]);
      var front := Operations(items[..n]);
      var ops := Operations(items);
      assert ops == front + (if items[n].Obj? then [items[n].block] else []);
      assert forall i :: 0 <= i < |front| ==> ops[i] == front[i];
      var before := CasesOf(pass, extId, items[..n]);
      if before.Throws? {
        var i :| 0 <= i < |front| && !CaseOf(pass, extId, front[i]).Returns?;
        assert ops[i] == front[i];
        assert CasesOf(pass, extId, items).Throws?;
        assert !CaseOf(pass, extId, ops[i]).Returns?;
      } else if items[n].Obj? {
        assert ops[|front|] == items[n].block;
        var cs := before.value;
        match CaseOf(pass, extId, items[n].block)
        case Throws(e) =>
          assert !CaseOf(pass, extId, ops[|front|]).Returns?;
          assert CasesOf(pass, extId, items) == Throws(e);
        case Returns(c) =>
          assert forall i :: 0 <= i < |cs| ==> (cs + [c])[i] == cs[i];
          assert CasesOf(pass, extId, items) == Returns(cs + [c]);
          assert forall i :: 0 <= i < |ops| ==> CaseOf(pass, extId, ops[i]).Returns?;
      } else {
        assert ops == front;
        assert CasesOf(pass, extId, items) == before;
      }
    } else {
      assert Operations(items) == [];
    }
  }

  /**
   * The compiler's stacked-block case for a block: keyed `'<extension.id>.<opcode>'`, one binding per
   * declared argument in order, and the code statement with its `return` exactly for block types ending
   * in COMMAND or CONDITIONAL. It throws when an argument has no `type` or the block has no `blockType`.
   */
  lemma StatementCaseShape(extId: string, b: Block)
    ensures CaseOf(Statement, extId, b).Throws? <==>
      b.blockType.None? || exists i :: 0 <= i < |ArgsOf(b)| && ArgsOf(b)[i].argType.None?
    ensures CaseOf(Statement, extId, b).Returns? ==>
      var c := CaseOf(Statement, extId, b).value;
      && c.key == extId + "." + Interpolate(b.opcode)
      && c.body.Emit?
      && |c.body.bindings| == |ArgsOf(b)|
      && (forall i :: 0 <= i < |ArgsOf(b)| ==>
            c.body.bindings[i] == Binding(Interpolate(ArgsOf(b)[i].genId), ArgsOf(b)[i].name, AccessorFor(ArgsOf(b)[i].argType.value)))
      && (c.body.statement.Some? <==> EndsWith(b.blockType.value, "COMMAND") || EndsWith(b.blockType.value, "CONDITIONAL"))
      && (c.body.statement.Some? ==> c.body.statement.value == Interpolate(b.code))
  {
    var bs := BindingsOf(ArgsOf(b));
    if bs.Returns? {
      forall i | 0 <= i < |ArgsOf(b)|
        ensures bs.value[i] == Binding(Interpolate(ArgsOf(b)[i].genId), ArgsOf(b)[i].name, AccessorFor(ArgsOf(b)[i].argType.value))
      {
        assert Returns(bs.value[i]) == BindingOf(ArgsOf(b)[i]);
      }
    }
  }

  /**
   * The compiler's reporter case for a block: the same key and bindings, then a `TypedInput` of the
   * block's code tagged TYPE_STRING for `returns` STRING, TYPE_BOOLEAN for BOOLEAN, and TYPE_UNKNOWN for
   * anything else, NUMBER and an absent `returns` included. Only an argument without `type` throws.
   */
  lemma ExpressionCaseShape(extId: string, b: Block)
    ensures CaseOf(Expression, extId, b).Throws? <==> exists i :: 0 <= i < |ArgsOf(b)| && ArgsOf(b)[i].argType.None?
    ensures CaseOf(Expression, extId, b).Returns? ==>
      var c := CaseOf(Expression, extId, b).value;
      && c.key == extId + "." + Interpolate(b.opcode)
      && c.body.Typed?
      && Returns(c.body.bindings) == BindingsOf(ArgsOf(b))
      && c.body.code == Interpolate(b.code)
      && (c.body.tag == TypeString <==> b.returnKind == Some("STRING"))
      && (c.body.tag == TypeBoolean <==> b.returnKind == Some("BOOLEAN"))
      && (b.returnKind == Some("NUMBER") || b.returnKind.None? ==> c.body.tag == TypeUnknown)
  {
  }

  /**
   * The two script-tree passes agree on every block's label and input fields, label it
   * `'mistiumComments_<opcode>'` whatever the extension's id, and differ only in the node kind: the
   * stacked pass always names `mistiumComments`, the input pass the extension's id, so the kinds agree
   * exactly when the id is `mistiumComments`.
   */
  lemma {:induction false} TreeCasesAgree(extId: string, b: Block)
    ensures var s, t := CaseOf(TreeStacked, extId, b).value, CaseOf(TreeInput, extId, b).value;
      && s.key == t.key == "mistiumComments_" + Interpolate(b.opcode)
      && s.body.TreeNode? && t.body.TreeNode?
      && s.body.inputs == t.body.inputs == ArgNames(ArgsOf(b))
      && s.body.kind == "mistiumComments." + Interpolate(b.opcode)
      && t.body.kind == extId + "." + Interpolate(b.opcode)
      && (s.body.kind == t.body.kind <==> extId == "mistiumComments")
  {
    var op := Interpolate(b.opcode);
    var m: string := "mistiumComments";
    if m + "." + op == extId + "." + op {
      assert |extId| == |m|;
      assert extId == (extId + "." + op)[..|m|] == (m + "." + op)[..|m|] == m;
    }
  }

  /** Raw and mapped argument types choose the same accessor: only the text after the last `.` counts. */
  lemma {:induction false} AccessorIgnoresNamespace(prefix: string, t: string)
    requires '.' !in t
    ensures AccessorFor(prefix + "." + t) == AccessorFor(t)
  {
    assert prefix + "." + t == prefix + ['.'] + t;
    LastSegmentAfterSeparator(prefix, '.', t);
    LastSegmentWhole(t, '.');
  }

  /**
   * The accessor of each argument type `argTypeMap` knows: `asNumber` for NUMBER, `asBoolean` for
   * BOOLEAN, and `asString` for the rest, STRING, COLOR and ANGLE.
   */
  lemma AccessorOfArgType(t: string)
    requires t in ArgTypes
    ensures AccessorFor(t) == if t == "NUMBER" then AsNumber else if t == "BOOLEAN" then AsBoolean else AsString
  {
    assert '.' !in t;
    PlainAccessor(t);
    LowerCasedTypeNames();
  }

  lemma LowerCasedTypeNames()
    ensures ToLower("NUMBER") == "number" && ToLower("BOOLEAN") == "boolean" && ToLower("STRING")[0] == 's'
    ensures |ToLower("COLOR")| == |ToLower("ANGLE")| == 5
  {
  }

  /** Looking an argument type up in `argTypeMap` does not change the accessor it gets. */
  lemma MappedArgTypesKeepAccessor()
    ensures forall t :: t in ArgTypes ==> AccessorFor(ArgTypes[t]) == AccessorFor(t)
  {
    var ns := "Scratch.ArgumentType";
    forall t | t in ArgTypes
      ensures AccessorFor(ArgTypes[t]) == AccessorFor(t)
    {
      assert ArgTypes[t] == ns + "." + t;
      assert '.' !in t;
      AccessorIgnoresNamespace(ns, t);
    }
  }

  /** For a type name without `.`, the accessor depends on the lower-cased name alone. */
  lemma PlainAccessor(t: string)
    requires '.' !in t
    ensures ToLower(t) == "number" ==> AccessorFor(t) == AsNumber
    ensures ToLower(t) == "boolean" ==> AccessorFor(t) == AsBoolean
    ensures ToLower(t) != "number" && ToLower(t) != "boolean" ==> AccessorFor(t) == AsString
  {
    LastSegmentWhole(t, '.');
  }

  /**
   * Raw and mapped block types make the same statement decision: COMMAND and CONDITIONAL are statements,
   * REPORTER, BOOLEAN and LABEL are not. A type the map lacks is no statement in raw form, but maps to
   * `undefined`, on which `endsWith` throws.
   */
  lemma StatementTypesOfBlockTypes()
    ensures forall t :: t in BlockTypes ==>
      IsStatementType(Some(t)) == IsStatementType(Lookup(BlockTypes, Some(t))) == Returns(t == "COMMAND" || t == "CONDITIONAL")
    ensures forall t :: t !in BlockTypes ==> IsStatementType(Lookup(BlockTypes, Some(t))) == Throws(CannotRead("endsWith"))
  {
  }

  /** The last characters of the `return;` line, of a binding line and of a case header differ. */
  lemma {:induction false} RenderedBindingsEnd(key: string, bs: seq<Binding>)
    ensures var s := Header(key) + RenderBindings(bs);
      |s| >= 3 && s[|s| - 3] != ReturnLine[|ReturnLine| - 3]
  {
    var s := Header(key) + RenderBindings(bs);
    if bs != [] {
      var line := BindingLine(bs[|bs| - 1]);
      assert s == Header(key) + RenderBindings(bs[..|bs| - 1]) + line;
      assert s[|s| - 3] == line[|line| - 3] == ')';
    } else {
      assert s[|s| - 3] == '\'';
    }
  }

  /** A compiler stacked-block case ends with `return;` exactly when it carries a statement. */
  lemma {:induction false} ReturnExactlyWithStatement(c: Case)
    requires c.body.Emit?
    ensures EndsWith(RenderCase(Statement, c), ReturnLine) <==> c.body.statement.Some?
  {
    var s := RenderCase(Statement, c);
    if c.body.statement.None? {
      RenderedBindingsEnd(c.key, c.body.bindings);
      assert |s| >= |Header(c.key)| >= |ReturnLine|;
      assert s[|s| - |ReturnLine|..][|ReturnLine| - 3] == s[|s| - 3];
    }
  }

  /** One argument with a `type`: its generated id bound to its name, read with the type's accessor. */
  lemma BindingsOfOne(name: string, argType: string, genId: string, acc: Accessor)
    requires AccessorFor(argType) == acc
    ensures BindingsOf([Arg(name, Some(argType), Some(genId))]) == Returns([Binding(genId, name, acc)])
  {
    BindingsAre([Arg(name, Some(argType), Some(genId))], [Binding(genId, name, acc)]);
  }

  /** Two arguments with a `type`, bound in declaration order. */
  lemma BindingsOfTwo(name1: string, argType1: string, genId1: string, acc1: Accessor,
                      name2: string, argType2: string, genId2: string, acc2: Accessor)
    requires AccessorFor(argType1) == acc1 && AccessorFor(argType2) == acc2
    ensures BindingsOf([Arg(name1, Some(argType1), Some(genId1)), Arg(name2, Some(argType2), Some(genId2))]) ==
      Returns([Binding(genId1, name1, acc1), Binding(genId2, name2, acc2)])
  {
    BindingsAre([Arg(name1, Some(argType1), Some(genId1)), Arg(name2, Some(argType2), Some(genId2))],
                [Binding(genId1, name1, acc1), Binding(genId2, name2, acc2)]);
  }

  /** The two stacked-block cases of a block whose bindings and statement test are known. */
  lemma StackedCaseShape(extId: string, b: Block, bs: seq<Binding>, isStatement: bool)
    requires BindingsOf(ArgsOf(b)) == Returns(bs) && IsStatementType(b.blockType) == Returns(isStatement)
    ensures CaseOf(Statement, extId, b) ==
      Returns(Case(Key(extId, b.opcode), Emit(bs, if isStatement then Some(Interpolate(b.code)) else None)))
    ensures CaseOf(ReportingStatement, extId, b) ==
      Returns(Case(Key(extId, b.opcode), Emit(bs, Some(if isStatement then Interpolate(b.code) else VisualReport(Interpolate(b.code))))))
  {
  }

  /** A pass over two `blocks` arrays one after the other emits the cases of the first, then of the second. */
  lemma {:induction false} CasesAppend(pass: Pass, extId: string, xs: seq<Item>, ys: seq<Item>)
    requires CasesOf(pass, extId, xs).Returns? && CasesOf(pass, extId, ys).Returns?
    ensures CasesOf(pass, extId, xs + ys) == Returns(CasesOf(pass, extId, xs).value + CasesOf(pass, extId, ys).value)
  {
    if ys == [] {
      assert xs + ys == xs;
      assert CasesOf(pass, extId, xs).value + [] == CasesOf(pass, extId, xs).value;
    } else {
      var n := |ys| - 1;
      assert (xs + ys)[..|xs| + n] == xs + ys[..n];
      assert (xs + ys)[|xs| + n] == ys[n];
      CasesAppend(pass, extId, xs, ys[..n]);
      var a, b := CasesOf(pass, extId, xs).value, CasesOf(pass, extId, ys[..n]).value;
      if ys[n].Obj? {
        var c := CaseOf(pass, extId, ys[n].block).value;
        assert CasesOf(pass, extId, ys).value == b + [c];
        assert a + b + [c] == a + (b + [c]);
      }
    }
  }

  /** A heading, a bare string in the `blocks` array, contributes no case. */
  lemma CasesOfHeading(pass: Pass, extId: string, heading: string)
    ensures CasesOf(pass, extId, [Str(heading)]) == Returns([])
  {
    assert [Str(heading)][..0] == [];
  }

  /** A single block contributes its own case. */
  lemma CasesOfBlock(pass: Pass, extId: string, b: Block, c: Case)
    requires CaseOf(pass, extId, b) == Returns(c)
    ensures CasesOf(pass, extId, [Obj(b)]) == Returns([c])
  {
    assert [Obj(b)][..0] == [];
    assert CasesOf(pass, extId, [Obj(b)][..0]) == Returns([]);
    assert [] + [c] == [c];
  }

  /** A pass whose cases are known block by block emits exactly those cases, in order. */
  lemma CasesAre(pass: Pass, extId: string, items: seq<Item>, cs: seq<Case>)
    requires |cs| == |Operations(items)|
    requires forall i :: 0 <= i < |cs| ==> CaseOf(pass, extId, Operations(items)[i]) == Returns(cs[i])
    ensures CasesOf(pass, extId, items) == Returns(cs)
  {
    CasesOfOperations(pass, extId, items);
    var r := CasesOf(pass, extId, items).value;
    assert r == cs;
  }

  /** A list of arguments whose bindings are known one by one has exactly those bindings. */
  lemma BindingsAre(args: seq<Arg>, bs: seq<Binding>)
    requires |bs| == |args| && forall k :: 0 <= k < |args| ==> BindingOf(args[k]) == Returns(bs[k])
    ensures BindingsOf(args) == Returns(bs)
  {
    assert forall k :: 0 <= k < |args| ==> args[k].argType.Some?;
    var r := BindingsOf(args).value;
    forall k | 0 <= k < |args| ensures r[k] == bs[k] {
      assert Returns(r[k]) == BindingOf(args[k]);
    }
  }

  /**
   * The reporting pass throws exactly when the stacked-block pass does, keeps its statement cases, and
   * gives every other block a `visualReport` of its code followed by `return;`.
   */
  lemma ReportingCaseOf(extId: string, b: Block)
    ensures CaseOf(ReportingStatement, extId, b).Throws? <==> CaseOf(Statement, extId, b).Throws?
    ensures CaseOf(Statement, extId, b).Returns? ==>
      var c := CaseOf(Statement, extId, b).value;
      CaseOf(ReportingStatement, extId, b) ==
        Returns(if c.body.statement.Some? then c else Case(c.key, Emit(c.body.bindings, Some(VisualReport(Interpolate(b.code))))))
  {
  }

  /** Every case of the reporting pass ends in `return;`: no case falls through into the next. */
  lemma {:induction false} ReportingCasesReturn(extId: string, items: seq<Item>)
    requires CasesOf(ReportingStatement, extId, items).Returns?
    ensures var cs := CasesOf(ReportingStatement, extId, items).value;
      forall i :: 0 <= i < |cs| ==> Switches.Returns(cs[i].body)
  {
    CasesOfOperations(ReportingStatement, extId, items);
    var ops := Operations(items);
    var cs := CasesOf(ReportingStatement, extId, items).value;
    forall i | 0 <= i < |cs| ensures Switches.Returns(cs[i].body) {
      assert CaseOf(ReportingStatement, extId, ops[i]) == Returns(cs[i]);
    }
  }
}
