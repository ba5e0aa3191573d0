/**
 * The hooks `mistiumComments.js` installs: four hand-written dispatch switches, one per patched hook of
 * the compiler (`descendStackedBlock`, `descendInput`) and of the script-tree builder (the same two
 * names), each with a `default` that forwards to the original hook.
 */
module MistiumComments {
  import opened JsStrings
  import opened Config
  import opened Switches
  import opened Fragments
  import opened Patching

  /** The extension's id, and the sentinel name `PATCHES_ID` derived from it. */
  const Id: string := "mistiumComments"
  const PatchesId: string := "mistiumComments_patches"

  function CompilerKey(opcode: string): string
  {
    Id + "." + opcode
  }

  function TreeOpcode(opcode: string): string
  {
    Id + "_" + opcode
  }

  /** The compiler's `descendStackedBlock` cases, one per block. */
  const BlockcommentStacked: Case := Case(CompilerKey("blockcomment"), Emit(
    [Binding("blockcomment_arg1", "comment", AsString)],
    Some("// ${blockcomment_arg1}")))
  const CcommentStacked: Case := Case(CompilerKey("Ccomment"), Emit(
    [Binding("Ccomment_arg1", "comment", AsString)],
    Some("true")))
  const BooleancommentStacked: Case := Case(CompilerKey("booleancomment"), Emit(
    [Binding("booleancomment_arg1", "boolean", AsBoolean), Binding("booleancomment_arg2", "comment", AsString)],
    Some("vm.runtime.visualReport(\"${block.id}\", ${booleancomment_arg1})")))
  const ReportercommentStacked: Case := Case(CompilerKey("reportercomment"), Emit(
    [Binding("reportercomment_arg1", "reporter", AsString), Binding("reportercomment_arg2", "comment", AsString)],
    Some("vm.runtime.visualReport(\"${block.id}\", ${reportercomment_arg1})")))
  const OpenCommentStacked: Case := Case(CompilerKey("openMutlilineComment"), Emit([], Some("/*")))
  const CloseCommentStacked: Case := Case(CompilerKey("closeMultilineComment"), Emit([], Some("*/")))

  /** The compiler's `descendStackedBlock` switch. */
  const CompilerStacked: seq<Case> := [BlockcommentStacked, CcommentStacked, BooleancommentStacked,
                                       ReportercommentStacked, OpenCommentStacked, CloseCommentStacked]

  /** The compiler's `descendInput` cases, one per block. */
  const BlockcommentInput: Case := Case(CompilerKey("blockcomment"), Typed(
    [Binding("blockcomment_arg1", "comment", AsString)],
    "// ${blockcomment_arg1}", TypeUnknown))
  const CcommentInput: Case := Case(CompilerKey("Ccomment"), Typed(
    [Binding("Ccomment_arg1", "comment", AsString)],
    "true", TypeBoolean))
  const BooleancommentInput: Case := Case(CompilerKey("booleancomment"), Typed(
    [Binding("booleancomment_arg1", "boolean", AsBoolean), Binding("booleancomment_arg2", "comment", AsString)],
    "${booleancomment_arg1}", TypeBoolean))
  const ReportercommentInput: Case := Case(CompilerKey("reportercomment"), Typed(
    [Binding("reportercomment_arg1", "reporter", AsString), Binding("reportercomment_arg2", "comment", AsString)],
    "${reportercomment_arg1}", TypeString))
  const OpenCommentInput: Case := Case(CompilerKey("openMutlilineComment"), Typed([], "/*", TypeUnknown))
  const CloseCommentInput: Case := Case(CompilerKey("closeMultilineComment"), Typed([], "*/", TypeUnknown))

  /** The compiler's `descendInput` switch. */
  const CompilerInput: seq<Case> := [BlockcommentInput, CcommentInput, BooleancommentInput,
                                     ReportercommentInput, OpenCommentInput, CloseCommentInput]

  /** The script-tree builder's `descendStackedBlock` cases, one per block. */
  const BlockcommentNode: Case := Case(TreeOpcode("blockcomment"), TreeNode(CompilerKey("blockcomment"), ["comment"]))
  const CcommentNode: Case := Case(TreeOpcode("Ccomment"), TreeNode(CompilerKey("Ccomment"), ["comment"]))
  const BooleancommentNode: Case :=
    Case(TreeOpcode("booleancomment"), TreeNode(CompilerKey("booleancomment"), ["boolean", "comment"]))
  const ReportercommentNode: Case :=
    Case(TreeOpcode("reportercomment"), TreeNode(CompilerKey("reportercomment"), ["reporter", "comment"]))
  const OpenCommentNode: Case := Case(TreeOpcode("openMutlilineComment"), TreeNode(CompilerKey("openMutlilineComment"), []))
  const CloseCommentNode: Case := Case(TreeOpcode("closeMultilineComment"), TreeNode(CompilerKey("closeMultilineComment"), []))

  /** The script-tree builder's `descendStackedBlock` switch. */
  const TreeStackedTable: seq<Case> := [BlockcommentNode, CcommentNode, BooleancommentNode,
                                        ReportercommentNode, OpenCommentNode, CloseCommentNode]

  /** The script-tree builder's `descendInput` switch. */
  const TreeInputTable: seq<Case> := [
    Case(TreeOpcode("blockcomment"), TreeNode(CompilerKey("blockcomment"), ["comment"])),
    Case(TreeOpcode("Ccomment"), TreeNode(CompilerKey("Ccomment"), ["comment"])),
    Case(TreeOpcode("booleancomment"), TreeNode(CompilerKey("booleancomment"), ["boolean", "comment"])),
    Case(TreeOpcode("reportercomment"), TreeNode(CompilerKey("reportercomment"), ["reporter", "comment"])),
    Case(TreeOpcode("openMutlilineComment"), TreeNode(CompilerKey("openMutlilineComment"), [])),
    Case(TreeOpcode("closeMultilineComment"), TreeNode(CompilerKey("closeMultilineComment"), []))]

  /** The four tables. */
  predicate HandTable(cases: seq<Case>)
  {
    cases == CompilerStacked || cases == CompilerInput || cases == TreeStackedTable || cases == TreeInputTable
  }

  /** Every case of the hand-written switches ends in a `return`, and no label repeats. */
  lemma HandTablesWellFormed(cases: seq<Case>)
    requires HandTable(cases)
    ensures forall i :: 0 <= i < |cases| ==> Switches.Returns(cases[i].body)
    ensures forall i, j :: 0 <= i < j < |cases| ==> cases[i].key != cases[j].key
  {
  }

  /**
   * Each hand-written switch handles its six opcodes itself, each with exactly its own case's effect,
   * and hands every other key to the original hook with no effect of its own.
   */
  lemma HandDispatch(cases: seq<Case>, key: string)
    requires HandTable(cases)
    ensures key !in Keys(cases) ==> Dispatch(cases, key) == Run([], Forward)
    ensures forall i :: 0 <= i < |cases| && cases[i].key == key ==>
      Switches.Returns(cases[i].body) && Dispatch(cases, key) == Effect(cases[i].body) && !Dispatch(cases, key).exit.Forward?
  {
    HandTablesWellFormed(cases);
    DispatchReturning(cases, key);
  }

  /** The two script-tree switches build the same node, with the same kind and input fields, for every key. */
  lemma TreeTablesAgree(key: string)
    ensures Dispatch(TreeStackedTable, key) == Dispatch(TreeInputTable, key)
  {
    assert TreeStackedTable == TreeInputTable;
  }

  /** Each compiler switch declares every `const` once, so the module loads. */
  lemma CompilerTablesLoad()
    ensures Loads(CompilerStacked) && Loads(CompilerInput)
  {
    CompilerTableDeclares(CompilerStacked);
    CompilerTableDeclares(CompilerInput);
    HandIdentsDistinct();
  }

  /** The `<opcode>_arg<n>` names differ in length or in their last character. */
  lemma HandIdentsDistinct()
    ensures Distinct(["blockcomment_arg1", "Ccomment_arg1", "booleancomment_arg1", "booleancomment_arg2",
                      "reportercomment_arg1", "reportercomment_arg2"])
  {
    var d := ["blockcomment_arg1", "Ccomment_arg1", "booleancomment_arg1", "booleancomment_arg2",
              "reportercomment_arg1", "reportercomment_arg2"];
    var shape := [(17, '1'), (13, '1'), (19, '1'), (19, '2'), (20, '1'), (20, '2')];
    forall i | 0 <= i < 6 ensures |d[i]| == shape[i].0 && d[i][|d[i]| - 1] == shape[i].1 {
    }
  }

  /** The identifiers a six-case compiler switch declares, case by case. */
  lemma {:induction false} SixCasesDeclare(cases: seq<Case>)
    requires |cases| == 6 && forall i :: 0 <= i < 6 ==> !cases[i].body.TreeNode?
    ensures Declared(cases) ==
      Idents(cases[0].body.bindings) + Idents(cases[1].body.bindings) + Idents(cases[2].body.bindings) +
      Idents(cases[3].body.bindings) + Idents(cases[4].body.bindings) + Idents(cases[5].body.bindings)
  {
    assert cases[..0] == [];
    DeclaredStep(cases, 0);
    DeclaredStep(cases, 1);
    DeclaredStep(cases, 2);
    DeclaredStep(cases, 3);
    DeclaredStep(cases, 4);
    DeclaredStep(cases, 5);
    assert cases[..6] == cases;
  }

  lemma CompilerTableDeclares(cases: seq<Case>)
    requires cases == CompilerStacked || cases == CompilerInput
    ensures Declared(cases) == ["blockcomment_arg1", "Ccomment_arg1", "booleancomment_arg1", "booleancomment_arg2",
                                "reportercomment_arg1", "reportercomment_arg2"]
  {
    SixCasesDeclare(cases);
  }

  /** The hooks `cst_patch(JSGP, ...)` installs on the compiler's prototype. */
  const CompilerHooks: seq<(string, seq<Case>)> := [("descendStackedBlock", CompilerStacked), ("descendInput", CompilerInput)]

  /** The hooks `cst_patch(STGP, ...)` installs on the script-tree builder's prototype. */
  const TreeHooks: seq<(string, seq<Case>)> := [("descendStackedBlock", TreeStackedTable), ("descendInput", TreeInputTable)]

  /**
   * Patching a prototype whose hook `name` is the host function `original`: afterwards, a call of that
   * hook with one of the table's keys runs the table's case and does not reach the host; any other key
   * reaches the host function unchanged. A second patch changes nothing.
   */
  lemma PatchedHookDispatch(s: HostState, hooks: seq<(string, seq<Case>)>, k: nat, original: string, key: string)
    requires hooks == CompilerHooks || hooks == TreeHooks
    requires k < 2 && Get(s.fields, hooks[k].0) == Native(original)
    requires !IsTruthy(Get(s.fields, PatchesId))
    ensures var r := Patch(s, PatchesId, hooks);
      && Patch(r, PatchesId, hooks) == r
      && (key !in Keys(hooks[k].1) ==> Call(Get(r.fields, hooks[k].0), key) == Outcome.Returns(Delegated([], original)))
      && (forall i :: 0 <= i < |hooks[k].1| && hooks[k].1[i].key == key ==>
            var e := Effect(hooks[k].1[i].body);
            Call(Get(r.fields, hooks[k].0), key) == Outcome.Returns(Handled(e.steps, e.exit)))
  {
    assert DistinctNames(hooks) && hooks[k].0 != PatchesId;
    HandTablesWellFormed(hooks[k].1);
    PatchedHostHook(s, PatchesId, hooks, k, original, key);
    PatchIdempotent(s, PatchesId, hooks, hooks);
  }

  /**
   * The two stacked-block cases the generator emits, as written, for the blocks whose mapped type is
   * neither COMMAND nor CONDITIONAL: the bindings and no statement, so no `return`.
   */
  const BooleancommentGenerated: Case := Case(CompilerKey("booleancomment"), Emit(
    [Binding("booleancomment_arg1", "boolean", AsBoolean), Binding("booleancomment_arg2", "comment", AsString)], None))
  const ReportercommentGenerated: Case := Case(CompilerKey("reportercomment"), Emit(
    [Binding("reportercomment_arg1", "reporter", AsString), Binding("reportercomment_arg2", "comment", AsString)], None))

  /**
   * The stacked-block switch the generator's stacked-block pass, as written, emits for this extension's
   * blocks in processed form, that is once the passes read processed blocks (generator.js:267-271). Fed
   * the raw blocks, as `generateExtension` does, this configuration's six arguments would all be declared
   * as `undefined`, and the module would not load.
   */
  const GeneratedCompilerStacked: seq<Case> := [BlockcommentStacked, CcommentStacked, BooleancommentGenerated,
                                                ReportercommentGenerated, OpenCommentStacked, CloseCommentStacked]

  /*
   * The extension's six blocks as its descriptor shows them after processing: mapped block types,
   * rewritten code, `func: "err"`, and the `<opcode>_arg<n>` ids. The mapped STRING and BOOLEAN argument
   * types are parameters, so that the proofs below only need the accessor each one selects.
   */

  function BlockcommentBlock(str: string): Block
  {
    Block(Some("blockcomment"), Some(BlockTypes["COMMAND"]), Some("// [comment]"), Some("// ${blockcomment_arg1}"),
      None, false, Some([Arg("comment", Some(str), Some("blockcomment_arg1"))]), Some("err"))
  }

  function CcommentBlock(str: string): Block
  {
    Block(Some("Ccomment"), Some(BlockTypes["CONDITIONAL"]), Some("// [comment]"), Some("true"),
      Some("BOOLEAN"), false, Some([Arg("comment", Some(str), Some("Ccomment_arg1"))]), Some("err"))
  }

  function BooleancommentBlock(str: string, boolean: string): Block
  {
    Block(Some("booleancomment"), Some(BlockTypes["BOOLEAN"]), Some("[boolean] // [comment]"), Some("${booleancomment_arg1}"),
      Some("BOOLEAN"), false,
      Some([Arg("boolean", Some(boolean), Some("booleancomment_arg1")), Arg("comment", Some(str), Some("booleancomment_arg2"))]),
      Some("err"))
  }

  function ReportercommentBlock(str: string): Block
  {
    Block(Some("reportercomment"), Some(BlockTypes["REPORTER"]), Some("[reporter] // [comment]"), Some("${reportercomment_arg1}"),
      Some("STRING"), true,
      Some([Arg("reporter", Some(str), Some("reportercomment_arg1")), Arg("comment", Some(str), Some("reportercomment_arg2"))]),
      Some("err"))
  }

  const OpenCommentBlock: Block :=
    Block(Some("openMutlilineComment"), Some(BlockTypes["COMMAND"]), Some("Open Mutliline Comment"), Some("/*"),
      None, false, None, Some("err"))

  const CloseCommentBlock: Block :=
    Block(Some("closeMultilineComment"), Some(BlockTypes["COMMAND"]), Some("Close Multiline Comment"), Some("*/"),
      None, false, None, Some("err"))

  /** The two single-line comment blocks that run as statements. */
  function CommentPair(str: string): seq<Item>
  {
    [Obj(BlockcommentBlock(str)), Obj(CcommentBlock(str))]
  }

  /** The two comment blocks that pass a value through. */
  function ValuePair(str: string, boolean: string): seq<Item>
  {
    [Obj(BooleancommentBlock(str, boolean)), Obj(ReportercommentBlock(str))]
  }

  /** The two multi-line comment markers. */
  const MarkerPair: seq<Item> := [Obj(OpenCommentBlock), Obj(CloseCommentBlock)]

  /** The `blocks` array the passes read: labels as bare strings, which every pass skips, and the six blocks. */
  function PassItemsOf(str: string, boolean: string): seq<Item>
  {
    [Str("Single line comment")] + CommentPair(str) + ValuePair(str, boolean) +
    [Str("---"), Str("Multi line comment")] + MarkerPair
  }

  /** The generator's labels, written from literals, agree with this file's `Id`-based ones. */
  lemma LabelsAgree(opcode: string)
    ensures Key(Id, Some(opcode)) == CompilerKey(opcode)
    ensures "mistiumComments." + Interpolate(Some(opcode)) == CompilerKey(opcode)
    ensures TreeKey(Some(opcode)) == TreeOpcode(opcode)
  {
    assert Id + "." == "mistiumComments.";
    assert Id + "_" == "mistiumComments_";
  }

  /** The statement test on one of the four mapped block types this extension uses. */
  lemma MappedStatementType(t: string)
    requires t == "COMMAND" || t == "CONDITIONAL" || t == "BOOLEAN" || t == "REPORTER"
    ensures IsStatementType(Some(BlockTypes[t])) == Outcome.Returns(t == "COMMAND" || t == "CONDITIONAL")
  {
    StatementTypesOfBlockTypes();
    assert t in BlockTypes;
  }

  /*
   * Block by block, the generator's passes emit the hand-written cases. The one difference: for the two
   * blocks whose mapped type is neither COMMAND nor CONDITIONAL, the stacked-block pass as written emits
   * no `return`, where the hand-written switch reports the value and returns.
   */

  /** The four blocks with arguments bind them as the hand-written switches do. */
  predicate ArgsBind(str: string, boolean: string)
  {
    && BindingsOf(ArgsOf(BlockcommentBlock(str))) == Outcome.Returns(BlockcommentInput.body.bindings)
    && BindingsOf(ArgsOf(CcommentBlock(str))) == Outcome.Returns(CcommentInput.body.bindings)
    && BindingsOf(ArgsOf(BooleancommentBlock(str, boolean))) == Outcome.Returns(BooleancommentInput.body.bindings)
    && BindingsOf(ArgsOf(ReportercommentBlock(str))) == Outcome.Returns(ReportercommentInput.body.bindings)
  }

  /** A STRING type read with `asString` and a BOOLEAN type read with `asBoolean` give the hand-written bindings. */
  lemma ArgsBindByAccessors(str: string, boolean: string)
    requires AccessorFor(str) == AsString && AccessorFor(boolean) == AsBoolean
    ensures ArgsBind(str, boolean)
  {
    BindingsOfOne("comment", str, "blockcomment_arg1", AsString);
    BindingsOfOne("comment", str, "Ccomment_arg1", AsString);
    BindingsOfTwo("boolean", boolean, "booleancomment_arg1", AsBoolean, "comment", str, "booleancomment_arg2", AsString);
    BindingsOfTwo("reporter", str, "reportercomment_arg1", AsString, "comment", str, "reportercomment_arg2", AsString);
  }

  /** The generator's `visualReport` wrapper spells out the hand-written reporting statements. */
  lemma BooleanReportAgrees()
    ensures Some(VisualReport("${booleancomment_arg1}")) == BooleancommentStacked.body.statement
  {
    assert VisualReport("${booleancomment_arg1}") == "vm.runtime.visualReport(\"${block.id}\", ${booleancomment_arg1})";
  }

  lemma ReporterReportAgrees()
    ensures Some(VisualReport("${reportercomment_arg1}")) == ReportercommentStacked.body.statement
  {
    assert VisualReport("${reportercomment_arg1}") == "vm.runtime.visualReport(\"${block.id}\", ${reportercomment_arg1})";
  }

  lemma BlockcommentInputCase(str: string, boolean: string)
    requires BindingsOf(ArgsOf(BlockcommentBlock(str))) == Outcome.Returns(BlockcommentInput.body.bindings)
    ensures CaseOf(Expression, Id, BlockcommentBlock(str)) == Outcome.Returns(BlockcommentInput)
  {
    LabelsAgree("blockcomment");
  }

  lemma BlockcommentStackedCase(str: string, boolean: string)
    requires BindingsOf(ArgsOf(BlockcommentBlock(str))) == Outcome.Returns(BlockcommentInput.body.bindings)
    requires IsStatementType(BlockcommentBlock(str).blockType) == Outcome.Returns(true)
    ensures CaseOf(ReportingStatement, Id, BlockcommentBlock(str)) == Outcome.Returns(BlockcommentStacked)
    ensures CaseOf(Statement, Id, BlockcommentBlock(str)) == Outcome.Returns(BlockcommentStacked)
  {
    StackedCaseShape(Id, BlockcommentBlock(str), BlockcommentInput.body.bindings, true);
    LabelsAgree("blockcomment");
  }

  lemma CcommentInputCase(str: string, boolean: string)
    requires BindingsOf(ArgsOf(CcommentBlock(str))) == Outcome.Returns(CcommentInput.body.bindings)
    ensures CaseOf(Expression, Id, CcommentBlock(str)) == Outcome.Returns(CcommentInput)
  {
    LabelsAgree("Ccomment");
  }

  lemma CcommentStackedCase(str: string, boolean: string)
    requires BindingsOf(ArgsOf(CcommentBlock(str))) == Outcome.Returns(CcommentInput.body.bindings)
    requires IsStatementType(CcommentBlock(str).blockType) == Outcome.Returns(true)
    ensures CaseOf(ReportingStatement, Id, CcommentBlock(str)) == Outcome.Returns(CcommentStacked)
    ensures CaseOf(Statement, Id, CcommentBlock(str)) == Outcome.Returns(CcommentStacked)
  {
    StackedCaseShape(Id, CcommentBlock(str), CcommentInput.body.bindings, true);
    LabelsAgree("Ccomment");
  }

  lemma BooleancommentInputCase(str: string, boolean: string)
    requires BindingsOf(ArgsOf(BooleancommentBlock(str, boolean))) == Outcome.Returns(BooleancommentInput.body.bindings)
    ensures CaseOf(Expression, Id, BooleancommentBlock(str, boolean)) == Outcome.Returns(BooleancommentInput)
  {
    LabelsAgree("booleancomment");
  }

  lemma BooleancommentStackedCase(str: string, boolean: string)
    requires BindingsOf(ArgsOf(BooleancommentBlock(str, boolean))) == Outcome.Returns(BooleancommentInput.body.bindings)
    requires IsStatementType(BooleancommentBlock(str, boolean).blockType) == Outcome.Returns(false)
    ensures CaseOf(ReportingStatement, Id, BooleancommentBlock(str, boolean)) == Outcome.Returns(BooleancommentStacked)
    ensures CaseOf(Statement, Id, BooleancommentBlock(str, boolean)) == Outcome.Returns(BooleancommentGenerated)
  {
    StackedCaseShape(Id, BooleancommentBlock(str, boolean), BooleancommentInput.body.bindings, false);
    BooleanReportAgrees();
    LabelsAgree("booleancomment");
  }

  lemma ReportercommentInputCase(str: string, boolean: string)
    requires BindingsOf(ArgsOf(ReportercommentBlock(str))) == Outcome.Returns(ReportercommentInput.body.bindings)
    ensures CaseOf(Expression, Id, ReportercommentBlock(str)) == Outcome.Returns(ReportercommentInput)
  {
    LabelsAgree("reportercomment");
  }

  lemma ReportercommentStackedCase(str: string, boolean: string)
    requires BindingsOf(ArgsOf(ReportercommentBlock(str))) == Outcome.Returns(ReportercommentInput.body.bindings)
    requires IsStatementType(ReportercommentBlock(str).blockType) == Outcome.Returns(false)
    ensures CaseOf(ReportingStatement, Id, ReportercommentBlock(str)) == Outcome.Returns(ReportercommentStacked)
    ensures CaseOf(Statement, Id, ReportercommentBlock(str)) == Outcome.Returns(ReportercommentGenerated)
  {
    StackedCaseShape(Id, ReportercommentBlock(str), ReportercommentInput.body.bindings, false);
    ReporterReportAgrees();
    LabelsAgree("reportercomment");
  }

  lemma CommentMarkersCompiled()
    ensures CaseOf(Expression, Id, OpenCommentBlock) == Outcome.Returns(OpenCommentInput)
    ensures CaseOf(ReportingStatement, Id, OpenCommentBlock) == Outcome.Returns(OpenCommentStacked)
    ensures CaseOf(Statement, Id, OpenCommentBlock) == Outcome.Returns(OpenCommentStacked)
    ensures CaseOf(Expression, Id, CloseCommentBlock) == Outcome.Returns(CloseCommentInput)
    ensures CaseOf(ReportingStatement, Id, CloseCommentBlock) == Outcome.Returns(CloseCommentStacked)
    ensures CaseOf(Statement, Id, CloseCommentBlock) == Outcome.Returns(CloseCommentStacked)
  {
    assert IsStatementType(OpenCommentBlock.blockType) == Outcome.Returns(true) by {
      MappedStatementType("COMMAND");
    }
    LabelsAgree("openMutlilineComment");
    LabelsAgree("closeMultilineComment");
  }

  /** The script-tree cases of the six blocks: the node kind and the input names, whatever the argument types. */
  lemma TreeCasesOfBlocks(str: string, boolean: string)
    ensures CaseOf(TreeStacked, Id, BlockcommentBlock(str)) == Outcome.Returns(BlockcommentNode)
    ensures CaseOf(TreeStacked, Id, CcommentBlock(str)) == Outcome.Returns(CcommentNode)
    ensures CaseOf(TreeStacked, Id, BooleancommentBlock(str, boolean)) == Outcome.Returns(BooleancommentNode)
    ensures CaseOf(TreeStacked, Id, ReportercommentBlock(str)) == Outcome.Returns(ReportercommentNode)
    ensures CaseOf(TreeStacked, Id, OpenCommentBlock) == Outcome.Returns(OpenCommentNode)
    ensures CaseOf(TreeStacked, Id, CloseCommentBlock) == Outcome.Returns(CloseCommentNode)
  {
    LabelsAgree("blockcomment");
    LabelsAgree("Ccomment");
    LabelsAgree("booleancomment");
    LabelsAgree("reportercomment");
    LabelsAgree("openMutlilineComment");
    LabelsAgree("closeMultilineComment");
    NamesOne(ArgsOf(BlockcommentBlock(str)), "comment");
    NamesOne(ArgsOf(CcommentBlock(str)), "comment");
    NamesTwo(ArgsOf(BooleancommentBlock(str, boolean)), "boolean", "comment");
    NamesTwo(ArgsOf(ReportercommentBlock(str)), "reporter", "comment");
  }

  lemma NamesOne(args: seq<Arg>, name: string)
    requires |args| == 1 && args[0].name == name
    ensures ArgNames(args) == [name]
  {
  }

  lemma NamesTwo(args: seq<Arg>, name1: string, name2: string)
    requires |args| == 2 && args[0].name == name1 && args[1].name == name2
    ensures ArgNames(args) == [name1, name2]
  {
  }

  /** The script-tree builder's input pass labels and builds what its stacked pass does. */
  lemma TreeInputMatchesStacked(b: Block)
    ensures CaseOf(TreeInput, Id, b) == CaseOf(TreeStacked, Id, b)
  {
    assert Id + "." == "mistiumComments.";
  }

  /** The statement test on the six blocks' mapped types. */
  lemma BlockStatementTypes(str: string, boolean: string)
    ensures IsStatementType(BlockcommentBlock(str).blockType) == Outcome.Returns(true)
    ensures IsStatementType(CcommentBlock(str).blockType) == Outcome.Returns(true)
    ensures IsStatementType(BooleancommentBlock(str, boolean).blockType) == Outcome.Returns(false)
    ensures IsStatementType(ReportercommentBlock(str).blockType) == Outcome.Returns(false)
  {
    MappedStatementType("COMMAND");
    MappedStatementType("CONDITIONAL");
    MappedStatementType("BOOLEAN");
    MappedStatementType("REPORTER");
  }

  /** Two blocks whose cases are known: the pass emits those two cases, in order. */
  lemma TwoCases(pass: Pass, extId: string, b0: Block, b1: Block, c0: Case, c1: Case)
    requires CaseOf(pass, extId, b0) == Outcome.Returns(c0) && CaseOf(pass, extId, b1) == Outcome.Returns(c1)
    ensures CasesOf(pass, extId, [Obj(b0), Obj(b1)]) == Outcome.Returns([c0, c1])
  {
    CasesOfBlock(pass, extId, b0, c0);
    CasesOfBlock(pass, extId, b1, c1);
    CasesAppend(pass, extId, [Obj(b0)], [Obj(b1)]);
    assert [Obj(b0)] + [Obj(b1)] == [Obj(b0), Obj(b1)];
    assert [c0] + [c1] == [c0, c1];
  }

  /** The layout of the `blocks` array: headings contribute nothing, and the three pairs their cases in order. */
  lemma LayoutCases(pass: Pass, extId: string, h1: string, h2: string, h3: string, p1: seq<Item>, p2: seq<Item>, p3: seq<Item>,
                    c0: Case, c1: Case, c2: Case, c3: Case, c4: Case, c5: Case)
    requires CasesOf(pass, extId, p1) == Outcome.Returns([c0, c1])
    requires CasesOf(pass, extId, p2) == Outcome.Returns([c2, c3])
    requires CasesOf(pass, extId, p3) == Outcome.Returns([c4, c5])
    ensures CasesOf(pass, extId, [Str(h1)] + p1 + p2 + [Str(h2), Str(h3)] + p3) == Outcome.Returns([c0, c1, c2, c3, c4, c5])
  {
    var front := [Str(h1)] + p1;
    assert CasesOf(pass, extId, front) == Outcome.Returns([c0, c1]) by {
      CasesOfHeading(pass, extId, h1);
      CasesAppend(pass, extId, [Str(h1)], p1);
      assert [] + [c0, c1] == [c0, c1];
    }
    var values := front + p2;
    assert CasesOf(pass, extId, values) == Outcome.Returns([c0, c1, c2, c3]) by {
      CasesAppend(pass, extId, front, p2);
      assert [c0, c1] + [c2, c3] == [c0, c1, c2, c3];
    }
    var headings := [Str(h2), Str(h3)];
    assert CasesOf(pass, extId, headings) == Outcome.Returns([]) by {
      CasesOfHeading(pass, extId, h2);
      CasesOfHeading(pass, extId, h3);
      CasesAppend(pass, extId, [Str(h2)], [Str(h3)]);
      assert [Str(h2)] + [Str(h3)] == headings;
    }
    var back := values + headings;
    assert CasesOf(pass, extId, back) == Outcome.Returns([c0, c1, c2, c3]) by {
      CasesAppend(pass, extId, values, headings);
      assert [c0, c1, c2, c3] + [] == [c0, c1, c2, c3];
    }
    CasesAppend(pass, extId, back, p3);
    assert [c0, c1, c2, c3] + [c4, c5] == [c0, c1, c2, c3, c4, c5];
  }

  /** A pass over this extension's `blocks` array emits the cases of its three pairs of blocks, in order. */
  lemma PassLayout(pass: Pass, str: string, boolean: string, c0: Case, c1: Case, c2: Case, c3: Case, c4: Case, c5: Case)
    requires CasesOf(pass, Id, CommentPair(str)) == Outcome.Returns([c0, c1])
    requires CasesOf(pass, Id, ValuePair(str, boolean)) == Outcome.Returns([c2, c3])
    requires CasesOf(pass, Id, MarkerPair) == Outcome.Returns([c4, c5])
    ensures CasesOf(pass, Id, PassItemsOf(str, boolean)) == Outcome.Returns([c0, c1, c2, c3, c4, c5])
  {
    LayoutCases(pass, Id, "Single line comment", "---", "Multi line comment",
                CommentPair(str), ValuePair(str, boolean), MarkerPair, c0, c1, c2, c3, c4, c5);
  }

  /** Each pass over the two single-line comment blocks emits their two cases. */
  lemma CommentPairInput(str: string, boolean: string)
    requires BindingsOf(ArgsOf(BlockcommentBlock(str))) == Outcome.Returns(BlockcommentInput.body.bindings)
    requires BindingsOf(ArgsOf(CcommentBlock(str))) == Outcome.Returns(CcommentInput.body.bindings)
    ensures CasesOf(Expression, Id, CommentPair(str)) == Outcome.Returns([BlockcommentInput, CcommentInput])
  {
    BlockcommentInputCase(str, boolean);
    CcommentInputCase(str, boolean);
    TwoCases(Expression, Id, BlockcommentBlock(str), CcommentBlock(str), BlockcommentInput, CcommentInput);
  }

  lemma CommentPairStacked(str: string, boolean: string)
    requires BindingsOf(ArgsOf(BlockcommentBlock(str))) == Outcome.Returns(BlockcommentInput.body.bindings)
    requires BindingsOf(ArgsOf(CcommentBlock(str))) == Outcome.Returns(CcommentInput.body.bindings)
    ensures CasesOf(ReportingStatement, Id, CommentPair(str)) == Outcome.Returns([BlockcommentStacked, CcommentStacked])
    ensures CasesOf(Statement, Id, CommentPair(str)) == Outcome.Returns([BlockcommentStacked, CcommentStacked])
  {
    BlockStatementTypes(str, boolean);
    BlockcommentStackedCase(str, boolean);
    CcommentStackedCase(str, boolean);
    TwoCases(ReportingStatement, Id, BlockcommentBlock(str), CcommentBlock(str), BlockcommentStacked, CcommentStacked);
    TwoCases(Statement, Id, BlockcommentBlock(str), CcommentBlock(str), BlockcommentStacked, CcommentStacked);
  }

  /** Each pass over the two value-passing comment blocks emits their two cases. */
  lemma ValuePairInput(str: string, boolean: string)
    requires BindingsOf(ArgsOf(BooleancommentBlock(str, boolean))) == Outcome.Returns(BooleancommentInput.body.bindings)
    requires BindingsOf(ArgsOf(ReportercommentBlock(str))) == Outcome.Returns(ReportercommentInput.body.bindings)
    ensures CasesOf(Expression, Id, ValuePair(str, boolean)) == Outcome.Returns([BooleancommentInput, ReportercommentInput])
  {
    BooleancommentInputCase(str, boolean);
    ReportercommentInputCase(str, boolean);
    TwoCases(Expression, Id, BooleancommentBlock(str, boolean), ReportercommentBlock(str), BooleancommentInput, ReportercommentInput);
  }

  lemma ValuePairStacked(str: string, boolean: string)
    requires BindingsOf(ArgsOf(BooleancommentBlock(str, boolean))) == Outcome.Returns(BooleancommentInput.body.bindings)
    requires BindingsOf(ArgsOf(ReportercommentBlock(str))) == Outcome.Returns(ReportercommentInput.body.bindings)
    ensures CasesOf(ReportingStatement, Id, ValuePair(str, boolean)) == Outcome.Returns([BooleancommentStacked, ReportercommentStacked])
    ensures CasesOf(Statement, Id, ValuePair(str, boolean)) == Outcome.Returns([BooleancommentGenerated, ReportercommentGenerated])
  {
    BlockStatementTypes(str, boolean);
    BooleancommentStackedCase(str, boolean);
    ReportercommentStackedCase(str, boolean);
    TwoCases(ReportingStatement, Id, BooleancommentBlock(str, boolean), ReportercommentBlock(str), BooleancommentStacked, ReportercommentStacked);
    TwoCases(Statement, Id, BooleancommentBlock(str, boolean), ReportercommentBlock(str), BooleancommentGenerated, ReportercommentGenerated);
  }

  /** Each pass over the two multi-line comment markers emits their two cases. */
  lemma MarkerPairCases()
    ensures CasesOf(Expression, Id, MarkerPair) == Outcome.Returns([OpenCommentInput, CloseCommentInput])
    ensures CasesOf(ReportingStatement, Id, MarkerPair) == Outcome.Returns([OpenCommentStacked, CloseCommentStacked])
    ensures CasesOf(Statement, Id, MarkerPair) == Outcome.Returns([OpenCommentStacked, CloseCommentStacked])
  {
    CommentMarkersCompiled();
    TwoCases(Expression, Id, OpenCommentBlock, CloseCommentBlock, OpenCommentInput, CloseCommentInput);
    TwoCases(ReportingStatement, Id, OpenCommentBlock, CloseCommentBlock, OpenCommentStacked, CloseCommentStacked);
    TwoCases(Statement, Id, OpenCommentBlock, CloseCommentBlock, OpenCommentStacked, CloseCommentStacked);
  }

  /** The generator's `descendInput` pass over this extension's blocks emits the hand-written switch. */
  lemma InputPassReproduces(str: string, boolean: string)
    requires ArgsBind(str, boolean)
    ensures CasesOf(Expression, Id, PassItemsOf(str, boolean)) == Outcome.Returns(CompilerInput)
  {
    CommentPairInput(str, boolean);
    ValuePairInput(str, boolean);
    MarkerPairCases();
    PassLayout(Expression, str, boolean, BlockcommentInput, CcommentInput,
               BooleancommentInput, ReportercommentInput, OpenCommentInput, CloseCommentInput);
  }

  /** The `descendStackedBlock` pass that reports values emits the hand-written compiler switch. */
  lemma ReportingPassReproduces(str: string, boolean: string)
    requires ArgsBind(str, boolean)
    ensures CasesOf(ReportingStatement, Id, PassItemsOf(str, boolean)) == Outcome.Returns(CompilerStacked)
  {
    CommentPairStacked(str, boolean);
    ValuePairStacked(str, boolean);
    MarkerPairCases();
    PassLayout(ReportingStatement, str, boolean, BlockcommentStacked, CcommentStacked,
               BooleancommentStacked, ReportercommentStacked, OpenCommentStacked, CloseCommentStacked);
  }

  /**
   * The `descendStackedBlock` pass as the generator writes it gives the boolean and reporter comments
   * no statement, so their cases fall through to the next one.
   */
  lemma StatementPassFallsThrough(str: string, boolean: string)
    requires ArgsBind(str, boolean)
    ensures CasesOf(Statement, Id, PassItemsOf(str, boolean)) == Outcome.Returns(GeneratedCompilerStacked)
  {
    CommentPairStacked(str, boolean);
    ValuePairStacked(str, boolean);
    MarkerPairCases();
    PassLayout(Statement, str, boolean, BlockcommentStacked, CcommentStacked,
               BooleancommentGenerated, ReportercommentGenerated, OpenCommentStacked, CloseCommentStacked);
  }

  /** Both script-tree passes over this extension's blocks emit the hand-written script-tree switches. */
  lemma TreePassesReproduce(str: string, boolean: string)
    ensures CasesOf(TreeStacked, Id, PassItemsOf(str, boolean)) == Outcome.Returns(TreeStackedTable)
    ensures CasesOf(TreeInput, Id, PassItemsOf(str, boolean)) == Outcome.Returns(TreeInputTable)
  {
    TreeCasesOfBlocks(str, boolean);
    TreeInputMatchesStacked(BlockcommentBlock(str));
    TreeInputMatchesStacked(CcommentBlock(str));
    TreeInputMatchesStacked(BooleancommentBlock(str, boolean));
    TreeInputMatchesStacked(ReportercommentBlock(str));
    TreeInputMatchesStacked(OpenCommentBlock);
    TreeInputMatchesStacked(CloseCommentBlock);
    forall pass | pass == TreeStacked || pass == TreeInput
      ensures CasesOf(pass, Id, PassItemsOf(str, boolean)) == Outcome.Returns(TreeStackedTable)
    {
      TwoCases(pass, Id, BlockcommentBlock(str), CcommentBlock(str), BlockcommentNode, CcommentNode);
      TwoCases(pass, Id, BooleancommentBlock(str, boolean), ReportercommentBlock(str), BooleancommentNode, ReportercommentNode);
      TwoCases(pass, Id, OpenCommentBlock, CloseCommentBlock, OpenCommentNode, CloseCommentNode);
      PassLayout(pass, str, boolean, BlockcommentNode, CcommentNode, BooleancommentNode, ReportercommentNode,
                 OpenCommentNode, CloseCommentNode);
    }
    TreeTablesAgree(CompilerKey("blockcomment"));
  }

  /** Its STRING and BOOLEAN argument types, once mapped, select `asString` and `asBoolean`. */
  lemma MappedAccessors()
    ensures AccessorFor(ArgTypes["STRING"]) == AsString && AccessorFor(ArgTypes["BOOLEAN"]) == AsBoolean
  {
    MappedArgTypesKeepAccessor();
    AccessorOfArgType("STRING");
    AccessorOfArgType("BOOLEAN");
  }

  /**
   * With the argument types the descriptor maps, the generator's passes over this extension's blocks
   * reproduce the three hand-written switches that report values and both script-tree switches.
   */
  lemma GeneratedPassesReproduce()
    ensures var items := PassItemsOf(ArgTypes["STRING"], ArgTypes["BOOLEAN"]);
      && CasesOf(Expression, Id, items) == Outcome.Returns(CompilerInput)
      && CasesOf(ReportingStatement, Id, items) == Outcome.Returns(CompilerStacked)
      && CasesOf(Statement, Id, items) == Outcome.Returns(GeneratedCompilerStacked)
      && CasesOf(TreeStacked, Id, items) == Outcome.Returns(TreeStackedTable)
      && CasesOf(TreeInput, Id, items) == Outcome.Returns(TreeInputTable)
  {
    var str, boolean := ArgTypes["STRING"], ArgTypes["BOOLEAN"];
    MappedAccessors();
    ArgsBindByAccessors(str, boolean);
    InputPassReproduces(str, boolean);
    ReportingPassReproduces(str, boolean);
    StatementPassFallsThrough(str, boolean);
    TreePassesReproduce(str, boolean);
  }

  /** In the generated stacked switch, as in the hand-written one, the value comments are the third and fourth labels. */
  lemma GeneratedValueLabels()
    ensures FirstMatch(GeneratedCompilerStacked, CompilerKey("booleancomment")) == Some(2)
    ensures FirstMatch(GeneratedCompilerStacked, CompilerKey("reportercomment")) == Some(3)
  {
    var cases := GeneratedCompilerStacked;
    var boolKey, reporterKey := CompilerKey("booleancomment"), CompilerKey("reportercomment");
    assert cases[1].key[|Id| + 1] == 'C' && boolKey[|Id| + 1] == 'b' && reporterKey[|Id| + 1] == 'r';
    assert |cases[0].key| != |boolKey| && |cases[0].key| != |reporterKey| && |cases[2].key| != |reporterKey|;
    assert FirstMatch(cases[2..], boolKey) == Some(0);
    assert cases[1..][1..] == cases[2..];
    assert cases[2..][1..] == cases[3..];
    assert FirstMatch(cases[3..], reporterKey) == Some(0);
  }

  /** From the value comments on, the generated switch binds without returning until the comment opener. */
  lemma GeneratedRunsIntoOpener()
    ensures RunFrom(GeneratedCompilerStacked, 3) == Run(Binds(ReportercommentInput.body.bindings) + [Append("/*")], ReturnUndefined)
    ensures RunFrom(GeneratedCompilerStacked, 2) ==
      Run(Binds(BooleancommentInput.body.bindings) + Binds(ReportercommentInput.body.bindings) + [Append("/*")], ReturnUndefined)
  {
    var cases := GeneratedCompilerStacked;
    assert Binds([]) == [];
    assert RunFrom(cases, 4) == Run([Append("/*")], ReturnUndefined);
    var tail := Binds(ReportercommentInput.body.bindings) + [Append("/*")];
    assert RunFrom(cases, 3) == Run(tail, ReturnUndefined);
    assert Binds(BooleancommentInput.body.bindings) + tail ==
      Binds(BooleancommentInput.body.bindings) + Binds(ReportercommentInput.body.bindings) + [Append("/*")];
  }

  /**
   * What the generated `descendStackedBlock` switch does with a value comment. The reporter comment, the
   * one that can be dropped into a stack, does not return: control falls into the multi-line comment
   * opener, and the compiled script gains a stray comment opener where the hand-written switch reports
   * the value. The boolean comment's case falls into the reporter comment's bindings; a binding step is
   * abstract here, so the list says which steps control enters, not that the reporter binding, which
   * reads an input the boolean comment's node lacks, completes.
   */
  lemma GeneratedStackedFallsThrough()
    ensures Dispatch(GeneratedCompilerStacked, CompilerKey("reportercomment")) ==
      Run(Binds(ReportercommentInput.body.bindings) + [Append("/*")], ReturnUndefined)
    ensures Dispatch(GeneratedCompilerStacked, CompilerKey("booleancomment")) ==
      Run(Binds(BooleancommentInput.body.bindings) + Binds(ReportercommentInput.body.bindings) + [Append("/*")], ReturnUndefined)
  {
    GeneratedValueLabels();
    GeneratedRunsIntoOpener();
  }

  /** The hand-written stacked switch instead binds the value comment's inputs and reports its value. */
  lemma HandReportsValues()
    ensures Dispatch(CompilerStacked, CompilerKey("booleancomment")) ==
      Run(Binds(BooleancommentInput.body.bindings) + [Append(VisualReport("${booleancomment_arg1}"))], ReturnUndefined)
    ensures Dispatch(CompilerStacked, CompilerKey("reportercomment")) ==
      Run(Binds(ReportercommentInput.body.bindings) + [Append(VisualReport("${reportercomment_arg1}"))], ReturnUndefined)
  {
    assert HandTable(CompilerStacked);
    HandDispatch(CompilerStacked, CompilerKey("booleancomment"));
    assert CompilerStacked[2] == BooleancommentStacked;
    BooleanReportAgrees();
    HandDispatch(CompilerStacked, CompilerKey("reportercomment"));
    assert CompilerStacked[3] == ReportercommentStacked;
    ReporterReportAgrees();
  }
}
