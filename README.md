# Scratch extension generator and its comment extension, in Dafny

`ExtensionGenerator` (generator.js) turns a configuration into the source of an unsandboxed Scratch
extension: an extension object with id, name and colour, and an ordered `blocks` list of bare strings
(separators and labels) and block objects. `processBlock` turns each block into a descriptor entry and
gives each argument a random eleven-letter `gen_id`. Four fragment passes write the `case` labels of
the dispatch switches that patch the compiler and the script-tree builder. `generateExtension` puts the
descriptor, the fragments and the `PATCHES_ID` sentinel name into a fixed template.

mistiumComments.js is an extension of this shape. It carries the idempotent hook installer `cst_patch`
and four hand-written dispatch switches, each with a `default` that forwards to the original hook.

The model, module by module:

- `JsStrings`: the string operations the generator uses. These are template interpolation of
  `undefined`, truthiness, `endsWith`, `split('.').pop()`, ASCII `toLowerCase`, `indexOf`, and
  `replace` with a string pattern, which rewrites only the first occurrence.
- `Config`: blocks as JavaScript objects. An absent field is `None`. Arguments are an ordered
  sequence in `for...in` order. `Config` also holds `blockTypeMap` and `argTypeMap`, and the `TypeError`
  outcomes the generator can raise.
- `RandomId`: `generateRandomId` as a loop over eleven injected `Math.random` draws.
- `BlockProcessor`: `processBlock` as a method with its argument loop, and `blocks.map(processBlock)`
  over one flat supply of ids.
- `Switches`: a `switch` as data, with JavaScript semantics. Labels are compared in order. A body
  without `return` falls through into the next case, and the end is `default: return fn(...)`.
- `Fragments`: the four passes. Each block's case is a structured value (`CaseOf`, `CasesOf`), and each
  case is rendered to the exact text the emitters append. The emitter methods are proved to build
  that text, and the error they throw when a field they read is `undefined`.
- `Assembly`: `generateGetInfo`, and `generateExtension` as the places where the configuration reaches
  the template.
- `Patching`: `cst_patch` as a method on a host object whose property map it rewrites in place. Its
  specification is a fold over the hooks, and a call model says what a wrapped hook answers.
- `MistiumComments`: the four hand-written switches, proved well-formed and installed by `cst_patch`.
  This module also has a cross-check: the generator's passes over the extension's own six blocks, in
  processed form, reproduce those switches. The one exception is the stacked-block switch, which the
  generator as written emits differently (Finding 2).

## Model

| member | source | states |
|---|---|---|
| RandomId.GenerateRandomId | generator.js:29-36 | the id has exactly 11 characters, each an ASCII letter, and character `i` is `chars[floor(draw_i * 52)]` |
| RandomId.Pick | generator.js:33 | `Math.floor(Math.random() * chars.length)` is always a valid index into the 52-letter alphabet |
| RandomId.LettersAreAsciiLetters | generator.js:30 | every character of `chars` is in A-Z or a-z |
| BlockProcessor.ProcessBlock | generator.js:43-94 | the loop over arguments builds exactly `ProcessedItem(block, ids)`: `arguments` gains one mapped entry per argument and `code` is rewritten once per argument |
| BlockProcessor.ProcessedString | generator.js:44-53 | a bare `"---"` comes back unchanged; any other string becomes a LABEL entry whose text is that string |
| BlockProcessor.ProcessedOperation | generator.js:56-91 | an object block keeps opcode and text and gets `func: "err"`. Its block type is mapped, or `undefined` when unknown. `code` defaults to `""`. `returns` is copied only when truthy, and so is `allowDropAnywhere`. There is one argument entry per declared argument, with its name, the next id and the mapped type, or `undefined` when the type is unknown |
| BlockProcessor.ProcessedArgs | generator.js:75-85 | the `arguments` object has one entry per declared argument in order, with its mapped `type` and its own `gen_id` |
| BlockProcessor.EmptyCodeStaysEmpty | generator.js:87-89 | an empty `code` is never rewritten: the truthiness guard skips every argument |
| BlockProcessor.SingleArgumentRewrite | generator.js:86-89 | only the first `[name]` becomes `${id}`: the text around it is kept and later `[name]` occurrences survive |
| JsStrings.ReplaceFirstOnlyFirst | generator.js:88 | `replace` with a string pattern: no occurrence means no change; otherwise only the first occurrence is rewritten and every later one survives, shifted |
| JsStrings.IndexFrom | generator.js:88 | the index found is an occurrence and no earlier position is one |
| JsStrings.LastSegmentIsSuffix | generator.js:115 | `split('.').pop()` is a suffix without `.`, and a `.` precedes it unless it is the whole string |
| JsStrings.LastSegmentAfterSeparator | generator.js:115 | the last segment of `prefix.tail` is `tail` |
| Config.Operations | generator.js:105-106 | the passes visit exactly the object items: a block is visited if and only if it appears as an object in `blocks`, and bare strings alone give no blocks |
| Config.OperationsPrefix | generator.js:105-106 | the first `n` items visit a prefix of the object blocks that all items visit |
| Config.OperationsOrder | generator.js:105-106 | the object at position `i` is visited right after the object blocks before it, so the passes see the blocks in configuration order |
| BlockProcessor.ProcessAll | generator.js:247 | `blocks.map(processBlock)` has one entry per block |
| BlockProcessor.ProcessAllAt | generator.js:247 | entry `i` of the descriptor is block `i` processed with the ids drawn for it, in order |
| Assembly.GenerateGetInfo | generator.js:246-258 | the loop drawing ids block by block builds `GetInfo`, which has the extension's id, name and colour and the processed blocks |
| Assembly.GetInfoEntries | generator.js:246-258 | the descriptor keeps id, name and colour and has exactly one entry per input block, in input order |
| Fragments.BindingsOf | generator.js:112-123 | one binding per argument in order; the pass throws exactly when some argument has no `type` (reading `split` of `undefined`) |
| Fragments.BindingLines | generator.js:112-123 | the inner `for...in` loop appends exactly the rendered binding lines, or throws the same error |
| Fragments.InputLines | generator.js:195-199 | the inner loop appends one `descendInputOfBlock` field line per argument, in declaration order |
| Fragments.JSGPCase | generator.js:108-131 | the `forEach` callback of `generateJSGPCode` builds exactly the rendered stacked-block case, or throws |
| Fragments.GenerateJSGPCode | generator.js:102-135 | `generateJSGPCode` returns the rendered stacked-block cases of all object blocks, or the first error |
| Fragments.InputHandlerCase | generator.js:149-172 | the callback of `generateInputHandlerCode` builds exactly the rendered reporter case, or throws |
| Fragments.GenerateInputHandlerCode | generator.js:143-176 | `generateInputHandlerCode` returns the rendered reporter cases of all object blocks, or the first error |
| Fragments.STGPCase | generator.js:190-203 | the callback of `generateSTGPCode` builds exactly the rendered tree-node case |
| Fragments.GenerateSTGPCode | generator.js:184-207 | `generateSTGPCode` returns the rendered tree-node cases and never throws |
| Fragments.STGPInputCase | generator.js:221-234 | the callback of `generateSTGPInputHandlerCode` builds exactly the rendered tree-node case |
| Fragments.GenerateSTGPInputHandlerCode | generator.js:215-238 | `generateSTGPInputHandlerCode` returns the rendered tree-node cases and never throws |
| Fragments.FragmentStep | generator.js:105-132 | one `forEach` turn: a string adds nothing; a block adds its case text, or its error aborts the whole pass |
| Fragments.CasesOfPrefixThrows | generator.js:105-132 | once a block's case throws, the pass throws that same error |
| Fragments.CasesOfOperations | generator.js:105-132 | a pass emits exactly one case per object block, in input order, skipping bare strings, and completes exactly when no block's case throws |
| Fragments.StatementCaseShape | generator.js:108-129 | the key is `'<extension.id>.<opcode>'`, with one binding per argument in order. The statement and `return` are present exactly when the block type ends in COMMAND or CONDITIONAL, and the statement is the block's code. It throws exactly when `blockType` or an argument `type` is missing |
| Fragments.ReturnExactlyWithStatement | generator.js:125-129 | the rendered stacked-block case ends in `return;` exactly when it has a statement |
| Fragments.ExpressionCaseShape | generator.js:150-170 | same key and bindings, then `TypedInput` of the code, tagged TYPE_STRING for STRING and TYPE_BOOLEAN for BOOLEAN. Anything else gets TYPE_UNKNOWN, NUMBER and absent included. Only a missing argument `type` throws |
| Fragments.TreeCasesAgree | generator.js:191-228 | both tree passes label `'mistiumComments_<opcode>'` whatever the id and list the same argument fields in order. Their kinds are `mistiumComments.<opcode>` and `<extension.id>.<opcode>`, equal exactly when the id is `mistiumComments` |
| Fragments.AccessorIgnoresNamespace | generator.js:115 | only the text after the last `.` decides the accessor |
| Fragments.AccessorOfArgType | generator.js:115-119 | NUMBER reads `asNumber`, BOOLEAN `asBoolean`, and STRING, COLOR and ANGLE `asString` |
| Fragments.PlainAccessor | generator.js:115-119 | for a dot-free type, the lower-cased name alone picks the accessor, `asString` by default |
| Fragments.MappedArgTypesKeepAccessor | generator.js:16-22 | mapping an argument type through `argTypeMap` does not change its accessor |
| Fragments.StatementTypesOfBlockTypes | generator.js:8-14 | raw and mapped block types agree on being a statement: COMMAND and CONDITIONAL are, REPORTER, BOOLEAN and LABEL are not. An unknown type maps to `undefined`, on which `endsWith` throws |
| Fragments.ReportingCaseOf | generator.js:125-129 | the corrected stacked-block case: it throws exactly when the original does, keeps statement cases, and otherwise reports the code's value and returns |
| Fragments.ReportingCasesReturn | generator.js:125-129 | in the corrected pass every case returns: none falls through |
| Assembly.TreePassesComplete | generator.js:184-238 | the two tree passes never throw |
| Assembly.CompilerPassesComplete | generator.js:105-170 | the stacked-block pass completes exactly when every object block has a `blockType` and typed arguments; then the reporter pass completes too |
| Assembly.Assemble | generator.js:273-392 | the module throws exactly when the first pass throws. Otherwise `PATCHES_ID` is `<id>_patches` and the class is named by the id. The header is the comment, and the descriptor and the four fragments sit in their places |
| Assembly.GenerateExtension | generator.js:266-393 | `generateExtension` runs the five parts in order and returns `ExtensionOf`: processed blocks to the descriptor, raw blocks to the passes |
| Assembly.CaseDeclares | generator.js:121 | a compiler case declares one `const` per argument, named by its `gen_id` |
| Assembly.CompilerSwitchDeclares | generator.js:105-132 | a compiler switch declares exactly the `gen_id`s of its blocks' arguments, in order |
| Assembly.RawIdentsUndefined | generator.js:114 | on raw blocks every declared identifier is `undefined` |
| Assembly.AsWrittenRedeclares | generator.js:267-271 | as written, a configuration with two arguments anywhere yields a stacked-block switch that declares `undefined` twice and never loads |
| Assembly.SayHiRedeclares | generator.js:267-271 | a one-block, two-argument configuration already shows it |
| Assembly.ProcessForPasses | generator.js:267-271 | the corrected pass input keeps one item per configured item |
| Assembly.ProcessedBlockDeclares | generator.js:75-85 | a processed block binds exactly the ids drawn for it, and it is complete when its types are known |
| Assembly.ProcessedPassIds | generator.js:267-271 | the processed blocks bind exactly the drawn ids, in order |
| Assembly.ProcessedPassComplete | generator.js:267-271 | with known block and argument types, every processed block can be read by the compiler passes |
| Assembly.FixedDeclaresDrawnIds | generator.js:267-271 | with processed blocks both compiler switches declare exactly the drawn ids; distinct ids make the module load |
| Switches.FirstMatch | mistiumComments.js:186-216 | the case found carries the key and no earlier case does |
| Switches.Dispatch | mistiumComments.js:186-219 | an unlabelled key goes to `default` and forwards; a key whose first case returns runs that case's effect |
| Switches.DispatchUnknown | mistiumComments.js:217-218 | an unrecognised key forwards to the original with no effect of its own |
| Switches.RunReachesNextReturn | generator.js:125-131 | falling through: bodies without `return` contribute their bindings until the next returning case, whose effect ends the run |
| Switches.RunFallsToDefault | generator.js:361-364 | with no returning case left, control reaches `default` and forwards |
| Switches.DispatchReturning | mistiumComments.js:183-252 | in a switch whose cases all return, with distinct labels, a labelled key runs only its own case and never forwards; any other key forwards |
| Switches.Binds | mistiumComments.js:188 | one binding step per binding, in order |
| Patching.HostObject.constructor | mistiumComments.js:33-35 | a prototype starts with its own properties and no sentinel table |
| Patching.HostObject.CstPatch | mistiumComments.js:160-177 | the in-place loop leaves exactly the state `Patch` describes |
| Patching.InstallAllKeepsSentinel | mistiumComments.js:161-176 | once set, the sentinel stays truthy through the loop |
| Patching.PatchIdempotent | mistiumComments.js:161 | after one call the sentinel is truthy, and a second call, with any hooks, changes nothing |
| Patching.InstallAllWraps | mistiumComments.js:163-175 | with distinct names, every listed hook ends up wrapping its value from before the loop |
| Patching.InstallAllFrame | mistiumComments.js:163-176 | properties not named in `functions` keep their values |
| Patching.InstallRecords | mistiumComments.js:165 | one iteration records the hook's current value under its name in the table |
| Patching.InstallAllTableKeys | mistiumComments.js:162-165 | the table gains exactly the hook names |
| Patching.InstallAllTableValues | mistiumComments.js:164-165 | each name records the hook's value from before the loop, and other entries stay |
| Patching.FirstPatch | mistiumComments.js:160-177 | first call: every hook wraps its original value, with a forwarder exactly when that was truthy. The sentinel is set and nothing else changes. The table maps exactly the hook names to their originals |
| Patching.UnknownKeyForwards | mistiumComments.js:167-174 | a key the switch lacks is handed to the original unchanged, or to the no-op forwarder, which answers `undefined` |
| Patching.PrependNothing | mistiumComments.js:168 | forwarding with no steps answers exactly as the original |
| Patching.WrappedHostNeverThrows | mistiumComments.js:167-174 | a wrapper over a host function, or over no function, never throws, whatever the key |
| Patching.WrapsHostNeverThrows | mistiumComments.js:167-174 | a chain of wrappers ending in a host function never throws |
| Patching.KnownKeyHandled | mistiumComments.js:167-170 | a returning case handles the call with its own effect, and the original is not called |
| Patching.PatchedHostHook | mistiumComments.js:159-177 | after the first patch, a hook over a host function answers labelled keys with its case alone and hands every other key to the host function |
| MistiumComments.HandTablesWellFormed | mistiumComments.js:183-352 | every case of the four hand-written switches returns, and no label repeats |
| MistiumComments.HandDispatch | mistiumComments.js:183-352 | each hand-written switch handles its six keys with exactly their case's effect and forwards every other key with no effect |
| MistiumComments.TreeTablesAgree | mistiumComments.js:254-351 | the two script-tree switches build the same node, with the same kind and fields, for every key |
| MistiumComments.CompilerTablesLoad | mistiumComments.js:184-251 | neither compiler switch declares a `const` twice, so the module loads |
| MistiumComments.HandIdentsDistinct | mistiumComments.js:62-125 | the six `<opcode>_arg<n>` ids are distinct |
| MistiumComments.CompilerTableDeclares | mistiumComments.js:184-251 | each compiler switch declares exactly the six argument ids, in order |
| MistiumComments.PatchedHookDispatch | mistiumComments.js:159-352 | after `cst_patch`, each patched hook handles its table's keys itself and hands all others to the host unchanged; patching again changes nothing |
| MistiumComments.LabelsAgree | generator.js:109 | the generator's labels and kinds for this extension are the hand-written ones |
| MistiumComments.MappedStatementType | generator.js:126 | mapped COMMAND and CONDITIONAL are statements, mapped BOOLEAN and REPORTER are not |
| MistiumComments.MappedAccessors | generator.js:115-119 | the mapped STRING type reads `asString`, the mapped BOOLEAN type `asBoolean` |
| MistiumComments.ArgsBindByAccessors | mistiumComments.js:62-125 | with those accessors, the four blocks with arguments bind as the hand-written switches do |
| MistiumComments.BooleanReportAgrees | mistiumComments.js:200 | the hand-written boolean statement is the value report of its first argument |
| MistiumComments.ReporterReportAgrees | mistiumComments.js:206 | the hand-written reporter statement is the value report of its first argument |
| MistiumComments.BlockcommentInputCase | mistiumComments.js:224-226 | the reporter pass emits the hand-written `blockcomment` case |
| MistiumComments.CcommentInputCase | mistiumComments.js:228-230 | the reporter pass emits the hand-written `Ccomment` case |
| MistiumComments.BooleancommentInputCase | mistiumComments.js:232-235 | the reporter pass emits the hand-written `booleancomment` case |
| MistiumComments.ReportercommentInputCase | mistiumComments.js:237-240 | the reporter pass emits the hand-written `reportercomment` case |
| MistiumComments.BlockcommentStackedCase | mistiumComments.js:187-190 | both stacked-block passes emit the hand-written `blockcomment` case |
| MistiumComments.CcommentStackedCase | mistiumComments.js:192-195 | both stacked-block passes emit the hand-written `Ccomment` case |
| MistiumComments.BooleancommentStackedCase | mistiumComments.js:197-201 | the corrected pass emits the hand-written case; the pass as written emits bindings with no `return` |
| MistiumComments.ReportercommentStackedCase | mistiumComments.js:203-207 | the corrected pass emits the hand-written case; the pass as written emits bindings with no `return` |
| MistiumComments.CommentMarkersCompiled | mistiumComments.js:209-246 | all compiler passes emit the hand-written cases of the two multi-line markers |
| MistiumComments.TreeCasesOfBlocks | mistiumComments.js:257-297 | the tree pass emits the hand-written node of each of the six blocks |
| MistiumComments.TreeInputMatchesStacked | generator.js:191-228 | for this extension's id, both tree passes emit the same case |
| MistiumComments.InputPassReproduces | mistiumComments.js:222-251 | the reporter pass over the six blocks emits the hand-written `descendInput` switch |
| MistiumComments.ReportingPassReproduces | mistiumComments.js:184-220 | the corrected stacked-block pass emits the hand-written `descendStackedBlock` switch |
| MistiumComments.StatementPassFallsThrough | generator.js:125-129 | the stacked-block pass as written emits the switch whose boolean and reporter cases have no `return` |
| MistiumComments.TreePassesReproduce | mistiumComments.js:254-351 | both tree passes emit the hand-written script-tree switches |
| MistiumComments.GeneratedPassesReproduce | mistiumComments.js:56-146 | with the mapped argument types of the extension's descriptor, all five passes reproduce their switches as above |
| MistiumComments.GeneratedValueLabels | mistiumComments.js:197-203 | the value comments are the third and fourth labels |
| MistiumComments.GeneratedRunsIntoOpener | generator.js:125-129 | from the value comments, the generated switch binds without returning until the comment opener returns |
| MistiumComments.GeneratedStackedFallsThrough | generator.js:125-129 | over the processed blocks (Finding 1 corrected), the generated switch does not return from a reporter comment: it falls into the opener's case and appends `/*` to the compiled script. A boolean comment falls into the reporter comment's bindings |
| MistiumComments.HandReportsValues | mistiumComments.js:197-207 | the hand-written switch binds the value comment's inputs and reports the value |

## Left out

- `index.js` (command line, files, JSON parsing, console) and `formatter.js` (Prettier) are I/O and foreign code, not part of this model.
- `Math.random` is a parameter: `GenerateRandomId` takes its eleven draws, and every other operation takes the ids drawn as a flat sequence, one per argument in order.
- `JSON.stringify(...).slice(1, -1)` of the descriptor is not modelled; the descriptor is kept as values.
- The template's fixed boilerplate is not modelled. The model keeps only the places the configuration reaches: the header, class name, error message, descriptor, `PATCHES_ID` and the four fragments.
- The host runtime is not modelled: `Scratch`, `vm`, the compiler and tree-builder classes, `TypedInput`, the `asRaw`/`asSafe` prototype patches, the `err` stub and `register`. A hook's host function is an opaque `Native` value, and a switch's effect is the list of bindings and appended statements it performs.
- `this` and the extra `...args` a wrapper passes on are not modelled; the call model follows only the key and where control goes.
- JavaScript `for...in` order is taken as the sequence order of the arguments and hooks.
- RandomId.Pick: a draw is an exact real, and `floor(draw * 52)` is computed exactly. The double rounding of `Math.random() * 52` is not modelled, so a draw just below `k/52` may pick letter `k` in the source and letter `k - 1` here. The set of ids that can be drawn is the same.
- The `extension` object's `id`, `name` and `color1` are plain strings. An absent `name` or `color1`, which the source writes as `undefined` into the template and the descriptor, is not modelled.
- Fields that are not strings (numbers, nested objects in `code`) are not modelled. Every field is an optional string, and `allowDropAnywhere` is a boolean.
- JsStrings.ToLower: lower-cases ASCII only, because the type names it sees are ASCII.
- JsStrings.ReplaceFirst: `$` replacement patterns in the replacement text are not modelled; generated ids are letters, so `${id}` has none of them.
- MistiumComments: the cross-check writes the six blocks in processed form, with the `<opcode>_arg<n>` ids of mistiumComments.js:62-145, rather than deriving them through `ProcessBlock` from random ids.
- Type names are assumed not to be `Object.prototype` property names. For such a name, `blockTypeMap` and `argTypeMap` return an inherited function, not `undefined`. In the source, `JSON.stringify` then drops the field, and the passes throw on `.split`.
- An `arguments` entry that is `null`, and an item that is neither a string nor an object, are not modelled. Both throw in `processBlock` and the passes.
- A binding step (`const x = this.descendInput(node?.field)...`) is abstract and never fails. A case that falls through into another block's bindings reads a field its own node may lack. The hooked `descendInput` then throws on `node.kind` of `undefined`, and the model does not capture that throw.
- A hook named `PATCHES_ID` itself is modelled by `Install`, which writes the table through that property; lemmas about the table assume no hook has that name.

## Findings

| source | as written | input that shows it | evidently intended | confidence | as-written member | corrected member |
|---|---|---|---|---|---|---|
| generator.js:267-271 | The four fragment passes receive the raw `blocks`. Their arguments have no `gen_id`, so every binding is `const undefined = ...` | a block `sayHi` of type COMMAND with arguments `greeting` and `name`, both STRING: the stacked-block switch declares `undefined` twice, an early SyntaxError | the passes read the processed form of each object block, whose `gen_id`s are set, as mistiumComments.js shows; bare strings stay as written, so the passes still skip them | high, not executed | Assembly.SayHiRedeclares | Assembly.FixedDeclaresDrawnIds |
| generator.js:125-129 | a block whose type is neither COMMAND nor CONDITIONAL gets bindings and no `return` in the stacked-block switch, so control falls through into the next case | mistiumComments' `reportercomment` block, which can be dropped into a stack: once the passes read processed blocks (the row above), its case falls through into `openMutlilineComment` and appends `/*` to the compiled script. As written, this configuration already fails to load, because of the row above | such a block reports its value and returns, as the hand-written switch in mistiumComments.js:197-207 does | medium, not executed | MistiumComments.GeneratedStackedFallsThrough | Fragments.ReportingCasesReturn |
