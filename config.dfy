/**
 * The generator's input and the descriptor entries it produces, both as JavaScript objects.
 * The generator reads and writes blocks by field name and never checks their shape, so one record
 * serves for a block of the configuration and for a processed descriptor entry; an absent field
 * (`undefined`) is `None`.
 */
module Config {
  import opened JsStrings

  /** One entry of a block's `arguments` object: its key, and the `type` and `gen_id` fields of its value. */
  datatype Arg = Arg(name: string, argType: Option<string>, genId: Option<string>)

  datatype Block = Block(
    opcode: Option<string>,
    blockType: Option<string>,
    text: Option<string>,
    code: Option<string>,
    returnKind: Option<string>,  // the `returns` field
    allowDropAnywhere: bool,
    arguments: Option<seq<Arg>>,  // the keys of the `arguments` object, in `for...in` order
    func: Option<string>)

  /** An element of the `blocks` array: a bare string, or an object. */
  datatype Item = Str(s: string) | Obj(block: Block)

  /** The `extension` object of the configuration. */
  datatype Extension = Extension(id: string, name: string, color1: string, comment: Option<string>)

  /**
   * The `TypeError`s the model can raise: "Cannot read properties of undefined (reading '<property>')",
   * and "<name> is not a function".
   */
  datatype TypeError = CannotRead(property: string) | NotAFunction(name: string)

  /** How a call ends: with a value, or by throwing. */
  datatype Outcome<+T> = Returns(value: T) | Throws(error: TypeError)

  /** The constructor's `blockTypeMap`. */
  const BlockTypes: map<string, string> := map[
    "COMMAND" := "Scratch.BlockType.COMMAND",
    "REPORTER" := "Scratch.BlockType.REPORTER",
    "BOOLEAN" := "Scratch.BlockType.BOOLEAN",
    "CONDITIONAL" := "Scratch.BlockType.CONDITIONAL",
    "LABEL" := "Scratch.BlockType.LABEL"]

  /** The constructor's `argTypeMap`. */
  const ArgTypes: map<string, string> := map[
    "STRING" := "Scratch.ArgumentType.STRING",
    "BOOLEAN" := "Scratch.ArgumentType.BOOLEAN",
    "NUMBER" := "Scratch.ArgumentType.NUMBER",
    "COLOR" := "Scratch.ArgumentType.COLOR",
    "ANGLE" := "Scratch.ArgumentType.ANGLE"]

  /** `table[key]`: a key the table does not hold, or an absent key, reads as `undefined`. */
  function Lookup(table: map<string, string>, key: Option<string>): (r: Option<string>)
    ensures r.Some? <==> key.Some? && key.value in table
    ensures r.Some? ==> r.value == table[key.value]
  {
    if key.Some? && key.value in table then Some(table[key.value]) else None
  }

  /** The declared arguments of a block; an absent `arguments` object declares none. */
  function ArgsOf(b: Block): seq<Arg>
  {
    if b.arguments.Some? then b.arguments.value else []
  }

  function ArgNames(args: seq<Arg>): (names: seq<string>)
    ensures |names| == |args|
    ensures forall i :: 0 <= i < |args| ==> names[i] == args[i].name
  {
    seq(|args|, i requires 0 <= i < |args| => args[i].name)
  }

  /** The object blocks of a `blocks` array, in order: the ones the fragment passes do not skip. */
  function Operations(items: seq<Item>): (ops: seq<Block>)
    ensures |ops| <= |items|
    ensures forall b :: b in ops <==> Obj(b) in items
    ensures (forall i :: 0 <= i < |items| ==> items[i].Str?) ==> ops == []
  {
    if items == [] then []
    else
      var last := items[|items| - 1];
      assert items == items[..|items| - 1] + [last];
      Operations(items[..|items| - 1]) + (if last.Obj? then [last.block] else [])
  }

  /** Reading one more element of `blocks` adds its block, if it is an object. */
  lemma OperationsStep(items: seq<Item>, n: nat)
    requires n < |items|
    ensures Operations(items[..n + 1]) == Operations(items[..n]) + (if items[n].Obj? then [items[n].block] else [])
  {
    assert items[..n + 1][..n] == items[..n];
  }

  /** Reading only the first `n` elements of `blocks` visits a prefix of the object blocks. */
  lemma {:induction false} OperationsPrefix(items: seq<Item>, n: nat)
    requires n <= |items|
    ensures Operations(items[..n]) <= Operations(items)
    decreases |items|
  {
    if n < |items| {
      var front := items[..|items| - 1];
      assert items[..n] == front[..n];
      OperationsPrefix(front, n);
    } else {
      assert items[..n] == items;
    }
  }

  /**
   * The object at position `i` of `blocks` is visited in order: it comes right after the object blocks
   * before it, so the passes see the objects in the order the configuration lists them.
   */
  lemma OperationsOrder(items: seq<Item>, i: nat)
    requires i < |items| && items[i].Obj?
    ensures |Operations(items[..i])| < |Operations(items)|
    ensures Operations(items)[|Operations(items[..i])|] == items[i].block
  {
    OperationsStep(items, i);
    OperationsPrefix(items, i + 1);
  }
}
