/** The slice of the JVM class-file model (ASM's tree API) that the core reads and
    edits: instructions, method identities, try-catch blocks, methods and classes. */
module Bytecode {
  import opened Wrappers

  /** Opcode values as the JVM specification numbers them (ASM's `Opcodes`). */
  const ALOAD: int := 25
  const ARETURN: int := 176
  const ATHROW: int := 191
  const INVOKESTATIC: int := 184
  /** Pseudo-nodes (labels, line numbers, frames) carry opcode -1 in ASM. */
  const PSEUDO: int := -1

  /** Identity of a method by value: owner's internal name, method name, descriptor. */
  datatype MethodRef = MethodRef(owner: string, name: string, desc: string)

  /** One node of a method's instruction list. Every node, pseudo-nodes included,
      occupies one position. A method invocation carries its target triple. */
  datatype Insn =
    | Plain(opcode: int)
    | MethodInsn(opcode: int, owner: string, name: string, desc: string)

  /** The identity of the method an invocation node calls. */
  function CallTarget(i: Insn): MethodRef
    requires i.MethodInsn?
  {
    MethodRef(i.owner, i.name, i.desc)
  }

  /** A try-catch block; start, end and handler are positions in the owning
      method's instruction list (the handler is its label node). */
  datatype TryCatchBlock = TryCatchBlock(start: nat, end: nat, handler: nat, exceptionType: Option<string>)

  datatype MethodNode = MethodNode(
    name: string,
    desc: string,
    instructions: seq<Insn>,
    tryCatchBlocks: seq<TryCatchBlock>)

  /** A loaded class: its internal name, the path it had in the input archive,
      and its methods in declaration order. */
  datatype ClassNode = ClassNode(name: string, pathInJar: string, methods: seq<MethodNode>)

  /** The identity of a method declared by the class named `owner`. */
  function RefOf(owner: string, m: MethodNode): MethodRef {
    MethodRef(owner, m.name, m.desc)
  }

  /** Two methods share an identity exactly when their owners, names and
      descriptors agree, whatever their bodies and try-catch blocks. */
  lemma RefOfIdentity(o1: string, m1: MethodNode, o2: string, m2: MethodNode)
    ensures RefOf(o1, m1) == RefOf(o2, m2) <==> o1 == o2 && m1.name == m2.name && m1.desc == m2.desc
  {
  }

  /** A call names a method exactly when it carries that method's owner, name
      and descriptor. */
  lemma CallTargetIsRefOf(i: Insn, owner: string, m: MethodNode)
    requires i.MethodInsn?
    ensures CallTarget(i) == RefOf(owner, m) <==> i.owner == owner && i.name == m.name && i.desc == m.desc
  {
  }

  /** The mutable handle a transformer edits in place: the class's method list
      is replaced as methods or their try-catch blocks are removed. */
  class ClassWrapper {
    const name: string
    const pathInJar: string
    var methods: seq<MethodNode>

    constructor (node: ClassNode)
      ensures Node() == node
    {
      name := node.name;
      pathInJar := node.pathInJar;
      methods := node.methods;
    }

    /** The class as a value, as it would be serialized now. */
    function Node(): (c: ClassNode)
      reads this
      ensures c.name == name && c.pathInJar == pathInJar && c.methods == methods
    {
      ClassNode(name, pathInJar, methods)
    }
  }
}
