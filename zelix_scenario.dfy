/** The rule on a concrete class: a self-returning helper and a method whose
    handler rethrows through it. */
module ZelixScenario {
  import opened Wrappers
  import opened Bytecode
  import opened ZelixRule

  const Owner: string := "PacketEvents"
  const HelperDesc: string := "(Ljava/lang/Exception;)Ljava/lang/Exception;"
  const RETURN: int := 177

  /** `private static Exception a(Exception e) { return e; }` */
  const Helper: MethodNode := MethodNode("a", HelperDesc, [Plain(ALOAD), Plain(ARETURN)], [])

  /** A body guarded by one block whose handler (label at 2) does
      INVOKESTATIC a; then `tail`. */
  function Guarded(tail: seq<Insn>): MethodNode {
    MethodNode("load", "()V",
      [Plain(PSEUDO), Plain(RETURN), Plain(PSEUDO), MethodInsn(INVOKESTATIC, Owner, "a", HelperDesc)] + tail,
      [TryCatchBlock(0, 1, 2, Some("java/lang/Exception"))])
  }

  /** The block and the helper both go; the guarded body itself is untouched. */
  lemma RethrowThroughHelperRemoved()
    ensures var c := ClassNode(Owner, "PacketEvents.class", [Helper, Guarded([Plain(ATHROW)])]);
            Changed(c) && Rewrite(c) == ClassNode(Owner, "PacketEvents.class", [Guarded([Plain(ATHROW)]).(tryCatchBlocks := [])])
  {
    var g := Guarded([Plain(ATHROW)]);
    var c := ClassNode(Owner, "PacketEvents.class", [Helper, g]);
    var ref := MethodRef(Owner, "a", HelperDesc);
    InstantReturnShape(Helper);
    InstantReturnShape(g);
    assert c.methods[..1] == [Helper];
    assert Candidates(Owner, [Helper]) == [ref];
    assert Candidates(Owner, c.methods) == [ref];
    var b := g.tryCatchBlocks[0];
    assert HandlerTarget(g.instructions, b) == Some(ref);
    assert g.tryCatchBlocks[..0] == [];
    assert Kept(g.instructions, g.tryCatchBlocks, [ref]) == [];
    assert Targets(g.instructions, g.tryCatchBlocks, [ref]) == {ref};
    assert Targets(Helper.instructions, [], [ref]) == {};
    assert [Helper][..0] == [];
    assert AllTargets([Helper], [ref]) == {};
    assert AllTargets(c.methods, [ref]) == {ref};
    var stripped := StripAll(c.methods, [ref]);
    assert stripped == [Helper, g.(tryCatchBlocks := [])];
    assert stripped[..1] == [Helper];
    assert RefOf(Owner, Helper) == ref;
    assert Surviving(Owner, [Helper], {ref}) == [];
    assert RefOf(Owner, g) != ref;
    assert Surviving(Owner, stripped, {ref}) == [g.(tryCatchBlocks := [])];
  }

  /** Without ATHROW right after the call, nothing changes. */
  lemma CallWithoutThrowKept()
    ensures var c := ClassNode(Owner, "PacketEvents.class", [Helper, Guarded([Plain(RETURN)])]);
            !Changed(c) && Rewrite(c) == c
  {
    var g := Guarded([Plain(RETURN)]);
    var c := ClassNode(Owner, "PacketEvents.class", [Helper, g]);
    var ref := MethodRef(Owner, "a", HelperDesc);
    InstantReturnShape(Helper);
    InstantReturnShape(g);
    assert c.methods[..1] == [Helper];
    assert Candidates(Owner, [Helper]) == [ref];
    assert Candidates(Owner, c.methods) == [ref];
    assert HandlerTarget(g.instructions, g.tryCatchBlocks[0]).None?;
    assert g.tryCatchBlocks[..0] == [];
    assert Kept(g.instructions, g.tryCatchBlocks, [ref]) == g.tryCatchBlocks;
    assert Targets(g.instructions, g.tryCatchBlocks, [ref]) == {};
    assert Targets(Helper.instructions, [], [ref]) == {};
    assert AllTargets([Helper], [ref]) == {};
    assert AllTargets(c.methods, [ref]) == {};
    var stripped := StripAll(c.methods, [ref]);
    assert stripped == c.methods;
    SurvivingWhenNothingGone(Owner, stripped);
  }
}
