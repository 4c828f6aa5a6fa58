/** The ZKM "useless try-catch" rule as functions of one class's value: which
    methods are instant-return helpers, which try-catch blocks only rethrow through
    such a helper, and the class that remains once both are gone. */
module ZelixRule {
  import opened Wrappers
  import opened Bytecode
  import opened Matcher

  /** A helper whose whole body is two nodes matching ALOAD; ARETURN. */
  predicate IsInstantReturn(m: MethodNode) {
    |m.instructions| == 2 && Eval(InstantReturnException, m.instructions, 0).Some?
  }

  /** The identities of the class's instant-return helpers, in method order
      (the first pass). */
  function Candidates(owner: string, methods: seq<MethodNode>): seq<MethodRef>
    decreases |methods|
  {
    if methods == [] then []
    else
      var last := methods[|methods| - 1];
      Candidates(owner, methods[..|methods| - 1]) + (if IsInstantReturn(last) then [RefOf(owner, last)] else [])
  }

  /** The method a block's handler rethrows through: the node after the handler
      label starts INVOKESTATIC; ATHROW, and the call is the captured node. */
  function HandlerTarget(insns: seq<Insn>, b: TryCatchBlock): (r: Option<MethodRef>)
    ensures r.Some? <==>
              b.handler + 2 < |insns| && insns[b.handler + 1].MethodInsn?
              && insns[b.handler + 1].opcode == INVOKESTATIC && insns[b.handler + 2].opcode == ATHROW
    ensures r.Some? ==> r.value == CallTarget(insns[b.handler + 1])
  {
    var at := b.handler + 1;
    InvokeAndReturnMatches(insns, at);
    match Eval(InvokeAndReturn, insns, at)
    case None => None
    case Some(ctx) => Some(CallTarget(insns[ctx.start]))
  }

  /** A block the second pass removes: its handler rethrows through a candidate. */
  predicate IsUseless(insns: seq<Insn>, b: TryCatchBlock, candidates: seq<MethodRef>) {
    HandlerTarget(insns, b).Some? && HandlerTarget(insns, b).value in candidates
  }

  /** The blocks `removeIf` keeps. */
  function Kept(insns: seq<Insn>, blocks: seq<TryCatchBlock>, candidates: seq<MethodRef>): seq<TryCatchBlock>
    decreases |blocks|
  {
    if blocks == [] then []
    else
      var last := blocks[|blocks| - 1];
      Kept(insns, blocks[..|blocks| - 1], candidates) + (if IsUseless(insns, last, candidates) then [] else [last])
  }

  /** The helpers that removed blocks rethrow through. */
  function Targets(insns: seq<Insn>, blocks: seq<TryCatchBlock>, candidates: seq<MethodRef>): set<MethodRef>
    decreases |blocks|
  {
    if blocks == [] then {}
    else
      var last := blocks[|blocks| - 1];
      Targets(insns, blocks[..|blocks| - 1], candidates)
        + (if IsUseless(insns, last, candidates) then {HandlerTarget(insns, last).value} else {})
  }

  /** A method after its useless blocks are removed; nothing else of it changes. */
  function Stripped(m: MethodNode, candidates: seq<MethodRef>): MethodNode {
    m.(tryCatchBlocks := Kept(m.instructions, m.tryCatchBlocks, candidates))
  }

  function StripAll(methods: seq<MethodNode>, candidates: seq<MethodRef>): seq<MethodNode> {
    seq(|methods|, j requires 0 <= j < |methods| => Stripped(methods[j], candidates))
  }

  /** Every helper some removed block of some method rethrows through. */
  function AllTargets(methods: seq<MethodNode>, candidates: seq<MethodRef>): set<MethodRef>
    decreases |methods|
  {
    if methods == [] then {}
    else
      var last := methods[|methods| - 1];
      AllTargets(methods[..|methods| - 1], candidates) + Targets(last.instructions, last.tryCatchBlocks, candidates)
  }

  /** The methods the final `removeIf` keeps: those whose identity is not in `gone`. */
  function Surviving(owner: string, methods: seq<MethodNode>, gone: set<MethodRef>): seq<MethodNode>
    decreases |methods|
  {
    if methods == [] then []
    else
      var last := methods[|methods| - 1];
      Surviving(owner, methods[..|methods| - 1], gone) + (if RefOf(owner, last) in gone then [] else [last])
  }

  /** The class after the rule ran on it. */
  function Rewrite(c: ClassNode): ClassNode {
    var candidates := Candidates(c.name, c.methods);
    var gone := AllTargets(c.methods, candidates);
    ClassNode(c.name, c.pathInJar, Surviving(c.name, StripAll(c.methods, candidates), gone))
  }

  /** The rule reports a change on this class. */
  predicate Changed(c: ClassNode) {
    AllTargets(c.methods, Candidates(c.name, c.methods)) != {}
  }

  // ---------------------------------------------------------------------------
  // Properties
  // ---------------------------------------------------------------------------

  /** A method is a candidate exactly when its body is the two nodes ALOAD, ARETURN. */
  lemma InstantReturnShape(m: MethodNode)
    ensures IsInstantReturn(m) <==>
              |m.instructions| == 2 && m.instructions[0].opcode == ALOAD && m.instructions[1].opcode == ARETURN
  {
    InstantReturnExceptionMatches(m.instructions, 0);
  }

  /** The candidate list holds exactly the identities, under this class's name,
      of the class's instant-return methods. */
  lemma {:induction false} CandidatesIff(owner: string, methods: seq<MethodNode>, r: MethodRef)
    ensures r in Candidates(owner, methods) <==>
              exists j :: 0 <= j < |methods| && IsInstantReturn(methods[j]) && r == RefOf(owner, methods[j])
    decreases |methods|
  {
    if methods != [] {
      var init := methods[..|methods| - 1];
      CandidatesIff(owner, init, r);
      if r in Candidates(owner, init) {
        var j :| 0 <= j < |init| && IsInstantReturn(init[j]) && r == RefOf(owner, init[j]);
        assert methods[j] == init[j];
      }
      if exists j :: 0 <= j < |methods| && IsInstantReturn(methods[j]) && r == RefOf(owner, methods[j]) {
        var j :| 0 <= j < |methods| && IsInstantReturn(methods[j]) && r == RefOf(owner, methods[j]);
        if j < |init| { assert init[j] == methods[j]; }
      }
    }
  }

  /** A rethrow through a method of another class, even one with a candidate's
      name and descriptor, never makes a block useless. */
  lemma ForeignHelperNeverRemoves(owner: string, methods: seq<MethodNode>, insns: seq<Insn>, b: TryCatchBlock)
    requires HandlerTarget(insns, b).Some? && HandlerTarget(insns, b).value.owner != owner
    ensures !IsUseless(insns, b, Candidates(owner, methods))
  {
    CandidatesIff(owner, methods, HandlerTarget(insns, b).value);
  }

  /** `removeIf` keeps exactly the blocks that are not useless. */
  lemma {:induction false} KeptIff(insns: seq<Insn>, blocks: seq<TryCatchBlock>, candidates: seq<MethodRef>, b: TryCatchBlock)
    ensures b in Kept(insns, blocks, candidates) <==> b in blocks && !IsUseless(insns, b, candidates)
    decreases |blocks|
  {
    if blocks != [] {
      var init := blocks[..|blocks| - 1];
      KeptIff(insns, init, candidates, b);
      assert blocks == init + [blocks[|blocks| - 1]];
    }
  }

  /** `removeIf` keeps the surviving blocks in their original relative order:
      filtering a concatenation concatenates the filtered parts. */
  lemma {:induction false} KeptConcat(insns: seq<Insn>, a: seq<TryCatchBlock>, b: seq<TryCatchBlock>, candidates: seq<MethodRef>)
    ensures Kept(insns, a + b, candidates) == Kept(insns, a, candidates) + Kept(insns, b, candidates)
    decreases |b|
  {
    if b == [] {
      assert a + b == a;
    } else {
      var init := b[..|b| - 1];
      KeptConcat(insns, a, init, candidates);
      assert (a + b)[..|a + b| - 1] == a + init;
    }
  }

  /** The helpers a method's removed blocks rethrow through; each is a candidate. */
  lemma {:induction false} TargetsIff(insns: seq<Insn>, blocks: seq<TryCatchBlock>, candidates: seq<MethodRef>, r: MethodRef)
    ensures r in Targets(insns, blocks, candidates) <==>
              exists k :: 0 <= k < |blocks| && IsUseless(insns, blocks[k], candidates)
                          && HandlerTarget(insns, blocks[k]) == Some(r)
    ensures r in Targets(insns, blocks, candidates) ==> r in candidates
    decreases |blocks|
  {
    if blocks != [] {
      var init := blocks[..|blocks| - 1];
      TargetsIff(insns, init, candidates, r);
      if r in Targets(insns, init, candidates) {
        var k :| 0 <= k < |init| && IsUseless(insns, init[k], candidates) && HandlerTarget(insns, init[k]) == Some(r);
        assert blocks[k] == init[k];
      }
      if exists k :: 0 <= k < |blocks| && IsUseless(insns, blocks[k], candidates) && HandlerTarget(insns, blocks[k]) == Some(r) {
        var k :| 0 <= k < |blocks| && IsUseless(insns, blocks[k], candidates) && HandlerTarget(insns, blocks[k]) == Some(r);
        if k < |init| { assert init[k] == blocks[k]; }
      }
    }
  }

  /** The class-wide set of helpers to delete: those some removed block rethrows through. */
  lemma {:induction false} AllTargetsIff(methods: seq<MethodNode>, candidates: seq<MethodRef>, r: MethodRef)
    ensures r in AllTargets(methods, candidates) <==>
              exists j :: 0 <= j < |methods| && r in Targets(methods[j].instructions, methods[j].tryCatchBlocks, candidates)
    decreases |methods|
  {
    if methods != [] {
      var init := methods[..|methods| - 1];
      AllTargetsIff(init, candidates, r);
      if r in AllTargets(init, candidates) {
        var j :| 0 <= j < |init| && r in Targets(init[j].instructions, init[j].tryCatchBlocks, candidates);
        assert methods[j] == init[j];
      }
      if exists j :: 0 <= j < |methods| && r in Targets(methods[j].instructions, methods[j].tryCatchBlocks, candidates) {
        var j :| 0 <= j < |methods| && r in Targets(methods[j].instructions, methods[j].tryCatchBlocks, candidates);
        if j < |init| { assert init[j] == methods[j]; }
      }
    }
  }

  /** The final `removeIf` keeps exactly the methods whose identity is not in `gone`. */
  lemma {:induction false} SurvivingIff(owner: string, methods: seq<MethodNode>, gone: set<MethodRef>, m: MethodNode)
    ensures m in Surviving(owner, methods, gone) <==> m in methods && RefOf(owner, m) !in gone
    decreases |methods|
  {
    if methods != [] {
      var init := methods[..|methods| - 1];
      SurvivingIff(owner, init, gone, m);
      assert methods == init + [methods[|methods| - 1]];
    }
  }

  /** The methods of the rewritten class are the original methods, stripped of
      their useless blocks, minus those whose identity a removed block targeted. */
  lemma RewriteMethodsIff(c: ClassNode, m: MethodNode)
    ensures m in Rewrite(c).methods <==>
              exists j :: 0 <= j < |c.methods|
                          && m == Stripped(c.methods[j], Candidates(c.name, c.methods))
                          && RefOf(c.name, c.methods[j]) !in AllTargets(c.methods, Candidates(c.name, c.methods))
  {
    var candidates := Candidates(c.name, c.methods);
    var stripped := StripAll(c.methods, candidates);
    SurvivingIff(c.name, stripped, AllTargets(c.methods, candidates), m);
    if m in stripped {
      var j :| 0 <= j < |stripped| && stripped[j] == m;
      assert RefOf(c.name, m) == RefOf(c.name, c.methods[j]);
    }
    if exists j :: 0 <= j < |c.methods| && m == Stripped(c.methods[j], candidates)
                   && RefOf(c.name, c.methods[j]) !in AllTargets(c.methods, candidates) {
      var j :| 0 <= j < |c.methods| && m == Stripped(c.methods[j], candidates)
               && RefOf(c.name, c.methods[j]) !in AllTargets(c.methods, candidates);
      assert stripped[j] == m;
    }
  }

  /** A method whose identity is not a candidate's is never deleted. */
  lemma NonCandidateSurvives(c: ClassNode, j: nat)
    requires j < |c.methods| && RefOf(c.name, c.methods[j]) !in Candidates(c.name, c.methods)
    ensures Stripped(c.methods[j], Candidates(c.name, c.methods)) in Rewrite(c).methods
  {
    var candidates := Candidates(c.name, c.methods);
    var r := RefOf(c.name, c.methods[j]);
    if r in AllTargets(c.methods, candidates) {
      AllTargetsIff(c.methods, candidates, r);
      var i :| 0 <= i < |c.methods| && r in Targets(c.methods[i].instructions, c.methods[i].tryCatchBlocks, candidates);
      TargetsIff(c.methods[i].instructions, c.methods[i].tryCatchBlocks, candidates, r);
      assert false;
    }
    RewriteMethodsIff(c, Stripped(c.methods[j], candidates));
  }

  /** A candidate that no removed block rethrows through is kept; a method that
      one does is deleted, and it is a candidate. */
  lemma ReferencedCandidatesDeleted(c: ClassNode, j: nat)
    requires j < |c.methods|
    ensures var candidates := Candidates(c.name, c.methods);
            var r := RefOf(c.name, c.methods[j]);
            (r !in AllTargets(c.methods, candidates) ==> Stripped(c.methods[j], candidates) in Rewrite(c).methods)
            && (r in AllTargets(c.methods, candidates) ==>
                  r in candidates && forall m :: m in Rewrite(c).methods ==> RefOf(c.name, m) != r)
  {
    var candidates := Candidates(c.name, c.methods);
    var r := RefOf(c.name, c.methods[j]);
    RewriteMethodsIff(c, Stripped(c.methods[j], candidates));
    if r in AllTargets(c.methods, candidates) {
      AllTargetsIff(c.methods, candidates, r);
      var i :| 0 <= i < |c.methods| && r in Targets(c.methods[i].instructions, c.methods[i].tryCatchBlocks, candidates);
      TargetsIff(c.methods[i].instructions, c.methods[i].tryCatchBlocks, candidates, r);
      forall m | m in Rewrite(c).methods ensures RefOf(c.name, m) != r {
        RewriteMethodsIff(c, m);
      }
    }
  }

  /** The change flag is raised exactly when some try-catch block of the class is removed. */
  lemma ChangedIff(c: ClassNode)
    ensures Changed(c) <==>
              exists j, k :: 0 <= j < |c.methods| && 0 <= k < |c.methods[j].tryCatchBlocks|
                             && IsUseless(c.methods[j].instructions, c.methods[j].tryCatchBlocks[k], Candidates(c.name, c.methods))
  {
    var candidates := Candidates(c.name, c.methods);
    if Changed(c) {
      var r :| r in AllTargets(c.methods, candidates);
      AllTargetsIff(c.methods, candidates, r);
      var j :| 0 <= j < |c.methods| && r in Targets(c.methods[j].instructions, c.methods[j].tryCatchBlocks, candidates);
      TargetsIff(c.methods[j].instructions, c.methods[j].tryCatchBlocks, candidates, r);
    }
    if exists j, k :: 0 <= j < |c.methods| && 0 <= k < |c.methods[j].tryCatchBlocks|
                      && IsUseless(c.methods[j].instructions, c.methods[j].tryCatchBlocks[k], candidates) {
      var j, k :| 0 <= j < |c.methods| && 0 <= k < |c.methods[j].tryCatchBlocks|
                  && IsUseless(c.methods[j].instructions, c.methods[j].tryCatchBlocks[k], candidates);
      var m := c.methods[j];
      var r := HandlerTarget(m.instructions, m.tryCatchBlocks[k]).value;
      TargetsIff(m.instructions, m.tryCatchBlocks, candidates, r);
      AllTargetsIff(c.methods, candidates, r);
    }
  }

  /** The rule never edits an instruction list, a name or a descriptor: every
      method left is an original one with only its useless blocks removed. */
  lemma RewriteKeepsInstructions(c: ClassNode, m: MethodNode)
    requires m in Rewrite(c).methods
    ensures Rewrite(c).name == c.name && Rewrite(c).pathInJar == c.pathInJar
    ensures exists j :: 0 <= j < |c.methods|
                        && m.name == c.methods[j].name && m.desc == c.methods[j].desc
                        && m.instructions == c.methods[j].instructions
                        && m.tryCatchBlocks == Kept(c.methods[j].instructions, c.methods[j].tryCatchBlocks, Candidates(c.name, c.methods))
  {
    RewriteMethodsIff(c, m);
  }

  lemma {:induction false} KeptWhenNoneUseless(insns: seq<Insn>, blocks: seq<TryCatchBlock>, candidates: seq<MethodRef>)
    requires forall k :: 0 <= k < |blocks| ==> !IsUseless(insns, blocks[k], candidates)
    ensures Kept(insns, blocks, candidates) == blocks
    ensures Targets(insns, blocks, candidates) == {}
    decreases |blocks|
  {
    if blocks != [] {
      var init := blocks[..|blocks| - 1];
      KeptWhenNoneUseless(insns, init, candidates);
      assert blocks == init + [blocks[|blocks| - 1]];
    }
  }

  lemma {:induction false} AllTargetsWhenNoneUseless(methods: seq<MethodNode>, candidates: seq<MethodRef>)
    requires forall j :: 0 <= j < |methods| ==> Targets(methods[j].instructions, methods[j].tryCatchBlocks, candidates) == {}
    ensures AllTargets(methods, candidates) == {}
    decreases |methods|
  {
    if methods != [] {
      AllTargetsWhenNoneUseless(methods[..|methods| - 1], candidates);
    }
  }

  lemma {:induction false} SurvivingWhenNothingGone(owner: string, methods: seq<MethodNode>)
    ensures Surviving(owner, methods, {}) == methods
    decreases |methods|
  {
    if methods != [] {
      var init := methods[..|methods| - 1];
      SurvivingWhenNothingGone(owner, init);
      assert methods == init + [methods[|methods| - 1]];
    }
  }

  /** Running the rule a second time finds nothing to do: it reports no change and
      leaves the class as the first run left it. */
  lemma RewriteIdempotent(c: ClassNode)
    ensures !Changed(Rewrite(c))
    ensures Rewrite(Rewrite(c)) == Rewrite(c)
  {
    var candidates := Candidates(c.name, c.methods);
    var c1 := Rewrite(c);
    var candidates1 := Candidates(c1.name, c1.methods);
    forall r | r in candidates1 ensures r in candidates {
      CandidatesIff(c.name, c1.methods, r);
      var j :| 0 <= j < |c1.methods| && IsInstantReturn(c1.methods[j]) && r == RefOf(c.name, c1.methods[j]);
      RewriteMethodsIff(c, c1.methods[j]);
      var i :| 0 <= i < |c.methods| && c1.methods[j] == Stripped(c.methods[i], candidates);
      CandidatesIff(c.name, c.methods, r);
    }
    forall j | 0 <= j < |c1.methods|
      ensures Stripped(c1.methods[j], candidates1) == c1.methods[j]
      ensures Targets(c1.methods[j].instructions, c1.methods[j].tryCatchBlocks, candidates1) == {}
    {
      var m := c1.methods[j];
      RewriteMethodsIff(c, m);
      var i :| 0 <= i < |c.methods| && m == Stripped(c.methods[i], candidates);
      forall k | 0 <= k < |m.tryCatchBlocks| ensures !IsUseless(m.instructions, m.tryCatchBlocks[k], candidates1) {
        KeptIff(m.instructions, c.methods[i].tryCatchBlocks, candidates, m.tryCatchBlocks[k]);
      }
      KeptWhenNoneUseless(m.instructions, m.tryCatchBlocks, candidates1);
    }
    AllTargetsWhenNoneUseless(c1.methods, candidates1);
    assert StripAll(c1.methods, candidates1) == c1.methods;
    SurvivingWhenNothingGone(c.name, c1.methods);
  }
}
