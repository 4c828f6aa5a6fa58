/** `ZelixUselessTryCatchRemoverTransformer`: the rule run in place over class
    handles, in the source's two passes and final deletion. Each operation is
    proved against the functions of `ZelixRule`. */
module ZelixTransformer {
  import opened Wrappers
  import opened Bytecode
  import opened Matcher
  import opened ZelixRule
  import opened Sequences

  /** First pass: the identities of the instant-return methods, in method order. */
  method CollectInstantReturns(owner: string, methods: seq<MethodNode>) returns (candidates: seq<MethodRef>)
    ensures candidates == Candidates(owner, methods)
  {
    candidates := [];
    var j := 0;
    while j < |methods|
      invariant 0 <= j <= |methods|
      invariant candidates == Candidates(owner, methods[..j])
    {
      var m := methods[j];
      if |m.instructions| == 2 && Eval(InstantReturnException, m.instructions, 0).Some? {
        candidates := candidates + [RefOf(owner, m)];
      }
      assert methods[..j + 1][..j] == methods[..j];
      j := j + 1;
    }
    assert methods[..j] == methods;
  }

  /** One method's `tryCatchBlocks.removeIf`: drops each block whose handler
      rethrows through a candidate and appends that candidate to `toRemove`
      unless already there. `removed` tells whether a block was dropped. */
  method RemoveUselessBlocks(insns: seq<Insn>, blocks: seq<TryCatchBlock>, candidates: seq<MethodRef>, toRemove: seq<MethodRef>)
    returns (kept: seq<TryCatchBlock>, toRemove': seq<MethodRef>, removed: bool)
    requires NoDuplicates(toRemove)
    ensures kept == Kept(insns, blocks, candidates)
    ensures NoDuplicates(toRemove') && |toRemove| <= |toRemove'| && toRemove'[..|toRemove|] == toRemove
    ensures Elements(toRemove') == Elements(toRemove) + Targets(insns, blocks, candidates)
    ensures removed <==> Targets(insns, blocks, candidates) != {}
  {
    kept, toRemove', removed := [], toRemove, false;
    var k := 0;
    while k < |blocks|
      invariant 0 <= k <= |blocks|
      invariant kept == Kept(insns, blocks[..k], candidates)
      invariant NoDuplicates(toRemove') && |toRemove| <= |toRemove'| && toRemove'[..|toRemove|] == toRemove
      invariant Elements(toRemove') == Elements(toRemove) + Targets(insns, blocks[..k], candidates)
      invariant removed <==> Targets(insns, blocks[..k], candidates) != {}
    {
      var b := blocks[k];
      var target := HandlerTarget(insns, b);
      if target.Some? && target.value in candidates {
        if target.value !in toRemove' {
          assert Elements(toRemove' + [target.value]) == Elements(toRemove') + {target.value};
          toRemove' := toRemove' + [target.value];
        }
        removed := true;
      } else {
        kept := kept + [b];
      }
      assert blocks[..k + 1][..k] == blocks[..k];
      k := k + 1;
    }
    assert blocks[..k] == blocks;
  }

  /** The final `methods().removeIf`: keeps the methods whose identity under
      `owner` is not in `toRemove`. */
  method RemoveMethods(owner: string, methods: seq<MethodNode>, toRemove: seq<MethodRef>) returns (survivors: seq<MethodNode>)
    ensures survivors == Surviving(owner, methods, Elements(toRemove))
  {
    survivors := [];
    var j := 0;
    while j < |methods|
      invariant 0 <= j <= |methods|
      invariant survivors == Surviving(owner, methods[..j], Elements(toRemove))
    {
      if RefOf(owner, methods[j]) !in toRemove {
        survivors := survivors + [methods[j]];
      }
      assert methods[..j + 1][..j] == methods[..j];
      j := j + 1;
    }
    assert methods[..j] == methods;
  }

  class ZelixUselessTryCatchRemover {
    /** The transformer's change flag, raised by `markChange()`. */
    var changed: bool

    constructor ()
      ensures !changed
    {
      changed := false;
    }

    /** The rule on one class, in place: candidates, block removal, helper deletion. */
    method TransformClass(cw: ClassWrapper)
      modifies this, cw
      ensures cw.Node() == Rewrite(old(cw.Node()))
      ensures changed == (old(changed) || Changed(old(cw.Node())))
    {
      var candidates := CollectInstantReturns(cw.name, cw.methods);
      var toRemove := StripUselessBlocks(cw, candidates);
      cw.methods := RemoveMethods(cw.name, cw.methods, toRemove);
    }

    /** The `forEach` over the methods: each method loses its useless blocks, the
        helpers they rethrow through are collected once each, and a change is
        reported when any block goes. */
    method StripUselessBlocks(cw: ClassWrapper, candidates: seq<MethodRef>) returns (toRemove: seq<MethodRef>)
      modifies this, cw
      ensures cw.methods == StripAll(old(cw.methods), candidates)
      ensures NoDuplicates(toRemove) && Elements(toRemove) == AllTargets(old(cw.methods), candidates)
      ensures changed == (old(changed) || AllTargets(old(cw.methods), candidates) != {})
    {
      ghost var original := cw.methods;
      toRemove := [];
      var j := 0;
      while j < |cw.methods|
        invariant 0 <= j <= |cw.methods| == |original|
        invariant forall i :: 0 <= i < j ==> cw.methods[i] == Stripped(original[i], candidates)
        invariant forall i :: j <= i < |original| ==> cw.methods[i] == original[i]
        invariant NoDuplicates(toRemove) && Elements(toRemove) == AllTargets(original[..j], candidates)
        invariant changed == (old(changed) || AllTargets(original[..j], candidates) != {})
      {
        var m := cw.methods[j];
        var kept, removed;
        kept, toRemove, removed := RemoveUselessBlocks(m.instructions, m.tryCatchBlocks, candidates, toRemove);
        cw.methods := cw.methods[j := m.(tryCatchBlocks := kept)];
        if removed {
          changed := true;
        }
        assert original[..j + 1][..j] == original[..j];
        j := j + 1;
      }
      assert original[..j] == original;
    }

    /** `transform(scope, context)`: the rule on every class `context.classes(scope)`
        yields, each class on its own candidates only. */
    method Transform(classes: seq<ClassWrapper>)
      requires forall i, k :: 0 <= i < k < |classes| ==> classes[i] != classes[k]
      modifies this, classes
      ensures forall i :: 0 <= i < |classes| ==> classes[i].Node() == Rewrite(old(classes[i].Node()))
      ensures changed == (old(changed) || exists i :: 0 <= i < |classes| && Changed(old(classes[i].Node())))
    {
      var n := 0;
      while n < |classes|
        invariant 0 <= n <= |classes|
        invariant forall i :: 0 <= i < n ==> classes[i].Node() == Rewrite(old(classes[i].Node()))
        invariant forall i :: n <= i < |classes| ==> classes[i].methods == old(classes[i].methods)
        invariant changed == (old(changed) || exists i :: 0 <= i < n && Changed(old(classes[i].Node())))
      {
        TransformClass(classes[n]);
        n := n + 1;
      }
    }
  }
}
