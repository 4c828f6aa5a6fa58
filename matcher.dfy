/** A closed algebra of instruction-stream patterns and its evaluation. A match
    only reads the instruction list; a failed match yields nothing. */
module Matcher {
  import opened Wrappers
  import opened Bytecode

  datatype Match =
    | OpcodeMatch(opcode: int)               // the current node has this opcode
    | InvokeStaticMatch                      // the current node is an INVOKESTATIC call
    | Capture(inner: Match, name: string)    // binds the node `inner` started at
    | Sequence(parts: seq<Match>)            // `parts` match one after another

  /** A successful match: where it started, the first position after it, and the
      positions bound to capture names. */
  datatype MatchContext = MatchContext(start: nat, next: nat, captures: map<string, nat>)

  /** Attempts `m` at position `pos` of `insns`. Running past the end of the list
      is an ordinary failure. */
  function Eval(m: Match, insns: seq<Insn>, pos: nat): (r: Option<MatchContext>)
    decreases m, 1
    ensures r.Some? ==> r.value.start == pos && pos <= r.value.next <= |insns|
  {
    match m
    case OpcodeMatch(op) =>
      if pos < |insns| && insns[pos].opcode == op then Some(MatchContext(pos, pos + 1, map[])) else None
    case InvokeStaticMatch =>
      if pos < |insns| && insns[pos].MethodInsn? && insns[pos].opcode == INVOKESTATIC
      then Some(MatchContext(pos, pos + 1, map[]))
      else None
    case Capture(inner, name) =>
      (match Eval(inner, insns, pos)
       case None => None
       case Some(c) => Some(c.(captures := c.captures[name := c.start])))
    case Sequence(parts) =>
      if pos <= |insns| then EvalSequence(parts, insns, pos, pos, map[]) else None
  }

  /** The rest of a sequence, `parts`, from position `pos`; the whole sequence
      started at `start` and has bound `captures` so far. Stops at the first
      part that fails. */
  function EvalSequence(parts: seq<Match>, insns: seq<Insn>, start: nat, pos: nat, captures: map<string, nat>)
    : (r: Option<MatchContext>)
    requires start <= pos <= |insns|
    decreases parts, 0
    ensures r.Some? ==> r.value.start == start && pos <= r.value.next <= |insns|
  {
    if parts == [] then Some(MatchContext(start, pos, captures))
    else
      match Eval(parts[0], insns, pos)
      case None => None
      case Some(c) => EvalSequence(parts[1..], insns, start, c.next, captures + c.captures)
  }

  /** `INSTANT_RETURN_EXCEPTION`: ALOAD then ARETURN. */
  const InstantReturnException: Match := Sequence([OpcodeMatch(ALOAD), OpcodeMatch(ARETURN)])

  /** `INVOKE_AND_RETURN`: a captured INVOKESTATIC then ATHROW. */
  const InvocationCapture: string := "invocation"
  const InvokeAndReturn: Match := Sequence([Capture(InvokeStaticMatch, InvocationCapture), OpcodeMatch(ATHROW)])

  /** A sequence whose first part fails fails, whatever follows it. */
  lemma SequenceFailsFast(first: Match, rest: seq<Match>, insns: seq<Insn>, pos: nat)
    requires Eval(first, insns, pos).None?
    ensures Eval(Sequence([first] + rest), insns, pos).None?
  {
    assert ([first] + rest)[0] == first;
  }

  /** INSTANT_RETURN_EXCEPTION matches at `pos` exactly when ALOAD, ARETURN sit there. */
  lemma InstantReturnExceptionMatches(insns: seq<Insn>, pos: nat)
    ensures Eval(InstantReturnException, insns, pos).Some?
        <==> pos + 1 < |insns| && insns[pos].opcode == ALOAD && insns[pos + 1].opcode == ARETURN
  {
    var parts := [OpcodeMatch(ALOAD), OpcodeMatch(ARETURN)];
    assert parts[1..] == [OpcodeMatch(ARETURN)] && parts[1..][1..] == [];
    if pos < |insns| && insns[pos].opcode == ALOAD {
      var empty: map<string, nat> := map[];
      assert empty + empty == empty;
      assert Eval(InstantReturnException, insns, pos) == EvalSequence(parts, insns, pos, pos, empty);
      assert EvalSequence(parts, insns, pos, pos, empty) == EvalSequence(parts[1..], insns, pos, pos + 1, empty);
      if pos + 1 < |insns| && insns[pos + 1].opcode == ARETURN {
        assert EvalSequence(parts[1..], insns, pos, pos + 1, empty)
            == EvalSequence([], insns, pos, pos + 2, empty);
      } else {
        assert Eval(parts[1..][0], insns, pos + 1).None?;
      }
    } else if pos <= |insns| {
      assert Eval(parts[0], insns, pos).None?;
      assert Eval(InstantReturnException, insns, pos) == EvalSequence(parts, insns, pos, pos, map[]);
    }
  }

  /** INVOKE_AND_RETURN matches at `pos` exactly when an INVOKESTATIC node is
      followed by ATHROW; the match starts at the call and captures it. */
  lemma InvokeAndReturnMatches(insns: seq<Insn>, pos: nat)
    ensures Eval(InvokeAndReturn, insns, pos).Some?
        <==> pos + 1 < |insns| && insns[pos].MethodInsn? && insns[pos].opcode == INVOKESTATIC
             && insns[pos + 1].opcode == ATHROW
    ensures Eval(InvokeAndReturn, insns, pos).Some? ==>
              Eval(InvokeAndReturn, insns, pos).value.start == pos
              && Eval(InvokeAndReturn, insns, pos).value.captures == map[InvocationCapture := pos]
  {
    var parts := [Capture(InvokeStaticMatch, InvocationCapture), OpcodeMatch(ATHROW)];
    assert parts[1..] == [OpcodeMatch(ATHROW)] && parts[1..][1..] == [];
    if pos < |insns| && insns[pos].MethodInsn? && insns[pos].opcode == INVOKESTATIC {
      var empty: map<string, nat> := map[];
      var captured := map[InvocationCapture := pos];
      assert empty + captured == captured && captured + empty == captured;
      assert Eval(InvokeStaticMatch, insns, pos) == Some(MatchContext(pos, pos + 1, empty));
      assert Eval(parts[0], insns, pos) == Some(MatchContext(pos, pos + 1, captured));
      assert Eval(InvokeAndReturn, insns, pos) == EvalSequence(parts, insns, pos, pos, empty);
      assert EvalSequence(parts, insns, pos, pos, empty) == EvalSequence(parts[1..], insns, pos, pos + 1, captured);
      if pos + 1 < |insns| && insns[pos + 1].opcode == ATHROW {
        assert EvalSequence(parts[1..], insns, pos, pos + 1, captured)
            == EvalSequence([], insns, pos, pos + 2, captured);
      } else {
        assert Eval(parts[1..][0], insns, pos + 1).None?;
      }
    } else if pos <= |insns| {
      assert Eval(InvokeStaticMatch, insns, pos).None?;
      assert Eval(parts[0], insns, pos).None?;
      assert Eval(InvokeAndReturn, insns, pos) == EvalSequence(parts, insns, pos, pos, map[]);
    }
  }
}
