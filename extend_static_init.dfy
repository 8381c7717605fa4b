/**
 * The rewriter for a class's static initialiser `<clinit>`: the ordinary
 * per-method rewriter, plus the two instructions that fetch the coverage
 * ledger into the class's reporter field before any original instruction,
 * and a declared operand stack of at least one slot.
 */
module ExtendStaticInit {
  import opened Bytecode
  import opened InstrumentByteCode

  /** The stack the logger pair needs: getInstance pushes the ledger, putstatic pops it. */
  const MinStack: int := 1

  /** putLoggerInstance: store CoverageLog.getInstance() into the class's reporter field. */
  function LoggerInstance(className: string): seq<Instruction> {
    [MethodInsn(INVOKESTATIC, LogOwner, "getInstance", "()" + ReporterDesc, false),
     FieldInsn(PUTSTATIC, className, ReporterField, ReporterDesc)]
  }

  /** putLoggerInstance on a downstream visitor: the pair, and nothing else, is forwarded. */
  method PutLoggerInstance(mv: MethodSink, className: string)
    modifies mv
    ensures mv.events == old(mv.events) + AsEvents(LoggerInstance(className))
  {
    mv.Emit(Instr(MethodInsn(INVOKESTATIC, LogOwner, "getInstance", "()" + ReporterDesc, false)));
    mv.Emit(Instr(FieldInsn(PUTSTATIC, className, ReporterField, ReporterDesc)));
  }

  /** visitMaxs of `<clinit>`: Math.max(MIN_STACK, maxStack). */
  function StaticInitMaxStack(maxStack: int): (r: int)
    ensures r >= MinStack && r >= maxStack
    ensures r == maxStack || r == MinStack
  {
    if maxStack < MinStack then MinStack else maxStack
  }

  /**
   * What the `<clinit>` rewriter forwards for one method: the logger pair
   * ahead of visitCode, then whatever the ordinary rewriter forwards for the
   * same body with the declared stack raised to at least MinStack. A method
   * without code gets no visitCode call, so only visitEnd's visitCode.
   */
  function RewrittenStaticInit(t: Target, b: MethodBody, k: int, flag: bool): seq<MethodEvent> {
    match b
    case NoCode => Rewritten(t, NoCode, k, flag)
    case Body(code, maxStack, maxLocals) =>
      AsEvents(LoggerInstance(t.className)) + Rewritten(t, Body(code, StaticInitMaxStack(maxStack), maxLocals), k, flag)
  }

  /**
   * A freshly built `<clinit>` rewriter on a body: the first two events are
   * the logger pair and the third is visitCode, so the pair precedes every
   * original instruction; after the pair the instruction stream is the
   * reference stream of the ordinary rewriter, with probes placed by the
   * original offsets (the pair is not counted); the declared stack is
   * max(1, maxStack), plus 2 when a probe was emitted; maxLocals is kept.
   */
  lemma StaticInitShape(t: Target, code: seq<MethodEvent>, maxStack: int, maxLocals: int)
    ensures var n := |Instructions(code)|;
            var out := RewrittenStaticInit(t, Body(code, maxStack, maxLocals), 0, false);
            var ms := StaticInitMaxStack(maxStack);
            var stack := if HitCount(t, 0, n) > 0 then ms + 2 else ms;
            && |out| >= 3
            && out[..2] == AsEvents(LoggerInstance(t.className)) && out[2] == Code
            && Instructions(out) == LoggerInstance(t.className) + ProbedInsns(t, Instructions(code), 0)
            && OtherEvents(out) == [Code] + OtherEvents(code) + [Maxs(stack, maxLocals), Code]
            && stack >= MinStack
  {
    var ms := StaticInitMaxStack(maxStack);
    var pair := AsEvents(LoggerInstance(t.className));
    var rest := Rewritten(t, Body(code, ms, maxLocals), 0, false);
    var out := RewrittenStaticInit(t, Body(code, maxStack, maxLocals), 0, false);
    assert out == pair + rest;
    RewrittenBody(t, code, ms, maxLocals);
    RewrittenStarts(t, code, ms, maxLocals);
    assert out[2] == rest[0];
    assert out[..2] == pair;
    PrependFilters(LoggerInstance(t.className), rest);
  }

  /** The ordinary rewriter's output for a body starts with visitCode. */
  lemma RewrittenStarts(t: Target, code: seq<MethodEvent>, maxStack: int, maxLocals: int)
    ensures var out := Rewritten(t, Body(code, maxStack, maxLocals), 0, false);
            |out| >= 1 && out[0] == Code
  {
  }

  /** The events the `<clinit>` rewriter forwards one call at a time are its rewritten events. */
  lemma StaticInitEvents(t: Target, code: seq<MethodEvent>, maxStack: int, maxLocals: int, k: int, flag: bool,
                         e0: seq<MethodEvent>, probed: bool)
    requires probed == (flag || HitCount(t, k, |Instructions(code)|) > 0)
    ensures var ms := StaticInitMaxStack(maxStack);
            e0 + AsEvents(LoggerInstance(t.className)) + [Code] + ProbedBody(t, code, k)
              + [Maxs(if probed then ms + WorstCaseStackOffset else ms, maxLocals)] + [Code]
            == e0 + RewrittenStaticInit(t, Body(code, maxStack, maxLocals), k, flag)
  {
    var ms := StaticInitMaxStack(maxStack);
    var pair := AsEvents(LoggerInstance(t.className));
    var rest := Rewritten(t, Body(code, ms, maxLocals), k, flag);
    RewrittenCode(t, code, ms, maxLocals, k, flag, e0 + pair);
    AppendAssoc(e0, pair, rest);
    assert RewrittenStaticInit(t, Body(code, maxStack, maxLocals), k, flag) == pair + rest;
  }

  /** ExtendStaticInit: the ordinary rewriter with visitCode and visitMaxs overridden. */
  class StaticInitRewriter {
    const inner: MethodRewriter

    constructor (mv: MethodSink, name: string, mName: string, offsetIdMap: map<int, int>,
                 instrumentedLocs: IntList, hash: BlockHash)
      ensures fresh(inner)
      ensures inner.mv == mv && inner.locs == instrumentedLocs
      ensures inner.target == Target(name, mName, offsetIdMap, hash)
      ensures inner.bcLine == 0 && !inner.instrumented
    {
      inner := new MethodRewriter(mv, name, mName, offsetIdMap, instrumentedLocs, hash);
    }

    /** visitCode: the logger pair goes straight downstream, then visitCode is forwarded. */
    method VisitCode()
      modifies inner.mv
      ensures inner.mv.events == old(inner.mv.events) + AsEvents(LoggerInstance(inner.target.className)) + [Code]
    {
      PutLoggerInstance(inner.mv, inner.target.className);
      inner.VisitOther(Code);
    }

    /** visitMaxs: the parent's rule applied to max(MIN_STACK, maxStack). */
    method VisitMaxs(maxStack: int, maxLocals: int)
      modifies inner.mv
      ensures inner.mv.events
              == old(inner.mv.events)
                 + [Maxs(if inner.instrumented then StaticInitMaxStack(maxStack) + WorstCaseStackOffset
                         else StaticInitMaxStack(maxStack), maxLocals)]
    {
      inner.VisitMaxs(StaticInitMaxStack(maxStack), maxLocals);
    }

    /** The calls a class reader makes for `<clinit>`, from visitCode to visitEnd. */
    method AcceptBody(b: MethodBody)
      requires WellFormedBody(b)
      modifies inner.mv, inner.locs, inner`instrumented, inner`bcLine
      ensures inner.mv.events
              == old(inner.mv.events) + RewrittenStaticInit(inner.target, b, old(inner.bcLine), old(inner.instrumented))
      ensures inner.locs.items
              == old(inner.locs.items)
                 + (if b.Body? then HitUids(inner.target, old(inner.bcLine), |Instructions(b.code)|) else [])
      ensures !inner.instrumented
    {
      if b.Body? {
        AcceptCode(b.code, b.maxStack, b.maxLocals);
      } else {
        inner.VisitEnd();
      }
    }

    /** `<clinit>` with a Code attribute: visitCode, the body, visitMaxs, visitEnd. */
    method AcceptCode(code: seq<MethodEvent>, maxStack: int, maxLocals: int)
      requires AllBodyEvents(code)
      modifies inner.mv, inner.locs, inner`instrumented, inner`bcLine
      ensures inner.mv.events
              == old(inner.mv.events)
                 + RewrittenStaticInit(inner.target, Body(code, maxStack, maxLocals), old(inner.bcLine), old(inner.instrumented))
      ensures inner.locs.items == old(inner.locs.items) + HitUids(inner.target, old(inner.bcLine), |Instructions(code)|)
      ensures !inner.instrumented
    {
      ghost var t, k, flag, e0 := inner.target, inner.bcLine, inner.instrumented, inner.mv.events;
      VisitCode();
      inner.VisitBody(code);
      ghost var probed := inner.instrumented;
      VisitMaxs(maxStack, maxLocals);
      inner.VisitEnd();
      StaticInitEvents(t, code, maxStack, maxLocals, k, flag, e0, probed);
    }
  }
}
