/**
 * The per-method rewriter: it numbers the real instructions of a method body
 * 0, 1, 2, ..., inserts a three-instruction coverage probe before every
 * instruction whose block hash is in the offset table, and widens the declared
 * operand stack when it inserted any probe.
 */
module InstrumentByteCode {
  import opened Bytecode
  import CoverageLog

  /** A probe pushes the ledger and the UID before calling record. */
  const WorstCaseStackOffset: int := 2
  const LogOwner: string := "org/cprover/coverage/CoverageLog"
  const ReporterField: string := "diffblue_coverage_reporter"
  const ReporterDesc: string := "Lorg/cprover/coverage/CoverageLog;"

  /** The ledger's block hash (getCoverageHash), as the rewriter consults it. */
  type BlockHash = (string, string, int) -> int

  /**
   * What one rewriter instruments against: the class, the method id
   * `name:desc`, the table block hash -> UID, and the block hash function.
   */
  datatype Target = Target(className: string, methodName: string, table: map<int, int>, hash: BlockHash)

  /** shouldBeInstrumented: the block at this offset has an entry in the table. */
  predicate ShouldBeInstrumented(t: Target, bcIndex: int) {
    t.hash(t.className, t.methodName, bcIndex) in t.table
  }

  /** getUniqueIdentifier: the table's UID for the block at this offset. */
  function UniqueIdentifier(t: Target, bcIndex: int): int
    requires ShouldBeInstrumented(t, bcIndex)
  {
    t.table[t.hash(t.className, t.methodName, bcIndex)]
  }

  /** The ledger's own hash: String.hashCode of the block ID. */
  function LedgerHash(): BlockHash {
    CoverageLog.CoverageHash
  }

  /**
   * With the ledger's hash, whether an offset is probed, and with which UID,
   * depends on the block ID string alone: two (class, method, offset) triples
   * with the same block ID are treated alike.
   */
  lemma SameBlockSameProbe(t1: Target, i1: int, t2: Target, i2: int)
    requires t1.hash == LedgerHash() && t2.hash == LedgerHash() && t1.table == t2.table
    requires CoverageLog.BasicBlockID(t1.className, t1.methodName, i1)
          == CoverageLog.BasicBlockID(t2.className, t2.methodName, i2)
    ensures ShouldBeInstrumented(t1, i1) <==> ShouldBeInstrumented(t2, i2)
    ensures ShouldBeInstrumented(t1, i1) ==> UniqueIdentifier(t1, i1) == UniqueIdentifier(t2, i2)
  {
  }

  /** The three instructions that count one hit of uid: load the reporter field, push uid, call record. */
  function Probe(className: string, uid: int): (p: seq<Instruction>)
    ensures |p| == 3
  {
    [FieldInsn(GETSTATIC, className, ReporterField, ReporterDesc),
     LdcInsn(IntConstant(uid)),
     MethodInsn(INVOKEVIRTUAL, LogOwner, "record", "(I)V", false)]
  }

  /** What instrumentByteCode emits at an offset: the probe for its UID, or nothing. */
  function ProbeAt(t: Target, bcIndex: int): (p: seq<Instruction>)
    ensures |p| == if ShouldBeInstrumented(t, bcIndex) then 3 else 0
  {
    if ShouldBeInstrumented(t, bcIndex) then Probe(t.className, UniqueIdentifier(t, bcIndex)) else []
  }

  /** The UID probed at one offset, if any. */
  function NewHit(t: Target, bcIndex: int): seq<int> {
    if ShouldBeInstrumented(t, bcIndex) then [UniqueIdentifier(t, bcIndex)] else []
  }

  /** How many of the offsets k .. k+n-1 are probed. */
  function HitCount(t: Target, k: int, n: nat): nat
    decreases n
  {
    if n == 0 then 0 else (if ShouldBeInstrumented(t, k) then 1 else 0) + HitCount(t, k + 1, n - 1)
  }

  /** The UIDs probed at the offsets k .. k+n-1, in offset order. */
  function HitUids(t: Target, k: int, n: nat): (r: seq<int>)
    ensures |r| == HitCount(t, k, n)
    decreases n
  {
    if n == 0 then []
    else NewHit(t, k) + HitUids(t, k + 1, n - 1)
  }

  lemma {:induction false} HitSnoc(t: Target, k: int, n: nat)
    ensures HitCount(t, k, n + 1) == HitCount(t, k, n) + (if ShouldBeInstrumented(t, k + n) then 1 else 0)
    ensures HitUids(t, k, n + 1) == HitUids(t, k, n) + NewHit(t, k + n)
    decreases n
  {
    if n > 0 {
      HitSnoc(t, k + 1, n - 1);
    }
  }

  lemma {:induction false} HitAppend(t: Target, k: int, a: nat, b: nat)
    ensures HitCount(t, k, a + b) == HitCount(t, k, a) + HitCount(t, k + a, b)
    ensures HitUids(t, k, a + b) == HitUids(t, k, a) + HitUids(t, k + a, b)
    decreases a
  {
    if a > 0 {
      HitAppend(t, k + 1, a - 1, b);
    }
  }

  /**
   * The UIDs probed in a range are the table's UIDs for exactly the probed
   * offsets of that range.
   */
  lemma {:induction false} HitUidsMembers(t: Target, k: int, n: nat, uid: int)
    ensures uid in HitUids(t, k, n) <==>
              exists i :: k <= i < k + n && ShouldBeInstrumented(t, i) && UniqueIdentifier(t, i) == uid
    decreases n
  {
    if n > 0 {
      HitUidsMembers(t, k + 1, n - 1, uid);
      if ShouldBeInstrumented(t, k) && UniqueIdentifier(t, k) == uid {
        assert uid in HitUids(t, k, n);
      }
    }
  }

  // ---------------------------------------------------------------------
  // The rewritten instruction stream

  /** The reference definition: before the i-th instruction, the probe for offset k+i. */
  function ProbedInsns(t: Target, insns: seq<Instruction>, k: int): seq<Instruction> {
    if insns == [] then [] else ProbeAt(t, k) + [insns[0]] + ProbedInsns(t, insns[1..], k + 1)
  }

  lemma {:induction false} ProbedInsnsLength(t: Target, insns: seq<Instruction>, k: int)
    ensures |ProbedInsns(t, insns, k)| == |insns| + 3 * HitCount(t, k, |insns|)
  {
    if insns != [] {
      ProbedInsnsLength(t, insns[1..], k + 1);
    }
  }

  /**
   * Where the i-th original instruction lands: after itself it has moved by
   * three places for every probed offset up to and including its own, and
   * when its own offset is probed the three instructions just before it are
   * exactly the probe for its UID.
   */
  lemma {:induction false} ProbedInsnsAppend(t: Target, a: seq<Instruction>, b: seq<Instruction>, k: int)
    ensures ProbedInsns(t, a + b, k) == ProbedInsns(t, a, k) + ProbedInsns(t, b, k + |a|)
  {
    if a == [] {
      assert a + b == b;
    } else {
      assert (a + b)[0] == a[0] && (a + b)[1..] == a[1..] + b;
      var head := ProbeAt(t, k) + [a[0]];
      ProbedInsnsAppend(t, a[1..], b, k + 1);
      AppendAssoc(head, ProbedInsns(t, a[1..], k + 1), ProbedInsns(t, b, k + |a|));
    }
  }

  lemma {:induction false} ProbedInsnsAt(t: Target, insns: seq<Instruction>, k: int, i: int)
    requires 0 <= i < |insns|
    ensures var out := ProbedInsns(t, insns, k);
            var p := i + 3 * HitCount(t, k, i + 1);
            && 3 <= p + 3 * (if ShouldBeInstrumented(t, k + i) then 0 else 1)
            && p < |out| && out[p] == insns[i]
            && (ShouldBeInstrumented(t, k + i) ==> out[p - 3..p] == Probe(t.className, UniqueIdentifier(t, k + i)))
  {
    var before := ProbedInsns(t, insns[..i], k);
    var here := ProbeAt(t, k + i) + [insns[i]];
    var after := ProbedInsns(t, insns[i + 1..], k + i + 1);
    assert insns == insns[..i] + insns[i..];
    assert insns[i..][0] == insns[i] && insns[i..][1..] == insns[i + 1..];
    ProbedInsnsAppend(t, insns[..i], insns[i..], k);
    assert ProbedInsns(t, insns[i..], k + i) == here + after;
    AppendAssoc(before, here, after);
    ProbedInsnsLength(t, insns[..i], k);
    HitSnoc(t, k, i);
    var out := ProbedInsns(t, insns, k);
    var p := |before| + |ProbeAt(t, k + i)|;
    assert p == i + 3 * HitCount(t, k, i + 1);
    assert out == before + here + after;
    assert out[p] == here[|ProbeAt(t, k + i)|] == insns[i];
    if ShouldBeInstrumented(t, k + i) {
      assert out[p - 3..p] == here[..3];
    }
  }

  /** The body's events with the probe for each instruction's offset inserted just before it. */
  function ProbedBody(t: Target, code: seq<MethodEvent>, k: int): seq<MethodEvent> {
    if code == [] then []
    else if code[0].Instr? then AsEvents(ProbeAt(t, k)) + [code[0]] + ProbedBody(t, code[1..], k + 1)
    else [code[0]] + ProbedBody(t, code[1..], k)
  }

  lemma {:induction false} ProbedBodyAppend(t: Target, a: seq<MethodEvent>, b: seq<MethodEvent>, k: int)
    ensures ProbedBody(t, a + b, k) == ProbedBody(t, a, k) + ProbedBody(t, b, k + |Instructions(a)|)
  {
    if a == [] {
      assert a + b == b;
    } else {
      assert (a + b)[0] == a[0] && (a + b)[1..] == a[1..] + b;
      var head := if a[0].Instr? then AsEvents(ProbeAt(t, k)) + [a[0]] else [a[0]];
      var k' := if a[0].Instr? then k + 1 else k;
      assert ProbedBody(t, a + b, k) == head + ProbedBody(t, a[1..] + b, k');
      assert ProbedBody(t, a, k) == head + ProbedBody(t, a[1..], k');
      assert |Instructions(a)| == |Instructions(a[1..])| + (if a[0].Instr? then 1 else 0);
      ProbedBodyAppend(t, a[1..], b, k');
      assert k' + |Instructions(a[1..])| == k + |Instructions(a)|;
      AppendAssoc(head, ProbedBody(t, a[1..], k'), ProbedBody(t, b, k + |Instructions(a)|));
    }
  }

  /**
   * Nothing but probes is added: the instructions of the probed body are the
   * reference stream over the original instructions, and every other event
   * (labels, frames, line numbers, ...) is forwarded unchanged and in order.
   */
  lemma {:induction false} ProbedBodyFilters(t: Target, code: seq<MethodEvent>, k: int)
    ensures Instructions(ProbedBody(t, code, k)) == ProbedInsns(t, Instructions(code), k)
    ensures OtherEvents(ProbedBody(t, code, k)) == OtherEvents(code)
  {
    if code != [] {
      var e := code[0];
      if e.Instr? {
        var pe := AsEvents(ProbeAt(t, k));
        var rest := ProbedBody(t, code[1..], k + 1);
        assert ProbedBody(t, code, k) == pe + [e] + rest;
        ProbedBodyFilters(t, code[1..], k + 1);
        AsEventsFilters(ProbeAt(t, k));
        assert Instructions([e]) == [e.insn] && OtherEvents([e]) == [];
        InstructionsAppend(pe + [e], rest);
        InstructionsAppend(pe, [e]);
        OtherEventsAppend(pe + [e], rest);
        OtherEventsAppend(pe, [e]);
        var insns := Instructions(code);
        assert insns == [e.insn] + Instructions(code[1..]);
        assert insns[0] == e.insn && insns[1..] == Instructions(code[1..]);
        assert ProbedInsns(t, insns, k) == ProbeAt(t, k) + [e.insn] + ProbedInsns(t, Instructions(code[1..]), k + 1);
      } else {
        ProbedBodyFilters(t, code[1..], k);
        assert ProbedBody(t, code, k) == [e] + ProbedBody(t, code[1..], k);
        assert ProbedBody(t, code, k)[0] == e && ProbedBody(t, code, k)[1..] == ProbedBody(t, code[1..], k);
      }
    }
  }

  /** With no probed offset, the body is forwarded exactly as it came. */
  lemma {:induction false} ProbedBodyWithoutHits(t: Target, code: seq<MethodEvent>, k: int)
    requires HitCount(t, k, |Instructions(code)|) == 0
    ensures ProbedBody(t, code, k) == code
  {
    if code != [] {
      if code[0].Instr? {
        ProbedBodyWithoutHits(t, code[1..], k + 1);
      } else {
        ProbedBodyWithoutHits(t, code[1..], k);
      }
      assert [code[0]] + code[1..] == code;
    }
  }

  /**
   * One more body event, as the rewriter's loop sees it: if the forwarded
   * events stood for the first i events of the body and the i-th event then
   * added its own share, they stand for the first i + 1.
   */
  lemma EventsStep(t: Target, code: seq<MethodEvent>, i: int, k: int,
                   ev0: seq<MethodEvent>, ev: seq<MethodEvent>, ev': seq<MethodEvent>)
    requires 0 <= i < |code|
    requires ev == ev0 + ProbedBody(t, code[..i], k)
    requires ev' == ev + ProbedBody(t, [code[i]], k + |Instructions(code[..i])|)
    ensures ev' == ev0 + ProbedBody(t, code[..i + 1], k)
  {
    assert code[..i + 1] == code[..i] + [code[i]];
    ProbedBodyAppend(t, code[..i], [code[i]], k);
    AppendAssoc(ev0, ProbedBody(t, code[..i], k), ProbedBody(t, [code[i]], k + |Instructions(code[..i])|));
  }

  /** The same step for the offset counter, the listed UIDs and the flag. */
  lemma HitsStep(t: Target, code: seq<MethodEvent>, i: int, k: int, flag0: bool,
                 uids0: seq<int>, uids: seq<int>, uids': seq<int>, flag: bool, flag': bool)
    requires 0 <= i < |code|
    requires uids == uids0 + HitUids(t, k, |Instructions(code[..i])|)
    requires flag == (flag0 || HitCount(t, k, |Instructions(code[..i])|) > 0)
    requires uids' == uids + HitUids(t, k + |Instructions(code[..i])|, |Instructions([code[i]])|)
    requires flag' == (flag || HitCount(t, k + |Instructions(code[..i])|, |Instructions([code[i]])|) > 0)
    ensures |Instructions(code[..i + 1])| == |Instructions(code[..i])| + |Instructions([code[i]])|
    ensures uids' == uids0 + HitUids(t, k, |Instructions(code[..i + 1])|)
    ensures flag' == (flag0 || HitCount(t, k, |Instructions(code[..i + 1])|) > 0)
  {
    var n := |Instructions(code[..i])|;
    var m := |Instructions([code[i]])|;
    assert code[..i + 1] == code[..i] + [code[i]];
    InstructionsAppend(code[..i], [code[i]]);
    HitAppend(t, k, n, m);
    AppendAssoc(uids0, HitUids(t, k, n), HitUids(t, k + n, m));
  }

  /**
   * What a rewriter whose offset counter stands at k and whose flag is flag
   * forwards for one method, as ASM reports it: visitCode, the probed body,
   * visitMaxs with the stack widened when any probe was emitted, and then
   * visitCode again in place of visitEnd. A method without code only gets
   * that last visitCode.
   */
  function Rewritten(t: Target, b: MethodBody, k: int, flag: bool): seq<MethodEvent> {
    match b
    case NoCode => [Code]
    case Body(code, maxStack, maxLocals) =>
      var probed := flag || HitCount(t, k, |Instructions(code)|) > 0;
      [Code] + ProbedBody(t, code, k)
        + [Maxs(if probed then maxStack + WorstCaseStackOffset else maxStack, maxLocals), Code]
  }

  /**
   * A freshly built rewriter on a method body: the instruction stream is the
   * reference stream (so the i-th original instruction keeps its order and is
   * preceded by its probe exactly when its offset is in the table), the other
   * events are the original ones with visitMaxs carrying the widened stack,
   * the instruction count grows by three per probe, and without any probed
   * offset the body and the declared maxima come through unchanged.
   */
  lemma RewrittenBody(t: Target, code: seq<MethodEvent>, maxStack: int, maxLocals: int)
    ensures var n := |Instructions(code)|;
            var out := Rewritten(t, Body(code, maxStack, maxLocals), 0, false);
            && Instructions(out) == ProbedInsns(t, Instructions(code), 0)
            && |Instructions(out)| == n + 3 * HitCount(t, 0, n)
            && OtherEvents(out)
               == [Code] + OtherEvents(code)
                  + [Maxs(if HitCount(t, 0, n) > 0 then maxStack + 2 else maxStack, maxLocals), Code]
            && (HitCount(t, 0, n) == 0 ==> out == [Code] + code + [Maxs(maxStack, maxLocals), Code])
  {
    var n := |Instructions(code)|;
    var ms := Maxs(if HitCount(t, 0, n) > 0 then maxStack + 2 else maxStack, maxLocals);
    var body := ProbedBody(t, code, 0);
    assert Rewritten(t, Body(code, maxStack, maxLocals), 0, false) == [Code] + body + [ms, Code];
    WrappedFilters(body, ms);
    ProbedBodyFilters(t, code, 0);
    ProbedInsnsLength(t, Instructions(code), 0);
    if HitCount(t, 0, n) == 0 {
      ProbedBodyWithoutHits(t, code, 0);
    }
  }

  /** Framing a body with visitCode before and visitMaxs, visitCode after adds no instruction. */
  lemma WrappedFilters(body: seq<MethodEvent>, ms: MethodEvent)
    requires ms.Maxs?
    ensures Instructions([Code] + body + [ms, Code]) == Instructions(body)
    ensures OtherEvents([Code] + body + [ms, Code]) == [Code] + OtherEvents(body) + [ms, Code]
  {
    assert Instructions([Code]) == [];
    assert Instructions([ms, Code]) == [];
    assert OtherEvents([Code]) == [Code];
    assert OtherEvents([ms, Code]) == [ms, Code];
    InstructionsAppend([Code] + body, [ms, Code]);
    InstructionsAppend([Code], body);
    OtherEventsAppend([Code] + body, [ms, Code]);
    OtherEventsAppend([Code], body);
  }

  /** The events forwarded one call at a time for a method with code are its rewritten events. */
  lemma RewrittenCode(t: Target, code: seq<MethodEvent>, maxStack: int, maxLocals: int, k: int, flag: bool,
                      e0: seq<MethodEvent>)
    ensures var probed := flag || HitCount(t, k, |Instructions(code)|) > 0;
            e0 + [Code] + ProbedBody(t, code, k)
              + [Maxs(if probed then maxStack + WorstCaseStackOffset else maxStack, maxLocals)] + [Code]
            == e0 + Rewritten(t, Body(code, maxStack, maxLocals), k, flag)
  {
    var probed := flag || HitCount(t, k, |Instructions(code)|) > 0;
    var maxs := Maxs(if probed then maxStack + WorstCaseStackOffset else maxStack, maxLocals);
    var body := ProbedBody(t, code, k);
    assert Rewritten(t, Body(code, maxStack, maxLocals), k, flag) == [Code] + body + [maxs, Code];
    assert e0 + [Code] + body + [maxs] + [Code] == e0 + ([Code] + body + [maxs, Code]);
  }

  // ---------------------------------------------------------------------
  // The rewriter object

  /**
   * A growable list of ints (a java.util.List<Integer>): the UIDs probed so
   * far, shared by every rewriter of one class, and the parsed line numbers.
   */
  class IntList {
    var items: seq<int>

    constructor ()
      ensures items == []
    {
      items := [];
    }

    method Add(n: int)
      modifies this
      ensures items == old(items) + [n]
    {
      items := items + [n];
    }
  }

  /** InstrumentByteCode: a method visitor that forwards to mv, probing as it goes. */
  class MethodRewriter {
    const mv: MethodSink
    /** The class, the method id, the offset table and the block hash this rewriter probes against. */
    const target: Target
    const locs: IntList
    var bcLine: int
    var instrumented: bool

    constructor (mv: MethodSink, name: string, mName: string, offsetUIDMap: map<int, int>,
                 instrumentedLocations: IntList, hash: BlockHash)
      ensures this.mv == mv && locs == instrumentedLocations
      ensures target == Target(name, mName, offsetUIDMap, hash)
      ensures bcLine == 0 && !instrumented
    {
      this.mv := mv;
      target := Target(name, mName, offsetUIDMap, hash);
      locs := instrumentedLocations;
      bcLine := 0;
      instrumented := false;
    }

    /** instrumentByteCode at the current offset: the probe goes straight downstream and its UID is listed. */
    method InstrumentCurrentOffset()
      modifies mv, locs, this`instrumented
      ensures mv.events == old(mv.events) + AsEvents(ProbeAt(target, bcLine))
      ensures locs.items == old(locs.items) + NewHit(target, bcLine)
      ensures instrumented == (old(instrumented) || ShouldBeInstrumented(target, bcLine))
    {
      if ShouldBeInstrumented(target, bcLine) {
        instrumented := true;
        var uid := UniqueIdentifier(target, bcLine);
        mv.Emit(Instr(FieldInsn(GETSTATIC, target.className, ReporterField, ReporterDesc)));
        mv.Emit(Instr(LdcInsn(IntConstant(uid))));
        mv.Emit(Instr(MethodInsn(INVOKEVIRTUAL, LogOwner, "record", "(I)V", false)));
        locs.Add(uid);
      }
    }

    /** Any of the thirteen visit...Insn calls: probe, count the instruction, forward it. */
    method VisitInsn(insn: Instruction)
      modifies mv, locs, this`instrumented, this`bcLine
      ensures bcLine == old(bcLine) + 1
      ensures mv.events == old(mv.events) + AsEvents(ProbeAt(target, old(bcLine))) + [Instr(insn)]
      ensures locs.items == old(locs.items) + NewHit(target, old(bcLine))
      ensures instrumented == (old(instrumented) || ShouldBeInstrumented(target, old(bcLine)))
    {
      InstrumentCurrentOffset();
      bcLine := bcLine + 1;
      mv.Emit(Instr(insn));
    }

    /** visitCode, visitLabel, visitFrame, visitLineNumber and the other calls the rewriter does not override. */
    method VisitOther(e: MethodEvent)
      requires !e.Instr? && !e.Maxs? && !e.End?
      modifies mv
      ensures mv.events == old(mv.events) + [e]
    {
      mv.Emit(e);
    }

    /** visitMaxs: widen the stack by the probe's two slots when this method was probed. */
    method VisitMaxs(maxStack: int, maxLocals: int)
      modifies mv
      ensures mv.events == old(mv.events)
                           + [Maxs(if instrumented then maxStack + WorstCaseStackOffset else maxStack, maxLocals)]
    {
      if instrumented {
        mv.Emit(Maxs(maxStack + WorstCaseStackOffset, maxLocals));
      } else {
        mv.Emit(Maxs(maxStack, maxLocals));
      }
    }

    /** visitEnd: clear the flag and forward visitCode, not visitEnd. */
    method VisitEnd()
      modifies mv, this`instrumented
      ensures !instrumented
      ensures mv.events == old(mv.events) + [Code]
    {
      instrumented := false;
      mv.Emit(Code);
    }

    /** One call between visitCode and visitMaxs: an instruction is probed and counted, anything else forwarded. */
    method VisitEvent(e: MethodEvent)
      requires IsBodyEvent(e)
      modifies mv, locs, this`instrumented, this`bcLine
      ensures mv.events == old(mv.events) + ProbedBody(target, [e], old(bcLine))
      ensures bcLine == old(bcLine) + |Instructions([e])|
      ensures instrumented == (old(instrumented) || HitCount(target, old(bcLine), |Instructions([e])|) > 0)
      ensures locs.items == old(locs.items) + HitUids(target, old(bcLine), |Instructions([e])|)
    {
      assert [e][1..] == [];
      if e.Instr? {
        VisitInsn(e.insn);
      } else {
        VisitOther(e);
      }
    }

    /** The calls between visitCode and visitMaxs, one per event of the body, in order. */
    method VisitBody(code: seq<MethodEvent>)
      requires AllBodyEvents(code)
      modifies mv, locs, this`instrumented, this`bcLine
      ensures mv.events == old(mv.events) + ProbedBody(target, code, old(bcLine))
      ensures bcLine == old(bcLine) + |Instructions(code)|
      ensures instrumented == (old(instrumented) || HitCount(target, old(bcLine), |Instructions(code)|) > 0)
      ensures locs.items == old(locs.items) + HitUids(target, old(bcLine), |Instructions(code)|)
    {
      var t := target;
      var k := bcLine;
      for i := 0 to |code|
        invariant mv.events == old(mv.events) + ProbedBody(t, code[..i], k)
        invariant bcLine == k + |Instructions(code[..i])|
        invariant instrumented == (old(instrumented) || HitCount(t, k, |Instructions(code[..i])|) > 0)
        invariant locs.items == old(locs.items) + HitUids(t, k, |Instructions(code[..i])|)
      {
        ghost var ev, uids, flag := mv.events, locs.items, instrumented;
        VisitEvent(code[i]);
        EventsStep(t, code, i, k, old(mv.events), ev, mv.events);
        HitsStep(t, code, i, k, old(instrumented), old(locs.items), uids, locs.items, flag, instrumented);
      }
      assert code[..|code|] == code;
    }

    /** The calls a class reader makes for one method, from visitCode to visitEnd. */
    method AcceptBody(b: MethodBody)
      requires WellFormedBody(b)
      modifies mv, locs, this`instrumented, this`bcLine
      ensures mv.events == old(mv.events) + Rewritten(target, b, old(bcLine), old(instrumented))
      ensures locs.items
              == old(locs.items) + (if b.Body? then HitUids(target, old(bcLine), |Instructions(b.code)|) else [])
      ensures !instrumented
    {
      if b.Body? {
        AcceptCode(b.code, b.maxStack, b.maxLocals);
      } else {
        VisitEnd();
      }
    }

    /** A method with a Code attribute: visitCode, the body, visitMaxs, visitEnd. */
    method AcceptCode(code: seq<MethodEvent>, maxStack: int, maxLocals: int)
      requires AllBodyEvents(code)
      modifies mv, locs, this`instrumented, this`bcLine
      ensures mv.events
              == old(mv.events) + Rewritten(target, Body(code, maxStack, maxLocals), old(bcLine), old(instrumented))
      ensures locs.items == old(locs.items) + HitUids(target, old(bcLine), |Instructions(code)|)
      ensures !instrumented
    {
      ghost var t, k, flag, e0 := target, bcLine, instrumented, mv.events;
      VisitOther(Code);
      VisitBody(code);
      VisitMaxs(maxStack, maxLocals);
      VisitEnd();
      RewrittenCode(t, code, maxStack, maxLocals, k, flag, e0);
    }
  }
}
