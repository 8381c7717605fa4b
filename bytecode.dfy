/**
 * The abstract view of a class file the instrumenter works on: the events an
 * ASM ClassReader reports for a class and for each method body, and the
 * opcodes and flags the instrumenter emits or tests.
 */
module Bytecode {

  // Opcodes, section 6.5 of the Java Virtual Machine Specification (SE 8).
  const RETURN: int := 177
  const GETSTATIC: int := 178
  const PUTSTATIC: int := 179
  const INVOKEVIRTUAL: int := 182
  const INVOKESTATIC: int := 184

  // Access flags, sections 4.1, 4.5 and 4.6 of the same specification.
  const ACC_STATIC: bv16 := 0x0008
  const ACC_INTERFACE: bv16 := 0x0200

  type Label = int

  /** A constant loaded by LDC. */
  datatype Constant = IntConstant(i: int) | StringConstant(s: string) | TypeConstant(desc: string)

  /** One real instruction, named after the ASM visit method that reports it. */
  datatype Instruction =
    | Insn(opcode: int)
    | IntInsn(opcode: int, operand: int)
    | VarInsn(opcode: int, slot: int)
    | TypeInsn(opcode: int, typeName: string)
    | FieldInsn(opcode: int, owner: string, name: string, desc: string)
    | MethodInsn(opcode: int, owner: string, name: string, desc: string, isInterface: bool)
    | InvokeDynamicInsn(name: string, desc: string, bootstrap: string)
    | JumpInsn(opcode: int, target: Label)
    | LdcInsn(constant: Constant)
    | IincInsn(slot: int, increment: int)
    | TableSwitchInsn(low: int, high: int, dflt: Label, targets: seq<Label>)
    | LookupSwitchInsn(dflt: Label, keys: seq<int>, targets: seq<Label>)
    | MultiANewArrayInsn(desc: string, dims: int)

  /** One call a method visitor receives, in the order ASM makes them. */
  datatype MethodEvent =
    | Code                                   // visitCode
    | Instr(insn: Instruction)               // one of the thirteen visit...Insn calls
    | LabelMark(mark: Label)                 // visitLabel
    | Frame(frameType: int)                  // visitFrame
    | LineNumber(line: int, start: Label)    // visitLineNumber
    | TryCatchBlock(start: Label, stop: Label, handler: Label, exceptionType: string)
    | LocalVariable(name: string, desc: string, start: Label, stop: Label, slot: int)
    | Maxs(maxStack: int, maxLocals: int)    // visitMaxs
    | End                                    // visitEnd

  /** An event that may stand between visitCode and visitMaxs. */
  predicate IsBodyEvent(e: MethodEvent) {
    !(e.Code? || e.Maxs? || e.End?)
  }

  predicate AllBodyEvents(code: seq<MethodEvent>) {
    forall i :: 0 <= i < |code| ==> IsBodyEvent(code[i])
  }

  /** A method without code (abstract or native), or one with a Code attribute. */
  datatype MethodBody =
    | NoCode
    | Body(code: seq<MethodEvent>, maxStack: int, maxLocals: int)

  /** The events a ClassReader reports for a method body. */
  function Events(b: MethodBody): seq<MethodEvent> {
    match b
    case NoCode => [End]
    case Body(code, maxStack, maxLocals) => [Code] + code + [Maxs(maxStack, maxLocals), End]
  }

  predicate WellFormedBody(b: MethodBody) {
    b.Body? ==> AllBodyEvents(b.code)
  }

  datatype FieldInfo = FieldInfo(access: bv16, name: string, desc: string)

  datatype MethodInfo = MethodInfo(access: bv16, name: string, desc: string, body: MethodBody)

  /** A parsed class: its access flags, internal name, fields and methods. */
  datatype ClassFile = ClassFile(access: bv16, name: string, fields: seq<FieldInfo>, methods: seq<MethodInfo>)

  predicate WellFormedClass(cf: ClassFile) {
    forall i :: 0 <= i < |cf.methods| ==> WellFormedBody(cf.methods[i].body)
  }

  /** One call a class visitor forwards downstream (a field or a method with all its events). */
  datatype ClassEvent =
    | Field(field: FieldInfo)
    | Method(access: bv16, name: string, desc: string, events: seq<MethodEvent>)
    | ClassEnd

  /** The instructions among a sequence of method events, in order. */
  function Instructions(events: seq<MethodEvent>): (r: seq<Instruction>)
    ensures |r| <= |events|
  {
    if events == [] then []
    else if events[0].Instr? then [events[0].insn] + Instructions(events[1..])
    else Instructions(events[1..])
  }

  /** Regrouping a concatenation (stated once, so that callers need not re-derive it element by element). */
  lemma AppendAssoc<T>(a: seq<T>, b: seq<T>, c: seq<T>)
    ensures a + b + c == a + (b + c)
  {
  }

  lemma {:induction false} InstructionsAppend(a: seq<MethodEvent>, b: seq<MethodEvent>)
    ensures Instructions(a + b) == Instructions(a) + Instructions(b)
  {
    if a == [] {
      assert a + b == b;
    } else {
      assert (a + b)[0] == a[0] && (a + b)[1..] == a[1..] + b;
      InstructionsAppend(a[1..], b);
    }
  }

  /** The events other than instructions, in order. */
  function OtherEvents(events: seq<MethodEvent>): (r: seq<MethodEvent>)
    ensures |r| <= |events|
  {
    if events == [] then []
    else if events[0].Instr? then OtherEvents(events[1..])
    else [events[0]] + OtherEvents(events[1..])
  }

  lemma {:induction false} OtherEventsAppend(a: seq<MethodEvent>, b: seq<MethodEvent>)
    ensures OtherEvents(a + b) == OtherEvents(a) + OtherEvents(b)
  {
    if a == [] {
      assert a + b == b;
    } else {
      assert (a + b)[0] == a[0] && (a + b)[1..] == a[1..] + b;
      OtherEventsAppend(a[1..], b);
    }
  }

  /** Instructions as the events that report them. */
  function AsEvents(insns: seq<Instruction>): (r: seq<MethodEvent>)
    ensures |r| == |insns|
    ensures forall i :: 0 <= i < |r| ==> r[i] == Instr(insns[i])
  {
    if insns == [] then [] else [Instr(insns[0])] + AsEvents(insns[1..])
  }

  /** Wrapping instructions as events and filtering them back out loses nothing and adds nothing else. */
  lemma {:induction false} AsEventsFilters(insns: seq<Instruction>)
    ensures Instructions(AsEvents(insns)) == insns
    ensures OtherEvents(AsEvents(insns)) == []
  {
    if insns != [] {
      var e := AsEvents(insns);
      assert e[1..] == AsEvents(insns[1..]);
      AsEventsFilters(insns[1..]);
    }
  }

  /** Instructions put in front of a stream of events are the front of its instruction stream and add no other event. */
  lemma PrependFilters(pre: seq<Instruction>, rest: seq<MethodEvent>)
    ensures Instructions(AsEvents(pre) + rest) == pre + Instructions(rest)
    ensures OtherEvents(AsEvents(pre) + rest) == OtherEvents(rest)
  {
    AsEventsFilters(pre);
    InstructionsAppend(AsEvents(pre), rest);
    OtherEventsAppend(AsEvents(pre), rest);
    assert [] + OtherEvents(rest) == OtherEvents(rest);
  }

  /** A downstream method visitor (the method writer): it keeps every call it receives. */
  class MethodSink {
    var events: seq<MethodEvent>

    constructor ()
      ensures events == []
    {
      events := [];
    }

    method Emit(e: MethodEvent)
      modifies this
      ensures events == old(events) + [e]
    {
      events := events + [e];
    }

    /** Forward a whole sequence of calls, one at a time, unchanged. */
    method EmitAll(es: seq<MethodEvent>)
      modifies this
      ensures events == old(events) + es
    {
      for i := 0 to |es|
        invariant events == old(events) + es[..i]
      {
        assert es[..i + 1] == es[..i] + [es[i]];
        AppendAssoc(old(events), es[..i], [es[i]]);
        Emit(es[i]);
      }
      assert es[..|es|] == es;
    }
  }

  /** A downstream class visitor (the class writer): it keeps every call it receives. */
  class ClassSink {
    var events: seq<ClassEvent>

    constructor ()
      ensures events == []
    {
      events := [];
    }

    method Emit(e: ClassEvent)
      modifies this
      ensures events == old(events) + [e]
    {
      events := events + [e];
    }
  }
}
