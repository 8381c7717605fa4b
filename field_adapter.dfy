/**
 * The class-level adapter: it forwards a class's fields and methods to the
 * class writer, wraps every method in the per-method rewriter (and `<clinit>`
 * in the static-initialiser rewriter), and at the end adds the reporter field
 * and, if the class has none, a `<clinit>` that fills it. A class that
 * already declares the reporter field is passed through untouched.
 */
module FieldAdapter {
  import opened Bytecode
  import opened InstrumentByteCode
  import opened ExtendStaticInit

  const StaticInitName: string := "<clinit>"
  const StaticInitDesc: string := "()V"

  /** What one adapter is built with: the field to add, the class and the offset table. */
  datatype Config = Config(fAcc: bv16, fName: string, fDesc: string, className: string,
                           table: map<int, int>, hash: BlockHash)

  function ReporterFieldOf(c: Config): FieldInfo {
    FieldInfo(c.fAcc, c.fName, c.fDesc)
  }

  /** The rewriter a method gets: same class and table, method id `name:desc`. */
  function MethodTarget(c: Config, m: MethodInfo): Target {
    Target(c.className, m.name + ":" + m.desc, c.table, c.hash)
  }

  /**
   * The calls the class writer receives for one method: its own events when
   * the class is already instrumented, otherwise those of the `<clinit>`
   * rewriter or of the ordinary rewriter, each starting at offset 0.
   */
  function MethodOut(c: Config, instrumented: bool, m: MethodInfo): seq<MethodEvent> {
    if instrumented then Events(m.body)
    else if m.name == StaticInitName then RewrittenStaticInit(MethodTarget(c, m), m.body, 0, false)
    else Rewritten(MethodTarget(c, m), m.body, 0, false)
  }

  function AdaptedMethod(c: Config, instrumented: bool, m: MethodInfo): ClassEvent {
    Method(m.access, m.name, m.desc, MethodOut(c, instrumented, m))
  }

  /** The UIDs the rewriter of one method lists. */
  function MethodHits(c: Config, instrumented: bool, m: MethodInfo): seq<int> {
    if instrumented || m.body.NoCode? then [] else HitUids(MethodTarget(c, m), 0, |Instructions(m.body.code)|)
  }

  function FieldEvents(fields: seq<FieldInfo>): (r: seq<ClassEvent>)
    ensures |r| == |fields|
  {
    if fields == [] then [] else FieldEvents(fields[..|fields| - 1]) + [Field(fields[|fields| - 1])]
  }

  function AdaptedMethods(c: Config, instrumented: bool, methods: seq<MethodInfo>): (r: seq<ClassEvent>)
    ensures |r| == |methods|
  {
    if methods == [] then []
    else AdaptedMethods(c, instrumented, methods[..|methods| - 1]) + [AdaptedMethod(c, instrumented, methods[|methods| - 1])]
  }

  function MethodsHits(c: Config, instrumented: bool, methods: seq<MethodInfo>): seq<int> {
    if methods == [] then []
    else MethodsHits(c, instrumented, methods[..|methods| - 1]) + MethodHits(c, instrumented, methods[|methods| - 1])
  }

  /** Whether a field of that name has been seen (visitField's test). */
  predicate HasFieldNamed(fields: seq<FieldInfo>, name: string) {
    fields != [] && (fields[|fields| - 1].name == name || HasFieldNamed(fields[..|fields| - 1], name))
  }

  /** Whether a `<clinit>` has been seen. */
  predicate HasStaticInit(methods: seq<MethodInfo>) {
    methods != [] && (methods[|methods| - 1].name == StaticInitName || HasStaticInit(methods[..|methods| - 1]))
  }

  /** The `<clinit>` visitEnd synthesizes: fetch the ledger into the field, return. */
  function SynthesizedStaticInit(className: string): ClassEvent {
    Method(ACC_STATIC, StaticInitName, StaticInitDesc,
           [Code] + AsEvents(LoggerInstance(className)) + [Instr(Insn(RETURN)), Maxs(1, 0), End])
  }

  /** What visitEnd forwards. */
  function Trailer(c: Config, instrumented: bool, hasStaticInit: bool): seq<ClassEvent> {
    if instrumented then [ClassEnd]
    else [Field(ReporterFieldOf(c))] + (if hasStaticInit then [] else [SynthesizedStaticInit(c.className)]) + [ClassEnd]
  }

  /** The class writer's input for a whole class read through a fresh adapter. */
  function AdaptedClass(c: Config, cf: ClassFile): seq<ClassEvent> {
    var instrumented := HasFieldNamed(cf.fields, c.fName);
    FieldEvents(cf.fields) + AdaptedMethods(c, instrumented, cf.methods)
      + Trailer(c, instrumented, !instrumented && HasStaticInit(cf.methods))
  }

  /** The UIDs listed while reading a whole class through a fresh adapter. */
  function ClassHits(c: Config, cf: ClassFile): seq<int> {
    MethodsHits(c, HasFieldNamed(cf.fields, c.fName), cf.methods)
  }

  /** The class exactly as read: every field and method forwarded with its own events. */
  function CopiedMethods(methods: seq<MethodInfo>): (r: seq<ClassEvent>)
    ensures |r| == |methods|
  {
    if methods == [] then []
    else
      var m := methods[|methods| - 1];
      CopiedMethods(methods[..|methods| - 1]) + [Method(m.access, m.name, m.desc, Events(m.body))]
  }

  function CopiedClass(cf: ClassFile): seq<ClassEvent> {
    FieldEvents(cf.fields) + CopiedMethods(cf.methods) + [ClassEnd]
  }

  /** The fields a class writer receives, in order. */
  function DeclaredFields(events: seq<ClassEvent>): seq<FieldInfo> {
    if events == [] then []
    else DeclaredFields(events[..|events| - 1])
         + (if events[|events| - 1].Field? then [events[|events| - 1].field] else [])
  }

  // ---------------------------------------------------------------------
  // Properties of the whole-class transformation

  lemma {:induction false} HasFieldNamedIff(fields: seq<FieldInfo>, name: string)
    ensures HasFieldNamed(fields, name) <==> exists i :: 0 <= i < |fields| && fields[i].name == name
  {
    if fields != [] {
      var init := fields[..|fields| - 1];
      HasFieldNamedIff(init, name);
      if HasFieldNamed(init, name) {
        var i :| 0 <= i < |init| && init[i].name == name;
        assert fields[i].name == name;
      }
      if exists i :: 0 <= i < |fields| && fields[i].name == name {
        var i :| 0 <= i < |fields| && fields[i].name == name;
        if i < |init| {
          assert init[i].name == name;
        }
      }
    }
  }

  lemma {:induction false} AdaptedMethodsWhenInstrumented(c: Config, methods: seq<MethodInfo>)
    ensures AdaptedMethods(c, true, methods) == CopiedMethods(methods)
    ensures MethodsHits(c, true, methods) == []
  {
    if methods != [] {
      AdaptedMethodsWhenInstrumented(c, methods[..|methods| - 1]);
    }
  }

  /**
   * A class that already declares the reporter field is copied through:
   * every field and method with its own events, no added field, no
   * synthesized `<clinit>`, and no UID listed.
   */
  lemma PassThroughWhenInstrumented(c: Config, cf: ClassFile)
    requires exists i :: 0 <= i < |cf.fields| && cf.fields[i].name == c.fName
    ensures AdaptedClass(c, cf) == CopiedClass(cf)
    ensures ClassHits(c, cf) == []
  {
    HasFieldNamedIff(cf.fields, c.fName);
    AdaptedMethodsWhenInstrumented(c, cf.methods);
  }

  lemma {:induction false} DeclaredFieldsAppend(a: seq<ClassEvent>, b: seq<ClassEvent>)
    ensures DeclaredFields(a + b) == DeclaredFields(a) + DeclaredFields(b)
    decreases |b|
  {
    if b == [] {
      assert a + b == a;
    } else {
      var b' := b[..|b| - 1];
      assert (a + b)[..|a + b| - 1] == a + b';
      DeclaredFieldsAppend(a, b');
      AppendAssoc(DeclaredFields(a), DeclaredFields(b'), DeclaredFields([b[|b| - 1]]));
    }
  }

  lemma {:induction false} DeclaredFieldsOfFields(fields: seq<FieldInfo>)
    ensures DeclaredFields(FieldEvents(fields)) == fields
  {
    if fields != [] {
      var init := fields[..|fields| - 1];
      DeclaredFieldsOfFields(init);
      DeclaredFieldsAppend(FieldEvents(init), [Field(fields[|fields| - 1])]);
      assert DeclaredFields([Field(fields[|fields| - 1])]) == [fields[|fields| - 1]];
      assert init + [fields[|fields| - 1]] == fields;
    }
  }

  lemma {:induction false} DeclaredFieldsOfMethods(c: Config, instrumented: bool, methods: seq<MethodInfo>)
    ensures DeclaredFields(AdaptedMethods(c, instrumented, methods)) == []
  {
    if methods != [] {
      var init := methods[..|methods| - 1];
      DeclaredFieldsOfMethods(c, instrumented, init);
      DeclaredFieldsAppend(AdaptedMethods(c, instrumented, init), [AdaptedMethod(c, instrumented, methods[|methods| - 1])]);
      assert DeclaredFields([AdaptedMethod(c, instrumented, methods[|methods| - 1])]) == [];
    }
  }

  /** A single forwarded call declares its field, if it is one. */
  lemma DeclaredFieldsOne(e: ClassEvent)
    ensures DeclaredFields([e]) == if e.Field? then [e.field] else []
  {
    assert [e][..0] == [];
  }

  /** Three forwarded runs declare, in order, the fields each declares. */
  lemma {:induction false} FieldsOfParts(a: seq<ClassEvent>, b: seq<ClassEvent>, d: seq<ClassEvent>,
                                         fa: seq<FieldInfo>, fb: seq<FieldInfo>, fd: seq<FieldInfo>)
    requires DeclaredFields(a) == fa && DeclaredFields(b) == fb && DeclaredFields(d) == fd
    ensures DeclaredFields(a + b + d) == fa + fb + fd
  {
    DeclaredFieldsAppend(a + b, d);
    DeclaredFieldsAppend(a, b);
  }

  lemma TrailerFields(c: Config, instrumented: bool, hasStaticInit: bool)
    ensures DeclaredFields(Trailer(c, instrumented, hasStaticInit))
            == if instrumented then [] else [ReporterFieldOf(c)]
  {
    DeclaredFieldsOne(ClassEnd);
    if !instrumented {
      var f := ReporterFieldOf(c);
      var init: seq<ClassEvent> := if hasStaticInit then [] else [SynthesizedStaticInit(c.className)];
      DeclaredFieldsOne(Field(f));
      DeclaredFieldsOne(SynthesizedStaticInit(c.className));
      assert DeclaredFields(init) == [];
      FieldsOfParts([Field(f)], init, [ClassEnd], [f], [], []);
      assert [f] + [] + [] == [f];
    }
  }

  /** The fields forwarded for a class: its own, then the reporter field unless it was there. */
  lemma AdaptedClassFields(c: Config, cf: ClassFile)
    ensures DeclaredFields(AdaptedClass(c, cf))
            == cf.fields + (if HasFieldNamed(cf.fields, c.fName) then [] else [ReporterFieldOf(c)])
  {
    var instrumented := HasFieldNamed(cf.fields, c.fName);
    var hasStaticInit := !instrumented && HasStaticInit(cf.methods);
    var extra: seq<FieldInfo> := if instrumented then [] else [ReporterFieldOf(c)];
    var fe := FieldEvents(cf.fields);
    var am := AdaptedMethods(c, instrumented, cf.methods);
    var tr := Trailer(c, instrumented, hasStaticInit);
    assert AdaptedClass(c, cf) == fe + am + tr;
    DeclaredFieldsOfFields(cf.fields);
    DeclaredFieldsOfMethods(c, instrumented, cf.methods);
    TrailerFields(c, instrumented, hasStaticInit);
    FieldsOfParts(fe, am, tr, cf.fields, [], extra);
    assert cf.fields + [] + extra == cf.fields + extra;
  }

  /**
   * The fields the class writer receives: those of the class, in order, and
   * then exactly one more, the reporter field, unless the class already had it.
   */
  lemma AdaptedFields(c: Config, cf: ClassFile)
    ensures var fields := DeclaredFields(AdaptedClass(c, cf));
            && ((exists i :: 0 <= i < |cf.fields| && cf.fields[i].name == c.fName) ==> fields == cf.fields)
            && ((forall i :: 0 <= i < |cf.fields| ==> cf.fields[i].name != c.fName)
                  ==> fields == cf.fields + [ReporterFieldOf(c)])
  {
    AdaptedClassFields(c, cf);
    HasFieldNamedIff(cf.fields, c.fName);
    if HasFieldNamed(cf.fields, c.fName) {
      assert cf.fields + [] == cf.fields;
    }
  }

  /**
   * After one pass the reporter field is always declared, so reading the
   * output through a second adapter with the same field name is a pass-through.
   */
  lemma OutputIsMarked(c: Config, cf: ClassFile)
    ensures exists i :: 0 <= i < |DeclaredFields(AdaptedClass(c, cf))|
                        && DeclaredFields(AdaptedClass(c, cf))[i].name == c.fName
  {
    AdaptedFields(c, cf);
    var fields := DeclaredFields(AdaptedClass(c, cf));
    if exists i :: 0 <= i < |cf.fields| && cf.fields[i].name == c.fName {
      var i :| 0 <= i < |cf.fields| && cf.fields[i].name == c.fName;
      assert fields[i].name == c.fName;
    } else {
      assert fields[|cf.fields|] == ReporterFieldOf(c);
    }
  }

  /**
   * Every `<clinit>` of an instrumented class fetches the ledger before
   * anything else: an existing one with code gets the pair ahead of its
   * first instruction, and the synthesized one is the pair and a return.
   */
  lemma StaticInitTakesLoggerFirst(c: Config, m: MethodInfo)
    requires m.name == StaticInitName && m.body.Body?
    ensures var insns := Instructions(MethodOut(c, false, m));
            |insns| >= 2 && insns[..2] == LoggerInstance(c.className)
    ensures Instructions(SynthesizedStaticInit(c.className).events) == LoggerInstance(c.className) + [Insn(RETURN)]
  {
    StaticInitShape(MethodTarget(c, m), m.body.code, m.body.maxStack, m.body.maxLocals);
    assert m.body == Body(m.body.code, m.body.maxStack, m.body.maxLocals);
    var pair := AsEvents(LoggerInstance(c.className));
    var tail: seq<MethodEvent> := [Instr(Insn(RETURN)), Maxs(1, 0), End];
    assert Instructions(tail[2..]) == [] by {
      assert tail[2..][1..] == [];
    }
    assert tail[1..][1..] == tail[2..];
    assert Instructions(tail) == [Insn(RETURN)] + Instructions(tail[1..]);
    assert Instructions([Code]) == [];
    AsEventsFilters(LoggerInstance(c.className));
    InstructionsAppend([Code] + pair, tail);
    InstructionsAppend([Code], pair);
  }

  /** The `<clinit>` visitEnd adds exists exactly when the class has none of its own. */
  lemma SynthesizedOnlyWithoutStaticInit(c: Config, cf: ClassFile)
    requires forall i :: 0 <= i < |cf.fields| ==> cf.fields[i].name != c.fName
    ensures var out := AdaptedClass(c, cf);
            var n := |cf.fields| + |cf.methods|;
            && (!HasStaticInit(cf.methods) ==> out[n..] == [Field(ReporterFieldOf(c)), SynthesizedStaticInit(c.className), ClassEnd])
            && (HasStaticInit(cf.methods) ==> out[n..] == [Field(ReporterFieldOf(c)), ClassEnd])
  {
    HasFieldNamedIff(cf.fields, c.fName);
    var fe := FieldEvents(cf.fields);
    var me := AdaptedMethods(c, false, cf.methods);
    var out := AdaptedClass(c, cf);
    assert out == fe + me + Trailer(c, false, HasStaticInit(cf.methods));
    assert |fe + me| == |cf.fields| + |cf.methods|;
  }

  // ---------------------------------------------------------------------
  // The adapter object

  /** FieldAdapter: the class visitor the reader drives. */
  class ClassAdapter {
    const cv: ClassSink
    const config: Config
    const instrumentedLocs: IntList
    var isInstrumented: bool
    var hasStaticInit: bool

    /** A fresh adapter has seen no reporter field and no `<clinit>`. */
    constructor (cv: ClassSink, fieldAcc: bv16, fieldName: string, fieldDesc: string, name: string,
                 offsetUIDMap: map<int, int>, instrumentedLocations: IntList, hash: BlockHash)
      ensures this.cv == cv && instrumentedLocs == instrumentedLocations
      ensures config == Config(fieldAcc, fieldName, fieldDesc, name, offsetUIDMap, hash)
      ensures !isInstrumented && !hasStaticInit
    {
      this.cv := cv;
      config := Config(fieldAcc, fieldName, fieldDesc, name, offsetUIDMap, hash);
      instrumentedLocs := instrumentedLocations;
      isInstrumented := false;
      hasStaticInit := false;
    }

    /** visitField: note the reporter field if this is it, and forward the field unchanged. */
    method VisitField(f: FieldInfo)
      modifies cv, this`isInstrumented
      ensures isInstrumented == (old(isInstrumented) || f.name == config.fName)
      ensures cv.events == old(cv.events) + [Field(f)]
    {
      if f.name == config.fName {
        isInstrumented := true;
      }
      cv.Emit(Field(f));
    }

    /**
     * visitMethod, and the reader's calls on the visitor it returns: the
     * method writer gets the method through the `<clinit>` rewriter, the
     * ordinary rewriter, or, in an instrumented class, directly.
     */
    method VisitMethod(m: MethodInfo)
      requires WellFormedBody(m.body)
      modifies cv, instrumentedLocs, this`hasStaticInit
      ensures hasStaticInit == (old(hasStaticInit) || (!isInstrumented && m.name == StaticInitName))
      ensures cv.events == old(cv.events) + [AdaptedMethod(config, isInstrumented, m)]
      ensures instrumentedLocs.items == old(instrumentedLocs.items) + MethodHits(config, isInstrumented, m)
    {
      var mv := new MethodSink();
      var id := m.name + ":" + m.desc;
      if !isInstrumented {
        if m.name == StaticInitName {
          hasStaticInit := true;
          var r := new StaticInitRewriter(mv, config.className, id, config.table, instrumentedLocs, config.hash);
          r.AcceptBody(m.body);
          assert mv.events == MethodOut(config, isInstrumented, m);
        } else {
          var r := new MethodRewriter(mv, config.className, id, config.table, instrumentedLocs, config.hash);
          r.AcceptBody(m.body);
          assert mv.events == MethodOut(config, isInstrumented, m);
        }
      } else {
        mv.EmitAll(Events(m.body));
        assert mv.events == MethodOut(config, isInstrumented, m);
      }
      cv.Emit(Method(m.access, m.name, m.desc, mv.events));
    }

    /**
     * visitEnd: add the reporter field and, if needed, a `<clinit>` that fills
     * it; always forward visitEnd. added says whether it synthesized the
     * `<clinit>`, which is when it prints that it added one.
     */
    method VisitEnd() returns (added: bool)
      modifies cv
      ensures cv.events == old(cv.events) + Trailer(config, isInstrumented, hasStaticInit)
      ensures added == (!isInstrumented && !hasStaticInit)
    {
      added := false;
      if !isInstrumented {
        cv.Emit(Field(FieldInfo(config.fAcc, config.fName, config.fDesc)));
        if !hasStaticInit {
          var mv := new MethodSink();
          mv.Emit(Code);
          PutLoggerInstance(mv, config.className);
          mv.Emit(Instr(Insn(RETURN)));
          mv.Emit(Maxs(1, 0));
          mv.Emit(End);
          assert mv.events == [Code] + AsEvents(LoggerInstance(config.className)) + [Instr(Insn(RETURN)), Maxs(1, 0), End];
          cv.Emit(Method(ACC_STATIC, StaticInitName, StaticInitDesc, mv.events));
          added := true;
        }
      }
      cv.Emit(ClassEnd);
    }

    /**
     * The class reader driving a fresh adapter: every field, then every
     * method, then visitEnd; added is visitEnd's.
     */
    method Accept(cf: ClassFile) returns (added: bool)
      requires WellFormedClass(cf)
      requires !isInstrumented && !hasStaticInit
      modifies cv, instrumentedLocs, this`isInstrumented, this`hasStaticInit
      ensures cv.events == old(cv.events) + AdaptedClass(config, cf)
      ensures instrumentedLocs.items == old(instrumentedLocs.items) + ClassHits(config, cf)
      ensures isInstrumented == HasFieldNamed(cf.fields, config.fName)
      ensures added == (!isInstrumented && !HasStaticInit(cf.methods))
    {
      for i := 0 to |cf.fields|
        invariant cv.events == old(cv.events) + FieldEvents(cf.fields[..i])
        invariant isInstrumented == HasFieldNamed(cf.fields[..i], config.fName)
        invariant !hasStaticInit && instrumentedLocs.items == old(instrumentedLocs.items)
      {
        ghost var before := cv.events;
        VisitField(cf.fields[i]);
        FieldStep(cf.fields, i, config.fName, old(cv.events), before, cv.events);
      }
      assert cf.fields[..|cf.fields|] == cf.fields;
      ghost var instrumented := isInstrumented;
      ghost var afterFields := cv.events;
      for j := 0 to |cf.methods|
        invariant cv.events == afterFields + AdaptedMethods(config, instrumented, cf.methods[..j])
        invariant instrumentedLocs.items == old(instrumentedLocs.items) + MethodsHits(config, instrumented, cf.methods[..j])
        invariant hasStaticInit == (!instrumented && HasStaticInit(cf.methods[..j]))
        invariant isInstrumented == instrumented
      {
        ghost var before, hits := cv.events, instrumentedLocs.items;
        VisitMethod(cf.methods[j]);
        MethodStep(config, instrumented, cf.methods, j, afterFields, before, cv.events,
                   old(instrumentedLocs.items), hits, instrumentedLocs.items);
      }
      assert cf.methods[..|cf.methods|] == cf.methods;
      ghost var beforeEnd := cv.events;
      added := VisitEnd();
      AppendAssoc(old(cv.events), FieldEvents(cf.fields), AdaptedMethods(config, instrumented, cf.methods));
      AppendAssoc(old(cv.events), FieldEvents(cf.fields) + AdaptedMethods(config, instrumented, cf.methods),
                  Trailer(config, instrumented, hasStaticInit));
    }
  }

  /** One more field read: the forwarded fields and the already-instrumented test grow by it. */
  lemma FieldStep(fields: seq<FieldInfo>, i: int, name: string,
                  ev0: seq<ClassEvent>, ev: seq<ClassEvent>, ev': seq<ClassEvent>)
    requires 0 <= i < |fields|
    requires ev == ev0 + FieldEvents(fields[..i])
    requires ev' == ev + [Field(fields[i])]
    ensures ev' == ev0 + FieldEvents(fields[..i + 1])
    ensures HasFieldNamed(fields[..i + 1], name) == (HasFieldNamed(fields[..i], name) || fields[i].name == name)
  {
    assert fields[..i + 1][..i] == fields[..i];
    AppendAssoc(ev0, FieldEvents(fields[..i]), [Field(fields[i])]);
  }

  /** One more method read: the forwarded methods, the listed UIDs and the `<clinit>` test grow by it. */
  lemma MethodStep(c: Config, instrumented: bool, methods: seq<MethodInfo>, j: int,
                   ev0: seq<ClassEvent>, ev: seq<ClassEvent>, ev': seq<ClassEvent>,
                   uids0: seq<int>, uids: seq<int>, uids': seq<int>)
    requires 0 <= j < |methods|
    requires ev == ev0 + AdaptedMethods(c, instrumented, methods[..j])
    requires ev' == ev + [AdaptedMethod(c, instrumented, methods[j])]
    requires uids == uids0 + MethodsHits(c, instrumented, methods[..j])
    requires uids' == uids + MethodHits(c, instrumented, methods[j])
    ensures ev' == ev0 + AdaptedMethods(c, instrumented, methods[..j + 1])
    ensures uids' == uids0 + MethodsHits(c, instrumented, methods[..j + 1])
    ensures HasStaticInit(methods[..j + 1]) == (HasStaticInit(methods[..j]) || methods[j].name == StaticInitName)
  {
    assert methods[..j + 1][..j] == methods[..j];
    AppendAssoc(ev0, AdaptedMethods(c, instrumented, methods[..j]), [AdaptedMethod(c, instrumented, methods[j])]);
    AppendAssoc(uids0, MethodsHits(c, instrumented, methods[..j]), MethodHits(c, instrumented, methods[j]));
  }
}
