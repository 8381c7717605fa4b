/**
 * instrumentClassFile: pick the property list out of the JBMC output, resolve
 * every property that names a bytecode offset of this class into a block UID
 * (registering it in the ledger and in the offset table), run the class
 * through the field adapter, and report the UIDs that were never probed.
 */
module CoverageInstrument {
  import opened Wrappers
  import opened JavaStrings
  import opened Bytecode
  import CoverageLog
  import opened InstrumentByteCode
  import opened FieldAdapter

  // ---------------------------------------------------------------------
  // coveredLines: comma-separated tokens, each a line or an inclusive range

  /** The integers min, min+1, ..., max in ascending order; empty when min > max. */
  function Range(min: int, max: int): (r: seq<int>)
    ensures |r| == if min > max then 0 else max - min + 1
    ensures forall i :: 0 <= i < |r| ==> r[i] == min + i
    decreases max - min
  {
    if min > max then [] else Range(min, max - 1) + [max]
  }

  /** addRange: append every integer from min to max, inclusive, to the list. */
  method AddRange(min: int, max: int, lineNumbers: IntList)
    modifies lineNumbers
    ensures lineNumbers.items == old(lineNumbers.items) + Range(min, max)
  {
    var k := min;
    while k <= max
      invariant min <= k && (min <= max + 1 ==> k <= max + 1) && (min > max ==> k == min)
      invariant lineNumbers.items == old(lineNumbers.items) + Range(min, k - 1)
      decreases max - k
    {
      AppendAssoc(old(lineNumbers.items), Range(min, k - 1), [k]);
      lineNumbers.Add(k);
      k := k + 1;
    }
  }

  /**
   * One token of coveredLines: split on '-', exactly two parts are an
   * inclusive range, anything else contributes its first part as a single
   * line. Integer.parseInt failures and a token with no part at all (the
   * token "-") raise the exception Java raises.
   */
  function TokenLines(token: string): Result<seq<int>, JavaException> {
    var range := Split(token, '-');
    if |range| == 2 then
      match ParseInt(range[0])
      case Thrown(e) => Thrown(e)
      case Ok(min) =>
        match ParseInt(range[1])
        case Thrown(e) => Thrown(e)
        case Ok(max) => Ok(Range(min, max))
    else if |range| == 0 then Thrown(IndexOutOfBoundsException)
    else
      match ParseInt(range[0])
      case Thrown(e) => Thrown(e)
      case Ok(line) => Ok([line])
  }

  /** The lines of the tokens in order; the first token that raises decides the exception. */
  function TokensLines(tokens: seq<string>): Result<seq<int>, JavaException> {
    if tokens == [] then Ok([])
    else
      match TokenLines(tokens[0])
      case Thrown(e) => Thrown(e)
      case Ok(lines) => Prepend(lines, TokensLines(tokens[1..]))
  }

  function Prepend(lines: seq<int>, r: Result<seq<int>, JavaException>): Result<seq<int>, JavaException> {
    match r
    case Thrown(e) => Thrown(e)
    case Ok(rest) => Ok(lines + rest)
  }

  /** The line numbers of a property: [0] when coveredLines is missing, otherwise its tokens' lines. */
  function LineNumbers(coveredLines: Option<string>): Result<seq<int>, JavaException> {
    match coveredLines
    case None => Ok([0])
    case Some(s) => TokensLines(Split(s, ','))
  }

  /** The loop over coveredLines' tokens, appending to a fresh list. */
  method ReadLineNumbers(coveredLines: Option<string>) returns (r: Result<seq<int>, JavaException>)
    ensures r == LineNumbers(coveredLines)
  {
    var lineNumbers := new IntList();
    if coveredLines.None? {
      lineNumbers.Add(0);
      assert lineNumbers.items == [0];
      return Ok(lineNumbers.items);
    }
    var tokens := Split(coveredLines.value, ',');
    assert tokens[0..] == tokens;
    if TokensLines(tokens).Ok? {
      assert [] + TokensLines(tokens).value == TokensLines(tokens).value;
    }
    for j := 0 to |tokens|
      invariant TokensLines(tokens) == Prepend(lineNumbers.items, TokensLines(tokens[j..]))
    {
      assert tokens[j..][1..] == tokens[j + 1..];
      var range := Split(tokens[j], '-');
      if |range| == 2 {
        var min := ParseInt(range[0]);
        if min.Thrown? {
          return Thrown(min.exception);
        }
        var max := ParseInt(range[1]);
        if max.Thrown? {
          return Thrown(max.exception);
        }
        ghost var before := lineNumbers.items;
        AddRange(min.value, max.value, lineNumbers);
        PrependAssoc(before, Range(min.value, max.value), TokensLines(tokens[j + 1..]));
      } else {
        if |range| == 0 {
          return Thrown(IndexOutOfBoundsException);
        }
        var line := ParseInt(range[0]);
        if line.Thrown? {
          return Thrown(line.exception);
        }
        ghost var before := lineNumbers.items;
        lineNumbers.Add(line.value);
        PrependAssoc(before, [line.value], TokensLines(tokens[j + 1..]));
      }
    }
    assert tokens[|tokens|..] == [];
    assert lineNumbers.items + [] == lineNumbers.items;
    return Ok(lineNumbers.items);
  }

  lemma PrependAssoc(a: seq<int>, b: seq<int>, r: Result<seq<int>, JavaException>)
    ensures Prepend(a, Prepend(b, r)) == Prepend(a + b, r)
  {
    if r.Ok? {
      AppendAssoc(a, b, r.value);
    }
  }

  /** A group of covered lines as JBMC writes it: one line, or an inclusive range. */
  datatype LineSpan = Line(n: nat) | Span(lo: nat, hi: nat)

  function SpanText(s: LineSpan): string {
    match s
    case Line(n) => IntToString(n)
    case Span(lo, hi) => IntToString(lo) + "-" + IntToString(hi)
  }

  function SpansText(spans: seq<LineSpan>): seq<string>
    ensures |SpansText(spans)| == |spans|
  {
    if spans == [] then [] else [SpanText(spans[0])] + SpansText(spans[1..])
  }

  function SpanLines(s: LineSpan): seq<int> {
    match s
    case Line(n) => [n]
    case Span(lo, hi) => Range(lo, hi)
  }

  function SpansLines(spans: seq<LineSpan>): seq<int> {
    if spans == [] then [] else SpanLines(spans[0]) + SpansLines(spans[1..])
  }

  predicate SpanFits(s: LineSpan) {
    match s
    case Line(n) => InInt32(n)
    case Span(lo, hi) => InInt32(lo) && InInt32(hi)
  }

  /** A non-negative number's text is non-empty and made of digits only. */
  lemma NatText(n: nat)
    ensures IntToString(n) != [] && '-' !in IntToString(n) && ',' !in IntToString(n)
  {
    IntToStringSign(n);
    assert AllDigits(IntToString(n));
  }

  lemma SpanTextParses(s: LineSpan)
    requires SpanFits(s)
    ensures TokenLines(SpanText(s)) == Ok(SpanLines(s))
    ensures SpanText(s) != [] && ',' !in SpanText(s)
  {
    match s
    case Line(n) =>
      NatText(n);
      ParseIntOfToString(n);
    case Span(lo, hi) =>
      var a, b := IntToString(lo), IntToString(hi);
      NatText(lo);
      NatText(hi);
      assert Join([a, b], '-') == a + "-" + b;
      SplitJoin([a, b], '-');
      ParseIntOfToString(lo);
      ParseIntOfToString(hi);
  }

  lemma {:induction false} SpansTextParses(spans: seq<LineSpan>)
    requires forall i :: 0 <= i < |spans| ==> SpanFits(spans[i])
    ensures TokensLines(SpansText(spans)) == Ok(SpansLines(spans))
    ensures forall i :: 0 <= i < |spans| ==> SpansText(spans)[i] != [] && ',' !in SpansText(spans)[i]
  {
    if spans != [] {
      SpanTextParses(spans[0]);
      SpansTextParses(spans[1..]);
      assert SpansText(spans)[1..] == SpansText(spans[1..]);
      forall i | 0 <= i < |spans|
        ensures SpansText(spans)[i] != [] && ',' !in SpansText(spans)[i]
      {
        if i > 0 {
          assert SpansText(spans)[i] == SpansText(spans[1..])[i - 1];
        }
      }
    }
  }

  /**
   * coveredLines round trip: writing lines and ranges of non-negative int
   * line numbers the way JBMC does (comma-separated, ranges as lo-hi) and
   * parsing the text back gives the lines they denote, ranges expanded in
   * ascending order and an inverted range contributing nothing.
   */
  lemma CoveredLinesRoundTrip(spans: seq<LineSpan>)
    requires |spans| >= 1
    requires forall i :: 0 <= i < |spans| ==> SpanFits(spans[i])
    ensures LineNumbers(Some(Join(SpansText(spans), ','))) == Ok(SpansLines(spans))
  {
    SpansTextParses(spans);
    SplitJoin(SpansText(spans), ',');
  }

  /** The text "3-5,9" stands for the lines 3, 4, 5 and 9. */
  lemma CoveredLinesExample()
    ensures LineNumbers(Some("3-5,9")) == Ok([3, 4, 5, 9])
  {
    var spans := [Span(3, 5), Line(9)];
    assert IntToString(3) == "3" && IntToString(5) == "5" && IntToString(9) == "9";
    assert SpanText(spans[0]) == "3-5" && SpanText(spans[1]) == "9";
    assert SpansText(spans) == ["3-5", "9"] by {
      assert spans[1..][1..] == [];
    }
    assert Join(["3-5", "9"], ',') == "3-5,9";
    CoveredLinesRoundTrip(spans);
    assert Range(3, 5) == [3, 4, 5] by {
      assert Range(3, 2) == [];
      assert Range(3, 3) == [3];
      assert Range(3, 4) == [3, 4];
    }
    assert SpansLines(spans) == [3, 4, 5, 9] by {
      assert spans[1..][1..] == [];
      assert SpansLines(spans[1..]) == [9];
    }
  }

  // ---------------------------------------------------------------------
  // addRange with a Java int counter

  /**
   * addRange's loop exactly as compiled: k is an int, so k++ past
   * Integer.MAX_VALUE wraps to Integer.MIN_VALUE. fuel bounds the number of
   * iterations looked at; None means the loop had not stopped by then.
   */
  function AddRangeAsWritten(k: int, max: int, fuel: nat): Option<seq<int>>
    decreases fuel
  {
    if k > max then Some([])
    else if fuel == 0 then None
    else
      match AddRangeAsWritten(Wrap32(k + 1), max, fuel - 1)
      case None => None
      case Some(rest) => Some([k] + rest)
  }

  /**
   * With max == Integer.MAX_VALUE the condition k <= max holds for every int,
   * so the loop never stops, however many iterations are allowed: the line
   * list grows until the heap is exhausted.
   */
  lemma {:induction false} AddRangeNeverEndsAtIntMax(k: int, fuel: nat)
    requires InInt32(k)
    ensures AddRangeAsWritten(k, IntMax, fuel) == None
    decreases fuel
  {
    if fuel > 0 {
      AddRangeNeverEndsAtIntMax(Wrap32(k + 1), fuel - 1);
    }
  }

  lemma RangeCons(min: int, max: int)
    requires min <= max
    ensures Range(min, max) == [min] + Range(min + 1, max)
  {
    assert Range(min, max)[1..] == Range(min + 1, max);
  }

  /**
   * Below Integer.MAX_VALUE the compiled loop does what the unbounded AddRange
   * does: it stops after max - min + 1 iterations with the lines min .. max.
   */
  lemma {:induction false} AddRangeAsWrittenAgrees(min: int, max: int, fuel: nat)
    requires InInt32(min) && InInt32(max) && max < IntMax
    requires fuel >= max - min + 1
    ensures AddRangeAsWritten(min, max, fuel) == Some(Range(min, max))
    decreases max - min
  {
    if min <= max {
      assert Wrap32(min + 1) == min + 1;
      AddRangeAsWrittenAgrees(min + 1, max, fuel - 1);
      RangeCons(min, max);
    }
  }

  // ---------------------------------------------------------------------
  // The function name of a property: java::<dotted class name>.<method>:<descriptor>

  const JavaNsPrefix: string := "java::"
  const JavaNsPrefixLength: nat := 6

  /** className.replace("/", "."): the internal name with package separators as dots. */
  function Dotted(className: string): (r: string)
    ensures |r| == |className|
    ensures forall i :: 0 <= i < |r| ==> r[i] == if className[i] == '/' then '.' else className[i]
  {
    if className == [] then []
    else Dotted(className[..|className| - 1]) + [if className[|className| - 1] == '/' then '.' else className[|className| - 1]]
  }

  /**
   * The method part of a function name, as the resolver loop cuts it out: drop
   * six characters, skip (None) unless the rest starts with the dotted class
   * name, drop the class name and one more character, and skip what still
   * contains a '.', which belongs to a nested or another class. substring
   * raises when the name is too short.
   */
  function MethodOfFunction(functionName: string, className: string): Result<Option<string>, JavaException> {
    if |functionName| < JavaNsPrefixLength then Thrown(IndexOutOfBoundsException)
    else
      var rest := functionName[JavaNsPrefixLength..];
      if !(Dotted(className) <= rest) then Ok(None)
      else if |rest| < |className| + 1 then Thrown(IndexOutOfBoundsException)
      else
        var methodName := rest[|className| + 1..];
        if '.' in methodName then Ok(None) else Ok(Some(methodName))
  }

  /** A function name of one of this class's own methods gives back that method's name and descriptor. */
  lemma FunctionNameRoundTrip(className: string, methodName: string)
    requires '.' !in methodName
    ensures MethodOfFunction(JavaNsPrefix + Dotted(className) + "." + methodName, className) == Ok(Some(methodName))
  {
    var f := JavaNsPrefix + Dotted(className) + "." + methodName;
    assert f[JavaNsPrefixLength..] == Dotted(className) + "." + methodName;
    assert f[JavaNsPrefixLength..][|className| + 1..] == methodName;
  }

  /**
   * Conversely, an accepted name is the six-character prefix, the dotted
   * class name, one separator character and a method part without '.'.
   */
  lemma FunctionNameShape(functionName: string, className: string, methodName: string)
    requires MethodOfFunction(functionName, className) == Ok(Some(methodName))
    ensures '.' !in methodName
    ensures |functionName| == JavaNsPrefixLength + |className| + 1 + |methodName|
    ensures functionName == functionName[..JavaNsPrefixLength] + Dotted(className)
                        + [functionName[JavaNsPrefixLength + |className|]] + methodName
  {
    var rest := functionName[JavaNsPrefixLength..];
    assert Dotted(className) <= rest && |rest| >= |className| + 1 && rest[|className| + 1..] == methodName;
    CutAround(functionName, JavaNsPrefixLength, Dotted(className), methodName);
  }

  /** A string whose tail past p is d, one character, and m, is its first p characters followed by those. */
  lemma CutAround(s: string, p: nat, d: string, m: string)
    requires p <= |s| && d <= s[p..] && |s[p..]| >= |d| + 1 && s[p..][|d| + 1..] == m
    ensures |s| == p + |d| + 1 + |m|
    ensures s == s[..p] + d + [s[p + |d|]] + m
  {
    var rest := s[p..];
    assert rest == d + [rest[|d|]] + m;
    assert s == s[..p] + rest;
  }

  /**
   * A member of a nested class (Outer$Inner.m) or of another class whose name
   * extends this one is skipped: after the separator a '.' remains.
   */
  lemma NestedMemberSkipped(className: string, sep: char, tail: string)
    requires '.' in tail
    ensures MethodOfFunction(JavaNsPrefix + Dotted(className) + [sep] + tail, className) == Ok(None)
  {
    var f := JavaNsPrefix + Dotted(className) + [sep] + tail;
    assert f[JavaNsPrefixLength..] == Dotted(className) + [sep] + tail;
    assert f[JavaNsPrefixLength..][|className| + 1..] == tail;
  }

  // ---------------------------------------------------------------------
  // The property records and what the resolver loop prints

  /** The sourceLocation object of a property; every member is optional. */
  datatype SourceLocation = SourceLocation(file: Option<string>, line: Option<string>,
                                           functionName: Option<string>, bytecodeIndex: Option<string>)

  /** One element of the properties array. */
  datatype Property = Property(name: string, sourceLocation: Option<SourceLocation>, coveredLines: Option<string>)

  /** The messages printed during instrumentClassFile, its own and the field adapter's, in printing order. */
  datatype Diagnostic =
    | NoPropertiesFound(className: string)        // ERROR: no properties found
    | IncompleteSourceLocation(property: string)  // WARNING: no full source location info
    | NoLineCoverage(property: string)            // WARNING: no line coverage information
    | NoLineNumbers(property: string)             // ERROR: no line numbers
    | RegisteredID(uid: int, blockID: string)     // register ID
    | MissingIndexOrFunction(property: string)    // WARNING: bytecode index or function missing
    | AddedStaticInit                             // did not find <clinit> in class, added one
    | NotInstrumented(uid: int)                   // ERROR: didn't instrument ID
    | AlreadyInstrumented                         // WARNING: file was already instrumented

  /** What the loop body makes of one property before it touches the table. */
  datatype Parsed =
    | Skip(diags: seq<Diagnostic>)
    | Fail(diags: seq<Diagnostic>, exception: JavaException)
    | Block(diags: seq<Diagnostic>, methodName: string, bcLine: int, lines: seq<int>)

  function LocationWarnings(e: Property, loc: SourceLocation): seq<Diagnostic> {
    if loc.file.Some? && loc.line.Some? && loc.functionName.Some? then [] else [IncompleteSourceLocation(e.name)]
  }

  /**
   * The loop body up to the hash lookup: no sourceLocation is skipped
   * silently; the line numbers are read (and may raise); a missing bytecode
   * index or function is warned about and skipped; then the index is parsed
   * (and may raise) and the function name cut down to this class's method.
   */
  function ParseEntry(className: string, e: Property): Parsed {
    match e.sourceLocation
    case None => Skip([])
    case Some(loc) =>
      var d := LocationWarnings(e, loc);
      match LineNumbers(e.coveredLines)
      case Thrown(x) => Fail(d, x)
      case Ok(lines) =>
        var d' := d + (if e.coveredLines.None? then [NoLineCoverage(e.name)] else []);
        if loc.bytecodeIndex.None? || loc.functionName.None? then Skip(d' + [MissingIndexOrFunction(e.name)])
        else
          match ParseInt(loc.bytecodeIndex.value)
          case Thrown(x) => Fail(d', x)
          case Ok(bcLine) =>
            match MethodOfFunction(loc.functionName.value, className)
            case Thrown(x) => Fail(d', x)
            case Ok(None) => Skip(d')
            case Ok(Some(m)) => Block(d', m, bcLine, lines)
  }

  /** The resolver's state: the ledger, the offset table, the messages so far and the exception, if one escaped. */
  datatype Resolver = Resolver(ledger: CoverageLog.LedgerState, table: map<int, int>, diags: seq<Diagnostic>,
                               failure: Option<JavaException>)

  /**
   * A block whose hash is new gets the ledger's UID for its block ID, goes
   * into the table, and is registered; a known hash changes nothing.
   */
  function Resolve(className: string, hash: BlockHash, rs: Resolver, name: string, methodName: string,
                   bcLine: int, lines: seq<int>): Resolver
  {
    var h := hash(className, methodName, bcLine);
    if h in rs.table then rs
    else
      var desc := CoverageLog.BasicBlockID(className, methodName, bcLine);
      var uid := CoverageLog.CoverageUID(rs.ledger, desc);
      rs.(ledger := CoverageLog.Registered(rs.ledger, uid, name, className, methodName, bcLine, lines),
          table := rs.table[h := uid],
          diags := rs.diags + (if lines == [] then [NoLineNumbers(name)] else []) + [RegisteredID(uid, desc)])
  }

  /** One turn of the resolver loop. */
  function EntryStep(className: string, hash: BlockHash, rs: Resolver, e: Property): Resolver {
    match ParseEntry(className, e)
    case Skip(d) => rs.(diags := rs.diags + d)
    case Fail(d, x) => rs.(diags := rs.diags + d, failure := Some(x))
    case Block(d, m, bcLine, lines) => Resolve(className, hash, rs.(diags := rs.diags + d), e.name, m, bcLine, lines)
  }

  /** The loop over the properties, which an exception ends. */
  function ResolveAll(className: string, hash: BlockHash, rs: Resolver, es: seq<Property>): Resolver {
    if es == [] then rs
    else
      var r := ResolveAll(className, hash, rs, es[..|es| - 1]);
      if r.failure.Some? then r else EntryStep(className, hash, r, es[|es| - 1])
  }

  // ---------------------------------------------------------------------
  // What the resolver keeps

  /** Nothing the resolver wrote is overwritten: table entries, registered blocks and counts persist. */
  ghost predicate Extends(rs: Resolver, rs': Resolver) {
    && (forall h :: h in rs.table ==> h in rs'.table && rs'.table[h] == rs.table[h])
    && (forall k :: k in rs.ledger.locMap ==> k in rs'.ledger.locMap && rs'.ledger.locMap[k] == rs.ledger.locMap[k])
    && rs'.ledger.countMap == rs.ledger.countMap
    && rs.diags <= rs'.diags
  }

  lemma ExtendsTrans(a: Resolver, b: Resolver, c: Resolver)
    requires Extends(a, b) && Extends(b, c)
    ensures Extends(a, c)
  {
  }

  lemma EntryStepExtends(className: string, hash: BlockHash, rs: Resolver, e: Property)
    ensures Extends(rs, EntryStep(className, hash, rs, e))
  {
    var p := ParseEntry(className, e);
    if p.Block? {
      var rs' := rs.(diags := rs.diags + p.diags);
      var r := Resolve(className, hash, rs', e.name, p.methodName, p.bcLine, p.lines);
      assert rs.diags <= rs'.diags <= r.diags;
    }
  }

  /**
   * Later turns only add: whatever the loop had after the first j properties
   * it still has at the end (first descriptor for a hash wins, a registered
   * block is never rewritten, no count is touched).
   */
  lemma {:induction false} ResolveAllExtends(className: string, hash: BlockHash, rs: Resolver, es: seq<Property>, j: nat)
    requires j <= |es|
    ensures Extends(ResolveAll(className, hash, rs, es[..j]), ResolveAll(className, hash, rs, es))
    decreases |es|
  {
    if j == |es| {
      assert es[..j] == es;
    } else {
      var init := es[..|es| - 1];
      assert init[..j] == es[..j];
      ResolveAllExtends(className, hash, rs, init, j);
      var r := ResolveAll(className, hash, rs, init);
      if r.failure.None? {
        EntryStepExtends(className, hash, r, es[|es| - 1]);
        ExtendsTrans(ResolveAll(className, hash, rs, es[..j]), r, ResolveAll(className, hash, rs, es));
      }
    }
  }

  /** Once an exception escaped, no later property is looked at. */
  lemma {:induction false} FailureSticks(className: string, hash: BlockHash, rs: Resolver, es: seq<Property>, j: nat)
    requires j <= |es| && ResolveAll(className, hash, rs, es[..j]).failure.Some?
    ensures ResolveAll(className, hash, rs, es) == ResolveAll(className, hash, rs, es[..j])
    decreases |es|
  {
    if j == |es| {
      assert es[..j] == es;
    } else {
      var init := es[..|es| - 1];
      assert init[..j] == es[..j];
      FailureSticks(className, hash, rs, init, j);
    }
  }

  /**
   * Every property that names a block of this class ends up in the table,
   * unless an exception ended the loop: the rewriter of that method will
   * find the block's hash and probe the instruction at that offset.
   */
  lemma ResolvedBlocksAreInTable(className: string, hash: BlockHash, rs: Resolver, es: seq<Property>, j: nat)
    requires j < |es| && ParseEntry(className, es[j]).Block?
    requires ResolveAll(className, hash, rs, es).failure.None?
    ensures var p := ParseEntry(className, es[j]);
            var t := Target(className, p.methodName, ResolveAll(className, hash, rs, es).table, hash);
            ShouldBeInstrumented(t, p.bcLine)
  {
    if ResolveAll(className, hash, rs, es[..j]).failure.Some? {
      FailureSticks(className, hash, rs, es, j);
    } else {
      assert es[..j + 1][..j] == es[..j];
      ResolveAllExtends(className, hash, rs, es, j + 1);
    }
  }

  /**
   * The ledger stays consistent through the loop when the table is keyed by
   * the ledger's own hash, and every table entry h -> uid names a registered
   * block whose block ID hashes to h. Distinct hashes therefore never share a
   * UID; two block IDs with the same hash share the first one's UID, since
   * collisions are not handled.
   */
  ghost predicate Sound(rs: Resolver) {
    && CoverageLog.Consistent(rs.ledger)
    && (forall h :: h in rs.table ==>
          rs.table[h] in rs.ledger.locMap && HashCode(rs.ledger.locMap[rs.table[h]]) == h)
  }

  lemma LedgerHashIsHashCode(className: string, methodName: string, bcLine: int)
    ensures LedgerHash()(className, methodName, bcLine) == HashCode(CoverageLog.BasicBlockID(className, methodName, bcLine))
  {
  }

  lemma ResolveSound(className: string, rs: Resolver, name: string, methodName: string, bcLine: int, lines: seq<int>)
    requires Sound(rs)
    ensures Sound(Resolve(className, LedgerHash(), rs, name, methodName, bcLine, lines))
  {
    var h := LedgerHash()(className, methodName, bcLine);
    if h !in rs.table {
      var desc := CoverageLog.BasicBlockID(className, methodName, bcLine);
      var uid := CoverageLog.CoverageUID(rs.ledger, desc);
      CoverageLog.GetThenRegisterConsistent(rs.ledger, name, className, methodName, bcLine, lines);
      LedgerHashIsHashCode(className, methodName, bcLine);
      var r := Resolve(className, LedgerHash(), rs, name, methodName, bcLine, lines);
      assert r.ledger.locMap[uid] == desc;
      forall h' | h' in r.table
        ensures r.table[h'] in r.ledger.locMap && HashCode(r.ledger.locMap[r.table[h']]) == h'
      {
        if h' != h {
          assert h' in rs.table;
        }
      }
    }
  }

  lemma {:induction false} ResolveAllSound(className: string, rs: Resolver, es: seq<Property>)
    requires Sound(rs)
    ensures Sound(ResolveAll(className, LedgerHash(), rs, es))
    decreases |es|
  {
    if es != [] {
      ResolveAllSound(className, rs, es[..|es| - 1]);
      var r := ResolveAll(className, LedgerHash(), rs, es[..|es| - 1]);
      if r.failure.None? {
        var p := ParseEntry(className, es[|es| - 1]);
        if p.Block? {
          ResolveSound(className, r.(diags := r.diags + p.diags), es[|es| - 1].name, p.methodName, p.bcLine, p.lines);
        }
      }
    }
  }

  /** Sound tables never give one UID to two hashes. */
  lemma SoundTableInjective(rs: Resolver, h1: int, h2: int)
    requires Sound(rs) && h1 in rs.table && h2 in rs.table && rs.table[h1] == rs.table[h2]
    ensures h1 == h2
  {
  }

  // ---------------------------------------------------------------------
  // The resolver loop

  /** The loop body up to the hash lookup, one property at a time. */
  method ReadEntry(className: string, e: Property) returns (p: Parsed)
    ensures p == ParseEntry(className, e)
  {
    if e.sourceLocation.None? {
      return Skip([]);
    }
    var loc := e.sourceLocation.value;
    var d := LocationWarnings(e, loc);
    var lines := ReadLineNumbers(e.coveredLines);
    if lines.Thrown? {
      return Fail(d, lines.exception);
    }
    if e.coveredLines.None? {
      d := d + [NoLineCoverage(e.name)];
    }
    if loc.bytecodeIndex.None? || loc.functionName.None? {
      return Skip(d + [MissingIndexOrFunction(e.name)]);
    }
    var bcLine := ParseInt(loc.bytecodeIndex.value);
    if bcLine.Thrown? {
      return Fail(d, bcLine.exception);
    }
    var methodName := MethodOfFunction(loc.functionName.value, className);
    if methodName.Thrown? {
      return Fail(d, methodName.exception);
    }
    if methodName.value.None? {
      return Skip(d);
    }
    return Block(d, methodName.value.value, bcLine.value, lines.value);
  }

  /**
   * The descriptor loop of instrumentClassFile: every property in order,
   * building the offset table and registering each new block in the ledger,
   * until the end or the first exception.
   */
  method ResolveProperties(logger: CoverageLog.CoverageLog, className: string, hash: BlockHash,
                           properties: seq<Property>)
    returns (offsetIdMap: map<int, int>, diags: seq<Diagnostic>, failure: Option<JavaException>)
    modifies logger`locMap, logger`descMap, logger`nameMap, logger`lineMap, logger`id
    ensures Resolver(logger.State(), offsetIdMap, diags, failure)
            == ResolveAll(className, hash, Resolver(old(logger.State()), map[], [], None), properties)
  {
    ghost var rs0 := Resolver(logger.State(), map[], [], None);
    offsetIdMap, diags, failure := map[], [], None;
    for i := 0 to |properties|
      invariant Resolver(logger.State(), offsetIdMap, diags, None) == ResolveAll(className, hash, rs0, properties[..i])
    {
      assert properties[..i + 1][..i] == properties[..i];
      var e := properties[i];
      var p := ReadEntry(className, e);
      diags := diags + p.diags;
      if p.Fail? {
        failure := Some(p.exception);
        FailureSticks(className, hash, rs0, properties, i + 1);
        return;
      }
      if p.Block? {
        var h := hash(className, p.methodName, p.bcLine);
        if h !in offsetIdMap {
          var desc := CoverageLog.BasicBlockID(className, p.methodName, p.bcLine);
          var uid := logger.GetCoverageUID(desc);
          offsetIdMap := offsetIdMap[h := uid];
          if |p.lines| == 0 {
            diags := diags + [NoLineNumbers(e.name)];
          }
          logger.Register(uid, e.name, className, p.methodName, p.bcLine, p.lines);
          diags := diags + [RegisteredID(uid, desc)];
        }
      }
    }
    assert properties[..|properties|] == properties;
  }

  // ---------------------------------------------------------------------
  // The JBMC output: only the first record with a properties array counts

  datatype JsonRecord = JsonRecord(properties: Option<seq<Property>>)

  function FirstProperties(json: seq<JsonRecord>): Option<seq<Property>> {
    if json == [] then None
    else if json[0].properties.Some? then json[0].properties
    else FirstProperties(json[1..])
  }

  /**
   * The properties found are those of the first record that has any, and
   * none are found exactly when no record has them.
   */
  lemma {:induction false} FirstPropertiesIsFirst(json: seq<JsonRecord>)
    ensures FirstProperties(json).None? <==> forall i :: 0 <= i < |json| ==> json[i].properties.None?
    ensures FirstProperties(json).Some? ==>
              exists i :: && 0 <= i < |json| && json[i].properties == FirstProperties(json)
                          && forall j :: 0 <= j < i ==> json[j].properties.None?
  {
    if json != [] && json[0].properties.None? {
      FirstPropertiesIsFirst(json[1..]);
      if FirstProperties(json).Some? {
        var i :| && 0 <= i < |json[1..]| && json[1..][i].properties == FirstProperties(json[1..])
                 && forall j :: 0 <= j < i ==> json[1..][j].properties.None?;
        assert forall j :: 0 <= j < i + 1 ==> json[j].properties.None? by {
          forall j | 0 <= j < i + 1 ensures json[j].properties.None? {
            if j > 0 {
              assert json[j] == json[1..][j - 1];
            }
          }
        }
        assert json[i + 1].properties == FirstProperties(json);
      } else {
        forall i | 0 <= i < |json| ensures json[i].properties.None? {
          if i > 0 {
            assert json[i] == json[1..][i - 1];
          }
        }
      }
    } else if json != [] {
      assert json[0].properties == FirstProperties(json);
    }
  }

  /** The search for the properties array, stopping at the first record that has one. */
  method FindProperties(json: seq<JsonRecord>) returns (properties: Option<seq<Property>>)
    ensures properties == FirstProperties(json)
  {
    for i := 0 to |json|
      invariant FirstProperties(json) == FirstProperties(json[i..])
    {
      assert json[i..][1..] == json[i + 1..];
      if json[i].properties.Some? {
        return json[i].properties;
      }
    }
    assert json[|json|..] == [];
    return None;
  }

  // ---------------------------------------------------------------------
  // The post-pass: table UIDs that no probe used

  /** Collection.remove(Object): drop the first element equal to x, if any. */
  function RemoveFirst(s: seq<int>, x: int): (r: seq<int>)
    ensures multiset(r) == multiset(s) - multiset{x}
  {
    if s == [] then []
    else
      assert s == [s[0]] + s[1..];
      if s[0] == x then s[1..] else [s[0]] + RemoveFirst(s[1..], x)
  }

  /** What is left of the table's values after one removal per probed UID. */
  function Unprobed(values: seq<int>, probed: seq<int>): seq<int> {
    if probed == [] then values else RemoveFirst(Unprobed(values, probed[..|probed| - 1]), probed[|probed| - 1])
  }

  /** The table's values, visiting its keys in the given order. */
  function TableValues(table: map<int, int>, order: seq<int>): seq<int> {
    if order == [] then []
    else (if order[0] in table then [table[order[0]]] else []) + TableValues(table, order[1..])
  }

  /** The post-pass loop: remove each probed UID from the table's values. */
  method ReportUninstrumented(values: seq<int>, instrumentedIDs: seq<int>) returns (ids: seq<int>)
    ensures ids == Unprobed(values, instrumentedIDs)
  {
    ids := values;
    for i := 0 to |instrumentedIDs|
      invariant ids == Unprobed(values, instrumentedIDs[..i])
    {
      assert instrumentedIDs[..i + 1][..i] == instrumentedIDs[..i];
      ids := RemoveFirst(ids, instrumentedIDs[i]);
    }
    assert instrumentedIDs[..|instrumentedIDs|] == instrumentedIDs;
  }

  lemma {:induction false} UnprobedCounts(values: seq<int>, probed: seq<int>)
    ensures multiset(Unprobed(values, probed)) == multiset(values) - multiset(probed)
  {
    if probed != [] {
      var init := probed[..|probed| - 1];
      var x := probed[|probed| - 1];
      UnprobedCounts(values, init);
      assert probed == init + [x];
      DiffDiff(multiset(values), multiset(init), multiset{x});
    }
  }

  lemma DiffDiff(a: multiset<int>, b: multiset<int>, c: multiset<int>)
    ensures (a - b) - c == a - (b + c)
  {
    forall y ensures ((a - b) - c)[y] == (a - (b + c))[y] {
    }
  }

  /**
   * With distinct values, a UID is reported exactly when it is a value of
   * the table that no probe used.
   */
  lemma UnprobedExactly(values: seq<int>, probed: seq<int>)
    requires Distinct(values)
    ensures forall x :: x in Unprobed(values, probed) <==> x in values && x !in probed
  {
    var u := Unprobed(values, probed);
    UnprobedCounts(values, probed);
    forall x ensures x in u <==> x in values && x !in probed {
      DistinctCount(values, x);
      assert x in u <==> multiset(u)[x] > 0;
      assert x in values <==> multiset(values)[x] > 0;
      assert x in probed <==> multiset(probed)[x] > 0;
    }
  }

  /** No value occurs twice. */
  predicate Distinct(s: seq<int>) {
    forall i, j :: 0 <= i < j < |s| ==> s[i] != s[j]
  }

  lemma {:induction false} DistinctCount(s: seq<int>, x: int)
    requires Distinct(s)
    ensures multiset(s)[x] <= 1
  {
    if s != [] {
      DistinctCount(s[1..], x);
      assert s == [s[0]] + s[1..];
      if s[0] == x {
        assert x !in s[1..] by {
          forall j | 0 <= j < |s[1..]| ensures s[1..][j] != x {
            assert s[1..][j] == s[j + 1];
          }
        }
      }
    }
  }

  lemma {:induction false} TableValuesAt(table: map<int, int>, order: seq<int>)
    requires forall i :: 0 <= i < |order| ==> order[i] in table
    ensures |TableValues(table, order)| == |order|
    ensures forall i :: 0 <= i < |order| ==> TableValues(table, order)[i] == table[order[i]]
  {
    if order != [] {
      TableValuesAt(table, order[1..]);
    }
  }

  /** A sound table read in a duplicate-free key order has no repeated UID. */
  lemma SoundValuesDistinct(rs: Resolver, order: seq<int>)
    requires Sound(rs) && CoverageLog.Enumerates(order, rs.table.Keys)
    ensures Distinct(TableValues(rs.table, order))
  {
    TableValuesAt(rs.table, order);
    var v := TableValues(rs.table, order);
    forall i, j | 0 <= i < j < |v| ensures v[i] != v[j] {
      if v[i] == v[j] {
        SoundTableInjective(rs, order[i], order[j]);
      }
    }
  }

  lemma {:induction false} TableValuesAreValues(table: map<int, int>, order: seq<int>, x: int)
    requires forall k :: k in table ==> k in order
    ensures x in TableValues(table, order) <==> exists h :: h in table && table[h] == x
  {
    TableValuesMember(table, order, x);
    if exists h :: h in table && table[h] == x {
      var h :| h in table && table[h] == x;
      assert h in order;
    }
  }

  lemma {:induction false} TableValuesMember(table: map<int, int>, order: seq<int>, x: int)
    ensures x in TableValues(table, order) <==> exists h :: h in order && h in table && table[h] == x
  {
    if order != [] {
      TableValuesMember(table, order[1..], x);
      if exists h :: h in order && h in table && table[h] == x {
        var h :| h in order && h in table && table[h] == x;
        if h != order[0] {
          assert h in order[1..];
        }
      }
    }
  }

  // ---------------------------------------------------------------------
  // instrumentClassFile

  /** What becomes of the output class file. */
  datatype Outcome =
    | NoProperties                         // nothing written, nothing registered
    | CopiedUnchanged                      // an interface: the input bytes are written out as read
    | Aborted(exception: JavaException)    // an exception escaped the resolver loop
    | Written(events: seq<ClassEvent>, alreadyInstrumented: bool, uninstrumented: seq<int>)

  /** One call's effect: the outcome, the ledger afterwards and the messages printed. */
  datatype Run = Run(outcome: Outcome, ledger: CoverageLog.LedgerState, diags: seq<Diagnostic>)

  /** The field adapter instrumentClassFile builds: a static reporter field of type CoverageLog. */
  function ReporterConfig(className: string, table: map<int, int>): Config {
    Config(ACC_STATIC, ReporterField, ReporterDesc, className, table, LedgerHash())
  }

  function NotInstrumentedAll(ids: seq<int>): (r: seq<Diagnostic>)
    ensures |r| == |ids|
    ensures forall i :: 0 <= i < |ids| ==> r[i] == NotInstrumented(ids[i])
  {
    if ids == [] then [] else [NotInstrumented(ids[0])] + NotInstrumentedAll(ids[1..])
  }

  /**
   * instrumentClassFile on a class already read, with the ledger in state st
   * and keyOrder the iteration order HashMap gives a table.
   */
  function InstrumentSpec(json: seq<JsonRecord>, cf: ClassFile, st: CoverageLog.LedgerState,
                          keyOrder: map<int, int> -> seq<int>): Run
  {
    match FirstProperties(json)
    case None => Run(NoProperties, st, [NoPropertiesFound(cf.name)])
    case Some(props) =>
      if cf.access & ACC_INTERFACE != 0 then Run(CopiedUnchanged, st, [])
      else
        var rs := ResolveAll(cf.name, LedgerHash(), Resolver(st, map[], [], None), props);
        if rs.failure.Some? then Run(Aborted(rs.failure.value), rs.ledger, rs.diags)
        else
          var (outcome, diags) := WriteOutcome(cf, rs.table, keyOrder);
          Run(outcome, rs.ledger, rs.diags + diags)
  }

  /**
   * After the loop: the class through the field adapter (whose visitEnd says
   * so when it adds a `<clinit>`), then the post-pass over the table's
   * values, or the already-instrumented warning.
   */
  function WriteOutcome(cf: ClassFile, table: map<int, int>, keyOrder: map<int, int> -> seq<int>)
    : (Outcome, seq<Diagnostic>)
  {
    var c := ReporterConfig(cf.name, table);
    var events := AdaptedClass(c, cf);
    if HasFieldNamed(cf.fields, ReporterField) then (Written(events, true, []), [AlreadyInstrumented])
    else
      var ids := Unprobed(TableValues(table, keyOrder(table)), ClassHits(c, cf));
      var added := if HasStaticInit(cf.methods) then [] else [AddedStaticInit];
      (Written(events, false, ids), added + NotInstrumentedAll(ids))
  }

  /** The class writer, the field adapter and the post-pass, with a fresh list of probed UIDs. */
  method WriteClass(cf: ClassFile, offsetIdMap: map<int, int>, keyOrder: map<int, int> -> seq<int>)
    returns (outcome: Outcome, diags: seq<Diagnostic>)
    requires WellFormedClass(cf)
    ensures (outcome, diags) == WriteOutcome(cf, offsetIdMap, keyOrder)
  {
    var instrumentedIDs := new IntList();
    var cw := new ClassSink();
    var fa := new ClassAdapter(cw, ACC_STATIC, ReporterField, ReporterDesc, cf.name, offsetIdMap,
                               instrumentedIDs, LedgerHash());
    assert fa.config == ReporterConfig(cf.name, offsetIdMap);
    var added := fa.Accept(cf);
    assert cw.events == AdaptedClass(fa.config, cf);
    assert instrumentedIDs.items == ClassHits(fa.config, cf);
    if !fa.isInstrumented {
      var ids := ReportUninstrumented(TableValues(offsetIdMap, keyOrder(offsetIdMap)), instrumentedIDs.items);
      diags := (if added then [AddedStaticInit] else []) + NotInstrumentedAll(ids);
      outcome := Written(cw.events, false, ids);
    } else {
      diags := [AlreadyInstrumented];
      outcome := Written(cw.events, true, []);
    }
  }

  /**
   * instrumentClassFile: the class file is already read into cf and the
   * ledger is the one getInstance(false) returned; file output is the
   * outcome's events (or the input, for an interface).
   */
  method InstrumentClassFile(json: seq<JsonRecord>, cf: ClassFile, logger: CoverageLog.CoverageLog,
                             keyOrder: map<int, int> -> seq<int>)
    returns (outcome: Outcome, diags: seq<Diagnostic>)
    requires WellFormedClass(cf)
    modifies logger`locMap, logger`descMap, logger`nameMap, logger`lineMap, logger`id, logger`shouldReport
    ensures Run(outcome, logger.State(), diags) == InstrumentSpec(json, cf, old(logger.State()), keyOrder)
    ensures !logger.shouldReport
  {
    logger.SetReport(false);
    var properties := FindProperties(json);
    if properties.None? {
      return NoProperties, [NoPropertiesFound(cf.name)];
    }
    if cf.access & ACC_INTERFACE != 0 {
      return CopiedUnchanged, [];
    }
    var offsetIdMap, failure;
    offsetIdMap, diags, failure := ResolveProperties(logger, cf.name, LedgerHash(), properties.value);
    if failure.Some? {
      return Aborted(failure.value), diags;
    }
    var more;
    outcome, more := WriteClass(cf, offsetIdMap, keyOrder);
    diags := diags + more;
  }

  // ---------------------------------------------------------------------
  // Properties of one instrumentClassFile call

  /**
   * The ledger stays consistent, keeps every block it had with the same
   * block ID, and its counts are untouched; with no properties, or for an
   * interface, it is not changed at all.
   */
  lemma InstrumentKeepsLedger(json: seq<JsonRecord>, cf: ClassFile, st: CoverageLog.LedgerState,
                              keyOrder: map<int, int> -> seq<int>)
    requires CoverageLog.Consistent(st)
    ensures var run := InstrumentSpec(json, cf, st, keyOrder);
            && CoverageLog.Consistent(run.ledger)
            && (forall k :: k in st.locMap ==> k in run.ledger.locMap && run.ledger.locMap[k] == st.locMap[k])
            && run.ledger.countMap == st.countMap
            && (run.outcome.NoProperties? || run.outcome.CopiedUnchanged? ==> run.ledger == st)
  {
    if props :| FirstProperties(json) == Some(props) {
      var rs0 := Resolver(st, map[], [], None);
      assert Sound(rs0);
      ResolveAllSound(cf.name, rs0, props);
      ResolveAllExtends(cf.name, LedgerHash(), rs0, props, 0);
      assert props[..0] == [];
    }
  }

  /**
   * Whatever was written declares the reporter field, so feeding the output
   * back in is a pass-through; a class that already had the field is copied
   * through unchanged and nothing is reported as missing.
   */
  lemma WrittenIsMarked(json: seq<JsonRecord>, cf: ClassFile, st: CoverageLog.LedgerState,
                        keyOrder: map<int, int> -> seq<int>)
    ensures var run := InstrumentSpec(json, cf, st, keyOrder);
            run.outcome.Written? ==>
              && (exists i :: 0 <= i < |DeclaredFields(run.outcome.events)|
                              && DeclaredFields(run.outcome.events)[i].name == ReporterField)
              && (run.outcome.alreadyInstrumented <==> exists i :: 0 <= i < |cf.fields| && cf.fields[i].name == ReporterField)
              && (run.outcome.alreadyInstrumented ==> run.outcome.events == CopiedClass(cf) && run.outcome.uninstrumented == [])
  {
    var run := InstrumentSpec(json, cf, st, keyOrder);
    if run.outcome.Written? {
      var props := FirstProperties(json).value;
      var rs := ResolveAll(cf.name, LedgerHash(), Resolver(st, map[], [], None), props);
      var c := ReporterConfig(cf.name, rs.table);
      OutputIsMarked(c, cf);
      HasFieldNamedIff(cf.fields, ReporterField);
      if run.outcome.alreadyInstrumented {
        PassThroughWhenInstrumented(c, cf);
      }
    }
  }

  /**
   * Once the loop is done, an instrumented class is announced as given a
   * `<clinit>` exactly when it had none; the announcement comes before the
   * post-pass and the class then ends in the reporter field, the
   * synthesized `<clinit>` and visitEnd.
   */
  lemma AddedStaticInitReported(json: seq<JsonRecord>, cf: ClassFile, st: CoverageLog.LedgerState,
                                keyOrder: map<int, int> -> seq<int>)
    ensures var run := InstrumentSpec(json, cf, st, keyOrder);
            run.outcome.Written? && !run.outcome.alreadyInstrumented ==>
              var props := FirstProperties(json).value;
              var rs := ResolveAll(cf.name, LedgerHash(), Resolver(st, map[], [], None), props);
              var n := |cf.fields| + |cf.methods|;
              && rs.diags <= run.diags
              && (AddedStaticInit in run.diags[|rs.diags|..] <==> !HasStaticInit(cf.methods))
              && (AddedStaticInit in run.diags[|rs.diags|..] ==>
                    && run.diags[|rs.diags|] == AddedStaticInit
                    && run.outcome.events[n..] == [Field(ReporterFieldOf(ReporterConfig(cf.name, rs.table))),
                                                   SynthesizedStaticInit(cf.name), ClassEnd])
  {
    var run := InstrumentSpec(json, cf, st, keyOrder);
    if run.outcome.Written? && !run.outcome.alreadyInstrumented {
      var props := FirstProperties(json).value;
      var rs := ResolveAll(cf.name, LedgerHash(), Resolver(st, map[], [], None), props);
      var c := ReporterConfig(cf.name, rs.table);
      var ids := run.outcome.uninstrumented;
      var added := if HasStaticInit(cf.methods) then [] else [AddedStaticInit];
      assert run.diags[|rs.diags|..] == added + NotInstrumentedAll(ids);
      assert AddedStaticInit !in NotInstrumentedAll(ids);
      HasFieldNamedIff(cf.fields, ReporterField);
      SynthesizedOnlyWithoutStaticInit(c, cf);
    }
  }

  /**
   * The UIDs reported as not instrumented are exactly the table's UIDs that
   * no probe in the class used.
   */
  lemma UninstrumentedExactly(json: seq<JsonRecord>, cf: ClassFile, st: CoverageLog.LedgerState,
                              keyOrder: map<int, int> -> seq<int>)
    requires CoverageLog.Consistent(st)
    requires forall m: map<int, int> :: CoverageLog.Enumerates(keyOrder(m), m.Keys)
    ensures var run := InstrumentSpec(json, cf, st, keyOrder);
            run.outcome.Written? && !run.outcome.alreadyInstrumented ==>
              var props := FirstProperties(json).value;
              var rs := ResolveAll(cf.name, LedgerHash(), Resolver(st, map[], [], None), props);
              forall x :: x in run.outcome.uninstrumented <==>
                          (exists h :: h in rs.table && rs.table[h] == x)
                          && x !in ClassHits(ReporterConfig(cf.name, rs.table), cf)
  {
    var run := InstrumentSpec(json, cf, st, keyOrder);
    if run.outcome.Written? && !run.outcome.alreadyInstrumented {
      var props := FirstProperties(json).value;
      var rs0 := Resolver(st, map[], [], None);
      var rs := ResolveAll(cf.name, LedgerHash(), rs0, props);
      assert Sound(rs0);
      ResolveAllSound(cf.name, rs0, props);
      var order := keyOrder(rs.table);
      assert CoverageLog.Enumerates(order, rs.table.Keys);
      TableReportExact(rs, order, ClassHits(ReporterConfig(cf.name, rs.table), cf));
    }
  }

  /** The post-pass on a sound table read in a duplicate-free key order reports exactly the unused UIDs. */
  lemma TableReportExact(rs: Resolver, order: seq<int>, hits: seq<int>)
    requires Sound(rs) && CoverageLog.Enumerates(order, rs.table.Keys)
    ensures forall x :: x in Unprobed(TableValues(rs.table, order), hits) <==>
                        (exists h :: h in rs.table && rs.table[h] == x) && x !in hits
  {
    SoundValuesDistinct(rs, order);
    var values := TableValues(rs.table, order);
    UnprobedExactly(values, hits);
    forall x ensures x in values <==> exists h :: h in rs.table && rs.table[h] == x {
      TableValuesAreValues(rs.table, order, x);
    }
  }
}
