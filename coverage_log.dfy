/**
 * The coverage ledger: five tables keyed by block UID or block ID string, a
 * UID counter, and (in in-memory mode) a counter map that is seeded when the
 * ledger is opened and merged additively into the durable counts at shutdown.
 */
module CoverageLog {
  import opened JavaStrings

  /** The durable content of the store, one map per persistent table. */
  datatype Store = Store(
    countMap: map<int, int>,        // UID -> hit count
    locMap: map<int, string>,       // UID -> block ID
    descMap: map<string, int>,      // block ID -> UID
    nameMap: map<int, string>,      // UID -> property name
    lineMap: map<int, seq<int>>)    // UID -> covered source lines

  /** The tables together with the UID counter. */
  datatype LedgerState = LedgerState(
    locMap: map<int, string>,
    descMap: map<string, int>,
    nameMap: map<int, string>,
    lineMap: map<int, seq<int>>,
    countMap: map<int, int>,
    id: int)

  /** The state right after opening a store: the counter starts at the number of known blocks. */
  function Opened(store: Store): (st: LedgerState)
    ensures st.id == |store.locMap|
  {
    LedgerState(store.locMap, store.descMap, store.nameMap, store.lineMap, store.countMap, |store.locMap|)
  }

  /** getBasicBlockID: the canonical block ID string of (class, method, bytecode offset). */
  function BasicBlockID(className: string, methodName: string, bcLoc: int): string {
    className + "." + methodName + "@" + IntToString(bcLoc)
  }

  /** getCoverageHash: String.hashCode of the block ID, so a function of the triple alone. */
  function CoverageHash(className: string, methodName: string, bcLoc: int): int {
    HashCode(BasicBlockID(className, methodName, bcLoc))
  }

  /**
   * getCoverageHash is not injective: the class names "Aa" and "BB" hash
   * alike, so for every method and offset two different block IDs share one
   * hash, and an offset table keyed by the hash holds only one of them.
   */
  lemma CoverageHashCollides(methodName: string, bcLoc: int)
    ensures BasicBlockID("Aa", methodName, bcLoc) != BasicBlockID("BB", methodName, bcLoc)
    ensures CoverageHash("Aa", methodName, bcLoc) == CoverageHash("BB", methodName, bcLoc)
  {
    var suffix := "." + methodName + "@" + IntToString(bcLoc);
    assert BasicBlockID("Aa", methodName, bcLoc) == "Aa" + suffix;
    assert BasicBlockID("BB", methodName, bcLoc) == "BB" + suffix;
    assert ("Aa" + suffix)[0] != ("BB" + suffix)[0];
    HashCodeAaBB(suffix);
  }

  /** getCoverageUID on a ledger state. */
  function CoverageUID(st: LedgerState, desc: string): int {
    if desc in st.descMap then st.descMap[desc] else st.id
  }

  /** register on a ledger state. */
  function Registered(st: LedgerState, key: int, jbmcName: string, className: string,
                      methodName: string, bcLoc: int, lineNumbers: seq<int>): LedgerState
  {
    var desc := BasicBlockID(className, methodName, bcLoc);
    if key in st.locMap then st
    else st.(locMap := st.locMap[key := desc], descMap := st.descMap[desc := key],
             nameMap := st.nameMap[key := jbmcName], lineMap := st.lineMap[key := lineNumbers],
             id := st.id + 1)
  }

  /**
   * The invariant the ledger keeps when it is only written through the
   * get-UID-then-register protocol: the UIDs are exactly 0 .. id-1, the block
   * ID table is the exact inverse of the location table, and every UID has a
   * name and a line list.
   */
  ghost predicate Consistent(st: LedgerState) {
    && st.id >= 0
    && (forall k :: k in st.locMap <==> 0 <= k < st.id)
    && (forall k :: k in st.locMap ==> st.locMap[k] in st.descMap && st.descMap[st.locMap[k]] == k)
    && (forall d :: d in st.descMap ==> st.descMap[d] in st.locMap && st.locMap[st.descMap[d]] == d)
    && st.nameMap.Keys == st.locMap.Keys
    && st.lineMap.Keys == st.locMap.Keys
  }

  /** Registering a key a second time, with any data, leaves the record as the first call made it. */
  lemma RegisterOnce(st: LedgerState, key: int, name1: string, class1: string, method1: string,
                     loc1: int, lines1: seq<int>, name2: string, class2: string, method2: string,
                     loc2: int, lines2: seq<int>)
    ensures var st1 := Registered(st, key, name1, class1, method1, loc1, lines1);
            Registered(st1, key, name2, class2, method2, loc2, lines2) == st1
    ensures key !in st.locMap ==>
            var st1 := Registered(st, key, name1, class1, method1, loc1, lines1);
            st1.locMap[key] == BasicBlockID(class1, method1, loc1) && st1.nameMap[key] == name1 &&
            st1.lineMap[key] == lines1 && st1.id == st.id + 1
  {
  }

  /**
   * Identity stability: once the UID handed out for a block ID has been
   * registered, asking again for that block ID yields the same UID. No
   * assumption on the ledger is needed.
   */
  lemma UIDStableAfterRegister(st: LedgerState, jbmcName: string, className: string,
                               methodName: string, bcLoc: int, lines: seq<int>)
    ensures var desc := BasicBlockID(className, methodName, bcLoc);
            var uid := CoverageUID(st, desc);
            CoverageUID(Registered(st, uid, jbmcName, className, methodName, bcLoc, lines), desc) == uid
  {
    var desc := BasicBlockID(className, methodName, bcLoc);
    var uid := CoverageUID(st, desc);
    var st' := Registered(st, uid, jbmcName, className, methodName, bcLoc, lines);
    if uid !in st.locMap {
      assert st'.descMap[desc] == uid;
    } else {
      assert st' == st;
    }
  }

  /**
   * Getting a UID and registering it keeps the ledger consistent, after which
   * the UID is a registered key whose location is exactly the block ID; the
   * counter advances exactly when the block ID was new.
   */
  lemma GetThenRegisterConsistent(st: LedgerState, jbmcName: string, className: string,
                                  methodName: string, bcLoc: int, lines: seq<int>)
    requires Consistent(st)
    ensures var desc := BasicBlockID(className, methodName, bcLoc);
            var uid := CoverageUID(st, desc);
            var st' := Registered(st, uid, jbmcName, className, methodName, bcLoc, lines);
            && Consistent(st')
            && uid in st'.locMap && st'.locMap[uid] == desc
            && (forall k :: k in st.locMap ==> k in st'.locMap && st'.locMap[k] == st.locMap[k])
            && st'.id == (if desc in st.descMap then st.id else st.id + 1)
            && st'.countMap == st.countMap
  {
    var desc := BasicBlockID(className, methodName, bcLoc);
    var uid := CoverageUID(st, desc);
    var st' := Registered(st, uid, jbmcName, className, methodName, bcLoc, lines);
    if desc in st.descMap {
      assert uid in st.locMap;
      assert st' == st;
    } else {
      assert uid == st.id && uid !in st.locMap;
      assert st'.locMap == st.locMap[uid := desc];
      assert st'.id == st.id + 1;
      forall k ensures k in st'.locMap <==> 0 <= k < st'.id {
        if k == uid {
          assert k in st'.locMap && 0 <= k < st'.id;
        } else {
          assert k in st'.locMap <==> k in st.locMap;
          assert k in st.locMap <==> 0 <= k < st.id;
        }
      }
      forall d | d in st'.descMap
        ensures st'.descMap[d] in st'.locMap && st'.locMap[st'.descMap[d]] == d
      {
        if d != desc {
          assert st.descMap[d] in st.locMap;
        }
      }
      forall k | k in st'.locMap
        ensures st'.locMap[k] in st'.descMap && st'.descMap[st'.locMap[k]] == k
      {
        if k != uid {
          assert st.locMap[k] != desc;
        }
      }
    }
  }

  /** getBasicBlockID is injective on class names without '.' and method names without '@'. */
  lemma BasicBlockIDInjective(c1: string, m1: string, o1: int, c2: string, m2: string, o2: int)
    requires '.' !in c1 && '.' !in c2 && '@' !in m1 && '@' !in m2
    requires BasicBlockID(c1, m1, o1) == BasicBlockID(c2, m2, o2)
    ensures c1 == c2 && m1 == m2 && o1 == o2
  {
    BlockIDPartsInjective(c1, m1, IntToString(o1), c2, m2, IntToString(o2));
    IntToStringInjective(o1, o2);
  }

  /** The three parts of `class.method@offset` can be read back when the separators do not occur before them. */
  lemma BlockIDPartsInjective(c1: string, m1: string, x1: string, c2: string, m2: string, x2: string)
    requires '.' !in c1 && '.' !in c2 && '@' !in m1 && '@' !in m2
    requires c1 + "." + m1 + "@" + x1 == c2 + "." + m2 + "@" + x2
    ensures c1 == c2 && m1 == m2 && x1 == x2
  {
    assert c1 + "." + m1 + "@" + x1 == c1 + ['.'] + (m1 + ['@'] + x1);
    assert c2 + "." + m2 + "@" + x2 == c2 + ['.'] + (m2 + ['@'] + x2);
    CutAtFirst(c1, m1 + ['@'] + x1, c2, m2 + ['@'] + x2, '.');
    CutAtFirst(m1, x1, m2, x2, '@');
  }

  /** Position of the first occurrence of c in s. */
  function FirstIndex(s: string, c: char): (i: nat)
    requires c in s
    ensures i < |s| && s[i] == c && c !in s[..i]
  {
    if s[0] == c then 0 else 1 + FirstIndex(s[1..], c)
  }

  lemma {:induction false} FirstIndexOfJoin(a: string, b: string, c: char)
    requires c !in a
    ensures c in a + [c] + b && FirstIndex(a + [c] + b, c) == |a|
  {
    var s := a + [c] + b;
    assert s[|a|] == c;
    if a != [] {
      assert s[1..] == a[1..] + [c] + b;
      FirstIndexOfJoin(a[1..], b, c);
    }
  }

  lemma CutAtFirst(a1: string, b1: string, a2: string, b2: string, sep: char)
    requires sep !in a1 && sep !in a2
    requires a1 + [sep] + b1 == a2 + [sep] + b2
    ensures a1 == a2 && b1 == b2
  {
    var s := a1 + [sep] + b1;
    FirstIndexOfJoin(a1, b1, sep);
    FirstIndexOfJoin(a2, b2, sep);
    assert a1 == s[..|a1|] == a2;
    assert b1 == s[|a1| + 1..] == b2;
  }

  lemma IntToStringInjective(x: int, y: int)
    requires IntToString(x) == IntToString(y)
    ensures x == y
  {
    IntToStringSign(x);
    IntToStringSign(y);
    if x < 0 {
      DecimalRoundTrip(-x);
      DecimalRoundTrip(-y);
    } else {
      DecimalRoundTrip(x);
      DecimalRoundTrip(y);
    }
  }

  // ---------------------------------------------------------------------
  // In-memory counters

  function GetOrZero(m: map<int, int>, k: int): int {
    if k in m then m[k] else 0
  }

  /** A map whose values are Java ints, as every Integer-valued table of the ledger is. */
  predicate IntValued(m: map<int, int>) {
    forall k :: k in m ==> InInt32(m[k])
  }

  /**
   * record on the in-memory map: an absent key counts as 0 before the
   * increment, and the Integer increment wraps past Integer.MAX_VALUE.
   */
  function Recorded(mem: map<int, int>, key: int): (r: map<int, int>)
    ensures r.Keys == mem.Keys + {key}
    ensures r[key] == Wrap32(GetOrZero(mem, key) + 1)
    ensures forall k :: k in mem && k != key ==> r[k] == mem[k]
    ensures IntValued(mem) ==> IntValued(r)
  {
    if key in mem then mem[key := Wrap32(mem[key] + 1)] else mem[key := 1]
  }

  /** A count at Integer.MAX_VALUE wraps to Integer.MIN_VALUE on the next hit. */
  lemma RecordWrapsAtIntMax(mem: map<int, int>, key: int)
    requires key in mem && mem[key] == IntMax
    ensures Recorded(mem, key)[key] == IntMin
  {
  }

  /** Every key of the map mapped to 0 (resetCoverage, and the seeding at open). */
  function Zeroed(m: map<int, int>): (r: map<int, int>)
    ensures r.Keys == m.Keys
    ensures forall k :: k in r ==> r[k] == 0
  {
    map k | k in m :: 0
  }

  /**
   * The shutdown merge: every in-memory count is added to the durable one
   * (absent is 0) in Integer arithmetic, which wraps.
   */
  function Merged(durable: map<int, int>, mem: map<int, int>): (r: map<int, int>)
    ensures r.Keys == durable.Keys + mem.Keys
    ensures forall k :: k in mem ==> r[k] == Wrap32(GetOrZero(durable, k) + mem[k])
    ensures forall k :: k in durable && k !in mem ==> r[k] == durable[k]
    ensures IntValued(durable) ==> IntValued(r)
  {
    map k | k in durable.Keys + mem.Keys :: if k in mem then Wrap32(GetOrZero(durable, k) + mem[k]) else durable[k]
  }

  /** The in-memory map after recording each key of the run, in order. */
  function RecordAll(mem: map<int, int>, run: seq<int>): map<int, int>
    decreases run
  {
    if run == [] then mem else RecordAll(Recorded(mem, run[0]), run[1..])
  }

  /**
   * After a run of record calls each key's count is its old count plus the
   * number of times the run recorded it, as a Java int: exact up to
   * Integer.MAX_VALUE, wrapped beyond.
   */
  lemma RecordAllCounts(mem: map<int, int>, run: seq<int>)
    requires IntValued(mem)
    ensures RecordAll(mem, run).Keys == mem.Keys + set k | k in run
    ensures forall k :: k in RecordAll(mem, run) ==>
              RecordAll(mem, run)[k] == Wrap32(GetOrZero(mem, k) + multiset(run)[k])
  {
    RecordAllKeys(mem, run);
    forall k | k in RecordAll(mem, run)
      ensures RecordAll(mem, run)[k] == Wrap32(GetOrZero(mem, k) + multiset(run)[k])
    {
      RecordAllAt(mem, run, k);
    }
  }

  /** The keys after a run: the old ones and every key the run recorded. */
  lemma {:induction false} RecordAllKeys(mem: map<int, int>, run: seq<int>)
    ensures RecordAll(mem, run).Keys == mem.Keys + set k | k in run
    decreases run
  {
    if run != [] {
      RecordAllKeys(Recorded(mem, run[0]), run[1..]);
      assert run == [run[0]] + run[1..];
      assert (set k | k in run) == {run[0]} + set k | k in run[1..];
    }
  }

  /** The count of one key after a run. */
  lemma {:induction false} RecordAllAt(mem: map<int, int>, run: seq<int>, k: int)
    requires IntValued(mem)
    requires k in RecordAll(mem, run)
    ensures RecordAll(mem, run)[k] == Wrap32(GetOrZero(mem, k) + multiset(run)[k])
    decreases run
  {
    if run == [] {
      assert mem[k] == Wrap32(mem[k] + 0);
    } else {
      var mem' := Recorded(mem, run[0]);
      assert RecordAll(mem, run) == RecordAll(mem', run[1..]);
      RecordAllAt(mem', run[1..], k);
      RecordStep(mem, run, k);
    }
  }

  /** Recording the run's first key, then counting the rest, counts the whole run. */
  lemma RecordStep(mem: map<int, int>, run: seq<int>, k: int)
    requires run != []
    ensures Wrap32(GetOrZero(Recorded(mem, run[0]), k) + multiset(run[1..])[k])
         == Wrap32(GetOrZero(mem, k) + multiset(run)[k])
  {
    assert run == [run[0]] + run[1..];
    if k == run[0] {
      Wrap32Add(GetOrZero(mem, k) + 1, multiset(run[1..])[k]);
    }
  }

  /**
   * A run of record calls followed by the shutdown merge: starting from the
   * zeroed in-memory map (as seeded at open or after resetCoverage), the
   * durable count of every key grows by the number of times the run recorded
   * it, in Integer arithmetic (exact up to Integer.MAX_VALUE, wrapped beyond),
   * and durable counts of keys the run never saw are untouched.
   */
  lemma FlushAddsRecordedHits(durable: map<int, int>, seed: map<int, int>, run: seq<int>)
    requires IntValued(durable)
    ensures var flushed := Merged(durable, RecordAll(Zeroed(seed), run));
            && flushed.Keys == durable.Keys + seed.Keys + (set k | k in run)
            && (forall k :: k in flushed ==> flushed[k] == Wrap32(GetOrZero(durable, k) + multiset(run)[k]))
  {
    RecordAllKeys(Zeroed(seed), run);
    var flushed := Merged(durable, RecordAll(Zeroed(seed), run));
    forall k | k in flushed
      ensures flushed[k] == Wrap32(GetOrZero(durable, k) + multiset(run)[k])
    {
      FlushedAt(durable, seed, run, k);
    }
  }

  /** The flushed count of one key. */
  lemma FlushedAt(durable: map<int, int>, seed: map<int, int>, run: seq<int>, k: int)
    requires IntValued(durable)
    requires k in Merged(durable, RecordAll(Zeroed(seed), run))
    ensures Merged(durable, RecordAll(Zeroed(seed), run))[k] == Wrap32(GetOrZero(durable, k) + multiset(run)[k])
  {
    var mem := RecordAll(Zeroed(seed), run);
    if k in mem {
      RecordAllAt(Zeroed(seed), run, k);
      AddToWrapped(GetOrZero(durable, k), multiset(run)[k]);
    } else {
      RecordAllKeys(Zeroed(seed), run);
      assert multiset(run)[k] == 0;
    }
  }

  /** Adding a count to a wrapped count, with wrap-around, wraps the whole sum. */
  lemma AddToWrapped(d: int, c: int)
    ensures Wrap32(d + Wrap32(0 + c)) == Wrap32(d + c)
  {
    assert 0 + c == c;
    Wrap32Add(c, d);
    assert Wrap32(c) + d == d + Wrap32(c);
    assert c + d == d + c;
  }

  // ---------------------------------------------------------------------
  // Reading the ledger back

  /** order lists each key of the set exactly once (a HashMap iteration order). */
  predicate Enumerates<K>(order: seq<K>, keys: set<K>) {
    && (forall i :: 0 <= i < |order| ==> order[i] in keys)
    && (forall k :: k in keys ==> k in order)
    && (forall i, j :: 0 <= i < j < |order| ==> order[i] != order[j])
  }

  /**
   * The merge as run's loop performs it: the keys in iteration order, each
   * reading the count stored so far (absent is 0) and writing the wrapped sum.
   */
  function MergeInto(durable: map<int, int>, mem: map<int, int>, keys: seq<int>): map<int, int>
    requires forall i :: 0 <= i < |keys| ==> keys[i] in mem
  {
    if keys == [] then durable
    else
      var prev := MergeInto(durable, mem, keys[..|keys| - 1]);
      var k := keys[|keys| - 1];
      prev[k := Wrap32(GetOrZero(prev, k) + mem[k])]
  }

  /** One key of the loop's merge: a visited key holds its sum, any other key its durable count. */
  lemma {:induction false} MergeIntoAt(durable: map<int, int>, mem: map<int, int>, keys: seq<int>, k: int)
    requires forall i :: 0 <= i < |keys| ==> keys[i] in mem
    requires forall i, j :: 0 <= i < j < |keys| ==> keys[i] != keys[j]
    ensures k in MergeInto(durable, mem, keys) <==> k in durable || k in keys
    ensures k in keys ==> MergeInto(durable, mem, keys)[k] == Wrap32(GetOrZero(durable, k) + mem[k])
    ensures k in durable && k !in keys ==> MergeInto(durable, mem, keys)[k] == durable[k]
  {
    if keys != [] {
      var init := keys[..|keys| - 1];
      var last := keys[|keys| - 1];
      var prev := MergeInto(durable, mem, init);
      MergeIntoAt(durable, mem, init, k);
      assert MergeInto(durable, mem, keys) == prev[last := Wrap32(GetOrZero(prev, last) + mem[last])];
      assert k in keys <==> k in init || k == last by {
        assert keys == init + [last];
      }
      if k == last {
        assert k !in init;
        assert GetOrZero(prev, k) == GetOrZero(durable, k);
      }
    }
  }

  /** Visiting every in-memory key once, in any order, gives the merge. */
  lemma MergeIntoIsMerged(durable: map<int, int>, mem: map<int, int>, order: seq<int>)
    requires Enumerates(order, mem.Keys)
    ensures MergeInto(durable, mem, order) == Merged(durable, mem)
  {
    var m := MergeInto(durable, mem, order);
    var merged := Merged(durable, mem);
    forall k ensures k in m <==> k in merged {
      MergeIntoAt(durable, mem, order, k);
    }
    forall k | k in merged ensures m[k] == merged[k] {
      MergeIntoAt(durable, mem, order, k);
    }
  }

  ghost predicate Readable(st: LedgerState) {
    st.locMap.Keys <= st.nameMap.Keys && st.locMap.Keys <= st.lineMap.Keys
  }

  /** getHitCounts: property name -> count (0 when absent), later keys overwriting earlier ones. */
  function HitCounts(st: LedgerState, order: seq<int>): map<string, int>
    requires forall i :: 0 <= i < |order| ==> order[i] in st.nameMap
  {
    if order == [] then map[]
    else
      var k := order[|order| - 1];
      HitCounts(st, order[..|order| - 1])[st.nameMap[k] := GetOrZero(st.countMap, k)]
  }

  /** getLinesForBlock: property name -> line list, in the same iteration order. */
  function LinesForBlock(st: LedgerState, order: seq<int>): map<string, seq<int>>
    requires forall i :: 0 <= i < |order| ==> order[i] in st.nameMap && order[i] in st.lineMap
  {
    if order == [] then map[]
    else
      var k := order[|order| - 1];
      LinesForBlock(st, order[..|order| - 1])[st.nameMap[k] := st.lineMap[k]]
  }

  /** The position of the last key in order whose property name is n, or -1 when there is none. */
  function LastWithName(st: LedgerState, order: seq<int>, n: string): (i: int)
    requires forall j :: 0 <= j < |order| ==> order[j] in st.nameMap
    ensures -1 <= i < |order|
    ensures i >= 0 ==> st.nameMap[order[i]] == n
    ensures forall j :: i < j < |order| ==> st.nameMap[order[j]] != n
  {
    if order == [] then -1
    else if st.nameMap[order[|order| - 1]] == n then |order| - 1
    else LastWithName(st, order[..|order| - 1], n)
  }

  /**
   * getHitCounts and getLinesForBlock have one entry per property name of the
   * keys iterated, and for each name both the count (0 when absent) and the
   * lines come from the same UID: the last one in iteration order that carries
   * that name.
   */
  lemma {:induction false} ReadBackAgrees(st: LedgerState, order: seq<int>, n: string)
    requires forall i :: 0 <= i < |order| ==> order[i] in st.nameMap && order[i] in st.lineMap
    ensures n in HitCounts(st, order) <==> LastWithName(st, order, n) >= 0
    ensures n in LinesForBlock(st, order) <==> LastWithName(st, order, n) >= 0
    ensures LastWithName(st, order, n) >= 0 ==>
              var k := order[LastWithName(st, order, n)];
              HitCounts(st, order)[n] == GetOrZero(st.countMap, k) &&
              LinesForBlock(st, order)[n] == st.lineMap[k]
  {
    if order != [] {
      var init := order[..|order| - 1];
      ReadBackAgrees(st, init, n);
      if st.nameMap[order[|order| - 1]] != n {
        var i := LastWithName(st, init, n);
        assert i >= 0 ==> init[i] == order[i];
      }
    }
  }

  /** Every name of an iterated key is a key of the hit-count map. */
  lemma NamesAreReported(st: LedgerState, order: seq<int>, i: int)
    requires forall j :: 0 <= j < |order| ==> order[j] in st.nameMap && order[j] in st.lineMap
    requires 0 <= i < |order|
    ensures st.nameMap[order[i]] in HitCounts(st, order)
    ensures LastWithName(st, order, st.nameMap[order[i]]) >= i
  {
    ReadBackAgrees(st, order, st.nameMap[order[i]]);
  }

  // ---------------------------------------------------------------------
  // The ledger object

  class CoverageLog {
    var locMap: map<int, string>
    var descMap: map<string, int>
    var nameMap: map<int, string>
    var lineMap: map<int, seq<int>>
    var countMap: map<int, int>
    var id: int
    var shouldReport: bool
    var inMemory: bool
    var inMemoryMap: map<int, int>

    function State(): LedgerState
      reads this
    {
      LedgerState(locMap, descMap, nameMap, lineMap, countMap, id)
    }

    /** The private constructor: open the store and start the counter at the number of known blocks. */
    constructor (store: Store)
      ensures State() == Opened(store)
      ensures !inMemory && inMemoryMap == map[] && !shouldReport
    {
      countMap := store.countMap;
      locMap := store.locMap;
      descMap := store.descMap;
      nameMap := store.nameMap;
      lineMap := store.lineMap;
      id := |store.locMap|;
      shouldReport := false;
      inMemory := false;
      inMemoryMap := map[];
    }

    /**
     * The in-memory part of getInstance(true): one 0 per key of the durable
     * count table, visiting the keys in the table's iteration order.
     */
    method SeedInMemory(order: seq<int>)
      requires Enumerates(order, countMap.Keys)
      modifies this`inMemory, this`inMemoryMap
      ensures inMemory
      ensures inMemoryMap == Zeroed(countMap)
    {
      inMemory := true;
      inMemoryMap := map[];
      for i := 0 to |order|
        invariant inMemory
        invariant inMemoryMap.Keys == set j | 0 <= j < i :: order[j]
        invariant forall k :: k in inMemoryMap ==> inMemoryMap[k] == 0
      {
        inMemoryMap := inMemoryMap[order[i] := 0];
      }
      assert inMemoryMap.Keys == countMap.Keys by {
        forall k | k in countMap ensures k in inMemoryMap {
          var j :| 0 <= j < |order| && order[j] == k;
        }
      }
    }

    /** record: count one more hit of key in the in-memory map. */
    method Record(key: int)
      requires inMemory
      modifies this`inMemoryMap
      ensures inMemoryMap == Recorded(old(inMemoryMap), key)
    {
      if key !in inMemoryMap {
        inMemoryMap := inMemoryMap[key := 1];
      } else {
        inMemoryMap := inMemoryMap[key := Wrap32(inMemoryMap[key] + 1)];
      }
    }

    /** register: write the four description tables once per key and advance the counter. */
    method Register(key: int, jbmcName: string, className: string, methodName: string,
                    bcLoc: int, lineNumbers: seq<int>)
      modifies this`locMap, this`descMap, this`nameMap, this`lineMap, this`id
      ensures State() == Registered(old(State()), key, jbmcName, className, methodName, bcLoc, lineNumbers)
    {
      var desc := BasicBlockID(className, methodName, bcLoc);
      if key !in locMap {
        locMap := locMap[key := desc];
        descMap := descMap[desc := key];
        nameMap := nameMap[key := jbmcName];
        lineMap := lineMap[key := lineNumbers];
        id := id + 1;
      }
    }

    /** getCoverageUID: the UID of a known block ID, otherwise the counter, which is not advanced. */
    method GetCoverageUID(desc: string) returns (uid: int)
      ensures desc in descMap ==> uid == descMap[desc]
      ensures desc !in descMap ==> uid == id
    {
      if desc in descMap {
        uid := descMap[desc];
      } else {
        uid := id;
      }
    }

    /** resetCoverage: every in-memory count back to 0, same keys, in the map's iteration order. */
    method ResetCoverage(order: seq<int>)
      requires inMemory && Enumerates(order, inMemoryMap.Keys)
      modifies this`inMemoryMap
      ensures inMemoryMap == Zeroed(old(inMemoryMap))
    {
      for i := 0 to |order|
        invariant inMemoryMap.Keys == old(inMemoryMap).Keys
        invariant forall j :: 0 <= j < i ==> inMemoryMap[order[j]] == 0
        invariant forall k :: k in inMemoryMap && k !in order[..i] ==> inMemoryMap[k] == old(inMemoryMap)[k]
      {
        inMemoryMap := inMemoryMap[order[i] := 0];
      }
      forall k | k in inMemoryMap ensures inMemoryMap[k] == 0 {
        var j :| 0 <= j < |order| && order[j] == k;
      }
    }

    /** setReport */
    method SetReport(toggleReport: bool)
      modifies this`shouldReport
      ensures shouldReport == toggleReport
    {
      shouldReport := toggleReport;
    }

    /**
     * run, the shutdown hook: in in-memory mode the count table is read back
     * from the store (reopened: its content at that moment) and every
     * in-memory count is added to it; otherwise the table is left as it is.
     */
    method Run(reopened: map<int, int>, order: seq<int>)
      requires Enumerates(order, inMemoryMap.Keys)
      modifies this`countMap
      ensures inMemory ==> countMap == Merged(reopened, inMemoryMap)
      ensures !inMemory ==> countMap == old(countMap)
    {
      if inMemory {
        countMap := reopened;
        for i := 0 to |order|
          invariant countMap == MergeInto(reopened, inMemoryMap, order[..i])
        {
          var key := order[i];
          var orig := if key in countMap then countMap[key] else 0;
          assert order[..i + 1][..i] == order[..i];
          countMap := countMap[key := Wrap32(orig + inMemoryMap[key])];
        }
        assert order[..|order|] == order;
        MergeIntoIsMerged(reopened, inMemoryMap, order);
      }
    }

    /** getHitCounts, iterating the location table in the given order. */
    method GetHitCounts(order: seq<int>) returns (descCountMap: map<string, int>)
      requires Readable(State()) && Enumerates(order, locMap.Keys)
      ensures descCountMap == HitCounts(State(), order)
    {
      descCountMap := map[];
      var i := 0;
      while i < |order|
        invariant 0 <= i <= |order|
        invariant descCountMap == HitCounts(State(), order[..i])
      {
        var key := order[i];
        assert order[..i + 1][..i] == order[..i];
        if key in countMap {
          descCountMap := descCountMap[nameMap[key] := countMap[key]];
        } else {
          descCountMap := descCountMap[nameMap[key] := 0];
        }
        i := i + 1;
      }
      assert order[..i] == order;
    }

    /** getLinesForBlock, iterating the location table in the given order. */
    method GetLinesForBlock(order: seq<int>) returns (descLineMap: map<string, seq<int>>)
      requires Readable(State()) && Enumerates(order, locMap.Keys)
      ensures descLineMap == LinesForBlock(State(), order)
    {
      descLineMap := map[];
      var i := 0;
      while i < |order|
        invariant 0 <= i <= |order|
        invariant descLineMap == LinesForBlock(State(), order[..i])
      {
        var key := order[i];
        assert order[..i + 1][..i] == order[..i];
        descLineMap := descLineMap[nameMap[key] := lineMap[key]];
        i := i + 1;
      }
      assert order[..i] == order;
    }
  }

  /** The static `instance` field that makes CoverageLog a per-process singleton. */
  class Singleton {
    var instance: CoverageLog?

    constructor ()
      ensures instance == null
    {
      instance := null;
    }

    /**
     * getInstance(inMemory): the first call opens the store and, in in-memory
     * mode, seeds the in-memory map; later calls return the same ledger and
     * ignore their argument.
     */
    method GetInstance(inMemory: bool, store: Store, countOrder: seq<int>) returns (log: CoverageLog)
      requires Enumerates(countOrder, store.countMap.Keys)
      modifies this
      ensures instance == log
      ensures old(instance) != null ==> log == old(instance)
      ensures old(instance) == null ==>
                && fresh(log) && log.State() == Opened(store) && log.inMemory == inMemory
                && log.inMemoryMap == (if inMemory then Zeroed(store.countMap) else map[])
                && !log.shouldReport
    {
      if instance == null {
        log := new CoverageLog(store);
        if inMemory {
          log.SeedInMemory(countOrder);
        }
        instance := log;
      } else {
        log := instance;
      }
    }
  }
}
