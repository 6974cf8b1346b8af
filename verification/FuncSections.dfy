/** The records a function refers to by offset: its pc-value tables, its GC map
    and its inline tree. */
module FuncSections {
  import opened ByteType
  import opened Options
  import opened Varint
  import opened RecordCodec
  import PcTable

  datatype Table = Table(kind: Byte, entries: seq<PcTable.Entry>)

  datatype Point = Point(pc: nat, args: seq<Byte>, locals: seq<Byte>, color: seq<Byte>)

  datatype GcMap = GcMap(nargs: nat, nlocals: nat, points: seq<Point>)

  datatype Head = Head(name: nat, text: nat, frame: nat, args: nat, abi: Byte, kind: Byte, flags: nat, id: Byte,
    file: nat, line: nat)

  /** One inlined call; `parent` is -1 for the function itself, `func` a name's offset. */
  datatype InlNode = InlNode(parent: int, file: nat, line: nat, func: nat, parentPc: nat, startLine: nat)

  datatype Func = Func(head: Head, sysv: nat, slots: seq<nat>, pcv: Option<seq<Table>>, gc: Option<GcMap>,
    inl: Option<seq<InlNode>>)

  /** FILE, LINE and INL_INDEX tables come from debug locations. */
  predicate LineKind(k: Byte) { k == 2 || k == 3 || k == 5 }

  // ----- field readers: a value and the bytes after it -----

  datatype Got<+T> = Got(value: T, rest: seq<Byte>)

  function GetU(b: seq<Byte>): (r: Option<Got<nat>>)
    ensures r.Some? ==> |r.value.rest| < |b|
  {
    var n := Uvarint(b, 0, 0);
    if n.None? then None else Some(Got(n.value.value, b[n.value.len..]))
  }

  function GetS(b: seq<Byte>): (r: Option<Got<int>>)
    ensures r.Some? ==> |r.value.rest| < |b|
  {
    var n := SlebRead(b, 0, 0);
    if n.None? then None else Some(Got(n.value.value, b[n.value.len..]))
  }

  function GetB(b: seq<Byte>): Option<Got<Byte>> { if b == [] then None else Some(Got(b[0], b[1..])) }

  function GetN(b: seq<Byte>, n: nat): Option<Got<seq<Byte>>> { if |b| < n then None else Some(Got(b[..n], b[n..])) }

  lemma BackU(v: nat, rest: seq<Byte>)
    requires IsU64(v)
    ensures GetU(Uleb(v) + rest) == Some(Got(v, rest))
  {
    UlebRoundTrip(v, rest);
  }

  lemma BackS(v: int, rest: seq<Byte>)
    requires IsI64(v)
    ensures GetS(Sleb(v) + rest) == Some(Got(v, rest))
  {
    SlebRoundTrip(v, rest);
  }

  lemma BackB(v: Byte, rest: seq<Byte>)
    ensures GetB([v] + rest) == Some(Got(v, rest))
  {
  }

  lemma BackN(v: seq<Byte>, rest: seq<Byte>)
    ensures GetN(v + rest, |v|) == Some(Got(v, rest))
  {
  }

  // ----- pc-value tables -----

  function PutEntries(es: seq<PcTable.Entry>): (b: seq<Byte>)
    ensures |es| <= |b|
  {
    if es == [] then [] else Uleb(es[0].pc) + (Sleb(es[0].value) + PutEntries(es[1..]))
  }

  /** In a line table a row at the pc of the row before replaces it. */
  function Push(acc: seq<PcTable.Entry>, e: PcTable.Entry, line: bool): seq<PcTable.Entry> {
    if line && acc != [] && acc[|acc| - 1].pc == e.pc then acc[..|acc| - 1] + [e] else acc + [e]
  }

  function GetEntries(b: seq<Byte>, n: nat, line: bool, acc: seq<PcTable.Entry>): Option<Got<seq<PcTable.Entry>>>
    decreases n
  {
    if n == 0 then Some(Got(acc, b)) else
      var pc := GetU(b);
      if pc.None? then None else
        var v := GetS(pc.value.rest);
        if v.None? then None else GetEntries(v.value.rest, n - 1, line,
          Push(acc, PcTable.Entry(pc.value.value, v.value.value), line))
  }

  function Fold(es: seq<PcTable.Entry>, line: bool, acc: seq<PcTable.Entry>): seq<PcTable.Entry> {
    if es == [] then acc else Fold(es[1..], line, Push(acc, es[0], line))
  }

  lemma {:induction false} BackEntries(es: seq<PcTable.Entry>, line: bool, acc: seq<PcTable.Entry>, rest: seq<Byte>)
    requires PcTable.EntriesOk(es)
    ensures GetEntries(PutEntries(es) + rest, |es|, line, acc) == Some(Got(Fold(es, line, acc), rest))
    decreases |es|
  {
    if es == [] {
      assert PutEntries(es) + rest == rest;
    } else {
      var e, more := es[0], PutEntries(es[1..]) + rest;
      assert PutEntries(es) + rest == Uleb(e.pc) + (Sleb(e.value) + more);
      BackU(e.pc, Sleb(e.value) + more);
      BackS(e.value, more);
      BackEntries(es[1..], line, Push(acc, e, line), rest);
    }
  }

  function PutTable(t: Table): seq<Byte> { [t.kind] + (Uleb(|t.entries|) + PutEntries(t.entries)) }

  function PutTables(ts: seq<Table>): seq<Byte> { if ts == [] then [] else PutTable(ts[0]) + PutTables(ts[1..]) }

  /** What the reader makes of a table. */
  function Collapsed(t: Table): Table { Table(t.kind, Fold(t.entries, LineKind(t.kind), [])) }

  function CollapsedAll(ts: seq<Table>): seq<Table> {
    if ts == [] then [] else [Collapsed(ts[0])] + CollapsedAll(ts[1..])
  }

  function GetTable(b: seq<Byte>): Option<Got<Table>> {
    var k := GetB(b);
    if k.None? then None else
      var c := GetU(k.value.rest);
      if c.None? || c.value.value > |c.value.rest| then None else
        var es := GetEntries(c.value.rest, c.value.value, LineKind(k.value.value), []);
        if es.None? then None else Some(Got(Table(k.value.value, es.value.value), es.value.rest))
  }

  function GetTables(b: seq<Byte>, n: nat): Option<Got<seq<Table>>>
    decreases n
  {
    if n == 0 then Some(Got([], b)) else
      var t := GetTable(b);
      if t.None? then None else
        var more := GetTables(t.value.rest, n - 1);
        if more.None? then None else Some(Got([t.value.value] + more.value.value, more.value.rest))
  }

  ghost predicate TableOk(t: Table) { PcTable.EntriesOk(t.entries) && IsU64(|t.entries|) }

  ghost predicate TablesOk(ts: seq<Table>) { IsU64(|ts|) && forall k :: 0 <= k < |ts| ==> TableOk(ts[k]) }

  lemma BackTable(t: Table, rest: seq<Byte>)
    requires TableOk(t)
    ensures GetTable(PutTable(t) + rest) == Some(Got(Collapsed(t), rest))
  {
    var body := PutEntries(t.entries) + rest;
    assert PutTable(t) + rest == [t.kind] + (Uleb(|t.entries|) + body);
    BackB(t.kind, Uleb(|t.entries|) + body);
    BackU(|t.entries|, body);
    BackEntries(t.entries, LineKind(t.kind), [], rest);
  }

  lemma {:induction false} BackTables(ts: seq<Table>, rest: seq<Byte>)
    requires forall k :: 0 <= k < |ts| ==> TableOk(ts[k])
    ensures GetTables(PutTables(ts) + rest, |ts|) == Some(Got(CollapsedAll(ts), rest))
    decreases |ts|
  {
    hide GetTable, PutTable, TableOk, Collapsed;
    if ts == [] {
      assert PutTables(ts) + rest == rest;
    } else {
      assert PutTables(ts) + rest == PutTable(ts[0]) + (PutTables(ts[1..]) + rest);
      BackTable(ts[0], PutTables(ts[1..]) + rest);
      BackTables(ts[1..], rest);
    }
  }

  function PcvBody(ts: seq<Table>): seq<Byte> { Uleb(|ts|) + PutTables(ts) }

  function GetPcv(b: seq<Byte>): Option<seq<Table>> {
    var n := GetU(b);
    if n.None? then None else
      var ts := GetTables(n.value.rest, n.value.value);
      if ts.None? then None else Some(ts.value.value)
  }

  lemma BackPcv(ts: seq<Table>)
    requires TablesOk(ts)
    ensures GetPcv(PcvBody(ts)) == Some(CollapsedAll(ts))
  {
    BackU(|ts|, PutTables(ts));
    BackTables(ts, []);
    assert PutTables(ts) + [] == PutTables(ts);
  }

  // ----- which tables come back unchanged -----

  ghost predicate NoRepeat(es: seq<PcTable.Entry>) { forall i :: 0 < i < |es| ==> es[i - 1].pc != es[i].pc }

  lemma {:induction false} FoldLength(es: seq<PcTable.Entry>, line: bool, acc: seq<PcTable.Entry>)
    ensures |Fold(es, line, acc)| <= |acc| + |es|
    decreases |es|
  {
    if es != [] { FoldLength(es[1..], line, Push(acc, es[0], line)); }
  }

  lemma {:induction false} FoldExact(es: seq<PcTable.Entry>, line: bool, acc: seq<PcTable.Entry>)
    ensures Fold(es, line, acc) == acc + es <==>
      (line && acc != [] ==> NoRepeat([acc[|acc| - 1]] + es)) && (line && acc == [] ==> NoRepeat(es))
    decreases |es|
  {
    if es == [] {
      assert acc + es == acc;
    } else {
      var e, more := es[0], Push(acc, es[0], line);
      if line && acc != [] && acc[|acc| - 1].pc == e.pc {
        FoldLength(es[1..], line, more);
        var s := [acc[|acc| - 1]] + es;
        assert |more| == |acc| && |Fold(es, line, acc)| < |acc + es|;
        assert s[0] == acc[|acc| - 1] && s[1] == e;
        assert !NoRepeat(s);
      } else {
        FoldExact(es[1..], line, more);
        assert acc + es == more + es[1..] && more[|more| - 1] == e && [e] + es[1..] == es;
        if line && acc != [] { PrependRepeat(acc[|acc| - 1], es); }
      }
    }
  }

  lemma PrependRepeat(a: PcTable.Entry, es: seq<PcTable.Entry>)
    requires es != [] && a.pc != es[0].pc
    ensures NoRepeat([a] + es) <==> NoRepeat(es)
  {
    var s := [a] + es;
    forall i | 0 < i < |es|
      ensures es[i - 1] == s[i] && es[i] == s[i + 1]
    {
    }
    if NoRepeat(es) {
      forall i | 0 < i < |s|
        ensures s[i - 1].pc != s[i].pc
      {
        if i > 1 { assert es[i - 2].pc != es[i - 1].pc; }
      }
    }
    if NoRepeat(s) {
      forall i | 0 < i < |es|
        ensures es[i - 1].pc != es[i].pc
      {
        assert s[i].pc != s[i + 1].pc;
      }
    }
  }

  /** Kinds 2, 3 and 5 are the file, line and inline-index tables. */
  ghost predicate Clean(t: Table) { t.kind in {2, 3, 5} ==> NoRepeat(t.entries) }

  /** The value in force at a pc: of the last row that is not after it. */
  function InForce(es: seq<PcTable.Entry>, pc: nat): Option<int> {
    if es == [] then None
    else if es[|es| - 1].pc <= pc then Some(es[|es| - 1].value)
    else InForce(es[..|es| - 1], pc)
  }

  lemma {:induction false} InForceJoin(a: seq<PcTable.Entry>, b: seq<PcTable.Entry>, pc: nat)
    ensures InForce(a + b, pc) == if InForce(b, pc).Some? then InForce(b, pc) else InForce(a, pc)
    decreases |b|
  {
    if b == [] {
      assert a + b == a;
    } else {
      assert (a + b)[..|a + b| - 1] == a + b[..|b| - 1];
      InForceJoin(a, b[..|b| - 1], pc);
    }
  }

  lemma PushInForce(acc: seq<PcTable.Entry>, e: PcTable.Entry, line: bool, pc: nat)
    ensures InForce(Push(acc, e, line), pc) == InForce(acc + [e], pc)
  {
    assert (acc + [e])[..|acc|] == acc;
    if line && acc != [] && acc[|acc| - 1].pc == e.pc {
      var init := acc[..|acc| - 1];
      assert (init + [e])[..|init|] == init;
    }
  }

  lemma {:induction false} FoldInForce(es: seq<PcTable.Entry>, line: bool, acc: seq<PcTable.Entry>, pc: nat)
    ensures InForce(Fold(es, line, acc), pc) == InForce(acc + es, pc)
    decreases |es|
  {
    hide InForce;
    if es == [] {
      assert acc + es == acc;
    } else {
      FoldInForce(es[1..], line, Push(acc, es[0], line), pc);
      PushInForce(acc, es[0], line, pc);
      InForceJoin(Push(acc, es[0], line), es[1..], pc);
      InForceJoin(acc + [es[0]], es[1..], pc);
      assert acc + [es[0]] + es[1..] == acc + es;
    }
  }

  /** Dropping repeated rows changes no lookup. */
  lemma CollapsedReads(t: Table, pc: nat)
    ensures InForce(Collapsed(t).entries, pc) == InForce(t.entries, pc)
  {
    FoldInForce(t.entries, LineKind(t.kind), [], pc);
    assert [] + t.entries == t.entries;
  }

  lemma CollapsedOne(t: Table)
    ensures Collapsed(t) == t <==> Clean(t)
  {
    FoldExact(t.entries, LineKind(t.kind), []);
    assert [] + t.entries == t.entries;
  }

  /** Tables come back as they were exactly when no line table has two rows in
      a row at one pc. */
  lemma {:induction false} CollapsedIff(ts: seq<Table>)
    ensures CollapsedAll(ts) == ts <==> forall k :: 0 <= k < |ts| ==> Clean(ts[k])
    decreases |ts|
  {
    hide Collapsed, Clean;
    if ts != [] {
      var t, more := ts[0], ts[1..];
      CollapsedIff(more);
      CollapsedOne(t);
      assert ts == [t] + more;
      assert CollapsedAll(ts) == [Collapsed(t)] + CollapsedAll(more);
      assert CollapsedAll(ts) == ts ==> CollapsedAll(ts)[0] == t && CollapsedAll(ts)[1..] == more;
      assert CollapsedAll(ts)[1..] == CollapsedAll(more);
    }
  }

  // ----- GC maps -----

  function Bytes8(n: nat): nat { (n + 7) / 8 }

  function PutPoint(p: Point): seq<Byte> { Uleb(p.pc) + (p.args + (p.locals + (Uleb(|p.color|) + p.color))) }

  function PutPoints(ps: seq<Point>): (b: seq<Byte>)
    ensures |ps| <= |b|
  {
    if ps == [] then [] else PutPoint(ps[0]) + PutPoints(ps[1..])
  }

  function GetPoint(b: seq<Byte>, na: nat, nl: nat): Option<Got<Point>> {
    var pc := GetU(b);
    if pc.None? then None else
      var args := GetN(pc.value.rest, na);
      if args.None? then None else
        var locals := GetN(args.value.rest, nl);
        if locals.None? then None else
          var nc := GetU(locals.value.rest);
          if nc.None? then None else
            var color := GetN(nc.value.rest, nc.value.value);
            if color.None? then None
              else Some(Got(Point(pc.value.value, args.value.value, locals.value.value, color.value.value),
              color.value.rest))
  }

  function GetPoints(b: seq<Byte>, n: nat, na: nat, nl: nat): Option<Got<seq<Point>>>
    decreases n
  {
    if n == 0 then Some(Got([], b)) else
      var p := GetPoint(b, na, nl);
      if p.None? then None else
        var more := GetPoints(p.value.rest, n - 1, na, nl);
        if more.None? then None else Some(Got([p.value.value] + more.value.value, more.value.rest))
  }

  ghost predicate PointOk(p: Point, na: nat, nl: nat) {
    IsU64(p.pc) && |p.args| == na && |p.locals| == nl && IsU64(|p.color|)
  }

  lemma BackPoint(p: Point, na: nat, nl: nat, rest: seq<Byte>)
    requires PointOk(p, na, nl)
    ensures GetPoint(PutPoint(p) + rest, na, nl) == Some(Got(p, rest))
  {
    var b4 := Uleb(|p.color|) + (p.color + rest);
    var b3 := p.locals + b4;
    var b2 := p.args + b3;
    assert PutPoint(p) + rest == Uleb(p.pc) + b2;
    BackU(p.pc, b2);
    BackN(p.args, b3);
    BackN(p.locals, b4);
    BackU(|p.color|, p.color + rest);
    BackN(p.color, rest);
  }

  lemma {:induction false} BackPoints(ps: seq<Point>, na: nat, nl: nat, rest: seq<Byte>)
    requires forall k :: 0 <= k < |ps| ==> PointOk(ps[k], na, nl)
    ensures GetPoints(PutPoints(ps) + rest, |ps|, na, nl) == Some(Got(ps, rest))
    decreases |ps|
  {
    hide GetPoint, PutPoint, PointOk;
    if ps == [] {
      assert PutPoints(ps) + rest == rest;
    } else {
      assert PutPoints(ps) + rest == PutPoint(ps[0]) + (PutPoints(ps[1..]) + rest);
      BackPoint(ps[0], na, nl, PutPoints(ps[1..]) + rest);
      BackPoints(ps[1..], na, nl, rest);
      assert [ps[0]] + ps[1..] == ps;
    }
  }

  function GcBody(g: GcMap): seq<Byte> { Uleb(g.nargs) + (Uleb(g.nlocals) + (Uleb(|g.points|) + PutPoints(g.points))) }

  function GetGc(b: seq<Byte>): Option<GcMap> {
    var na := GetU(b);
    if na.None? then None else
      var nl := GetU(na.value.rest);
      if nl.None? then None else
        var n := GetU(nl.value.rest);
        if n.None? || n.value.value > |n.value.rest| then None else
          var ps := GetPoints(n.value.rest, n.value.value, Bytes8(na.value.value), Bytes8(nl.value.value));
          if ps.None? then None else Some(GcMap(na.value.value, nl.value.value, ps.value.value))
  }

  ghost predicate GcOk(g: GcMap) {
    && IsU64(g.nargs) && IsU64(g.nlocals) && IsU64(|g.points|)
    && forall k :: 0 <= k < |g.points| ==> PointOk(g.points[k], Bytes8(g.nargs), Bytes8(g.nlocals))
  }

  lemma BackGc(g: GcMap)
    requires GcOk(g)
    ensures GetGc(GcBody(g)) == Some(g)
  {
    var b3 := PutPoints(g.points);
    var b2 := Uleb(|g.points|) + b3;
    BackU(g.nargs, Uleb(g.nlocals) + b2);
    BackU(g.nlocals, b2);
    BackU(|g.points|, b3);
    assert b3 + [] == b3;
    BackPoints(g.points, Bytes8(g.nargs), Bytes8(g.nlocals), []);
  }

  // ----- inline trees -----

  function PutNode(n: InlNode): seq<Byte> {
    Sleb(n.parent) + (Uleb(n.file) + (Uleb(n.line) + (Uleb(n.func) + (Uleb(n.parentPc) + Uleb(n.startLine)))))
  }

  function PutNodes(ns: seq<InlNode>): (b: seq<Byte>)
    ensures |ns| <= |b|
  {
    if ns == [] then [] else PutNode(ns[0]) + PutNodes(ns[1..])
  }

  function GetNode(b: seq<Byte>): Option<Got<InlNode>> {
    var parent := GetS(b);
    if parent.None? then None else
      var file := GetU(parent.value.rest);
      if file.None? then None else
        var line := GetU(file.value.rest);
        if line.None? then None else
          var func := GetU(line.value.rest);
          if func.None? then None else
            var pc := GetU(func.value.rest);
            if pc.None? then None else
              var start := GetU(pc.value.rest);
              if start.None? then None else
                Some(Got(InlNode(parent.value.value, file.value.value, line.value.value, func.value.value,
                  pc.value.value,
                                 start.value.value), start.value.rest))
  }

  function GetNodes(b: seq<Byte>, n: nat): Option<Got<seq<InlNode>>>
    decreases n
  {
    if n == 0 then Some(Got([], b)) else
      var x := GetNode(b);
      if x.None? then None else
        var more := GetNodes(x.value.rest, n - 1);
        if more.None? then None else Some(Got([x.value.value] + more.value.value, more.value.rest))
  }

  ghost predicate NodeOk(n: InlNode) {
    IsI64(n.parent) && IsU64(n.file) && IsU64(n.line) && IsU64(n.func) && IsU64(n.parentPc) && IsU64(n.startLine)
  }

  lemma BackNode(n: InlNode, rest: seq<Byte>)
    requires NodeOk(n)
    ensures GetNode(PutNode(n) + rest) == Some(Got(n, rest))
  {
    hide Uleb, Sleb, GetU, GetS;
    var b6 := Uleb(n.startLine) + rest;
    var b5 := Uleb(n.parentPc) + b6;
    var b4 := Uleb(n.func) + b5;
    var b3 := Uleb(n.line) + b4;
    var b2 := Uleb(n.file) + b3;
    assert PutNode(n) + rest == Sleb(n.parent) + b2;
    BackS(n.parent, b2);
    BackU(n.file, b3);
    BackU(n.line, b4);
    BackU(n.func, b5);
    BackU(n.parentPc, b6);
    BackU(n.startLine, rest);
  }

  lemma {:induction false} BackNodes(ns: seq<InlNode>, rest: seq<Byte>)
    requires forall k :: 0 <= k < |ns| ==> NodeOk(ns[k])
    ensures GetNodes(PutNodes(ns) + rest, |ns|) == Some(Got(ns, rest))
    decreases |ns|
  {
    hide GetNode, PutNode, NodeOk;
    if ns == [] {
      assert PutNodes(ns) + rest == rest;
    } else {
      assert PutNodes(ns) + rest == PutNode(ns[0]) + (PutNodes(ns[1..]) + rest);
      BackNode(ns[0], PutNodes(ns[1..]) + rest);
      BackNodes(ns[1..], rest);
      assert [ns[0]] + ns[1..] == ns;
    }
  }

  function InlBody(ns: seq<InlNode>): seq<Byte> { Uleb(|ns|) + PutNodes(ns) }

  function GetInl(b: seq<Byte>): Option<seq<InlNode>> {
    var n := GetU(b);
    if n.None? || n.value.value > |n.value.rest| then None else
      var ns := GetNodes(n.value.rest, n.value.value);
      if ns.None? then None else Some(ns.value.value)
  }

  ghost predicate InlOk(ns: seq<InlNode>) { IsU64(|ns|) && forall k :: 0 <= k < |ns| ==> NodeOk(ns[k]) }

  lemma BackInl(ns: seq<InlNode>)
    requires InlOk(ns)
    ensures GetInl(InlBody(ns)) == Some(ns)
  {
    BackU(|ns|, PutNodes(ns));
    BackNodes(ns, []);
    assert PutNodes(ns) + [] == PutNodes(ns);
  }
}
