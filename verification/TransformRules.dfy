/** Parsing a zone of transform rules: all or nothing, each phase in priority order (transformrule/transformrule.go). */
module TransformRules {
  import opened Outcomes

  datatype Op = Op(
    typ: string, name: string, value: string, to: string, path: string, regex: string, replace: string,
    query: map<string, string>, removeQuery: seq<string>, status: int,
    allowOrigins: seq<string>, allowCredentials: bool, maxAge: string)

  datatype RawRule = RawRule(id: string, phase: string, filter: string, ops: seq<Op>, mode: string, priority: int)

  datatype Document = Blank | Malformed | Document(transforms: seq<RawRule>)

  datatype ReqOp =
    | SetHeader(name: string, value: string)
    | RemoveHeader(name: string)
    | SetPath(path: string)
    | ReplacePath(regex: string, replace: string)
    | EditQuery(query: map<string, string>, removeQuery: seq<string>)
    | Redirect(to: string, status: int)

  datatype RespOp = SetStatus(status: int) | SetRespHeader(name: string, value: string) | RemoveRespHeader(name: string)

  datatype Cors = Cors(anyOrigin: bool, origins: seq<string>, credentials: bool, maxAge: string)

  /**
   * A compiled rule; `decl` is its place among all rules of the zone as declared, which tells one compiled
   * predicate from another. The filter is kept as its trimmed expression, None for none.
   */
  datatype Rule<T> = Rule(decl: nat, id: string, prio: int, filter: Option<string>, shadow: bool, body: T)

  datatype Zone = Zone(req: seq<Rule<seq<ReqOp>>>, resp: seq<Rule<seq<RespOp>>>, cors: seq<Rule<Cors>>)

  /** What libraries decide about strings. */
  datatype Env = Env(
    trim: string -> string, filterCompiles: string -> bool, regexCompiles: string -> bool,
    headerName: string -> bool, headerValue: string -> bool, durationParses: string -> bool)

  function CompileReqOp(env: Env, op: Op, alone: bool): Option<ReqOp> {
    if op.typ == "set-header" then
      if env.headerName(op.name) && env.headerValue(op.value) then Some(SetHeader(op.name, op.value)) else None
    else if op.typ == "remove-header" then
      if env.headerName(op.name) then Some(RemoveHeader(op.name)) else None
    else if op.typ == "rewrite-path" then
      if op.path != "" then (if op.regex != "" || op.replace != "" then None else Some(SetPath(op.path)))
      else if op.regex == "" || op.replace == "" || !env.regexCompiles(op.regex) then None
      else Some(ReplacePath(op.regex, op.replace))
    else if op.typ == "rewrite-query" then
      if op.query == map[] && op.removeQuery == [] then None else Some(EditQuery(op.query, op.removeQuery))
    else if op.typ == "redirect" then
      if alone then Some(Redirect(op.to, if op.status == 0 then 302 else op.status)) else None
    else None
  }

  function CompileRespOp(env: Env, op: Op): Option<RespOp> {
    if op.typ == "set-header" then
      if env.headerName(op.name) && env.headerValue(op.value) then Some(SetRespHeader(op.name, op.value)) else None
    else if op.typ == "remove-header" then
      if env.headerName(op.name) then Some(RemoveRespHeader(op.name)) else None
    else if op.typ == "set-status" then
      if 100 <= op.status <= 599 then Some(SetStatus(op.status)) else None
    else None
  }

  function CompileCors(env: Env, op: Op): Option<Cors> {
    if op.maxAge != "" && !env.durationParses(op.maxAge) then None
    else if op.allowOrigins == [] then None
    else if op.allowOrigins == ["*"] then
      if op.allowCredentials then None else Some(Cors(true, [], false, op.maxAge))
    else Some(Cors(false, op.allowOrigins, op.allowCredentials, op.maxAge))
  }

  /** Every element compiles, or the whole list is refused. */
  function All<A, B>(compile: A -> Option<B>, xs: seq<A>): Option<seq<B>> {
    if xs == [] then Some([])
    else
      var rest := All(compile, xs[..|xs| - 1]);
      var last := compile(xs[|xs| - 1]);
      if rest.None? || last.None? then None else Some(rest.value + [last.value])
  }

  function ReqCompiler(env: Env, alone: bool): Op -> Option<ReqOp> {
    op => CompileReqOp(env, op, alone)
  }

  function RespCompiler(env: Env): Op -> Option<RespOp> {
    op => CompileRespOp(env, op)
  }

  datatype Compiled = ReqRule(req: Rule<seq<ReqOp>>) | RespRule(resp: Rule<seq<RespOp>>) | CorsRule(cors: Rule<Cors>)

  function CompileRule(env: Env, r: RawRule, decl: nat): Option<Compiled> {
    var f := env.trim(r.filter);
    var filter := if f == "" then None else Some(f);
    var shadow := r.mode == "shadow";
    if f != "" && !env.filterCompiles(f) then None
    else if r.mode != "" && r.mode != "shadow" then None
    else if r.ops == [] then None
    else if r.phase == "request" then
      match All(ReqCompiler(env, |r.ops| == 1), r.ops)
      case None => None
      case Some(ops) => Some(ReqRule(Rule(decl, r.id, r.priority, filter, shadow, ops)))
    else if r.phase == "response" then
      if |r.ops| == 1 && r.ops[0].typ == "cors" then
        match CompileCors(env, r.ops[0])
        case None => None
        case Some(c) => Some(CorsRule(Rule(decl, r.id, r.priority, filter, shadow, c)))
      else
        match All(RespCompiler(env), r.ops)
        case None => None
        case Some(ops) => Some(RespRule(Rule(decl, r.id, r.priority, filter, shadow, ops)))
    else None
  }

  // Stable sorting.

  predicate SortedByPrio<T>(s: seq<Rule<T>>) {
    forall i, j | 0 <= i < j < |s| :: s[i].prio <= s[j].prio
  }

  /** The rules of one priority, in the order they are listed. */
  function OfPrio<T>(s: seq<Rule<T>>, p: int): seq<Rule<T>> {
    if s == [] then []
    else if s[0].prio == p then [s[0]] + OfPrio(s[1..], p)
    else OfPrio(s[1..], p)
  }

  /** A stable arrangement: ascending priorities, and the rules of each priority in their original order. */
  ghost predicate Arranges<T(!new)>(s: seq<Rule<T>>, declared: seq<Rule<T>>) {
    SortedByPrio(s) && forall p :: OfPrio(s, p) == OfPrio(declared, p)
  }

  /** Insert a rule declared after all of s, behind every rule of its priority. */
  function InsertLast<T>(s: seq<Rule<T>>, r: Rule<T>): seq<Rule<T>> {
    if s == [] || r.prio < s[0].prio then [r] + s else [s[0]] + InsertLast(s[1..], r)
  }

  function SortStable<T>(s: seq<Rule<T>>): seq<Rule<T>> {
    if s == [] then [] else InsertLast(SortStable(s[..|s| - 1]), s[|s| - 1])
  }

  lemma {:induction false} InsertSorts<T>(s: seq<Rule<T>>, r: Rule<T>)
    requires SortedByPrio(s)
    ensures SortedByPrio(InsertLast(s, r))
    ensures forall x | x in InsertLast(s, r) :: x in s || x == r
  {
    if s != [] && s[0].prio <= r.prio {
      assert forall i | 0 <= i < |s[1..]| :: s[1..][i] == s[i + 1];
      InsertSorts(s[1..], r);
      var rest := InsertLast(s[1..], r);
      forall i | 0 <= i < |rest| ensures s[0].prio <= rest[i].prio {
        assert rest[i] in rest;
      }
    }
  }

  lemma {:induction false} InsertKeeps<T>(s: seq<Rule<T>>, r: Rule<T>, p: int)
    requires SortedByPrio(s)
    ensures OfPrio(InsertLast(s, r), p) == if r.prio == p then OfPrio(s, p) + [r] else OfPrio(s, p)
  {
    if s == [] {
    } else if r.prio < s[0].prio {
      assert ([r] + s)[1..] == s;
      if r.prio == p {
        NoneOfPrio(s, p);
      }
    } else {
      assert forall i | 0 <= i < |s[1..]| :: s[1..][i] == s[i + 1];
      InsertKeeps(s[1..], r, p);
      var rest := InsertLast(s[1..], r);
      assert ([s[0]] + rest)[1..] == rest;
    }
  }

  lemma {:induction false} NoneOfPrio<T>(s: seq<Rule<T>>, p: int)
    requires forall i | 0 <= i < |s| :: s[i].prio != p
    ensures OfPrio(s, p) == []
  {
    if s != [] {
      NoneOfPrio(s[1..], p);
    }
  }

  lemma {:induction false} OfPrioSnoc<T>(s: seq<Rule<T>>, r: Rule<T>, p: int)
    ensures OfPrio(s + [r], p) == if r.prio == p then OfPrio(s, p) + [r] else OfPrio(s, p)
  {
    if s != [] {
      assert (s + [r])[1..] == s[1..] + [r];
      OfPrioSnoc(s[1..], r, p);
    }
  }

  lemma {:induction false} SortArranges<T(!new)>(s: seq<Rule<T>>)
    ensures Arranges(SortStable(s), s)
  {
    if s != [] {
      var n := |s| - 1;
      SortArranges(s[..n]);
      InsertSorts(SortStable(s[..n]), s[n]);
      forall p ensures OfPrio(SortStable(s), p) == OfPrio(s, p) {
        InsertKeeps(SortStable(s[..n]), s[n], p);
        OfPrioSnoc(s[..n], s[n], p);
        assert s[..n] + [s[n]] == s;
      }
    }
  }

  lemma HeadComesFirst<T>(s: seq<Rule<T>>, p: int)
    requires s != [] && SortedByPrio(s)
    ensures OfPrio(s, s[0].prio) != [] && OfPrio(s, s[0].prio)[0] == s[0]
    ensures p < s[0].prio ==> OfPrio(s, p) == []
  {
    if p < s[0].prio {
      NoneOfPrio(s, p);
    }
  }

  /** There is one stable arrangement: priority order with declaration order for ties determines everything. */
  lemma {:induction false} ArrangementIsUnique<T(!new)>(a: seq<Rule<T>>, b: seq<Rule<T>>)
    requires SortedByPrio(a) && SortedByPrio(b) && forall p :: OfPrio(a, p) == OfPrio(b, p)
    ensures a == b
  {
    if a != [] {
      HeadComesFirst(a, if b == [] then 0 else b[0].prio);
      assert OfPrio(b, a[0].prio) != [];
    }
    if b != [] {
      HeadComesFirst(b, if a == [] then 0 else a[0].prio);
      assert OfPrio(a, b[0].prio) != [];
    }
    if a != [] {
      forall p ensures OfPrio(a[1..], p) == OfPrio(b[1..], p) {
        assert OfPrio(a, p) == OfPrio(b, p);
        if p == a[0].prio {
          assert OfPrio(a, p)[1..] == OfPrio(a[1..], p) && OfPrio(b, p)[1..] == OfPrio(b[1..], p);
        }
      }
      ArrangementIsUnique(a[1..], b[1..]);
      assert a == [a[0]] + a[1..] && b == [b[0]] + b[1..];
    }
  }

  // The zone of a list of documents.

  function RulesOf(docs: seq<Document>): Option<seq<RawRule>> {
    if docs == [] then Some([])
    else
      var rest := RulesOf(docs[..|docs| - 1]);
      match docs[|docs| - 1]
      case Blank => rest
      case Malformed => None
      case Document(ts) => if rest.None? || ts == [] then None else Some(rest.value + ts)
  }

  function Declared(z: Zone, c: Compiled): Zone {
    match c
    case ReqRule(r) => z.(req := z.req + [r])
    case RespRule(r) => z.(resp := z.resp + [r])
    case CorsRule(r) => z.(cors := z.cors + [r])
  }

  /** The rules of each phase in declaration order. */
  function CompileAll(env: Env, rules: seq<RawRule>): Option<Zone> {
    if rules == [] then Some(Zone([], [], []))
    else
      var rest := CompileAll(env, rules[..|rules| - 1]);
      var last := CompileRule(env, rules[|rules| - 1], |rules| - 1);
      if rest.None? || last.None? then None else Some(Declared(rest.value, last.value))
  }

  function ParseZone(env: Env, docs: seq<Document>): Option<Zone> {
    match RulesOf(docs)
    case None => None
    case Some(rules) =>
      match CompileAll(env, rules)
      case None => None
      case Some(z) => Some(Zone(SortStable(z.req), SortStable(z.resp), SortStable(z.cors)))
  }

  method Parse(env: Env, docs: seq<Document>) returns (r: Option<Zone>)
    ensures r == ParseZone(env, docs)
  {
    var rules: seq<RawRule> := [];
    for i := 0 to |docs|
      invariant RulesOf(docs[..i]) == Some(rules)
    {
      assert docs[..i + 1][..i] == docs[..i];
      match docs[i] {
        case Blank =>
        case Malformed =>
          BadDocument(docs, i + 1);
          return None;
        case Document(ts) =>
          if |ts| == 0 {
            BadDocument(docs, i + 1);
            return None;
          }
          rules := rules + ts;
      }
    }
    assert docs[..|docs|] == docs;
    var z := Zone([], [], []);
    for i := 0 to |rules|
      invariant CompileAll(env, rules[..i]) == Some(z)
    {
      assert rules[..i + 1][..i] == rules[..i];
      var c := CompileRule(env, rules[i], i);
      if c.None? {
        BadRule(env, rules, i + 1);
        return None;
      }
      z := Declared(z, c.value);
    }
    assert rules[..|rules|] == rules;
    return Some(Zone(SortStable(z.req), SortStable(z.resp), SortStable(z.cors)));
  }

  lemma {:induction false} BadDocument(docs: seq<Document>, n: nat)
    requires n <= |docs| && RulesOf(docs[..n]).None?
    ensures RulesOf(docs).None?
    decreases |docs| - n
  {
    if n == |docs| {
      assert docs[..n] == docs;
    } else {
      assert docs[..n + 1][..n] == docs[..n];
      BadDocument(docs, n + 1);
    }
  }

  lemma {:induction false} BadRule(env: Env, rules: seq<RawRule>, n: nat)
    requires n <= |rules| && CompileAll(env, rules[..n]).None?
    ensures CompileAll(env, rules).None?
    decreases |rules| - n
  {
    if n == |rules| {
      assert rules[..n] == rules;
    } else {
      assert rules[..n + 1][..n] == rules[..n];
      BadRule(env, rules, n + 1);
    }
  }

  predicate GoodDocument(d: Document) {
    d.Blank? || (d.Document? && d.transforms != [])
  }

  lemma {:induction false} DocumentsParseIff(docs: seq<Document>)
    ensures RulesOf(docs).Some? <==> forall i | 0 <= i < |docs| :: GoodDocument(docs[i])
  {
    if docs != [] {
      var n := |docs| - 1;
      DocumentsParseIff(docs[..n]);
      assert forall i | 0 <= i < n :: docs[..n][i] == docs[i];
      assert GoodDocument(docs[n]) <==> docs[n].Blank? || (docs[n].Document? && docs[n].transforms != []);
    }
  }

  lemma {:induction false} RulesCompileIff(env: Env, rules: seq<RawRule>)
    ensures CompileAll(env, rules).Some? <==> forall i | 0 <= i < |rules| :: CompileRule(env, rules[i], i).Some?
  {
    if rules != [] {
      var n := |rules| - 1;
      RulesCompileIff(env, rules[..n]);
      assert forall i | 0 <= i < n :: rules[..n][i] == rules[i];
      assert CompileAll(env, rules).Some? <==> CompileAll(env, rules[..n]).Some? && CompileRule(env, rules[n], n).Some?;
    }
  }

  /**
   * All or nothing: a zone comes out exactly when every document is blank or has transforms and every rule
   * compiles; then each phase is the one stable arrangement of its rules.
   */
  lemma ParsesIff(env: Env, docs: seq<Document>)
    ensures ParseZone(env, docs).Some? <==>
              && RulesOf(docs).Some?
              && (forall i | 0 <= i < |RulesOf(docs).value| :: CompileRule(env, RulesOf(docs).value[i], i).Some?)
    ensures RulesOf(docs).Some? <==> forall i | 0 <= i < |docs| :: GoodDocument(docs[i])
    ensures ParseZone(env, docs).Some? ==>
              var z, declared := ParseZone(env, docs).value, CompileAll(env, RulesOf(docs).value).value;
              Arranges(z.req, declared.req) && Arranges(z.resp, declared.resp) && Arranges(z.cors, declared.cors)
  {
    DocumentsParseIff(docs);
    if RulesOf(docs).Some? {
      var rules := RulesOf(docs).value;
      RulesCompileIff(env, rules);
      if CompileAll(env, rules).Some? {
        var z := CompileAll(env, rules).value;
        SortArranges(z.req);
        SortArranges(z.resp);
        SortArranges(z.cors);
      }
    }
  }

  // What every compiled zone may be relied on for.

  predicate SafeReqOp(env: Env, op: ReqOp, alone: bool) {
    && (op.Redirect? ==> alone)
    && (op.SetHeader? ==> env.headerName(op.name) && env.headerValue(op.value))
    && (op.RemoveHeader? ==> env.headerName(op.name))
    && (op.ReplacePath? ==> env.regexCompiles(op.regex))
  }

  predicate SafeReq(env: Env, ops: seq<ReqOp>) {
    ops != [] && forall i | 0 <= i < |ops| :: SafeReqOp(env, ops[i], |ops| == 1)
  }

  predicate SafeResp(env: Env, ops: seq<RespOp>) {
    && ops != []
    && forall i | 0 <= i < |ops| ::
         && (ops[i].SetStatus? ==> 100 <= ops[i].status <= 599)
         && (ops[i].SetRespHeader? ==> env.headerName(ops[i].name) && env.headerValue(ops[i].value))
         && (ops[i].RemoveRespHeader? ==> env.headerName(ops[i].name))
  }

  /** Credentials never go with a wildcard origin, which the CORS middleware would panic on. */
  predicate SafeCors(c: Cors) {
    !(c.anyOrigin && c.credentials) && (c.anyOrigin || c.origins != [])
  }

  predicate SafeZone(env: Env, z: Zone) {
    && (forall r | r in z.req :: SafeReq(env, r.body))
    && (forall r | r in z.resp :: SafeResp(env, r.body))
    && (forall r | r in z.cors :: SafeCors(r.body))
  }

  lemma {:induction false} AllCompile<A, B>(compile: A -> Option<B>, xs: seq<A>)
    ensures var r := All(compile, xs);
            r.Some? ==> |r.value| == |xs| && forall i | 0 <= i < |xs| :: compile(xs[i]) == Some(r.value[i])
  {
    if xs != [] {
      AllCompile(compile, xs[..|xs| - 1]);
    }
  }

  lemma AllOfOne<A, B>(compile: A -> Option<B>, x: A)
    requires compile(x).Some?
    ensures All(compile, [x]) == Some([compile(x).value])
  {
    assert [x][..0] == [] && All(compile, []) == Some([]);
    assert [] + [compile(x).value] == [compile(x).value];
  }

  lemma ReqOpIsSafe(env: Env, op: Op, alone: bool)
    requires CompileReqOp(env, op, alone).Some?
    ensures SafeReqOp(env, CompileReqOp(env, op, alone).value, alone)
  {
  }

  lemma ReqOpsAreSafe(env: Env, ops: seq<Op>)
    requires ops != [] && All(ReqCompiler(env, |ops| == 1), ops).Some?
    ensures SafeReq(env, All(ReqCompiler(env, |ops| == 1), ops).value)
  {
    var alone := |ops| == 1;
    var compiled := All(ReqCompiler(env, alone), ops).value;
    AllCompile(ReqCompiler(env, alone), ops);
    forall i | 0 <= i < |ops| ensures SafeReqOp(env, compiled[i], alone) {
      ReqOpIsSafe(env, ops[i], alone);
    }
  }

  lemma RespOpsAreSafe(env: Env, ops: seq<Op>)
    requires ops != [] && All(RespCompiler(env), ops).Some?
    ensures SafeResp(env, All(RespCompiler(env), ops).value)
  {
    AllCompile(RespCompiler(env), ops);
  }

  lemma CompiledRuleIsSafe(env: Env, r: RawRule, decl: nat)
    requires CompileRule(env, r, decl).Some?
    ensures match CompileRule(env, r, decl).value
            case ReqRule(rule) => SafeReq(env, rule.body)
            case RespRule(rule) => SafeResp(env, rule.body)
            case CorsRule(rule) => SafeCors(rule.body)
  {
    if r.phase == "request" {
      ReqOpsAreSafe(env, r.ops);
    } else if !(|r.ops| == 1 && r.ops[0].typ == "cors") {
      RespOpsAreSafe(env, r.ops);
    }
  }

  lemma {:induction false} CompiledIsSafe(env: Env, rules: seq<RawRule>)
    requires CompileAll(env, rules).Some?
    ensures SafeZone(env, CompileAll(env, rules).value)
  {
    if rules != [] {
      CompiledIsSafe(env, rules[..|rules| - 1]);
      CompiledRuleIsSafe(env, rules[|rules| - 1], |rules| - 1);
    }
  }

  lemma {:induction false} SortKeepsMembers<T>(s: seq<Rule<T>>)
    ensures SortedByPrio(SortStable(s)) && forall x | x in SortStable(s) :: x in s
  {
    if s != [] {
      var n := |s| - 1;
      SortKeepsMembers(s[..n]);
      InsertSorts(SortStable(s[..n]), s[n]);
    }
  }

  /**
   * Whatever the documents, a zone that comes out has no empty rule, a redirect alone in its rule, valid
   * header names and values, status overrides in range, and no wildcard origin with credentials. It says
   * nothing of redirect statuses, which are not checked.
   */
  lemma ParsedZoneIsSafe(env: Env, docs: seq<Document>)
    requires ParseZone(env, docs).Some?
    ensures SafeZone(env, ParseZone(env, docs).value)
  {
    var rules := RulesOf(docs).value;
    var z := CompileAll(env, rules).value;
    CompiledIsSafe(env, rules);
    SortKeepsMembers(z.req);
    SortKeepsMembers(z.resp);
    SortKeepsMembers(z.cors);
  }

  // Every rule of every document is in its own phase.

  /** The order in which rules of a phase run: by priority, then as declared. */
  predicate RunsBefore<T>(x: Rule<T>, y: Rule<T>) {
    x.prio < y.prio || (x.prio == y.prio && x.decl < y.decl)
  }

  predicate InRunOrder<T>(s: seq<Rule<T>>) {
    forall i, j | 0 <= i < j < |s| :: RunsBefore(s[i], s[j])
  }

  predicate DeclaredInOrder<T>(s: seq<Rule<T>>, below: nat) {
    (forall i, j | 0 <= i < j < |s| :: s[i].decl < s[j].decl) && forall i | 0 <= i < |s| :: s[i].decl < below
  }

  lemma {:induction false} InsertMember<T>(s: seq<Rule<T>>, r: Rule<T>, x: Rule<T>)
    ensures x in InsertLast(s, r) <==> x in s || x == r
  {
    if s != [] && s[0].prio <= r.prio {
      InsertMember(s[1..], r, x);
      assert x in s <==> x == s[0] || x in s[1..];
      assert x in [s[0]] + InsertLast(s[1..], r) <==> x == s[0] || x in InsertLast(s[1..], r);
    }
  }

  lemma {:induction false} SortMember<T>(s: seq<Rule<T>>, x: Rule<T>)
    ensures x in SortStable(s) <==> x in s
  {
    if s != [] {
      var n := |s| - 1;
      SortMember(s[..n], x);
      InsertMember(SortStable(s[..n]), s[n], x);
      assert x in s <==> x in s[..n] || x == s[n];
    }
  }

  lemma {:induction false} InsertKeepsRunOrder<T>(s: seq<Rule<T>>, r: Rule<T>)
    requires InRunOrder(s) && forall i | 0 <= i < |s| :: s[i].decl < r.decl
    ensures InRunOrder(InsertLast(s, r))
  {
    if s != [] && s[0].prio <= r.prio {
      var tail := s[1..];
      assert forall i | 0 <= i < |tail| :: tail[i] == s[i + 1];
      InsertKeepsRunOrder(tail, r);
      var rest := InsertLast(tail, r);
      forall i | 0 <= i < |rest| ensures RunsBefore(s[0], rest[i]) {
        InsertMember(tail, r, rest[i]);
        if rest[i] != r {
          var k :| 0 <= k < |tail| && tail[k] == rest[i];
          assert RunsBefore(s[0], s[k + 1]);
        }
      }
    } else if s != [] {
      forall i | 0 <= i < |s| ensures RunsBefore(r, s[i]) {
        assert i > 0 ==> RunsBefore(s[0], s[i]);
      }
    }
  }

  lemma {:induction false} SortRuns<T>(s: seq<Rule<T>>, below: nat)
    requires DeclaredInOrder(s, below)
    ensures InRunOrder(SortStable(s))
  {
    if s != [] {
      var n := |s| - 1;
      var init := s[..n];
      assert forall i | 0 <= i < n :: init[i] == s[i];
      SortRuns(init, below);
      forall i | 0 <= i < |SortStable(init)| ensures SortStable(init)[i].decl < s[n].decl {
        SortMember(init, SortStable(init)[i]);
      }
      InsertKeepsRunOrder(SortStable(init), s[n]);
    }
  }

  lemma {:induction false} SortKeepsLength<T>(s: seq<Rule<T>>)
    ensures |SortStable(s)| == |s|
  {
    if s != [] {
      SortKeepsLength(s[..|s| - 1]);
      InsertLengthens(SortStable(s[..|s| - 1]), s[|s| - 1]);
    }
  }

  lemma {:induction false} InsertLengthens<T>(s: seq<Rule<T>>, r: Rule<T>)
    ensures |InsertLast(s, r)| == |s| + 1
  {
    if s != [] && s[0].prio <= r.prio {
      InsertLengthens(s[1..], r);
    }
  }

  /** The rules of documents put together are theirs apart, in order; one that is malformed or empty spoils all. */
  lemma {:induction false} DocumentsConcatenate(a: seq<Document>, b: seq<Document>)
    ensures RulesOf(a + b) == if RulesOf(a).None? || RulesOf(b).None? then None
                              else Some(RulesOf(a).value + RulesOf(b).value)
  {
    if b == [] {
      assert a + b == a && (RulesOf(a).Some? ==> RulesOf(a).value + [] == RulesOf(a).value);
    } else {
      var n := |b| - 1;
      DocumentsConcatenate(a, b[..n]);
      assert (a + b)[..|a + b| - 1] == a + b[..n];
      if RulesOf(a).Some? && RulesOf(b[..n]).Some? && b[n].Document? {
        var x, y := RulesOf(a).value, RulesOf(b[..n]).value;
        assert (x + y) + b[n].transforms == x + (y + b[n].transforms);
      }
    }
  }

  lemma OneDocument(d: Document)
    ensures RulesOf([d]) == if d.Blank? then Some([]) else if d.Malformed? || d.transforms == [] then None
                            else Some(d.transforms)
  {
    assert [d][..0] == [] && RulesOf([]) == Some([]);
    if d.Document? {
      assert [] + d.transforms == d.transforms;
    }
  }

  predicate Holds(z: Zone, c: Compiled) {
    match c
    case ReqRule(r) => r in z.req
    case RespRule(r) => r in z.resp
    case CorsRule(r) => r in z.cors
  }

  lemma StillHolds(z: Zone, last: Compiled, c: Compiled)
    requires Holds(z, c) || c == last
    ensures Holds(Declared(z, last), c)
  {
  }

  lemma DeclIs(env: Env, r: RawRule, decl: nat)
    requires CompileRule(env, r, decl).Some?
    ensures match CompileRule(env, r, decl).value
            case ReqRule(x) => x.decl == decl
            case RespRule(x) => x.decl == decl
            case CorsRule(x) => x.decl == decl
  {
  }

  predicate InOrder(z: Zone, below: nat) {
    DeclaredInOrder(z.req, below) && DeclaredInOrder(z.resp, below) && DeclaredInOrder(z.cors, below)
  }

  function Size(z: Zone): nat {
    |z.req| + |z.resp| + |z.cors|
  }

  lemma StaysInOrder(env: Env, z: Zone, raw: RawRule, decl: nat)
    requires InOrder(z, decl) && CompileRule(env, raw, decl).Some?
    ensures var z' := Declared(z, CompileRule(env, raw, decl).value); InOrder(z', decl + 1) && Size(z') == Size(z) + 1
  {
    DeclIs(env, raw, decl);
  }

  lemma {:induction false} AllAreInOrder(env: Env, rules: seq<RawRule>)
    requires CompileAll(env, rules).Some?
    ensures InOrder(CompileAll(env, rules).value, |rules|) && Size(CompileAll(env, rules).value) == |rules|
  {
    if rules != [] {
      var n := |rules| - 1;
      AllAreInOrder(env, rules[..n]);
      StaysInOrder(env, CompileAll(env, rules[..n]).value, rules[n], n);
    }
  }

  lemma {:induction false} AllAreHeld(env: Env, rules: seq<RawRule>, i: nat)
    requires CompileAll(env, rules).Some? && i < |rules|
    ensures CompileRule(env, rules[i], i).Some?
    ensures Holds(CompileAll(env, rules).value, CompileRule(env, rules[i], i).value)
  {
    var n := |rules| - 1;
    if i < n {
      AllAreHeld(env, rules[..n], i);
      assert rules[..n][i] == rules[i];
    }
    StillHolds(CompileAll(env, rules[..n]).value, CompileRule(env, rules[n], n).value,
               CompileRule(env, rules[i], i).value);
  }

  /** A rule compiled from this raw one, declared at place i. */
  predicate StandsFor<T>(env: Env, raw: RawRule, i: nat, x: Rule<T>) {
    && x.decl == i && x.id == raw.id && x.prio == raw.priority && (x.shadow <==> raw.mode == "shadow")
    && x.filter == (if env.trim(raw.filter) == "" then None else Some(env.trim(raw.filter)))
  }

  predicate LoneCors(raw: RawRule) {
    |raw.ops| == 1 && raw.ops[0].typ == "cors"
  }

  lemma {:induction false} AllIff<A, B>(compile: A -> Option<B>, xs: seq<A>)
    ensures All(compile, xs).Some? <==> forall i | 0 <= i < |xs| :: compile(xs[i]).Some?
  {
    if xs != [] {
      var n := |xs| - 1;
      AllIff(compile, xs[..n]);
      assert forall i | 0 <= i < n :: xs[..n][i] == xs[i];
      assert All(compile, xs).Some? <==> All(compile, xs[..n]).Some? && compile(xs[n]).Some?;
    }
  }

  /** Exactly which rules compile: filter and mode are good, and there are operations, all good for the phase. */
  lemma RuleCompilesIff(env: Env, r: RawRule, decl: nat)
    ensures CompileRule(env, r, decl).Some? <==>
            && (env.trim(r.filter) == "" || env.filterCompiles(env.trim(r.filter)))
            && r.mode in {"", "shadow"} && r.ops != []
            && (|| (r.phase == "request"
                    && forall i | 0 <= i < |r.ops| :: CompileReqOp(env, r.ops[i], |r.ops| == 1).Some?)
                || (r.phase == "response" && LoneCors(r) && CompileCors(env, r.ops[0]).Some?)
                || (r.phase == "response" && !LoneCors(r)
                    && forall i | 0 <= i < |r.ops| :: CompileRespOp(env, r.ops[i]).Some?))
  {
    AllIff(ReqCompiler(env, |r.ops| == 1), r.ops);
    AllIff(RespCompiler(env), r.ops);
  }

  ghost predicate InItsPhase(env: Env, raw: RawRule, i: nat, z: Zone) {
    if raw.phase == "request" then
      exists x | x in z.req :: StandsFor(env, raw, i, x) && |x.body| == |raw.ops|
        && forall k | 0 <= k < |raw.ops| :: CompileReqOp(env, raw.ops[k], |raw.ops| == 1) == Some(x.body[k])
    else if LoneCors(raw) then
      exists x | x in z.cors :: StandsFor(env, raw, i, x) && CompileCors(env, raw.ops[0]) == Some(x.body)
    else
      exists x | x in z.resp :: StandsFor(env, raw, i, x) && |x.body| == |raw.ops|
        && forall k | 0 <= k < |raw.ops| :: CompileRespOp(env, raw.ops[k]) == Some(x.body[k])
  }

  lemma HeldIsInItsPhase(env: Env, raw: RawRule, i: nat, z: Zone)
    requires CompileRule(env, raw, i).Some? && Holds(z, CompileRule(env, raw, i).value)
    ensures raw.phase in {"request", "response"} && raw.mode in {"", "shadow"} && raw.ops != []
    ensures InItsPhase(env, raw, i, z)
  {
    AllCompile(ReqCompiler(env, |raw.ops| == 1), raw.ops);
    AllCompile(RespCompiler(env), raw.ops);
    match CompileRule(env, raw, i).value
    case ReqRule(x) => assert StandsFor(env, raw, i, x);
    case RespRule(x) => assert StandsFor(env, raw, i, x);
    case CorsRule(x) => assert StandsFor(env, raw, i, x);
  }

  lemma SortedHolds(z: Zone, c: Compiled)
    requires Holds(z, c)
    ensures Holds(Zone(SortStable(z.req), SortStable(z.resp), SortStable(z.cors)), c)
  {
    match c
    case ReqRule(x) => SortMember(z.req, x);
    case RespRule(x) => SortMember(z.resp, x);
    case CorsRule(x) => SortMember(z.cors, x);
  }

  /**
   * Nothing is lost, added or mixed up: every rule of every document is in its own phase of the zone that comes
   * out, with its own filter, mode and operations; there are no others, and each phase runs by priority and then
   * by the order in which the documents declare its rules.
   */
  lemma EveryRuleIsInItsPhase(env: Env, docs: seq<Document>, i: nat)
    requires ParseZone(env, docs).Some? && i < |RulesOf(docs).value|
    ensures var rules, z := RulesOf(docs).value, ParseZone(env, docs).value;
            && rules[i].phase in {"request", "response"} && rules[i].mode in {"", "shadow"} && rules[i].ops != []
            && InItsPhase(env, rules[i], i, z)
            && Size(z) == |rules|
            && InRunOrder(z.req) && InRunOrder(z.resp) && InRunOrder(z.cors)
  {
    var rules, z := RulesOf(docs).value, ParseZone(env, docs).value;
    var declared := CompileAll(env, rules).value;
    AllAreInOrder(env, rules);
    AllAreHeld(env, rules, i);
    SortedHolds(declared, CompileRule(env, rules[i], i).value);
    HeldIsInItsPhase(env, rules[i], i, z);
    SortKeepsLength(declared.req);
    SortKeepsLength(declared.resp);
    SortKeepsLength(declared.cors);
    SortRuns(declared.req, |rules|);
    SortRuns(declared.resp, |rules|);
    SortRuns(declared.cors, |rules|);
  }

  /** A document of one rule: it parses if and only if the rule compiles, and then the zone holds just that. */
  lemma LoneRuleParses(env: Env, raw: RawRule)
    ensures ParseZone(env, [Document([raw])]) ==
            match CompileRule(env, raw, 0)
            case None => None
            case Some(ReqRule(x)) => Some(Zone([x], [], []))
            case Some(RespRule(x)) => Some(Zone([], [x], []))
            case Some(CorsRule(x)) => Some(Zone([], [], [x]))
  {
    OneDocument(Document([raw]));
    assert [raw][..0] == [] && CompileAll(env, []) == Some(Zone([], [], []));
    match CompileRule(env, raw, 0)
    case None =>
    case Some(ReqRule(x)) => LoneSorts(x);
    case Some(RespRule(x)) => LoneSorts(x);
    case Some(CorsRule(x)) => LoneSorts(x);
  }

  lemma LoneSorts<T>(rule: Rule<T>)
    ensures SortStable([rule]) == [rule] && [] + [rule] == [rule]
  {
    assert [rule][..0] == [] && [] + [rule] == [rule];
  }
}
