/** The statements of a POD template (pod/actions.py): `if`, `else`, `for`,
    the null statement and variable definitions, acting on the buffer they
    are attached to. Python's `eval`, truth, `len` and `iter` on arbitrary
    objects are an oracle; what the buffers write is a trace of events. */
module PodActions {
  import opened Wrappers
  import Lists

  // ---------------------------------------------------------------------------
  // Values, the oracle and the context
  // ---------------------------------------------------------------------------

  /** A Python value: the booleans `not` produces, the strings the loop puts
      in emptied cells, and any other object. */
  datatype Value = BoolValue(b: bool) | StrValue(s: string) | Other(id: int)

  /** What an arbitrary object does: `eval` of an expression in a context
      (an error gives the exception line), truth, `len` (None when it raises)
      and the items `iter` walks (None when it raises a TypeError). */
  datatype Oracle = Oracle(eval: (string, map<string, Value>) -> Result<Value, string>,
                           truthy: int -> bool, length: int -> Option<int>,
                           items: int -> Option<seq<Value>>)

  /** Python truth of a result, None being false. */
  predicate Truthy(o: Oracle, v: Option<Value>) {
    match v
    case None => false
    case Some(BoolValue(b)) => b
    case Some(StrValue(s)) => s != []
    case Some(Other(id)) => o.truthy(id)
  }

  /** `len(v)`, None when it raises. */
  function Length(o: Oracle, v: Option<Value>): Option<int> {
    match v
    case None => None
    case Some(BoolValue(_)) => None
    case Some(StrValue(s)) => Some(|s|)
    case Some(Other(id)) => o.length(id)
  }

  /** The one-character strings of a string. */
  function Chars(s: string): (r: seq<Value>)
    ensures |r| == |s|
  {
    if s == [] then [] else [StrValue([s[0]])] + Chars(s[1..])
  }

  /** The items `for item in v` walks, None when `iter(v)` raises. */
  function Items(o: Oracle, v: Option<Value>): Option<seq<Value>> {
    match v
    case None => None
    case Some(BoolValue(_)) => None
    case Some(StrValue(s)) => Some(Chars(s))
    case Some(Other(id)) => o.items(id)
  }

  /** A result that is true exactly when it has items, as every Python
      container. */
  predicate Consistent(o: Oracle, v: Option<Value>) {
    Items(o, v).Some? ==> (Truthy(o, v) <==> Items(o, v).value != [])
  }

  /** Built-in values are consistent; only foreign objects may not be. */
  lemma BuiltinsConsistent(o: Oracle, v: Option<Value>)
    requires v.None? || !v.value.Other?
    ensures Consistent(o, v)
  {
  }

  /** The attributes of one walked loop: `length`, and `nb` once set. */
  datatype LoopInfo = LoopInfo(length: int, nb: Option<int>)

  /** The `loop` object of a context: absent, or its attribute per walked
      loop. */
  datatype LoopObject = NoLoop | Loop(attrs: map<string, LoopInfo>)

  /** The attributes of the `loop` object, none when it is absent. */
  function Attrs(l: LoopObject): map<string, LoopInfo> {
    if l.NoLoop? then map[] else l.attrs
  }

  /** The evaluation context: the variables and the `loop` object. */
  datatype Ctx = Ctx(vars: map<string, Value>, loops: LoopObject)

  // ---------------------------------------------------------------------------
  // What the buffers write
  // ---------------------------------------------------------------------------

  /** The events of the result: the buffer evaluated in a context, the value
      of a `from` expression written, an error dumped in place of the
      buffer, an empty cell, the end and start of a row, and the buffer's
      cell evaluated without its sub-elements. */
  datatype Event =
    | BufferEvaluated(ctx: Ctx, removeMainElems: bool)
    | Written(v: Value)
    | ErrorDumped(error: PodError)
    | EmptyCell
    | RowEnded
    | RowStarted(attrs: map<string, string>)
    | CellRepeated(ctx: Ctx)

  /** Where the content comes from: the buffer, or a `from` expression. */
  datatype Source = FromBuffer | FromExpr(fromExpr: string)

  /** The element an action is attached to: a cell with its table's column
      count, its column and the attributes of its row; a table, with whether
      it has a single cell; or another element. */
  datatype Elem =
    | Cell(nbOfColumns: int, colIndex: int, rowAttrs: map<string, string>)
    | Table(oneCell: bool)
    | OtherElem

  /** The errors a statement writes in place of its buffer. */
  datatype PodError =
    | EvalError(expr: string, line: string)
    | FromEvalError(fromExpr: string, line: string)
    | WrongSeqType(expr: string)
    | TableNotOneCell(expr: string)

  function Quoted(s: string): string {
    "\"" + s + "\""
  }

  /** The text written for an error, the exception line ending it when there
      is one. */
  function Message(e: PodError): string {
    match e
    case EvalError(expr, line) => "Error while evaluating expression " + Quoted(expr) + ". " + line
    case FromEvalError(fromExpr, line) =>
      "Error while evaluating the expression " + Quoted(fromExpr) +
      " defined in the \"from\" part of a statement. " + line
    case WrongSeqType(expr) => "Expression " + Quoted(expr) + " is not iterable."
    case TableNotOneCell(expr) =>
      "The table you wanted to populate with '" + expr +
      "' can't be dumped with the '-' option because it has more than one cell in it."
  }

  /** `'%s' % expr`, None printing as `None`. */
  function ExprText(expr: Option<string>): string {
    if expr.Some? then expr.value else "None"
  }

  /** evaluateBuffer in a context: the buffer evaluated, or the value of the
      `from` expression written, or the error it raised. */
  function BodyEvent(o: Oracle, source: Source, minus: bool, ctx: Ctx): (r: Event)
    ensures IsBody(r)
  {
    match source
    case FromBuffer => BufferEvaluated(ctx, minus)
    case FromExpr(f) =>
      match o.eval(f, ctx.vars)
      case Ok(v) => Written(v)
      case Err(line) => ErrorDumped(FromEvalError(f, line))
  }

  predicate IsBody(e: Event) {
    e.BufferEvaluated? || e.Written? || e.ErrorDumped?
  }

  /** The evaluations of the content among the events, in order. */
  function Bodies(es: seq<Event>): (r: seq<Event>)
    ensures |r| <= |es|
    decreases |es|
  {
    if es == [] then []
    else Bodies(es[..|es| - 1]) + (if IsBody(es[|es| - 1]) then [es[|es| - 1]] else [])
  }

  lemma BodiesAppend(a: seq<Event>, e: Event)
    ensures Bodies(a + [e]) == Bodies(a) + (if IsBody(e) then [e] else [])
  {
    assert (a + [e])[..|a|] == a;
  }

  /** The evaluations of two runs of events are those of each. */
  lemma {:induction false} BodiesConcat(a: seq<Event>, b: seq<Event>)
    ensures Bodies(a + b) == Bodies(a) + Bodies(b)
    decreases |b|
  {
    if b == [] {
      assert a + b == a;
    } else {
      var c := b[..|b| - 1];
      assert a + b == (a + c) + [b[|b| - 1]];
      BodiesAppend(a + c, b[|b| - 1]);
      BodiesConcat(a, c);
    }
  }

  // ---------------------------------------------------------------------------
  // Rows of cells
  // ---------------------------------------------------------------------------

  /** How an event counts in the rows of a table: a cell, the end or the
      start of a row, or nothing. */
  datatype Mark = CellMark | RowEndMark | RowStartMark | NoMark

  predicate IsCell(e: Event) {
    IsBody(e) || e.EmptyCell? || e.CellRepeated?
  }

  function MarkOf(e: Event): Mark {
    if e.RowEnded? then RowEndMark
    else if e.RowStarted? then RowStartMark
    else if IsCell(e) then CellMark
    else NoMark
  }

  /** The marks of a run of events, one per event. */
  function Marks(es: seq<Event>): (r: seq<Mark>)
    ensures |r| == |es|
  {
    seq(|es|, i requires 0 <= i < |es| => MarkOf(es[i]))
  }

  lemma MarksConcat(a: seq<Event>, b: seq<Event>)
    ensures Marks(a + b) == Marks(a) + Marks(b)
  {
    forall i | 0 <= i < |a + b|
      ensures Marks(a + b)[i] == (Marks(a) + Marks(b))[i]
    {
      if i < |a| {
        assert (a + b)[i] == a[i];
      } else {
        assert (a + b)[i] == b[i - |a|];
      }
    }
  }

  /** The cells of the current row, and whether every ended row had the
      table's number of cells. */
  datatype Tally = Tally(cells: int, rowsFull: bool)

  function TallyStep(n: int, t: Tally, m: Mark): Tally {
    match m
    case RowEndMark => Tally(t.cells, t.rowsFull && t.cells == n)
    case RowStartMark => Tally(0, t.rowsFull)
    case CellMark => Tally(t.cells + 1, t.rowsFull)
    case NoMark => t
  }

  function TallyMarks(n: int, t: Tally, ms: seq<Mark>): Tally
    decreases |ms|
  {
    if ms == [] then t else TallyStep(n, TallyMarks(n, t, ms[..|ms| - 1]), ms[|ms| - 1])
  }

  /** The tally of a row of an `n`-column table after some events. */
  function Tallied(n: int, t: Tally, es: seq<Event>): Tally {
    TallyMarks(n, t, Marks(es))
  }

  lemma TallyMarksSnoc(n: int, t: Tally, a: seq<Mark>, m: Mark)
    ensures TallyMarks(n, t, a + [m]) == TallyStep(n, TallyMarks(n, t, a), m)
  {
    assert (a + [m])[..|a|] == a;
  }

  lemma {:induction false} TallyMarksAppend(n: int, t: Tally, a: seq<Mark>, b: seq<Mark>)
    ensures TallyMarks(n, t, a + b) == TallyMarks(n, TallyMarks(n, t, a), b)
    decreases |b|
  {
    if b == [] {
      assert a + b == a;
    } else {
      var c := b[..|b| - 1];
      assert a + b == (a + c) + [b[|b| - 1]];
      TallyMarksSnoc(n, t, a + c, b[|b| - 1]);
      TallyMarksAppend(n, t, a, c);
      TallyMarksSnoc(n, TallyMarks(n, t, a), c, b[|b| - 1]);
      assert c + [b[|b| - 1]] == b;
    }
  }

  /** The tally after two runs of events is the second run's from the
      first's. */
  lemma TalliedAppend(n: int, t: Tally, a: seq<Event>, b: seq<Event>)
    ensures Tallied(n, t, a + b) == Tallied(n, Tallied(n, t, a), b)
  {
    MarksConcat(a, b);
    TallyMarksAppend(n, t, Marks(a), Marks(b));
  }

  /** `k` copies of an event, none for a negative `k` (`range(k)`). */
  function Repeated(e: Event, k: int): (r: seq<Event>)
    ensures |r| == if k <= 0 then 0 else k
  {
    seq(if k <= 0 then 0 else k, _ => e)
  }

  lemma RepeatedSnoc(e: Event, k: nat)
    ensures Repeated(e, k + 1) == Repeated(e, k) + [e]
  {
    assert forall i :: 0 <= i < k + 1 ==> Repeated(e, k + 1)[i] == (Repeated(e, k) + [e])[i];
  }

  /** `k` cells. */
  function CellMarks(k: nat): (r: seq<Mark>)
    ensures |r| == k
  {
    seq(k, _ => CellMark)
  }

  lemma {:induction false} TallyCells(n: int, t: Tally, k: nat)
    ensures TallyMarks(n, t, CellMarks(k)) == Tally(t.cells + k, t.rowsFull)
    decreases k
  {
    if k > 0 {
      assert CellMarks(k) == CellMarks(k - 1) + [CellMark];
      TallyMarksSnoc(n, t, CellMarks(k - 1), CellMark);
      TallyCells(n, t, k - 1);
    }
  }

  /** `k` repeated cells add `k` cells to the row. */
  lemma TalliedRepeated(n: int, t: Tally, ctx: Ctx, k: int)
    ensures Tallied(n, t, Repeated(CellRepeated(ctx), k)) == Tally(t.cells + (if k <= 0 then 0 else k), t.rowsFull)
  {
    var m := if k <= 0 then 0 else k;
    assert Marks(Repeated(CellRepeated(ctx), k)) == CellMarks(m);
    TallyCells(n, t, m);
  }

  /** Repeated cells evaluate no content. */
  lemma {:induction false} BodiesRepeated(ctx: Ctx, k: int)
    ensures Bodies(Repeated(CellRepeated(ctx), k)) == []
    decreases k
  {
    if k > 0 {
      var r := Repeated(CellRepeated(ctx), k - 1);
      RepeatedSnoc(CellRepeated(ctx), k - 1);
      BodiesAppend(r, CellRepeated(ctx));
      BodiesRepeated(ctx, k - 1);
    }
  }

  // ---------------------------------------------------------------------------
  // The loop and the variables, as specifications
  // ---------------------------------------------------------------------------

  /** The context of the `k`-th evaluation of a loop's content: the iterator
      name bound to the `k`-th item and `loop.<iter>.nb` equal to `k`. */
  function IterationCtx(vars0: map<string, Value>, loops0: map<string, LoopInfo>, iter: string,
                        total: int, items: seq<Value>, k: nat): Ctx
    requires k < |items|
  {
    Ctx(vars0[iter := items[k]], Loop(loops0[iter := LoopInfo(total, Some(k))]))
  }

  /** The evaluations of the content of a loop over the first `n` items: the
      `k`-th in the `k`-th iteration's context. */
  function ExpectedBodies(o: Oracle, source: Source, minus: bool, vars0: map<string, Value>,
                          loops0: map<string, LoopInfo>, iter: string, total: int,
                          items: seq<Value>, n: nat): (r: seq<Event>)
    requires n <= |items|
    ensures |r| == n
  {
    seq(n, k requires 0 <= k < n => BodyEvent(o, source, minus, IterationCtx(vars0, loops0, iter, total, items, k)))
  }

  /** One more iteration adds its evaluation at the end. */
  lemma ExpectedBodiesSnoc(o: Oracle, source: Source, minus: bool, vars0: map<string, Value>,
                           loops0: map<string, LoopInfo>, iter: string, total: int,
                           items: seq<Value>, n: nat)
    requires n < |items|
    ensures ExpectedBodies(o, source, minus, vars0, loops0, iter, total, items, n + 1) ==
            ExpectedBodies(o, source, minus, vars0, loops0, iter, total, items, n) +
            [BodyEvent(o, source, minus, IterationCtx(vars0, loops0, iter, total, items, n))]
  {
    var a := ExpectedBodies(o, source, minus, vars0, loops0, iter, total, items, n + 1);
    var b := ExpectedBodies(o, source, minus, vars0, loops0, iter, total, items, n) +
             [BodyEvent(o, source, minus, IterationCtx(vars0, loops0, iter, total, items, n))];
    forall k | 0 <= k < n + 1
      ensures a[k] == b[k]
    {
    }
  }

  /** The `k`-th evaluation of a loop's content sees the `k`-th item under
      the iterator name, `loop.<iter>.nb == k` and the loop's length. */
  lemma ExpectedBodiesAt(o: Oracle, source: Source, minus: bool, vars0: map<string, Value>,
                         loops0: map<string, LoopInfo>, iter: string, total: int,
                         items: seq<Value>, n: nat, k: nat)
    requires k < n <= |items|
    ensures var bodies := ExpectedBodies(o, source, minus, vars0, loops0, iter, total, items, n);
            var ctx := IterationCtx(vars0, loops0, iter, total, items, k);
            |bodies| == n && bodies[k] == BodyEvent(o, source, minus, ctx) &&
            ctx.vars[iter] == items[k] && ctx.loops.attrs[iter] == LoopInfo(total, Some(k))
  {
  }

  /** The outcome of evaluating variable definitions in order, each seeing
      the ones before: all bound, or the context when one failed, with its
      expression and the exception line. */
  datatype Binding = Bound(ctx: map<string, Value>) | Failed(ctx: map<string, Value>, expr: string, line: string)

  function Bind(o: Oracle, ctx: map<string, Value>, vars: seq<(string, string)>): Binding
    decreases |vars|
  {
    if vars == [] then Bound(ctx)
    else
      match Bind(o, ctx, vars[..|vars| - 1])
      case Failed(c, e, l) => Failed(c, e, l)
      case Bound(c) =>
        var (name, expr) := vars[|vars| - 1];
        match o.eval(expr, c)
        case Ok(v) => Bound(c[name := v])
        case Err(line) => Failed(c, expr, line)
  }

  function Names(vars: seq<(string, string)>): (r: set<string>)
    ensures forall i :: 0 <= i < |vars| ==> vars[i].0 in r
    decreases |vars|
  {
    if vars == [] then {} else Names(vars[..|vars| - 1]) + {vars[|vars| - 1].0}
  }

  lemma {:induction false} NamesOnly(vars: seq<(string, string)>, k: string)
    requires k in Names(vars)
    ensures exists i :: 0 <= i < |vars| && vars[i].0 == k
    decreases |vars|
  {
    if k != vars[|vars| - 1].0 {
      NamesOnly(vars[..|vars| - 1], k);
      var i :| 0 <= i < |vars| - 1 && vars[..|vars| - 1][i].0 == k;
      assert vars[i].0 == k;
    }
  }

  /** Binding defines every name and changes nothing else; a failure leaves
      the context of the definitions before it. */
  lemma {:induction false} BindFrame(o: Oracle, ctx: map<string, Value>, vars: seq<(string, string)>)
    ensures Bind(o, ctx, vars).Bound? ==>
              Bind(o, ctx, vars).ctx.Keys == ctx.Keys + Names(vars) &&
              forall k :: k in ctx && k !in Names(vars) ==> Bind(o, ctx, vars).ctx[k] == ctx[k]
    ensures Bind(o, ctx, vars).Failed? ==>
              forall k :: k in ctx && k !in Names(vars) ==> k in Bind(o, ctx, vars).ctx && Bind(o, ctx, vars).ctx[k] == ctx[k]
    decreases |vars|
  {
    if vars != [] {
      BindFrame(o, ctx, vars[..|vars| - 1]);
    }
  }

  /** One more definition, after the earlier ones succeeded: its name was
      not defined by them, so it has its former value in their context, and
      the part of the former context it hides is added to what is hidden. */
  lemma BindStep(o: Oracle, ctx0: map<string, Value>, vars: seq<(string, string)>, i: nat)
    requires i < |vars| && DistinctNames(vars) && Bind(o, ctx0, vars[..i]).Bound?
    ensures var c := Bind(o, ctx0, vars[..i]).ctx;
            var (name, e) := vars[i];
            (name in c <==> name in ctx0) && (name in c ==> c[name] == ctx0[name]) &&
            Bind(o, ctx0, vars[..i + 1]) ==
              (match o.eval(e, c) case Ok(v) => Bound(c[name := v]) case Err(line) => Failed(c, e, line)) &&
            Restrict(ctx0, Names(vars[..i + 1])) ==
              if name in ctx0 then Restrict(ctx0, Names(vars[..i]))[name := ctx0[name]] else Restrict(ctx0, Names(vars[..i]))
  {
    assert vars[..i + 1][..i] == vars[..i];
    BindFrame(o, ctx0, vars[..i]);
    NameIsNew(vars, i);
    RestrictAdd(ctx0, Names(vars[..i]), vars[i].0);
  }

  /** Once a definition fails, the later ones change nothing. */
  lemma {:induction false} BindFailedStays(o: Oracle, ctx: map<string, Value>, vars: seq<(string, string)>, i: nat)
    requires i <= |vars| && Bind(o, ctx, vars[..i]).Failed?
    ensures Bind(o, ctx, vars) == Bind(o, ctx, vars[..i])
    decreases |vars| - i
  {
    if i < |vars| {
      assert vars[..i + 1][..i] == vars[..i];
      BindFailedStays(o, ctx, vars, i + 1);
    } else {
      assert vars[..i] == vars;
    }
  }

  /** The context after the variables are restored: the hidden values put
      back, and the names that were not hidden deleted, give the context
      from before the definitions. */
  lemma RestoredContext(ctx0: map<string, Value>, c: map<string, Value>, names: set<string>)
    requires c.Keys == ctx0.Keys + names
    requires forall k :: k in ctx0 && k !in names ==> c[k] == ctx0[k]
    ensures (c + Restrict(ctx0, names)) - (names - Restrict(ctx0, names).Keys) == ctx0
  {
    var r := (c + Restrict(ctx0, names)) - (names - Restrict(ctx0, names).Keys);
    assert r.Keys == ctx0.Keys;
    forall k | k in ctx0
      ensures r[k] == ctx0[k]
    {
    }
  }

  /** The part of `m` at the given keys. */
  function Restrict(m: map<string, Value>, keys: set<string>): (r: map<string, Value>)
    ensures r.Keys == keys * m.Keys
    ensures forall k :: k in r ==> r[k] == m[k]
  {
    map k | k in keys && k in m :: m[k]
  }

  lemma RestrictAdd(m: map<string, Value>, keys: set<string>, k: string)
    ensures Restrict(m, keys + {k}) == if k in m then Restrict(m, keys)[k := m[k]] else Restrict(m, keys)
  {
  }

  // ---------------------------------------------------------------------------
  // The buffer and the actions
  // ---------------------------------------------------------------------------

  /** The buffer an action acts on: its environment's context, the `loop`
      object of that context, and what the result holds. */
  class PodBuffer {
    var context: map<string, Value>
    var loops: LoopObject
    var output: seq<Event>

    function CurrentCtx(): Ctx
      reads this
    {
      Ctx(context, loops)
    }

    constructor (context: map<string, Value>)
      ensures this.context == context && loops == NoLoop && output == []
    {
      this.context := context;
      loops := NoLoop;
      output := [];
    }
  }

  /** What kind of statement an action is; an `else` knows its `if`. */
  datatype Kind = IfKind | ElseKind(ifAction: Action) | ForKind(iter: string) | NullKind |
                  VariablesKind(variables: seq<(string, string)>)

  /** A POD statement: BufferAction and its subclasses. `mainIsCell` says
      whether the buffer's main element is a cell. */
  class Action {
    const kind: Kind
    const expr: Option<string>
    const elem: Elem
    const minus: bool
    const source: Source
    const mainIsCell: bool
    const oracle: Oracle
    const buffer: PodBuffer
    var exprResult: Option<Value>
    var fromExprResult: Option<Value>

    /** An `else` and a variables statement have no expression of their
        own. */
    constructor (kind: Kind, buffer: PodBuffer, expr: Option<string>, elem: Elem, minus: bool,
                 source: Source, mainIsCell: bool, oracle: Oracle)
      ensures this.kind == kind && this.buffer == buffer && this.elem == elem && this.minus == minus
      ensures this.source == source && this.mainIsCell == mainIsCell && this.oracle == oracle
      ensures this.expr == if kind.ElseKind? || kind.VariablesKind? then None else expr
      ensures exprResult == None && fromExprResult == None
    {
      this.kind := kind;
      this.buffer := buffer;
      this.expr := if kind.ElseKind? || kind.VariablesKind? then None else expr;
      this.elem := elem;
      this.minus := minus;
      this.source := source;
      this.mainIsCell := mainIsCell;
      this.oracle := oracle;
      exprResult := None;
      fromExprResult := None;
    }

    /** writeError, for a template (not a PX): the error is dumped in place
        of the buffer. */
    method WriteError(error: PodError)
      modifies buffer
      ensures buffer.output == old(buffer.output) + [ErrorDumped(error)]
      ensures buffer.context == old(buffer.context) && buffer.loops == old(buffer.loops)
    {
      buffer.output := buffer.output + [ErrorDumped(error)];
    }

    /** evaluateExpression: the value and no error, or None and an error
        written. */
    method EvaluateExpression(e: string) returns (res: Option<Value>, error: bool)
      modifies buffer
      ensures buffer.context == old(buffer.context) && buffer.loops == old(buffer.loops)
      ensures oracle.eval(e, old(buffer.context)).Ok? ==>
                res == Some(oracle.eval(e, old(buffer.context)).value) && !error &&
                buffer.output == old(buffer.output)
      ensures oracle.eval(e, old(buffer.context)).Err? ==>
                res == None && error &&
                buffer.output == old(buffer.output) + [ErrorDumped(EvalError(e, oracle.eval(e, old(buffer.context)).error))]
    {
      match oracle.eval(e, buffer.context)
      case Ok(v) =>
        res, error := Some(v), false;
      case Err(line) =>
        res := None;
        WriteError(EvalError(e, line));
        error := true;
    }

    /** evaluateBuffer: one evaluation of the content in the current
        context. */
    method EvaluateBuffer()
      modifies this, buffer
      ensures buffer.output == old(buffer.output) + [BodyEvent(oracle, source, minus, old(buffer.CurrentCtx()))]
      ensures buffer.context == old(buffer.context) && buffer.loops == old(buffer.loops)
      ensures exprResult == old(exprResult)
    {
      match source
      case FromBuffer =>
        buffer.output := buffer.output + [BufferEvaluated(buffer.CurrentCtx(), minus)];
      case FromExpr(f) =>
        fromExprResult := None;
        match oracle.eval(f, buffer.context)
        case Ok(v) =>
          fromExprResult := Some(v);
          buffer.output := buffer.output + [Written(v)];
        case Err(line) =>
          WriteError(FromEvalError(f, line));
    }

    /** IfAction.do: the content when the result is true; otherwise, when
        the buffer is a cell, one empty cell keeps the row's cell count. */
    method DoIf()
      modifies this, buffer
      ensures Truthy(oracle, exprResult) ==>
                buffer.output == old(buffer.output) + [BodyEvent(oracle, source, minus, old(buffer.CurrentCtx()))]
      ensures !Truthy(oracle, exprResult) && mainIsCell ==> buffer.output == old(buffer.output) + [EmptyCell]
      ensures !Truthy(oracle, exprResult) && !mainIsCell ==> buffer.output == old(buffer.output)
      ensures buffer.context == old(buffer.context) && buffer.loops == old(buffer.loops)
      ensures exprResult == old(exprResult)
    {
      if Truthy(oracle, exprResult) {
        EvaluateBuffer();
      } else if mainIsCell {
        buffer.output := buffer.output + [EmptyCell];
      }
    }

    /** ElseAction.do: an `if` on the negation of the last result of its
        `if`. */
    method DoElse()
      requires kind.ElseKind?
      modifies this, buffer
      ensures exprResult == Some(BoolValue(!Truthy(oracle, old(kind.ifAction.exprResult))))
      ensures Truthy(oracle, old(kind.ifAction.exprResult)) ==>
                buffer.output == old(buffer.output) + (if mainIsCell then [EmptyCell] else [])
      ensures !Truthy(oracle, old(kind.ifAction.exprResult)) ==>
                buffer.output == old(buffer.output) + [BodyEvent(oracle, source, minus, old(buffer.CurrentCtx()))]
      ensures buffer.context == old(buffer.context) && buffer.loops == old(buffer.loops)
    {
      exprResult := Some(BoolValue(!Truthy(oracle, kind.ifAction.exprResult)));
      DoIf();
    }

    /** initialiseLoop: the `loop` object is created when missing, and its
        attribute for this loop gets the length of the result, 0 when `len`
        raises. */
    method InitialiseLoop(iter: string)
      modifies buffer
      ensures buffer.loops == Loop(Attrs(old(buffer.loops))[iter := LoopInfo(Length(oracle, exprResult).GetOr(0), None)])
      ensures buffer.context == old(buffer.context) && buffer.output == old(buffer.output)
    {
      var loop := Attrs(buffer.loops);
      var total := match Length(oracle, exprResult) case Some(n) => n case None => 0;
      buffer.loops := Loop(loop[iter := LoopInfo(total, None)]);
    }

    /** One turn of the loop of ForAction.do: `loop.nb` and the iterator set,
        a new row started when the previous one is full, the content
        evaluated. */
    method Iterate(iter: string, item: Value, k: nat, col: int) returns (newCol: int)
      requires buffer.loops.Loop? && iter in buffer.loops.attrs
      modifies this, buffer
      ensures var loops := old(buffer.loops).attrs;
              buffer.loops == Loop(loops[iter := loops[iter].(nb := Some(k))]) &&
              buffer.context == old(buffer.context)[iter := item] &&
              buffer.output == old(buffer.output) +
                (if elem.Cell? && col == elem.nbOfColumns then [RowEnded, RowStarted(elem.rowAttrs)] else []) +
                [BodyEvent(oracle, source, minus, buffer.CurrentCtx())]
      ensures newCol == if !elem.Cell? then col else if col == elem.nbOfColumns then 1 else col + 1
      ensures exprResult == old(exprResult)
    {
      var loop := buffer.loops.attrs;
      buffer.loops := Loop(loop[iter := loop[iter].(nb := Some(k))]);
      buffer.context := buffer.context[iter := item];
      newCol := col;
      if elem.Cell? && newCol == elem.nbOfColumns {
        buffer.output := buffer.output + [RowEnded, RowStarted(elem.rowAttrs)];
        newCol := 0;
      }
      EvaluateBuffer();
      if elem.Cell? {
        newCol := newCol + 1;
      }
    }

    /** `for i in range(k): self.buffer.evaluate(subElements=False)`. */
    method RepeatCell(k: int)
      modifies buffer
      ensures buffer.output == old(buffer.output) + Repeated(CellRepeated(buffer.CurrentCtx()), k)
      ensures buffer.context == old(buffer.context) && buffer.loops == old(buffer.loops)
    {
      var i := 0;
      while i < k
        invariant 0 <= i && (i <= k || i == 0)
        invariant buffer.output == old(buffer.output) + Repeated(CellRepeated(buffer.CurrentCtx()), i)
        invariant buffer.context == old(buffer.context) && buffer.loops == old(buffer.loops)
      {
        RepeatedSnoc(CellRepeated(buffer.CurrentCtx()), i);
        buffer.output := buffer.output + [CellRepeated(buffer.CurrentCtx())];
        i := i + 1;
      }
    }

    /** The end of ForAction.do for a cell: the last row is padded or split
        so that it ends with as many cells as the template's row had up to
        the loop's cell; every row ended on the way is full. */
    method CellsFixed(iter: string, col: int) returns (ghost added: seq<Event>)
      requires elem.Cell? && 0 <= elem.colIndex < elem.nbOfColumns && 0 <= col <= elem.nbOfColumns
      modifies buffer
      ensures buffer.output == old(buffer.output) + added
      ensures buffer.loops == old(buffer.loops)
      ensures buffer.context == old(buffer.context) || buffer.context == old(buffer.context)[iter := StrValue([])]
      ensures Bodies(added) == []
      ensures Tallied(elem.nbOfColumns, Tally(col, true), added) == Tally(elem.colIndex + 1, true)
    {
      var wrongNbOfCells := (col - 1) - elem.colIndex;
      if wrongNbOfCells < 0 {
        added := RowPadded(iter, col);
      } else if wrongNbOfCells > 0 {
        added := RowSplit(iter, col);
      } else {
        added := [];
        assert buffer.output == old(buffer.output) + added;
      }
    }

    /** Too few cells in the last row: empty cells complete it up to the
        template's row. */
    method RowPadded(iter: string, col: int) returns (ghost added: seq<Event>)
      requires elem.Cell? && 0 <= col <= elem.colIndex
      modifies buffer
      ensures buffer.output == old(buffer.output) + added
      ensures buffer.loops == old(buffer.loops) && buffer.context == old(buffer.context)[iter := StrValue([])]
      ensures Bodies(added) == []
      ensures Tallied(elem.nbOfColumns, Tally(col, true), added) == Tally(elem.colIndex + 1, true)
    {
      var wrongNbOfCells := (col - 1) - elem.colIndex;
      buffer.context := buffer.context[iter := StrValue([])];
      RepeatCell(-wrongNbOfCells);
      added := Repeated(CellRepeated(buffer.CurrentCtx()), -wrongNbOfCells);
      TalliedRepeated(elem.nbOfColumns, Tally(col, true), buffer.CurrentCtx(), -wrongNbOfCells);
      BodiesRepeated(buffer.CurrentCtx(), -wrongNbOfCells);
    }

    /** Too many cells in the last row: it is completed with empty cells,
        and a new row gets the cells that make up the template's row. */
    method RowSplit(iter: string, col: int) returns (ghost added: seq<Event>)
      requires elem.Cell? && 0 <= elem.colIndex && elem.colIndex + 1 < col <= elem.nbOfColumns
      modifies buffer
      ensures buffer.output == old(buffer.output) + added
      ensures buffer.loops == old(buffer.loops) && buffer.context == old(buffer.context)[iter := StrValue([])]
      ensures Bodies(added) == []
      ensures Tallied(elem.nbOfColumns, Tally(col, true), added) == Tally(elem.colIndex + 1, true)
    {
      var n := elem.nbOfColumns;
      var wrongNbOfCells := (col - 1) - elem.colIndex;
      var nbOfMissingCells := 0;
      ghost var fillCtx := buffer.CurrentCtx();
      if col < n {
        nbOfMissingCells := n - col;
        buffer.context := buffer.context[iter := StrValue([])];
        fillCtx := buffer.CurrentCtx();
        RepeatCell(nbOfMissingCells);
      }
      buffer.output := buffer.output + [RowEnded, RowStarted(elem.rowAttrs)];
      var nbOfRemainingCells := wrongNbOfCells + nbOfMissingCells;
      var nbOfMissingCellsLastLine := n - nbOfRemainingCells;
      buffer.context := buffer.context[iter := StrValue([])];
      RepeatCell(nbOfMissingCellsLastLine);
      added := Repeated(CellRepeated(fillCtx), nbOfMissingCells) + [RowEnded, RowStarted(elem.rowAttrs)] +
               Repeated(CellRepeated(buffer.CurrentCtx()), nbOfMissingCellsLastLine);
      SplitTally(n, col, elem.colIndex, fillCtx, buffer.CurrentCtx(), elem.rowAttrs);
      SplitBodies(nbOfMissingCells, fillCtx, buffer.CurrentCtx(), nbOfMissingCellsLastLine, elem.rowAttrs);
    }

    /** The loop of ForAction.do over `items`: turn `k` sets `loop.nb` to
        `k` and the iterator to the `k`-th item, and evaluates the content;
        for a cell, the row tally follows the column index. */
    method WalkItems(iter: string, items: seq<Value>, total: int, ghost loops0: map<string, LoopInfo>, col0: int)
      returns (col: int, ghost added: seq<Event>)
      requires buffer.loops == Loop(loops0[iter := LoopInfo(total, None)])
      modifies this, buffer
      ensures exprResult == old(exprResult)
      ensures buffer.output == old(buffer.output) + added
      ensures Bodies(added) == ExpectedBodies(oracle, source, minus, old(buffer.context), loops0, iter, total, items, |items|)
      ensures buffer.loops == Loop(loops0[iter := LoopInfo(total, if items == [] then None else Some(|items| - 1))])
      ensures buffer.context == if items == [] then old(buffer.context) else old(buffer.context)[iter := items[|items| - 1]]
      ensures elem.Cell? && 0 <= col0 < elem.nbOfColumns ==>
                0 <= col <= elem.nbOfColumns && Tallied(elem.nbOfColumns, Tally(col0, true), added) == Tally(col, true)
      ensures items == [] ==> added == [] && col == col0
    {
      ghost var out0 := buffer.output;
      ghost var vars0 := buffer.context;
      ghost var tallied := elem.Cell? && 0 <= col0 < elem.nbOfColumns;
      added := [];
      col := col0;
      var i := 0;
      while i < |items|
        invariant i <= |items|
        invariant exprResult == old(exprResult)
        invariant buffer.output == out0 + added
        invariant Bodies(added) == ExpectedBodies(oracle, source, minus, vars0, loops0, iter, total, items, i)
        invariant buffer.loops == Loop(loops0[iter := LoopInfo(total, if i == 0 then None else Some(i - 1))])
        invariant buffer.context == if i == 0 then vars0 else vars0[iter := items[i - 1]]
        invariant tallied ==> 0 <= col <= elem.nbOfColumns && Tallied(elem.nbOfColumns, Tally(col0, true), added) == Tally(col, true)
        invariant i == 0 ==> added == [] && col == col0
      {
        ghost var turn;
        col, turn := Turn(iter, items, total, loops0, vars0, i, col0, col, added);
        ExpectedBodiesSnoc(oracle, source, minus, vars0, loops0, iter, total, items, i);
        added := added + turn;
        i := i + 1;
      }
    }

    /** One turn of WalkItems, with what it adds to the evaluations and to
        the row tally. */
    method Turn(iter: string, items: seq<Value>, total: int, ghost loops0: map<string, LoopInfo>,
                ghost vars0: map<string, Value>, i: nat, col0: int, col: int, ghost before: seq<Event>)
      returns (newCol: int, ghost turn: seq<Event>)
      requires i < |items|
      requires buffer.loops == Loop(loops0[iter := LoopInfo(total, if i == 0 then None else Some(i - 1))])
      requires buffer.context == if i == 0 then vars0 else vars0[iter := items[i - 1]]
      modifies this, buffer
      ensures exprResult == old(exprResult)
      ensures buffer.output == old(buffer.output) + turn
      ensures Bodies(before + turn) ==
              Bodies(before) + [BodyEvent(oracle, source, minus, IterationCtx(vars0, loops0, iter, total, items, i))]
      ensures buffer.loops == Loop(loops0[iter := LoopInfo(total, Some(i))])
      ensures buffer.context == vars0[iter := items[i]]
      ensures elem.Cell? && 0 <= col <= elem.nbOfColumns && 0 < elem.nbOfColumns &&
              Tallied(elem.nbOfColumns, Tally(col0, true), before) == Tally(col, true) ==>
                0 <= newCol <= elem.nbOfColumns && Tallied(elem.nbOfColumns, Tally(col0, true), before + turn) == Tally(newCol, true)
    {
      ghost var rowFull := elem.Cell? && col == elem.nbOfColumns;
      ghost var out0 := buffer.output;
      newCol := Iterate(iter, items[i], i, col);
      assert buffer.loops.attrs == loops0[iter := LoopInfo(total, Some(i))];
      assert buffer.context == vars0[iter := items[i]];
      ghost var attrs := if elem.Cell? then elem.rowAttrs else map[];
      ghost var body := BodyEvent(oracle, source, minus, buffer.CurrentCtx());
      ghost var rows: seq<Event> := if rowFull then [RowEnded, RowStarted(attrs)] else [];
      turn := rows + [body];
      assert buffer.output == out0 + rows + [body];
      assert out0 + rows + [body] == out0 + turn;
      TurnBodies(before, attrs, body, rowFull);
      if elem.Cell? && 0 <= col <= elem.nbOfColumns && 0 < elem.nbOfColumns &&
         Tallied(elem.nbOfColumns, Tally(col0, true), before) == Tally(col, true) {
        TurnTally(elem.nbOfColumns, Tally(col0, true), before, col, attrs, body, rowFull);
      }
    }

    /** ForAction.do. A result that cannot be iterated gives an error and
        nothing else. Otherwise the content is evaluated once per item, the
        `k`-th time with the iterator bound to the `k`-th item and
        `loop.<iter>` holding `nb == k` and the length; afterwards the loop's
        attribute is gone and the iterator has its former value, or is
        absent when the result was true or empty. For a cell, the row the
        loop ends in holds one cell more than before it, whatever the number
        of items, and every row ended on the way is full. */
    method DoFor()
      requires kind.ForKind?
      modifies this, buffer
      ensures exprResult == old(exprResult)
      ensures Items(oracle, exprResult).None? ==>
                buffer.output == old(buffer.output) + [ErrorDumped(WrongSeqType(ExprText(expr)))] &&
                buffer.context == old(buffer.context) && buffer.loops == old(buffer.loops)
      ensures Items(oracle, exprResult).Some? ==>
                |buffer.output| >= |old(buffer.output)| &&
                buffer.output[..|old(buffer.output)|] == old(buffer.output) &&
                buffer.loops == Loop(Attrs(old(buffer.loops)) - {kind.iter})
      ensures Items(oracle, exprResult).Some? ==>
                var items := Items(oracle, exprResult).value;
                Bodies(buffer.output[|old(buffer.output)|..]) ==
                ExpectedBodies(oracle, source, minus, old(buffer.context), Attrs(old(buffer.loops)), kind.iter,
                               Length(oracle, exprResult).GetOr(0), items, |items|)
      ensures Items(oracle, exprResult).Some? ==>
                var items := Items(oracle, exprResult).value;
                buffer.context ==
                  if kind.iter in old(buffer.context) || Truthy(oracle, exprResult) || items == [] then old(buffer.context)
                  else old(buffer.context)[kind.iter := items[|items| - 1]]
      ensures Items(oracle, exprResult).Some? && elem.Cell? && 0 <= elem.colIndex < elem.nbOfColumns &&
              (Truthy(oracle, exprResult) || Items(oracle, exprResult).value == []) ==>
                Tallied(elem.nbOfColumns, Tally(elem.colIndex, true), buffer.output[|old(buffer.output)|..]) ==
                Tally(elem.colIndex + 1, true)
    {
      var items := Items(oracle, exprResult);
      if items.None? {
        WriteError(WrongSeqType(ExprText(expr)));
        return;
      }
      RunLoop(kind.iter, items.value);
    }

    /** ForAction.do on a result that can be iterated. */
    method RunLoop(iter: string, items: seq<Value>)
      requires Items(oracle, exprResult) == Some(items)
      modifies this, buffer
      ensures exprResult == old(exprResult)
      ensures |buffer.output| >= |old(buffer.output)| && buffer.output[..|old(buffer.output)|] == old(buffer.output)
      ensures buffer.loops == Loop(Attrs(old(buffer.loops)) - {iter})
      ensures Bodies(buffer.output[|old(buffer.output)|..]) ==
              ExpectedBodies(oracle, source, minus, old(buffer.context), Attrs(old(buffer.loops)), iter,
                             Length(oracle, exprResult).GetOr(0), items, |items|)
      ensures buffer.context ==
                if iter in old(buffer.context) || Truthy(oracle, exprResult) || items == [] then old(buffer.context)
                else old(buffer.context)[iter := items[|items| - 1]]
      ensures elem.Cell? && 0 <= elem.colIndex < elem.nbOfColumns && (Truthy(oracle, exprResult) || items == []) ==>
                Tallied(elem.nbOfColumns, Tally(elem.colIndex, true), buffer.output[|old(buffer.output)|..]) ==
                Tally(elem.colIndex + 1, true)
    {
      ghost var out0 := buffer.output;
      ghost var vars0 := buffer.context;
      ghost var loops0 := Attrs(buffer.loops);
      var hidden := if iter in buffer.context then Some(buffer.context[iter]) else None;
      var truthy := Truthy(oracle, exprResult);
      ghost var total := Length(oracle, exprResult).GetOr(0);
      ghost var added := Walk(iter, items);
      EndLoop(iter, hidden, truthy, vars0);
      Overwritten(loops0, iter, LoopInfo(total, if items == [] then None else Some(|items| - 1)));
      ForEvents(out0, added, buffer.output);
    }

    /** The loop of ForAction.do and the fix of the last row, up to the
        removal of the loop's attribute: the iterator is the only variable
        that changes. */
    method Walk(iter: string, items: seq<Value>) returns (ghost added: seq<Event>)
      requires Items(oracle, exprResult) == Some(items)
      modifies this, buffer
      ensures exprResult == old(exprResult)
      ensures buffer.output == old(buffer.output) + added
      ensures Bodies(added) ==
              ExpectedBodies(oracle, source, minus, old(buffer.context), Attrs(old(buffer.loops)), iter,
                             Length(oracle, exprResult).GetOr(0), items, |items|)
      ensures buffer.loops == Loop(Attrs(old(buffer.loops))[iter := LoopInfo(Length(oracle, exprResult).GetOr(0),
                                                                             if items == [] then None else Some(|items| - 1))])
      ensures buffer.context - {iter} == old(buffer.context) - {iter}
      ensures !Truthy(oracle, exprResult) ==>
                buffer.context == if items == [] then old(buffer.context) else old(buffer.context)[iter := items[|items| - 1]]
      ensures elem.Cell? && 0 <= elem.colIndex < elem.nbOfColumns && (Truthy(oracle, exprResult) || items == []) ==>
                Tallied(elem.nbOfColumns, Tally(elem.colIndex, true), added) == Tally(elem.colIndex + 1, true)
    {
      var truthy := Truthy(oracle, exprResult);
      ghost var walkedCtx := if items == [] then buffer.context else buffer.context[iter := items[|items| - 1]];
      Overwritten(buffer.context, iter, if items == [] then StrValue([]) else items[|items| - 1]);
      var col;
      ghost var started;
      ghost var fixedUp: seq<Event> := [];
      col, started := StartAndWalk(iter, items);
      if elem.Cell? && truthy && 0 <= elem.colIndex < elem.nbOfColumns {
        fixedUp := CellsFixed(iter, col);
        if buffer.context != walkedCtx {
          Overwritten(walkedCtx, iter, StrValue([]));
        }
        TalliedAppend(elem.nbOfColumns, Tally(elem.colIndex, true), started, fixedUp);
      }
      added := started + fixedUp;
      assert fixedUp == [] ==> added == started;
      BodiesConcat(started, fixedUp);
    }

    /** The start of ForAction.do and its loop over the items. */
    method StartAndWalk(iter: string, items: seq<Value>) returns (col: int, ghost started: seq<Event>)
      requires Items(oracle, exprResult) == Some(items)
      modifies this, buffer
      ensures exprResult == old(exprResult)
      ensures buffer.output == old(buffer.output) + started
      ensures Bodies(started) ==
              ExpectedBodies(oracle, source, minus, old(buffer.context), Attrs(old(buffer.loops)), iter,
                             Length(oracle, exprResult).GetOr(0), items, |items|)
      ensures buffer.loops == Loop(Attrs(old(buffer.loops))[iter := LoopInfo(Length(oracle, exprResult).GetOr(0),
                                                                             if items == [] then None else Some(|items| - 1))])
      ensures buffer.context == if items == [] then old(buffer.context) else old(buffer.context)[iter := items[|items| - 1]]
      ensures elem.Cell? && 0 <= elem.colIndex < elem.nbOfColumns && Truthy(oracle, exprResult) ==>
                0 <= col <= elem.nbOfColumns &&
                Tallied(elem.nbOfColumns, Tally(elem.colIndex, true), started) == Tally(col, true)
      ensures elem.Cell? && 0 <= elem.colIndex < elem.nbOfColumns && !Truthy(oracle, exprResult) && items == [] ==>
                Tallied(elem.nbOfColumns, Tally(elem.colIndex, true), started) == Tally(elem.colIndex + 1, true)
    {
      var total := Length(oracle, exprResult).GetOr(0);
      ghost var loops0 := Attrs(buffer.loops);
      ghost var out0 := buffer.output;
      ghost var pre, walked;
      col, pre := StartLoop(iter);
      ghost var out1 := buffer.output;
      col, walked := WalkItems(iter, items, total, loops0, col);
      started := pre + walked;
      assert buffer.output == out0 + started by {
        assert out1 == out0 + pre;
        assert buffer.output == out1 + walked;
      }
      StartBodies(pre, walked);
      if elem.Cell? && 0 <= elem.colIndex < elem.nbOfColumns && (Truthy(oracle, exprResult) || items == []) {
        StartTally(elem.nbOfColumns, elem.colIndex, col, pre, walked, Truthy(oracle, exprResult));
      }
    }

    /** The start of ForAction.do: for a cell and a false result, an empty
        cell; then the loop's attribute. */
    method StartLoop(iter: string) returns (col: int, ghost pre: seq<Event>)
      modifies buffer
      ensures pre == if elem.Cell? && !Truthy(oracle, exprResult) then [EmptyCell] else []
      ensures col == if elem.Cell? then elem.colIndex else 0
      ensures buffer.output == old(buffer.output) + pre && buffer.context == old(buffer.context)
      ensures buffer.loops == Loop(Attrs(old(buffer.loops))[iter := LoopInfo(Length(oracle, exprResult).GetOr(0), None)])
    {
      col := 0;
      pre := [];
      if elem.Cell? {
        col := elem.colIndex;
        if !Truthy(oracle, exprResult) {
          buffer.output := buffer.output + [EmptyCell];
          pre := [EmptyCell];
        }
      }
      InitialiseLoop(iter);
    }

    /** The end of ForAction.do: the loop's attribute deleted, the hidden
        variable restored, or the iterator deleted after a true result. */
    method EndLoop(iter: string, hidden: Option<Value>, truthy: bool, ghost vars0: map<string, Value>)
      requires buffer.loops.Loop?
      requires hidden == if iter in vars0 then Some(vars0[iter]) else None
      requires buffer.context - {iter} == vars0 - {iter}
      modifies buffer
      ensures buffer.loops == Loop(old(buffer.loops).attrs - {iter}) && buffer.output == old(buffer.output)
      ensures buffer.context == if hidden.Some? || truthy then vars0 else old(buffer.context)
    {
      buffer.loops := Loop(buffer.loops.attrs - {iter});
      Restored(buffer.context, vars0, iter);
      if hidden.Some? {
        buffer.context := buffer.context[iter := hidden.value];
      } else if truthy && iter in buffer.context {
        buffer.context := buffer.context - {iter};
      }
    }

    /** NullAction.do: the content, once. */
    method DoNull()
      modifies this, buffer
      ensures buffer.output == old(buffer.output) + [BodyEvent(oracle, source, minus, old(buffer.CurrentCtx()))]
      ensures buffer.context == old(buffer.context) && buffer.loops == old(buffer.loops)
      ensures exprResult == old(exprResult)
    {
      EvaluateBuffer();
    }

    /** VariablesAction.do. The definitions are evaluated in order, each
        seeing the ones before. When one fails its error is written and the
        action stops, the names defined so far staying in the context.
        Otherwise the content is evaluated once with every name defined, and
        the context is then as it was before the action: hidden names get
        their value back, new names are deleted. */
    method DoVariables()
      requires kind.VariablesKind? && DistinctNames(kind.variables)
      modifies this, buffer
      ensures var b := Bind(oracle, old(buffer.context), kind.variables);
              b.Failed? ==> buffer.context == b.ctx &&
                            buffer.output == old(buffer.output) + [ErrorDumped(EvalError(b.expr, b.line))]
      ensures var b := Bind(oracle, old(buffer.context), kind.variables);
              b.Bound? ==> buffer.context == old(buffer.context) &&
                           buffer.output == old(buffer.output) + [BodyEvent(oracle, source, minus, Ctx(b.ctx, old(buffer.loops)))]
      ensures buffer.loops == old(buffer.loops) && exprResult == old(exprResult)
    {
      ghost var ctx0 := buffer.context;
      var ok, hidden := DefineVariables();
      if !ok {
        return;
      }
      EvaluateBuffer();
      var names := Names(kind.variables);
      BindFrame(oracle, ctx0, kind.variables);
      RestoredContext(ctx0, buffer.context, names);
      buffer.context := buffer.context + hidden;
      buffer.context := buffer.context - (names - hidden.Keys);
    }

    /** The definitions of VariablesAction.do, evaluated in order: the
        context gains them until one fails; the values they hide are kept. */
    method DefineVariables() returns (ok: bool, hidden: map<string, Value>)
      requires kind.VariablesKind? && DistinctNames(kind.variables)
      modifies buffer
      ensures var b := Bind(oracle, old(buffer.context), kind.variables);
              ok == b.Bound? && buffer.context == b.ctx &&
              (ok ==> buffer.output == old(buffer.output) && hidden == Restrict(old(buffer.context), Names(kind.variables))) &&
              (!ok ==> buffer.output == old(buffer.output) + [ErrorDumped(EvalError(b.expr, b.line))])
      ensures buffer.loops == old(buffer.loops)
    {
      var vars := kind.variables;
      ghost var ctx0 := buffer.context;
      hidden := map[];
      var i := 0;
      while i < |vars|
        invariant i <= |vars|
        invariant Bind(oracle, ctx0, vars[..i]) == Bound(buffer.context)
        invariant hidden == Restrict(ctx0, Names(vars[..i]))
        invariant buffer.output == old(buffer.output) && buffer.loops == old(buffer.loops)
      {
        var (name, e) := vars[i];
        BindStep(oracle, ctx0, vars, i);
        var result, error := EvaluateExpression(e);
        if error {
          BindFailedStays(oracle, ctx0, vars, i + 1);
          return false, hidden;
        }
        if name in buffer.context {
          hidden := hidden[name := buffer.context[name]];
        }
        buffer.context := buffer.context[name := result.value];
        i := i + 1;
      }
      assert vars[..i] == vars;
      ok := true;
    }

    /** BufferAction.execute. With `-` on a table of several cells, only the
        error is written. Otherwise the expression, when there is one, is
        evaluated: an error is written and nothing else happens, or its
        value becomes the result and the statement runs. */
    method Execute()
      requires kind.VariablesKind? ==> DistinctNames(kind.variables)
      modifies this, buffer
      ensures TableRefused() ==>
                buffer.output == old(buffer.output) + [ErrorDumped(TableNotOneCell(ExprText(expr)))] &&
                buffer.context == old(buffer.context) && buffer.loops == old(buffer.loops) &&
                exprResult == old(exprResult)
      ensures !TableRefused() && Evaluates() && oracle.eval(expr.value, old(buffer.context)).Err? ==>
                buffer.output == old(buffer.output) +
                  [ErrorDumped(EvalError(expr.value, oracle.eval(expr.value, old(buffer.context)).error))] &&
                buffer.context == old(buffer.context) && buffer.loops == old(buffer.loops) &&
                exprResult == None
      ensures !TableRefused() && Evaluates() && oracle.eval(expr.value, old(buffer.context)).Ok? && !kind.ElseKind? ==>
                exprResult == Some(oracle.eval(expr.value, old(buffer.context)).value)
      ensures !TableRefused() && !Evaluates() && !kind.ElseKind? ==> exprResult == old(exprResult)
      ensures !TableRefused() && (!Evaluates() || oracle.eval(expr.value, old(buffer.context)).Ok?) &&
              (kind.IfKind? || kind.NullKind?) ==>
                buffer.context == old(buffer.context) && buffer.loops == old(buffer.loops) &&
                buffer.output == old(buffer.output) +
                  (if kind.NullKind? || Truthy(oracle, exprResult) then [BodyEvent(oracle, source, minus, old(buffer.CurrentCtx()))]
                   else if mainIsCell then [EmptyCell] else [])
      ensures !TableRefused() && (!Evaluates() || oracle.eval(expr.value, old(buffer.context)).Ok?) && kind.ElseKind? ==>
                var prior := if Evaluates() && kind.ifAction == this then Some(oracle.eval(expr.value, old(buffer.context)).value)
                             else old(kind.ifAction.exprResult);
                exprResult == Some(BoolValue(!Truthy(oracle, prior))) &&
                buffer.context == old(buffer.context) && buffer.loops == old(buffer.loops) &&
                buffer.output == old(buffer.output) +
                  (if !Truthy(oracle, prior) then [BodyEvent(oracle, source, minus, old(buffer.CurrentCtx()))]
                   else if mainIsCell then [EmptyCell] else [])
      ensures !TableRefused() && (!Evaluates() || oracle.eval(expr.value, old(buffer.context)).Ok?) && kind.ForKind? &&
              Items(oracle, exprResult).None? ==>
                  buffer.output == old(buffer.output) + [ErrorDumped(WrongSeqType(ExprText(expr)))] &&
                  buffer.context == old(buffer.context) && buffer.loops == old(buffer.loops)
      ensures !TableRefused() && (!Evaluates() || oracle.eval(expr.value, old(buffer.context)).Ok?) && kind.ForKind? &&
              Items(oracle, exprResult).Some? ==>
                  |buffer.output| >= |old(buffer.output)| &&
                  buffer.output[..|old(buffer.output)|] == old(buffer.output) &&
                  buffer.loops == Loop(Attrs(old(buffer.loops)) - {kind.iter})
      ensures !TableRefused() && (!Evaluates() || oracle.eval(expr.value, old(buffer.context)).Ok?) && kind.ForKind? &&
              Items(oracle, exprResult).Some? ==>
                  var items := Items(oracle, exprResult).value;
                  Bodies(buffer.output[|old(buffer.output)|..]) ==
                  ExpectedBodies(oracle, source, minus, old(buffer.context), Attrs(old(buffer.loops)), kind.iter,
                                 Length(oracle, exprResult).GetOr(0), items, |items|)
      ensures !TableRefused() && (!Evaluates() || oracle.eval(expr.value, old(buffer.context)).Ok?) && kind.ForKind? &&
              Items(oracle, exprResult).Some? ==>
                  var items := Items(oracle, exprResult).value;
                  buffer.context ==
                    if kind.iter in old(buffer.context) || Truthy(oracle, exprResult) || items == [] then old(buffer.context)
                    else old(buffer.context)[kind.iter := items[|items| - 1]]
      ensures !TableRefused() && (!Evaluates() || oracle.eval(expr.value, old(buffer.context)).Ok?) && kind.ForKind? &&
              Items(oracle, exprResult).Some? && elem.Cell? && 0 <= elem.colIndex < elem.nbOfColumns &&
              (Truthy(oracle, exprResult) || Items(oracle, exprResult).value == []) ==>
                  Tallied(elem.nbOfColumns, Tally(elem.colIndex, true), buffer.output[|old(buffer.output)|..]) ==
                  Tally(elem.colIndex + 1, true)
      ensures !TableRefused() && (!Evaluates() || oracle.eval(expr.value, old(buffer.context)).Ok?) && kind.VariablesKind? ==>
                var b := Bind(oracle, old(buffer.context), kind.variables);
                buffer.loops == old(buffer.loops) &&
                (b.Failed? ==> buffer.context == b.ctx &&
                               buffer.output == old(buffer.output) + [ErrorDumped(EvalError(b.expr, b.line))]) &&
                (b.Bound? ==> buffer.context == old(buffer.context) &&
                              buffer.output == old(buffer.output) + [BodyEvent(oracle, source, minus, Ctx(b.ctx, old(buffer.loops)))])
    {
      if TableRefused() {
        WriteError(TableNotOneCell(ExprText(expr)));
        return;
      }
      var error := false;
      if Evaluates() {
        exprResult, error := EvaluateExpression(expr.value);
      }
      if !error {
        match kind
        case IfKind => DoIf();
        case ElseKind(_) => DoElse();
        case ForKind(_) => DoFor();
        case NullKind => DoNull();
        case VariablesKind(_) => DoVariables();
      }
    }

    /** `-` on a table that has more than one cell. */
    predicate TableRefused() {
      minus && elem.Table? && !elem.oneCell
    }

    /** `if self.expr`: there is a non-empty expression to evaluate. */
    predicate Evaluates() {
      expr.Some? && expr.value != ""
    }
  }

  /** The names of a definition dictionary are distinct. */
  predicate DistinctNames(vars: seq<(string, string)>) {
    forall i, j :: 0 <= i < j < |vars| ==> vars[i].0 != vars[j].0
  }

  /** With distinct names, the `i`-th name is not among the ones before. */
  lemma NameIsNew(vars: seq<(string, string)>, i: nat)
    requires i < |vars| && DistinctNames(vars)
    ensures vars[i].0 !in Names(vars[..i])
  {
    if vars[i].0 in Names(vars[..i]) {
      NamesOnly(vars[..i], vars[i].0);
    }
  }

  /** A turn of the loop: a full row is closed and a new one started before
      the cell is evaluated. */
  lemma RowTally(n: int, t: Tally, attrs: map<string, string>, body: Event, rowFull: bool)
    requires IsBody(body) && t.rowsFull && (rowFull ==> t.cells == n)
    ensures Tallied(n, t, (if rowFull then [RowEnded, RowStarted(attrs)] else []) + [body]) ==
            Tally(if rowFull then 1 else t.cells + 1, true)
  {
    var ms := Marks((if rowFull then [RowEnded, RowStarted(attrs)] else []) + [body]);
    if rowFull {
      assert ms == [RowEndMark, RowStartMark] + [CellMark];
      TallyMarksSnoc(n, t, [RowEndMark, RowStartMark], CellMark);
      RowTurnedMarks(n, t);
    } else {
      assert ms == [] + [CellMark];
      TallyMarksSnoc(n, t, [], CellMark);
    }
  }

  lemma RowTurnedMarks(n: int, t: Tally)
    ensures TallyMarks(n, t, [RowEndMark, RowStartMark]) == Tally(0, t.rowsFull && t.cells == n)
  {
    assert [RowEndMark, RowStartMark] == [RowEndMark] + [RowStartMark];
    assert [RowEndMark] == [] + [RowEndMark];
    TallyMarksSnoc(n, t, [RowEndMark], RowStartMark);
    TallyMarksSnoc(n, t, [], RowEndMark);
  }

  /** Closing a full row and starting a new one leaves an empty row. */
  lemma RowTurned(n: int, t: Tally, attrs: map<string, string>)
    requires t == Tally(n, true)
    ensures Tallied(n, t, [RowEnded, RowStarted(attrs)]) == Tally(0, true)
  {
    assert Marks([RowEnded, RowStarted(attrs)]) == [RowEndMark, RowStartMark];
    RowTurnedMarks(n, t);
  }

  /** The events of ForAction.do, as the run of each of its steps. */
  lemma ForEvents(out0: seq<Event>, added: seq<Event>, out: seq<Event>)
    requires out == out0 + added
    ensures |out| >= |out0| && out[..|out0|] == out0 && out[|out0|..] == added
  {
  }

  /** A turn adds its content's evaluation and nothing else to the
      evaluations. */
  lemma TurnBodies(before: seq<Event>, attrs: map<string, string>, body: Event, rowFull: bool)
    requires IsBody(body)
    ensures Bodies(before + ((if rowFull then [RowEnded, RowStarted(attrs)] else []) + [body])) == Bodies(before) + [body]
  {
    var rows: seq<Event> := if rowFull then [RowEnded, RowStarted(attrs)] else [];
    assert before + (rows + [body]) == (before + rows) + [body];
    BodiesAppend(before + rows, body);
    BodiesConcat(before, rows);
    if rowFull {
      BodiesAppend([RowEnded], RowStarted(attrs));
      BodiesAppend([], RowEnded);
      assert [] + [RowEnded] == [RowEnded];
      assert [RowEnded] + [RowStarted(attrs)] == rows;
    }
  }

  /** A turn on a cell: the row, closed when full, gets one more cell. */
  lemma TurnTally(n: int, t0: Tally, before: seq<Event>, col: int, attrs: map<string, string>, body: Event, rowFull: bool)
    requires IsBody(body) && 0 <= col <= n && Tallied(n, t0, before) == Tally(col, true) && (rowFull <==> col == n)
    ensures Tallied(n, t0, before + ((if rowFull then [RowEnded, RowStarted(attrs)] else []) + [body])) ==
            Tally(if rowFull then 1 else col + 1, true)
  {
    var rows: seq<Event> := if rowFull then [RowEnded, RowStarted(attrs)] else [];
    TalliedAppend(n, t0, before, rows + [body]);
    RowTally(n, Tally(col, true), attrs, body, rowFull);
  }

  /** The start of a `for` on a cell: an empty cell for a false result, or
      the walked cells. */
  lemma StartTally(n: int, c0: int, col: int, pre: seq<Event>, walked: seq<Event>, truthy: bool)
    requires 0 <= c0 < n
    requires truthy ==> pre == [] && Tallied(n, Tally(c0, true), walked) == Tally(col, true)
    requires !truthy ==> pre == [EmptyCell] && walked == []
    ensures Tallied(n, Tally(c0, true), pre + walked) == if truthy then Tally(col, true) else Tally(c0 + 1, true)
  {
    if truthy {
      assert pre + walked == walked;
    } else {
      assert pre + walked == [EmptyCell];
      assert Marks([EmptyCell]) == [] + [CellMark];
      TallyMarksSnoc(n, Tally(c0, true), [], CellMark);
    }
  }

  /** The evaluations of the start of a `for` are those of its walk. */
  lemma StartBodies(pre: seq<Event>, walked: seq<Event>)
    requires pre == [] || pre == [EmptyCell]
    ensures Bodies(pre + walked) == Bodies(walked)
  {
    BodiesConcat(pre, walked);
    if pre != [] {
      BodiesAppend([], EmptyCell);
      assert [] + [EmptyCell] == pre;
    }
  }

  /** Splitting an overfull last row: empty cells complete it, and the new
      row gets as many cells as the template's row had up to the loop's
      cell. */
  lemma SplitTally(n: int, col: int, c0: int, fillCtx: Ctx, lastCtx: Ctx, attrs: map<string, string>)
    requires 0 <= c0 && c0 + 1 < col <= n
    ensures Tallied(n, Tally(col, true), Repeated(CellRepeated(fillCtx), n - col) + [RowEnded, RowStarted(attrs)] +
                                         Repeated(CellRepeated(lastCtx), c0 + 1)) == Tally(c0 + 1, true)
  {
    var fill := Repeated(CellRepeated(fillCtx), n - col);
    var rows := [RowEnded, RowStarted(attrs)];
    var last := Repeated(CellRepeated(lastCtx), c0 + 1);
    TalliedRepeated(n, Tally(col, true), fillCtx, n - col);
    TalliedRepeated(n, Tally(0, true), lastCtx, c0 + 1);
    RowTurned(n, Tally(n, true), attrs);
    TalliedAppend(n, Tally(col, true), fill, rows + last);
    TalliedAppend(n, Tally(n, true), rows, last);
    assert fill + rows + last == fill + (rows + last);
  }

  /** Splitting a row evaluates no content. */
  lemma SplitBodies(k: int, fillCtx: Ctx, lastCtx: Ctx, m: int, attrs: map<string, string>)
    ensures Bodies(Repeated(CellRepeated(fillCtx), k) + [RowEnded, RowStarted(attrs)] +
                   Repeated(CellRepeated(lastCtx), m)) == []
  {
    var fill := Repeated(CellRepeated(fillCtx), k);
    var rows := [RowEnded, RowStarted(attrs)];
    var last := Repeated(CellRepeated(lastCtx), m);
    BodiesRepeated(fillCtx, k);
    BodiesRepeated(lastCtx, m);
    BodiesConcat(fill + rows, last);
    BodiesConcat(fill, rows);
    BodiesAppend([RowEnded], RowStarted(attrs));
    BodiesAppend([], RowEnded);
    assert [] + [RowEnded] == [RowEnded];
    assert [RowEnded] + [RowStarted(attrs)] == rows;
  }

  /** Setting a key changes the map only at that key. */
  lemma Overwritten<K, V>(m: map<K, V>, k: K, v: V)
    ensures m[k := v] - {k} == m - {k}
  {
  }

  /** A map that agrees with `m0` off key `k` is `m0` again once the key is
      put back or, when `m0` lacks it, removed. */
  lemma Restored<K, V>(m: map<K, V>, m0: map<K, V>, k: K)
    requires m - {k} == m0 - {k}
    ensures k in m0 ==> m[k := m0[k]] == m0
    ensures k !in m0 ==> m - {k} == m0 && (k !in m ==> m == m0)
  {
    forall j | j != k
      ensures (j in m <==> j in m0) && (j in m ==> m[j] == m0[j])
    {
      assert j in m <==> j in m - {k};
      assert j in m0 <==> j in m0 - {k};
      if j in m {
        assert (m - {k})[j] == m[j];
        assert (m0 - {k})[j] == m0[j];
      }
    }
  }
}
